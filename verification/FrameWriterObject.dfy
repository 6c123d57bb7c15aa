/**
 * The frame writer as the object the program uses.  Each method is one call (or one turn of the
 * write loop) running without interference; `trace` records the atomic steps it is made of, so that
 * every theorem about runs holds of the object.
 */
module FrameWriterObject {
  import opened Collections
  import FrameCodec
  import opened FrameWriter
  import opened FrameWriterConservation
  import opened FrameWriterOrder
  import opened FrameWriterSafety
  import opened FrameWriterSteps

  function Repeat(n: nat, e: Step): seq<Step> {
    seq(n, _ => e)
  }

  lemma RepeatNext(n: nat, e: Step)
    ensures Repeat(0, e) == [] && Repeat(n + 1, e) == Repeat(n, e) + [e]
  {
  }

  // ---------------------------------------------------------------- what the flushing sections do

  lemma FlushByLoopEffect(s: State, bad: set<Frame>)
    ensures var t := FlushBatchByLoop(s, bad);
      && t.batch == [] && t.log.attemptedData == s.log.attemptedData + s.batch && t.queue == s.queue
      && t.flushing == s.flushing && t.panicked == s.panicked
  {
    FlushFramesEffect(s, s.batch, bad);
  }

  lemma FlushLeaveEffect(s: State, bad: set<Frame>)
    ensures var t := FlushLeaveSection(s, bad);
      && t.batch == [] && t.queue == s.queue && t.log.attemptedData == s.log.attemptedData + s.batch
      && !t.flushing && t.panicked == s.panicked
  {
    hide FlushFrames;
    FlushFramesEffect(s, s.batch, bad);
  }

  lemma LogAttemptEffect(log: Log, f: Frame, kind: Kind, failed: bool)
    ensures var l := LogAttempt(log, f, kind, failed);
      l.attempts == log.attempts + [Attempt(f, kind, failed)] && l.released == log.released + [f]
  {
  }

  /** As long as the writer is not closed, nobody has called `Close` and nothing was discarded. */
  lemma StillOpen(c: Config, steps: seq<Step>)
    ensures var s := Run(c, steps);
      !s.closed ==> s.closer.NotCalled? && s.log.discardedData == [] && s.log.discardedControl == []
  {
    SafeRuns(c, steps);
  }

  // ---------------------------------------------------------------- the object

  class Writer {
    const config: Config
    var queue: seq<Frame>
    var controlQueue: seq<Frame>
    var batch: seq<Frame>
    var closed: bool
    var writeErr: Option<Frame>
    var adaptiveFlush: bool
    var lowConcurrencyThreshold: int
    var queuedFrames: int
    var queuedBytes: int
    var marks: map<Frame, int>
    var pending: seq<Producer>
    var loop: Loop
    var closer: Closer
    var flushing: bool
    var panicked: bool
    ghost var log: Log
    ghost var trace: seq<Step>

    ghost function View(): State
      reads this
    {
      State(queue, controlQueue, batch, closed, writeErr, adaptiveFlush, lowConcurrencyThreshold,
            Backlog(queuedFrames, queuedBytes, marks), pending, loop, closer, flushing, panicked, log)
    }

    /** The object is where its steps have taken it. */
    ghost predicate Valid()
      reads this
    {
      View() == Run(config, trace)
    }

    constructor (config: Config)
      ensures Valid() && trace == [] && this.config == config
    {
      this.config := config;
      queue, controlQueue, batch, pending := [], [], [], [];
      closed, writeErr, adaptiveFlush, lowConcurrencyThreshold := false, None, false, 0;
      queuedFrames, queuedBytes, marks := 0, 0, map[];
      loop, closer, flushing, panicked := Top, NotCalled, false, false;
      log, trace := EMPTY_LOG, [];
    }

    ghost method Advance(e: Step)
      requires View() == Next(config, Run(config, trace), e)
      modifies this`trace
      ensures Valid() && trace == old(trace) + [e]
    {
      RunExtends(config, trace, e);
      trace := trace + [e];
    }

    method UnmarkQueued(f: Frame)
      modifies this`queuedFrames, this`queuedBytes, this`marks
      ensures Backlog(queuedFrames, queuedBytes, marks) == Unmark(old(Backlog(queuedFrames, queuedBytes, marks)), f)
      ensures var size := if f in old(marks) && old(marks)[f] > 0 then old(marks)[f] else 0;
        && queuedBytes == old(queuedBytes) - size && queuedFrames == old(queuedFrames) - (if size > 0 then 1 else 0)
        && marks == old(marks)[f := 0]
    {
      var size := if f in marks then marks[f] else 0;
      marks := marks[f := 0];
      if size <= 0 {
        return;
      }
      queuedFrames := queuedFrames - 1;
      queuedBytes := queuedBytes - size;
    }

    /** The first failed write is latched, and closes the writer. */
    method Latch(f: Frame, failed: bool)
      modifies this`closed, this`writeErr
      ensures closed == (old(closed) || (failed && old(writeErr).None?))
      ensures writeErr == if failed && old(writeErr).None? then Some(f) else old(writeErr)
    {
      if failed && writeErr.None? {
        writeErr := Some(f);
        closed := true;
      }
    }

    method FlushFrameLocked(f: Frame, kind: Kind, bad: set<Frame>)
      modifies this`closed, this`writeErr, this`queuedFrames, this`queuedBytes, this`marks, this`log
      ensures View() == FlushFrame(old(View()), f, kind, bad)
      ensures var failed := f.payloadLen > 1048576 || f in bad;
        && writeErr == (if failed && old(writeErr).None? then Some(f) else old(writeErr))
        && (closed <==> old(closed) || (failed && old(writeErr).None?))
        && log.attempts == old(log.attempts) + [Attempt(f, kind, failed)] && log.released == old(log.released) + [f]
      ensures var size := if f in old(marks) && old(marks)[f] > 0 then old(marks)[f] else 0;
        && queuedBytes == old(queuedBytes) - size && queuedFrames == old(queuedFrames) - (if size > 0 then 1 else 0)
        && marks == old(marks)[f := 0]
    {
      hide Unmark, LogAttempt;
      LogAttemptEffect(log, f, kind, f.payloadLen > 1048576 || f in bad);
      var failed := f.payloadLen > FrameCodec.MAX_FRAME_SIZE || f in bad;
      Latch(f, failed);
      UnmarkQueued(f);
      log := LogAttempt(log, f, kind, failed);
    }

    method FlushBatchLocked(bad: set<Frame>)
      modifies this`batch, this`closed, this`writeErr, this`queuedFrames, this`queuedBytes, this`marks, this`log
      ensures View() == FlushBatch(old(View()), bad)
    {
      hide Run, Next, FlushFrame;
      if |batch| == 0 {
        return;
      }
      var i := 0;
      while i < |batch|
        invariant 0 <= i <= |batch| && batch == old(batch)
        invariant FlushFrames(View(), batch[i..], bad) == FlushFrames(old(View()), old(batch), bad)
      {
        FlushFrameLocked(batch[i], Data, bad);
        assert old(batch)[i..][0] == batch[i] && old(batch)[i..][1..] == batch[i + 1..];
        i := i + 1;
      }
      assert batch[i..] == [];
      batch := [];
    }

    method FlushBatchFromLoop(bad: set<Frame>)
      modifies this`batch, this`closed, this`writeErr, this`queuedFrames, this`queuedBytes, this`marks, this`log
      ensures View() == FlushBatchByLoop(old(View()), bad)
    {
      hide FlushFrames;
      ghost var size := |batch|;
      FlushBatchLocked(bad);
      log := log.(byLoop := log.byLoop + size);
    }

    /** The data case of the loop under the mutex: append, and flush if the batch is full or the queue is short. */
    method AppendLocked(f: Frame, bad: set<Frame>)
      modifies this`batch, this`closed, this`writeErr, this`queuedFrames, this`queuedBytes, this`marks, this`log, this`loop
      ensures View() == AppendHeld(config, old(View()), f, bad)
    {
      hide FlushBatchByLoop;
      batch := batch + [f];
      loop := Top;
      if |batch| >= config.maxBatch || (adaptiveFlush && |queue| <= lowConcurrencyThreshold) {
        FlushBatchFromLoop(bad);
      }
    }

    // -------------------------------------------------------------- Flush

    method TakeOne()
      requires Valid() && flushing && !panicked && queue != []
      modifies this`queue, this`batch, this`log, this`trace
      ensures Valid() && trace == old(trace) + [FlushTake]
      ensures queue == old(queue)[1..] && batch == old(batch) + [old(queue)[0]] && log.attemptedData == old(log.attemptedData)
    {
      hide Run, Next;
      log := FlushTakeOne(View()).log;
      batch := batch + [queue[0]];
      queue := queue[1..];
      TakesForFlush(config, Run(config, trace));
      Advance(FlushTake);
    }

    method TakeQueued()
      requires Valid() && flushing && !panicked
      modifies this`queue, this`batch, this`log, this`trace
      ensures Valid() && trace == old(trace) + Repeat(|old(queue)|, FlushTake)
      ensures queue == [] && batch == old(batch) + old(queue) && log.attemptedData == old(log.attemptedData)
    {
      hide Writer.Valid, Repeat;
      ghost var taken := [];
      RepeatNext(0, FlushTake);
      while queue != []
        invariant Valid() && old(queue) == taken + queue && batch == old(batch) + taken
        invariant trace == old(trace) + Repeat(|taken|, FlushTake) && log.attemptedData == old(log.attemptedData)
      {
        RepeatNext(|taken|, FlushTake);
        taken := taken + [queue[0]];
        TakeOne();
      }
    }

    method LeaveFlush(bad: set<Frame>)
      modifies this`batch, this`closed, this`writeErr, this`queuedFrames, this`queuedBytes, this`marks, this`log, this`flushing
      ensures View() == FlushLeaveSection(old(View()), bad)
    {
      hide FlushFrames;
      ghost var size := |batch|;
      FlushBatchLocked(bad);
      flushing := false;
      log := log.(byFlush := log.byFlush + size);
    }

    /** `Flush`: takes whatever is queued, then writes the whole batch, all under the mutex. */
    method Flush(bad: set<Frame>)
      requires Valid() && !flushing && !panicked
      modifies this
      ensures Valid() && !flushing && !panicked
      ensures trace == old(trace) + [FlushEnter] + (if old(closed) then [] else Repeat(|old(queue)|, FlushTake) + [FlushLeave(bad)])
      ensures !old(closed) ==> queue == [] && batch == [] && log.attemptedData == old(log.attemptedData) + old(batch) + old(queue)
    {
      hide Run, Next, FlushLeaveSection, Known;
      StillOpen(config, trace);
      if closed {
        EntersFlush(config, Run(config, trace));
        Advance(FlushEnter);
        return;
      }
      flushing := true;
      EntersFlush(config, Run(config, trace));
      Advance(FlushEnter);
      TakeQueued();
      FlushLeaveEffect(View(), bad);
      LeaveFlush(bad);
      LeavesFlush(config, Run(config, trace), bad);
      Advance(FlushLeave(bad));
      assert old(log.attemptedData) + (old(batch) + old(queue)) == old(log.attemptedData) + old(batch) + old(queue);
    }

    // -------------------------------------------------------------- Close

    method DiscardOne()
      requires Valid() && !panicked && closer.DrainingData? && queue != []
      modifies this`queue, this`queuedFrames, this`queuedBytes, this`marks, this`log, this`trace
      ensures Valid() && trace == old(trace) + [DiscardData] && queue == old(queue)[1..]
      ensures log.discardedData == old(log.discardedData) + [old(queue)[0]] && log.discardedControl == old(log.discardedControl)
    {
      hide Run, Next, Unmark;
      DropHead();
      Discards(config, Run(config, trace));
      Advance(DiscardData);
    }

    method DropHead()
      requires queue != []
      modifies this`queue, this`queuedFrames, this`queuedBytes, this`marks, this`log
      ensures View() == DiscardHead(old(View()))
    {
      hide Unmark;
      var f := queue[0];
      UnmarkQueued(f);
      queue := queue[1..];
      log := log.(discardedData := log.discardedData + [f], released := log.released + [f]);
    }

    method DiscardOneControl()
      requires Valid() && !panicked && closer.DrainingControl? && controlQueue != []
      modifies this`controlQueue, this`queuedFrames, this`queuedBytes, this`marks, this`log, this`trace
      ensures Valid() && trace == old(trace) + [DiscardControl] && controlQueue == old(controlQueue)[1..]
      ensures log.discardedControl == old(log.discardedControl) + [old(controlQueue)[0]] && log.discardedData == old(log.discardedData)
    {
      hide Run, Next, Unmark;
      DropControlHead();
      Discards(config, Run(config, trace));
      Advance(DiscardControl);
    }

    method DropControlHead()
      requires controlQueue != []
      modifies this`controlQueue, this`queuedFrames, this`queuedBytes, this`marks, this`log
      ensures View() == DiscardControlHead(old(View()))
    {
      hide Unmark;
      var f := controlQueue[0];
      UnmarkQueued(f);
      controlQueue := controlQueue[1..];
      log := log.(discardedControl := log.discardedControl + [f], released := log.released + [f]);
    }

    method DiscardQueued()
      requires Valid() && !panicked && closer.DrainingData?
      modifies this`queue, this`queuedFrames, this`queuedBytes, this`marks, this`log, this`closer, this`trace
      ensures Valid() && closer.DrainingControl? && queue == [] && trace == old(trace) + Repeat(|old(queue)| + 1, DiscardData)
      ensures log.discardedData == old(log.discardedData) + old(queue) && log.discardedControl == old(log.discardedControl)
    {
      hide Writer.Valid, Repeat;
      ghost var gone := [];
      RepeatNext(0, DiscardData);
      while queue != []
        invariant Valid() && closer.DrainingData? && old(queue) == gone + queue
        invariant trace == old(trace) + Repeat(|gone|, DiscardData)
        invariant log.discardedData == old(log.discardedData) + gone && log.discardedControl == old(log.discardedControl)
      {
        RepeatNext(|gone|, DiscardData);
        gone := gone + [queue[0]];
        DiscardOne();
      }
      RepeatNext(|gone|, DiscardData);
      FinishData();
    }

    method FinishData()
      requires Valid() && !panicked && closer.DrainingData? && queue == []
      modifies this`closer, this`trace
      ensures Valid() && closer.DrainingControl? && trace == old(trace) + [DiscardData]
    {
      hide Run, Next;
      closer := DrainingControl;
      Discards(config, Run(config, trace));
      Advance(DiscardData);
    }

    method DiscardQueuedControl()
      requires Valid() && !panicked && closer.DrainingControl?
      modifies this`controlQueue, this`queuedFrames, this`queuedBytes, this`marks, this`log, this`trace
      ensures Valid() && controlQueue == [] && trace == old(trace) + Repeat(|old(controlQueue)|, DiscardControl)
      ensures log.discardedControl == old(log.discardedControl) + old(controlQueue)
      ensures log.discardedData == old(log.discardedData)
    {
      hide Writer.Valid, Repeat;
      ghost var gone := [];
      RepeatNext(0, DiscardControl);
      while controlQueue != []
        invariant Valid() && old(controlQueue) == gone + controlQueue
        invariant trace == old(trace) + Repeat(|gone|, DiscardControl)
        invariant log.discardedControl == old(log.discardedControl) + gone
        invariant log.discardedData == old(log.discardedData)
      {
        RepeatNext(|gone|, DiscardControl);
        gone := gone + [controlQueue[0]];
        DiscardOneControl();
      }
    }

    /** No write call is blocked on a full queue. */
    ghost predicate NobodyBlocked()
      reads this
    {
      !Blocked(pending, true) && !Blocked(pending, false)
    }

    /** Closes both queues, if closing them makes no blocked write call panic. */
    method ShutQueues()
      requires Valid() && !flushing && !panicked && !closed
      modifies this`closed, this`closer, this`panicked, this`trace
      ensures Valid() && closed && panicked == !old(NobodyBlocked())
      ensures !panicked ==> closer.DrainingData? && trace == old(trace) + [CloseEnter, CloseQueue, CloseControlQueue]
    {
      hide Run, Next, Known, Blocked;
      SetClosed();
      ShutDataQueue();
      if !panicked {
        ShutControlQueue();
      }
    }

    method SetClosed()
      requires Valid() && !flushing && !panicked && !closed
      modifies this`closed, this`closer, this`trace
      ensures Valid() && closed && closer.FlagSet? && trace == old(trace) + [CloseEnter]
    {
      hide Run, Next, Known;
      closed := true;
      closer := FlagSet;
      EntersClose(config, Run(config, trace));
      Advance(CloseEnter);
    }

    method ShutDataQueue()
      requires Valid() && !panicked && closer.FlagSet?
      modifies this`closer, this`panicked, this`trace
      ensures Valid() && closer.QueueClosed? && panicked == Blocked(pending, true) && trace == old(trace) + [CloseQueue]
    {
      hide Run, Next, Known, Blocked;
      closer, panicked := QueueClosed, Blocked(pending, true);
      ClosesQueues(config, Run(config, trace));
      Advance(CloseQueue);
    }

    method ShutControlQueue()
      requires Valid() && !panicked && closer.QueueClosed?
      modifies this`closer, this`panicked, this`trace
      ensures Valid() && closer.DrainingData? && panicked == Blocked(pending, false) && trace == old(trace) + [CloseControlQueue]
    {
      hide Run, Next, Known, Blocked;
      closer, panicked := DrainingData, Blocked(pending, false);
      ClosesQueues(config, Run(config, trace));
      Advance(CloseControlQueue);
    }

    method DrainQueues()
      requires Valid() && !panicked && closer.DrainingData?
      modifies this`queue, this`controlQueue, this`queuedFrames, this`queuedBytes, this`marks, this`log, this`closer, this`trace
      ensures Valid() && closer.Finished? && queue == controlQueue == []
      ensures trace == old(trace) + Repeat(|old(queue)| + 1, DiscardData) + Repeat(|old(controlQueue)|, DiscardControl) + [CloseDone]
      ensures log.discardedData == old(log.discardedData) + old(queue) && log.discardedControl == old(log.discardedControl) + old(controlQueue)
    {
      hide Run, Next, Known, Repeat;
      DiscardQueued();
      DiscardQueuedControl();
      closer := Finished;
      ClosesQueues(config, Run(config, trace));
      Advance(CloseDone);
    }

    /** `Close`: the first call on a working writer discards what is queued and signals the loop. */
    method Close()
      requires Valid() && !flushing && !panicked
      modifies this
      ensures Valid()
      ensures old(closed) ==> View() == old(View()) && trace == old(trace) + [CloseEnter]
      ensures !old(closed) ==> closed && (panicked <==> exists p :: p in old(pending) && p.stage.Waiting?)
      ensures !old(closed) && !panicked ==>
        trace == old(trace) + [CloseEnter, CloseQueue, CloseControlQueue]
                 + Repeat(|old(queue)| + 1, DiscardData) + Repeat(|old(controlQueue)|, DiscardControl) + [CloseDone]
      ensures !old(closed) && !panicked ==> closer.Finished? && queue == controlQueue == []
      ensures !old(closed) && !panicked ==> log.discardedData == old(queue) && log.discardedControl == old(controlQueue)
    {
      hide Run, Next, Known, Repeat;
      if closed {
        EntersClose(config, Run(config, trace));
        Advance(CloseEnter);
        return;
      }
      StillOpen(config, trace);
      BlockedMeans(pending, true);
      BlockedMeans(pending, false);
      ShutQueues();
      if !panicked {
        DrainQueues();
      }
    }

    // -------------------------------------------------------------- one write call

    method BeginWrite(f: Frame, kind: Kind)
      requires Valid() && !flushing && !panicked && !closed && !kind.Beat? && !Known(View(), f)
      modifies this`pending, this`trace
      ensures Valid() && trace == old(trace) + [Begin(f, kind)] && pending == old(pending) + [Producer(f, kind, Checked)]
    {
      hide Run, Next, Known;
      pending := pending + [Producer(f, kind, Checked)];
      Begins(config, Run(config, trace), f, kind);
      Advance(Begin(f, kind));
    }

    method CountFrame(i: nat)
      requires Valid() && !panicked && i < |pending| && pending[i].stage.Checked?
      modifies this`pending, this`queuedFrames, this`queuedBytes, this`marks, this`trace
      ensures Valid() && trace == old(trace) + [Mark(i)]
      ensures View() == old(View()).(pending := old(pending)[i := old(pending)[i].(stage := Marked)], backlog := AddMark(old(View()).backlog, old(pending)[i].frame))
    {
      hide Run, Next;
      var f := pending[i].frame;
      queuedFrames, queuedBytes, marks := queuedFrames + 1, queuedBytes + f.Size(), marks[f := f.Size()];
      pending := pending[i := pending[i].(stage := Marked)];
      Marks(config, Run(config, trace), i);
      Advance(Mark(i));
    }

    /** The part of a write call before the queues: the closed check, then counting the frame. */
    method EnterWrite(f: Frame, kind: Kind)
      requires Valid() && !flushing && !panicked && !closed && !kind.Beat? && !Known(View(), f)
      modifies this`pending, this`queuedFrames, this`queuedBytes, this`marks, this`trace
      ensures Valid() && trace == old(trace) + [Begin(f, kind), Mark(|old(pending)|)]
      ensures View() == old(View()).(pending := old(pending) + [Producer(f, kind, Marked)], backlog := AddMark(old(View()).backlog, f))
    {
      hide Writer.Valid, Known, AddMark;
      BeginWrite(f, kind);
      CountFrame(|pending| - 1);
    }

    /** The non-blocking send on an open queue. */
    method Offer(i: nat) returns (sent: bool)
      requires i < |pending| && closer.NotCalled? && !pending[i].kind.Beat?
      modifies this`queue, this`controlQueue, this`pending, this`log
      ensures View() == Enqueue(config, old(View()), i)
      ensures sent <==> !old(TargetFull(config, View(), pending[i].kind))
    {
      var p := pending[i];
      if p.kind.Data? && |queue| < config.queueSize {
        queue := queue + [p.frame];
        log := log.(enqueuedData := log.enqueuedData + [p.frame]);
      } else if !p.kind.Data? && |controlQueue| < config.ControlSize() {
        controlQueue := controlQueue + [p.frame];
        log := log.(enqueuedControl := log.enqueuedControl + [p.frame], arrival := log.arrival[p.frame := log.byLoop]);
      } else {
        return false;
      }
      pending := Drop(pending, i);
      return true;
    }

    method BlockWrite(i: nat)
      requires Valid() && !panicked && i < |pending| && pending[i].stage.Marked?
      requires TargetFull(config, View(), pending[i].kind) && !DoneIsClosed(View())
      modifies this`pending, this`trace
      ensures Valid() && trace == old(trace) + [Block(i)] && pending == old(pending)[i := old(pending)[i].(stage := Waiting)]
    {
      hide Run, Next;
      pending := pending[i := pending[i].(stage := Waiting)];
      Blocks(config, Run(config, trace), i);
      Advance(Block(i));
    }

    method ExpireWrite(i: nat)
      requires Valid() && !panicked && i < |pending| && pending[i].stage.Waiting?
      modifies this`pending, this`queuedFrames, this`queuedBytes, this`marks, this`trace
      ensures Valid() && trace == old(trace) + [Expire(i)] && View() == TakeBack(old(View()), i)
    {
      hide Run, Next;
      var f := pending[i].frame;
      queuedFrames, queuedBytes, marks := queuedFrames - 1, queuedBytes - f.Size(), marks[f := 0];
      pending := Drop(pending, i);
      Expires(config, Run(config, trace), i);
      Advance(Expire(i));
    }

    /** A blocked write call that times out or is cancelled. */
    method AbandonWrite(i: nat)
      requires Valid() && !panicked && i < |pending| && pending[i].stage.Marked?
      requires TargetFull(config, View(), pending[i].kind) && !DoneIsClosed(View())
      modifies this`pending, this`queuedFrames, this`queuedBytes, this`marks, this`trace
      ensures Valid() && trace == old(trace) + [Block(i), Expire(i)]
      ensures View() == TakeBack(old(View()), i)
    {
      hide Writer.Valid, TargetFull, TakeMark;
      BlockWrite(i);
      assert Drop(pending, i) == Drop(old(pending), i);
      ExpireWrite(i);
    }

    /** `WriteFrameWithCancel` or `WriteControl`: gives up when its queue stays full. */
    method Write(f: Frame, kind: Kind) returns (accepted: bool)
      requires Valid() && !flushing && !panicked && !kind.Beat? && !Known(View(), f)
      modifies this
      ensures Valid() && !panicked
      ensures kind.Data? ==> (accepted <==> !old(closed) && |old(queue)| < config.queueSize)
      ensures kind.Control? ==> (accepted <==> !old(closed) && |old(controlQueue)| < 256 && |old(controlQueue)| < config.queueSize)
      ensures accepted ==>
                && queuedFrames == old(queuedFrames) + 1 && queuedBytes == old(queuedBytes) + f.payloadLen + 5
                && MarkOf(View().backlog, f) == f.payloadLen + 5
                && queue == (if kind.Data? then old(queue) + [f] else old(queue))
                && controlQueue == (if kind.Data? then old(controlQueue) else old(controlQueue) + [f])
      ensures !accepted ==> queue == old(queue) && controlQueue == old(controlQueue) && pending == old(pending)
                            && queuedFrames == old(queuedFrames) && queuedBytes == old(queuedBytes)
    {
      hide Run, Next, Known;
      StillOpen(config, trace);
      if closed {
        Begins(config, Run(config, trace), f, kind);
        Advance(Begin(f, kind));
        return false;
      }
      var i := |pending|;
      EnterWrite(f, kind);
      assert Drop(pending, i) == old(pending);
      accepted := Offer(i);
      if accepted {
        Sends(config, Run(config, trace), i);
        Advance(Send(i));
      } else {
        AbandonWrite(i);
      }
    }

    // -------------------------------------------------------------- one turn of the write loop

    /** Handles one control frame, or leaves the loop, or goes on to the second `select`. */
    method PollControlQueue(bad: set<Frame>)
      requires Valid() && !flushing && !panicked && loop.Top?
      modifies this
      ensures Valid() && !flushing && !panicked
      ensures old(controlQueue) != [] ==>
                && loop.Top? && controlQueue == old(controlQueue)[1..] && trace == old(trace) + [PollControl, AttemptControl(bad)]
                && log.attemptedControl == old(log.attemptedControl) + [old(controlQueue)[0]]
                && log.attemptedData == old(log.attemptedData)
      ensures old(controlQueue) == [] && old(ControlQueueIsClosed(View())) ==>
                && loop.Exited? && batch == []
                && trace == old(trace) + [PollControl, LeaveLoop(bad)] && log.attemptedData == old(log.attemptedData) + old(batch)
      ensures old(controlQueue) == [] && !old(ControlQueueIsClosed(View())) ==>
                && trace == old(trace) + [PollControl]
                && View() == old(View()).(loop := Select)
    {
      hide Run, Next, Known, Unmark, FlushFrames;
      if controlQueue != [] {
        var f := controlQueue[0];
        controlQueue := controlQueue[1..];
        loop := HoldControl(f);
        Polls(config, Run(config, trace));
        Advance(PollControl);
        FlushFrameLocked(f, Control, bad);
        loop := Top;
        AttemptsControl(config, Run(config, trace), bad);
        Advance(AttemptControl(bad));
      } else if closer.DrainingData? || closer.DrainingControl? || closer.Finished? {
        loop := Leaving;
        Polls(config, Run(config, trace));
        Advance(PollControl);
        LeaveTheLoop(bad);
      } else {
        loop := Select;
        Polls(config, Run(config, trace));
        Advance(PollControl);
      }
    }

    method LeaveTheLoop(bad: set<Frame>)
      requires Valid() && !flushing && !panicked && loop.Leaving?
      modifies this`batch, this`closed, this`writeErr, this`queuedFrames, this`queuedBytes, this`marks, this`log, this`loop, this`trace
      ensures Valid() && loop.Exited? && batch == [] && trace == old(trace) + [LeaveLoop(bad)]
      ensures log.attemptedData == old(log.attemptedData) + old(batch)
    {
      hide Run, Next, Known, FlushBatchByLoop, AppendHeld;
      FlushByLoopEffect(View(), bad);
      FlushBatchFromLoop(bad);
      loop := Exited;
      Leaves(config, Run(config, trace), bad);
      Advance(LeaveLoop(bad));
    }

    /** The loop takes the next data frame. */
    method ReceiveFrame() returns (f: Frame)
      requires Valid() && !panicked && loop.Select? && queue != []
      modifies this`queue, this`loop, this`trace
      ensures Valid() && trace == old(trace) + [ReceiveData]
      ensures f == old(queue)[0] && queue == old(queue)[1..] && loop == HoldData(f)
    {
      hide Run, Next, Known;
      f := queue[0];
      queue := queue[1..];
      loop := HoldData(f);
      ReceivesData(config, Run(config, trace));
      Advance(ReceiveData);
    }

    /** And appends it, writing the batch if it is time. */
    method AppendFrame(f: Frame, bad: set<Frame>)
      requires Valid() && !flushing && !panicked && loop == HoldData(f)
      modifies this`batch, this`closed, this`writeErr, this`queuedFrames, this`queuedBytes, this`marks, this`log, this`loop, this`trace
      ensures Valid() && trace == old(trace) + [AppendData(bad)] && loop.Top?
      ensures var grown := old(batch) + [f];
        if |grown| >= config.maxBatch || (adaptiveFlush && |queue| <= lowConcurrencyThreshold)
        then batch == [] && log.attemptedData == old(log.attemptedData) + grown
        else batch == grown && log.attemptedData == old(log.attemptedData)
    {
      hide Run, Next, AppendHeld;
      AppendHeldEffect(config, View(), f, bad);
      AppendLocked(f, bad);
      Appends(config, Run(config, trace), bad);
      Advance(AppendData(bad));
    }

    /** The data case of the second `select`: append, and flush if the batch is full or the queue is short. */
    method HandleData(bad: set<Frame>)
      requires Valid() && !flushing && !panicked && loop.Select? && queue != []
      modifies this
      ensures Valid() && !flushing && !panicked && loop.Top? && queue == old(queue)[1..]
      ensures trace == old(trace) + [ReceiveData, AppendData(bad)]
      ensures var grown := old(batch) + [old(queue)[0]];
        if |grown| >= config.maxBatch || (adaptiveFlush && |queue| <= lowConcurrencyThreshold)
        then batch == [] && log.attemptedData == old(log.attemptedData) + grown
        else batch == grown && log.attemptedData == old(log.attemptedData)
    {
      hide Writer.Valid;
      var f := ReceiveFrame();
      AppendFrame(f, bad);
    }

    /** The ticker case of the second `select`. */
    method HandleTick(bad: set<Frame>)
      requires Valid() && !flushing && !panicked && loop.Select?
      modifies this
      ensures Valid() && !flushing && !panicked && loop.Top? && trace == old(trace) + [ReceiveTick, FlushTick(bad)]
      ensures batch == [] && log.attemptedData == old(log.attemptedData) + old(batch)
    {
      hide Run, Next, Known, FlushBatchByLoop, AppendHeld;
      loop := Ticked;
      Ticks(config, Run(config, trace));
      Advance(ReceiveTick);
      FlushByLoopEffect(View(), bad);
      FlushBatchFromLoop(bad);
      loop := Top;
      FlushesOnTick(config, Run(config, trace), bad);
      Advance(FlushTick(bad));
    }
  }
}
