/**
 * Control-state invariants of the frame writer and the theorems read off from them: the error latch,
 * what a finished `Close` guarantees, bounded overtaking of control frames, and data order with the
 * `Flush` that can break it.
 */
module FrameWriterSafety {
  import opened Collections
  import opened FrameWriter
  import opened FrameWriterConservation
  import opened FrameWriterOrder
  import opened FrameWriterSteps

  // ---------------------------------------------------------------- invariants

  /** The first failed attempt, and only it, is latched; it closes the writer like `Close` does. */
  ghost predicate Latched(s: State) {
    && s.writeErr == (if s.log.failures == [] then None else Some(s.log.failures[0]))
    && (s.closed <==> s.writeErr.Some? || !s.closer.NotCalled?)
  }

  ghost predicate Shut(c: Config, s: State) {
    && (s.flushing ==> !s.closed)
    && (s.closer.DrainingControl? || s.closer.Finished? ==> s.queue == [])
    && (s.closer.Finished? ==> s.controlQueue == [])
    && (s.loop.Leaving? || s.loop.Exited? ==> QueueIsClosed(s))
    && (s.loop.Exited? ==> s.batch == [])
    && (!s.flushing ==> |s.batch| < Max(1, c.maxBatch))
    && (s.closer.NotCalled? ==> s.log.discardedData == [] && s.log.discardedControl == [])
  }

  /** The batch as the loop will find it when it next owns the mutex. */
  function BatchLeft(s: State): nat {
    if s.flushing then 0 else |s.batch|
  }

  /** Data frames the loop may still attempt before it looks at the control queue again. */
  function Potential(s: State): nat {
    match s.loop
    case Select => BatchLeft(s) + 1
    case HoldData(_) => BatchLeft(s) + 1
    case Ticked => BatchLeft(s)
    case Leaving => BatchLeft(s)
    case _ => 0
  }

  ghost predicate WaitsBounded(c: Config, s: State, f: Frame) {
    f in s.log.arrival && s.log.byLoop + Potential(s) <= s.log.arrival[f] + Max(1, c.maxBatch)
  }

  ghost predicate Bounded(c: Config, s: State) {
    && (forall f :: f in s.controlQueue || f in ControlHand(s) ==> WaitsBounded(c, s, f))
    && |s.log.attemptedData| == s.log.byLoop + s.log.byFlush
  }

  ghost predicate PanicExplained(s: State) {
    s.panicked ==> QueueIsClosed(s) && exists i :: 0 <= i < |s.pending| && !s.pending[i].stage.Checked?
  }

  ghost predicate Safe(c: Config, s: State) {
    Latched(s) && Shut(c, s) && Bounded(c, s) && PanicExplained(s)
  }

  // ---------------------------------------------------------------- critical sections

  lemma {:induction false} FlushFramesLatch(s: State, fs: seq<Frame>, bad: set<Frame>)
    requires Latched(s)
    ensures Latched(FlushFrames(s, fs, bad))
    decreases |fs|
  {
    if fs != [] {
      assert Latched(FlushFrame(s, fs[0], Data, bad));
      FlushFramesLatch(FlushFrame(s, fs[0], Data, bad), fs[1..], bad);
    }
  }

  /** The loop flushing the batch, wherever it comes from. */
  lemma FlushByLoopSafe(c: Config, s: State, bad: set<Frame>, loop: Loop)
    requires Latched(s) && !s.flushing && !s.panicked
    requires s.loop.Ticked? || s.loop.Leaving? || s.loop.Top?
    requires loop == Top || (loop == Exited && QueueIsClosed(s))
    requires s.closer.DrainingControl? || s.closer.Finished? ==> s.queue == []
    requires s.closer.Finished? ==> s.controlQueue == []
    requires s.closer.NotCalled? ==> s.log.discardedData == [] && s.log.discardedControl == []
    requires |s.log.attemptedData| == s.log.byLoop + s.log.byFlush
    requires forall f :: f in s.controlQueue ==> f in s.log.arrival && s.log.byLoop + |s.batch| <= s.log.arrival[f] + Max(1, c.maxBatch)
    ensures Safe(c, FlushBatchByLoop(s, bad).(loop := loop))
  {
    hide FlushFrames;
    FlushFramesEffect(s, s.batch, bad);
    FlushFramesLatch(s, s.batch, bad);
    var t := FlushBatchByLoop(s, bad).(loop := loop);
    assert t.controlQueue == s.controlQueue && t.log.arrival == s.log.arrival;
    forall f | f in t.controlQueue || f in ControlHand(t) ensures WaitsBounded(c, t, f) {
      assert f in s.controlQueue;
    }
  }

  lemma AppendSafe(c: Config, s: State, bad: set<Frame>)
    requires Safe(c, s) && s.loop.HoldData? && !s.flushing && !s.panicked
    ensures Safe(c, AppendHeld(c, s, s.loop.data, bad))
  {
    hide FlushFrames;
    var t := s.(batch := s.batch + [s.loop.data], loop := Top);
    forall f | f in s.controlQueue ensures f in s.log.arrival && s.log.byLoop + |t.batch| <= s.log.arrival[f] + Max(1, c.maxBatch) {
      assert WaitsBounded(c, s, f);
    }
    if ShouldFlushNow(c, t) {
      FlushFramesEffect(t, t.batch, bad);
      FlushByLoopSafe(c, t, bad, Top);
    } else {
      forall f | f in t.controlQueue || f in ControlHand(t) ensures WaitsBounded(c, t, f) {
        assert WaitsBounded(c, s, f);
      }
    }
  }

  /** A change after which no control frame has longer to wait. */
  lemma StillBounded(c: Config, s: State, t: State)
    requires Bounded(c, s)
    requires forall f :: f in t.controlQueue || f in ControlHand(t) ==> f in s.controlQueue || f in ControlHand(s)
    requires t.log.byLoop + Potential(t) <= s.log.byLoop + Potential(s)
    requires t.log.arrival == s.log.arrival
    requires |t.log.attemptedData| == t.log.byLoop + t.log.byFlush
    ensures Bounded(c, t)
  {
    forall f | f in t.controlQueue || f in ControlHand(t) ensures WaitsBounded(c, t, f) {
      assert WaitsBounded(c, s, f);
    }
  }

  // ---------------------------------------------------------------- every step is safe

  /** An accepted control frame starts waiting with nothing attempted since its arrival. */
  lemma SendControlSafe(c: Config, s: State, i: nat)
    requires Safe(c, s) && i < |s.pending| && !s.pending[i].kind.Data?
    requires !ControlQueueIsClosed(s) && |s.controlQueue| < c.ControlSize()
    ensures Bounded(c, Enqueue(c, s, i))
  {
    hide Drop, Latched, PanicExplained;
    var t := Enqueue(c, s, i);
    var f := s.pending[i].frame;
    forall g | g in t.controlQueue || g in ControlHand(t) ensures WaitsBounded(c, t, g) {
      if g != f {
        assert g in s.controlQueue || g in ControlHand(s);
        assert WaitsBounded(c, s, g);
      }
    }
  }

  lemma SendSafe(c: Config, s: State, i: nat)
    requires Safe(c, s) && i < |s.pending| && !s.pending[i].stage.Checked? && !s.panicked
    ensures Safe(c, Enqueue(c, s, i))
  {
    hide Drop, WaitsBounded, Bounded;
    var t := Enqueue(c, s, i);
    if !s.pending[i].kind.Data? && !ControlQueueIsClosed(s) && |s.controlQueue| < c.ControlSize() {
      SendControlSafe(c, s, i);
    } else {
      BoundedCount(c, s);
      StillBounded(c, s, t);
    }
  }

  lemma BoundedCount(c: Config, s: State)
    requires Bounded(c, s)
    ensures |s.log.attemptedData| == s.log.byLoop + s.log.byFlush
  {
  }

  lemma ProducerSafe(c: Config, s: State, e: Step)
    requires Safe(c, s) && !s.panicked
    requires e.Begin? || e.Mark? || e.Send? || e.Block? || e.GiveUp? || e.Expire?
    ensures Safe(c, ProducerStep(c, s, e))
  {
    hide Enqueue, WaitsBounded;
    if e.Send? {
      if e.i < |s.pending| && !s.pending[e.i].stage.Checked? { SendSafe(c, s, e.i); }
    } else {
      hide ProducerStep;
      ProducerLeavesLanes(c, s, e);
      StillBounded(c, s, ProducerStep(c, s, e));
    }
  }

  /** The loop goes somewhere from where it attempts no more data before it polls again. */
  lemma LoopMoveSafe(c: Config, s: State, loop: Loop)
    requires Safe(c, s) && !loop.HoldControl? && !loop.Exited? && (loop.Leaving? ==> QueueIsClosed(s))
    requires Potential(s.(loop := loop)) <= Potential(s)
    ensures Safe(c, s.(loop := loop))
  {
    hide WaitsBounded;
    StillBounded(c, s, s.(loop := loop));
  }

  /** The control queue is empty: nothing waits, whatever the loop does next. */
  lemma SelectSafe(c: Config, s: State, loop: Loop)
    requires Safe(c, s) && s.controlQueue == [] && (loop.Select? || (loop.Leaving? && ControlQueueIsClosed(s)))
    ensures Safe(c, s.(loop := loop))
  {
    hide WaitsBounded;
  }

  lemma TakeControlSafe(c: Config, s: State)
    requires Safe(c, s) && s.loop.Top? && s.controlQueue != []
    ensures Safe(c, s.(controlQueue := s.controlQueue[1..], loop := HoldControl(s.controlQueue[0])))
  {
    hide WaitsBounded;
    StillBounded(c, s, s.(controlQueue := s.controlQueue[1..], loop := HoldControl(s.controlQueue[0])));
  }

  lemma TakeDataSafe(c: Config, s: State)
    requires Safe(c, s) && s.loop.Select? && s.queue != []
    ensures Safe(c, s.(queue := s.queue[1..], loop := HoldData(s.queue[0])))
  {
    hide WaitsBounded;
    StillBounded(c, s, s.(queue := s.queue[1..], loop := HoldData(s.queue[0])));
  }

  lemma ReceiveSafe(c: Config, s: State, e: Step)
    requires Safe(c, s) && !s.panicked
    requires e.PollControl? || e.ReceiveData? || e.ReceiveTick? || e.ReceiveBeat? || e.ReceiveRearm? || e.ReceiveDone?
    ensures Safe(c, LoopStep(c, s, e))
  {
    hide Safe;
    match e
    case PollControl =>
      if s.loop.Top? {
        if s.controlQueue != [] { TakeControlSafe(c, s); } else { SelectSafe(c, s, if ControlQueueIsClosed(s) then Leaving else Select); }
      }
    case ReceiveData =>
      if s.loop.Select? {
        if s.queue != [] { TakeDataSafe(c, s); } else if QueueIsClosed(s) { LoopMoveSafe(c, s, Leaving); }
      }
    case ReceiveTick => if s.loop.Select? { LoopMoveSafe(c, s, Ticked); }
    case ReceiveBeat => if s.loop.Select? { LoopMoveSafe(c, s, Beating); }
    case ReceiveRearm => if s.loop.Select? { LoopMoveSafe(c, s, Top); }
    case ReceiveDone => if s.loop.Select? && DoneIsClosed(s) { LoopMoveSafe(c, s, Leaving); }
  }

  lemma AttemptSafe(c: Config, s: State, f: Frame, kind: Kind, bad: set<Frame>)
    requires Safe(c, s) && !s.flushing && !s.panicked && !kind.Data? && (s.loop.HoldControl? || s.loop.Beating?)
    ensures Safe(c, FlushFrame(s, f, kind, bad).(loop := Top))
  {
    StillBounded(c, s, FlushFrame(s, f, kind, bad).(loop := Top));
  }

  lemma WriteSafe(c: Config, s: State, e: Step)
    requires Safe(c, s) && !s.panicked
    requires e.AttemptControl? || e.AppendData? || e.FlushTick? || e.AttemptBeat? || e.LeaveLoop?
    ensures Safe(c, LoopStep(c, s, e))
  {
    hide FlushFrame, AppendHeld, FlushBatchByLoop, Known;
    match e
    case AttemptControl(bad) => if s.loop.HoldControl? && !s.flushing { AttemptSafe(c, s, s.loop.control, Control, bad); }
    case AppendData(bad) => if s.loop.HoldData? && !s.flushing { AppendSafe(c, s, bad); }
    case FlushTick(bad) =>
      if s.loop.Ticked? && !s.flushing {
        assert forall f :: f in s.controlQueue ==> WaitsBounded(c, s, f);
        FlushByLoopSafe(c, s, bad, Top);
      }
    case AttemptBeat(beat, bad) =>
      if s.loop.Beating? && !s.flushing {
        if beat.None? { StillBounded(c, s, s.(loop := Top)); }
        else if !Known(s, beat.value) { AttemptSafe(c, s, beat.value, Beat, bad); }
      }
    case LeaveLoop(bad) =>
      if s.loop.Leaving? && !s.flushing {
        assert forall f :: f in s.controlQueue ==> WaitsBounded(c, s, f);
        FlushByLoopSafe(c, s, bad, Exited);
      }
  }

  lemma FlushCallSafe(c: Config, s: State, e: Step)
    requires Safe(c, s) && !s.panicked && (e.FlushEnter? || e.FlushTake? || e.FlushLeave?)
    ensures Safe(c, FlushStep(s, e))
  {
    hide FlushFrames;
    var t := FlushStep(s, e);
    if e.FlushLeave? && t != s {
      FlushFramesEffect(s, s.batch, e.bad);
      FlushFramesLatch(s, s.batch, e.bad);
    }
    StillBounded(c, s, t);
  }

  lemma CloseSafe(c: Config, s: State, e: Step)
    requires Safe(c, s) && !s.panicked && CloseStep.requires(s, e)
    ensures Safe(c, CloseStep(s, e))
  {
    hide Bounded, Unmark;
    CloseBounded(c, s, e);
  }

  lemma CloseBounded(c: Config, s: State, e: Step)
    requires Bounded(c, s) && CloseStep.requires(s, e)
    ensures Bounded(c, CloseStep(s, e))
  {
    hide WaitsBounded, CloseStep;
    CloseLeavesLoop(s, e);
    StillBounded(c, s, CloseStep(s, e));
  }

  lemma CloseLeavesLoop(s: State, e: Step)
    requires CloseStep.requires(s, e)
    ensures LeavesLoop(s, CloseStep(s, e))
  {
    hide LeavesLoop, Blocked, DiscardHead, DiscardControlHead;
    NothingLeavesLoop(s, s);
    if e.DiscardData? && s.closer.DrainingData? && s.queue != [] {
      DiscardLeavesLoop(s);
    } else if e.DiscardControl? && s.closer.DrainingControl? && s.controlQueue != [] {
      DiscardControlLeavesLoop(s);
    } else {
      NothingLeavesLoop(s, CloseStep(s, e));
    }
  }

  /** The loop's own state, its accounts and the arrivals stay, and no control frame comes in. */
  ghost predicate LeavesLoop(s: State, t: State) {
    && t.loop == s.loop && t.batch == s.batch && t.flushing == s.flushing
    && t.log.arrival == s.log.arrival && t.log.byLoop == s.log.byLoop && t.log.byFlush == s.log.byFlush
    && t.log.attemptedData == s.log.attemptedData
    && forall f :: f in t.controlQueue ==> f in s.controlQueue
  }

  lemma NothingLeavesLoop(s: State, t: State)
    requires t == s.(closed := t.closed, closer := t.closer, panicked := t.panicked)
    ensures LeavesLoop(s, t)
  {
  }

  lemma DiscardLeavesLoop(s: State)
    requires s.queue != []
    ensures LeavesLoop(s, DiscardHead(s))
  {
    hide Unmark;
  }

  lemma DiscardControlLeavesLoop(s: State)
    requires s.controlQueue != []
    ensures LeavesLoop(s, DiscardControlHead(s))
  {
    hide Unmark;
  }

  lemma NextSafe(c: Config, s: State, e: Step)
    requires Safe(c, s)
    ensures Safe(c, Next(c, s, e))
  {
    hide ProducerStep, FlushStep, CloseStep, LoopStep;
    if s.panicked {
    } else if e.Begin? || e.Mark? || e.Send? || e.Block? || e.GiveUp? || e.Expire? {
      ProducerSafe(c, s, e);
    } else if e.FlushEnter? || e.FlushTake? || e.FlushLeave? {
      FlushCallSafe(c, s, e);
    } else if e.CloseEnter? || e.CloseQueue? || e.CloseControlQueue? || e.DiscardData? || e.DiscardControl? || e.CloseDone? {
      CloseSafe(c, s, e);
    } else if e.SetAdaptive? {
      StillBounded(c, s, Next(c, s, e));
    } else if e.AttemptControl? || e.AppendData? || e.FlushTick? || e.AttemptBeat? || e.LeaveLoop? {
      WriteSafe(c, s, e);
    } else {
      ReceiveSafe(c, s, e);
    }
  }

  lemma {:induction false} SafeRuns(c: Config, steps: seq<Step>)
    ensures Safe(c, Run(c, steps))
  {
    if steps != [] {
      SafeRuns(c, steps[..|steps| - 1]);
      NextSafe(c, Run(c, steps[..|steps| - 1]), steps[|steps| - 1]);
    }
  }

  // ---------------------------------------------------------------- theorems over every run

  /**
   * After the effective `Close` and the loop have both finished nothing is held back: the counters
   * count only producers still deciding, and every accepted frame was released once.
   */
  lemma DrainedAfterClose(c: Config, steps: seq<Step>)
    requires Run(c, steps).closer.Finished? && Run(c, steps).loop.Exited?
    ensures var s := Run(c, steps);
      && s.queue == s.controlQueue == s.batch == []
      && s.backlog.frames == |Gather(s.pending, true)| && s.backlog.bytes == Bytes(Gather(s.pending, true))
      && (s.pending == [] ==> s.backlog.frames == 0 && s.backlog.bytes == 0)
    ensures var s := Run(c, steps); forall f :: Accepted(s, f) == Done(s, f) <= 1
                                             && Count(s.log.released, f) == Done(s, f) + Count(s.log.attemptedBeats, f)
  {
    hide Count, Gather;
    Conservation(c, steps);
    SafeRuns(c, steps);
    var s := Run(c, steps);
    BytesOne(Frame(0, 0));
    EmptyGather();
    forall f ensures Accepted(s, f) == Done(s, f) <= 1
                     && Count(s.log.released, f) == Done(s, f) + Count(s.log.attemptedBeats, f) {
      assert ConservedAt(s, f);
      CountOne(f, f);
    }
  }

  lemma NothingDiscardedYet(c: Config, steps: seq<Step>)
    ensures var s := Run(c, steps);
      s.closer.NotCalled? ==> SetOf(s.log.discardedData) == {} && SetOf(s.log.discardedControl) == {}
  {
    SafeRuns(c, steps);
  }

  lemma EmptyGather()
    ensures Gather([], true) == []
  {
  }

  // ---------------------------------------------------------------- what the loop leaves alone

  /** Nothing comes into the queues, and neither `Close` nor the histories of writers and `Flush` change. */
  ghost predicate LoopKeeps(s: State, t: State) {
    && t.closer == s.closer && |t.queue| <= |s.queue| && |t.controlQueue| <= |s.controlQueue|
    && t.log.overtaken == s.log.overtaken && t.log.enqueuedControl == s.log.enqueuedControl
    && t.log.arrival == s.log.arrival && t.log.byFlush == s.log.byFlush
  }

  lemma MoveKeeps(s: State, t: State)
    requires t == s.(loop := t.loop, queue := t.queue, controlQueue := t.controlQueue)
    requires |t.queue| <= |s.queue| && |t.controlQueue| <= |s.controlQueue|
    ensures LoopKeeps(s, t)
  {
  }

  lemma AttemptKeeps(s: State, f: Frame, kind: Kind, bad: set<Frame>)
    ensures LoopKeeps(s, FlushFrame(s, f, kind, bad).(loop := Top))
  {
    hide Unmark, WriteFails;
  }

  lemma FlushKeeps(s: State, bad: set<Frame>, loop: Loop)
    ensures LoopKeeps(s, FlushBatchByLoop(s, bad).(loop := loop))
  {
    hide FlushFrames;
    FlushFramesEffect(s, s.batch, bad);
  }

  lemma AppendKeeps(c: Config, s: State, f: Frame, bad: set<Frame>)
    ensures LoopKeeps(s, AppendHeld(c, s, f, bad))
  {
    hide FlushFrames;
    var t := s.(batch := s.batch + [f], loop := Top);
    FlushFramesEffect(t, t.batch, bad);
  }

  lemma ReceiveKeeps(c: Config, s: State, e: Step)
    requires e.PollControl? || e.ReceiveData? || e.ReceiveTick? || e.ReceiveBeat? || e.ReceiveRearm? || e.ReceiveDone?
    ensures LoopKeeps(s, LoopStep(c, s, e))
  {
    hide LoopKeeps, FlushFrame, FlushBatchByLoop, AppendHeld, Known;
    MoveKeeps(s, s);
    forall loop ensures LoopKeeps(s, s.(loop := loop)) {
      MoveKeeps(s, s.(loop := loop));
    }
    if e.PollControl? {
      if s.controlQueue != [] { MoveKeeps(s, s.(controlQueue := s.controlQueue[1..], loop := HoldControl(s.controlQueue[0]))); }
    } else if e.ReceiveData? {
      if s.queue != [] { MoveKeeps(s, s.(queue := s.queue[1..], loop := HoldData(s.queue[0]))); }
    }
  }

  lemma LoopLeaves(c: Config, s: State, e: Step)
    requires LoopStep.requires(c, s, e)
    ensures LoopKeeps(s, LoopStep(c, s, e))
  {
    hide LoopKeeps, FlushFrame, FlushBatchByLoop, AppendHeld, Known;
    MoveKeeps(s, s.(loop := Top));
    MoveKeeps(s, s);
    if e.AttemptControl? {
      if s.loop.HoldControl? { AttemptKeeps(s, s.loop.control, Control, e.bad); }
    } else if e.AttemptBeat? {
      if e.beat.Some? { AttemptKeeps(s, e.beat.value, Beat, e.bad); }
    } else if e.AppendData? {
      if s.loop.HoldData? { AppendKeeps(c, s, s.loop.data, e.bad); }
    } else if e.FlushTick? {
      FlushKeeps(s, e.bad, Top);
    } else if e.LeaveLoop? {
      FlushKeeps(s, e.bad, Exited);
    } else {
      hide LoopStep;
      ReceiveKeeps(c, s, e);
    }
  }

  /** A `Flush` takes a frame from the queue while the loop holds one it received before. */
  predicate OvertakesAt(s: State, e: Step) {
    !s.panicked && e.FlushTake? && s.flushing && s.queue != [] && s.loop.HoldData?
  }

  ghost predicate Overtakes(c: Config, steps: seq<Step>) {
    steps != [] && (Overtakes(c, steps[..|steps| - 1]) || OvertakesAt(Run(c, steps[..|steps| - 1]), steps[|steps| - 1]))
  }

  /** The one step that reorders is the one the history notes. */
  lemma NotesOvertaking(c: Config, s: State, e: Step)
    ensures Next(c, s, e).log.overtaken.Some? <==> s.log.overtaken.Some? || OvertakesAt(s, e)
  {
    hide Next, ProducerStep, LoopStep, FlushStep, CloseStep;
    NextParts(c, s, e);
    if s.panicked {
    } else if e.Begin? || e.Mark? || e.Send? || e.Block? || e.GiveUp? || e.Expire? {
      ProducerNotesNothing(c, s, e);
    } else if e.FlushEnter? || e.FlushTake? || e.FlushLeave? {
      FlushNotes(s, e);
    } else if e.CloseEnter? || e.CloseQueue? || e.CloseControlQueue? || e.DiscardData? || e.DiscardControl? || e.CloseDone? {
      CloseNotesNothing(s, e);
    } else if !e.SetAdaptive? {
      LoopLeaves(c, s, e);
    }
  }

  lemma FlushNotes(s: State, e: Step)
    requires !s.panicked && (e.FlushEnter? || e.FlushTake? || e.FlushLeave?)
    ensures FlushStep(s, e).log.overtaken.Some? <==> s.log.overtaken.Some? || OvertakesAt(s, e)
  {
    hide FlushFrames;
    if e.FlushLeave? { FlushFramesEffect(s, s.batch, e.bad); }
  }

  lemma CloseNotesNothing(s: State, e: Step)
    requires CloseStep.requires(s, e)
    ensures CloseStep(s, e).log.overtaken == s.log.overtaken
  {
    hide Unmark, Blocked;
  }

  lemma ProducerNotesNothing(c: Config, s: State, e: Step)
    requires e.Begin? || e.Mark? || e.Send? || e.Block? || e.GiveUp? || e.Expire?
    ensures ProducerStep(c, s, e).log.overtaken == s.log.overtaken
  {
    if !e.Send? { ProducerLeavesLanes(c, s, e); }
  }

  lemma {:induction false} OvertakingIsNoted(c: Config, steps: seq<Step>)
    ensures Run(c, steps).log.overtaken.Some? <==> Overtakes(c, steps)
  {
    hide Next;
    if steps != [] {
      OvertakingIsNoted(c, steps[..|steps| - 1]);
      NotesOvertaking(c, Run(c, steps[..|steps| - 1]), steps[|steps| - 1]);
    }
  }

  /** A sequence in which two frames changed places is no filtering of the original one. */
  lemma OvertakenIsOutOfOrder(enqueued: seq<Frame>, out: seq<Frame>, queue: seq<Frame>, gone: set<Frame>, pair: (Frame, Frame))
    requires Distinct(enqueued) && Before(enqueued, pair.0, pair.1) && Before(out, pair.1, pair.0)
    ensures out + queue != Without(enqueued, gone) && out + queue != enqueued
  {
    hide Without;
    var (x, y) := pair;
    assert out + [] == out;
    BeforeGrows(out, queue, [], y, x);
    assert out + queue + [] == out + queue;
    BeforeOneWay(enqueued, x, y);
    if out + queue == Without(enqueued, gone) {
      WithoutBefore(enqueued, gone, y, x);
    }
  }

  /**
   * Data order, exactly: what was and will be attempted is the enqueue order (less what `Close`
   * discarded) if and only if no `Flush` took a frame while the loop held an earlier one.
   */
  lemma DataOrder(c: Config, steps: seq<Step>)
    ensures var s := Run(c, steps);
      !Overtakes(c, steps) <==> DataOut(s) + s.queue == Without(s.log.enqueuedData, SetOf(s.log.discardedData))
    ensures var s := Run(c, steps);
      s.closer.NotCalled? ==> (!Overtakes(c, steps) <==> DataOut(s) + s.queue == s.log.enqueuedData)
    ensures var s := Run(c, steps); !Overtakes(c, steps) ==> Subsequence(s.log.attemptedData, s.log.enqueuedData)
  {
    hide Run, Conserved, Ordered, SetOf, Without, Subsequence, DataOut, Overtakes;
    Conservation(c, steps);
    OrderedRuns(c, steps);
    NothingDiscardedYet(c, steps);
    OvertakingIsNoted(c, steps);
    var s := Run(c, steps);
    DataOrderAt(s);
    if s.closer.NotCalled? {
      WithoutNone(s.log.enqueuedData);
    }
    if !Overtakes(c, steps) {
      AttemptedAreSubsequence(s);
    }
  }

  lemma DataOrderAt(s: State)
    requires Conserved(s) && Ordered(s)
    ensures s.log.overtaken.None? <==> DataOut(s) + s.queue == Without(s.log.enqueuedData, SetOf(s.log.discardedData))
  {
    hide Conserved, SetOf, Without, Before, DataOut;
    var gone := SetOf(s.log.discardedData);
    Separate(s);
    OrderWhole(s.log.enqueuedData, s.queue, gone);
    if s.log.overtaken.Some? {
      OvertakenIsOutOfOrder(s.log.enqueuedData, DataOut(s), s.queue, gone, s.log.overtaken.value);
    }
  }

  lemma AttemptedAreSubsequence(s: State)
    requires DataOut(s) + s.queue == Without(s.log.enqueuedData, SetOf(s.log.discardedData))
    ensures Subsequence(s.log.attemptedData, s.log.enqueuedData)
  {
    hide SetOf, Without, Subsequence;
    WithoutSubsequence(s.log.enqueuedData, SetOf(s.log.discardedData));
    var rest := s.batch + DataHand(s) + s.queue;
    assert DataOut(s) + s.queue == s.log.attemptedData + rest;
    SubsequencePrefix(s.log.attemptedData, rest, s.log.enqueuedData);
  }

  /** Control frames are always attempted first in, first out. */
  lemma ControlOrder(c: Config, steps: seq<Step>)
    ensures var s := Run(c, steps);
      && ControlOut(s) + s.controlQueue == Without(s.log.enqueuedControl, SetOf(s.log.discardedControl))
      && (s.closer.NotCalled? ==> ControlOut(s) + s.controlQueue == s.log.enqueuedControl)
      && Subsequence(s.log.attemptedControl, s.log.enqueuedControl)
  {
    hide Run, SetOf, Without, Subsequence, ControlOut, Conserved, Ordered;
    Conservation(c, steps);
    OrderedRuns(c, steps);
    NothingDiscardedYet(c, steps);
    var s := Run(c, steps);
    ControlOrderAt(s);
    if s.closer.NotCalled? {
      WithoutNone(s.log.enqueuedControl);
    }
  }

  lemma ControlOrderAt(s: State)
    requires Conserved(s) && Ordered(s)
    ensures ControlOut(s) + s.controlQueue == Without(s.log.enqueuedControl, SetOf(s.log.discardedControl))
    ensures Subsequence(s.log.attemptedControl, s.log.enqueuedControl)
  {
    hide SetOf, Without, Subsequence, Conserved, DataOrdered, IsTail;
    Separate(s);
    var rest := ControlHand(s) + s.controlQueue;
    assert ControlOut(s) + s.controlQueue == s.log.attemptedControl + rest;
    LaneInOrder(s.log.enqueuedControl, s.controlQueue, ControlOut(s), s.log.attemptedControl, rest, SetOf(s.log.discardedControl));
  }

  lemma RunExtends(c: Config, steps: seq<Step>, e: Step)
    ensures Run(c, steps + [e]) == Next(c, Run(c, steps), e)
  {
    assert (steps + [e])[..|steps|] == steps;
  }

  lemma ProducerKeepsArrival(c: Config, s: State, e: Step, f: Frame)
    requires Conserved(s) && f in s.log.enqueuedControl && f in s.log.arrival
    requires e.Begin? || e.Mark? || e.Send? || e.Block? || e.GiveUp? || e.Expire?
    ensures ArrivalKept(s, ProducerStep(c, s, e), f) && ProducerStep(c, s, e).log.byFlush == s.log.byFlush
  {
    hide Count, Bytes, Gather, Known, Drop;
    assert ConservedAt(s, f);
    CountIn(s.log.enqueuedControl, f);
    GatherMembers(s.pending, f);
    CountIn(Gather(s.pending, false), f);
    if e.Send? && e.i < |s.pending| {
      assert s.pending[e.i].frame != f;
    }
  }

  ghost predicate ArrivalKept(s: State, t: State, f: Frame)
    requires f in s.log.arrival
  {
    f in t.log.enqueuedControl && f in t.log.arrival && t.log.arrival[f] == s.log.arrival[f]
  }

  /** A control frame that was accepted keeps its arrival mark. */
  lemma ArrivalStays(c: Config, s: State, e: Step, f: Frame)
    requires Conserved(s) && f in s.log.enqueuedControl && f in s.log.arrival
    ensures ArrivalKept(s, Next(c, s, e), f)
    ensures !e.FlushLeave? ==> Next(c, s, e).log.byFlush == s.log.byFlush
  {
    hide Conserved, Next, ProducerStep, LoopStep, FlushStep, CloseStep;
    NextParts(c, s, e);
    if s.panicked {
    } else if e.Begin? || e.Mark? || e.Send? || e.Block? || e.GiveUp? || e.Expire? {
      ProducerKeepsArrival(c, s, e, f);
    } else if e.FlushEnter? || e.FlushTake? || e.FlushLeave? {
      FlushKeepsArrival(s, e);
    } else if e.CloseEnter? || e.CloseQueue? || e.CloseControlQueue? || e.DiscardData? || e.DiscardControl? || e.CloseDone? {
      CloseKeepsArrival(s, e);
    } else if !e.SetAdaptive? {
      LoopLeaves(c, s, e);
    }
  }

  lemma FlushKeepsArrival(s: State, e: Step)
    requires e.FlushEnter? || e.FlushTake? || e.FlushLeave?
    ensures var t := FlushStep(s, e);
      && t.log.enqueuedControl == s.log.enqueuedControl && t.log.arrival == s.log.arrival
      && (!e.FlushLeave? ==> t.log.byFlush == s.log.byFlush)
  {
    hide FlushFrames;
    if e.FlushLeave? { FlushFramesEffect(s, s.batch, e.bad); }
  }

  lemma CloseKeepsArrival(s: State, e: Step)
    requires CloseStep.requires(s, e)
    ensures var t := CloseStep(s, e);
      t.log.enqueuedControl == s.log.enqueuedControl && t.log.arrival == s.log.arrival && t.log.byFlush == s.log.byFlush
  {
    hide Unmark, Blocked;
  }

  lemma {:induction false} ArrivalRemembered(c: Config, before: seq<Step>, after: seq<Step>, f: Frame)
    requires var s := Run(c, before); f in s.log.enqueuedControl && f in s.log.arrival
    ensures var s, t := Run(c, before), Run(c, before + after);
      && ArrivalKept(s, t, f)
      && ((forall e :: e in after ==> !e.FlushLeave?) ==> t.log.byFlush == s.log.byFlush)
    decreases |after|
  {
    if after == [] {
      assert before + after == before;
    } else {
      var n := |after| - 1;
      assert before + after == before + after[..n] + [after[n]];
      ArrivalRemembered(c, before, after[..n], f);
      Conservation(c, before + after[..n]);
      RunExtends(c, before + after[..n], after[n]);
      ArrivalStays(c, Run(c, before + after[..n]), after[n], f);
    }
  }

  /**
   * From the moment a control frame enters its queue until it is attempted, the write loop attempts
   * at most `max(1, maxBatch)` data frames; with no `Flush` call in between, nobody attempts more.
   */
  lemma BoundedOvertaking(c: Config, before: seq<Step>, i: nat, after: seq<Step>)
    requires var s := Run(c, before);
      !s.panicked && i < |s.pending| && s.pending[i].kind.Control? && !s.pending[i].stage.Checked?
      && !ControlQueueIsClosed(s) && |s.controlQueue| < c.ControlSize()
    ensures var s, t := Run(c, before), Run(c, before + [Send(i)] + after);
      var f := s.pending[i].frame;
      f in t.controlQueue || f in ControlHand(t) ==>
        && t.log.byLoop - s.log.byLoop <= Max(1, c.maxBatch)
        && ((forall e :: e in after ==> !e.FlushLeave?) ==> |t.log.attemptedData| - |s.log.attemptedData| <= Max(1, c.maxBatch))
  {
    hide Next;
    var s := Run(c, before);
    var f := s.pending[i].frame;
    var sent := before + [Send(i)];
    RunExtends(c, before, Send(i));
    SentControl(c, s, i);
    ArrivalRemembered(c, sent, after, f);
    SafeRuns(c, before);
    SafeRuns(c, sent + after);
    var t := Run(c, sent + after);
    if f in t.controlQueue || f in ControlHand(t) {
      assert WaitsBounded(c, t, f);
    }
  }

  lemma SentControl(c: Config, s: State, i: nat)
    requires !s.panicked && i < |s.pending| && s.pending[i].kind.Control? && !s.pending[i].stage.Checked?
    requires !ControlQueueIsClosed(s) && |s.controlQueue| < c.ControlSize()
    ensures var t := Next(c, s, Send(i)); var f := s.pending[i].frame;
      && f in t.controlQueue && f in t.log.enqueuedControl && f in t.log.arrival && t.log.arrival[f] == s.log.byLoop
      && t.log.byFlush == s.log.byFlush
  {
    hide Drop;
    var t := Next(c, s, Send(i));
    assert t.controlQueue[|s.controlQueue|] == s.pending[i].frame;
    assert t.log.enqueuedControl[|s.log.enqueuedControl|] == s.pending[i].frame;
  }

  /** The receive loop of `Flush` never sees a closed queue, where its `break` would spin forever. */
  lemma FlushNeverSpins(c: Config, steps: seq<Step>)
    ensures var s := Run(c, steps); s.flushing ==> !QueueIsClosed(s)
  {
    SafeRuns(c, steps);
  }
}
