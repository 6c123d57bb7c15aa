/**
 * Closing the frame writer: exactly when a `Close` takes effect, exactly when it can make a producer
 * panic, and how soon the queues and the loop are done after it.
 */
module FrameWriterClosing {
  import opened Collections
  import opened FrameWriter
  import opened FrameWriterConservation
  import opened FrameWriterOrder
  import opened FrameWriterSafety
  import opened FrameWriterSteps

  // ---------------------------------------------------------------- which Close takes effect

  /** A write error before any `Close` disables `Close` for good, and the loop never ends. */
  lemma {:induction false} ErrorBeforeCloseKeepsLoop(c: Config, before: seq<Step>, after: seq<Step>)
    requires var s := Run(c, before); s.writeErr.Some? && s.closer.NotCalled?
    ensures var s, t := Run(c, before), Run(c, before + after);
      t.writeErr == s.writeErr && t.closed && t.closer.NotCalled? && !t.loop.Exited?
    decreases |after|
  {
    SafeRuns(c, before);
    if after == [] {
      assert before + after == before;
    } else {
      var n := |after| - 1;
      assert before + after == before + after[..n] + [after[n]];
      ErrorBeforeCloseKeepsLoop(c, before, after[..n]);
      RunExtends(c, before + after[..n], after[n]);
      SafeRuns(c, before + after);
      ErrorStays(c, Run(c, before + after[..n]), after[n]);
    }
  }

  ghost predicate SameError(s: State, t: State) {
    t.writeErr == s.writeErr && t.closed && t.closer.NotCalled?
  }

  lemma LoopKeepsError(c: Config, s: State, e: Step)
    requires s.writeErr.Some? && s.closed && s.closer.NotCalled? && LoopStep.requires(c, s, e)
    ensures SameError(s, LoopStep(c, s, e))
  {
    hide Known, FlushFrames, Unmark;
    match e
    case AppendData(bad) =>
      if s.loop.HoldData? { ErrorStaysInBatch(s.(batch := s.batch + [s.loop.data], loop := Top), s.batch + [s.loop.data], bad); }
    case FlushTick(bad) => ErrorStaysInBatch(s, s.batch, bad);
    case LeaveLoop(bad) => ErrorStaysInBatch(s, s.batch, bad);
    case _ =>
  }

  lemma ErrorStays(c: Config, s: State, e: Step)
    requires s.writeErr.Some? && s.closed && s.closer.NotCalled?
    ensures SameError(s, Next(c, s, e))
  {
    hide Known, FlushFrames, LoopStep, Unmark, Enqueue, TakeBack;
    if e.Begin? || e.Mark? || e.Send? || e.Block? || e.GiveUp? || e.Expire? {
      ProducerKeepsError(c, s, e);
    } else if e.FlushEnter? || e.FlushTake? || e.FlushLeave? {
      if e.FlushLeave? { ErrorStaysInBatch(s, s.batch, e.bad); }
    } else if e.CloseEnter? || e.CloseQueue? || e.CloseControlQueue? || e.DiscardData? || e.DiscardControl? || e.CloseDone? || e.SetAdaptive? {
    } else {
      LoopKeepsError(c, s, e);
    }
  }

  lemma ProducerKeepsError(c: Config, s: State, e: Step)
    requires s.closed && s.closer.NotCalled? && (e.Begin? || e.Mark? || e.Send? || e.Block? || e.GiveUp? || e.Expire?)
    ensures SameError(s, ProducerStep(c, s, e))
  {
    if !e.Send? { ProducerLeavesLanes(c, s, e); }
  }

  lemma {:induction false} ErrorStaysInBatch(s: State, fs: seq<Frame>, bad: set<Frame>)
    requires s.writeErr.Some? && s.closed
    ensures var t := FlushFrames(s, fs, bad); t.writeErr == s.writeErr && t.closed && t.closer == s.closer
    decreases |fs|
  {
    if fs != [] {
      ErrorStaysInBatch(FlushFrame(s, fs[0], Data, bad), fs[1..], bad);
    }
  }

  /** `Close` with no write call in progress: nobody is left to send on a closed queue. */
  lemma {:induction false} QuietCloseNeverPanics(c: Config, before: seq<Step>, after: seq<Step>)
    requires var s := Run(c, before); s.pending == [] && !s.panicked && !s.closed && !s.flushing
    ensures StaysQuietIn(Run(c, before + [CloseEnter] + after))
    decreases |after|
  {
    hide Next;
    if after == [] {
      assert before + [CloseEnter] + after == before + [CloseEnter];
      RunExtends(c, before, CloseEnter);
      CloseEnters(c, Run(c, before));
    } else {
      var n := |after| - 1;
      var shorter := before + [CloseEnter] + after[..n];
      assert before + [CloseEnter] + after == shorter + [after[n]];
      QuietCloseNeverPanics(c, before, after[..n]);
      RunExtends(c, shorter, after[n]);
      StaysQuiet(c, Run(c, shorter), after[n]);
    }
  }

  lemma CloseEnters(c: Config, s: State)
    requires !s.panicked && !s.closed && !s.flushing
    ensures Next(c, s, CloseEnter) == s.(closed := true, closer := FlagSet)
  {
  }

  ghost predicate StaysQuietIn(t: State) {
    !t.panicked && t.pending == [] && t.closed
  }

  lemma LoopStaysQuiet(c: Config, s: State, e: Step)
    requires StaysQuietIn(s) && LoopStep.requires(c, s, e)
    ensures StaysQuietIn(LoopStep(c, s, e))
  {
    hide Known, FlushFrames, Unmark;
    match e
    case AppendData(bad) =>
      if s.loop.HoldData? { FlushKeepsQuiet(s.(batch := s.batch + [s.loop.data], loop := Top), bad); }
    case FlushTick(bad) => FlushKeepsQuiet(s, bad);
    case LeaveLoop(bad) => FlushKeepsQuiet(s, bad);
    case _ =>
  }

  lemma StaysQuiet(c: Config, s: State, e: Step)
    requires StaysQuietIn(s)
    ensures StaysQuietIn(Next(c, s, e))
  {
    hide Known, FlushFrames, LoopStep, Unmark;
    if e.Begin? || e.Mark? || e.Send? || e.Block? || e.GiveUp? || e.Expire? {
    } else if e.FlushEnter? || e.FlushTake? || e.FlushLeave? {
      if e.FlushLeave? { FlushKeepsQuiet(s, e.bad); }
    } else if e.CloseEnter? || e.CloseQueue? || e.CloseControlQueue? || e.DiscardData? || e.DiscardControl? || e.CloseDone? || e.SetAdaptive? {
    } else {
      LoopStaysQuiet(c, s, e);
    }
  }

  lemma FlushKeepsQuiet(s: State, bad: set<Frame>)
    requires s.closed
    ensures var t := FlushBatch(s, bad); t.panicked == s.panicked && t.pending == s.pending && t.closed
  {
    FlushFramesEffect(s, s.batch, bad);
    StaysClosed(s, s.batch, bad);
  }

  lemma {:induction false} StaysClosed(s: State, fs: seq<Frame>, bad: set<Frame>)
    requires s.closed
    ensures FlushFrames(s, fs, bad).closed
    decreases |fs|
  {
    if fs != [] {
      StaysClosed(FlushFrame(s, fs[0], Data, bad), fs[1..], bad);
    }
  }

  /** Nothing happens after a panic. */
  lemma {:induction false} PanicIsFinal(c: Config, before: seq<Step>, after: seq<Step>)
    requires Run(c, before).panicked
    ensures Run(c, before + after) == Run(c, before)
    decreases |after|
  {
    if after == [] {
      assert before + after == before;
    } else {
      var n := |after| - 1;
      assert before + after == before + after[..n] + [after[n]];
      PanicIsFinal(c, before, after[..n]);
      RunExtends(c, before + after[..n], after[n]);
    }
  }

  /** One more step of a run, as a continuation. */
  lemma Continue(c: Config, before: seq<Step>, done: seq<Step>, e: Step)
    ensures Run(c, before + (done + [e])) == Next(c, Run(c, before + done), e)
  {
    assert before + (done + [e]) == before + done + [e];
    RunExtends(c, before + done, e);
  }

  /** The rest of a continuation. */
  lemma Chain(c: Config, before: seq<Step>, first: seq<Step>, rest: seq<Step>)
    ensures Run(c, before + first + rest) == Run(c, before + (first + rest))
  {
    assert before + first + rest == before + (first + rest);
  }

  /** `Close` closing both queues: a blocked producer panics, and otherwise the producers stay where they are. */
  lemma ClosesBoth(c: Config, steps: seq<Step>)
    requires var s := Run(c, steps); !s.panicked && s.closer.FlagSet?
    ensures var s, t := Run(c, steps), Run(c, steps + [CloseQueue, CloseControlQueue]);
      if s.pending != [] && t.panicked then true else t == s.(closer := DrainingData)
  {
    hide Run, Next;
    RunExtends(c, steps, CloseQueue);
    RunExtends(c, steps + [CloseQueue], CloseControlQueue);
    assert steps + [CloseQueue, CloseControlQueue] == steps + [CloseQueue] + [CloseControlQueue];
    ClosesQueues(c, Run(c, steps));
    if Run(c, steps + [CloseQueue]).panicked {
      PanicIsFinal(c, steps + [CloseQueue], [CloseControlQueue]);
    } else {
      ClosesQueues(c, Run(c, steps + [CloseQueue]));
    }
  }

  /** A producer that is still under way when `Close` starts can be made to send on a closed queue. */
  lemma PendingIsDoomed(c: Config, before: seq<Step>) returns (after: seq<Step>)
    requires var s := Run(c, before); s.pending != [] && !s.panicked && !s.closed && !s.flushing
    ensures Run(c, before + [CloseEnter] + after).panicked
  {
    hide Run, Next;
    var start := before + [CloseEnter];
    RunExtends(c, before, CloseEnter);
    CloseEnters(c, Run(c, before));
    ClosesBoth(c, start);
    after := [CloseQueue, CloseControlQueue];
    var s := Run(c, start + after);
    if !s.panicked {
      if s.pending[0].stage.Checked? {
        Continue(c, start, after, Mark(0));
        Marks(c, s, 0);
        after := after + [Mark(0)];
      }
      var t := Run(c, start + after);
      Continue(c, start, after, Send(0));
      Sends(c, t, 0);
      after := after + [Send(0)];
    }
  }

  /**
   * A `Close` on a working writer never makes anybody send on a closed channel if and only if no write
   * call is under way when it starts.
   */
  lemma ClosePanicsExactly(c: Config, before: seq<Step>)
    requires var s := Run(c, before); !s.panicked && !s.closed && !s.flushing
    ensures (forall after :: !Run(c, before + [CloseEnter] + after).panicked) <==> Run(c, before).pending == []
  {
    hide Run, Next;
    if Run(c, before).pending == [] {
      forall after ensures !Run(c, before + [CloseEnter] + after).panicked {
        QuietCloseNeverPanics(c, before, after);
      }
    } else {
      var after := PendingIsDoomed(c, before);
    }
  }

  /** The first `Close` call takes effect if and only if no attempt to write has failed before it. */
  lemma CloseTakesEffectExactly(c: Config, steps: seq<Step>)
    requires var s := Run(c, steps); !s.panicked && !s.flushing && s.closer.NotCalled?
    ensures var s, t := Run(c, steps), Run(c, steps + [CloseEnter]);
      && (t.closer.FlagSet? <==> s.log.failures == [])
      && (s.log.failures != [] ==> t == s)
  {
    hide Run, Next;
    SafeRuns(c, steps);
    RunExtends(c, steps, CloseEnter);
    EntersClose(c, Run(c, steps));
  }

  // ---------------------------------------------------------------- how soon it is done

  predicate IsLoopStep(e: Step) {
    || e.PollControl? || e.AttemptControl? || e.ReceiveData? || e.ReceiveTick? || e.ReceiveBeat? || e.ReceiveRearm? || e.ReceiveDone?
    || e.AppendData? || e.FlushTick? || e.AttemptBeat? || e.LeaveLoop?
  }

  predicate IsCloseStep(e: Step) {
    e.CloseQueue? || e.CloseControlQueue? || e.DiscardData? || e.DiscardControl? || e.CloseDone?
  }

  /** Moves the loop has left once `Close` has finished. */
  function LoopWork(s: State): nat {
    match s.loop
    case Exited => 0
    case Leaving => 1
    case Top => 2
    case Select => 4
    case _ => 3
  }

  /** Moves an effective `Close` has left, when nobody sends any more. */
  function CloseWork(s: State): nat {
    match s.closer
    case NotCalled => 0
    case FlagSet => |s.queue| + |s.controlQueue| + 4
    case QueueClosed => |s.queue| + |s.controlQueue| + 3
    case DrainingData => |s.queue| + |s.controlQueue| + 2
    case DrainingControl => |s.controlQueue| + 1
    case Finished => 0
  }

  /** After `Close`: both queues are closed and empty. */
  ghost predicate Done(s: State) {
    s.closer.Finished? && s.queue == [] && s.controlQueue == [] && !s.flushing && s.closed
  }

  lemma DoneRuns(c: Config, steps: seq<Step>)
    requires Run(c, steps).closer.Finished?
    ensures Done(Run(c, steps))
  {
    SafeRuns(c, steps);
  }

  /** Every move of the loop brings it nearer to its end. */
  lemma LoopMovesOn(c: Config, s: State, e: Step)
    requires Done(s) && IsLoopStep(e)
    ensures LoopStep(c, s, e) == s || LoopWork(LoopStep(c, s, e)) < LoopWork(s)
  {
    hide Known, FlushFrames, FlushBatchByLoop, FlushFrame, AppendHeld;
    if e.AppendData? && s.loop.HoldData? { AppendHeldEffect(c, s, s.loop.data, e.bad); }
  }

  /** No other step moves it. */
  lemma LoopStaysPut(c: Config, s: State, e: Step)
    requires !IsLoopStep(e)
    ensures Next(c, s, e).loop == s.loop
  {
    hide Known, FlushFrames, Unmark, Drop, Blocked;
    if e.FlushLeave? { FlushFramesEffect(s, s.batch, e.bad); }
  }

  /** The step with which the loop goes on, wherever it is. */
  function NextMove(s: State): Step {
    match s.loop
    case Top => PollControl
    case Select => ReceiveDone
    case HoldControl(_) => AttemptControl({})
    case HoldData(_) => AppendData({})
    case Ticked => FlushTick({})
    case Beating => AttemptBeat(None, {})
    case _ => LeaveLoop({})
  }

  /** A loop that has not ended is never stuck. */
  lemma LoopCanMove(c: Config, s: State)
    requires Done(s) && !s.panicked && !s.loop.Exited?
    ensures IsLoopStep(NextMove(s)) && Next(c, s, NextMove(s)) != s && !Next(c, s, NextMove(s)).panicked
    ensures Next(c, s, NextMove(s)).closer.Finished?
  {
    hide FlushFrames, Unmark, LogAttempt;
    if s.loop.HoldData? {
      AppendHeldEffect(c, s, s.loop.data, {});
      var t := s.(batch := s.batch + [s.loop.data], loop := Top);
      FlushFramesEffect(t, t.batch, {});
    } else {
      FlushFramesEffect(s, s.batch, {});
    }
  }

  /** How many of the steps `after` are moves of the loop, or of `Close`. */
  ghost function Moves(c: Config, before: seq<Step>, after: seq<Step>, loop: bool): nat {
    if after == [] then 0
    else
      var n := |after| - 1;
      var s := Run(c, before + after[..n]);
      Moves(c, before, after[..n], loop)
      + if (if loop then IsLoopStep(after[n]) else IsCloseStep(after[n])) && Next(c, s, after[n]) != s then 1 else 0
  }

  lemma {:induction false} CloseStaysFinished(c: Config, before: seq<Step>, after: seq<Step>)
    requires Run(c, before).closer.Finished?
    ensures Run(c, before + after).closer.Finished?
    decreases |after|
  {
    hide Run, Next;
    if after == [] {
      assert before + after == before;
    } else {
      var n := |after| - 1;
      assert after == after[..n] + [after[n]];
      CloseStaysFinished(c, before, after[..n]);
      DoneRuns(c, before + after[..n]);
      Continue(c, before, after[..n], after[n]);
      FinishedStays(c, Run(c, before + after[..n]), after[n]);
    }
  }

  lemma FinishedStays(c: Config, s: State, e: Step)
    requires Done(s)
    ensures Next(c, s, e).closer.Finished?
  {
    hide Known, FlushFrames, Unmark, Drop, Blocked;
    if IsLoopStep(e) {
      hide LoopStep;
      LoopLeaves(c, s, e);
    }
  }

  /**
   * After `Close` has finished the loop makes at most four more moves, whatever else happens in between,
   * and until it has ended (or the run has panicked) it can always make the next one.
   */
  lemma {:induction false} LoopEndsSoon(c: Config, before: seq<Step>, after: seq<Step>)
    requires Run(c, before).closer.Finished?
    ensures var s, t := Run(c, before), Run(c, before + after);
      && LoopWork(t) + Moves(c, before, after, true) <= LoopWork(s) <= 4
      && (!t.panicked && !t.loop.Exited? ==> Next(c, t, NextMove(t)) != t)
    decreases |after|
  {
    hide Run, Next, NextMove;
    CloseStaysFinished(c, before, after);
    DoneRuns(c, before + after);
    var t := Run(c, before + after);
    if !t.panicked && !t.loop.Exited? { LoopCanMove(c, t); }
    if after == [] {
      assert before + after == before;
    } else {
      var n := |after| - 1;
      assert after == after[..n] + [after[n]];
      LoopEndsSoon(c, before, after[..n]);
      CloseStaysFinished(c, before, after[..n]);
      DoneRuns(c, before + after[..n]);
      Continue(c, before, after[..n], after[n]);
      OneMove(c, Run(c, before + after[..n]), after[n]);
    }
  }

  lemma OneMove(c: Config, s: State, e: Step)
    requires Done(s)
    ensures var t := Next(c, s, e); LoopWork(t) + (if IsLoopStep(e) && t != s then 1 else 0) <= LoopWork(s)
  {
    if s.panicked {
    } else if IsLoopStep(e) {
      hide LoopStep;
      LoopMovesOn(c, s, e);
    } else {
      hide Next;
      LoopStaysPut(c, s, e);
    }
  }

  /** In a quiet closing writer no step adds to what `Close` has left, and its own moves take from it. */
  lemma CloseMovesOn(c: Config, s: State, e: Step)
    requires StaysQuietIn(s) && !s.closer.NotCalled?
    ensures var t := Next(c, s, e);
      !t.closer.NotCalled? && CloseWork(t) + (if IsCloseStep(e) && t != s then 1 else 0) <= CloseWork(s)
  {
    hide Next, LoopStep, CloseStep, FlushStep;
    NextParts(c, s, e);
    if IsCloseStep(e) || e.CloseEnter? {
      CloseStepMovesOn(s, e);
    } else if e.FlushEnter? || e.FlushTake? || e.FlushLeave? {
      FlushStepKeepsCloseWork(s, e);
    } else if IsLoopStep(e) {
      LoopLeaves(c, s, e);
    }
  }

  lemma CloseStepMovesOn(s: State, e: Step)
    requires StaysQuietIn(s) && !s.closer.NotCalled? && (IsCloseStep(e) || e.CloseEnter?)
    ensures var t := CloseStep(s, e);
      !t.closer.NotCalled? && CloseWork(t) + (if IsCloseStep(e) && t != s then 1 else 0) <= CloseWork(s)
  {
    hide Unmark;
  }

  lemma FlushStepKeepsCloseWork(s: State, e: Step)
    requires e.FlushEnter? || e.FlushTake? || e.FlushLeave?
    ensures var t := FlushStep(s, e); t.closer == s.closer && |t.queue| <= |s.queue| && t.controlQueue == s.controlQueue
  {
    hide FlushFrames;
    if e.FlushLeave? { FlushFramesEffect(s, s.batch, e.bad); }
  }

  function NextClose(s: State): Step {
    match s.closer
    case FlagSet => CloseQueue
    case QueueClosed => CloseControlQueue
    case DrainingData => DiscardData
    case _ => if s.controlQueue != [] then DiscardControl else CloseDone
  }

  lemma CloseCanMove(c: Config, s: State)
    requires StaysQuietIn(s) && !s.closer.NotCalled? && !s.closer.Finished?
    ensures IsCloseStep(NextClose(s)) && Next(c, s, NextClose(s)) != s
  {
  }

  /**
   * A `Close` that starts with no write call under way finishes after at most as many of its own moves as
   * there are queued frames and four more, whatever the loop does meanwhile, and is never stuck before.
   */
  lemma {:induction false} CloseFinishesSoon(c: Config, before: seq<Step>, after: seq<Step>)
    requires var s := Run(c, before); s.pending == [] && !s.panicked && !s.closed && !s.flushing
    ensures var s, t := Run(c, before), Run(c, before + [CloseEnter] + after);
      && !t.closer.NotCalled?
      && CloseWork(t) + Moves(c, before + [CloseEnter], after, false) <= |s.queue| + |s.controlQueue| + 4
      && (!t.closer.Finished? ==> Next(c, t, NextClose(t)) != t)
    decreases |after|
  {
    hide Run, Next, NextClose;
    var start := before + [CloseEnter];
    QuietCloseNeverPanics(c, before, after);
    if after == [] {
      assert start + after == start;
      RunExtends(c, before, CloseEnter);
      CloseEnters(c, Run(c, before));
    } else {
      var n := |after| - 1;
      assert after == after[..n] + [after[n]];
      CloseFinishesSoon(c, before, after[..n]);
      QuietCloseNeverPanics(c, before, after[..n]);
      Continue(c, start, after[..n], after[n]);
      CloseMovesOn(c, Run(c, start + after[..n]), after[n]);
    }
    var t := Run(c, start + after);
    if !t.closer.Finished? { CloseCanMove(c, t); }
  }

  // ---------------------------------------------------------------- the writes still under way

  /** After `Close` has finished every write call can return, its frame back with its caller. */
  lemma {:induction false} ReachReturned(c: Config, before: seq<Step>) returns (after: seq<Step>)
    requires var s := Run(c, before); s.closer.Finished? && !s.panicked
    ensures var s, t := Run(c, before), Run(c, before + after); t == s.(pending := [], backlog := t.backlog)
    decreases |Run(c, before).pending|
  {
    hide Run, Next;
    var s := Run(c, before);
    if s.pending == [] {
      after := [];
      assert before + after == before;
    } else if s.pending[0].stage.Checked? {
      RunExtends(c, before, Mark(0));
      Marks(c, s, 0);
      var marked := before + [Mark(0)];
      RunExtends(c, marked, GiveUp(0));
      GivesUp(c, Run(c, marked), 0);
      var rest := ReachReturned(c, marked + [GiveUp(0)]);
      after := [Mark(0)] + ([GiveUp(0)] + rest);
      assert before + after == marked + [GiveUp(0)] + rest;
    } else {
      RunExtends(c, before, GiveUp(0));
      GivesUp(c, s, 0);
      var rest := ReachReturned(c, before + [GiveUp(0)]);
      after := [GiveUp(0)] + rest;
      Chain(c, before, [GiveUp(0)], rest);
    }
  }

  /** Once `Close` and the loop are done and the write calls have returned, the counters are back at zero. */
  lemma CountersReachZero(c: Config, before: seq<Step>) returns (after: seq<Step>)
    requires var s := Run(c, before); s.closer.Finished? && s.loop.Exited? && !s.panicked
    ensures var t := Run(c, before + after);
      t.pending == [] && t.backlog.frames == 0 && t.backlog.bytes == 0 && t.log == Run(c, before).log
  {
    hide Run;
    after := ReachReturned(c, before);
    DrainedAfterClose(c, before + after);
  }

  // ---------------------------------------------------------------- exactly when the loop can end

  /** The loop's own moves take it to its end once `Close` has finished. */
  lemma {:induction false} ReachExit(c: Config, before: seq<Step>) returns (after: seq<Step>)
    requires Run(c, before).closer.Finished? && !Run(c, before).panicked
    ensures Run(c, before + after).loop.Exited?
    decreases LoopWork(Run(c, before))
  {
    hide Run, Next, NextMove;
    var s := Run(c, before);
    if s.loop.Exited? {
      after := [];
      assert before + after == before;
    } else {
      DoneRuns(c, before);
      LoopCanMove(c, s);
      OneMove(c, s, NextMove(s));
      RunExtends(c, before, NextMove(s));
      var rest := ReachExit(c, before + [NextMove(s)]);
      after := [NextMove(s)] + rest;
      Chain(c, before, [NextMove(s)], rest);
    }
  }

  /** The draining part of `Close` on its own. */
  lemma {:induction false} ReachFinished(c: Config, before: seq<Step>) returns (after: seq<Step>)
    requires var s := Run(c, before); !s.panicked && (s.closer.DrainingData? || s.closer.DrainingControl?)
    ensures var t := Run(c, before + after); t.closer.Finished? && !t.panicked
    decreases CloseWork(Run(c, before))
  {
    hide Run, Next, DiscardHead, DiscardControlHead;
    SafeRuns(c, before);
    var s := Run(c, before);
    var e := NextClose(s);
    RunExtends(c, before, e);
    DrainStep(c, s);
    var t := Run(c, before + [e]);
    if t.closer.Finished? {
      after := [e];
    } else {
      var rest := ReachFinished(c, before + [e]);
      after := [e] + rest;
      Chain(c, before, [e], rest);
    }
  }

  lemma DrainStep(c: Config, s: State)
    requires Safe(c, s) && !s.panicked && (s.closer.DrainingData? || s.closer.DrainingControl?)
    ensures var t := Next(c, s, NextClose(s));
      && !t.panicked && CloseWork(t) < CloseWork(s) && (t.closer.DrainingData? || t.closer.DrainingControl? || t.closer.Finished?)
  {
    hide Bounded, Latched, PanicExplained, Unmark;
  }

  /** Blocked write calls can all time out. */
  lemma {:induction false} ReachUnblocked(c: Config, before: seq<Step>) returns (after: seq<Step>)
    requires !Run(c, before).panicked
    ensures var s, t := Run(c, before), Run(c, before + after);
      && t == s.(pending := t.pending, backlog := t.backlog) && forall data :: !Blocked(t.pending, data)
    decreases |Run(c, before).pending|
  {
    hide Run, Next;
    var s := Run(c, before);
    if i :| 0 <= i < |s.pending| && s.pending[i].stage.Waiting? {
      RunExtends(c, before, Expire(i));
      Expires(c, s, i);
      var rest := ReachUnblocked(c, before + [Expire(i)]);
      after := [Expire(i)] + rest;
      Chain(c, before, [Expire(i)], rest);
    } else {
      after := [];
      assert before + after == before;
    }
  }

  /** With no failed attempt and no `Close` so far, closing and then the loop can be brought to their ends. */
  lemma ReachDrained(c: Config, before: seq<Step>) returns (after: seq<Step>)
    requires var s := Run(c, before); !s.panicked && !s.flushing && s.closer.NotCalled? && s.log.failures == []
    ensures var t := Run(c, before + after); t.loop.Exited? && t.closer.Finished?
  {
    hide Run, Next;
    SafeRuns(c, before);
    var a := ReachUnblocked(c, before);
    var open := before + a;
    RunExtends(c, open, CloseEnter);
    CloseEnters(c, Run(c, open));
    UnblockedCloses(c, open + [CloseEnter]);
    var shut := open + [CloseEnter] + [CloseQueue, CloseControlQueue];
    var b := ReachFinished(c, shut);
    var d := ReachExit(c, shut + b);
    CloseStaysFinished(c, shut + b, d);
    after := a + [CloseEnter] + [CloseQueue, CloseControlQueue] + b + d;
    assert before + after == shut + b + d;
  }

  lemma UnblockedCloses(c: Config, steps: seq<Step>)
    requires var s := Run(c, steps); !s.panicked && s.closer.FlagSet? && forall data :: !Blocked(s.pending, data)
    ensures Run(c, steps + [CloseQueue, CloseControlQueue]) == Run(c, steps).(closer := DrainingData)
  {
    hide Run, Next, Blocked;
    RunExtends(c, steps, CloseQueue);
    RunExtends(c, steps + [CloseQueue], CloseControlQueue);
    assert steps + [CloseQueue, CloseControlQueue] == steps + [CloseQueue] + [CloseControlQueue];
    ClosesQueues(c, Run(c, steps));
    ClosesQueues(c, Run(c, steps + [CloseQueue]));
  }

  /**
   * A writer nobody has called `Close` on can still be closed and its loop ended if and only if no attempt
   * to write has failed: after a failure the queues stay open and the loop runs for good.
   */
  lemma LoopCanEndExactly(c: Config, before: seq<Step>)
    requires var s := Run(c, before); !s.panicked && !s.flushing && s.closer.NotCalled?
    ensures (exists after :: Run(c, before + after).loop.Exited?) <==> Run(c, before).log.failures == []
  {
    hide Run, Next;
    SafeRuns(c, before);
    if Run(c, before).log.failures == [] {
      var after := ReachDrained(c, before);
    } else {
      forall after ensures !Run(c, before + after).loop.Exited? {
        ErrorBeforeCloseKeepsLoop(c, before, after);
      }
    }
  }

  // ---------------------------------------------------------------- what the waiting loop answers to

  /** A heartbeat frame is attempted at once, past everything queued; without one the loop just goes on. */
  lemma BeatIsAttempted(c: Config, steps: seq<Step>, beat: Option<Frame>, bad: set<Frame>)
    requires var s := Run(c, steps); s.loop.Select? && !s.flushing && !s.panicked && (beat.Some? ==> !Known(s, beat.value))
    ensures var s, t := Run(c, steps), Run(c, steps + [ReceiveBeat, AttemptBeat(beat, bad)]);
      && t.loop.Top? && t.queue == s.queue && t.controlQueue == s.controlQueue && t.batch == s.batch && t.pending == s.pending
      && (beat.None? ==> t == s.(loop := Top))
      && (beat.Some? ==>
            && t.log.attemptedBeats == s.log.attemptedBeats + [beat.value]
            && t.log.attempts == s.log.attempts + [Attempt(beat.value, Beat, beat.value.payloadLen > 1048576 || beat.value in bad)])
  {
    hide Run, Next, Known, Unmark;
    var s := Run(c, steps);
    RunExtends(c, steps, ReceiveBeat);
    RunExtends(c, steps + [ReceiveBeat], AttemptBeat(beat, bad));
    assert steps + [ReceiveBeat, AttemptBeat(beat, bad)] == steps + [ReceiveBeat] + [AttemptBeat(beat, bad)];
    Rearms(c, s);
    if beat.Some? { SameKnown(s, beat.value); }
    AttemptsBeat(c, s.(loop := Beating), beat, bad);
  }

  lemma SameKnown(s: State, beat: Frame)
    ensures Known(s.(loop := Beating), beat) <==> Known(s, beat)
  {
  }

  /** Changed settings take the loop round once more; a closed and empty queue ends it, its batch written. */
  lemma WaitingLoopMovesOn(c: Config, steps: seq<Step>, bad: set<Frame>)
    requires var s := Run(c, steps); s.loop.Select? && !s.flushing && !s.panicked
    ensures Run(c, steps + [ReceiveRearm]) == Run(c, steps).(loop := Top)
    ensures var s, t := Run(c, steps), Run(c, steps + [ReceiveData, LeaveLoop(bad)]);
      s.queue == [] && !s.closer.NotCalled? && !s.closer.FlagSet? ==>
        t.loop.Exited? && t.batch == [] && t.log.attemptedData == s.log.attemptedData + s.batch
  {
    hide Run, Next, FlushFrames;
    var s := Run(c, steps);
    RunExtends(c, steps, ReceiveRearm);
    Rearms(c, s);
    if s.queue == [] && !s.closer.NotCalled? && !s.closer.FlagSet? {
      RunExtends(c, steps, ReceiveData);
      ReceivesEnd(c, s);
      RunExtends(c, steps + [ReceiveData], LeaveLoop(bad));
      assert steps + [ReceiveData, LeaveLoop(bad)] == steps + [ReceiveData] + [LeaveLoop(bad)];
      Leaves(c, s.(loop := Leaving), bad);
      FlushFramesEffect(s.(loop := Leaving), s.batch, bad);
    }
  }

  /** Adaptive flushing: on, a frame is written with its batch when the queue is as short as the setting; off, only a full batch is. */
  lemma SettingsDecide(c: Config, steps: seq<Step>, on: bool, depth: int, bad: set<Frame>)
    requires var s := Run(c, steps); s.loop.HoldData? && !s.panicked
    ensures Run(c, steps).flushing ==> Run(c, steps + [SetAdaptive(on, depth)]) == Run(c, steps)
    ensures !Run(c, steps).flushing ==>
              var s, t := Run(c, steps), Run(c, steps + [SetAdaptive(on, depth), AppendData(bad)]);
              var grown := s.batch + [s.loop.data];
              && t.loop.Top? && t.queue == s.queue
              && (if |grown| >= c.maxBatch || (on && |s.queue| <= depth)
                  then t.batch == [] && t.log.attemptedData == s.log.attemptedData + grown
                  else t.batch == grown && t.log.attemptedData == s.log.attemptedData)
  {
    hide Run, Next, AppendHeld;
    var s := Run(c, steps);
    RunExtends(c, steps, SetAdaptive(on, depth));
    Sets(c, s, on, depth);
    if !s.flushing {
      var t := Run(c, steps + [SetAdaptive(on, depth)]);
      RunExtends(c, steps + [SetAdaptive(on, depth)], AppendData(bad));
      assert steps + [SetAdaptive(on, depth), AppendData(bad)] == steps + [SetAdaptive(on, depth)] + [AppendData(bad)];
      Appends(c, t, bad);
      AppendHeldEffect(c, t, s.loop.data, bad);
    }
  }

  /** Closing a queue makes somebody send on a closed channel if and only if a write call is blocked on that queue. */
  lemma ShuttingPanicsExactly(c: Config, steps: seq<Step>)
    requires !Run(c, steps).panicked
    ensures var s, t := Run(c, steps), Run(c, steps + [CloseQueue]);
      s.closer.FlagSet? ==> t.closer.QueueClosed? && (t.panicked <==> exists p :: p in s.pending && p.stage.Waiting? && p.kind.Data?)
    ensures var s, t := Run(c, steps), Run(c, steps + [CloseControlQueue]);
      s.closer.QueueClosed? ==> t.closer.DrainingData? && (t.panicked <==> exists p :: p in s.pending && p.stage.Waiting? && !p.kind.Data?)
  {
    hide Run, Next;
    var s := Run(c, steps);
    RunExtends(c, steps, CloseQueue);
    RunExtends(c, steps, CloseControlQueue);
    ClosesQueues(c, s);
    BlockedMeans(s.pending, true);
    BlockedMeans(s.pending, false);
  }
}
