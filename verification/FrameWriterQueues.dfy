/** How long the two queues of the frame writer get: bounded on every run, and the bounds are reached. */
module FrameWriterQueues {
  import opened Collections
  import opened FrameWriter
  import opened FrameWriterConservation
  import opened FrameWriterOrder
  import opened FrameWriterSafety
  import opened FrameWriterSteps

  ghost predicate WithinBounds(c: Config, s: State) {
    |s.queue| <= c.queueSize && |s.controlQueue| <= c.queueSize && |s.controlQueue| <= 256
  }

  lemma SendWithinBounds(c: Config, s: State, i: nat)
    requires WithinBounds(c, s) && i < |s.pending|
    ensures WithinBounds(c, Enqueue(c, s, i))
  {
    hide Drop;
  }

  lemma ProducerWithinBounds(c: Config, s: State, e: Step)
    requires WithinBounds(c, s) && (e.Begin? || e.Mark? || e.Send? || e.Block? || e.GiveUp? || e.Expire?)
    ensures WithinBounds(c, ProducerStep(c, s, e))
  {
    if e.Send? {
      if e.i < |s.pending| { SendWithinBounds(c, s, e.i); }
      hide Enqueue;
    } else {
      hide ProducerStep;
      ProducerLeavesLanes(c, s, e);
    }
  }

  lemma FlushWithinBounds(s: State, e: Step)
    requires e.FlushEnter? || e.FlushTake? || e.FlushLeave?
    ensures |FlushStep(s, e).queue| <= |s.queue| && FlushStep(s, e).controlQueue == s.controlQueue
  {
    hide FlushFrames;
    if e.FlushLeave? { FlushFramesEffect(s, s.batch, e.bad); }
  }

  lemma CloseWithinBounds(s: State, e: Step)
    requires CloseStep.requires(s, e)
    ensures |CloseStep(s, e).queue| <= |s.queue| && |CloseStep(s, e).controlQueue| <= |s.controlQueue|
  {
    hide Unmark, Blocked;
  }

  /** Neither queue is ever longer than its capacity: the queue size, and for control frames at most 256. */
  lemma {:induction false} QueuesBounded(c: Config, steps: seq<Step>)
    ensures var s := Run(c, steps); |s.queue| <= c.queueSize && |s.controlQueue| <= c.queueSize && |s.controlQueue| <= 256
  {
    hide Next, ProducerStep, LoopStep, FlushStep, CloseStep;
    if steps != [] {
      var s, e := Run(c, steps[..|steps| - 1]), steps[|steps| - 1];
      QueuesBounded(c, steps[..|steps| - 1]);
      NextParts(c, s, e);
      if s.panicked {
      } else if e.Begin? || e.Mark? || e.Send? || e.Block? || e.GiveUp? || e.Expire? {
        ProducerWithinBounds(c, s, e);
      } else if e.FlushEnter? || e.FlushTake? || e.FlushLeave? {
        FlushWithinBounds(s, e);
      } else if e.CloseEnter? || e.CloseQueue? || e.CloseControlQueue? || e.DiscardData? || e.DiscardControl? || e.CloseDone? {
        CloseWithinBounds(s, e);
      } else if e.SetAdaptive? {
        SettingKeepsQueues(c, s, e);
      } else {
        LoopLeaves(c, s, e);
      }
    }
  }

  lemma SettingKeepsQueues(c: Config, s: State, e: Step)
    requires e.SetAdaptive?
    ensures Next(c, s, e).queue == s.queue && Next(c, s, e).controlQueue == s.controlQueue
  {
  }

  // ---------------------------------------------------------------- reached

  /** Nothing has happened but writes of frames numbered below `n` to one of the queues. */
  ghost predicate Filled(s: State, kind: Kind, n: nat) {
    && !s.panicked && !s.flushing && !s.closed && s.closer.NotCalled? && s.pending == [] && s.log.attemptedBeats == []
    && (forall f :: f in s.log.enqueuedData || f in s.log.enqueuedControl ==> f.id < n)
    && |s.queue| == (if kind.Data? then n else 0) && |s.controlQueue| == (if kind.Data? then 0 else n)
  }

  lemma WriteFills(c: Config, steps: seq<Step>, kind: Kind, n: nat)
    requires Filled(Run(c, steps), kind, n) && !kind.Beat? && n < c.queueSize && (kind.Control? ==> n < 256)
    ensures Filled(Run(c, steps + [Begin(Frame(n, 0), kind), Mark(0), Send(0)]), kind, n + 1)
  {
    hide Run, Next;
    var s, f := Run(c, steps), Frame(n, 0);
    var a := steps + [Begin(f, kind)];
    var b := a + [Mark(0)];
    RunExtends(c, steps, Begin(f, kind));
    Begins(c, s, f, kind);
    RunExtends(c, a, Mark(0));
    Marks(c, Run(c, a), 0);
    RunExtends(c, b, Send(0));
    Sends(c, Run(c, b), 0);
    assert steps + [Begin(f, kind), Mark(0), Send(0)] == b + [Send(0)];
  }

  lemma {:induction false} FillsUpTo(c: Config, kind: Kind, n: nat) returns (steps: seq<Step>)
    requires !kind.Beat? && n <= c.queueSize && (kind.Control? ==> n <= 256)
    ensures Filled(Run(c, steps), kind, n)
    decreases n
  {
    hide Next;
    steps := [];
    if n > 0 {
      var before := FillsUpTo(c, kind, n - 1);
      hide Run, Filled;
      WriteFills(c, before, kind, n - 1);
      steps := before + [Begin(Frame(n - 1, 0), kind), Mark(0), Send(0)];
    }
  }

  /** No data, or control, queue of any run is longer than this. */
  ghost predicate NeverLonger(c: Config, kind: Kind, most: nat) {
    forall steps :: (if kind.Data? then |Run(c, steps).queue| else |Run(c, steps).controlQueue|) <= most
  }

  /** The bounds, exactly: the queue size for data, and for control frames the smaller of it and 256. */
  lemma CapacityExactly(c: Config, kind: Kind, most: nat)
    requires !kind.Beat?
    ensures NeverLonger(c, kind, most) <==> most >= if kind.Data? then c.queueSize else Min(c.queueSize, 256)
  {
    hide Run;
    var limit := if kind.Data? then c.queueSize else Min(c.queueSize, 256);
    if most >= limit {
      forall steps ensures (if kind.Data? then |Run(c, steps).queue| else |Run(c, steps).controlQueue|) <= most {
        QueuesBounded(c, steps);
      }
    } else {
      var steps := FillsUpTo(c, kind, limit);
    }
  }
}
