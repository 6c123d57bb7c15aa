/**
 * Order in the frame writer: exactly when data frames keep their order, that control frames always
 * do, how far data may overtake a control frame, and what closing leaves behind.
 */
module FrameWriterOrder {
  import opened Collections
  import opened FrameWriter
  import opened FrameWriterConservation

  // ---------------------------------------------------------------- one queue and what left it

  ghost function SetOf(fs: seq<Frame>): set<Frame> {
    set f | f in fs
  }

  /** `queue` is what is left of `enqueued`; `out` is what left it, in order, apart from `gone`. */
  ghost predicate InOrder(enqueued: seq<Frame>, queue: seq<Frame>, out: seq<Frame>, gone: set<Frame>) {
    && IsTail(enqueued, queue)
    && out == Without(enqueued[..|enqueued| - |queue|], gone)
  }

  ghost predicate IsTail(enqueued: seq<Frame>, queue: seq<Frame>) {
    |queue| <= |enqueued| && enqueued[|enqueued| - |queue|..] == queue
  }

  lemma OrderSend(enqueued: seq<Frame>, queue: seq<Frame>, f: Frame)
    requires IsTail(enqueued, queue)
    ensures IsTail(enqueued + [f], queue + [f])
    ensures (enqueued + [f])[..|enqueued| - |queue|] == enqueued[..|enqueued| - |queue|]
  {
  }

  lemma OrderReceive(enqueued: seq<Frame>, queue: seq<Frame>, gone: set<Frame>)
    requires IsTail(enqueued, queue) && queue != [] && queue[0] !in gone
    ensures IsTail(enqueued, queue[1..])
    ensures var n := |enqueued| - |queue|; Without(enqueued[..n + 1], gone) == Without(enqueued[..n], gone) + [queue[0]]
  {
    var n := |enqueued| - |queue|;
    assert queue[0] == enqueued[n..][0] == enqueued[n];
    assert enqueued[..n + 1] == enqueued[..n] + [enqueued[n]];
    WithoutAppend(enqueued[..n], enqueued[n], gone);
  }

  lemma OrderDiscard(enqueued: seq<Frame>, queue: seq<Frame>, gone: set<Frame>)
    requires IsTail(enqueued, queue) && queue != [] && Distinct(enqueued)
    ensures IsTail(enqueued, queue[1..])
    ensures var n := |enqueued| - |queue|; Without(enqueued[..n + 1], gone + {queue[0]}) == Without(enqueued[..n], gone)
  {
    var n := |enqueued| - |queue|;
    assert queue[0] == enqueued[n..][0] == enqueued[n];
    assert enqueued[..n + 1] == enqueued[..n] + [enqueued[n]];
    WithoutAppend(enqueued[..n], enqueued[n], gone + {enqueued[n]});
    WithoutSame(enqueued[..n], gone, enqueued[n]);
  }

  lemma {:induction false} OrderWhole(enqueued: seq<Frame>, queue: seq<Frame>, gone: set<Frame>)
    requires IsTail(enqueued, queue) && forall f :: f in queue ==> f !in gone
    ensures Without(enqueued, gone) == Without(enqueued[..|enqueued| - |queue|], gone) + queue
  {
    var n := |enqueued| - |queue|;
    assert enqueued == enqueued[..n] + queue;
    WithoutConcat(enqueued[..n], queue, gone);
    WithoutAll(queue, gone);
  }

  /** A lane in order: what left it and what is queued are everything enqueued but `gone`, and so no attempt is out of turn. */
  lemma LaneInOrder(enqueued: seq<Frame>, queue: seq<Frame>, out: seq<Frame>, attempted: seq<Frame>, rest: seq<Frame>, gone: set<Frame>)
    requires InOrder(enqueued, queue, out, gone) && (forall f :: f in queue ==> f !in gone) && out + queue == attempted + rest
    ensures out + queue == Without(enqueued, gone) && Subsequence(attempted, enqueued)
  {
    hide Without, Subsequence;
    OrderWhole(enqueued, queue, gone);
    WithoutSubsequence(enqueued, gone);
    SubsequencePrefix(attempted, rest, enqueued);
  }

  lemma {:induction false} WithoutAll(fs: seq<Frame>, gone: set<Frame>)
    requires forall f :: f in fs ==> f !in gone
    ensures Without(fs, gone) == fs
  {
    if fs != [] {
      WithoutAll(fs[..|fs| - 1], gone);
    }
  }

  lemma SetOfAppend(fs: seq<Frame>, f: Frame)
    ensures SetOf(fs + [f]) == SetOf(fs) + {f}
  {
  }

  lemma BeforeGrows(a: seq<Frame>, b: seq<Frame>, c: seq<Frame>, x: Frame, y: Frame)
    requires Before(a + c, x, y)
    ensures Before(a + b + c, x, y)
  {
    var i, j :| 0 <= i < j < |a + c| && (a + c)[i] == x && (a + c)[j] == y;
    var i' := if i < |a| then i else i + |b|;
    var j' := if j < |a| then j else j + |b|;
    assert (a + b + c)[i'] == x && (a + b + c)[j'] == y;
  }

  /** Two frames of a duplicate-free sequence cannot each be before the other. */
  lemma BeforeOneWay(s: seq<Frame>, x: Frame, y: Frame)
    requires Distinct(s) && Before(s, x, y)
    ensures !Before(s, y, x)
  {
    var i, j :| 0 <= i < j < |s| && s[i] == x && s[j] == y;
    forall k, l | 0 <= k < l < |s| && s[k] == y ensures s[l] != x {
      assert k == j;
      assert s[l] != s[i];
    }
  }

  // ---------------------------------------------------------------- the data frames

  /** Data frames past the queue, in the order in which they are or will be attempted. */
  function DataOut(s: State): seq<Frame> {
    s.log.attemptedData + s.batch + DataHand(s)
  }

  function ControlOut(s: State): seq<Frame> {
    s.log.attemptedControl + ControlHand(s)
  }

  ghost predicate DataOrdered(s: State) {
    && IsTail(s.log.enqueuedData, s.queue)
    && match s.log.overtaken
       case None => DataOut(s) == Without(s.log.enqueuedData[..|s.log.enqueuedData| - |s.queue|], SetOf(s.log.discardedData))
       case Some(pair) => Before(s.log.enqueuedData, pair.0, pair.1) && Before(DataOut(s), pair.1, pair.0)
  }

  ghost predicate ControlOrdered(s: State) {
    InOrder(s.log.enqueuedControl, s.controlQueue, ControlOut(s), SetOf(s.log.discardedControl))
  }

  /** What the order proofs need from conservation. */
  lemma Separate(s: State)
    requires Conserved(s)
    ensures Distinct(s.log.enqueuedData) && Distinct(s.log.enqueuedControl)
    ensures forall f :: f in s.queue ==> f !in SetOf(s.log.discardedData)
    ensures forall f :: f in s.controlQueue ==> f !in SetOf(s.log.discardedControl)
  {
    hide Count, Bytes, Gather;
    forall f ensures Count(s.log.enqueuedData, f) <= 1 && Count(s.log.enqueuedControl, f) <= 1 {
      assert ConservedAt(s, f);
    }
    DistinctFromCount(s.log.enqueuedData);
    DistinctFromCount(s.log.enqueuedControl);
    forall f | f in s.queue ensures f !in SetOf(s.log.discardedData) {
      assert ConservedAt(s, f);
      CountIn(s.queue, f);
      CountIn(s.log.discardedData, f);
    }
    forall f | f in s.controlQueue ensures f !in SetOf(s.log.discardedControl) {
      assert ConservedAt(s, f);
      CountIn(s.controlQueue, f);
      CountIn(s.log.discardedControl, f);
    }
  }

  /** A step that leaves the data lane as it is. */
  lemma DataUntouched(s: State, t: State)
    requires DataOrdered(s)
    requires t.queue == s.queue && DataOut(t) == DataOut(s) && t.log.enqueuedData == s.log.enqueuedData
    requires t.log.overtaken == s.log.overtaken && t.log.discardedData == s.log.discardedData
    ensures DataOrdered(t)
  {
  }

  lemma SendKeepsDataOrder(s: State, t: State, f: Frame)
    requires DataOrdered(s)
    requires t.queue == s.queue + [f] && t.log.enqueuedData == s.log.enqueuedData + [f]
    requires DataOut(t) == DataOut(s) && t.log.overtaken == s.log.overtaken && t.log.discardedData == s.log.discardedData
    ensures DataOrdered(t)
  {
    OrderSend(s.log.enqueuedData, s.queue, f);
    if s.log.overtaken.Some? {
      assert s.log.enqueuedData + [] == s.log.enqueuedData;
      BeforeGrows(s.log.enqueuedData, [f], [], s.log.overtaken.value.0, s.log.overtaken.value.1);
      assert s.log.enqueuedData + [f] + [] == s.log.enqueuedData + [f];
    }
  }

  /** A frame leaves the queue and joins the end of the frames to be attempted. */
  lemma ReceiveKeepsDataOrder(s: State, t: State)
    requires Conserved(s) && DataOrdered(s) && s.queue != []
    requires t.queue == s.queue[1..] && t.log.enqueuedData == s.log.enqueuedData
    requires DataOut(t) == DataOut(s) + [s.queue[0]] && t.log.overtaken == s.log.overtaken && t.log.discardedData == s.log.discardedData
    ensures DataOrdered(t)
  {
    Separate(s);
    OrderReceive(s.log.enqueuedData, s.queue, SetOf(s.log.discardedData));
    if s.log.overtaken.Some? {
      assert DataOut(s) + [] == DataOut(s);
      BeforeGrows(DataOut(s), [s.queue[0]], [], s.log.overtaken.value.1, s.log.overtaken.value.0);
      assert DataOut(s) + [s.queue[0]] + [] == DataOut(t);
    }
  }

  /** `Flush` takes a frame while the loop holds an earlier one: the one way to lose the order. */
  lemma OvertakeBreaksDataOrder(s: State)
    requires Conserved(s) && DataOrdered(s) && s.queue != [] && s.loop.HoldData?
    ensures DataOrdered(FlushTakeOne(s))
  {
    hide Without, SetOf, Conserved;
    var t := FlushTakeOne(s);
    var x, y := s.loop.data, s.queue[0];
    var enq := s.log.enqueuedData;
    var n := |enq| - |s.queue|;
    Separate(s);
    OrderReceive(enq, s.queue, SetOf(s.log.discardedData));
    assert enq[n..][0] == enq[n] == y;
    var head := s.log.attemptedData + s.batch;
    assert DataOut(s) == head + [x];
    assert DataOut(t) == head + [y] + [x];
    if s.log.overtaken.None? {
      assert x in DataOut(s) by { assert DataOut(s)[|head|] == x; }
      WithoutMembers(enq[..n], SetOf(s.log.discardedData));
      var k :| 0 <= k < n && enq[..n][k] == x;
      assert enq[k] == x && enq[n] == y;
      assert DataOut(t)[|head|] == y && DataOut(t)[|head| + 1] == x;
    } else {
      BeforeGrows(head, [y], [x], s.log.overtaken.value.1, s.log.overtaken.value.0);
    }
  }

  lemma DiscardKeepsDataOrder(s: State)
    requires Conserved(s) && DataOrdered(s) && s.queue != []
    ensures DataOrdered(DiscardHead(s))
  {
    hide Conserved, Without, Before, Unmark;
    Separate(s);
    OrderDiscard(s.log.enqueuedData, s.queue, SetOf(s.log.discardedData));
    SetOfAppend(s.log.discardedData, s.queue[0]);
  }

  lemma FlushKeepsDataOrder(s: State, bad: set<Frame>, t: State)
    requires DataOrdered(s)
    requires t.queue == s.queue && t.batch == [] && t.log.attemptedData == FlushBatch(s, bad).log.attemptedData
    requires t.log.enqueuedData == s.log.enqueuedData && t.log.overtaken == s.log.overtaken
    requires t.log.discardedData == s.log.discardedData && DataHand(t) == DataHand(s)
    ensures DataOrdered(t)
  {
    FlushFramesEffect(s, s.batch, bad);
    assert DataOut(t) == DataOut(s);
  }

  lemma AppendKeepsDataOrder(c: Config, s: State, bad: set<Frame>)
    requires DataOrdered(s) && s.loop.HoldData?
    ensures DataOrdered(AppendHeld(c, s, s.loop.data, bad))
  {
    var t := s.(batch := s.batch + [s.loop.data], loop := Top);
    assert DataOut(t) == DataOut(s);
    DataUntouched(s, t);
    FlushFramesEffect(t, t.batch, bad);
    FlushKeepsDataOrder(t, bad, FlushBatchByLoop(t, bad));
  }

  // ---------------------------------------------------------------- both lanes, step by step

  ghost predicate Ordered(s: State) {
    DataOrdered(s) && ControlOrdered(s)
  }

  lemma ControlUntouched(s: State, t: State)
    requires ControlOrdered(s)
    requires t.controlQueue == s.controlQueue && ControlOut(t) == ControlOut(s)
    requires t.log.enqueuedControl == s.log.enqueuedControl && t.log.discardedControl == s.log.discardedControl
    ensures ControlOrdered(t)
  {
  }

  /** A step that changes only where the loop is. */
  lemma LoopMovesInOrder(s: State, loop: Loop)
    requires Ordered(s) && ControlHand(s) == DataHand(s) == []
    requires !loop.HoldControl? && !loop.HoldData?
    ensures Ordered(s.(loop := loop))
  {
    DataUntouched(s, s.(loop := loop));
    ControlUntouched(s, s.(loop := loop));
  }

  lemma SendControlKeepsOrder(s: State, t: State, f: Frame)
    requires ControlOrdered(s)
    requires t.controlQueue == s.controlQueue + [f] && t.log.enqueuedControl == s.log.enqueuedControl + [f]
    requires ControlOut(t) == ControlOut(s) && t.log.discardedControl == s.log.discardedControl
    ensures ControlOrdered(t)
  {
    OrderSend(s.log.enqueuedControl, s.controlQueue, f);
  }

  /** What a send does to the two lanes. */
  ghost predicate SendsOne(s: State, t: State, f: Frame) {
    && t.log.attemptedData == s.log.attemptedData && t.log.attemptedControl == s.log.attemptedControl && t.batch == s.batch && t.loop == s.loop
    && t.log.overtaken == s.log.overtaken
    && t.log.discardedData == s.log.discardedData && t.log.discardedControl == s.log.discardedControl
    && (|| (t.queue == s.queue && t.log.enqueuedData == s.log.enqueuedData)
        || (t.queue == s.queue + [f] && t.log.enqueuedData == s.log.enqueuedData + [f]))
    && (|| (t.controlQueue == s.controlQueue && t.log.enqueuedControl == s.log.enqueuedControl)
        || (t.controlQueue == s.controlQueue + [f] && t.log.enqueuedControl == s.log.enqueuedControl + [f]))
  }

  lemma SendShape(c: Config, s: State, i: nat)
    requires i < |s.pending|
    ensures SendsOne(s, Enqueue(c, s, i), s.pending[i].frame)
  {
    hide Drop;
    var p := s.pending[i];
    if p.kind.Data? {
      if !QueueIsClosed(s) && |s.queue| < c.queueSize {
        assert Enqueue(c, s, i).queue == s.queue + [p.frame];
      }
    } else if !ControlQueueIsClosed(s) && |s.controlQueue| < c.ControlSize() {
      assert Enqueue(c, s, i).controlQueue == s.controlQueue + [p.frame];
    }
  }

  lemma SendKeepsOrder(c: Config, s: State, i: nat)
    requires Ordered(s) && i < |s.pending|
    ensures Ordered(Enqueue(c, s, i))
  {
    hide Enqueue, DataOrdered, ControlOrdered;
    SendShape(c, s, i);
    var t := Enqueue(c, s, i);
    if t.queue != s.queue {
      SendKeepsDataOrder(s, t, s.pending[i].frame);
    } else {
      DataUntouched(s, t);
    }
    if t.controlQueue != s.controlQueue {
      SendControlKeepsOrder(s, t, s.pending[i].frame);
    } else {
      ControlUntouched(s, t);
    }
  }

  /** A producer's other steps leave the lanes alone. */
  lemma ProducerLeavesLanes(c: Config, s: State, e: Step)
    requires e.Begin? || e.Mark? || e.Block? || e.GiveUp? || e.Expire?
    ensures var t := ProducerStep(c, s, e); t == s.(pending := t.pending, backlog := t.backlog)
  {
    hide Known, Drop, TargetFull, AddMark, TakeMark;
  }

  lemma ProducerKeepsOrder(c: Config, s: State, e: Step)
    requires Ordered(s)
    requires e.Begin? || e.Mark? || e.Send? || e.Block? || e.GiveUp? || e.Expire?
    ensures Ordered(ProducerStep(c, s, e))
  {
    hide DataOrdered, ControlOrdered, Enqueue;
    if e.Send? {
      if e.i < |s.pending| { SendKeepsOrder(c, s, e.i); }
    } else {
      hide ProducerStep;
      ProducerLeavesLanes(c, s, e);
      DataUntouched(s, ProducerStep(c, s, e));
      ControlUntouched(s, ProducerStep(c, s, e));
    }
  }

  lemma ReceiveControlKeepsOrder(s: State)
    requires Conserved(s) && Ordered(s) && s.loop.Top? && s.controlQueue != []
    ensures Ordered(s.(controlQueue := s.controlQueue[1..], loop := HoldControl(s.controlQueue[0])))
  {
    hide Without, SetOf, Conserved, Before;
    var t := s.(controlQueue := s.controlQueue[1..], loop := HoldControl(s.controlQueue[0]));
    Separate(s);
    OrderReceive(s.log.enqueuedControl, s.controlQueue, SetOf(s.log.discardedControl));
    assert ControlOut(t) == ControlOut(s) + [s.controlQueue[0]];
    DataUntouched(s, t);
  }

  lemma ReceiveDataKeepsOrder(c: Config, s: State)
    requires Conserved(s) && Ordered(s)
    ensures Ordered(LoopStep(c, s, ReceiveData))
  {
    hide Without, SetOf, Conserved, Before;
    var t := LoopStep(c, s, ReceiveData);
    if s.loop.Select? {
      if s.queue != [] {
        ReceiveKeepsDataOrder(s, t);
        ControlUntouched(s, t);
      } else {
        LoopMovesInOrder(s, t.loop);
      }
    }
  }

  lemma AttemptKeepsOrder(s: State, f: Frame, kind: Kind, bad: set<Frame>)
    requires Ordered(s)
    requires (kind.Control? && s.loop == HoldControl(f)) || (kind.Beat? && s.loop.Beating?)
    ensures Ordered(FlushFrame(s, f, kind, bad).(loop := Top))
  {
    hide Without, SetOf, Before;
    var t := FlushFrame(s, f, kind, bad).(loop := Top);
    assert s.log.attemptedControl + [] == s.log.attemptedControl;
    DataUntouched(s, t);
    ControlUntouched(s, t);
  }

  lemma FlushByLoopKeepsOrder(s: State, bad: set<Frame>, loop: Loop)
    requires Ordered(s) && ControlHand(s) == DataHand(s) == [] && !loop.HoldControl? && !loop.HoldData?
    ensures Ordered(FlushBatchByLoop(s, bad).(loop := loop))
  {
    hide Without, SetOf, Before;
    var t := FlushBatchByLoop(s, bad).(loop := loop);
    FlushFramesEffect(s, s.batch, bad);
    FlushKeepsDataOrder(s, bad, t);
    ControlUntouched(s, t);
  }

  lemma AppendKeepsOrder(c: Config, s: State, bad: set<Frame>)
    requires Ordered(s) && s.loop.HoldData?
    ensures Ordered(AppendHeld(c, s, s.loop.data, bad))
  {
    hide Without, SetOf, Before;
    var t := s.(batch := s.batch + [s.loop.data], loop := Top);
    AppendKeepsDataOrder(c, s, bad);
    FlushFramesEffect(t, t.batch, bad);
    ControlUntouched(s, AppendHeld(c, s, s.loop.data, bad));
  }

  lemma LoopKeepsOrder(c: Config, s: State, e: Step)
    requires Conserved(s) && Ordered(s) && LoopStep.requires(c, s, e)
    ensures Ordered(LoopStep(c, s, e))
  {
    hide Ordered, Conserved, FlushFrame, AppendHeld, FlushBatchByLoop, Known;
    var t := LoopStep(c, s, e);
    match e
    case PollControl =>
      if s.loop.Top? {
        if s.controlQueue != [] { ReceiveControlKeepsOrder(s); } else { LoopMovesInOrder(s, t.loop); }
      }
    case AttemptControl(bad) => if s.loop.HoldControl? && !s.flushing { AttemptKeepsOrder(s, s.loop.control, Control, bad); }
    case ReceiveData => ReceiveDataKeepsOrder(c, s);
    case ReceiveTick => if s.loop.Select? { LoopMovesInOrder(s, Ticked); }
    case ReceiveBeat => if s.loop.Select? { LoopMovesInOrder(s, Beating); }
    case ReceiveRearm => if s.loop.Select? { LoopMovesInOrder(s, Top); }
    case ReceiveDone => if s.loop.Select? { LoopMovesInOrder(s, t.loop); }
    case AppendData(bad) => if s.loop.HoldData? && !s.flushing { AppendKeepsOrder(c, s, bad); }
    case FlushTick(bad) => if s.loop.Ticked? && !s.flushing { FlushByLoopKeepsOrder(s, bad, Top); }
    case AttemptBeat(beat, bad) =>
      if s.loop.Beating? && !s.flushing {
        if beat.None? { LoopMovesInOrder(s, Top); }
        else if !Known(s, beat.value) { AttemptKeepsOrder(s, beat.value, Beat, bad); }
      }
    case LeaveLoop(bad) => if s.loop.Leaving? && !s.flushing { FlushByLoopKeepsOrder(s, bad, Exited); }
  }

  lemma FlushCallKeepsOrder(s: State, e: Step)
    requires Conserved(s) && Ordered(s) && (e.FlushEnter? || e.FlushTake? || e.FlushLeave?)
    ensures Ordered(FlushStep(s, e))
  {
    hide Without, SetOf, Conserved, Before;
    var t := FlushStep(s, e);
    if e.FlushTake? && s.flushing && s.queue != [] {
      ControlUntouched(s, t);
      if s.loop.HoldData? {
        OvertakeBreaksDataOrder(s);
      } else {
        assert DataOut(t) == DataOut(s) + [s.queue[0]];
        ReceiveKeepsDataOrder(s, t);
      }
    } else {
      if e.FlushLeave? && t != s {
        FlushFramesEffect(s, s.batch, e.bad);
        FlushKeepsDataOrder(s, e.bad, t);
      } else {
        DataUntouched(s, t);
      }
      ControlUntouched(s, t);
    }
  }

  lemma DiscardControlKeepsOrder(s: State)
    requires Conserved(s) && Ordered(s) && s.controlQueue != []
    ensures Ordered(DiscardControlHead(s))
  {
    hide Without, SetOf, Conserved, Before;
    var t := DiscardControlHead(s);
    DataUntouched(s, t);
    Separate(s);
    OrderDiscard(s.log.enqueuedControl, s.controlQueue, SetOf(s.log.discardedControl));
    SetOfAppend(s.log.discardedControl, s.controlQueue[0]);
  }

  lemma CloseKeepsOrder(s: State, e: Step)
    requires Conserved(s) && Ordered(s) && CloseStep.requires(s, e)
    ensures Ordered(CloseStep(s, e))
  {
    hide Without, SetOf, Conserved, Before;
    var t := CloseStep(s, e);
    if e.DiscardData? && s.closer.DrainingData? && s.queue != [] {
      DiscardKeepsDataOrder(s);
      ControlUntouched(s, t);
    } else if e.DiscardControl? && s.closer.DrainingControl? && s.controlQueue != [] {
      DiscardControlKeepsOrder(s);
    } else {
      DataUntouched(s, t);
      ControlUntouched(s, t);
    }
  }

  lemma AdaptiveKeepsOrder(c: Config, s: State, e: Step)
    requires Ordered(s) && e.SetAdaptive?
    ensures Ordered(Next(c, s, e))
  {
    hide Without, SetOf, Before;
    DataUntouched(s, Next(c, s, e));
    ControlUntouched(s, Next(c, s, e));
  }

  lemma NextKeepsOrder(c: Config, s: State, e: Step)
    requires Conserved(s) && Ordered(s)
    ensures Ordered(Next(c, s, e))
  {
    hide Conserved, Ordered, ProducerStep, FlushStep, CloseStep, LoopStep;
    if s.panicked {
    } else if e.Begin? || e.Mark? || e.Send? || e.Block? || e.GiveUp? || e.Expire? {
      ProducerKeepsOrder(c, s, e);
    } else if e.FlushEnter? || e.FlushTake? || e.FlushLeave? {
      FlushCallKeepsOrder(s, e);
    } else if e.CloseEnter? || e.CloseQueue? || e.CloseControlQueue? || e.DiscardData? || e.DiscardControl? || e.CloseDone? {
      CloseKeepsOrder(s, e);
    } else if e.SetAdaptive? {
      AdaptiveKeepsOrder(c, s, e);
    } else {
      LoopKeepsOrder(c, s, e);
    }
  }

  lemma {:induction false} OrderedRuns(c: Config, steps: seq<Step>)
    ensures Ordered(Run(c, steps))
  {
    if steps != [] {
      var before := steps[..|steps| - 1];
      Conservation(c, before);
      OrderedRuns(c, before);
      NextKeepsOrder(c, Run(c, before), steps[|steps| - 1]);
    }
  }
}
