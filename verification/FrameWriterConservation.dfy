/**
 * Conservation in the frame writer: on every run each frame is in at most one place, the backlog
 * counters count exactly the frames held, and every accepted frame is released exactly once.
 */
module FrameWriterConservation {
  import opened Collections
  import opened FrameWriter

  // ---------------------------------------------------------------- where frames are

  function ControlHand(s: State): seq<Frame> {
    if s.loop.HoldControl? then [s.loop.control] else []
  }

  function DataHand(s: State): seq<Frame> {
    if s.loop.HoldData? then [s.loop.data] else []
  }

  /** The frames of producers; with `countedOnly`, of those that have entered the backlog counters. */
  ghost function Gather(ps: seq<Producer>, countedOnly: bool): seq<Frame> {
    if ps == [] then []
    else Gather(ps[..|ps| - 1], countedOnly) + Weight(ps[|ps| - 1], countedOnly)
  }

  ghost function Weight(p: Producer, countedOnly: bool): seq<Frame> {
    if countedOnly && p.stage.Checked? then [] else [p.frame]
  }

  ghost function Bytes(fs: seq<Frame>): int {
    if fs == [] then 0 else Bytes(fs[..|fs| - 1]) + fs[|fs| - 1].Size()
  }

  /** Copies of `f` among accepted frames still on their way. */
  ghost function InTransit(s: State, f: Frame): nat {
    Count(s.queue, f) + Count(s.controlQueue, f) + Count(ControlHand(s), f) + Count(DataHand(s), f) + Count(s.batch, f)
  }

  /** Copies of `f` among accepted frames the writer is done with. */
  ghost function Done(s: State, f: Frame): nat {
    Count(s.log.attemptedData, f) + Count(s.log.attemptedControl, f)
    + Count(s.log.discardedData, f) + Count(s.log.discardedControl, f)
  }

  ghost function Accepted(s: State, f: Frame): nat {
    Count(s.log.enqueuedData, f) + Count(s.log.enqueuedControl, f)
  }

  ghost function HeldCopies(s: State, f: Frame): nat {
    Count(Gather(s.pending, true), f) + InTransit(s, f)
  }

  ghost function Copies(s: State, f: Frame): nat {
    Count(Gather(s.pending, false), f) + InTransit(s, f) + Done(s, f) + Count(s.log.attemptedBeats, f)
  }

  ghost function HeldNumber(s: State): int {
    |Gather(s.pending, true)| + |s.queue| + |s.controlQueue| + |ControlHand(s)| + |DataHand(s)| + |s.batch|
  }

  ghost function HeldBytes(s: State): int {
    Bytes(Gather(s.pending, true)) + Bytes(s.queue) + Bytes(s.controlQueue)
    + Bytes(ControlHand(s)) + Bytes(DataHand(s)) + Bytes(s.batch)
  }

  // ---------------------------------------------------------------- the invariant

  ghost predicate ConservedAt(s: State, f: Frame) {
    && Copies(s, f) <= 1
    && MarkOf(s.backlog, f) == (if HeldCopies(s, f) > 0 then f.Size() else 0)
    && Accepted(s, f) == InTransit(s, f) + Done(s, f)
    && Count(s.log.released, f) == Done(s, f) + Count(s.log.attemptedBeats, f)
  }

  ghost predicate Conserved(s: State) {
    && s.backlog.frames == HeldNumber(s)
    && s.backlog.bytes == HeldBytes(s)
    && forall f :: ConservedAt(s, f)
  }

  // ---------------------------------------------------------------- sizes and gathering

  lemma {:induction false} BytesConcat(a: seq<Frame>, b: seq<Frame>)
    ensures Bytes(a + b) == Bytes(a) + Bytes(b)
  {
    if b == [] {
      assert a + b == a;
    } else {
      BytesConcat(a, b[..|b| - 1]);
      assert (a + b)[..|a + b| - 1] == a + b[..|b| - 1];
    }
  }

  lemma BytesOne(f: Frame)
    ensures Bytes([f]) == f.Size() && Bytes([]) == 0
  {
    assert [f][..0] == [];
  }

  lemma BytesHead(fs: seq<Frame>)
    requires fs != []
    ensures Bytes(fs) == fs[0].Size() + Bytes(fs[1..])
  {
    assert fs == [fs[0]] + fs[1..];
    BytesConcat([fs[0]], fs[1..]);
    BytesOne(fs[0]);
  }

  lemma CountOne(f: Frame, x: Frame)
    ensures Count([f], x) == if f == x then 1 else 0
    ensures Count([], x) == 0
  {
    assert [f][..0] == [];
  }

  /** One more producer adds its weight to every measure. */
  lemma GatherLast(ps: seq<Producer>, c: bool, f: Frame)
    requires ps != []
    ensures var n := |ps| - 1;
      && Count(Gather(ps, c), f) == Count(Gather(ps[..n], c), f) + Count(Weight(ps[n], c), f)
      && |Gather(ps, c)| == |Gather(ps[..n], c)| + |Weight(ps[n], c)|
      && Bytes(Gather(ps, c)) == Bytes(Gather(ps[..n], c)) + Bytes(Weight(ps[n], c))
  {
    var n := |ps| - 1;
    CountConcat(Gather(ps[..n], c), Weight(ps[n], c), f);
    BytesConcat(Gather(ps[..n], c), Weight(ps[n], c));
  }

  lemma {:induction false} GatherUpdate(ps: seq<Producer>, i: nat, p: Producer, c: bool, f: Frame)
    requires i < |ps|
    ensures Count(Gather(ps[i := p], c), f) + Count(Weight(ps[i], c), f) == Count(Gather(ps, c), f) + Count(Weight(p, c), f)
    ensures |Gather(ps[i := p], c)| + |Weight(ps[i], c)| == |Gather(ps, c)| + |Weight(p, c)|
    ensures Bytes(Gather(ps[i := p], c)) + Bytes(Weight(ps[i], c)) == Bytes(Gather(ps, c)) + Bytes(Weight(p, c))
  {
    hide Gather, Count, Bytes, Weight;
    var n := |ps| - 1;
    var qs := ps[i := p];
    GatherLast(ps, c, f);
    GatherLast(qs, c, f);
    if i == n {
      assert qs[..n] == ps[..n];
    } else {
      assert qs[..n] == ps[..n][i := p];
      GatherUpdate(ps[..n], i, p, c, f);
    }
  }

  lemma {:induction false} GatherDrop(ps: seq<Producer>, i: nat, c: bool, f: Frame)
    requires i < |ps|
    ensures Count(Gather(ps, c), f) == Count(Gather(Drop(ps, i), c), f) + Count(Weight(ps[i], c), f)
    ensures |Gather(ps, c)| == |Gather(Drop(ps, i), c)| + |Weight(ps[i], c)|
    ensures Bytes(Gather(ps, c)) == Bytes(Gather(Drop(ps, i), c)) + Bytes(Weight(ps[i], c))
  {
    hide Gather, Count, Bytes, Weight;
    var n := |ps| - 1;
    GatherLast(ps, c, f);
    if i == n {
      assert Drop(ps, i) == ps[..n];
    } else {
      var qs := Drop(ps, i);
      assert qs[..n - 1] == Drop(ps[..n], i) && qs[n - 1] == ps[n];
      GatherDrop(ps[..n], i, c, f);
      GatherLast(qs, c, f);
    }
  }

  lemma GatherAppend(ps: seq<Producer>, p: Producer, c: bool)
    ensures Gather(ps + [p], c) == Gather(ps, c) + Weight(p, c)
  {
    assert (ps + [p])[..|ps|] == ps;
  }

  lemma {:induction false} GatherMembers(ps: seq<Producer>, f: Frame)
    ensures f in Gather(ps, false) <==> exists i :: 0 <= i < |ps| && ps[i].frame == f
  {
    if ps != [] {
      var n := |ps| - 1;
      GatherMembers(ps[..n], f);
      if exists i :: 0 <= i < n && ps[..n][i].frame == f {
        var i :| 0 <= i < n && ps[..n][i].frame == f;
        assert ps[i].frame == f;
      }
      if exists i :: 0 <= i < |ps| && ps[i].frame == f {
        var i :| 0 <= i < |ps| && ps[i].frame == f;
        assert i < n ==> ps[..n][i].frame == f;
      }
    }
  }

  lemma {:induction false} GatherCounted(ps: seq<Producer>, f: Frame)
    ensures Count(Gather(ps, true), f) <= Count(Gather(ps, false), f)
  {
    if ps != [] {
      var n := |ps| - 1;
      GatherCounted(ps[..n], f);
      CountConcat(Gather(ps[..n], true), Weight(ps[n], true), f);
      CountConcat(Gather(ps[..n], false), Weight(ps[n], false), f);
      CountOne(ps[n].frame, f);
    }
  }

  /** A frame the run does not know is in no place. */
  lemma UnknownIsNowhere(s: State, f: Frame)
    requires Conserved(s) && !Known(s, f)
    ensures Copies(s, f) == 0 && HeldCopies(s, f) == 0
  {
    assert ConservedAt(s, f);
    GatherMembers(s.pending, f);
    GatherCounted(s.pending, f);
    CountIn(Gather(s.pending, false), f);
    CountIn(s.log.enqueuedData, f);
    CountIn(s.log.enqueuedControl, f);
    CountIn(s.log.attemptedBeats, f);
  }

  lemma HeldAtMostOnce(s: State, f: Frame)
    requires ConservedAt(s, f)
    ensures HeldCopies(s, f) <= 1
  {
    GatherCounted(s.pending, f);
  }

  /**
   * A counted frame that its producer is about to offer to a queue is nowhere else in the writer and
   * carries its own size as its mark.
   */
  lemma OfferedFrame(c: Config, steps: seq<Step>, i: nat)
    requires var s := Run(c, steps); i < |s.pending| && !s.pending[i].stage.Checked?
    ensures var s := Run(c, steps); var f := s.pending[i].frame;
      && HeldCopies(s, f) == 1 && InTransit(s, f) == 0 && Done(s, f) == 0
      && MarkOf(s.backlog, f) == f.Size()
  {
    hide Run, Count, Bytes, Gather;
    Conservation(c, steps);
    var s := Run(c, steps);
    var f := s.pending[i].frame;
    assert ConservedAt(s, f);
    GatherDrop(s.pending, i, true, f);
    GatherCounted(s.pending, f);
    CountOne(f, f);
  }

  /** A change that moves no frame in or out of the backlog and keeps each frame's copies. */
  lemma Rearranged(s: State, t: State)
    requires Conserved(s)
    requires t.backlog == s.backlog
    requires HeldNumber(t) == HeldNumber(s) && HeldBytes(t) == HeldBytes(s)
    requires forall f :: SameCopies(s, t, f)
    requires t.log.attemptedBeats == s.log.attemptedBeats && t.log.released == s.log.released
    ensures Conserved(t)
  {
    forall f ensures ConservedAt(t, f) {
      assert SameCopies(s, t, f) && ConservedAt(s, f);
    }
  }

  lemma LoopMoves(s: State, loop: Loop)
    requires Conserved(s) && ControlHand(s) == DataHand(s) == []
    requires !loop.HoldControl? && !loop.HoldData?
    ensures Conserved(s.(loop := loop))
  {
    hide Count, Bytes, Gather;
    assert forall f :: SameCopies(s, s.(loop := loop), f);
    Rearranged(s, s.(loop := loop));
  }

  /** A change of control state only. */
  lemma Untouched(s: State, t: State)
    requires Conserved(s)
    requires t == s.(closed := t.closed, adaptive := t.adaptive, threshold := t.threshold, loop := t.loop, closer := t.closer,
                     flushing := t.flushing, panicked := t.panicked,
                     log := s.log.(byLoop := t.log.byLoop, byFlush := t.log.byFlush))
    requires ControlHand(t) == ControlHand(s) && DataHand(t) == DataHand(s)
    ensures Conserved(t)
  {
    hide Count, Bytes, Gather;
    assert forall f :: SameCopies(s, t, f);
    Rearranged(s, t);
  }

  ghost predicate SameCopies(s: State, t: State, f: Frame) {
    && HeldCopies(t, f) == HeldCopies(s, f) && Copies(t, f) == Copies(s, f)
    && Accepted(t, f) + InTransit(s, f) == Accepted(s, f) + InTransit(t, f) && Done(t, f) == Done(s, f)
  }

  // ---------------------------------------------------------------- effect of the critical sections

  function UnmarkAll(b: Backlog, fs: seq<Frame>): Backlog
    decreases |fs|
  {
    if fs == [] then b else UnmarkAll(Unmark(b, fs[0]), fs[1..])
  }

  ghost predicate Cleared(before: Backlog, after: Backlog, fs: seq<Frame>) {
    forall f :: MarkOf(after, f) == if f in fs then 0 else MarkOf(before, f)
  }

  /** Unmarking marked frames subtracts exactly their number and their bytes. */
  lemma {:induction false} UnmarkAllEffect(b: Backlog, fs: seq<Frame>)
    requires Distinct(fs) && forall i :: 0 <= i < |fs| ==> MarkOf(b, fs[i]) == fs[i].Size()
    ensures var a := UnmarkAll(b, fs); Cleared(b, a, fs) && a.frames == b.frames - |fs| && a.bytes == b.bytes - Bytes(fs)
    decreases |fs|
  {
    hide Bytes;
    if fs == [] {
      BytesOne(Frame(0, 0));
    } else {
      var f, rest := fs[0], fs[1..];
      assert fs == [f] + rest;
      BytesHead(fs);
      assert forall i :: 0 <= i < |rest| ==> rest[i] == fs[i + 1] && rest[i] != f;
      UnmarkAllEffect(Unmark(b, f), rest);
      var a := UnmarkAll(b, fs);
      forall g ensures MarkOf(a, g) == if g in fs then 0 else MarkOf(b, g) {
        assert g in fs <==> g == f || g in rest;
      }
    }
  }

  /** `flushBatchLocked` attempts frames in order, releases each, and unmarks each, whatever the errors. */
  lemma {:induction false} FlushFramesEffect(s: State, fs: seq<Frame>, bad: set<Frame>)
    ensures var t := FlushFrames(s, fs, bad);
      t == s.(closed := t.closed, writeErr := t.writeErr, backlog := UnmarkAll(s.backlog, fs),
              log := s.log.(attemptedData := s.log.attemptedData + fs, released := s.log.released + fs,
                            failures := t.log.failures, attempts := t.log.attempts))
    decreases |fs|
  {
    if fs == [] {
      assert s.log.attemptedData + fs == s.log.attemptedData;
      assert s.log.released + fs == s.log.released;
    } else {
      var f, rest := fs[0], fs[1..];
      FlushFramesEffect(FlushFrame(s, f, Data, bad), rest, bad);
      assert s.log.attemptedData + [f] + rest == s.log.attemptedData + fs;
      assert s.log.released + [f] + rest == s.log.released + fs;
    }
  }

  /** What appending the frame in hand comes to. */
  lemma AppendHeldEffect(c: Config, s: State, f: Frame, bad: set<Frame>)
    ensures var t, grown := AppendHeld(c, s, f, bad), s.batch + [f];
      && t.loop.Top? && t.queue == s.queue && t.flushing == s.flushing && t.panicked == s.panicked
      && if |grown| >= c.maxBatch || (s.adaptive && |s.queue| <= s.threshold)
         then t.batch == [] && t.log.attemptedData == s.log.attemptedData + grown
         else t.batch == grown && t.log.attemptedData == s.log.attemptedData
  {
    hide FlushFrames;
    var t := s.(batch := s.batch + [f], loop := Top);
    FlushFramesEffect(t, t.batch, bad);
  }

  lemma BatchIsMarked(s: State)
    requires Conserved(s)
    ensures Distinct(s.batch) && forall i :: 0 <= i < |s.batch| ==> MarkOf(s.backlog, s.batch[i]) == s.batch[i].Size()
  {
    hide Bytes, Gather;
    forall f ensures Count(s.batch, f) <= 1 {
      assert ConservedAt(s, f);
    }
    DistinctFromCount(s.batch);
    forall i | 0 <= i < |s.batch| ensures MarkOf(s.backlog, s.batch[i]) == s.batch[i].Size() {
      assert ConservedAt(s, s.batch[i]);
      CountIn(s.batch, s.batch[i]);
    }
  }

  /** The whole of `flushBatchLocked`: the batch is attempted in order and leaves the backlog. */
  lemma FlushBatchEffect(s: State, bad: set<Frame>)
    requires Conserved(s)
    ensures var t := FlushBatch(s, bad);
      && Cleared(s.backlog, t.backlog, s.batch)
      && t.backlog.frames == s.backlog.frames - |s.batch| && t.backlog.bytes == s.backlog.bytes - Bytes(s.batch)
      && t == s.(batch := [], closed := t.closed, writeErr := t.writeErr, backlog := t.backlog,
                 log := s.log.(attemptedData := s.log.attemptedData + s.batch, released := s.log.released + s.batch,
                               failures := t.log.failures, attempts := t.log.attempts))
  {
    hide Count, Bytes, Gather;
    BatchIsMarked(s);
    UnmarkAllEffect(s.backlog, s.batch);
    FlushFramesEffect(s, s.batch, bad);
  }

  lemma FlushBatchConserves(s: State, bad: set<Frame>)
    requires Conserved(s)
    ensures Conserved(FlushBatch(s, bad))
  {
    hide Count, Bytes, Gather;
    FlushBatchEffect(s, bad);
    BytesOne(Frame(0, 0));
    var t := FlushBatch(s, bad);
    forall f ensures ConservedAt(t, f) {
      assert ConservedAt(s, f);
      CountOne(f, f);
      CountConcat(s.log.attemptedData, s.batch, f);
      CountConcat(s.log.released, s.batch, f);
      CountIn(s.batch, f);
      HeldAtMostOnce(s, f);
    }
  }

  // ---------------------------------------------------------------- every step conserves

  lemma BeginConserves(c: Config, s: State, f: Frame, kind: Kind)
    requires Conserved(s)
    ensures Conserved(ProducerStep(c, s, Begin(f, kind)))
  {
    hide Count, Bytes, Gather;
    var t := ProducerStep(c, s, Begin(f, kind));
    if t != s {
      UnknownIsNowhere(s, f);
      var p := Producer(f, kind, Checked);
      GatherAppend(s.pending, p, true);
      GatherAppend(s.pending, p, false);
      assert Gather(s.pending, true) + [] == Gather(s.pending, true);
      forall g ensures ConservedAt(t, g) {
        assert ConservedAt(s, g);
        CountAppend(Gather(s.pending, false), f, g);
      }
    }
  }

  lemma MarkConserves(c: Config, s: State, i: nat)
    requires Conserved(s)
    ensures Conserved(ProducerStep(c, s, Mark(i)))
  {
    hide Count, Bytes, Gather, ConservedAt;
    var t := ProducerStep(c, s, Mark(i));
    if i < |s.pending| && s.pending[i].stage.Checked? {
      var p := s.pending[i];
      BytesOne(p.frame);
      GatherUpdate(s.pending, i, p.(stage := Marked), true, p.frame);
      forall g ensures ConservedAt(t, g) {
        MarkConservesAt(c, s, i, g);
      }
    }
  }

  lemma MarkConservesAt(c: Config, s: State, i: nat, g: Frame)
    requires ConservedAt(s, g) && i < |s.pending| && s.pending[i].stage.Checked?
    ensures ConservedAt(ProducerStep(c, s, Mark(i)), g)
  {
    hide Count, Bytes, Gather;
    var p := s.pending[i];
    CountOne(p.frame, g);
    HeldAtMostOnce(s, g);
    GatherUpdate(s.pending, i, p.(stage := Marked), true, g);
    GatherUpdate(s.pending, i, p.(stage := Marked), false, g);
    GatherDrop(s.pending, i, true, g);
    GatherDrop(s.pending, i, false, g);
    GatherCounted(Drop(s.pending, i), g);
  }

  lemma EnqueueDataConserves(s: State, t: State, i: nat)
    requires Conserved(s) && i < |s.pending| && !s.pending[i].stage.Checked?
    requires var f := s.pending[i].frame;
      t == s.(queue := s.queue + [f], pending := Drop(s.pending, i), log := s.log.(enqueuedData := s.log.enqueuedData + [f]))
    ensures Conserved(t)
  {
    hide Count, Bytes, Gather;
    var f := s.pending[i].frame;
    BytesOne(f);
    BytesConcat(s.queue, [f]);
    GatherDrop(s.pending, i, true, f);
    forall g ensures SameCopies(s, t, g) {
      CountOne(f, g);
      CountAppend(s.queue, f, g);
      CountAppend(s.log.enqueuedData, f, g);
      GatherDrop(s.pending, i, true, g);
      GatherDrop(s.pending, i, false, g);
    }
    Rearranged(s, t);
  }

  lemma EnqueueControlConserves(s: State, t: State, i: nat)
    requires Conserved(s) && i < |s.pending| && !s.pending[i].stage.Checked?
    requires var f := s.pending[i].frame;
      t == s.(controlQueue := s.controlQueue + [f], pending := Drop(s.pending, i),
              log := s.log.(enqueuedControl := s.log.enqueuedControl + [f], arrival := t.log.arrival))
    ensures Conserved(t)
  {
    hide Count, Bytes, Gather;
    var f := s.pending[i].frame;
    BytesOne(f);
    BytesConcat(s.controlQueue, [f]);
    GatherDrop(s.pending, i, true, f);
    forall g ensures SameCopies(s, t, g) {
      CountOne(f, g);
      CountAppend(s.controlQueue, f, g);
      CountAppend(s.log.enqueuedControl, f, g);
      GatherDrop(s.pending, i, true, g);
      GatherDrop(s.pending, i, false, g);
    }
    Rearranged(s, t);
  }

  lemma SendConserves(c: Config, s: State, i: nat)
    requires Conserved(s)
    ensures Conserved(ProducerStep(c, s, Send(i)))
  {
    hide Conserved, Count, Bytes, Gather;
    var t := ProducerStep(c, s, Send(i));
    if t.panicked != s.panicked {
      Untouched(s, t);
    } else if t != s {
      if s.pending[i].kind.Data? { EnqueueDataConserves(s, t, i); } else { EnqueueControlConserves(s, t, i); }
    }
  }

  lemma TakeBackConserves(s: State, i: nat)
    requires Conserved(s) && i < |s.pending| && !s.pending[i].stage.Checked?
    ensures Conserved(TakeBack(s, i))
  {
    hide Count, Bytes, Gather;
    var t := TakeBack(s, i);
    var f := s.pending[i].frame;
    BytesOne(f);
    GatherDrop(s.pending, i, true, f);
    forall g ensures ConservedAt(t, g) {
      assert ConservedAt(s, g);
      HeldAtMostOnce(s, g);
      CountOne(f, g);
      GatherDrop(s.pending, i, true, g);
      GatherDrop(s.pending, i, false, g);
    }
  }

  lemma BlockConserves(c: Config, s: State, i: nat)
    requires Conserved(s)
    ensures Conserved(ProducerStep(c, s, Block(i)))
  {
    hide Count, Bytes, Gather;
    var t := ProducerStep(c, s, Block(i));
    if t != s {
      var p := s.pending[i].(stage := Waiting);
      GatherUpdate(s.pending, i, p, true, p.frame);
      forall g ensures SameCopies(s, t, g) {
        GatherUpdate(s.pending, i, p, true, g);
        GatherUpdate(s.pending, i, p, false, g);
      }
      Rearranged(s, t);
    }
  }

  lemma ProducerConserves(c: Config, s: State, e: Step)
    requires Conserved(s)
    requires e.Begin? || e.Mark? || e.Send? || e.Block? || e.GiveUp? || e.Expire?
    ensures Conserved(ProducerStep(c, s, e))
  {
    hide Conserved, Count, Bytes, Gather;
    match e
    case Begin(f, kind) => BeginConserves(c, s, f, kind);
    case Mark(i) => MarkConserves(c, s, i);
    case Send(i) => SendConserves(c, s, i);
    case Block(i) => BlockConserves(c, s, i);
    case GiveUp(i) => if i < |s.pending| && !s.pending[i].stage.Checked? { TakeBackConserves(s, i); }
    case Expire(i) => if i < |s.pending| && !s.pending[i].stage.Checked? { TakeBackConserves(s, i); }
  }

  /** Attempting the control frame the loop holds in its hand. */
  lemma AttemptControlConserves(s: State, bad: set<Frame>)
    requires Conserved(s) && s.loop.HoldControl?
    ensures Conserved(FlushFrame(s, s.loop.control, Control, bad).(loop := Top))
  {
    hide Count, Bytes, Gather;
    var f := s.loop.control;
    var t := FlushFrame(s, f, Control, bad).(loop := Top);
    BytesOne(f);
    CountOne(f, f);
    assert ConservedAt(s, f);
    forall g ensures ConservedAt(t, g) {
      assert ConservedAt(s, g);
      HeldAtMostOnce(s, g);
      CountOne(f, g);
      CountAppend(s.log.attemptedControl, f, g);
      CountAppend(s.log.released, f, g);
    }
  }

  lemma AttemptBeatConserves(s: State, f: Frame, bad: set<Frame>)
    requires Conserved(s) && s.loop.Beating? && !Known(s, f)
    ensures Conserved(FlushFrame(s, f, Beat, bad).(loop := Top))
  {
    hide Count, Bytes, Gather;
    UnknownIsNowhere(s, f);
    var t := FlushFrame(s, f, Beat, bad).(loop := Top);
    assert ConservedAt(s, f);
    forall g ensures ConservedAt(t, g) {
      assert ConservedAt(s, g);
      CountAppend(s.log.attemptedBeats, f, g);
      CountAppend(s.log.released, f, g);
    }
  }

  lemma AppendConserves(c: Config, s: State, bad: set<Frame>)
    requires Conserved(s) && s.loop.HoldData?
    ensures Conserved(AppendHeld(c, s, s.loop.data, bad))
  {
    hide Count, Bytes, Gather;
    var f := s.loop.data;
    var t := s.(batch := s.batch + [f], loop := Top);
    BytesOne(f);
    BytesConcat(s.batch, [f]);
    forall g ensures SameCopies(s, t, g) {
      CountOne(f, g);
      CountAppend(s.batch, f, g);
    }
    Rearranged(s, t);
    FlushBatchEffect(t, bad);
    FlushByLoopConserves(t, bad, Top);
  }

  lemma FlushByLoopConserves(s: State, bad: set<Frame>, loop: Loop)
    requires Conserved(s) && ControlHand(s) == DataHand(s) == []
    requires !loop.HoldControl? && !loop.HoldData?
    ensures Conserved(FlushBatchByLoop(s, bad).(loop := loop))
  {
    hide Count, Bytes, Gather;
    FlushBatchConserves(s, bad);
    FlushBatchEffect(s, bad);
    var t, u := FlushBatch(s, bad), FlushBatchByLoop(s, bad).(loop := loop);
    Untouched(t, u);
  }

  lemma ReceiveDataConserves(s: State)
    requires Conserved(s) && s.loop.Select? && s.queue != []
    ensures Conserved(s.(queue := s.queue[1..], loop := HoldData(s.queue[0])))
  {
    hide Count, Bytes, Gather;
    var t := s.(queue := s.queue[1..], loop := HoldData(s.queue[0]));
    BytesHead(s.queue);
    BytesOne(s.queue[0]);
    forall f ensures SameCopies(s, t, f) {
      CountHead(s.queue, f);
      CountOne(s.queue[0], f);
    }
    Rearranged(s, t);
  }

  lemma ReceiveControlConserves(s: State)
    requires Conserved(s) && s.loop.Top? && s.controlQueue != []
    ensures Conserved(s.(controlQueue := s.controlQueue[1..], loop := HoldControl(s.controlQueue[0])))
  {
    hide Count, Bytes, Gather;
    var t := s.(controlQueue := s.controlQueue[1..], loop := HoldControl(s.controlQueue[0]));
    BytesHead(s.controlQueue);
    BytesOne(s.controlQueue[0]);
    forall f ensures SameCopies(s, t, f) {
      CountHead(s.controlQueue, f);
      CountOne(s.controlQueue[0], f);
    }
    Rearranged(s, t);
  }

  lemma LoopReceivesConserve(c: Config, s: State, e: Step)
    requires Conserved(s)
    requires e.PollControl? || e.ReceiveData? || e.ReceiveTick? || e.ReceiveBeat? || e.ReceiveRearm? || e.ReceiveDone?
    ensures Conserved(LoopStep(c, s, e))
  {
    hide Conserved, Count, Bytes, Gather;
    var t := LoopStep(c, s, e);
    match e
    case PollControl =>
      if s.loop.Top? {
        if s.controlQueue != [] { ReceiveControlConserves(s); } else { LoopMoves(s, t.loop); }
      }
    case ReceiveData =>
      if s.loop.Select? {
        if s.queue != [] { ReceiveDataConserves(s); } else { LoopMoves(s, t.loop); }
      }
    case ReceiveTick => if s.loop.Select? { LoopMoves(s, Ticked); }
    case ReceiveBeat => if s.loop.Select? { LoopMoves(s, Beating); }
    case ReceiveRearm => if s.loop.Select? { LoopMoves(s, Top); }
    case ReceiveDone => if s.loop.Select? { LoopMoves(s, t.loop); }
  }

  lemma LoopWritesConserve(c: Config, s: State, e: Step)
    requires Conserved(s)
    requires e.AttemptControl? || e.AppendData? || e.FlushTick? || e.AttemptBeat? || e.LeaveLoop?
    ensures Conserved(LoopStep(c, s, e))
  {
    hide Conserved, Count, Bytes, Gather, FlushFrame, AppendHeld, FlushBatchByLoop, Known;
    match e
    case AttemptControl(bad) => if s.loop.HoldControl? && !s.flushing { AttemptControlConserves(s, bad); }
    case AppendData(bad) => if s.loop.HoldData? && !s.flushing { AppendConserves(c, s, bad); }
    case FlushTick(bad) => if s.loop.Ticked? && !s.flushing { FlushByLoopConserves(s, bad, Top); }
    case AttemptBeat(beat, bad) =>
      if s.loop.Beating? && !s.flushing {
        if beat.None? { LoopMoves(s, Top); }
        else if !Known(s, beat.value) { AttemptBeatConserves(s, beat.value, bad); }
      }
    case LeaveLoop(bad) => if s.loop.Leaving? && !s.flushing { FlushByLoopConserves(s, bad, Exited); }
  }

  lemma FlushTakeConserves(s: State)
    requires Conserved(s) && s.queue != []
    ensures Conserved(FlushTakeOne(s))
  {
    hide Count, Bytes, Gather;
    var t := FlushTakeOne(s);
    BytesHead(s.queue);
    BytesOne(s.queue[0]);
    BytesConcat(s.batch, [s.queue[0]]);
    forall f ensures SameCopies(s, t, f) {
      CountHead(s.queue, f);
      CountAppend(s.batch, s.queue[0], f);
    }
    Rearranged(s, t);
  }

  lemma FlushConserves(s: State, e: Step)
    requires Conserved(s) && (e.FlushEnter? || e.FlushTake? || e.FlushLeave?)
    ensures Conserved(FlushStep(s, e))
  {
    hide Conserved, Count, Bytes, Gather;
    var t := FlushStep(s, e);
    match e
    case FlushEnter => Untouched(s, t);
    case FlushTake => if s.queue != [] { FlushTakeConserves(s); }
    case FlushLeave(bad) =>
      if s.flushing && s.queue == [] && !QueueIsClosed(s) {
        FlushBatchConserves(s, bad);
        FlushBatchEffect(s, bad);
        var u := FlushBatch(s, bad);
        Untouched(u, t);
      }
  }

  lemma DiscardConserves(s: State)
    requires Conserved(s) && s.queue != []
    ensures Conserved(DiscardHead(s))
  {
    hide Count, Bytes, Gather;
    var f, t := s.queue[0], DiscardHead(s);
    BytesHead(s.queue);
    CountHead(s.queue, f);
    assert ConservedAt(s, f);
    forall g ensures ConservedAt(t, g) {
      assert ConservedAt(s, g);
      HeldAtMostOnce(s, g);
      CountHead(s.queue, g);
      CountAppend(s.log.discardedData, f, g);
      CountAppend(s.log.released, f, g);
    }
  }

  lemma DiscardControlConserves(s: State)
    requires Conserved(s) && s.controlQueue != []
    ensures Conserved(DiscardControlHead(s))
  {
    hide Count, Bytes, Gather;
    var f, t := s.controlQueue[0], DiscardControlHead(s);
    BytesHead(s.controlQueue);
    CountHead(s.controlQueue, f);
    assert ConservedAt(s, f);
    forall g ensures ConservedAt(t, g) {
      assert ConservedAt(s, g);
      HeldAtMostOnce(s, g);
      CountHead(s.controlQueue, g);
      CountAppend(s.log.discardedControl, f, g);
      CountAppend(s.log.released, f, g);
    }
  }

  lemma CloseConserves(s: State, e: Step)
    requires Conserved(s) && CloseStep.requires(s, e)
    ensures Conserved(CloseStep(s, e))
  {
    hide Conserved, Count, Bytes, Gather;
    var t := CloseStep(s, e);
    if e.DiscardData? && s.closer.DrainingData? && s.queue != [] {
      DiscardConserves(s);
    } else if e.DiscardControl? && s.closer.DrainingControl? && s.controlQueue != [] {
      DiscardControlConserves(s);
    } else {
      Untouched(s, t);
    }
  }

  lemma NextConserves(c: Config, s: State, e: Step)
    requires Conserved(s)
    ensures Conserved(Next(c, s, e))
  {
    hide Conserved, Count, Bytes, Gather;
    if s.panicked {
    } else if e.Begin? || e.Mark? || e.Send? || e.Block? || e.GiveUp? || e.Expire? {
      ProducerConserves(c, s, e);
    } else if e.FlushEnter? || e.FlushTake? || e.FlushLeave? {
      FlushConserves(s, e);
    } else if e.CloseEnter? || e.CloseQueue? || e.CloseControlQueue? || e.DiscardData? || e.DiscardControl? || e.CloseDone? {
      CloseConserves(s, e);
    } else if e.SetAdaptive? {
      Untouched(s, Next(c, s, e));
    } else {
      if e.AttemptControl? || e.AppendData? || e.FlushTick? || e.AttemptBeat? || e.LeaveLoop? {
        LoopWritesConserve(c, s, e);
      } else {
        LoopReceivesConserve(c, s, e);
      }
    }
  }

  /** On every run: one place per frame, exact counters, accepted = in transit + done, released = done. */
  lemma {:induction false} Conservation(c: Config, steps: seq<Step>)
    ensures Conserved(Run(c, steps))
  {
    if steps != [] {
      Conservation(c, steps[..|steps| - 1]);
      NextConserves(c, Run(c, steps[..|steps| - 1]), steps[|steps| - 1]);
    } else {
      assert forall f :: ConservedAt(INITIAL, f);
    }
  }
}
