/**
 * What the frame writer puts on the wire: one total order of attempts across data, control and
 * heartbeat frames, the bytes of those attempts, and what a reader makes of them, before and after the
 * first failure.
 */
module FrameWriterWire {
  import opened Collections
  import opened FrameWriter
  import opened FrameWriterConservation
  import opened FrameWriterOrder
  import Codec = FrameCodec

  // ---------------------------------------------------------------- the order of attempts

  ghost function OfKind(attempts: seq<Attempt>, kind: Kind): seq<Frame> {
    if attempts == [] then []
    else
      var a := attempts[|attempts| - 1];
      OfKind(attempts[..|attempts| - 1], kind) + if a.kind == kind then [a.frame] else []
  }

  ghost function FramesOf(attempts: seq<Attempt>): seq<Frame> {
    if attempts == [] then [] else FramesOf(attempts[..|attempts| - 1]) + [attempts[|attempts| - 1].frame]
  }

  /** The frames of the attempts that did, or did not, fail. */
  ghost function Outcomes(attempts: seq<Attempt>, failed: bool): seq<Frame> {
    if attempts == [] then []
    else
      var a := attempts[|attempts| - 1];
      Outcomes(attempts[..|attempts| - 1], failed) + if a.failed == failed then [a.frame] else []
  }

  /** The attempts are the per-kind histories merged, failures included; what succeeded fits the format. */
  ghost predicate Merged(s: State) {
    && OfKind(s.log.attempts, Data) == s.log.attemptedData
    && OfKind(s.log.attempts, Control) == s.log.attemptedControl
    && OfKind(s.log.attempts, Beat) == s.log.attemptedBeats
    && Outcomes(s.log.attempts, true) == s.log.failures
    && forall i :: 0 <= i < |s.log.attempts| && !s.log.attempts[i].failed ==> s.log.attempts[i].frame.payloadLen <= Codec.MAX_FRAME_SIZE
  }

  ghost predicate SameAttempts(s: State, t: State) {
    && t.log.attempts == s.log.attempts && t.log.failures == s.log.failures
    && t.log.attemptedData == s.log.attemptedData && t.log.attemptedControl == s.log.attemptedControl
    && t.log.attemptedBeats == s.log.attemptedBeats
  }

  lemma OneMoreAttempt(attempts: seq<Attempt>, a: Attempt)
    ensures forall k :: OfKind(attempts + [a], k) == OfKind(attempts, k) + if a.kind == k then [a.frame] else []
    ensures Outcomes(attempts + [a], true) == Outcomes(attempts, true) + if a.failed then [a.frame] else []
  {
    assert (attempts + [a])[..|attempts|] == attempts;
  }

  lemma NothingMore(log: Log)
    ensures log.attemptedData + [] == log.attemptedData && log.attemptedControl + [] == log.attemptedControl
    ensures log.attemptedBeats + [] == log.attemptedBeats && log.failures + [] == log.failures
  {
  }

  lemma AttemptMerges(s: State, f: Frame, kind: Kind, bad: set<Frame>)
    requires Merged(s)
    ensures Merged(FlushFrame(s, f, kind, bad))
  {
    hide Unmark;
    hide OfKind, Outcomes;
    var a := Attempt(f, kind, WriteFails(f, bad));
    OneMoreAttempt(s.log.attempts, a);
    NothingMore(s.log);
  }

  lemma {:induction false} FlushMerges(s: State, fs: seq<Frame>, bad: set<Frame>)
    requires Merged(s)
    ensures Merged(FlushFrames(s, fs, bad))
    decreases |fs|
  {
    hide Merged, FlushFrame;
    if fs != [] {
      AttemptMerges(s, fs[0], Data, bad);
      FlushMerges(FlushFrame(s, fs[0], Data, bad), fs[1..], bad);
    }
  }

  lemma SameMerged(s: State, t: State)
    requires Merged(s) && SameAttempts(s, t)
    ensures Merged(t)
  {
  }

  lemma ProducerMerges(c: Config, s: State, e: Step)
    requires Merged(s) && (e.Begin? || e.Mark? || e.Send? || e.Block? || e.GiveUp? || e.Expire?)
    ensures Merged(ProducerStep(c, s, e))
  {
    hide Merged, Drop;
    if e.Send? {
      if e.i < |s.pending| { SameMerged(s, Enqueue(c, s, e.i)); }
    } else {
      hide ProducerStep;
      ProducerLeavesLanes(c, s, e);
      SameMerged(s, ProducerStep(c, s, e));
    }
  }

  lemma AppendMerges(c: Config, s: State, f: Frame, bad: set<Frame>)
    requires Merged(s)
    ensures Merged(AppendHeld(c, s, f, bad))
  {
    hide Merged, FlushFrames;
    var t := s.(batch := s.batch + [f], loop := Top);
    SameMerged(s, t);
    FlushMerges(t, t.batch, bad);
    if ShouldFlushNow(c, t) { SameMerged(FlushFrames(t, t.batch, bad), AppendHeld(c, s, f, bad)); }
  }

  lemma FlushByLoopMerges(s: State, bad: set<Frame>, loop: Loop)
    requires Merged(s)
    ensures Merged(FlushBatchByLoop(s, bad).(loop := loop))
  {
    hide Merged, FlushFrames;
    FlushMerges(s, s.batch, bad);
    SameMerged(FlushFrames(s, s.batch, bad), FlushBatchByLoop(s, bad).(loop := loop));
  }

  lemma ReceiveMerges(c: Config, s: State, e: Step)
    requires Merged(s) && (e.PollControl? || e.ReceiveData? || e.ReceiveTick? || e.ReceiveBeat? || e.ReceiveRearm? || e.ReceiveDone?)
    ensures Merged(LoopStep(c, s, e))
  {
    hide Merged, FlushFrame, FlushBatchByLoop, AppendHeld;
    forall loop ensures Merged(s.(loop := loop)) {
      SameMerged(s, s.(loop := loop));
    }
    if e.PollControl? {
      if s.controlQueue != [] { SameMerged(s, s.(controlQueue := s.controlQueue[1..], loop := HoldControl(s.controlQueue[0]))); }
    } else if e.ReceiveData? {
      if s.queue != [] { SameMerged(s, s.(queue := s.queue[1..], loop := HoldData(s.queue[0]))); }
    }
  }

  lemma AttemptsMerge(s: State, f: Frame, kind: Kind, bad: set<Frame>)
    requires Merged(s)
    ensures Merged(FlushFrame(s, f, kind, bad).(loop := Top))
  {
    hide Merged, FlushFrame;
    AttemptMerges(s, f, kind, bad);
    SameMerged(FlushFrame(s, f, kind, bad), FlushFrame(s, f, kind, bad).(loop := Top));
  }

  lemma LoopMerges(c: Config, s: State, e: Step)
    requires Merged(s) && LoopStep.requires(c, s, e)
    ensures Merged(LoopStep(c, s, e))
  {
    hide Merged, FlushFrame, FlushBatchByLoop, AppendHeld, Known;
    if e.AttemptControl? {
      if s.loop.HoldControl? && !s.flushing { AttemptsMerge(s, s.loop.control, Control, e.bad); }
    } else if e.AttemptBeat? {
      if s.loop.Beating? && !s.flushing {
        if e.beat.Some? { AttemptsMerge(s, e.beat.value, Beat, e.bad); }
        SameMerged(s, s.(loop := Top));
      }
    } else if e.AppendData? {
      if s.loop.HoldData? && !s.flushing { AppendMerges(c, s, s.loop.data, e.bad); }
    } else if e.FlushTick? {
      if s.loop.Ticked? && !s.flushing { FlushByLoopMerges(s, e.bad, Top); }
    } else if e.LeaveLoop? {
      if s.loop.Leaving? && !s.flushing { FlushByLoopMerges(s, e.bad, Exited); }
    } else {
      hide LoopStep;
      ReceiveMerges(c, s, e);
    }
  }

  lemma FlushCallMerges(s: State, e: Step)
    requires Merged(s) && (e.FlushEnter? || e.FlushTake? || e.FlushLeave?)
    ensures Merged(FlushStep(s, e))
  {
    hide Merged, FlushFrames;
    if e.FlushLeave? && FlushStep(s, e) != s {
      FlushMerges(s, s.batch, e.bad);
      SameMerged(FlushFrames(s, s.batch, e.bad), FlushStep(s, e));
    } else {
      SameMerged(s, FlushStep(s, e));
    }
  }

  lemma CloseMerges(s: State, e: Step)
    requires Merged(s) && CloseStep.requires(s, e)
    ensures Merged(CloseStep(s, e))
  {
    hide Merged, Unmark, Blocked;
    SameMerged(s, CloseStep(s, e));
  }

  lemma NextMerges(c: Config, s: State, e: Step)
    requires Merged(s)
    ensures Merged(Next(c, s, e))
  {
    hide Merged, ProducerStep, LoopStep, FlushStep, CloseStep;
    if s.panicked {
    } else if e.Begin? || e.Mark? || e.Send? || e.Block? || e.GiveUp? || e.Expire? {
      ProducerMerges(c, s, e);
    } else if e.FlushEnter? || e.FlushTake? || e.FlushLeave? {
      FlushCallMerges(s, e);
    } else if e.CloseEnter? || e.CloseQueue? || e.CloseControlQueue? || e.DiscardData? || e.DiscardControl? || e.CloseDone? {
      CloseMerges(s, e);
    } else if e.SetAdaptive? {
      SameMerged(s, Next(c, s, e));
    } else {
      LoopMerges(c, s, e);
    }
  }

  lemma {:induction false} MergedRuns(c: Config, steps: seq<Step>)
    ensures Merged(Run(c, steps))
  {
    hide Next;
    if steps != [] {
      MergedRuns(c, steps[..|steps| - 1]);
      NextMerges(c, Run(c, steps[..|steps| - 1]), steps[|steps| - 1]);
    }
  }

  lemma {:induction false} CountKinds(attempts: seq<Attempt>, f: Frame)
    ensures Count(FramesOf(attempts), f)
         == Count(OfKind(attempts, Data), f) + Count(OfKind(attempts, Control), f) + Count(OfKind(attempts, Beat), f)
  {
    hide Count;
    CountOne(f, f);
    if attempts != [] {
      var n := |attempts| - 1;
      var a := attempts[n];
      CountKinds(attempts[..n], f);
      CountConcat(FramesOf(attempts[..n]), [a.frame], f);
      CountConcat(OfKind(attempts[..n], Data), if a.kind.Data? then [a.frame] else [], f);
      CountConcat(OfKind(attempts[..n], Control), if a.kind.Control? then [a.frame] else [], f);
      CountConcat(OfKind(attempts[..n], Beat), if a.kind.Beat? then [a.frame] else [], f);
    }
  }

  // ---------------------------------------------------------------- after a failure

  /** What a flush attempts: every frame in order, whether or not one before it has failed. */
  ghost function Attempts(fs: seq<Frame>, bad: set<Frame>): seq<Attempt> {
    seq(|fs|, i requires 0 <= i < |fs| => Attempt(fs[i], Data, fs[i].payloadLen > 1048576 || fs[i] in bad))
  }

  lemma {:induction false} FailureStopsNothing(s: State, fs: seq<Frame>, bad: set<Frame>)
    ensures FlushFrames(s, fs, bad).log.attempts == s.log.attempts + Attempts(fs, bad)
    decreases |fs|
  {
    hide Unmark;
    if fs == [] {
      assert s.log.attempts + Attempts(fs, bad) == s.log.attempts;
    } else {
      FailureStopsNothing(FlushFrame(s, fs[0], Data, bad), fs[1..], bad);
      assert s.log.attempts + [Attempt(fs[0], Data, WriteFails(fs[0], bad))] + Attempts(fs[1..], bad) == s.log.attempts + Attempts(fs, bad);
    }
  }

  // ---------------------------------------------------------------- bytes

  type Contents = Frame -> Codec.Frame

  /** The writer's view of a frame agrees with what the frame holds. */
  ghost predicate Agrees(contents: Contents) {
    forall f :: |contents(f).payload| == f.payloadLen
  }

  /**
   * The bytes of the i-th attempt: the whole encoding, or as much of it as left before the write failed;
   * of a frame that is too large, nothing.
   */
  ghost function BytesOf(a: Attempt, i: nat, contents: Contents, sent: nat -> nat): seq<Codec.Byte> {
    var whole := Codec.Encode(contents(a.frame));
    if !a.failed then whole
    else if a.frame.payloadLen > Codec.MAX_FRAME_SIZE || sent(i) == 0 then []
    else if sent(i) < |whole| then whole[..sent(i)] else whole
  }

  ghost function Wire(attempts: seq<Attempt>, contents: Contents, sent: nat -> nat): seq<Codec.Byte> {
    if attempts == [] then []
    else
      var n := |attempts| - 1;
      Wire(attempts[..n], contents, sent) + BytesOf(attempts[n], n, contents, sent)
  }

  ghost function Held(fs: seq<Frame>, contents: Contents): seq<Codec.Frame> {
    seq(|fs|, i requires 0 <= i < |fs| => contents(fs[i]))
  }

  /** Failed writes left nothing on the wire. */
  ghost predicate Clean(attempts: seq<Attempt>, contents: Contents, sent: nat -> nat) {
    forall i :: 0 <= i < |attempts| && attempts[i].failed ==> BytesOf(attempts[i], i, contents, sent) == []
  }

  /** Bytes left behind by failed writes. */
  ghost function Debris(attempts: seq<Attempt>, contents: Contents, sent: nat -> nat): nat {
    if attempts == [] then 0
    else
      var n := |attempts| - 1;
      Debris(attempts[..n], contents, sent) + if attempts[n].failed then |BytesOf(attempts[n], n, contents, sent)| else 0
  }

  lemma {:induction false} DebrisExactly(attempts: seq<Attempt>, contents: Contents, sent: nat -> nat)
    ensures Debris(attempts, contents, sent) == 0 <==> Clean(attempts, contents, sent)
  {
    hide BytesOf;
    if attempts != [] {
      var n := |attempts| - 1;
      var init := attempts[..n];
      DebrisExactly(init, contents, sent);
      assert forall i :: 0 <= i < n ==> init[i] == attempts[i];
      if Clean(init, contents, sent) && !Clean(attempts, contents, sent) {
        assert attempts[n].failed && BytesOf(attempts[n], n, contents, sent) != [];
      }
    }
  }

  lemma HeldAppend(fs: seq<Frame>, f: Frame, contents: Contents)
    ensures Held(fs + [f], contents) == Held(fs, contents) + [contents(f)]
  {
  }

  /** The wire is the encodings of what succeeded and the debris; without debris it is just the encodings. */
  lemma {:induction false} WireAddsUp(attempts: seq<Attempt>, contents: Contents, sent: nat -> nat)
    ensures var good := Codec.EncodeAll(Held(Outcomes(attempts, false), contents));
      && |Wire(attempts, contents, sent)| == |good| + Debris(attempts, contents, sent)
      && (Debris(attempts, contents, sent) == 0 ==> Wire(attempts, contents, sent) == good)
  {
    hide Codec.Encode, Codec.EncodeAll, Held;
    if attempts == [] {
      NothingHeld(contents);
    } else {
      var n := |attempts| - 1;
      var a := attempts[n];
      WireAddsUp(attempts[..n], contents, sent);
      var good := Outcomes(attempts[..n], false);
      if a.failed {
        assert good + [] == good;
      } else {
        HeldAppend(good, a.frame, contents);
        Codec.WrittenInOrder(Held(good, contents), contents(a.frame));
      }
    }
  }

  lemma NothingHeld(contents: Contents)
    ensures Codec.EncodeAll(Held([], contents)) == []
  {
  }

  lemma {:induction false} SucceededFit(attempts: seq<Attempt>, contents: Contents)
    requires Agrees(contents)
    requires forall i :: 0 <= i < |attempts| && !attempts[i].failed ==> attempts[i].frame.payloadLen <= Codec.MAX_FRAME_SIZE
    ensures forall f :: f in Held(Outcomes(attempts, false), contents) ==> Codec.Encodable(f)
  {
    if attempts == [] {
      assert Held([], contents) == [];
    } else {
      var n := |attempts| - 1;
      hide Held;
      SucceededFit(attempts[..n], contents);
      var good := Outcomes(attempts[..n], false);
      if attempts[n].failed {
        assert good + [] == good;
      } else {
        HeldAppend(good, attempts[n].frame, contents);
        forall f | f in Held(good, contents) + [contents(attempts[n].frame)] ensures Codec.Encodable(f) {
          assert f in Held(good, contents) || f == contents(attempts[n].frame);
        }
      }
    }
  }

  lemma {:induction false} NoneFailed(attempts: seq<Attempt>, contents: Contents, sent: nat -> nat)
    requires Outcomes(attempts, true) == []
    ensures Outcomes(attempts, false) == FramesOf(attempts) && Clean(attempts, contents, sent)
    ensures forall i :: 0 <= i < |attempts| ==> !attempts[i].failed
  {
    hide BytesOf;
    if attempts != [] {
      var n := |attempts| - 1;
      NoneFailed(attempts[..n], contents, sent);
      forall i | 0 <= i < |attempts| ensures !attempts[i].failed {
        if i < n { assert attempts[..n][i] == attempts[i]; }
      }
    }
  }

  /** More attempts only add to the wire. */
  lemma {:induction false} WireGrows(attempts: seq<Attempt>, k: nat, contents: Contents, sent: nat -> nat)
    requires k <= |attempts|
    ensures Wire(attempts[..k], contents, sent) <= Wire(attempts, contents, sent)
    decreases |attempts|
  {
    hide BytesOf;
    if k == |attempts| {
      assert attempts[..k] == attempts;
    } else {
      var n := |attempts| - 1;
      WireGrows(attempts[..n], k, contents, sent);
      assert attempts[..n][..k] == attempts[..k];
    }
  }

  // ---------------------------------------------------------------- theorems over every run

  /**
   * The wire of a run.  Attempts are in one order across the kinds, each frame at most once, and restricted
   * to a kind they are the order of that kind.  A reader of the wire gets exactly the frames whose writes
   * succeeded, in that order and with nothing left over, if and only if no failed write left bytes behind;
   * in particular on every run without a failure.
   */
  lemma WireOfRun(c: Config, steps: seq<Step>, contents: Contents, sent: nat -> nat)
    requires Agrees(contents)
    ensures var log := Run(c, steps).log;
      && OfKind(log.attempts, Data) == log.attemptedData && OfKind(log.attempts, Control) == log.attemptedControl
      && OfKind(log.attempts, Beat) == log.attemptedBeats && Outcomes(log.attempts, true) == log.failures
      && (forall f :: Count(FramesOf(log.attempts), f) <= 1)
    ensures var log := Run(c, steps).log;
      Codec.DecodeAll(Wire(log.attempts, contents, sent)) == (Held(Outcomes(log.attempts, false), contents), Codec.Ended)
      <==> Clean(log.attempts, contents, sent)
    ensures var log := Run(c, steps).log;
      log.failures == [] ==> Codec.DecodeAll(Wire(log.attempts, contents, sent)) == (Held(FramesOf(log.attempts), contents), Codec.Ended)
  {
    hide Run, Count, Wire, Held, Outcomes, OfKind, FramesOf, Clean, Codec.EncodeAll, Codec.DecodeAll, Agrees;
    MergedRuns(c, steps);
    Conservation(c, steps);
    var s := Run(c, steps);
    forall f ensures Count(FramesOf(s.log.attempts), f) <= 1 {
      assert ConservedAt(s, f);
      CountKinds(s.log.attempts, f);
    }
    var attempts := s.log.attempts;
    ReadBackExactly(attempts, contents, sent);
    if s.log.failures == [] {
      NoneFailed(attempts, contents, sent);
    }
  }

  lemma ReadBackExactly(attempts: seq<Attempt>, contents: Contents, sent: nat -> nat)
    requires Agrees(contents)
    requires forall i :: 0 <= i < |attempts| && !attempts[i].failed ==> attempts[i].frame.payloadLen <= Codec.MAX_FRAME_SIZE
    ensures Codec.DecodeAll(Wire(attempts, contents, sent)) == (Held(Outcomes(attempts, false), contents), Codec.Ended)
       <==> Clean(attempts, contents, sent)
  {
    hide Wire, Held, Outcomes, Clean, Codec.EncodeAll, Codec.DecodeAll, Debris;
    WireAddsUp(attempts, contents, sent);
    DebrisExactly(attempts, contents, sent);
    SucceededFit(attempts, contents);
    Codec.StreamIsExact(Wire(attempts, contents, sent), Held(Outcomes(attempts, false), contents));
  }

  /** Whatever happens later, the frames attempted before the first failure are read first, in order. */
  lemma ReadBeforeFailure(c: Config, steps: seq<Step>, k: nat, contents: Contents, sent: nat -> nat)
    requires Agrees(contents) && k <= |Run(c, steps).log.attempts|
    requires forall i :: 0 <= i < k ==> !Run(c, steps).log.attempts[i].failed
    ensures var attempts := Run(c, steps).log.attempts;
      Held(FramesOf(attempts[..k]), contents) <= Codec.DecodeAll(Wire(attempts, contents, sent)).0
  {
    hide Run, Wire, Held, FramesOf, Codec.EncodeAll, Codec.DecodeAll, Agrees;
    MergedRuns(c, steps);
    var attempts := Run(c, steps).log.attempts;
    var head := attempts[..k];
    assert forall i :: 0 <= i < k ==> head[i] == attempts[i];
    NoFailures(head);
    NoneFailed(head, contents, sent);
    WireAddsUp(head, contents, sent);
    DebrisExactly(head, contents, sent);
    SucceededFit(head, contents);
    WireGrows(attempts, k, contents, sent);
    var wire, start := Wire(attempts, contents, sent), Wire(head, contents, sent);
    assert wire == start + wire[|start|..];
    Codec.StreamRoundTrip(Held(FramesOf(head), contents), wire[|start|..]);
  }

  lemma {:induction false} NoFailures(attempts: seq<Attempt>)
    requires forall i :: 0 <= i < |attempts| ==> !attempts[i].failed
    ensures Outcomes(attempts, true) == []
  {
    if attempts != [] {
      NoFailures(attempts[..|attempts| - 1]);
    }
  }
}
