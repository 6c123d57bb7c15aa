/** Concrete runs of the frame writer that show where its promises stop. */
module FrameWriterWitnesses {
  import opened Collections
  import FrameCodec
  import opened FrameWriter
  import opened FrameWriterConservation
  import opened FrameWriterOrder
  import opened FrameWriterSafety
  import opened FrameWriterSteps
  import opened FrameWriterWire

  const FIRST := Frame(1, 10)
  const SECOND := Frame(2, 20)
  const OVERSIZED := Frame(3, FrameCodec.MAX_FRAME_SIZE + 1)

  function Write(f: Frame): seq<Step> {
    [Begin(f, Data), Mark(0), Send(0)]
  }

  /** The loop receives the first frame, then a `Flush` takes and writes the second. */
  const OVERTAKING := Write(FIRST) + Write(SECOND) + [PollControl, ReceiveData] + [FlushEnter, FlushTake, FlushLeave({})]

  /** `Close` closes the queue between a producer's closed check and its send. */
  const RACING := [Begin(FIRST, Data), Mark(0)] + [CloseEnter, CloseQueue] + [Send(0)]

  lemma StartsInitial(c: Config)
    ensures Run(c, []) == INITIAL
  {
  }

  /** An uncontended write of a fresh frame to a queue with room. */
  lemma WriteEffect(c: Config, steps: seq<Step>, f: Frame)
    requires var s := Run(c, steps);
      !s.panicked && !s.flushing && !s.closed && s.closer.NotCalled? && !Known(s, f) && s.pending == [] && |s.queue| < c.queueSize
    ensures var s, t := Run(c, steps), Run(c, steps + Write(f));
      t == s.(queue := s.queue + [f], backlog := AddMark(s.backlog, f), log := s.log.(enqueuedData := s.log.enqueuedData + [f]))
  {
    hide Run, Next, Known;
    var s := Run(c, steps);
    var counted := CountedProducer(c, steps, f);
    RunExtends(c, steps + [Begin(f, Data), Mark(0)], Send(0));
    assert steps + Write(f) == steps + [Begin(f, Data), Mark(0)] + [Send(0)];
    Sends(c, counted, 0);
    assert Drop(counted.pending, 0) == [];
  }

  /** A producer that has passed the closed check and counted its frame. */
  lemma CountedProducer(c: Config, steps: seq<Step>, f: Frame) returns (counted: State)
    requires var s := Run(c, steps); !s.panicked && !s.flushing && !s.closed && !Known(s, f) && s.pending == []
    ensures counted == Run(c, steps + [Begin(f, Data), Mark(0)])
    ensures counted == Run(c, steps).(pending := [Producer(f, Data, Marked)], backlog := AddMark(Run(c, steps).backlog, f))
  {
    hide Run, Next, Known;
    var s := Run(c, steps);
    RunExtends(c, steps, Begin(f, Data));
    Begins(c, s, f, Data);
    var begun := Run(c, steps + [Begin(f, Data)]);
    assert begun.pending == [Producer(f, Data, Checked)];
    RunExtends(c, steps + [Begin(f, Data)], Mark(0));
    Marks(c, begun, 0);
    counted := Run(c, steps + [Begin(f, Data)] + [Mark(0)]);
    assert steps + [Begin(f, Data), Mark(0)] == steps + [Begin(f, Data)] + [Mark(0)];
  }

  /** Both frames written, and the first received but not yet appended. */
  lemma HeldFirst(c: Config) returns (held: State)
    requires c.queueSize >= 2
    ensures held == Run(c, Write(FIRST) + Write(SECOND) + [PollControl] + [ReceiveData])
    ensures held.loop == HoldData(FIRST) && held.queue == [SECOND] && held.log.enqueuedData == [FIRST, SECOND]
    ensures held.batch == held.log.attemptedData == [] && held.log.overtaken.None?
    ensures !held.closed && !held.flushing && !held.panicked && held.closer.NotCalled?
  {
    hide Run, Next;
    StartsInitial(c);
    WriteEffect(c, [], FIRST);
    assert [] + Write(FIRST) == Write(FIRST);
    WriteEffect(c, Write(FIRST), SECOND);
    var written := Write(FIRST) + Write(SECOND);
    var s := Run(c, written);
    RunExtends(c, written, PollControl);
    Polls(c, s);
    RunExtends(c, written + [PollControl], ReceiveData);
    held := Run(c, written + [PollControl] + [ReceiveData]);
    ReceivesData(c, Run(c, written + [PollControl]));
  }

  /** With room for two frames, a `Flush` can have the second one written first. */
  lemma FlushCanOvertake(c: Config)
    requires c.queueSize >= 2
    ensures var s := Run(c, OVERTAKING);
      && s.log.enqueuedData == [FIRST, SECOND] && s.log.attemptedData == [SECOND]
      && DataOut(s) == [SECOND, FIRST] && s.log.overtaken.Some?
  {
    hide Run, Next, FlushFrames;
    var held := HeldFirst(c);
    var steps := Write(FIRST) + Write(SECOND) + [PollControl] + [ReceiveData];
    RunExtends(c, steps, FlushEnter);
    EntersFlush(c, held);
    RunExtends(c, steps + [FlushEnter], FlushTake);
    TakesForFlush(c, Run(c, steps + [FlushEnter]));
    var taken := Run(c, steps + [FlushEnter] + [FlushTake]);
    RunExtends(c, steps + [FlushEnter] + [FlushTake], FlushLeave({}));
    LeavesFlush(c, taken, {});
    FlushFramesEffect(taken, taken.batch, {});
    assert OVERTAKING == steps + [FlushEnter] + [FlushTake] + [FlushLeave({})];
  }

  /** A producer that `Close` overtakes sends on a closed channel. */
  lemma CloseCanPanicProducer(c: Config)
    ensures Run(c, RACING).panicked
  {
    hide Run, Next;
    StartsInitial(c);
    var counted := CountedProducer(c, [], FIRST);
    var steps := [] + [Begin(FIRST, Data), Mark(0)];
    RunExtends(c, steps, CloseEnter);
    EntersClose(c, counted);
    RunExtends(c, steps + [CloseEnter], CloseQueue);
    ClosesQueues(c, Run(c, steps + [CloseEnter]));
    RunExtends(c, steps + [CloseEnter] + [CloseQueue], Send(0));
    Sends(c, Run(c, steps + [CloseEnter] + [CloseQueue]), 0);
    assert RACING == steps + [CloseEnter] + [CloseQueue] + [Send(0)];
  }

  lemma FlushOne(s: State, f: Frame, bad: set<Frame>)
    ensures FlushFrames(s, [f], bad) == FlushFrame(s, f, Data, bad)
  {
    var t := FlushFrame(s, f, Data, bad);
    assert [f][1..] == [];
    assert FlushFrames(t, [], bad) == t;
  }

  /** A frame larger than the format allows, flushed before any `Close`. */
  const FAILING := Write(OVERSIZED) + [FlushEnter] + [FlushTake] + [FlushLeave({})]

  /** A write can fail before any `Close`, which then has no effect. */
  lemma ErrorCanDisableClose(c: Config)
    requires c.queueSize >= 1
    ensures var s, t := Run(c, FAILING), Run(c, FAILING + [CloseEnter]);
      s.writeErr == Some(OVERSIZED) && s.log.failures == [OVERSIZED] && s.closer.NotCalled? && t == s
  {
    hide Run, Next;
    StartsInitial(c);
    WriteEffect(c, [], OVERSIZED);
    var steps := [] + Write(OVERSIZED);
    RunExtends(c, steps, FlushEnter);
    EntersFlush(c, Run(c, steps));
    RunExtends(c, steps + [FlushEnter], FlushTake);
    TakesForFlush(c, Run(c, steps + [FlushEnter]));
    var taken := Run(c, steps + [FlushEnter] + [FlushTake]);
    RunExtends(c, steps + [FlushEnter] + [FlushTake], FlushLeave({}));
    LeavesFlush(c, taken, {});
    FlushOne(taken, OVERSIZED, {});
    assert FAILING == steps + [FlushEnter] + [FlushTake] + [FlushLeave({})];
    RunExtends(c, FAILING, CloseEnter);
    EntersClose(c, Run(c, FAILING));
  }

  /** Two frames in one batch, the first of which fails on its way. */
  const TORN := Write(FIRST) + Write(SECOND) + [FlushEnter, FlushTake, FlushTake, FlushLeave({FIRST})]

  lemma TornAttempts(c: Config)
    requires c.queueSize >= 2
    ensures Run(c, TORN).log.attempts == [Attempt(FIRST, Data, true), Attempt(SECOND, Data, false)]
  {
    hide Run, Next;
    StartsInitial(c);
    WriteEffect(c, [], FIRST);
    assert [] + Write(FIRST) == Write(FIRST);
    WriteEffect(c, Write(FIRST), SECOND);
    var steps := Write(FIRST) + Write(SECOND);
    RunExtends(c, steps, FlushEnter);
    EntersFlush(c, Run(c, steps));
    RunExtends(c, steps + [FlushEnter], FlushTake);
    TakesForFlush(c, Run(c, steps + [FlushEnter]));
    RunExtends(c, steps + [FlushEnter] + [FlushTake], FlushTake);
    TakesForFlush(c, Run(c, steps + [FlushEnter] + [FlushTake]));
    var taken := Run(c, steps + [FlushEnter] + [FlushTake] + [FlushTake]);
    assert taken.batch == [FIRST, SECOND];
    RunExtends(c, steps + [FlushEnter] + [FlushTake] + [FlushTake], FlushLeave({FIRST}));
    LeavesFlush(c, taken, {FIRST});
    FailureStopsNothing(taken, taken.batch, {FIRST});
    assert TORN == steps + [FlushEnter] + [FlushTake] + [FlushTake] + [FlushLeave({FIRST})];
  }

  /**
   * The first frame fails after its header and the second is written whole behind it: the reader does not
   * get what was written.
   */
  lemma TornFrameMisleadsReader(c: Config, contents: Contents)
    requires c.queueSize >= 2 && Agrees(contents)
    ensures var log := Run(c, TORN).log;
      && Held(Outcomes(log.attempts, false), contents) == [contents(SECOND)]
      && FrameCodec.DecodeAll(Wire(log.attempts, contents, _ => 5)) != ([contents(SECOND)], FrameCodec.Ended)
  {
    hide Run, Wire, FrameCodec.DecodeAll, FrameCodec.EncodeAll;
    TornAttempts(c);
    var attempts := Run(c, TORN).log.attempts;
    assert Outcomes([], false) == [];
    assert [attempts[0]][..0] == [] && Outcomes([attempts[0]], false) == [] + [];
    assert attempts[..1] == [attempts[0]] && Outcomes(attempts, false) == [] + [SECOND];
    assert |contents(FIRST).payload| == 10;
    assert BytesOf(attempts[0], 0, contents, _ => 5) != [];
    WireOfRun(c, TORN, contents, _ => 5);
  }
}
