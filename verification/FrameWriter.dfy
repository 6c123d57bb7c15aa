/**
 * The two-queue batching frame writer, as a state machine over its atomic steps.
 *
 * A step is one critical section of the writer's mutex, one channel operation, or one update of
 * the backlog counters.  Producers (`WriteFrameWithCancel`, `WriteControl`), the write loop, any
 * number of `Flush` calls and any number of `Close` calls interleave freely.  A step that is not
 * enabled leaves the state as it is, so that a run is any sequence of steps.
 */
module FrameWriter {
  import opened Collections
  import FrameCodec

  /** A frame as the writer sees it: a pointer identity and a payload length. */
  datatype Frame = Frame(id: nat, payloadLen: nat) {
    function Size(): nat {
      payloadLen + FrameCodec.FRAME_HEADER_SIZE
    }
  }

  datatype Kind = Data | Control | Beat

  /** Where a write call is: past the closed check, counted, or blocked on a full queue. */
  datatype Stage = Checked | Marked | Waiting

  datatype Producer = Producer(frame: Frame, kind: Kind, stage: Stage)

  /** Where the write loop is; `Hold...` is a frame received but not yet handled under the mutex. */
  datatype Loop = Top | Select | HoldControl(control: Frame) | HoldData(data: Frame)
                | Ticked | Beating | Leaving | Exited

  /** How far the one effective `Close` call has come. */
  datatype Closer = NotCalled | FlagSet | QueueClosed | DrainingData | DrainingControl | Finished

  /** One attempt to write a frame. */
  datatype Attempt = Attempt(frame: Frame, kind: Kind, failed: bool)

  /** History of a run; nothing in the writer reads it. */
  datatype Log = Log(
    attempts: seq<Attempt>,
    enqueuedData: seq<Frame>, enqueuedControl: seq<Frame>,
    attemptedData: seq<Frame>, attemptedControl: seq<Frame>, attemptedBeats: seq<Frame>,
    discardedData: seq<Frame>, discardedControl: seq<Frame>, released: seq<Frame>, failures: seq<Frame>,
    byLoop: nat, byFlush: nat, arrival: map<Frame, nat>, overtaken: Option<(Frame, Frame)>)

  /** `queuedFrames`, `queuedBytes`, and each frame's own `queuedBytes` field. */
  datatype Backlog = Backlog(frames: int, bytes: int, marks: map<Frame, int>)

  datatype State = State(
    queue: seq<Frame>, controlQueue: seq<Frame>, batch: seq<Frame>,
    closed: bool, writeErr: Option<Frame>, adaptive: bool, threshold: int,
    backlog: Backlog,
    pending: seq<Producer>, loop: Loop, closer: Closer, flushing: bool, panicked: bool,
    log: Log)

  datatype Config = Config(maxBatch: nat, queueSize: nat) {
    function ControlSize(): nat {
      if queueSize < 256 then queueSize else 256
    }
  }

  datatype Step =
    // WriteFrameWithCancel and WriteControl
    | Begin(frame: Frame, kind: Kind) | Mark(i: nat) | Send(i: nat) | Block(i: nat) | GiveUp(i: nat) | Expire(i: nat)
    // the write loop
    | PollControl | AttemptControl(bad: set<Frame>)
    | ReceiveData | ReceiveTick | ReceiveBeat | ReceiveRearm | ReceiveDone
    | AppendData(bad: set<Frame>) | FlushTick(bad: set<Frame>) | AttemptBeat(beat: Option<Frame>, bad: set<Frame>)
    | LeaveLoop(bad: set<Frame>)
    // Flush
    | FlushEnter | FlushTake | FlushLeave(bad: set<Frame>)
    // Close
    | CloseEnter | CloseQueue | CloseControlQueue | DiscardData | DiscardControl | CloseDone
    // EnableAdaptiveFlush and DisableAdaptiveFlush
    | SetAdaptive(on: bool, depth: int)

  const EMPTY_LOG := Log([], [], [], [], [], [], [], [], [], [], 0, 0, map[], None)

  const INITIAL := State([], [], [], false, None, false, 0, Backlog(0, 0, map[]), [], Top, NotCalled, false, false, EMPTY_LOG)

  function MarkOf(b: Backlog, f: Frame): int {
    if f in b.marks then b.marks[f] else 0
  }

  /** A producer counts its frame before it offers it to a queue. */
  function AddMark(b: Backlog, f: Frame): Backlog {
    Backlog(b.frames + 1, b.bytes + f.Size(), b.marks[f := f.Size()])
  }

  /** A producer that gives up takes its frame out of the counters again. */
  function TakeMark(b: Backlog, f: Frame): Backlog {
    Backlog(b.frames - 1, b.bytes - f.Size(), b.marks[f := 0])
  }

  /** `unmarkQueued`: swaps the frame's own mark for 0 and subtracts what it held. */
  function Unmark(b: Backlog, f: Frame): Backlog {
    var size := MarkOf(b, f);
    if size <= 0 then b.(marks := b.marks[f := 0])
    else Backlog(b.frames - 1, b.bytes - size, b.marks[f := 0])
  }

  function QueueIsClosed(s: State): bool {
    !s.closer.NotCalled? && !s.closer.FlagSet?
  }

  function ControlQueueIsClosed(s: State): bool {
    s.closer.DrainingData? || s.closer.DrainingControl? || s.closer.Finished?
  }

  function DoneIsClosed(s: State): bool {
    s.closer.Finished?
  }

  // ---------------------------------------------------------------- critical sections

  predicate WriteFails(f: Frame, bad: set<Frame>) {
    f.payloadLen > FrameCodec.MAX_FRAME_SIZE || f in bad
  }

  function LogAttempt(log: Log, f: Frame, kind: Kind, failed: bool): Log {
    var log := log.(attempts := log.attempts + [Attempt(f, kind, failed)], released := log.released + [f],
                    failures := if failed then log.failures + [f] else log.failures);
    match kind
    case Data => log.(attemptedData := log.attemptedData + [f])
    case Control => log.(attemptedControl := log.attemptedControl + [f])
    case Beat => log.(attemptedBeats := log.attemptedBeats + [f])
  }

  /** `flushFrameLocked`: one attempt to write, whatever its outcome, then unmark and release. */
  function FlushFrame(s: State, f: Frame, kind: Kind, bad: set<Frame>): State {
    var failed := WriteFails(f, bad);
    s.(closed := s.closed || (failed && s.writeErr.None?),
       writeErr := if failed && s.writeErr.None? then Some(f) else s.writeErr,
       backlog := Unmark(s.backlog, f),
       log := LogAttempt(s.log, f, kind, failed))
  }

  function FlushFrames(s: State, fs: seq<Frame>, bad: set<Frame>): State
    decreases |fs|
  {
    if fs == [] then s else FlushFrames(FlushFrame(s, fs[0], Data, bad), fs[1..], bad)
  }

  /** `flushBatchLocked`. */
  function FlushBatch(s: State, bad: set<Frame>): State {
    FlushFrames(s, s.batch, bad).(batch := [])
  }

  function FlushBatchByLoop(s: State, bad: set<Frame>): State {
    var t := FlushBatch(s, bad);
    t.(log := t.log.(byLoop := t.log.byLoop + |s.batch|))
  }

  function ShouldFlushNow(c: Config, s: State): bool {
    |s.batch| >= c.maxBatch || (s.adaptive && |s.queue| <= s.threshold)
  }

  function AppendHeld(c: Config, s: State, f: Frame, bad: set<Frame>): State {
    var t := s.(batch := s.batch + [f], loop := Top);
    if ShouldFlushNow(c, t) then FlushBatchByLoop(t, bad) else t
  }

  /** `Close` throwing away the head of a closed queue. */
  function DiscardHead(s: State): State
    requires s.queue != []
  {
    var f := s.queue[0];
    s.(queue := s.queue[1..], backlog := Unmark(s.backlog, f),
       log := s.log.(discardedData := s.log.discardedData + [f],
                     released := s.log.released + [f]))
  }

  function DiscardControlHead(s: State): State
    requires s.controlQueue != []
  {
    var f := s.controlQueue[0];
    s.(controlQueue := s.controlQueue[1..], backlog := Unmark(s.backlog, f),
       log := s.log.(discardedControl := s.log.discardedControl + [f], released := s.log.released + [f]))
  }

  // ---------------------------------------------------------------- producers

  /** Every frame the run has seen and that is not back with its caller. */
  predicate Known(s: State, f: Frame) {
    || (exists i :: 0 <= i < |s.pending| && s.pending[i].frame == f)
    || f in s.log.enqueuedData || f in s.log.enqueuedControl || f in s.log.attemptedBeats
  }

  function Enqueue(c: Config, s: State, i: nat): State
    requires i < |s.pending|
  {
    var p := s.pending[i];
    if p.kind.Data? then
      if QueueIsClosed(s) then s.(panicked := true)
      else if |s.queue| < c.queueSize then
        s.(queue := s.queue + [p.frame], pending := Drop(s.pending, i),
           log := s.log.(enqueuedData := s.log.enqueuedData + [p.frame]))
      else s
    else
      if ControlQueueIsClosed(s) then s.(panicked := true)
      else if |s.controlQueue| < c.ControlSize() then
        s.(controlQueue := s.controlQueue + [p.frame], pending := Drop(s.pending, i),
           log := s.log.(enqueuedControl := s.log.enqueuedControl + [p.frame],
                         arrival := s.log.arrival[p.frame := s.log.byLoop]))
      else s
  }

  predicate TargetFull(c: Config, s: State, kind: Kind) {
    if kind.Data? then !QueueIsClosed(s) && |s.queue| >= c.queueSize
    else !ControlQueueIsClosed(s) && |s.controlQueue| >= c.ControlSize()
  }

  /** The frame goes back to its caller, uncounted. */
  function TakeBack(s: State, i: nat): State
    requires i < |s.pending|
  {
    var f := s.pending[i].frame;
    s.(pending := Drop(s.pending, i), backlog := TakeMark(s.backlog, f))
  }

  function ProducerStep(c: Config, s: State, e: Step): State
    requires e.Begin? || e.Mark? || e.Send? || e.Block? || e.GiveUp? || e.Expire?
  {
    match e
    case Begin(f, kind) =>
      if s.flushing || s.closed || kind.Beat? || Known(s, f) then s
      else s.(pending := s.pending + [Producer(f, kind, Checked)])
    case Mark(i) =>
      if i < |s.pending| && s.pending[i].stage.Checked? then
        var f := s.pending[i].frame;
        s.(pending := s.pending[i := s.pending[i].(stage := Marked)], backlog := AddMark(s.backlog, f))
      else s
    case Send(i) =>
      if i < |s.pending| && !s.pending[i].stage.Checked? then Enqueue(c, s, i) else s
    case Block(i) =>
      if i < |s.pending| && s.pending[i].stage.Marked? && !DoneIsClosed(s) && TargetFull(c, s, s.pending[i].kind) then
        s.(pending := s.pending[i := s.pending[i].(stage := Waiting)])
      else s
    case GiveUp(i) =>
      if i < |s.pending| && !s.pending[i].stage.Checked? && DoneIsClosed(s) then TakeBack(s, i) else s
    case Expire(i) =>
      if i < |s.pending| && s.pending[i].stage.Waiting? then TakeBack(s, i) else s
  }

  // ---------------------------------------------------------------- the write loop

  function LoopStep(c: Config, s: State, e: Step): State
    requires !e.Begin? && !e.Mark? && !e.Send? && !e.Block? && !e.GiveUp? && !e.Expire?
    requires !e.FlushEnter? && !e.FlushTake? && !e.FlushLeave? && !e.SetAdaptive?
    requires !e.CloseEnter? && !e.CloseQueue? && !e.CloseControlQueue? && !e.DiscardData? && !e.DiscardControl? && !e.CloseDone?
  {
    match e
    case PollControl =>
      if !s.loop.Top? then s
      else if s.controlQueue != [] then s.(controlQueue := s.controlQueue[1..], loop := HoldControl(s.controlQueue[0]))
      else if ControlQueueIsClosed(s) then s.(loop := Leaving)
      else s.(loop := Select)
    case AttemptControl(bad) =>
      if s.loop.HoldControl? && !s.flushing then FlushFrame(s, s.loop.control, Control, bad).(loop := Top) else s
    case ReceiveData =>
      if !s.loop.Select? then s
      else if s.queue != [] then
        s.(queue := s.queue[1..], loop := HoldData(s.queue[0]))
      else if QueueIsClosed(s) then s.(loop := Leaving)
      else s
    case ReceiveTick => if s.loop.Select? then s.(loop := Ticked) else s
    case ReceiveBeat => if s.loop.Select? then s.(loop := Beating) else s
    case ReceiveRearm => if s.loop.Select? then s.(loop := Top) else s
    case ReceiveDone => if s.loop.Select? && DoneIsClosed(s) then s.(loop := Leaving) else s
    case AppendData(bad) =>
      if s.loop.HoldData? && !s.flushing then AppendHeld(c, s, s.loop.data, bad) else s
    case FlushTick(bad) =>
      if s.loop.Ticked? && !s.flushing then FlushBatchByLoop(s, bad).(loop := Top) else s
    case AttemptBeat(beat, bad) =>
      if !s.loop.Beating? || s.flushing then s
      else if beat.None? then s.(loop := Top)
      else if Known(s, beat.value) then s
      else FlushFrame(s, beat.value, Beat, bad).(loop := Top)
    case LeaveLoop(bad) =>
      if s.loop.Leaving? && !s.flushing then FlushBatchByLoop(s, bad).(loop := Exited) else s
  }

  // ---------------------------------------------------------------- Flush and Close

  function FlushTakeOne(s: State): State
    requires s.queue != []
  {
    var f := s.queue[0];
    s.(queue := s.queue[1..], batch := s.batch + [f],
       log := s.log.(overtaken := if s.log.overtaken.None? && s.loop.HoldData? then Some((s.loop.data, f)) else s.log.overtaken))
  }

  function FlushLeaveSection(s: State, bad: set<Frame>): State {
    var t := FlushBatch(s, bad);
    t.(flushing := false, log := t.log.(byFlush := t.log.byFlush + |s.batch|))
  }

  function FlushStep(s: State, e: Step): State
    requires e.FlushEnter? || e.FlushTake? || e.FlushLeave?
  {
    match e
    case FlushEnter => if s.flushing || s.closed then s else s.(flushing := true)
    case FlushTake => if s.flushing && s.queue != [] then FlushTakeOne(s) else s
    case FlushLeave(bad) => if s.flushing && s.queue == [] && !QueueIsClosed(s) then FlushLeaveSection(s, bad) else s
  }

  /** A write call is blocked on the data queue, or else on the control queue; closing that queue makes it panic. */
  predicate Blocked(ps: seq<Producer>, data: bool) {
    exists i :: 0 <= i < |ps| && ps[i].stage.Waiting? && ps[i].kind.Data? == data
  }

  function CloseStep(s: State, e: Step): State
    requires e.CloseEnter? || e.CloseQueue? || e.CloseControlQueue? || e.DiscardData? || e.DiscardControl? || e.CloseDone?
  {
    match e
    case CloseEnter => if s.flushing || s.closed then s else s.(closed := true, closer := FlagSet)
    case CloseQueue => if s.closer.FlagSet? then s.(closer := QueueClosed, panicked := Blocked(s.pending, true)) else s
    case CloseControlQueue => if s.closer.QueueClosed? then s.(closer := DrainingData, panicked := Blocked(s.pending, false)) else s
    case DiscardData =>
      if !s.closer.DrainingData? then s
      else if s.queue != [] then DiscardHead(s)
      else s.(closer := DrainingControl)
    case DiscardControl =>
      if s.closer.DrainingControl? && s.controlQueue != [] then DiscardControlHead(s) else s
    case CloseDone =>
      if s.closer.DrainingControl? && s.controlQueue == [] then s.(closer := Finished) else s
  }

  function Next(c: Config, s: State, e: Step): State {
    if s.panicked then s else
    match e
    case Begin(_, _) => ProducerStep(c, s, e)
    case Mark(_) => ProducerStep(c, s, e)
    case Send(_) => ProducerStep(c, s, e)
    case Block(_) => ProducerStep(c, s, e)
    case GiveUp(_) => ProducerStep(c, s, e)
    case Expire(_) => ProducerStep(c, s, e)
    case FlushEnter => FlushStep(s, e)
    case FlushTake => FlushStep(s, e)
    case FlushLeave(_) => FlushStep(s, e)
    case CloseEnter => CloseStep(s, e)
    case CloseQueue => CloseStep(s, e)
    case CloseControlQueue => CloseStep(s, e)
    case DiscardData => CloseStep(s, e)
    case DiscardControl => CloseStep(s, e)
    case CloseDone => CloseStep(s, e)
    case SetAdaptive(on, depth) => if s.flushing then s else s.(adaptive := on, threshold := if on then depth else s.threshold)
    case _ => LoopStep(c, s, e)
  }

  function Run(c: Config, steps: seq<Step>): State {
    if steps == [] then INITIAL else Next(c, Run(c, steps[..|steps| - 1]), steps[|steps| - 1])
  }
}
