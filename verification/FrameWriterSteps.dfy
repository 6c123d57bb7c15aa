/** What each enabled step of the frame writer does, as one update of the state. */
module FrameWriterSteps {
  import opened Collections
  import opened FrameWriter

  /** Which part of the model a step belongs to. */
  lemma NextParts(c: Config, s: State, e: Step)
    ensures var t := Next(c, s, e);
      if s.panicked then t == s
      else if e.Begin? || e.Mark? || e.Send? || e.Block? || e.GiveUp? || e.Expire? then t == ProducerStep(c, s, e)
      else if e.FlushEnter? || e.FlushTake? || e.FlushLeave? then t == FlushStep(s, e)
      else if e.CloseEnter? || e.CloseQueue? || e.CloseControlQueue? || e.DiscardData? || e.DiscardControl? || e.CloseDone? then t == CloseStep(s, e)
      else if e.SetAdaptive? then t == s.(adaptive := t.adaptive, threshold := t.threshold)
      else t == LoopStep(c, s, e)
  {
    hide ProducerStep, LoopStep, FlushStep, CloseStep;
  }

  lemma Begins(c: Config, s: State, f: Frame, kind: Kind)
    requires !s.panicked && !s.flushing && !kind.Beat? && !Known(s, f)
    ensures Next(c, s, Begin(f, kind)) == if s.closed then s else s.(pending := s.pending + [Producer(f, kind, Checked)])
  {
  }

  lemma Marks(c: Config, s: State, i: nat)
    requires !s.panicked && i < |s.pending| && s.pending[i].stage.Checked?
    ensures Next(c, s, Mark(i)) == s.(pending := s.pending[i := s.pending[i].(stage := Marked)], backlog := AddMark(s.backlog, s.pending[i].frame))
  {
  }

  lemma Sends(c: Config, s: State, i: nat)
    requires !s.panicked && i < |s.pending| && !s.pending[i].stage.Checked?
    ensures Next(c, s, Send(i)) == Enqueue(c, s, i)
  {
  }

  lemma Blocks(c: Config, s: State, i: nat)
    requires !s.panicked && i < |s.pending| && s.pending[i].stage.Marked? && !DoneIsClosed(s) && TargetFull(c, s, s.pending[i].kind)
    ensures Next(c, s, Block(i)) == s.(pending := s.pending[i := s.pending[i].(stage := Waiting)])
  {
  }

  lemma GivesUp(c: Config, s: State, i: nat)
    requires !s.panicked && i < |s.pending| && !s.pending[i].stage.Checked? && s.closer.Finished?
    ensures Next(c, s, GiveUp(i)) == TakeBack(s, i)
  {
  }

  lemma Expires(c: Config, s: State, i: nat)
    requires !s.panicked && i < |s.pending| && s.pending[i].stage.Waiting?
    ensures Next(c, s, Expire(i)) == TakeBack(s, i)
  {
  }

  lemma Polls(c: Config, s: State)
    requires !s.panicked && s.loop.Top?
    ensures Next(c, s, PollControl) ==
      if s.controlQueue != [] then s.(controlQueue := s.controlQueue[1..], loop := HoldControl(s.controlQueue[0]))
      else s.(loop := if ControlQueueIsClosed(s) then Leaving else Select)
  {
  }

  lemma AttemptsControl(c: Config, s: State, bad: set<Frame>)
    requires !s.panicked && !s.flushing && s.loop.HoldControl?
    ensures Next(c, s, AttemptControl(bad)) == FlushFrame(s, s.loop.control, Control, bad).(loop := Top)
  {
  }

  lemma ReceivesData(c: Config, s: State)
    requires !s.panicked && s.loop.Select? && s.queue != []
    ensures Next(c, s, ReceiveData) == s.(queue := s.queue[1..], loop := HoldData(s.queue[0]))
  {
  }

  lemma Ticks(c: Config, s: State)
    requires !s.panicked && s.loop.Select?
    ensures Next(c, s, ReceiveTick) == s.(loop := Ticked)
  {
  }

  lemma ReceivesEnd(c: Config, s: State)
    requires !s.panicked && s.loop.Select? && s.queue == [] && !s.closer.NotCalled? && !s.closer.FlagSet?
    ensures Next(c, s, ReceiveData) == s.(loop := Leaving)
  {
  }

  lemma Rearms(c: Config, s: State)
    requires !s.panicked && s.loop.Select?
    ensures Next(c, s, ReceiveRearm) == s.(loop := Top) && Next(c, s, ReceiveBeat) == s.(loop := Beating)
  {
  }

  lemma AttemptsBeat(c: Config, s: State, beat: Option<Frame>, bad: set<Frame>)
    requires !s.panicked && !s.flushing && s.loop.Beating? && (beat.Some? ==> !Known(s, beat.value))
    ensures Next(c, s, AttemptBeat(beat, bad)) == if beat.None? then s.(loop := Top) else FlushFrame(s, beat.value, Beat, bad).(loop := Top)
  {
  }

  lemma Appends(c: Config, s: State, bad: set<Frame>)
    requires !s.panicked && !s.flushing && s.loop.HoldData?
    ensures Next(c, s, AppendData(bad)) == AppendHeld(c, s, s.loop.data, bad)
  {
  }

  lemma FlushesOnTick(c: Config, s: State, bad: set<Frame>)
    requires !s.panicked && !s.flushing && s.loop.Ticked?
    ensures Next(c, s, FlushTick(bad)) == FlushBatchByLoop(s, bad).(loop := Top)
  {
  }

  lemma Leaves(c: Config, s: State, bad: set<Frame>)
    requires !s.panicked && !s.flushing && s.loop.Leaving?
    ensures Next(c, s, LeaveLoop(bad)) == FlushBatchByLoop(s, bad).(loop := Exited)
  {
  }

  lemma Sets(c: Config, s: State, on: bool, depth: int)
    requires !s.panicked
    ensures Next(c, s, SetAdaptive(on, depth)) == if s.flushing then s else s.(adaptive := on, threshold := if on then depth else s.threshold)
  {
  }

  lemma EntersFlush(c: Config, s: State)
    requires !s.panicked && !s.flushing
    ensures Next(c, s, FlushEnter) == if s.closed then s else s.(flushing := true)
  {
  }

  lemma TakesForFlush(c: Config, s: State)
    requires !s.panicked && s.flushing && s.queue != []
    ensures Next(c, s, FlushTake) == FlushTakeOne(s)
  {
  }

  lemma LeavesFlush(c: Config, s: State, bad: set<Frame>)
    requires !s.panicked && s.flushing && s.queue == [] && !QueueIsClosed(s)
    ensures Next(c, s, FlushLeave(bad)) == FlushLeaveSection(s, bad)
  {
  }

  lemma EntersClose(c: Config, s: State)
    requires !s.panicked && !s.flushing
    ensures Next(c, s, CloseEnter) == if s.closed then s else s.(closed := true, closer := FlagSet)
  {
  }

  lemma ClosesQueues(c: Config, s: State)
    requires !s.panicked
    ensures s.closer.FlagSet? ==> Next(c, s, CloseQueue) == s.(closer := QueueClosed, panicked := Blocked(s.pending, true))
    ensures s.closer.QueueClosed? ==> Next(c, s, CloseControlQueue) == s.(closer := DrainingData, panicked := Blocked(s.pending, false))
    ensures s.closer.DrainingControl? && s.controlQueue == [] ==> Next(c, s, CloseDone) == s.(closer := Finished)
  {
  }

  lemma Discards(c: Config, s: State)
    requires !s.panicked
    ensures s.closer.DrainingData? ==> Next(c, s, DiscardData) == if s.queue != [] then DiscardHead(s) else s.(closer := DrainingControl)
    ensures s.closer.DrainingControl? && s.controlQueue != [] ==> Next(c, s, DiscardControl) == DiscardControlHead(s)
  {
  }

  lemma BlockedMeans(ps: seq<Producer>, data: bool)
    ensures Blocked(ps, data) <==> exists p :: p in ps && p.stage.Waiting? && p.kind.Data? == data
  {
    if p :| p in ps && p.stage.Waiting? && p.kind.Data? == data {
      var i :| 0 <= i < |ps| && ps[i] == p;
    }
  }
}
