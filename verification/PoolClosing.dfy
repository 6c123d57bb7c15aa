/**
 * Closing the client's pool while data sessions are being dialled: the look at the stop channel, the dial
 * and the store of a session are separate steps, and so are the stop and the taking of the sessions.
 * Exactly when a closed client keeps no session, and how many it can keep.
 */
module PoolClosing {
  import opened Collections

  /** One call of `addDataSession`: outside, dialling past its look, or about to store its session. */
  datatype Adder = Outside | Dialing | Storing(id: nat)

  datatype Phase = Running | Stopped | Taken

  /** Sessions are numbered by the counter; `shut` are those that were closed. */
  datatype State = State(phase: Phase, sessions: set<nat>, shut: set<nat>, counter: nat, adders: seq<Adder>)

  datatype Step = Look(i: nat) | Dialed(i: nat, ok: bool) | Store(i: nat) | StopClient | Take | Remove(id: nat)

  function Initial(adders: nat): State {
    State(Running, {}, {}, 0, seq(adders, _ => Outside))
  }

  function Next(s: State, e: Step): State {
    match e
    case Look(i) =>
      if i < |s.adders| && s.adders[i].Outside? && s.phase.Running? then s.(adders := s.adders[i := Dialing]) else s
    case Dialed(i, ok) =>
      if i < |s.adders| && s.adders[i].Dialing? then
        if ok then s.(counter := s.counter + 1, adders := s.adders[i := Storing(s.counter + 1)])
        else s.(adders := s.adders[i := Outside])
      else s
    case Store(i) =>
      if i < |s.adders| && s.adders[i].Storing? then
        s.(sessions := s.sessions + {s.adders[i].id}, adders := s.adders[i := Outside])
      else s
    case StopClient => if s.phase.Running? then s.(phase := Stopped) else s
    case Take => if s.phase.Stopped? then s.(phase := Taken, sessions := {}, shut := s.shut + s.sessions) else s
    case Remove(id) => if id in s.sessions then s.(sessions := s.sessions - {id}, shut := s.shut + {id}) else s
  }

  function RunFrom(s: State, steps: seq<Step>): State {
    if steps == [] then s else Next(RunFrom(s, steps[..|steps| - 1]), steps[|steps| - 1])
  }

  function Run(adders: nat, steps: seq<Step>): State {
    RunFrom(Initial(adders), steps)
  }

  lemma RunsOn(s: State, steps: seq<Step>, e: Step)
    ensures RunFrom(s, steps + [e]) == Next(RunFrom(s, steps), e)
  {
    assert (steps + [e])[..|steps|] == steps;
  }

  lemma {:induction false} RunsConcat(s: State, a: seq<Step>, b: seq<Step>)
    ensures RunFrom(s, a + b) == RunFrom(RunFrom(s, a), b)
    decreases |b|
  {
    hide Next;
    if b == [] {
      assert a + b == a;
    } else {
      var n := |b| - 1;
      RunsConcat(s, a, b[..n]);
      assert a + b == a + b[..n] + [b[n]];
      RunsOn(s, a + b[..n], b[n]);
    }
  }

  // ---------------------------------------------------------------- none is lost

  /** Calls about to store this session. */
  function StoringOf(adders: seq<Adder>, id: nat): nat {
    if adders == [] then 0
    else StoringOf(adders[..|adders| - 1], id) + if adders[|adders| - 1] == Storing(id) then 1 else 0
  }

  lemma {:induction false} StoringUpdate(adders: seq<Adder>, i: nat, a: Adder, id: nat)
    requires i < |adders|
    ensures StoringOf(adders[i := a], id) == StoringOf(adders, id) - (if adders[i] == Storing(id) then 1 else 0) + if a == Storing(id) then 1 else 0
  {
    var n := |adders| - 1;
    if i == n {
      assert adders[i := a][..n] == adders[..n];
    } else {
      assert adders[i := a][..n] == adders[..n][i := a];
      StoringUpdate(adders[..n], i, a, id);
    }
  }

  lemma {:induction false} StoringNone(n: nat, id: nat)
    ensures StoringOf(seq(n, _ => Outside), id) == 0
  {
    if n > 0 {
      assert seq(n, _ => Outside)[..n - 1] == seq(n - 1, _ => Outside);
      StoringNone(n - 1, id);
    }
  }

  /** A session that was dialled is in the pool, or closed, or about to be stored by one call, and only one of these. */
  ghost predicate AccountedFor(s: State, id: nat) {
    (if id in s.sessions then 1 else 0) + (if id in s.shut then 1 else 0) + StoringOf(s.adders, id) == if 1 <= id <= s.counter then 1 else 0
  }

  lemma NextAccounts(s: State, e: Step, id: nat)
    requires AccountedFor(s, id) && (e.Dialed? ==> AccountedFor(s, s.counter + 1))
    requires e.Store? && e.i < |s.adders| && s.adders[e.i].Storing? ==> AccountedFor(s, s.adders[e.i].id)
    ensures AccountedFor(Next(s, e), id)
  {
    hide StoringOf;
    if (e.Look? || e.Dialed? || e.Store?) && e.i < |s.adders| {
      StoringUpdate(s.adders, e.i, Next(s, e).adders[e.i], id);
    }
  }

  lemma {:induction false} AllAccountedFor(adders: nat, steps: seq<Step>)
    ensures forall id :: AccountedFor(Run(adders, steps), id)
  {
    hide Next, AccountedFor;
    if steps == [] {
      forall id ensures AccountedFor(Run(adders, []), id) {
        NothingDialed(adders, id);
      }
    } else {
      AllAccountedFor(adders, steps[..|steps| - 1]);
      forall id ensures AccountedFor(Run(adders, steps), id) {
        NextAccounts(Run(adders, steps[..|steps| - 1]), steps[|steps| - 1], id);
      }
    }
  }

  lemma NothingDialed(adders: nat, id: nat)
    ensures AccountedFor(Initial(adders), id)
  {
    StoringNone(adders, id);
  }

  lemma AllAccountedNext(s: State, e: Step)
    requires forall id :: AccountedFor(s, id)
    ensures forall id :: AccountedFor(Next(s, e), id)
  {
    hide AccountedFor, Next;
    forall id ensures AccountedFor(Next(s, e), id) {
      NextAccounts(s, e, id);
    }
  }

  lemma {:induction false} StoringCounts(adders: seq<Adder>, i: nat)
    requires i < |adders| && adders[i].Storing?
    ensures StoringOf(adders, adders[i].id) >= 1
  {
    if i < |adders| - 1 { StoringCounts(adders[..|adders| - 1], i); }
  }

  // ---------------------------------------------------------------- what is left in a closed client

  /** Calls past their look at the stop channel. */
  function UnderWay(adders: seq<Adder>): nat {
    if adders == [] then 0
    else UnderWay(adders[..|adders| - 1]) + if adders[|adders| - 1].Outside? then 0 else 1
  }

  lemma {:induction false} UnderWayUpdate(adders: seq<Adder>, i: nat, a: Adder)
    requires i < |adders|
    ensures UnderWay(adders[i := a]) == UnderWay(adders) - (if adders[i].Outside? then 0 else 1) + if a.Outside? then 0 else 1
  {
    var n := |adders| - 1;
    if i == n {
      assert adders[i := a][..n] == adders[..n];
    } else {
      assert adders[i := a][..n] == adders[..n][i := a];
      UnderWayUpdate(adders[..n], i, a);
    }
  }

  lemma {:induction false} UnderWayNone(adders: seq<Adder>)
    ensures UnderWay(adders) == 0 <==> forall i :: 0 <= i < |adders| ==> adders[i].Outside?
  {
    if adders != [] {
      UnderWayNone(adders[..|adders| - 1]);
      assert forall i :: 0 <= i < |adders| - 1 ==> adders[..|adders| - 1][i] == adders[i];
    }
  }

  lemma NextLeavesLess(s: State, e: Step)
    requires s.phase.Taken?
    ensures var t := Next(s, e);
      t.phase.Taken? && |t.sessions| + UnderWay(t.adders) <= |s.sessions| + UnderWay(s.adders)
  {
    hide UnderWay;
    if (e.Look? || e.Dialed? || e.Store?) && e.i < |s.adders| {
      UnderWayUpdate(s.adders, e.i, Next(s, e).adders[e.i]);
    }
    if e.Remove? && e.id in s.sessions {
      assert |s.sessions - {e.id}| == |s.sessions| - 1;
    }
  }

  /** After the sessions were taken, no more can be left than calls were under way. */
  lemma {:induction false} LeftBehindAtMost(s: State, after: seq<Step>)
    requires s.phase.Taken?
    ensures var t := RunFrom(s, after);
      t.phase.Taken? && |t.sessions| + UnderWay(t.adders) <= |s.sessions| + UnderWay(s.adders)
  {
    hide Next, UnderWay;
    if after != [] {
      LeftBehindAtMost(s, after[..|after| - 1]);
      NextLeavesLess(RunFrom(s, after[..|after| - 1]), after[|after| - 1]);
    }
  }

  lemma TakesAll(s: State)
    requires s.phase.Stopped?
    ensures Next(s, Take) == s.(phase := Taken, sessions := {}, shut := s.shut + s.sessions)
  {
  }

  /** A call that is still under way stores its session. */
  lemma LeavesOne(s: State, i: nat) returns (after: seq<Step>)
    requires s.phase.Taken? && i < |s.adders| && !s.adders[i].Outside? && forall id :: AccountedFor(s, id)
    ensures var t := RunFrom(s, after);
      && t.phase.Taken? && |t.sessions| == |s.sessions| + 1 && UnderWay(t.adders) + 1 == UnderWay(s.adders)
      && forall id :: AccountedFor(t, id)
  {
    hide AccountedFor, UnderWay;
    NoSteps(s);
    after := [];
    if s.adders[i].Dialing? {
      after := [Dialed(i, true)];
      RunsOn(s, [], Dialed(i, true));
      assert [] + after == after;
      AllAccountedNext(s, Dialed(i, true));
    }
    var t := RunFrom(s, after);
    UnderWayUpdate(s.adders, i, t.adders[i]);
    assert t.adders == s.adders[i := t.adders[i]];
    RunsOn(s, after, Store(i));
    NotYetStored(t, i);
    AllAccountedNext(t, Store(i));
    UnderWayUpdate(t.adders, i, Outside);
    after := after + [Store(i)];
  }

  lemma NotYetStored(s: State, i: nat)
    requires i < |s.adders| && s.adders[i].Storing? && forall id :: AccountedFor(s, id)
    ensures s.adders[i].id !in s.sessions
  {
    assert AccountedFor(s, s.adders[i].id);
    StoringCounts(s.adders, i);
  }

  /** All calls still under way store theirs. */
  lemma {:induction false} LeavesAll(s: State) returns (after: seq<Step>)
    requires s.phase.Taken? && forall id :: AccountedFor(s, id)
    ensures |RunFrom(s, after).sessions| == |s.sessions| + UnderWay(s.adders)
    decreases UnderWay(s.adders)
  {
    hide AccountedFor, UnderWay, RunFrom;
    UnderWayNone(s.adders);
    if UnderWay(s.adders) == 0 {
      after := [];
      NoSteps(s);
    } else {
      var i :| 0 <= i < |s.adders| && !s.adders[i].Outside?;
      var first := LeavesOne(s, i);
      var rest := LeavesAll(RunFrom(s, first));
      after := first + rest;
      RunsConcat(s, first, rest);
    }
  }

  lemma NoSteps(s: State)
    ensures RunFrom(s, []) == s
  {
  }

  /** However it goes on after `Close` has taken the sessions, no more than `most` are in the pool. */
  ghost predicate NeverMore(adders: nat, before: seq<Step>, most: nat) {
    forall after :: |Run(adders, before + [Take] + after).sessions| <= most
  }

  /**
   * What a closed client can be left with: the least bound on the sessions that come in after `Close` has
   * taken them is the number of `addDataSession` calls then past their look at the stop channel.  So none is
   * left, ever, if and only if there was no such call.
   */
  lemma ClosedKeepsExactly(adders: nat, before: seq<Step>, most: nat)
    requires Run(adders, before).phase.Stopped?
    ensures NeverMore(adders, before, most) <==> most >= UnderWay(Run(adders, before).adders)
  {
    hide RunFrom, Next, UnderWay, AccountedFor;
    var s := Run(adders, before);
    var t := Next(s, Take);
    RunsOn(Initial(adders), before, Take);
    TakesAll(s);
    forall after ensures Run(adders, before + [Take] + after) == RunFrom(t, after) {
      RunsConcat(Initial(adders), before + [Take], after);
    }
    if most >= UnderWay(s.adders) {
      forall after ensures |Run(adders, before + [Take] + after).sessions| <= most {
        LeftBehindAtMost(t, after);
      }
    } else {
      AllAccountedFor(adders, before);
      AllAccountedNext(s, Take);
      var after := LeavesAll(t);
      assert |Run(adders, before + [Take] + after).sessions| > most;
    }
  }

  /** A call on its own stores the session it dials, or changes nothing if the dial fails or the client was stopped before. */
  lemma AddsAlone(s: State, i: nat)
    requires i < |s.adders| && s.adders[i].Outside?
    ensures s.phase.Running? ==>
              && RunFrom(s, [Look(i), Dialed(i, true), Store(i)]) == s.(sessions := s.sessions + {s.counter + 1}, counter := s.counter + 1)
              && RunFrom(s, [Look(i), Dialed(i, false)]) == s
    ensures !s.phase.Running? ==> forall ok :: RunFrom(s, [Look(i), Dialed(i, ok), Store(i)]) == s
  {
    hide Next;
    forall ok ensures RunFrom(s, [Look(i), Dialed(i, ok), Store(i)]) == Next(Next(Next(s, Look(i)), Dialed(i, ok)), Store(i))
                      && RunFrom(s, [Look(i), Dialed(i, ok)]) == Next(Next(s, Look(i)), Dialed(i, ok)) {
      RunsOn(s, [], Look(i));
      RunsOn(s, [Look(i)], Dialed(i, ok));
      RunsOn(s, [Look(i), Dialed(i, ok)], Store(i));
      assert [] + [Look(i)] == [Look(i)] && [Look(i)] + [Dialed(i, ok)] == [Look(i), Dialed(i, ok)];
      assert [Look(i), Dialed(i, ok)] + [Store(i)] == [Look(i), Dialed(i, ok), Store(i)];
    }
    AddsInSteps(s, i);
  }

  lemma AddsInSteps(s: State, i: nat)
    requires i < |s.adders| && s.adders[i].Outside?
    ensures s.phase.Running? ==>
              && Next(Next(Next(s, Look(i)), Dialed(i, true)), Store(i)) == s.(sessions := s.sessions + {s.counter + 1}, counter := s.counter + 1)
              && Next(Next(s, Look(i)), Dialed(i, false)) == s
    ensures !s.phase.Running? ==> forall ok :: Next(Next(Next(s, Look(i)), Dialed(i, ok)), Store(i)) == s
  {
    assert s.adders[i := Outside] == s.adders;
  }

  /** A close on its own shuts every session of a running client, a second one does nothing, and a removal shuts one session. */
  lemma ClosesAlone(s: State, id: nat)
    ensures s.phase.Running? ==> RunFrom(s, [StopClient, Take]) == s.(phase := Taken, sessions := {}, shut := s.shut + s.sessions)
    ensures s.phase.Taken? ==> RunFrom(s, [StopClient, Take]) == s
    ensures !s.phase.Stopped? ==> RunFrom(s, [Take]) == s
    ensures RunFrom(s, [Remove(id)]) == if id in s.sessions then s.(sessions := s.sessions - {id}, shut := s.shut + {id}) else s
  {
    RunsOn(s, [], StopClient);
    RunsOn(s, [StopClient], Take);
    RunsOn(s, [], Take);
    RunsOn(s, [], Remove(id));
    assert [] + [StopClient] == [StopClient] && [StopClient] + [Take] == [StopClient, Take];
    assert [] + [Take] == [Take] && [] + [Remove(id)] == [Remove(id)];
  }
}
