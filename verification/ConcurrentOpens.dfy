/**
 * Many callers of `OpenStream` at once, while sessions are added, replaced and removed, close and finish
 * streams, and the group is closed: every look at the stop channel, every lock section, every session a
 * heap is built from and every check is a step of its own.  How far the cap of 256 can be passed, exactly.
 */
module ConcurrentOpens {
  import opened Collections
  import opened ConnectionGroup

  /** A session and the ID it was added under. */
  datatype Member = Member(name: string, open: bool, streams: nat)

  /**
   * Where a caller is: looking at the stop channel, about to build a heap (with the primary or without),
   * building it under the read lock, popping from it, past the first check of the popped session, past
   * both and about to open, or backing off.  A heap maps sessions to the loads read when it was built.
   */
  datatype Caller =
    | Idle
    | Looking(attempt: nat)
    | Ready(attempt: nat, primary: bool)
    | Scanning(attempt: nat, primary: bool, todo: set<nat>, heap: map<nat, nat>)
    | Popping(attempt: nat, heap: map<nat, nat>, anyUnderCap: bool)
    | Probing(attempt: nat, heap: map<nat, nat>, anyUnderCap: bool, session: nat)
    | Checked(attempt: nat, heap: map<nat, nat>, session: nat)
    | Waiting(attempt: nat)
    | Returning(result: Result<nat, Failure>)

  /** Sessions are numbered in the order they were added; `members` is the group's map of the current ones. */
  datatype State = State(members: map<string, nat>, sessions: seq<Member>, stopped: bool, callers: seq<Caller>)

  datatype Step =
    | Call(i: nat) | Look(i: nat) | Lock(i: nat) | Scan(i: nat, id: nat) | Unlock(i: nat) | Pop(i: nat, id: nat) | Probe(i: nat)
    | Open(i: nat, ok: bool) | EndRound(i: nat) | Wake(i: nat, stop: bool) | Return(i: nat)
    | Add(name: string) | Remove(name: string) | Stop | CloseSession(id: nat) | EndStream(id: nat)

  function Initial(callers: nat): State {
    State(map[], [], false, seq(callers, _ => Idle))
  }

  /** Somebody holds the read lock. */
  ghost predicate Locked(s: State) {
    exists i :: 0 <= i < |s.callers| && s.callers[i].Scanning?
  }

  predicate Fits(m: Member, primary: bool) {
    m.open && (primary || m.name != PRIMARY)
  }

  ghost predicate LeastOf(heap: map<nat, nat>, id: nat) {
    id in heap && forall other :: other in heap ==> heap[id] <= heap[other]
  }

  /** What a step of a caller makes of it. */
  ghost function Moved(s: State, c: Caller, e: Step): Caller {
    match e
    case Call(_) => if c.Idle? then Looking(0) else c
    case Look(_) =>
      if !c.Looking? then c else if s.stopped then Returning(Err(GroupClosed)) else Ready(c.attempt, false)
    case Lock(_) => if c.Ready? then Scanning(c.attempt, c.primary, s.members.Values, map[]) else c
    case Scan(_, id) =>
      if c.Scanning? && id in c.todo && id < |s.sessions| then
        Scanning(c.attempt, c.primary, c.todo - {id}, if Fits(s.sessions[id], c.primary) then c.heap[id := s.sessions[id].streams] else c.heap)
      else c
    case Unlock(_) =>
      if !c.Scanning? || c.todo != {} then c
      else if c.heap != map[] then Popping(c.attempt, c.heap, false)
      else if !c.primary then Ready(c.attempt, true)
      else Returning(Err(GroupClosed))
    case Pop(_, id) =>
      if c.Popping? && LeastOf(c.heap, id) && id < |s.sessions| then
        if s.sessions[id].open then Probing(c.attempt, c.heap - {id}, c.anyUnderCap, id)
        else Popping(c.attempt, c.heap - {id}, c.anyUnderCap)
      else c
    case Probe(_) =>
      if !c.Probing? || c.session >= |s.sessions| then c
      else if s.sessions[c.session].streams < MAX_STREAMS_PER_SESSION then Checked(c.attempt, c.heap, c.session)
      else Popping(c.attempt, c.heap, c.anyUnderCap)
    case Open(_, ok) =>
      if !c.Checked? then c else if Succeeds(s, c, ok) then Returning(Ok(c.session)) else Popping(c.attempt, c.heap, true)
    case EndRound(_) =>
      if !c.Popping? || c.heap != map[] then c
      else if c.attempt < MAX_RETRIES - 1 then Waiting(c.attempt)
      else Returning(Err(if c.anyUnderCap then OpenFailed else AtCapacity))
    case Wake(_, stop) =>
      if !c.Waiting? then c
      else if !stop then Looking(c.attempt + 1)
      else if s.stopped then Returning(Err(GroupClosed)) else c
    case Return(_) => if c.Returning? then Idle else c
    case _ => c
  }

  predicate Succeeds(s: State, c: Caller, ok: bool)
    requires c.Checked?
  {
    ok && c.session < |s.sessions| && s.sessions[c.session].open
  }

  predicate OfCaller(e: Step) {
    !e.Add? && !e.Remove? && !e.Stop? && !e.CloseSession? && !e.EndStream?
  }

  ghost function CallerStep(s: State, e: Step): State
    requires OfCaller(e)
  {
    if e.i >= |s.callers| then s
    else
      var c := s.callers[e.i];
      var t := s.(callers := s.callers[e.i := Moved(s, c, e)]);
      if e.Open? && c.Checked? && Succeeds(s, c, e.ok) then
        t.(sessions := s.sessions[c.session := s.sessions[c.session].(streams := s.sessions[c.session].streams + 1)])
      else t
  }

  ghost function GroupStep(s: State, e: Step): State
    requires !OfCaller(e)
  {
    match e
    case Add(name) =>
      if Locked(s) || name == "" then s
      else s.(members := s.members[name := |s.sessions|], sessions := s.sessions + [Member(name, true, 0)])
    case Remove(name) => if Locked(s) then s else s.(members := s.members - {name})
    case Stop => if Locked(s) || s.stopped then s else s.(members := map[], stopped := true)
    case CloseSession(id) =>
      if id < |s.sessions| then s.(sessions := s.sessions[id := s.sessions[id].(open := false)]) else s
    case EndStream(id) =>
      if id < |s.sessions| && s.sessions[id].streams > 0 then
        s.(sessions := s.sessions[id := s.sessions[id].(streams := s.sessions[id].streams - 1)])
      else s
  }

  ghost function Next(s: State, e: Step): State {
    if OfCaller(e) then CallerStep(s, e) else GroupStep(s, e)
  }

  ghost function RunFrom(s: State, steps: seq<Step>): State {
    if steps == [] then s else Next(RunFrom(s, steps[..|steps| - 1]), steps[|steps| - 1])
  }

  ghost function Run(callers: nat, steps: seq<Step>): State {
    RunFrom(Initial(callers), steps)
  }

  lemma RunsOn(s: State, steps: seq<Step>, e: Step)
    ensures RunFrom(s, steps + [e]) == Next(RunFrom(s, steps), e)
  {
    assert (steps + [e])[..|steps|] == steps;
  }

  lemma {:induction false} RunsConcat(s: State, a: seq<Step>, b: seq<Step>)
    ensures RunFrom(s, a + b) == RunFrom(RunFrom(s, a), b)
    decreases |b|
  {
    hide Next;
    if b == [] {
      assert a + b == a;
    } else {
      var n := |b| - 1;
      RunsConcat(s, a, b[..n]);
      assert a + b == a + b[..n] + [b[n]];
      RunsOn(s, a + b[..n], b[n]);
    }
  }

  // ---------------------------------------------------------------- what every step keeps

  /** Members are known under the ID they were added with. */
  ghost predicate Named(s: State) {
    forall name :: name in s.members ==> s.members[name] < |s.sessions| && s.sessions[s.members[name]].name == name
  }

  /**
   * Callers know of real sessions only; a scan under way has passed nothing over that fits, and one that
   * leaves the primary out has not put it in.
   */
  ghost predicate Sound(s: State, c: Caller) {
    && (c.Scanning? || c.Popping? || c.Probing? || c.Checked? ==> forall id :: id in c.heap ==> id < |s.sessions|)
    && (c.Probing? || c.Checked? ==> c.session < |s.sessions|)
    && (c.Scanning? ==> c.todo <= s.members.Values)
    && (c.Scanning? ==> forall name :: name in s.members && s.members[name] !in c.todo ==> Seen(s, c, s.members[name]))
    && (c.Scanning? && !c.primary ==> forall id :: id in c.heap ==> s.sessions[id].name != PRIMARY)
  }

  ghost predicate Seen(s: State, c: Caller, id: nat)
    requires c.Scanning?
  {
    id < |s.sessions| && Fits(s.sessions[id], c.primary) ==> id in c.heap
  }

  ghost predicate Inv(s: State) {
    Named(s) && forall i :: 0 <= i < |s.callers| ==> Sound(s, s.callers[i])
  }

  /** Sessions keep their ID, never open again, and are only ever added. */
  ghost predicate Later(s: State, t: State) {
    && |s.sessions| <= |t.sessions|
    && forall id :: 0 <= id < |s.sessions| ==> t.sessions[id].name == s.sessions[id].name && (t.sessions[id].open ==> s.sessions[id].open)
  }

  lemma NextIsLater(s: State, e: Step)
    ensures Later(s, Next(s, e)) && |Next(s, e).callers| == |s.callers|
  {
  }

  /** While somebody scans, the members stay. */
  lemma LockHolds(s: State, e: Step)
    requires Locked(s)
    ensures Next(s, e).members == s.members
  {
  }

  lemma MoveIsSound(s: State, c: Caller, e: Step)
    requires Named(s) && Sound(s, c)
    ensures Sound(s, Moved(s, c, e))
  {
    if e.Scan? && c.Scanning? && e.id in c.todo {
      var d := Moved(s, c, e);
      forall name | name in s.members && s.members[name] !in d.todo ensures Seen(s, d, s.members[name]) {
        if s.members[name] != e.id {
          assert Seen(s, c, s.members[name]);
        }
      }
    }
  }

  lemma StaysSound(s: State, t: State, c: Caller)
    requires Sound(s, c) && Later(s, t) && (c.Scanning? ==> t.members == s.members) && Named(s)
    ensures Sound(t, c)
  {
    if c.Scanning? {
      forall name | name in t.members && t.members[name] !in c.todo ensures Seen(t, c, t.members[name]) {
        assert Seen(s, c, s.members[name]);
      }
    }
  }

  lemma NextKeepsNames(s: State, e: Step)
    requires Named(s)
    ensures Named(Next(s, e))
  {
    hide Moved, Locked;
  }

  lemma NextKeeps(s: State, e: Step)
    requires Inv(s)
    ensures Inv(Next(s, e))
  {
    var t := Next(s, e);
    NextKeepsNames(s, e);
    NextIsLater(s, e);
    forall j | 0 <= j < |t.callers| ensures Sound(t, t.callers[j]) {
      var c := if OfCaller(e) && j == e.i then Moved(s, s.callers[j], e) else s.callers[j];
      CallersAfter(s, e, j);
      assert Sound(s, s.callers[j]);
      if OfCaller(e) && j == e.i { MoveIsSound(s, s.callers[j], e); }
      hide Sound, Next, Moved;
      if c.Scanning? { ScanKeepsMembers(s, e, j); }
      StaysSound(s, t, c);
    }
  }

  lemma CallersAfter(s: State, e: Step, j: nat)
    requires j < |s.callers|
    ensures Next(s, e).callers[j] == if OfCaller(e) && j == e.i then Moved(s, s.callers[j], e) else s.callers[j]
  {
    hide Moved, Locked;
  }

  /** A caller found scanning after a step: the members are as before. */
  lemma ScanKeepsMembers(s: State, e: Step, j: nat)
    requires j < |s.callers| && Next(s, e).callers[j].Scanning?
    ensures Next(s, e).members == s.members
  {
    if !OfCaller(e) {
      assert Locked(s);
    }
  }

  lemma {:induction false} InvRuns(callers: nat, steps: seq<Step>)
    ensures Inv(Run(callers, steps)) && |Run(callers, steps).callers| == callers
  {
    hide Next, Inv;
    if steps == [] {
      InitialInv(callers);
    } else {
      InvRuns(callers, steps[..|steps| - 1]);
      NextKeeps(Run(callers, steps[..|steps| - 1]), steps[|steps| - 1]);
      NextIsLater(Run(callers, steps[..|steps| - 1]), steps[|steps| - 1]);
    }
  }

  lemma InitialInv(callers: nat)
    ensures Inv(Initial(callers))
  {
  }

  // ---------------------------------------------------------------- the bound

  /** Callers past both checks of this session. */
  ghost function PastCheck(callers: seq<Caller>, id: nat): nat {
    if callers == [] then 0
    else
      var c := callers[|callers| - 1];
      PastCheck(callers[..|callers| - 1], id) + if IsPast(c, id) then 1 else 0
  }

  predicate IsPast(c: Caller, id: nat) {
    c.Checked? && c.session == id
  }

  lemma {:induction false} PastCheckUpdate(callers: seq<Caller>, i: nat, c: Caller, id: nat)
    requires i < |callers|
    ensures PastCheck(callers[i := c], id) == PastCheck(callers, id) - (if IsPast(callers[i], id) then 1 else 0) + if IsPast(c, id) then 1 else 0
  {
    hide IsPast;
    var n := |callers| - 1;
    if i == n {
      assert callers[i := c][..n] == callers[..n];
    } else {
      assert callers[i := c][..n] == callers[..n][i := c];
      PastCheckUpdate(callers[..n], i, c, id);
    }
  }

  lemma {:induction false} PastCheckBounded(callers: seq<Caller>, id: nat)
    ensures PastCheck(callers, id) <= |callers|
    ensures (forall i :: 0 <= i < |callers| ==> !IsPast(callers[i], id)) ==> PastCheck(callers, id) == 0
  {
    hide IsPast;
    if callers != [] {
      PastCheckBounded(callers[..|callers| - 1], id);
      assert forall i :: 0 <= i < |callers| - 1 ==> callers[..|callers| - 1][i] == callers[i];
    }
  }

  /** The streams of a session and those about to be opened on it. */
  ghost predicate CapKept(s: State, id: nat) {
    id < |s.sessions| ==> s.sessions[id].streams + PastCheck(s.callers, id) <= 255 + |s.callers|
  }

  lemma CallerKeepsCap(s: State, e: Step, id: nat)
    requires CapKept(s, id) && OfCaller(e)
    ensures CapKept(CallerStep(s, e), id)
  {
    if e.i < |s.callers| {
      hide PastCheck, LeastOf;
      var c := s.callers[e.i];
      PastCheckBounded(s.callers[e.i := Moved(s, c, e)], id);
      PastCheckUpdate(s.callers, e.i, Moved(s, c, e), id);
    }
  }

  lemma GroupKeepsCap(s: State, e: Step, id: nat)
    requires CapKept(s, id) && Inv(s) && !OfCaller(e) && |s.callers| > 0
    ensures CapKept(GroupStep(s, e), id)
  {
    hide PastCheck, Locked;
    PastCheckBounded(s.callers, id);
    if id == |s.sessions| {
      forall i | 0 <= i < |s.callers| ensures !IsPast(s.callers[i], id) {
        assert Sound(s, s.callers[i]);
      }
    }
  }

  /**
   * With `callers` callers at a time, no session ever carries more than 255 + callers streams, counting
   * those about to be opened.
   */
  lemma {:induction false} CapPassedByAtMost(callers: nat, steps: seq<Step>, id: nat)
    requires callers > 0
    ensures CapKept(Run(callers, steps), id)
  {
    hide Next, Inv, CapKept;
    if steps == [] {
      NothingAdded(callers, id);
    } else {
      var s, e := Run(callers, steps[..|steps| - 1]), steps[|steps| - 1];
      CapPassedByAtMost(callers, steps[..|steps| - 1], id);
      InvRuns(callers, steps[..|steps| - 1]);
      NextKeepsCap(s, e, id);
    }
  }

  lemma NextKeepsCap(s: State, e: Step, id: nat)
    requires CapKept(s, id) && Inv(s) && |s.callers| > 0
    ensures CapKept(Next(s, e), id)
  {
    hide Inv, CapKept, CallerStep, GroupStep;
    if OfCaller(e) { CallerKeepsCap(s, e, id); } else { GroupKeepsCap(s, e, id); }
  }

  lemma NothingAdded(callers: nat, id: nat)
    ensures CapKept(Initial(callers), id)
  {
  }

  // ---------------------------------------------------------------- the bound is reached

  const ONLY := "data-1"

  /** A group with one session, and its callers. */
  function Single(streams: nat, callers: seq<Caller>): State {
    State(map[ONLY := 0], [Member(ONLY, true, streams)], false, callers)
  }

  const PAST := Checked(0, map[], 0)

  /** The steps of one call up to the open: look, build a heap of the one session, pop and check it. */
  function Approach(i: nat): seq<Step> {
    [Call(i), Look(i), Lock(i), Scan(i, 0), Unlock(i), Pop(i, 0), Probe(i)]
  }

  /** One more move of a caller in a group with one session. */
  lemma MoveOn(streams: nat, callers: seq<Caller>, steps: seq<Step>, i: nat, c: Caller, e: Step, d: Caller, more: seq<Step>)
    requires i < |callers| && OfCaller(e) && !e.Open? && e.i == i && more == steps + [e]
    requires RunFrom(Single(streams, callers), steps) == Single(streams, callers[i := c])
    requires Moved(Single(streams, callers), c, e) == d
    ensures RunFrom(Single(streams, callers), more) == Single(streams, callers[i := d])
  {
    hide RunFrom;
    RunsOn(Single(streams, callers), steps, e);
    SameGroupMoves(Single(streams, callers), callers[i := c], c, e);
    hide Moved;
    assert callers[i := c][i := d] == callers[i := d];
  }

  /** What a caller does depends on the group only. */
  lemma SameGroupMoves(s: State, callers: seq<Caller>, c: Caller, e: Step)
    ensures Moved(s.(callers := callers), c, e) == Moved(s, c, e)
  {
  }

  lemma ApproachMoves(s: State, streams: nat, callers: seq<Caller>, i: nat, a: nat)
    requires s == Single(streams, callers) && streams < MAX_STREAMS_PER_SESSION
    ensures var heap := map[0 := streams];
      && Moved(s, Idle, Call(i)) == Looking(0)
      && Moved(s, Looking(a), Look(i)) == Ready(a, false)
      && Moved(s, Ready(a, false), Lock(i)) == Scanning(a, false, {0}, map[])
      && Moved(s, Scanning(a, false, {0}, map[]), Scan(i, 0)) == Scanning(a, false, {}, heap)
      && Moved(s, Scanning(a, false, {}, heap), Unlock(i)) == Popping(a, heap, false)
      && Moved(s, Popping(a, heap, false), Pop(i, 0)) == Probing(a, map[], false, 0)
      && Moved(s, Probing(a, map[], false, 0), Probe(i)) == Checked(a, map[], 0)
  {
    assert s.members[ONLY] == 0;
    assert s.members.Values == {0};
    assert {0} - {0} == {};
    assert map[0 := streams] - {0} == map[];
  }

  /** A caller builds its heap and passes the checks. */
  lemma PassCheck(streams: nat, callers: seq<Caller>, i: nat)
    requires i < |callers| && callers[i].Idle? && streams < MAX_STREAMS_PER_SESSION
    ensures RunFrom(Single(streams, callers), Approach(i)) == Single(streams, callers[i := PAST])
  {
    hide RunFrom, Next, Moved, Single;
    var heap := map[0 := streams];
    NoSteps(Single(streams, callers));
    assert callers[i := Idle] == callers;
    ApproachMoves(Single(streams, callers), streams, callers, i, 0);
    var steps := Approach(i);
    assert steps[..0] == [] && steps[..7] == steps;
    MoveOn(streams, callers, steps[..0], i, Idle, Call(i), Looking(0), steps[..1]);
    MoveOn(streams, callers, steps[..1], i, Looking(0), Look(i), Ready(0, false), steps[..2]);
    MoveOn(streams, callers, steps[..2], i, Ready(0, false), Lock(i), Scanning(0, false, {0}, map[]), steps[..3]);
    MoveOn(streams, callers, steps[..3], i, Scanning(0, false, {0}, map[]), Scan(i, 0), Scanning(0, false, {}, heap), steps[..4]);
    MoveOn(streams, callers, steps[..4], i, Scanning(0, false, {}, heap), Unlock(i), Popping(0, heap, false), steps[..5]);
    MoveOn(streams, callers, steps[..5], i, Popping(0, heap, false), Pop(i, 0), Probing(0, map[], false, 0), steps[..6]);
    MoveOn(streams, callers, steps[..6], i, Probing(0, map[], false, 0), Probe(i), PAST, steps[..7]);
  }

  lemma NoSteps(s: State)
    ensures RunFrom(s, []) == s
  {
  }

  lemma OpenOne(streams: nat, callers: seq<Caller>, i: nat)
    requires i < |callers| && callers[i] == PAST
    ensures Next(Single(streams, callers), Open(i, true)) == Single(streams + 1, callers[i := Returning(Ok(0))])
  {
  }

  lemma ReturnOne(streams: nat, callers: seq<Caller>, i: nat)
    requires i < |callers| && callers[i].Idle?
    ensures Next(Single(streams, callers[i := Returning(Ok(0))]), Return(i)) == Single(streams, callers)
  {
    assert callers[i := Returning(Ok(0))][i := Idle] == callers;
  }

  /** One caller alone brings the session to any load up to the cap. */
  lemma {:induction false} Fill(callers: nat, streams: nat) returns (steps: seq<Step>)
    requires callers > 0 && streams <= MAX_STREAMS_PER_SESSION
    ensures Run(callers, steps) == Single(streams, seq(callers, _ => Idle))
    decreases streams
  {
    hide RunFrom, Next;
    var idle := seq(callers, _ => Idle);
    if streams == 0 {
      steps := [Add(ONLY)];
      Started(callers);
    } else {
      var before := Fill(callers, streams - 1);
      PassCheck(streams - 1, idle, 0);
      RunsConcat(Initial(callers), before, Approach(0));
      OpenOne(streams - 1, idle[0 := PAST], 0);
      RunsOn(Initial(callers), before + Approach(0), Open(0, true));
      assert idle[0 := PAST][0 := Returning(Ok(0))] == idle[0 := Returning(Ok(0))];
      ReturnOne(streams, idle, 0);
      RunsOn(Initial(callers), before + Approach(0) + [Open(0, true)], Return(0));
      steps := before + Approach(0) + [Open(0, true)] + [Return(0)];
    }
  }

  lemma Started(callers: nat)
    ensures Run(callers, [Add(ONLY)]) == Single(0, seq(callers, _ => Idle))
  {
    assert [] + [Add(ONLY)] == [Add(ONLY)];
    RunsOn(Initial(callers), [], Add(ONLY));
    assert !Locked(Initial(callers));
  }

  /** The first `n` callers are in one state, the others in another. */
  function Split(callers: nat, n: nat, first: Caller, other: Caller): seq<Caller>
    requires n <= callers
  {
    seq(callers, i => if i < n then first else other)
  }

  lemma SplitNext(callers: nat, n: nat, first: Caller, other: Caller)
    requires n < callers
    ensures Split(callers, n, first, other)[n := first] == Split(callers, n + 1, first, other)
  {
  }

  /** All callers pass the checks one after the other, before anybody opens. */
  lemma {:induction false} AllCheck(callers: nat, n: nat) returns (steps: seq<Step>)
    requires 0 < callers && n <= callers
    ensures Run(callers, steps) == Single(MAX_STREAMS_PER_SESSION - 1, Split(callers, n, PAST, Idle))
    decreases n
  {
    hide RunFrom, Next;
    if n == 0 {
      steps := Fill(callers, MAX_STREAMS_PER_SESSION - 1);
      assert seq(callers, _ => Idle) == Split(callers, 0, PAST, Idle);
    } else {
      var before := AllCheck(callers, n - 1);
      PassCheck(MAX_STREAMS_PER_SESSION - 1, Split(callers, n - 1, PAST, Idle), n - 1);
      SplitNext(callers, n - 1, PAST, Idle);
      RunsConcat(Initial(callers), before, Approach(n - 1));
      steps := before + Approach(n - 1);
    }
  }

  /** And then they all open. */
  lemma {:induction false} AllOpened(callers: nat, n: nat) returns (steps: seq<Step>)
    requires 0 < callers && n <= callers
    ensures Run(callers, steps) == Single(MAX_STREAMS_PER_SESSION - 1 + n, Split(callers, n, Returning(Ok(0)), PAST))
    decreases n
  {
    hide RunFrom, Next;
    if n == 0 {
      steps := AllCheck(callers, callers);
      assert Split(callers, callers, PAST, Idle) == Split(callers, 0, Returning(Ok(0)), PAST);
    } else {
      var before := AllOpened(callers, n - 1);
      OpenOne(MAX_STREAMS_PER_SESSION - 1 + n - 1, Split(callers, n - 1, Returning(Ok(0)), PAST), n - 1);
      SplitNext(callers, n - 1, Returning(Ok(0)), PAST);
      RunsOn(Initial(callers), before, Open(n - 1, true));
      steps := before + [Open(n - 1, true)];
    }
  }

  /** No session carries more than `most` streams, whatever `callers` callers do. */
  ghost predicate NeverAbove(callers: nat, most: nat) {
    forall steps, id: nat :: id < |Run(callers, steps).sessions| ==> Run(callers, steps).sessions[id].streams <= most
  }

  /** The bound, exactly: with `callers` callers at a time, 255 + callers streams and no fewer. */
  lemma CapExactly(callers: nat, most: nat)
    requires callers > 0
    ensures NeverAbove(callers, most) <==> most >= 255 + callers
  {
    hide Run, PastCheck, Inv;
    if most >= MAX_STREAMS_PER_SESSION - 1 + callers {
      forall steps, id: nat | id < |Run(callers, steps).sessions| ensures Run(callers, steps).sessions[id].streams <= most {
        CapPassedByAtMost(callers, steps, id);
        InvRuns(callers, steps);
      }
    } else {
      var steps := AllOpened(callers, callers);
      assert Run(callers, steps).sessions[0].streams == MAX_STREAMS_PER_SESSION - 1 + callers;
    }
  }
}
