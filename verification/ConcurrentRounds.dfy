/**
 * What interleaving does to the promises of `OpenStream` and `Close`: exactly when the primary is used
 * although another session is open, exactly when the capacity error is true of the group as it then is,
 * and exactly when a closed group stays empty.
 */
module ConcurrentRounds {
  import opened Collections
  import opened ConnectionGroup
  import opened ConcurrentOpens

  // ---------------------------------------------------------------- sessions old and new

  /** The open sessions of the group, with or without the primary. */
  ghost function Usable(s: State, primary: bool): set<nat> {
    set id | id in s.members.Values && id < |s.sessions| && Fits(s.sessions[id], primary)
  }

  ghost predicate AddsSession(s: State, e: Step, id: nat) {
    e.Add? && id == |s.sessions| && |Next(s, e).sessions| == id + 1
  }

  /** One of the steps after `s` adds this session. */
  ghost predicate AddedSince(s: State, after: seq<Step>, id: nat) {
    exists m :: 0 <= m < |after| && AddsSession(RunFrom(s, after[..m]), after[m], id)
  }

  lemma NextAdds(s: State, e: Step, id: nat)
    ensures AddsSession(s, e, id) <==> |s.sessions| <= id < |Next(s, e).sessions|
  {
  }

  lemma AddedNext(s: State, after: seq<Step>, id: nat)
    requires after != []
    ensures var n := |after| - 1;
      AddedSince(s, after, id) <==> AddedSince(s, after[..n], id) || AddsSession(RunFrom(s, after[..n]), after[n], id)
  {
    hide AddsSession, RunFrom;
    var n := |after| - 1;
    assert forall m :: 0 <= m < n ==> after[..n][..m] == after[..m] && after[..n][m] == after[m];
    if AddedSince(s, after[..n], id) {
      var m :| 0 <= m < n && AddsSession(RunFrom(s, after[..n][..m]), after[..n][m], id);
      assert AddsSession(RunFrom(s, after[..m]), after[m], id);
    }
  }

  lemma {:induction false} AddedIsNew(s: State, after: seq<Step>, id: nat)
    ensures AddedSince(s, after, id) <==> |s.sessions| <= id < |RunFrom(s, after).sessions|
  {
    hide Next, AddsSession, AddedSince;
    if after == [] {
      NothingAddedYet(s, id);
    } else {
      var n := |after| - 1;
      AddedIsNew(s, after[..n], id);
      AddedNext(s, after, id);
      NextAdds(RunFrom(s, after[..n]), after[n], id);
      NextIsLater(RunFrom(s, after[..n]), after[n]);
      RunIsLater(s, after[..n]);
    }
  }

  lemma NothingAddedYet(s: State, id: nat)
    ensures !AddedSince(s, [], id)
  {
  }

  lemma {:induction false} RunIsLater(s: State, after: seq<Step>)
    ensures Later(s, RunFrom(s, after)) && |RunFrom(s, after).callers| == |s.callers|
  {
    hide Next;
    if after != [] {
      RunIsLater(s, after[..|after| - 1]);
      NextIsLater(RunFrom(s, after[..|after| - 1]), after[|after| - 1]);
    }
  }

  lemma {:induction false} InvFrom(s: State, after: seq<Step>)
    requires Inv(s)
    ensures Inv(RunFrom(s, after))
  {
    hide Next, Inv;
    if after != [] {
      InvFrom(s, after[..|after| - 1]);
      NextKeeps(RunFrom(s, after[..|after| - 1]), after[|after| - 1]);
    }
  }

  /** A session that is usable and not new was usable before: members do not come back, nor open again. */
  lemma NextUsable(s: State, e: Step, id: nat, primary: bool)
    requires id in Usable(Next(s, e), primary) && id < |s.sessions|
    ensures id in Usable(s, primary)
  {
    hide Moved, Locked;
    var name :| name in Next(s, e).members && Next(s, e).members[name] == id;
    assert s.members[name] == id;
  }

  lemma {:induction false} OldUsable(s: State, after: seq<Step>, id: nat, primary: bool)
    requires id in Usable(RunFrom(s, after), primary) && id < |s.sessions|
    ensures id in Usable(s, primary)
  {
    hide Next, Usable;
    if after != [] {
      RunIsLater(s, after[..|after| - 1]);
      NextUsable(RunFrom(s, after[..|after| - 1]), after[|after| - 1], id, primary);
      OldUsable(s, after[..|after| - 1], id, primary);
    }
  }

  /** Where nothing was usable, whatever is usable later has been added since. */
  lemma Newcomers(s: State, after: seq<Step>, id: nat, primary: bool)
    requires Usable(s, primary) == {} && id in Usable(RunFrom(s, after), primary)
    ensures AddedSince(s, after, id)
  {
    hide RunFrom, Usable;
    assert id < |RunFrom(s, after).sessions| by { UsableExists(RunFrom(s, after), id, primary); }
    AddedIsNew(s, after, id);
    if id < |s.sessions| { OldUsable(s, after, id, primary); }
  }

  lemma UsableExists(s: State, id: nat, primary: bool)
    requires id in Usable(s, primary)
    ensures id < |s.sessions| && Fits(s.sessions[id], primary)
  {
  }

  /** A finished scan holds every usable session. */
  lemma ScanIsComplete(s: State, i: nat)
    requires Inv(s) && i < |s.callers| && s.callers[i].Scanning? && s.callers[i].todo == {}
    ensures Usable(s, s.callers[i].primary) <= s.callers[i].heap.Keys
  {
    var c := s.callers[i];
    assert Sound(s, c);
    forall id | id in Usable(s, c.primary) ensures id in c.heap {
      var name :| name in s.members && s.members[name] == id;
      assert Seen(s, c, s.members[name]);
    }
  }

  // ---------------------------------------------------------------- the primary

  /** The sessions a caller has in hand. */
  ghost function InHand(c: Caller): set<nat> {
    (if c.Scanning? || c.Popping? || c.Probing? || c.Checked? then c.heap.Keys else {})
    + (if c.Probing? || c.Checked? then {c.session} else {})
  }

  ghost predicate IsPrimary(s: State, id: nat) {
    id < |s.sessions| && s.sessions[id].name == PRIMARY
  }

  /** The caller is in a round in which the primary is allowed, or has it in hand. */
  ghost predicate UsesPrimary(s: State, c: Caller) {
    || ((c.Ready? || c.Scanning?) && c.primary)
    || exists id :: id in InHand(c) && IsPrimary(s, id)
  }

  /** Caller `i` ends a build without the primary and with nothing in its heap. */
  ghost predicate EmptyBuild(s: State, i: nat, e: Step) {
    e == Unlock(i) && i < |s.callers| && s.callers[i].Scanning? && !s.callers[i].primary && s.callers[i].todo == {} && s.callers[i].heap == map[]
  }

  lemma PrimaryNext(s: State, e: Step, i: nat)
    requires Inv(s) && i < |s.callers| && UsesPrimary(Next(s, e), Next(s, e).callers[i])
    ensures UsesPrimary(s, s.callers[i]) || EmptyBuild(s, i, e)
  {
    var t := Next(s, e);
    assert Sound(s, s.callers[i]);
    CallersAfter(s, e, i);
    NextIsLater(s, e);
    if !(OfCaller(e) && e.i == i) {
      hide Next, Moved;
      if !((t.callers[i].Ready? || t.callers[i].Scanning?) && t.callers[i].primary) {
        var id :| id in InHand(t.callers[i]) && IsPrimary(t, id);
        InHandExists(s, s.callers[i]);
      }
    } else {
      hide Next, Sound, LeastOf;
      PrimaryMoved(s, s.callers[i], e, t);
    }
  }

  lemma InHandExists(s: State, c: Caller)
    requires Sound(s, c)
    ensures forall id :: id in InHand(c) ==> id < |s.sessions|
  {
  }

  lemma PrimaryMoved(s: State, c: Caller, e: Step, t: State)
    requires Sound(s, c) && Later(s, t) && OfCaller(e) && UsesPrimary(t, Moved(s, c, e))
    ensures UsesPrimary(s, c) || (e.Unlock? && c.Scanning? && !c.primary && c.todo == {} && c.heap == map[])
  {
    var d := Moved(s, c, e);
    if !((d.Ready? || d.Scanning?) && d.primary) {
      var id :| id in InHand(d) && IsPrimary(t, id);
      hide LeastOf;
      HandMoved(s, c, e);
      InHandExists(s, c);
    }
  }

  /** A move takes into hand only what a scan finds. */
  lemma HandMoved(s: State, c: Caller, e: Step)
    ensures InHand(Moved(s, c, e)) <= InHand(c) + if e.Scan? && c.Scanning? && e.id in c.todo && e.id < |s.sessions| && Fits(s.sessions[e.id], c.primary) then {e.id} else {}
  {
  }

  /** All the sessions in hand but the primary are among those numbered from `from`. */
  ghost predicate OthersFrom(s: State, c: Caller, from: nat) {
    forall id :: id in InHand(c) && id < |s.sessions| && !IsPrimary(s, id) ==> id >= from
  }

  /** From step `k` on, an empty build, caller `i` has been in one round that may use the primary. */
  ghost predicate SecondBuildSince(callers: nat, steps: seq<Step>, i: nat, k: nat) {
    && i < callers && k < |steps| && EmptyBuild(Run(callers, steps[..k]), i, steps[k])
    && forall m :: k < m <= |steps| ==> i < |Run(callers, steps[..m]).callers| && UsesPrimary(Run(callers, steps[..m]), Run(callers, steps[..m]).callers[i])
  }

  lemma {:induction false} PrimaryAfterEmptyBuild(callers: nat, steps: seq<Step>, i: nat) returns (k: nat)
    requires i < callers && |Run(callers, steps).callers| == callers && UsesPrimary(Run(callers, steps), Run(callers, steps).callers[i])
    ensures SecondBuildSince(callers, steps, i, k)
    ensures OthersFrom(Run(callers, steps), Run(callers, steps).callers[i], |Run(callers, steps[..k + 1]).sessions|)
  {
    hide Next, Inv, UsesPrimary, EmptyBuild, OthersFrom;
    k := 0;
    if steps == [] {
      NobodyAtFirst(callers, i);
    } else {
      var n := |steps| - 1;
      var init := steps[..n];
      var s := Run(callers, init);
      InvRuns(callers, init);
      assert steps[..|steps|] == steps;
      assert forall m :: 0 <= m <= n ==> init[..m] == steps[..m];
      if EmptyBuild(s, i, steps[n]) {
        k := n;
        NothingInHand(s, i, steps[n]);
      } else {
        PrimaryNext(s, steps[n], i);
        k := PrimaryAfterEmptyBuild(callers, init, i);
        OthersNext(callers, steps, i, k);
      }
    }
  }

  lemma NobodyAtFirst(callers: nat, i: nat)
    requires i < callers
    ensures !UsesPrimary(Initial(callers), Initial(callers).callers[i])
  {
  }

  lemma NothingInHand(s: State, i: nat, e: Step)
    requires EmptyBuild(s, i, e)
    ensures Next(s, e).callers[i] == Ready(s.callers[i].attempt, true)
    ensures OthersFrom(Next(s, e), Next(s, e).callers[i], |Next(s, e).sessions|)
  {
  }

  lemma NoneFound(s: State, i: nat, e: Step)
    requires Inv(s) && EmptyBuild(s, i, e)
    ensures Usable(Next(s, e), false) == {}
  {
    ScanIsComplete(s, i);
  }

  lemma OthersNext(callers: nat, steps: seq<Step>, i: nat, k: nat)
    requires steps != [] && SecondBuildSince(callers, steps[..|steps| - 1], i, k)
    requires var s := Run(callers, steps[..|steps| - 1]); OthersFrom(s, s.callers[i], |Run(callers, steps[..k + 1]).sessions|)
    ensures var t := Run(callers, steps); i < |t.callers| && OthersFrom(t, t.callers[i], |Run(callers, steps[..k + 1]).sessions|)
  {
    hide Next, Inv, UsesPrimary, EmptyBuild;
    var n := |steps| - 1;
    var s, e, t := Run(callers, steps[..n]), steps[n], Run(callers, steps);
    InvRuns(callers, steps[..n]);
    assert Sound(s, s.callers[i]) by { SoundAt(s, i); }
    CallersAfter(s, e, i);
    NextIsLater(s, e);
    InHandExists(s, s.callers[i]);
    HandMoved(s, s.callers[i], e);
    hide Moved;
    forall id | id in InHand(t.callers[i]) && id < |t.sessions| && !IsPrimary(t, id) ensures id >= |Run(callers, steps[..k + 1]).sessions| {
      if id !in InHand(s.callers[i]) {
        FoundSince(callers, steps[..n], i, k, id);
        assert steps[..n][..k + 1] == steps[..k + 1];
      }
    }
  }

  lemma SoundAt(s: State, i: nat)
    requires Inv(s) && i < |s.callers|
    ensures Sound(s, s.callers[i])
  {
  }

  /** What the second build finds beside the primary was not there at the first. */
  lemma FoundSince(callers: nat, steps: seq<Step>, i: nat, k: nat, id: nat)
    requires SecondBuildSince(callers, steps, i, k)
    requires var s := Run(callers, steps); var c := s.callers[i];
      c.Scanning? && id in c.todo && id < |s.sessions| && s.sessions[id].open && !IsPrimary(s, id)
    ensures id >= |Run(callers, steps[..k + 1]).sessions|
  {
    hide Next, RunFrom, UsesPrimary, EmptyBuild;
    InvRuns(callers, steps);
    var s := Run(callers, steps);
    SoundAt(s, i);
    assert id in Usable(s, false);
    SinceEmptyBuild(callers, steps, i, k, id);
  }

  /** The sessions open beside the primary are those added since the empty build. */
  lemma SinceEmptyBuild(callers: nat, steps: seq<Step>, i: nat, k: nat, id: nat)
    requires SecondBuildSince(callers, steps, i, k) && id in Usable(Run(callers, steps), false)
    ensures AddedSince(Run(callers, steps[..k + 1]), steps[k + 1..], id)
    ensures |Run(callers, steps[..k + 1]).sessions| <= id < |Run(callers, steps).sessions|
  {
    hide Next, RunFrom, UsesPrimary, EmptyBuild, Usable;
    InvRuns(callers, steps[..k]);
    RunsOn(Initial(callers), steps[..k], steps[k]);
    assert steps[..k + 1] == steps[..k] + [steps[k]];
    NoneFound(Run(callers, steps[..k]), i, steps[k]);
    RunsConcat(Initial(callers), steps[..k + 1], steps[k + 1..]);
    assert steps == steps[..k + 1] + steps[k + 1..];
    Newcomers(Run(callers, steps[..k + 1]), steps[k + 1..], id, false);
    AddedIsNew(Run(callers, steps[..k + 1]), steps[k + 1..], id);
  }

  /**
   * A heap with the primary, at the end of its build.  It follows a build without the primary that found
   * nothing; whatever else it holds was added to the group in between, and everything open that was added
   * in between and not taken out again is in it.  So the heap holds an open session beside the primary if
   * and only if such a session was added in between.
   */
  lemma PrimaryBesideExactly(callers: nat, steps: seq<Step>, i: nat) returns (k: nat)
    requires i < callers && |Run(callers, steps).callers| == callers
    requires var c := Run(callers, steps).callers[i]; c.Scanning? && c.primary && c.todo == {}
    ensures SecondBuildSince(callers, steps, i, k)
    ensures var t := Run(callers, steps); var heap := t.callers[i].heap; var (s, after) := (Run(callers, steps[..k + 1]), steps[k + 1..]);
      && (forall id :: id in heap && !IsPrimary(t, id) ==> AddedSince(s, after, id))
      && Usable(t, true) <= heap.Keys
      && ((exists id :: id in heap && id in Usable(t, false)) <==> exists id :: AddedSince(s, after, id) && id in Usable(t, false))
  {
    hide Next, RunFrom, EmptyBuild, Usable, AddedSince;
    var t := Run(callers, steps);
    k := PrimaryAfterEmptyBuild(callers, steps, i);
    hide SecondBuildSince, UsesPrimary;
    InvRuns(callers, steps);
    ScanIsComplete(t, i);
    var s, after := Run(callers, steps[..k + 1]), steps[k + 1..];
    RunsConcat(Initial(callers), steps[..k + 1], after);
    assert steps == steps[..k + 1] + after;
    SoundAt(t, i);
    forall id | id in t.callers[i].heap && !IsPrimary(t, id) ensures AddedSince(s, after, id) {
      AddedIsNew(s, after, id);
    }
    forall id | id in Usable(t, false) ensures id in t.callers[i].heap && AddedSince(s, after, id) {
      SinceEmptyBuild(callers, steps, i, k, id);
      assert id in Usable(t, true) by { UsableMore(t, id); }
    }
  }

  lemma UsableMore(s: State, id: nat)
    requires id in Usable(s, false)
    ensures id in Usable(s, true)
  {
  }

  /**
   * The primary is opened on although another session is open: up to the very open, the other open sessions
   * are exactly those added since the caller's build without the primary found nothing and not gone since.
   * So the promise holds if and only if there is none of them.
   */
  lemma PrimaryOpenedExactly(callers: nat, steps: seq<Step>, i: nat) returns (k: nat)
    requires i < callers && |Run(callers, steps).callers| == callers
    requires var s := Run(callers, steps); s.callers[i].Checked? && IsPrimary(s, s.callers[i].session)
    ensures SecondBuildSince(callers, steps, i, k)
    ensures var t := Run(callers, steps); var (s, after) := (Run(callers, steps[..k + 1]), steps[k + 1..]);
      Usable(t, false) == {} <==> forall id :: AddedSince(s, after, id) ==> id !in Usable(t, false)
  {
    hide Next, RunFrom, EmptyBuild, Usable, AddedSince;
    var t := Run(callers, steps);
    assert t.callers[i].session in InHand(t.callers[i]);
    k := PrimaryAfterEmptyBuild(callers, steps, i);
    hide SecondBuildSince, UsesPrimary;
    forall id | id in Usable(t, false) ensures AddedSince(Run(callers, steps[..k + 1]), steps[k + 1..], id) {
      SinceEmptyBuild(callers, steps, i, k, id);
    }
  }

  // ---------------------------------------------------------------- a run in which it happens

  /** A data session is added between the two builds, and the primary is popped first. */
  function Late(): seq<Step> {
    [Add(PRIMARY), Call(0), Look(0), Lock(0), Scan(0, 0), Unlock(0), Add(ONLY), Lock(0), Scan(0, 0), Scan(0, 1), Unlock(0), Pop(0, 0), Probe(0)]
  }

  lemma MovesOne(steps: seq<Step>, e: Step, d: Caller, more: seq<Step>)
    requires OfCaller(e) && (e.Open? ==> !e.ok) && e.i == 0 && more == steps + [e]
    requires var s := Run(1, steps); |s.callers| == 1 && Moved(s, s.callers[0], e) == d
    ensures Run(1, more) == Run(1, steps).(callers := [d])
  {
    RunsOn(Initial(1), steps, e);
    hide Moved, RunFrom;
    assert Run(1, steps).callers[0 := d] == [d];
  }

  /** Nobody is scanning, so a session can be added. */
  lemma AddsOne(steps: seq<Step>, name: string, more: seq<Step>)
    requires var s := Run(1, steps); |s.callers| == 1 && !s.callers[0].Scanning? && name != "" && more == steps + [Add(name)]
    ensures var s := Run(1, steps); Run(1, more) == s.(members := s.members[name := |s.sessions|], sessions := s.sessions + [Member(name, true, 0)])
  {
    RunsOn(Initial(1), steps, Add(name));
    hide RunFrom;
    assert !Locked(Run(1, steps));
  }

  /** The caller alone with the primary: its first build finds nothing. */
  lemma LateFirstBuild()
    ensures Run(1, Late()[..6]) == State(map[PRIMARY := 0], [Member(PRIMARY, true, 0)], false, [Ready(0, true)])
  {
    hide Run;
    FirstState();
    AddsOne(Late()[..0], PRIMARY, Late()[..1]);
    var s := Run(1, Late()[..1]);
    assert s.members[PRIMARY] == 0 && s.members == map[PRIMARY := 0] && s.members.Values == {0};
    assert {0} - {0} == {};
    MovesOne(Late()[..1], Call(0), Looking(0), Late()[..2]);
    MovesOne(Late()[..2], Look(0), Ready(0, false), Late()[..3]);
    MovesOne(Late()[..3], Lock(0), Scanning(0, false, {0}, map[]), Late()[..4]);
    MovesOne(Late()[..4], Scan(0, 0), Scanning(0, false, {}, map[]), Late()[..5]);
    MovesOne(Late()[..5], Unlock(0), Ready(0, true), Late()[..6]);
  }

  lemma FirstState()
    ensures Run(1, Late()[..0]) == State(map[], [], false, [Idle])
  {
    assert Late()[..0] == [];
    assert seq(1, _ => Idle) == [Idle];
  }

  function LateGroup(callers: seq<Caller>): State {
    State(map[PRIMARY := 0, ONLY := 1], [Member(PRIMARY, true, 0), Member(ONLY, true, 0)], false, callers)
  }

  lemma LateMoves()
    ensures Moved(LateGroup([]), Ready(0, true), Lock(0)) == Scanning(0, true, {0, 1}, map[])
    ensures Moved(LateGroup([]), Scanning(0, true, {0, 1}, map[]), Scan(0, 0)) == Scanning(0, true, {1}, map[0 := 0])
    ensures Moved(LateGroup([]), Scanning(0, true, {1}, map[0 := 0]), Scan(0, 1)) == Scanning(0, true, {}, map[0 := 0, 1 := 0])
    ensures Moved(LateGroup([]), Scanning(0, true, {}, map[0 := 0, 1 := 0]), Unlock(0)) == Popping(0, map[0 := 0, 1 := 0], false)
    ensures Moved(LateGroup([]), Popping(0, map[0 := 0, 1 := 0], false), Pop(0, 0)) == Probing(0, map[1 := 0], false, 0)
    ensures Moved(LateGroup([]), Probing(0, map[1 := 0], false, 0), Probe(0)) == Checked(0, map[1 := 0], 0)
  {
    BothMembers(LateGroup([]).members);
    assert {0, 1} - {0} == {1} && {1} - {1} == {};
    assert map[][0 := 0] == map[0 := 0] && map[0 := 0][1 := 0] == map[0 := 0, 1 := 0];
    assert map[0 := 0, 1 := 0] - {0} == map[1 := 0];
  }

  lemma LateSteps()
    ensures |Late()| == 13 && Late()[7] == Lock(0) && Late()[8] == Scan(0, 0) && Late()[9] == Scan(0, 1) && Late()[10] == Unlock(0)
    ensures Late()[11] == Pop(0, 0) && Late()[12] == Probe(0)
  {
  }

  lemma LateMove(from: nat, c: Caller, e: Step, d: Caller)
    requires 7 <= from < |Late()| && Late()[from] == e && OfCaller(e) && !e.Open? && e.i == 0
    requires Run(1, Late()[..from]) == LateGroup([c]) && Moved(LateGroup([]), c, e) == d
    ensures Run(1, Late()[..from + 1]) == LateGroup([d])
  {
    SameGroupMoves(LateGroup([]), [c], c, e);
    MovesOne(Late()[..from], e, d, Late()[..from + 1]);
  }

  /** The second build finds both, and the primary is popped first. */
  lemma LateSecondBuild()
    ensures Run(1, Late()) == LateGroup([Checked(0, map[1 := 0], 0)])
  {
    hide Run, Moved, LateGroup, Late;
    LateAdd();
    LateSteps();
    LateMoves();
    LateMove(7, Ready(0, true), Lock(0), Scanning(0, true, {0, 1}, map[]));
    LateMove(8, Scanning(0, true, {0, 1}, map[]), Scan(0, 0), Scanning(0, true, {1}, map[0 := 0]));
    LateMove(9, Scanning(0, true, {1}, map[0 := 0]), Scan(0, 1), Scanning(0, true, {}, map[0 := 0, 1 := 0]));
    LateMove(10, Scanning(0, true, {}, map[0 := 0, 1 := 0]), Unlock(0), Popping(0, map[0 := 0, 1 := 0], false));
    LateMove(11, Popping(0, map[0 := 0, 1 := 0], false), Pop(0, 0), Probing(0, map[1 := 0], false, 0));
    LateMove(12, Probing(0, map[1 := 0], false, 0), Probe(0), Checked(0, map[1 := 0], 0));
    assert Late()[..13] == Late();
  }

  lemma LateAdd()
    ensures Run(1, Late()[..7]) == LateGroup([Ready(0, true)])
  {
    hide Run;
    LateFirstBuild();
    AddsOne(Late()[..6], ONLY, Late()[..7]);
    var s := Run(1, Late()[..7]);
    assert s.members == map[PRIMARY := 0, ONLY := 1] && s.sessions == [Member(PRIMARY, true, 0), Member(ONLY, true, 0)];
  }

  lemma BothMembers(members: map<string, nat>)
    requires members == map[PRIMARY := 0, ONLY := 1]
    ensures members.Values == {0, 1}
  {
    assert members[PRIMARY] == 0 && members[ONLY] == 1;
  }

  /** The primary is about to be opened on while a data session is open and empty. */
  lemma PrimaryBesideData()
    ensures var s := Run(1, Late()); |s.callers| == 1 && s.callers[0].Checked? && IsPrimary(s, s.callers[0].session) && 1 in Usable(s, false)
  {
    LateSecondBuild();
    hide Run;
    assert Run(1, Late()).members[ONLY] == 1;
  }

  // ---------------------------------------------------------------- how a call ends

  /**
   * What the end of a call means at that moment: a win is one more stream on an open session that was
   * checked, the closed error a stopped group or one without an open session, and errors change nothing.
   */
  lemma OutcomeMeans(callers: nat, steps: seq<Step>, e: Step, i: nat)
    requires i < callers && |Run(callers, steps).callers| == callers && |Next(Run(callers, steps), e).callers| == callers
    requires !Run(callers, steps).callers[i].Returning? && Next(Run(callers, steps), e).callers[i].Returning?
    ensures var s, t := Run(callers, steps), Next(Run(callers, steps), e);
      match t.callers[i].result
      case Ok(id) =>
        && s.callers[i].Checked? && s.callers[i].session == id < |s.sessions| && s.sessions[id].open
        && t.members == s.members && t.sessions == s.sessions[id := s.sessions[id].(streams := s.sessions[id].streams + 1)]
      case Err(failure) =>
        && t.members == s.members && t.sessions == s.sessions
        && (failure == GroupClosed ==> s.stopped || Usable(s, true) == {})
  {
    hide RunFrom, Inv, LeastOf;
    var s := Run(callers, steps);
    InvRuns(callers, steps);
    CallersAfter(s, e, i);
    if s.callers[i].Scanning? && s.callers[i].primary && s.callers[i].todo == {} { ScanIsComplete(s, i); }
  }

  // ---------------------------------------------------------------- the capacity error

  /** In these steps caller `i` only pops, checks and opens: it stays in its round. */
  ghost predicate InRound(during: seq<Step>, i: nat) {
    forall m :: 0 <= m < |during| && OfCaller(during[m]) && during[m].i == i ==> during[m].Pop? || during[m].Probe? || during[m].Open?
  }

  /** A check of caller `i` found its session below the cap. */
  ghost predicate PassesAt(s: State, e: Step, i: nat) {
    && e == Probe(i) && i < |s.callers| && s.callers[i].Probing? && s.callers[i].session < |s.sessions|
    && s.sessions[s.callers[i].session].streams < 256
  }

  ghost predicate Passes(s: State, during: seq<Step>, i: nat) {
    exists m :: 0 <= m < |during| && PassesAt(RunFrom(s, during[..m]), during[m], i)
  }

  lemma PassesNext(s: State, during: seq<Step>, i: nat)
    requires during != []
    ensures var n := |during| - 1;
      Passes(s, during, i) <==> Passes(s, during[..n], i) || PassesAt(RunFrom(s, during[..n]), during[n], i)
  {
    hide PassesAt, RunFrom;
    var n := |during| - 1;
    assert forall m :: 0 <= m < n ==> during[..n][..m] == during[..m] && during[..n][m] == during[m];
    if Passes(s, during[..n], i) {
      var m :| 0 <= m < n && PassesAt(RunFrom(s, during[..n][..m]), during[..n][m], i);
      assert PassesAt(RunFrom(s, during[..m]), during[m], i);
    }
  }

  /** The session is closed, full, or has ended a stream during these steps. */
  ghost predicate TurnedDown(t: State, during: seq<Step>, id: nat) {
    id < |t.sessions| ==> !t.sessions[id].open || t.sessions[id].streams >= 256 || EndStream(id) in during
  }

  /** Where a round stands: what was popped and not opened on was turned down, and the flag tells of a check passed. */
  ghost predicate RoundSoFar(s: State, during: seq<Step>, i: nat, heap: map<nat, nat>) {
    var t := RunFrom(s, during);
    && i < |t.callers|
    && var c := t.callers[i];
    && (c.Popping? || c.Probing? || c.Checked? || (c.Returning? && c.result.Ok?))
    && (c.Popping? || c.Probing? ==> (c.anyUnderCap <==> Passes(s, during, i)))
    && (c.Checked? || c.Returning? ==> Passes(s, during, i))
    && (!Passes(s, during, i) ==> forall id :: id in heap && id !in InHand(c) ==> TurnedDown(t, during, id))
  }

  /** What one step of the caller itself makes of its round. */
  lemma RoundMove(s: State, c: Caller, e: Step)
    requires Sound(s, c) && (c.Popping? || c.Probing? || c.Checked?) && (e.Pop? || e.Probe? || e.Open?)
    ensures var d := Moved(s, c, e);
      && (d.Popping? || d.Probing? || d.Checked? || (d.Returning? && d.result.Ok?))
      && (d.Popping? || d.Probing? ==> d.anyUnderCap == (if c.Checked? then true else c.anyUnderCap))
      && (d.Checked? && !c.Checked? ==> e.Probe? && c.Probing? && s.sessions[c.session].streams < MAX_STREAMS_PER_SESSION)
      && (d.Returning? ==> c.Checked?)
      && (e.Probe? && c.Probing? && s.sessions[c.session].streams < MAX_STREAMS_PER_SESSION ==> d.Checked?)
      && (!c.Checked? && !d.Checked? ==> forall id :: id in InHand(c) && id !in InHand(d) ==>
            id < |s.sessions| && (!s.sessions[id].open || s.sessions[id].streams >= MAX_STREAMS_PER_SESSION))
  {
  }

  lemma TurnedDownStays(s: State, e: Step, during: seq<Step>, id: nat)
    requires TurnedDown(s, during, id) && id < |s.sessions|
    ensures TurnedDown(Next(s, e), during + [e], id)
  {
    hide Moved, Locked;
  }

  lemma {:induction false} RoundRuns(s: State, during: seq<Step>, i: nat, heap: map<nat, nat>)
    requires Inv(s) && i < |s.callers| && s.callers[i].Popping? && !s.callers[i].anyUnderCap && s.callers[i].heap == heap && InRound(during, i)
    ensures RoundSoFar(s, during, i, heap)
  {
    hide Next, Inv, TurnedDown, Moved, PassesAt, Passes;
    if during == [] {
      assert !Passes(s, [], i) by { NothingPassed(s, i); }
    } else {
      var n := |during| - 1;
      RoundRuns(s, during[..n], i, heap);
      RoundNext(s, during, i, heap);
    }
  }

  lemma NothingPassed(s: State, i: nat)
    ensures !Passes(s, [], i)
  {
  }

  lemma RoundNext(s: State, during: seq<Step>, i: nat, heap: map<nat, nat>)
    requires Inv(s) && i < |s.callers| && s.callers[i].Popping? && s.callers[i].heap == heap
    requires during != [] && InRound(during, i) && RoundSoFar(s, during[..|during| - 1], i, heap)
    ensures RoundSoFar(s, during, i, heap)
  {
    hide Next, Inv, TurnedDown, Moved, Passes;
    var n := |during| - 1;
    var before, e := RunFrom(s, during[..n]), during[n];
    var after := Next(before, e);
    assert during[..n] + [e] == during;
    InvFrom(s, during[..n]);
    SoundAt(before, i);
    RunIsLater(s, during[..n]);
    CallersAfter(before, e, i);
    NextIsLater(before, e);
    PassesNext(s, during, i);
    var c, d := before.callers[i], after.callers[i];
    if OfCaller(e) && e.i == i {
      if c.Returning? { ReturnedStays(before, c, e); } else { RoundMove(before, c, e); }
    }
    SoundAt(s, i);
    if !Passes(s, during, i) {
      forall id | id in heap && id !in InHand(d) ensures TurnedDown(after, during, id) {
        TurnsDown(before, e, during[..n], id, c, d, i);
      }
    }
  }

  lemma ReturnedStays(s: State, c: Caller, e: Step)
    requires c.Returning? && (e.Pop? || e.Probe? || e.Open?)
    ensures Moved(s, c, e) == c
  {
  }

  lemma TurnsDown(s: State, e: Step, during: seq<Step>, id: nat, c: Caller, d: Caller, i: nat)
    requires id < |s.sessions| && id !in InHand(d)
    requires id !in InHand(c) ==> TurnedDown(s, during, id)
    requires id in InHand(c) ==> !s.sessions[id].open || s.sessions[id].streams >= MAX_STREAMS_PER_SESSION
    ensures TurnedDown(Next(s, e), during + [e], id)
  {
    hide Next, InHand;
    TurnedDownStays(s, e, during, id);
  }

  /**
   * The capacity error.  A round over a heap that is not empty ends without a winner and with the capacity
   * error (in the last attempt) if and only if no check of the round found a session below the cap.  And
   * then all usable sessions of the group are full, as the error says, if and only if those are that were
   * added, or ended a stream, since the heap was built.
   */
  lemma CapacityErrorExactly(callers: nat, before: seq<Step>, i: nat, during: seq<Step>)
    requires i < callers && |Run(callers, before).callers| == callers && InRound(during, i)
    requires var c := Run(callers, before).callers[i]; c.Scanning? && c.todo == {} && c.heap != map[]
    requires var t := RunFrom(Next(Run(callers, before), Unlock(i)), during); i < |t.callers| && t.callers[i].Popping? && t.callers[i].heap == map[]
    ensures var s0 := Run(callers, before); var s := Next(s0, Unlock(i)); var t := RunFrom(s, during);
      t.callers[i].attempt == 2 ==>
        (Moved(t, t.callers[i], EndRound(i)) == Returning(Err(AtCapacity)) <==> !Passes(s, during, i))
    ensures var s0 := Run(callers, before); var s := Next(s0, Unlock(i)); var t := RunFrom(s, during);
      !Passes(s, during, i) ==>
        (AllFullIn(t, s0.callers[i].primary) <==> forall id :: AddedSince(s, during, id) || EndStream(id) in during ==> FullIn(t, s0.callers[i].primary, id))
  {
    hide RunFrom, Inv, TurnedDown, Passes, AddedSince, Usable;
    InvRuns(callers, before);
    var s0 := Run(callers, before);
    var heap, primary := s0.callers[i].heap, s0.callers[i].primary;
    var s := Next(s0, Unlock(i));
    NextKeeps(s0, Unlock(i));
    RoundRuns(s, during, i, heap);
    var t := RunFrom(s, during);
    ScanIsComplete(s0, i);
    if !Passes(s, during, i) {
      forall id | id in Usable(t, primary) && !AddedSince(s, during, id) && EndStream(id) !in during ensures FullIn(t, primary, id) {
        UsableExists(t, id, primary);
        AddedIsNew(s, during, id);
        OldUsable(s, during, id, primary);
        assert id in Usable(s0, primary) by { SameUsable(s0, i, primary); }
        assert id in heap && id !in InHand(t.callers[i]);
        FullIfTurnedDown(t, during, id, primary);
      }
      OthersDoNotCount(t, primary);
    }
  }

  lemma SameUsable(s: State, i: nat, primary: bool)
    ensures Usable(Next(s, Unlock(i)), primary) == Usable(s, primary)
  {
    hide Moved;
  }

  /** If it is usable, it is full. */
  ghost predicate FullIn(t: State, primary: bool, id: nat) {
    id in Usable(t, primary) ==> t.sessions[id].streams >= MAX_STREAMS_PER_SESSION
  }

  ghost predicate AllFullIn(t: State, primary: bool) {
    forall id :: id in Usable(t, primary) ==> t.sessions[id].streams >= MAX_STREAMS_PER_SESSION
  }

  lemma FullIfTurnedDown(t: State, during: seq<Step>, id: nat, primary: bool)
    requires TurnedDown(t, during, id) && EndStream(id) !in during
    ensures FullIn(t, primary, id)
  {
  }

  lemma OthersDoNotCount(t: State, primary: bool)
    ensures AllFullIn(t, primary) <==> forall id :: FullIn(t, primary, id)
  {
    if forall id :: FullIn(t, primary, id) {
      forall id | id in Usable(t, primary) ensures t.sessions[id].streams >= MAX_STREAMS_PER_SESSION {
        assert FullIn(t, primary, id);
      }
    }
  }

  // ---------------------------------------------------------------- a run in which it is false

  /** One attempt on the only session, whose open fails. */
  function Failed(): seq<Step> {
    [Look(0), Lock(0), Scan(0, 0), Unlock(0), Pop(0, 0), Probe(0), Open(0, false), EndRound(0), Wake(0, false)]
  }

  const NEXT := "data-2"

  /** Two failed attempts; in the third the session is replaced by a new one after the heap was built. */
  function Stale(): seq<Step> {
    [Add(ONLY), Call(0)] + Failed() + Failed() + Failed()[..4] + [CloseSession(0)] + [Add(NEXT)] + [Pop(0, 0)] + [EndRound(0)]
  }

  lemma FailedSteps()
    ensures var es := Failed();
      && |es| == 9 && es[0] == Look(0) && es[1] == Lock(0) && es[2] == Scan(0, 0) && es[3] == Unlock(0) && es[4] == Pop(0, 0)
      && es[5] == Probe(0) && es[6] == Open(0, false) && es[7] == EndRound(0) && es[8] == Wake(0, false)
  {
  }

  lemma FailedEnds(a: nat)
    ensures var s := Single(0, []);
      && Moved(s, Checked(a, map[], 0), Open(0, false)) == Popping(a, map[], true)
      && (a < MAX_RETRIES - 1 ==> Moved(s, Popping(a, map[], true), EndRound(0)) == Waiting(a))
      && Moved(s, Waiting(a), Wake(0, false)) == Looking(a + 1)
  {
  }

  lemma FailedMove(steps: seq<Step>, k: nat, c: Caller, d: Caller)
    requires k < |Failed()| && Run(1, steps + Failed()[..k]) == Single(0, [c]) && Moved(Single(0, []), c, Failed()[k]) == d
    ensures Run(1, steps + Failed()[..k + 1]) == Single(0, [d])
  {
    hide Run, Moved;
    SameGroupMoves(Single(0, []), [c], c, Failed()[k]);
    assert steps + Failed()[..k + 1] == steps + Failed()[..k] + [Failed()[k]];
    MovesOne(steps + Failed()[..k], Failed()[k], d, steps + Failed()[..k + 1]);
  }

  /** Up to popping, and up to the end of the attempt. */
  lemma FailedRound(steps: seq<Step>, a: nat)
    requires Run(1, steps) == Single(0, [Looking(a)])
    ensures Run(1, steps + Failed()[..4]) == Single(0, [Popping(a, map[0 := 0], false)])
    ensures a < MAX_RETRIES - 1 ==> Run(1, steps + Failed()) == Single(0, [Looking(a + 1)])
  {
    hide Run, Moved, Single, Failed;
    FailedSteps();
    var es := Failed();
    ApproachMoves(Single(0, []), 0, [], 0, a);
    FailedEnds(a);
    assert steps + es[..0] == steps;
    FailedMove(steps, 0, Looking(a), Ready(a, false));
    FailedMove(steps, 1, Ready(a, false), Scanning(a, false, {0}, map[]));
    FailedMove(steps, 2, Scanning(a, false, {0}, map[]), Scanning(a, false, {}, map[0 := 0]));
    FailedMove(steps, 3, Scanning(a, false, {}, map[0 := 0]), Popping(a, map[0 := 0], false));
    FailedMove(steps, 4, Popping(a, map[0 := 0], false), Probing(a, map[], false, 0));
    FailedMove(steps, 5, Probing(a, map[], false, 0), Checked(a, map[], 0));
    FailedMove(steps, 6, Checked(a, map[], 0), Popping(a, map[], true));
    if a < MAX_RETRIES - 1 {
      FailedMove(steps, 7, Popping(a, map[], true), Waiting(a));
      FailedMove(steps, 8, Waiting(a), Looking(a + 1));
      assert es[..9] == es;
    }
  }

  lemma StaleBuilt() returns (steps: seq<Step>)
    ensures Run(1, steps) == Single(0, [Popping(2, map[0 := 0], false)]) && Stale() == steps + [CloseSession(0)] + [Add(NEXT)] + [Pop(0, 0)] + [EndRound(0)]
  {
    hide Run, Moved, Failed;
    FirstState();
    AddsOne([], ONLY, [Add(ONLY)]);
    assert [Add(ONLY)] + [Call(0)] == [Add(ONLY), Call(0)];
    assert Run(1, [Add(ONLY)]) == Single(0, [Idle]);
    FailedStarts();
    MovesOne([Add(ONLY)], Call(0), Looking(0), [Add(ONLY), Call(0)]);
    FailedRound([Add(ONLY), Call(0)], 0);
    FailedRound([Add(ONLY), Call(0)] + Failed(), 1);
    FailedRound([Add(ONLY), Call(0)] + Failed() + Failed(), 2);
    FailedSteps();
    steps := [Add(ONLY), Call(0)] + Failed() + Failed() + Failed()[..4];
  }

  lemma FailedStarts()
    ensures forall s :: Moved(s, Idle, Call(0)) == Looking(0)
  {
  }

  /** The call returns the capacity error, with one session in the group, open and without a stream. */
  lemma CapacityErrorCanBeFalse()
    ensures var s := Run(1, Stale()); s.callers == [Returning(Err(AtCapacity))] && s.sessions == [Member(ONLY, false, 0), Member(NEXT, true, 0)]
    ensures Usable(Run(1, Stale()), false) == {1}
  {
    hide Run, Stale, Failed;
    var steps := StaleBuilt();
    var a := steps + [CloseSession(0)];
    ClosesOne(steps);
    var b := a + [Add(NEXT)];
    AddsOne(a, NEXT, b);
    assert map[0 := 0] - {0} == map[];
    MovesOne(b, Pop(0, 0), Popping(2, map[], false), b + [Pop(0, 0)]);
    MovesOne(b + [Pop(0, 0)], EndRound(0), Returning(Err(AtCapacity)), b + [Pop(0, 0)] + [EndRound(0)]);
    assert b + [Pop(0, 0)] + [EndRound(0)] == Stale();
    assert Run(1, Stale()).members[NEXT] == 1;
  }

  lemma ClosesOne(steps: seq<Step>)
    requires |Run(1, steps).sessions| == 1
    ensures Run(1, steps + [CloseSession(0)]) == Run(1, steps).(sessions := [Run(1, steps).sessions[0].(open := false)])
  {
    RunsOn(Initial(1), steps, CloseSession(0));
    hide RunFrom;
  }

  // ---------------------------------------------------------------- a closed group

  /** A session is added at this step. */
  ghost predicate Joins(s: State, e: Step) {
    e.Add? && e.name != "" && !Locked(s)
  }

  lemma EmptyNext(s: State, e: Step)
    requires s.members == map[]
    ensures Next(s, e).members == map[] <==> !Joins(s, e)
  {
    hide Moved, Locked;
    if Joins(s, e) {
      assert e.name in Next(s, e).members;
    }
  }

  /** The group is empty at every moment of these steps. */
  ghost predicate EmptyThroughout(s: State, after: seq<Step>) {
    forall k :: 0 <= k <= |after| ==> RunFrom(s, after[..k]).members == map[]
  }

  /** None of these steps adds a session. */
  ghost predicate NobodyJoins(s: State, after: seq<Step>) {
    forall m :: 0 <= m < |after| ==> !Joins(RunFrom(s, after[..m]), after[m])
  }

  lemma EmptyThroughoutNext(s: State, after: seq<Step>)
    requires after != []
    ensures EmptyThroughout(s, after) <==> EmptyThroughout(s, after[..|after| - 1]) && RunFrom(s, after).members == map[]
  {
    hide RunFrom;
    var init := after[..|after| - 1];
    assert after[..|after|] == after;
    assert forall k :: 0 <= k <= |init| ==> init[..k] == after[..k];
  }

  lemma NobodyJoinsNext(s: State, after: seq<Step>)
    requires after != []
    ensures NobodyJoins(s, after) <==> NobodyJoins(s, after[..|after| - 1]) && !Joins(RunFrom(s, after[..|after| - 1]), after[|after| - 1])
  {
    hide RunFrom, Joins;
    var init := after[..|after| - 1];
    assert forall m :: 0 <= m < |init| ==> init[..m] == after[..m] && init[m] == after[m];
    assert init == after[..|init|];
    if NobodyJoins(s, init) && !Joins(RunFrom(s, init), after[|init|]) {
      forall m | 0 <= m < |after| ensures !Joins(RunFrom(s, after[..m]), after[m]) {
        if m < |init| { assert !Joins(RunFrom(s, init[..m]), init[m]); }
      }
    }
    if NobodyJoins(s, after) {
      forall m | 0 <= m < |init| ensures !Joins(RunFrom(s, init[..m]), init[m]) {
        assert !Joins(RunFrom(s, after[..m]), after[m]);
      }
    }
  }

  /** An empty group stays empty if and only if nobody adds a session. */
  lemma {:induction false} StaysEmptyExactly(s: State, after: seq<Step>)
    requires s.members == map[]
    ensures EmptyThroughout(s, after) <==> NobodyJoins(s, after)
    ensures NobodyJoins(s, after) ==> RunFrom(s, after).members == map[]
  {
    hide Next, Joins, EmptyThroughout, NobodyJoins;
    if after == [] {
      NothingHappens(s);
    } else {
      var init := after[..|after| - 1];
      StaysEmptyExactly(s, init);
      EmptyThroughoutNext(s, after);
      NobodyJoinsNext(s, after);
      if NobodyJoins(s, init) { EmptyNext(RunFrom(s, init), after[|init|]); }
    }
  }

  lemma NothingHappens(s: State)
    requires s.members == map[]
    ensures EmptyThroughout(s, []) && NobodyJoins(s, [])
  {
  }

  lemma StopEmpties(s: State)
    requires !s.stopped && !Locked(s)
    ensures Next(s, Stop) == s.(members := map[], stopped := true)
  {
    hide Locked;
  }

  /**
   * `Close` of a group empties it, and it stays empty if and only if nobody adds a session afterwards, which
   * nothing prevents.
   */
  lemma ClosedStaysEmptyExactly(callers: nat, before: seq<Step>, after: seq<Step>)
    requires var s := Run(callers, before); !s.stopped && !Locked(s)
    ensures var s := Run(callers, before + [Stop]);
      s.stopped && s.members == map[] && (EmptyThroughout(s, after) <==> NobodyJoins(s, after))
  {
    RunsOn(Initial(callers), before, Stop);
    StopEmpties(Run(callers, before));
    StaysEmptyExactly(Run(callers, before + [Stop]), after);
  }

  /** A call that starts after the stop opens nothing, whatever is added. */
  ghost predicate TurnedAway(c: Caller) {
    c.Idle? || c.Looking? || c == Returning(Err(GroupClosed))
  }

  lemma TurnedAwayNext(s: State, e: Step, i: nat)
    requires i < |s.callers| && s.stopped && TurnedAway(s.callers[i])
    ensures Next(s, e).stopped && TurnedAway(Next(s, e).callers[i])
  {
    CallersAfter(s, e, i);
    hide Locked;
  }

  lemma {:induction false} ClosedTurnsAway(s: State, after: seq<Step>, i: nat)
    requires i < |s.callers| && s.stopped && TurnedAway(s.callers[i])
    ensures var t := RunFrom(s, after); i < |t.callers| && t.stopped && TurnedAway(t.callers[i])
  {
    hide Next, TurnedAway;
    if after != [] {
      RunIsLater(s, after[..|after| - 1]);
      ClosedTurnsAway(s, after[..|after| - 1], i);
      TurnedAwayNext(RunFrom(s, after[..|after| - 1]), after[|after| - 1], i);
      NextIsLater(RunFrom(s, after[..|after| - 1]), after[|after| - 1]);
    }
  }
}
