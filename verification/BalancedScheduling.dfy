/**
 * What least-loaded scheduling comes to over whole runs: from equal loads, successful opens spread
 * evenly, whichever least-loaded session each of them picks, and the run ends exactly when every
 * session is at the cap.
 */
module BalancedScheduling {
  import opened Collections
  import opened ConnectionGroup

  /** The loads after the streams `picks` were opened. */
  ghost function Loaded(ss: Sessions, picks: seq<string>): (r: Sessions)
    ensures r.Keys == ss.Keys && forall id :: id in ss ==> r[id].open == ss[id].open
  {
    if picks == [] then ss
    else
      var before, id := Loaded(ss, picks[..|picks| - 1]), picks[|picks| - 1];
      if id in before then before[id := before[id].(streams := before[id].streams + 1)] else before
  }

  /** `picks` are sessions that successive successful calls of `OpenStream` may choose. */
  ghost predicate Opens(ss: Sessions, picks: seq<string>) {
    picks != [] ==>
      && Opens(ss, picks[..|picks| - 1])
      && Chosen(Loaded(ss, picks[..|picks| - 1]), picks[|picks| - 1])
  }

  ghost function At(ss: Sessions, members: set<string>, load: nat): set<string> {
    set id | id in members && id in ss && ss[id].streams == load
  }

  /** `members` carry `q` streams each, but for `r < |members|` of them, which carry one more. */
  ghost predicate Level(ss: Sessions, members: set<string>, q: nat, r: nat) {
    && members <= ss.Keys && r < |members|
    && (forall id :: id in members ==> ss[id].streams == q || ss[id].streams == q + 1)
    && |At(ss, members, q + 1)| == r
    && q <= MAX_STREAMS_PER_SESSION && (q == MAX_STREAMS_PER_SESSION ==> r == 0)
  }

  lemma SubsetOfSameSize<T>(a: set<T>, b: set<T>)
    requires a <= b && |a| == |b|
    ensures a == b
  {
    assert |b - a| == |b| - |a|;
  }

  lemma LowerOne(ss: Sessions, members: set<string>, q: nat, r: nat) returns (low: string)
    requires Level(ss, members, q, r)
    ensures low in members && ss[low].streams == q
  {
    var high := At(ss, members, q + 1);
    assert |members - high| == |members| - r;
    low :| low in members - high;
  }

  /** A least-loaded member of a level group is one of the lower ones, and joins the higher ones. */
  lemma LevelStep(ss: Sessions, members: set<string>, q: nat, r: nat, id: string)
    requires Level(ss, members, q, r) && members == Candidates(ss) && Chosen(ss, id)
    ensures ss[id].streams == q && id in members
    ensures var after := OneMore(ss, id);
      if r + 1 < |members| then Level(after, members, q, r + 1) else Level(after, members, q + 1, 0)
  {
    var high := At(ss, members, q + 1);
    var low := LowerOne(ss, members, q, r);
    var after := OneMore(ss, id);
    assert At(after, members, q + 1) == high + {id};
    if r + 1 == |members| {
      SubsetOfSameSize(high + {id}, members);
      assert At(after, members, q + 2) == {};
    }
  }

  lemma LoadedStep(ss: Sessions, picks: seq<string>)
    requires picks != [] && Opens(ss, picks)
    ensures var before := Loaded(ss, picks[..|picks| - 1]);
      picks[|picks| - 1] in before && Loaded(ss, picks) == OneMore(before, picks[|picks| - 1])
  {
  }

  lemma SameEligible(ss: Sessions, picks: seq<string>, includePrimary: bool)
    ensures Eligible(Loaded(ss, picks), includePrimary) == Eligible(ss, includePrimary)
  {
  }

  /** From any loads: the lead of one candidate over another never grows beyond one stream. */
  lemma {:induction false} LeadNeverGrows(ss: Sessions, picks: seq<string>, a: string, b: string)
    requires Eligible(ss, false) != {} && a in Eligible(ss, false) && b in Eligible(ss, false)
    requires Opens(ss, picks)
    ensures var after := Loaded(ss, picks);
      && after[a].streams - after[b].streams <= Max(1, ss[a].streams - ss[b].streams)
      && after[a].streams <= Max(256, ss[a].streams)
  {
    if picks != [] {
      LeadNeverGrows(ss, picks[..|picks| - 1], a, b);
      SameEligible(ss, picks[..|picks| - 1], false);
      LoadedStep(ss, picks);
    }
  }

  // ---------------------------------------------------------------- even shares

  ghost function Share(k: nat, n: nat): nat
    requires n > 0
  {
    k / n
  }

  ghost function Rest(k: nat, n: nat): nat
    requires n > 0
  {
    k % n
  }

  ghost function Times(n: nat, q: nat): nat {
    n * q
  }

  lemma TimesNext(n: nat, q: nat)
    ensures Times(n, q + 1) == Times(n, q) + n && Times(n, 0) == 0
  {
  }

  lemma {:induction false} TimesGrows(n: nat, q: nat, p: nat)
    requires q < p
    ensures Times(n, q) + n <= Times(n, p)
    decreases p
  {
    hide Times;
    TimesNext(n, p - 1);
    if q < p - 1 {
      TimesGrows(n, q, p - 1);
    }
  }

  lemma ShareAndRest(k: nat, n: nat)
    requires n > 0
    ensures k == Times(n, Share(k, n)) + Rest(k, n) && Rest(k, n) < n
  {
  }

  lemma ShareIs(k: nat, n: nat, q: nat, r: nat)
    requires r < n && k == Times(n, q) + r
    ensures Share(k, n) == q && Rest(k, n) == r
  {
    hide Times, Share, Rest;
    ShareAndRest(k, n);
    if Share(k, n) < q {
      TimesGrows(n, Share(k, n), q);
    } else if q < Share(k, n) {
      TimesGrows(n, q, Share(k, n));
    }
  }

  /** After one more of `k` streams over `n` sessions, the even share goes up, or the rest does. */
  lemma ShareOfNext(k: nat, n: nat)
    requires n > 0
    ensures if Rest(k, n) + 1 < n then Share(k + 1, n) == Share(k, n) && Rest(k + 1, n) == Rest(k, n) + 1
            else Share(k + 1, n) == Share(k, n) + 1 && Rest(k + 1, n) == 0
  {
    hide Times, Share, Rest;
    var q, r := Share(k, n), Rest(k, n);
    ShareAndRest(k, n);
    if r + 1 < n {
      ShareIs(k + 1, n, q, r + 1);
    } else {
      TimesNext(n, q);
      ShareIs(k + 1, n, q + 1, 0);
    }
  }

  /** Rounding up the share of `k` gives one more exactly if there is a rest. */
  lemma ShareRoundedUp(k: nat, n: nat)
    requires n > 0
    ensures Share(k + n - 1, n) == Share(k, n) + if Rest(k, n) == 0 then 0 else 1
  {
    hide Times, Share, Rest;
    var q, r := Share(k, n), Rest(k, n);
    ShareAndRest(k, n);
    if r == 0 {
      ShareIs(k + n - 1, n, q, n - 1);
    } else {
      TimesNext(n, q);
      ShareIs(k + n - 1, n, q + 1, r - 1);
    }
  }

  lemma ShareOfRoom(k: nat, n: nat, room: nat)
    requires n > 0 && Share(k, n) <= room && (Share(k, n) == room ==> Rest(k, n) == 0)
    ensures k <= Times(n, room) && (k == Times(n, room) <==> Share(k, n) == room)
  {
    hide Times, Share, Rest;
    ShareAndRest(k, n);
    if Share(k, n) < room {
      TimesGrows(n, Share(k, n), room);
    }
  }

  // ---------------------------------------------------------------- the theorem

  /** Level with remainder `k % n`, at `k / n` above the common load `c` at the start. */
  ghost predicate LevelAfter(after: Sessions, members: set<string>, c: nat, k: nat) {
    members != {} && Level(after, members, c + Share(k, |members|), Rest(k, |members|))
  }

  lemma {:induction false} LevelRuns(ss: Sessions, picks: seq<string>, c: nat)
    requires Eligible(ss, false) != {} && c <= MAX_STREAMS_PER_SESSION
    requires forall id :: id in Eligible(ss, false) ==> ss[id].streams == c
    requires Opens(ss, picks)
    ensures LevelAfter(Loaded(ss, picks), Eligible(ss, false), c, |picks|)
    ensures forall id :: id in ss && id !in Eligible(ss, false) ==> Loaded(ss, picks)[id] == ss[id]
  {
    hide Share, Rest, Times;
    var members := Eligible(ss, false);
    if picks == [] {
      TimesNext(|members|, 0);
      ShareIs(0, |members|, 0, 0);
      assert At(ss, members, c + 1) == {};
    } else {
      var k := |picks| - 1;
      LevelRuns(ss, picks[..k], c);
      SameEligible(ss, picks[..k], false);
      LoadedStep(ss, picks);
      LevelNext(Loaded(ss, picks[..k]), members, c, k, picks[k]);
    }
  }

  lemma LevelNext(before: Sessions, members: set<string>, c: nat, k: nat, id: string)
    requires LevelAfter(before, members, c, k) && members == Candidates(before) && Chosen(before, id)
    ensures id in members && LevelAfter(OneMore(before, id), members, c, k + 1)
  {
    hide Share, Rest, Times, Level, Chosen, Candidates;
    LevelStep(before, members, c + Share(k, |members|), Rest(k, |members|), id);
    ShareOfNext(k, |members|);
  }

  /**
   * `k` streams have gone evenly to the `n` sessions `members`, which had `c` each: all of them carry
   * `c + floor(k/n)` or `c + ceil(k/n)`, and `k % n` of them more than `c + floor(k/n)`.
   */
  ghost predicate EvenlySpread(after: Sessions, members: set<string>, c: nat, k: nat)
    requires members != {} && members <= after.Keys
  {
    var n := |members|;
    && (forall id :: id in members ==> c + k / n <= after[id].streams <= c + (k + n - 1) / n)
    && |At(after, members, c + k / n + 1)| == k % n
  }

  lemma LevelIsEven(after: Sessions, members: set<string>, c: nat, k: nat)
    requires LevelAfter(after, members, c, k)
    ensures members <= after.Keys && EvenlySpread(after, members, c, k)
  {
    var n := |members|;
    ShareRoundedUp(k, n);
    assert k / n == Share(k, n) && k % n == Rest(k, n) && (k + n - 1) / n == Share(k + n - 1, n);
    LevelLoads(after, members, c + Share(k, n), Rest(k, n));
  }

  lemma LevelLoads(ss: Sessions, members: set<string>, q: nat, r: nat)
    requires Level(ss, members, q, r)
    ensures forall id :: id in members ==> q <= ss[id].streams <= q + if r == 0 then 0 else 1
  {
    forall id | id in members ensures q <= ss[id].streams <= q + if r == 0 then 0 else 1 {
      if r == 0 {
        assert id !in At(ss, members, q + 1);
      }
    }
  }

  lemma FullWhenLevel(ss: Sessions, members: set<string>, q: nat, r: nat)
    requires Level(ss, members, q, r) && members == Candidates(ss)
    ensures AllFull(ss) <==> q == 256
  {
    var low := LowerOne(ss, members, q, r);
  }

  lemma SameCandidates(ss: Sessions, picks: seq<string>)
    requires Eligible(ss, false) != {}
    ensures Candidates(Loaded(ss, picks)) == Eligible(ss, false)
  {
    SameEligible(ss, picks, false);
  }

  /**
   * Balanced scheduling.  From `n` open non-primary sessions with `c` streams each, `k` successful
   * opens are spread evenly over them; no other session, the primary among them, has gained a stream;
   * `k` never exceeds `(256 - c) * n`, and the next call finds every session full exactly when it is
   * equal.
   */
  lemma Balanced(ss: Sessions, picks: seq<string>, c: nat)
    requires Eligible(ss, false) != {} && c <= MAX_STREAMS_PER_SESSION
    requires forall id :: id in Eligible(ss, false) ==> ss[id].streams == c
    requires Opens(ss, picks)
    ensures EvenlySpread(Loaded(ss, picks), Eligible(ss, false), c, |picks|)
    ensures forall id :: id in ss && id !in Eligible(ss, false) ==> Loaded(ss, picks)[id] == ss[id]
    ensures |picks| <= Times(|Eligible(ss, false)|, 256 - c)
    ensures AllFull(Loaded(ss, picks)) <==> |picks| == Times(|Eligible(ss, false)|, 256 - c)
  {
    hide Share, Rest, Times, Level, Loaded, EvenlySpread, AllFull, Opens, Eligible, Candidates;
    var members, after, k := Eligible(ss, false), Loaded(ss, picks), |picks|;
    LevelRuns(ss, picks, c);
    SameCandidates(ss, picks);
    LevelIsEven(after, members, c, k);
    LevelWithinCap(after, members, c + Share(k, |members|), Rest(k, |members|));
    ShareOfRoom(k, |members|, MAX_STREAMS_PER_SESSION - c);
    FullWhenLevel(after, members, c + Share(k, |members|), Rest(k, |members|));
  }

  lemma LevelWithinCap(ss: Sessions, members: set<string>, q: nat, r: nat)
    requires Level(ss, members, q, r)
    ensures q <= 256 && (q == 256 ==> r == 0)
  {
  }

  // ---------------------------------------------------------------- the scheduler itself

  /** What one undisturbed call of `OpenStream` does to a run of opens. */
  lemma OpensNext(ss: Sessions, picks: seq<string>, after: Sessions, r: Result<string, Failure>)
    requires Opens(ss, picks) && Quiet(Loaded(ss, picks), after, r) && r.Ok?
    ensures Opens(ss, picks + [r.value]) && after == Loaded(ss, picks + [r.value])
  {
    hide Candidates, AllFull;
    var more := picks + [r.value];
    assert more[..|picks|] == picks && more[|picks|] == r.value;
    ChosenIsSession(Loaded(ss, picks), r.value);
    LoadedStep(ss, more);
  }

  lemma ChosenIsSession(ss: Sessions, id: string)
    requires Chosen(ss, id)
    ensures id in ss && ss[id].open
  {
  }

  /**
   * `OpenStream` called up to `limit` times on a group of equally loaded sessions, until it refuses: the
   * streams are spread evenly, and it refuses, with the capacity error, exactly when `(256 - c) * n`
   * streams are open.
   */
  method OpenUpTo(g: Group, limit: nat, c: nat) returns (count: nat, refusal: Option<Failure>)
    requires g.Valid() && !g.stopped && Eligible(g.sessions, false) != {} && c <= MAX_STREAMS_PER_SESSION
    requires forall id :: id in Eligible(g.sessions, false) ==> g.sessions[id].streams == c
    modifies g`sessions, g`heapPool
    ensures g.Valid() && old(Eligible(g.sessions, false)) <= g.sessions.Keys
    ensures count == Min(limit, Times(|old(Eligible(g.sessions, false))|, 256 - c))
    ensures refusal == if count < limit then Some(AtCapacity) else None
    ensures EvenlySpread(g.sessions, old(Eligible(g.sessions, false)), c, count)
    ensures forall id :: id in old(g.sessions) && id !in old(Eligible(g.sessions, false)) ==> id in g.sessions && g.sessions[id] == old(g.sessions)[id]
  {
    hide Share, Rest, Times, Loaded, EvenlySpread, AllFull, Opens, Quiet, Eligible, Candidates;
    ghost var first, picks := g.sessions, [];
    NothingOpened(first);
    count, refusal := 0, None;
    while count < limit
      invariant g.Valid() && refusal == None
      invariant count == |picks| <= limit && Opens(first, picks) && g.sessions == Loaded(first, picks)
      decreases limit - count
    {
      Balanced(first, picks, c);
      SameCandidates(first, picks);
      ghost var before := g.sessions;
      var r, refused := g.OpenStream(_ => Opened, _ => false);
      NeverRefuses();
      QuietOutcome(before, g.sessions, r);
      if r.Err? {
        refusal := Some(r.error);
        break;
      }
      OpensNext(first, picks, g.sessions, r);
      picks := picks + [r.value];
      count := count + 1;
    }
    Balanced(first, picks, c);
    EligibleLoaded(first, picks);
  }

  lemma NothingOpened(ss: Sessions)
    ensures Opens(ss, []) && Loaded(ss, []) == ss
  {
  }

  lemma NeverRefuses()
    ensures AllOpen((k: nat) => Opened)
  {
  }

  lemma EligibleLoaded(ss: Sessions, picks: seq<string>)
    ensures Eligible(ss, false) <= ss.Keys == Loaded(ss, picks).Keys
  {
  }

  lemma QuietOutcome(before: Sessions, after: Sessions, r: Result<string, Failure>)
    requires Quiet(before, after, r) && Candidates(before) != {}
    ensures r.Err? ==> r == Err(AtCapacity) && AllFull(before) && after == before
    ensures r.Ok? ==> !AllFull(before)
  {
    hide Candidates, AllFull;
    match r {
      case Ok(id) => ChosenIsBelowCap(before, id);
      case Err(e) => assert e == AtCapacity || e == GroupClosed || e == OpenFailed;
    }
  }

  lemma ChosenIsBelowCap(ss: Sessions, id: string)
    requires Chosen(ss, id)
    ensures !AllFull(ss)
  {
  }

  function NamesOf(ids: seq<string>): (names: set<string>)
    ensures ids != [] ==> names != {}
  {
    var names := set id | id in ids;
    assert ids != [] ==> ids[0] in names;
    names
  }

  /** A new group with fresh sessions only: opens spread evenly counting from empty. */
  method SpreadFromEmpty(ids: seq<string>, limit: nat) returns (g: Group, count: nat, refusal: Option<Failure>)
    requires ids != [] && forall id :: id in ids ==> id != "" && id != PRIMARY
    ensures fresh(g) && g.Valid() && NamesOf(ids) <= g.sessions.Keys
    ensures count == Min(limit, Times(|NamesOf(ids)|, 256))
    ensures refusal == if count < limit then Some(AtCapacity) else None
    ensures EvenlySpread(g.sessions, NamesOf(ids), 0, count)
  {
    g := new Group();
    for i := 0 to |ids|
      invariant g.Valid() && !g.stopped && fresh(g)
      invariant g.sessions.Keys == NamesOf(ids[..i])
      invariant forall id :: id in g.sessions ==> g.sessions[id] == Session(true, 0)
    {
      assert ids[i] in ids;
      g.AddSession(ids[i], 0);
      assert ids[..i + 1] == ids[..i] + [ids[i]];
    }
    assert ids[..|ids|] == ids;
    assert ids[0] in g.sessions;
    assert Eligible(g.sessions, false) == NamesOf(ids);
    count, refusal := OpenUpTo(g, limit, 0);
  }
}
