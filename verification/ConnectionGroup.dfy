/**
 * The stream scheduler of a connection group: `OpenStream` takes the least-loaded open session below
 * the cap from a heap, falls back to the primary, and retries.
 */
module ConnectionGroup {
  import opened Collections
  import opened SessionHeap

  const MAX_STREAMS_PER_SESSION := 256
  const MAX_RETRIES := 3
  const PRIMARY := "primary"

  datatype Session = Session(open: bool, streams: nat)

  type Sessions = map<string, Session>

  datatype Failure = GroupClosed | AtCapacity | OpenFailed

  /** What one `session.Open()` does. */
  datatype Outcome = Opened | Refused | RefusedAndClosed

  /** How one attempt ends. */
  datatype Attempt = NoSessions | Won(id: string) | AllFailed(anyUnderCap: bool)

  /** The open sessions, with or without the primary. */
  ghost function Eligible(ss: Sessions, includePrimary: bool): set<string> {
    set id | id in ss && ss[id].open && (includePrimary || id != PRIMARY)
  }

  /** The sessions a stream may go to: the primary only if there is no other. */
  ghost function Candidates(ss: Sessions): set<string> {
    if Eligible(ss, false) != {} then Eligible(ss, false) else Eligible(ss, true)
  }

  /** A least-loaded candidate below the cap. */
  ghost predicate Chosen(ss: Sessions, id: string) {
    && id in Candidates(ss) && ss[id].streams < MAX_STREAMS_PER_SESSION
    && forall other :: other in Candidates(ss) ==> ss[id].streams <= ss[other].streams
  }

  function OneMore(ss: Sessions, id: string): Sessions
    requires id in ss
  {
    ss[id := Session(true, ss[id].streams + 1)]
  }

  /** The heap slice holds exactly the eligible sessions, each once, with its load. */
  ghost predicate Represents(h: seq<Entry>, ss: Sessions, ids: set<string>) {
    && (forall e :: e in h ==> e.id in ids && e.id in ss && e.streams == ss[e.id].streams)
    && (forall id :: id in ids && id in ss ==> Entry(id, ss[id].streams) in h)
    && (forall e :: multiset(h)[e] <= 1)
  }

  class Group {
    var sessions: Sessions
    var heapPool: seq<seq<Entry>>
    var stopped: bool

    /** Only empty slices go back to the pool. */
    ghost predicate Valid()
      reads this
    {
      forall i :: 0 <= i < |heapPool| ==> heapPool[i] == []
    }

    constructor ()
      ensures Valid() && sessions == map[] && !stopped
    {
      sessions, heapPool, stopped := map[], [], false;
    }

    method AddSession(id: string, streams: nat)
      modifies this`sessions
      ensures sessions == if id == "" then old(sessions) else old(sessions)[id := Session(true, streams)]
    {
      if id != "" {
        sessions := sessions[id := Session(true, streams)];
      }
    }

    method RemoveSession(id: string)
      modifies this`sessions
      ensures sessions == if id == "" then old(sessions) else old(sessions) - {id}
    {
      if id != "" {
        sessions := sessions - {id};
      }
    }

    /** `Close`: once; the group is left without sessions. */
    method Close()
      modifies this`sessions, this`stopped
      ensures stopped && sessions == if old(stopped) then old(sessions) else map[]
    {
      if !stopped {
        stopped := true;
        sessions := map[];
      }
    }

    method DeleteClosedSessions()
      modifies this`sessions
      ensures sessions == map id | id in old(sessions) && old(sessions)[id].open :: old(sessions)[id]
    {
      var todo := sessions.Keys;
      ghost var before := sessions;
      while todo != {}
        invariant todo <= before.Keys && sessions.Keys <= before.Keys
        invariant forall id :: id in sessions ==> sessions[id] == before[id]
        invariant forall id :: id in before ==> (id in sessions <==> id in todo || before[id].open)
        decreases |todo|
      {
        var id :| id in todo;
        todo := todo - {id};
        if !sessions[id].open {
          sessions := sessions - {id};
        }
      }
    }

    /** `sessionHeapPool.Get`: some slice that was put back, or a new empty one. */
    method GetSlice() returns (slice: seq<Entry>)
      requires Valid()
      modifies this`heapPool
      ensures Valid() && slice == []
    {
      if heapPool == [] {
        return [];
      }
      slice := heapPool[|heapPool| - 1];
      heapPool := heapPool[..|heapPool| - 1];
    }

    method BuildSessionHeap(includePrimary: bool) returns (h: Heap)
      requires Valid()
      modifies this`heapPool
      ensures Valid() && fresh(h) && IsHeap(h.h)
      ensures Represents(h.h, sessions, Eligible(sessions, includePrimary))
      ensures h.h == [] <==> Eligible(sessions, includePrimary) == {}
    {
      var slice := GetSlice();
      if |sessions| == 0 {
        h := new Heap(slice);
        return;
      }
      slice := slice[..0];
      var todo := sessions.Keys;
      while todo != {}
        invariant todo <= sessions.Keys && Valid()
        invariant Represents(slice, sessions, Eligible(sessions, includePrimary) - todo)
        decreases |todo|
      {
        var id :| id in todo;
        ghost var before := todo;
        todo := todo - {id};
        if sessions[id].open && (id != PRIMARY || includePrimary) {
          RepresentsAdd(slice, sessions, Eligible(sessions, includePrimary) - before, id);
          assert Eligible(sessions, includePrimary) - todo == Eligible(sessions, includePrimary) - before + {id};
          slice := slice + [Entry(id, sessions[id].streams)];
        } else {
          assert Eligible(sessions, includePrimary) - todo == Eligible(sessions, includePrimary) - before;
        }
      }
      h := new Heap(slice);
      h.Init();
      SamePermuted(slice, h.h, sessions, Eligible(sessions, includePrimary));
      RepresentsEmpty(h.h, sessions, Eligible(sessions, includePrimary));
    }

    /** A failed `session.Open()`; if it found the session closed, closed sessions are dropped. */
    method Refuse(id: string, result: Outcome)
      requires id in sessions && sessions[id].open && result != Opened
      modifies this`sessions
      ensures result == Refused ==> sessions == old(sessions)
      ensures result == RefusedAndClosed ==> sessions == Base(old(sessions), {id})
    {
      if result == RefusedAndClosed {
        sessions := sessions[id := sessions[id].(open := false)];
        DeleteClosedSessions();
      }
    }

    /**
     * The inner loop of `OpenStream`: pops sessions until one opens a stream.  `outcome(from + j)` is what
     * the j-th `session.Open()` of this loop does; `asks` are the sessions it was called on, in order.
     */
    method TryHeap(h: Heap, includePrimary: bool, outcome: nat -> Outcome, from: nat)
      returns (winner: Option<string>, anyUnderCap: bool, k: nat, ghost asks: seq<string>)
      requires Represents(h.h, sessions, Eligible(sessions, includePrimary)) && IsHeap(h.h)
      modifies this`sessions, h
      ensures k == from + |asks| + (if winner.Some? then 1 else 0) && (anyUnderCap <==> asks != [] || winner.Some?)
      ensures winner.None? ==> Tried(old(sessions), sessions, old(Eligible(sessions, includePrimary)), asks, outcome, from)
      ensures winner.Some? ==> outcome(from + |asks|) == Opened
                               && OpenedIn(old(sessions), sessions, winner.value, asks, outcome, from, includePrimary)
    {
      hide Represents, IsHeap, Base, Tried, OpenedIn, Eligible;
      ghost var before, eligible := sessions, Eligible(sessions, includePrimary);
      ghost var gone := {};
      winner, anyUnderCap, k, asks := None, false, from, [];
      TriedNone(before, outcome, from);
      assert eligible - gone == eligible;
      while h.h != []
        invariant IsHeap(h.h) && gone <= eligible && Represents(h.h, before, eligible - gone)
        invariant Tried(before, sessions, gone, asks, outcome, from) && k == from + |asks|
        invariant anyUnderCap <==> asks != []
        decreases |h.h|
      {
        ghost var popping, popped := h.h, gone;
        var entry := h.Pop();
        var id := entry.id;
        PoppedNext(popping, h.h, before, sessions, popped, includePrimary, asks, outcome, from, entry);
        gone := gone + {id};
        if id !in sessions || !sessions[id].open {
          continue;
        }
        if sessions[id].streams >= MAX_STREAMS_PER_SESSION {
          TriedFull(before, sessions, popped, asks, outcome, from, id);
          continue;
        }
        anyUnderCap := true;
        var result := outcome(k);
        k := k + 1;
        if result == Opened {
          TriedAndOpened(before, sessions, popped, asks, outcome, from, id, includePrimary);
          sessions := sessions[id := Session(true, sessions[id].streams + 1)];
          winner := Some(id);
          h.h := [];
          return;
        }
        ghost var asked := sessions;
        Refuse(id, result);
        TriedRefused(before, asked, sessions, popped, asks, outcome, from, id);
        asks := asks + [id];
      }
      AllPopped(h.h, before, gone, includePrimary);
    }

    /** One attempt of `OpenStream`: a fresh heap, the primary in it only if there is nothing else. */
    method TryOnce(outcome: nat -> Outcome, from: nat) returns (a: Attempt, k: nat, ghost more: seq<string>)
      requires Valid()
      modifies this`sessions, this`heapPool
      ensures Valid() && k == from + |more| + (if a.Won? then 1 else 0)
      ensures a.NoSessions? <==> old(Candidates(sessions)) == {}
      ensures a.NoSessions? ==> sessions == old(sessions) && more == []
      ensures a.Won? ==> outcome(from + |more|) == Opened
                         && OpenedIn(old(sessions), sessions, a.id, more, outcome, from, old(Eligible(sessions, false)) == {})
      ensures a.AllFailed? ==> Tried(old(sessions), sessions, old(Candidates(sessions)), more, outcome, from) && (a.anyUnderCap <==> more != [])
    {
      hide Represents, IsHeap, Base, Tried, OpenedIn, Candidates, Eligible;
      more, k := [], from;
      CandidatesAre(sessions);
      var includePrimary := false;
      var h := BuildSessionHeap(false);
      if h.h == [] {
        includePrimary := true;
        h := BuildSessionHeap(true);
      }
      if h.h == [] {
        return NoSessions, k, more;
      }
      var winner, anyUnderCap;
      winner, anyUnderCap, k, more := TryHeap(h, includePrimary, outcome, from);
      heapPool := heapPool + [[]];
      a := if winner.Some? then Won(winner.value) else AllFailed(anyUnderCap);
    }

    /**
     * `OpenStream`: up to three attempts, each over a fresh heap.  `stops(i)` is whether the stop channel
     * is closed at the i-th look at it, `outcome(j)` what the j-th `session.Open()` does, and `asks` the
     * sessions it was called on, in order.
     */
    method OpenStream(outcome: nat -> Outcome, stops: nat -> bool) returns (r: Result<string, Failure>, ghost asks: seq<string>)
      requires Valid() && (stopped ==> forall i: nat :: stops(i))
      modifies this`sessions, this`heapPool
      ensures Valid()
      // which open succeeds
      ensures forall j :: 0 <= j < |asks| ==> (outcome(j) == Opened <==> r.Ok? && j == |asks| - 1)
      ensures r.Ok? ==> asks != [] && r.value == asks[|asks| - 1]
      // what it does to the sessions
      ensures (forall j :: 0 <= j < |asks| ==> outcome(j) != RefusedAndClosed) ==>
                sessions == if r.Ok? && r.value in old(sessions) then OneMore(old(sessions), r.value) else old(sessions)
      ensures (exists j :: 0 <= j < |asks| && outcome(j) == RefusedAndClosed) ==>
                && (forall id :: id in sessions <==> (id in old(sessions) && old(sessions)[id].open && NeverLost(asks, outcome, id)))
                && (forall id :: id in sessions ==> sessions[id] == Session(true, old(sessions)[id].streams + if r == Ok(id) then 1 else 0))
      // whom it chooses
      ensures r.Ok? ==> StreamOpened(old(sessions), sessions, r.value, RefusedOf(asks, outcome))
      ensures r == Ok(PRIMARY) ==> Eligible(sessions, false) == {}
      // when it gives up
      ensures stops(0) ==> r == Err(GroupClosed) && asks == []
      ensures r == Err(GroupClosed) ==> Candidates(sessions) == {} || exists i: nat :: i < 5 && stops(i)
      ensures !stops(0) && old(Candidates(sessions)) == {} ==> r == Err(GroupClosed) && asks == []
      ensures r == Err(AtCapacity) || r == Err(OpenFailed) ==> forall i: nat :: i < 5 ==> !stops(i)
      ensures r == Err(AtCapacity) || r == Err(OpenFailed) ==>
                forall id :: id in Eligible(sessions, false) && sessions[id].streams < 256 ==> Count(asks, id) == 3
      ensures r == Err(AtCapacity) ==> AllFull(sessions)
      ensures r == Err(OpenFailed) ==> asks != []
      ensures AllOpen(outcome) && (forall i: nat :: !stops(i)) ==> Quiet(old(sessions), sessions, r)
    {
      hide Base, Tried, OpenedIn, StreamOpened, Candidates, Eligible, AllFull, Chosen, OneMore, AllOpen, Lost, RefusedOf, Count, AskedEach, NeverLost;
      asks := [];
      var k := 0;
      var lastErr := OpenFailed;
      ghost var first := sessions;
      NothingAsked(first, outcome);
      for attempt := 0 to MAX_RETRIES
        invariant Valid() && k == |asks| && sessions == Base(first, Lost(asks, outcome, 0))
        invariant NoneOpened(outcome, 0, |asks|)
        invariant AskedEach(sessions, asks, attempt)
        invariant asks == [] ==> sessions == first
        invariant attempt == 0 ==> asks == []
        invariant forall i: nat :: i < 2 * attempt && i < 2 * MAX_RETRIES - 1 ==> !stops(i)
        invariant attempt > 0 ==> Candidates(first) != {}
        invariant lastErr != GroupClosed && (lastErr == AtCapacity ==> AllFull(sessions)) && (attempt > 0 && lastErr == OpenFailed ==> asks != [])
        invariant attempt > 0 && asks == [] ==> lastErr == AtCapacity && AllFull(first)
      {
        FailedNotAllOpen(outcome, 0, |asks|);
        if stops(2 * attempt) {
          r := Err(GroupClosed);
          CallOver(first, sessions, asks, outcome);
          return;
        }
        ghost var before := sessions;
        CandidatesAre(before);
        var tried, next, more := TryOnce(outcome, k);
        k := next;
        if tried.NoSessions? {
          NotFull(first);
          r := Err(GroupClosed);
          CallOver(first, sessions, asks, outcome);
          return;
        }
        if tried.Won? {
          OpenedOverall(first, before, sessions, asks, more, outcome, tried.id, Eligible(before, false) == {});
          asks := asks + more + [tried.id];
          r := Ok(tried.id);
          return;
        }
        RefusedMore(first, before, sessions, asks, more, outcome, Candidates(before), attempt);
        asks := asks + more;
        lastErr := if tried.anyUnderCap then OpenFailed else AtCapacity;
        if attempt < MAX_RETRIES - 1 && stops(2 * attempt + 1) {
          r := Err(GroupClosed);
          CallOver(first, sessions, asks, outcome);
          return;
        }
      }
      FailedNotAllOpen(outcome, 0, |asks|);
      NotFull(first);
      r := Err(lastErr);
      CallOver(first, sessions, asks, outcome);
      EachAsked(sessions, asks, MAX_RETRIES);
    }
  }

  /** What a call comes to when no stop is seen and every `session.Open()` succeeds. */
  ghost predicate Quiet(before: Sessions, after: Sessions, r: Result<string, Failure>) {
    && (r == Err(GroupClosed) <==> Candidates(before) == {})
    && (r == Err(AtCapacity) <==> AllFull(before))
    && r != Err(OpenFailed)
    && (r.Err? ==> after == before)
    && (r.Ok? ==> Chosen(before, r.value) && after == OneMore(before, r.value))
  }

  ghost predicate AllOpen(outcome: nat -> Outcome) {
    forall k: nat :: outcome(k) == Opened
  }

  /** The sessions once those in `lost` were found closed when asked: they and all closed ones are dropped. */
  ghost function Base(before: Sessions, lost: set<string>): Sessions {
    if lost == {} then before else map id | id in before && before[id].open && id !in lost :: before[id]
  }

  /** The sessions found closed when asked. */
  ghost function Lost(asks: seq<string>, outcome: nat -> Outcome, from: nat): set<string> {
    set j | 0 <= j < |asks| && outcome(from + j) == RefusedAndClosed :: asks[j]
  }

  /** The sessions that failed when asked. */
  ghost function RefusedOf(asks: seq<string>, outcome: nat -> Outcome): set<string> {
    set j | 0 <= j < |asks| && outcome(j) != Opened :: asks[j]
  }

  /** No ask of this session found it closed. */
  ghost predicate NeverLost(asks: seq<string>, outcome: nat -> Outcome, id: string) {
    forall j :: 0 <= j < |asks| && asks[j] == id ==> outcome(j) != RefusedAndClosed
  }

  ghost predicate NoneOpened(outcome: nat -> Outcome, from: nat, count: nat) {
    forall k :: from <= k < from + count ==> outcome(k) != Opened
  }

  /** The popped sessions `gone` were full, or asked once and failed. */
  ghost predicate Tried(before: Sessions, after: Sessions, gone: set<string>, asks: seq<string>, outcome: nat -> Outcome, from: nat) {
    && after == Base(before, Lost(asks, outcome, from)) && gone <= before.Keys
    && (forall i, j :: 0 <= i < j < |asks| ==> asks[i] != asks[j])
    && (forall j :: 0 <= j < |asks| ==> asks[j] in gone) && NoneOpened(outcome, from, |asks|)
    && (forall id :: id in gone ==> (id in asks <==> before[id].streams < MAX_STREAMS_PER_SESSION))
  }

  /** Open data sessions below the cap were asked in each of these attempts. */
  ghost predicate AskedEach(ss: Sessions, asks: seq<string>, attempts: nat) {
    forall id :: id in Eligible(ss, false) && ss[id].streams < MAX_STREAMS_PER_SESSION ==> Count(asks, id) == attempts
  }

  lemma EachAsked(ss: Sessions, asks: seq<string>, attempts: nat)
    requires AskedEach(ss, asks, attempts)
    ensures forall id :: id in Eligible(ss, false) && ss[id].streams < MAX_STREAMS_PER_SESSION ==> Count(asks, id) == attempts
  {
  }

  lemma TriedNone(before: Sessions, outcome: nat -> Outcome, from: nat)
    ensures Tried(before, before, {}, [], outcome, from)
  {
  }

  lemma NothingAsked(before: Sessions, outcome: nat -> Outcome)
    ensures Base(before, Lost([], outcome, 0)) == before && AskedEach(before, [], 0)
  {
  }

  lemma BaseTwice(before: Sessions, lost: set<string>, more: set<string>)
    ensures Base(Base(before, lost), more) == Base(before, lost + more)
  {
  }

  lemma LostConcat(a: seq<string>, b: seq<string>, outcome: nat -> Outcome, from: nat)
    ensures Lost(a + b, outcome, from) == Lost(a, outcome, from) + Lost(b, outcome, from + |a|)
  {
    forall id | id in Lost(b, outcome, from + |a|) ensures id in Lost(a + b, outcome, from) {
      var j :| 0 <= j < |b| && outcome(from + |a| + j) == RefusedAndClosed && b[j] == id;
      assert (a + b)[|a| + j] == id && outcome(from + (|a| + j)) == RefusedAndClosed;
    }
    forall id | id in Lost(a, outcome, from) ensures id in Lost(a + b, outcome, from) {
      var j :| 0 <= j < |a| && outcome(from + j) == RefusedAndClosed && a[j] == id;
      assert (a + b)[j] == id;
    }
    forall id | id in Lost(a + b, outcome, from) ensures id in Lost(a, outcome, from) || id in Lost(b, outcome, from + |a|) {
      var j :| 0 <= j < |a + b| && outcome(from + j) == RefusedAndClosed && (a + b)[j] == id;
      if j >= |a| {
        assert b[j - |a|] == id && outcome(from + |a| + (j - |a|)) == RefusedAndClosed;
      }
    }
  }

  /** The popped session is a least-loaded one of those still waiting, and nothing has changed it. */
  lemma PoppedNext(h: seq<Entry>, rest: seq<Entry>, before: Sessions, now: Sessions, gone: set<string>, includePrimary: bool,
                   asks: seq<string>, outcome: nat -> Outcome, from: nat, e: Entry)
    requires Represents(h, before, Eligible(before, includePrimary) - gone) && gone <= Eligible(before, includePrimary)
    requires multiset(rest) + multiset{e} == multiset(h) && forall f :: f in h ==> e.streams <= f.streams
    requires Tried(before, now, gone, asks, outcome, from)
    ensures var eligible := Eligible(before, includePrimary);
      && e.id in eligible && e.id !in gone && Represents(rest, before, eligible - (gone + {e.id})) && |rest| < |h|
      && e.id in before && e.id in now && now[e.id] == before[e.id] && now[e.id].open
      && forall other :: other in eligible - gone ==> other in before && before[e.id].streams <= before[other].streams
  {
    var left := Eligible(before, includePrimary) - gone;
    RepresentsPop(h, rest, before, left, e);
    LeastOfRest(h, before, left, e);
    assert left - {e.id} == Eligible(before, includePrimary) - (gone + {e.id});
  }

  lemma AllPopped(h: seq<Entry>, before: Sessions, gone: set<string>, includePrimary: bool)
    requires h == [] && gone <= Eligible(before, includePrimary) && Represents(h, before, Eligible(before, includePrimary) - gone)
    ensures gone == Eligible(before, includePrimary)
  {
    RepresentsEmpty(h, before, Eligible(before, includePrimary) - gone);
  }

  lemma TriedFull(before: Sessions, now: Sessions, gone: set<string>, asks: seq<string>, outcome: nat -> Outcome, from: nat, id: string)
    requires Tried(before, now, gone, asks, outcome, from) && id !in gone && id in before && before[id].streams >= MAX_STREAMS_PER_SESSION
    ensures Tried(before, now, gone + {id}, asks, outcome, from)
  {
  }

  lemma TriedRefused(before: Sessions, asked: Sessions, after: Sessions, gone: set<string>, asks: seq<string>,
                     outcome: nat -> Outcome, from: nat, id: string)
    requires Tried(before, asked, gone, asks, outcome, from) && id !in gone && id in before && before[id].streams < MAX_STREAMS_PER_SESSION
    requires outcome(from + |asks|) != Opened
    requires after == if outcome(from + |asks|) == RefusedAndClosed then Base(asked, {id}) else asked
    ensures Tried(before, after, gone + {id}, asks + [id], outcome, from)
  {
    hide Base, Lost;
    LostConcat(asks, [id], outcome, from);
    LostOne(id, outcome, from + |asks|);
    BaseTwice(before, Lost(asks, outcome, from), {id});
    assert Lost(asks, outcome, from) + {} == Lost(asks, outcome, from);
  }

  lemma LostOne(id: string, outcome: nat -> Outcome, from: nat)
    ensures Lost([id], outcome, from) == if outcome(from) == RefusedAndClosed then {id} else {}
  {
    if outcome(from) == RefusedAndClosed {
      assert [id][0] == id && outcome(from + 0) == RefusedAndClosed;
    }
  }

  lemma TriedAndOpened(before: Sessions, now: Sessions, gone: set<string>, asks: seq<string>, outcome: nat -> Outcome, from: nat,
                       id: string, includePrimary: bool)
    requires Tried(before, now, gone, asks, outcome, from) && gone <= Eligible(before, includePrimary)
    requires id in Eligible(before, includePrimary) && id !in gone && id in now && now[id] == before[id] && now[id].open
    requires now[id].streams < MAX_STREAMS_PER_SESSION
    requires forall other :: other in Eligible(before, includePrimary) - gone ==> before[id].streams <= before[other].streams
    ensures OpenedIn(before, now[id := Session(true, now[id].streams + 1)], id, asks, outcome, from, includePrimary)
  {
  }

  lemma CandidatesAre(ss: Sessions)
    ensures Candidates(ss) == Eligible(ss, Eligible(ss, false) == {}) <= ss.Keys
    ensures Candidates(ss) == {} ==> Eligible(ss, true) == {}
  {
  }

  lemma NotFull(ss: Sessions)
    ensures Candidates(ss) == {} ==> !AllFull(ss)
  {
  }

  // ---------------------------------------------------------------- facts about heap slices

  lemma RepresentsAdd(h: seq<Entry>, ss: Sessions, ids: set<string>, id: string)
    requires Represents(h, ss, ids) && id !in ids && id in ss
    ensures Represents(h + [Entry(id, ss[id].streams)], ss, ids + {id})
  {
    var e := Entry(id, ss[id].streams);
    assert e !in h;
    assert multiset(h + [e]) == multiset(h) + multiset{e};
  }

  lemma SamePermuted(g: seq<Entry>, h: seq<Entry>, ss: Sessions, ids: set<string>)
    requires Represents(g, ss, ids) && multiset(g) == multiset(h)
    ensures Represents(h, ss, ids)
  {
    forall e ensures e in g <==> e in h {
      assert e in g <==> e in multiset(g);
      assert e in h <==> e in multiset(h);
    }
  }

  lemma RepresentsEmpty(h: seq<Entry>, ss: Sessions, ids: set<string>)
    requires Represents(h, ss, ids) && ids <= ss.Keys
    ensures h == [] <==> ids == {}
  {
    if h != [] {
      assert h[0].id in ids;
    }
    if ids != {} {
      var id :| id in ids;
      assert Entry(id, ss[id].streams) in h;
    }
  }

  /** Popping one entry leaves the representation of the others. */
  lemma RepresentsPop(before: seq<Entry>, after: seq<Entry>, ss: Sessions, ids: set<string>, e: Entry)
    requires Represents(before, ss, ids) && multiset(after) + multiset{e} == multiset(before)
    ensures e in before && e.id in ids && Represents(after, ss, ids - {e.id}) && |after| < |before|
  {
    assert e in multiset(before);
    assert |multiset(after)| == |after| && |multiset(before)| == |before|;
    forall f ensures f in after <==> f in before && f != e {
      assert f in after <==> f in multiset(after);
      assert f in before <==> f in multiset(before);
      assert multiset(before)[f] == multiset(after)[f] + multiset{e}[f];
    }
    forall f ensures multiset(after)[f] <= 1 {
      assert multiset(before)[f] <= 1;
    }
  }

  lemma LeastOfRest(h: seq<Entry>, ss: Sessions, ids: set<string>, e: Entry)
    requires Represents(h, ss, ids) && ids <= ss.Keys && e in h && forall f :: f in h ==> e.streams <= f.streams
    ensures forall other :: other in ids ==> ss[e.id].streams <= ss[other].streams
  {
    forall other | other in ids ensures ss[e.id].streams <= ss[other].streams {
      assert Entry(other, ss[other].streams) in h;
    }
  }

  ghost predicate AllFull(ss: Sessions) {
    Candidates(ss) != {} && forall id :: id in Candidates(ss) ==> ss[id].streams >= MAX_STREAMS_PER_SESSION
  }

  /** An open session of the same kind with less load. */
  ghost predicate LessLoaded(ss: Sessions, other: string, id: string)
    requires other in ss && id in ss
  {
    ss[other].open && (id != PRIMARY ==> other != PRIMARY) && ss[other].streams < ss[id].streams
  }

  /**
   * A successful call: one open session below the cap carries one more stream, nothing else gains
   * load, and every other candidate of the same kind with less load had refused.
   */
  ghost predicate StreamOpened(before: Sessions, after: Sessions, id: string, refused: set<string>) {
    && id in before && before[id].open && before[id].streams < MAX_STREAMS_PER_SESSION
    && id in after && after[id] == Session(true, before[id].streams + 1)
    && after.Keys <= before.Keys
    && (forall other :: other in after && other != id ==>
          after[other].streams == before[other].streams && (after[other].open ==> before[other].open))
    && (forall other :: other in before && before[other].open && other !in refused && other != id ==> other in after && after[other] == before[other])
    && (forall other :: other in before && LessLoaded(before, other, id) ==> other in refused)
  }

  /** What the sessions are when a call has ended without a stream. */
  lemma CallOver(first: Sessions, after: Sessions, asks: seq<string>, outcome: nat -> Outcome)
    requires after == Base(first, Lost(asks, outcome, 0))
    ensures (forall j :: 0 <= j < |asks| ==> outcome(j) != RefusedAndClosed) ==> after == first
    ensures (exists j :: 0 <= j < |asks| && outcome(j) == RefusedAndClosed) ==>
              && (forall id :: id in after <==> (id in first && first[id].open && NeverLost(asks, outcome, id)))
              && forall id :: id in after ==> after[id] == first[id]
  {
    var lost := Lost(asks, outcome, 0);
    if j :| 0 <= j < |asks| && outcome(j) == RefusedAndClosed {
      assert outcome(0 + j) == RefusedAndClosed;
      assert asks[j] in lost;
    }
    LostExactly(asks, outcome);
  }

  lemma LostExactly(asks: seq<string>, outcome: nat -> Outcome)
    ensures forall id :: id !in Lost(asks, outcome, 0) <==> forall j :: 0 <= j < |asks| && asks[j] == id ==> outcome(j) != RefusedAndClosed
  {
    forall id | id !in Lost(asks, outcome, 0) ensures forall j :: 0 <= j < |asks| && asks[j] == id ==> outcome(j) != RefusedAndClosed {
      forall j | 0 <= j < |asks| && asks[j] == id ensures outcome(j) != RefusedAndClosed {
        assert outcome(0 + j) == outcome(j);
      }
    }
  }

  /** One attempt that fails. */
  lemma RefusedMore(first: Sessions, before: Sessions, after: Sessions, asks: seq<string>, more: seq<string>, outcome: nat -> Outcome,
                    gone: set<string>, attempt: nat)
    requires before == Base(first, Lost(asks, outcome, 0)) && Tried(before, after, gone, more, outcome, |asks|) && gone == Candidates(before)
    requires NoneOpened(outcome, 0, |asks|) && AskedEach(before, asks, attempt)
    ensures after == Base(first, Lost(asks + more, outcome, 0)) && AskedEach(after, asks + more, attempt + 1)
    ensures NoneOpened(outcome, 0, |asks + more|)
    ensures more == [] ==> after == before
    ensures more == [] && gone != {} ==> AllFull(before)
  {
    LostConcat(asks, more, outcome, 0);
    BaseTwice(first, Lost(asks, outcome, 0), Lost(more, outcome, |asks|));
    hide Lost, AllFull;
    if more == [] && gone != {} { FullIfNoneAsked(before, gone); }
    forall id | id in Eligible(after, false) && after[id].streams < MAX_STREAMS_PER_SESSION ensures Count(asks + more, id) == attempt + 1 {
      assert id in before && before[id] == after[id];
      assert id in Eligible(before, false) && id in gone;
      CountConcat(asks, more, id);
      CountOnce(more, id);
    }
  }

  lemma FullIfNoneAsked(before: Sessions, gone: set<string>)
    requires gone == Candidates(before) != {} && forall id :: id in gone ==> before[id].streams >= MAX_STREAMS_PER_SESSION
    ensures AllFull(before)
  {
  }

  lemma {:induction false} CountOnce(ids: seq<string>, id: string)
    requires id in ids && forall i, j :: 0 <= i < j < |ids| ==> ids[i] != ids[j]
    ensures Count(ids, id) == 1
  {
    var n := |ids| - 1;
    assert ids == ids[..n] + [ids[n]];
    if ids[n] == id {
      CountIn(ids[..n], id);
    } else {
      CountOnce(ids[..n], id);
    }
  }

  /** One attempt that succeeds: the sessions after its refusals, then one more stream. */
  ghost predicate OpenedIn(before: Sessions, after: Sessions, id: string, asks: seq<string>, outcome: nat -> Outcome, from: nat, includePrimary: bool) {
    var now := Base(before, Lost(asks, outcome, from));
    && id in Eligible(before, includePrimary) && id !in asks && before[id].streams < MAX_STREAMS_PER_SESSION
    && id in now && after == now[id := Session(true, before[id].streams + 1)]
    && NoneOpened(outcome, from, |asks|)
    && forall other :: other in Eligible(before, includePrimary) && before[other].streams < before[id].streams ==> other in asks
  }

  lemma RefusedExactly(asks: seq<string>, outcome: nat -> Outcome)
    ensures forall id :: id in RefusedOf(asks, outcome) <==> exists j :: 0 <= j < |asks| && asks[j] == id && outcome(j) != Opened
  {
  }

  /** The opened session was asked last, and alone succeeded. */
  lemma AskedLast(asks: seq<string>, more: seq<string>, outcome: nat -> Outcome, id: string)
    requires NoneOpened(outcome, 0, |asks|) && NoneOpened(outcome, |asks|, |more|) && outcome(|asks| + |more|) == Opened
    ensures var all := asks + more + [id];
      && (forall j :: 0 <= j < |all| ==> (outcome(j) == Opened <==> j == |all| - 1)) && all[|all| - 1] == id
      && Lost(all, outcome, 0) == Lost(asks, outcome, 0) + Lost(more, outcome, |asks|)
      && (forall other :: other in RefusedOf(all, outcome) <==> other in asks || other in more)
  {
    var all := asks + more + [id];
    LostConcat(asks, more, outcome, 0);
    LostConcat(asks + more, [id], outcome, 0);
    LostOne(id, outcome, |asks + more|);
    hide Lost;
    RefusedExactly(all, outcome);
    forall other | other in asks || other in more ensures other in RefusedOf(all, outcome) {
      if j :| 0 <= j < |asks| && asks[j] == other {
        assert all[j] == other;
      } else {
        var j :| 0 <= j < |more| && more[j] == other;
        assert all[|asks| + j] == other;
      }
    }
  }

  /** The call that succeeds with this attempt. */
  lemma OpenedOverall(first: Sessions, before: Sessions, after: Sessions, asks: seq<string>, more: seq<string>, outcome: nat -> Outcome,
                      id: string, includePrimary: bool)
    requires before == Base(first, Lost(asks, outcome, 0)) && OpenedIn(before, after, id, more, outcome, |asks|, includePrimary)
    requires NoneOpened(outcome, 0, |asks|) && outcome(|asks| + |more|) == Opened
    requires Eligible(before, includePrimary) == Candidates(before) && (includePrimary ==> Eligible(before, false) == {})
    ensures var all := asks + more + [id];
      && (forall j :: 0 <= j < |all| ==> (outcome(j) == Opened <==> j == |all| - 1)) && all[|all| - 1] == id
      && SessionsOpened(first, after, all, outcome, id) && StreamOpened(first, after, id, RefusedOf(all, outcome))
    ensures id == PRIMARY ==> Eligible(after, false) == {}
    ensures AllOpen(outcome) ==> asks == more == []
    ensures asks == more == [] ==> Chosen(first, id) && after == OneMore(first, id) && Candidates(first) != {} && !AllFull(first)
  {
    var all := asks + more + [id];
    var lost, now := Lost(more, outcome, |asks|), Base(before, Lost(more, outcome, |asks|));
    AskedLast(asks, more, outcome, id);
    BaseTwice(first, Lost(asks, outcome, 0), lost);
    BaseKeeps(first, Lost(asks, outcome, 0));
    BaseKeeps(before, lost);
    LostAreRefused(asks, outcome);
    LostAreAsked(all, outcome);
    hide Lost, Base, RefusedOf, SessionsOpened, StreamOpened;
    OpensLeave(first, now, after, all, outcome, id);
    forall other | other in first && LessLoaded(first, other, id) ensures other in RefusedOf(all, outcome) {
      if other !in asks {
        assert other in Eligible(before, true);
        if !includePrimary { assert other in Eligible(before, false); }
      }
    }
    OpensOne(first, now, after, id, Lost(all, outcome, 0), RefusedOf(all, outcome));
    if id == PRIMARY {
      assert Eligible(after, false) <= Eligible(before, false);
    }
    if asks == more == [] { FirstAsked(first, before, after, outcome, id, includePrimary); }
    FailedNotAllOpen(outcome, 0, |asks|);
    FailedNotAllOpen(outcome, |asks|, |more|);
  }

  /** Sessions that stay keep their state, and open ones stay unless they are lost. */
  lemma BaseKeeps(before: Sessions, lost: set<string>)
    ensures forall id :: id in Base(before, lost) ==> id in before && Base(before, lost)[id] == before[id]
    ensures forall id :: id in before && before[id].open && id !in lost ==> id in Base(before, lost)
  {
  }

  lemma FailedNotAllOpen(outcome: nat -> Outcome, from: nat, count: nat)
    requires NoneOpened(outcome, from, count)
    ensures count > 0 ==> !AllOpen(outcome)
  {
    if count > 0 {
      assert outcome(from) != Opened;
    }
  }

  lemma OpensLeave(first: Sessions, now: Sessions, after: Sessions, asks: seq<string>, outcome: nat -> Outcome, id: string)
    requires now == Base(first, Lost(asks, outcome, 0)) && id in now && now[id].open && after == now[id := Session(true, now[id].streams + 1)]
    ensures SessionsOpened(first, after, asks, outcome, id)
  {
    CallOver(first, now, asks, outcome);
    BaseKeeps(first, Lost(asks, outcome, 0));
    hide Base, Lost;
  }

  lemma OpensOne(first: Sessions, now: Sessions, after: Sessions, id: string, lost: set<string>, refused: set<string>)
    requires now == Base(first, lost) && lost <= refused && id in now && now[id].open && now[id].streams < MAX_STREAMS_PER_SESSION
    requires after == now[id := Session(true, now[id].streams + 1)]
    requires forall other :: other in first && LessLoaded(first, other, id) ==> other in refused
    ensures StreamOpened(first, after, id, refused)
  {
  }

  lemma FirstAsked(first: Sessions, before: Sessions, after: Sessions, outcome: nat -> Outcome, id: string, includePrimary: bool)
    requires before == Base(first, Lost([], outcome, 0)) && OpenedIn(before, after, id, [], outcome, 0, includePrimary)
    requires Eligible(before, includePrimary) == Candidates(before)
    ensures Chosen(first, id) && after == OneMore(first, id) && Candidates(first) != {} && !AllFull(first)
  {
    assert Lost([], outcome, 0) == {};
    hide Candidates;
  }

  lemma LostAreRefused(asks: seq<string>, outcome: nat -> Outcome)
    ensures forall id :: id in Lost(asks, outcome, 0) ==> id in asks
  {
  }

  lemma LostAreAsked(asks: seq<string>, outcome: nat -> Outcome)
    ensures Lost(asks, outcome, 0) <= RefusedOf(asks, outcome)
  {
    forall id | id in Lost(asks, outcome, 0) ensures id in RefusedOf(asks, outcome) {
      var j :| 0 <= j < |asks| && outcome(0 + j) == RefusedAndClosed && asks[j] == id;
      assert outcome(j) != Opened;
    }
  }

  /** What a successful call leaves: the old sessions, less those found closed and all closed ones if any was, and one more stream. */
  ghost predicate SessionsOpened(first: Sessions, after: Sessions, asks: seq<string>, outcome: nat -> Outcome, id: string) {
    && ((forall j :: 0 <= j < |asks| ==> outcome(j) != RefusedAndClosed) ==> id in first && after == OneMore(first, id))
    && ((exists j :: 0 <= j < |asks| && outcome(j) == RefusedAndClosed) ==>
          && (forall other :: other in after <==> (other in first && first[other].open && NeverLost(asks, outcome, other)))
          && (forall other :: other in after ==> after[other] == Session(true, first[other].streams + if other == id then 1 else 0)))
  }
}
