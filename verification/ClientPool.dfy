/**
 * The client's pool of sessions as the object the program uses: clamping of the configured bounds,
 * adding and removing data sessions, eviction of the oldest idle ones, and closing once.
 */
module ClientPool {
  import opened Collections

  /** A data session: streams in progress and the time of its last activity. */
  datatype Handle = Handle(active: nat, lastActive: int)

  type Sessions = map<string, Handle>

  /** A copy of a session's state, taken before the eviction loop starts. */
  datatype Candidate = Candidate(id: string, active: nat, lastActive: int)

  datatype Bounds = Bounds(minSessions: int, maxSessions: int, initialSessions: int)

  predicate Clamped(b: Bounds) {
    1 <= b.minSessions <= b.initialSessions <= b.maxSessions
  }

  /** `NewPoolClient`'s treatment of the configured pool sizes, where zero or less means unset. */
  method ClampBounds(poolMin: int, poolMax: int, poolSize: int, numCPU: nat) returns (b: Bounds)
    ensures Clamped(b)
    ensures poolMin > 0 ==> b.minSessions == poolMin
    ensures poolMin <= 0 ==> b.minSessions == 2
    ensures poolMax >= b.minSessions ==> b.maxSessions == poolMax
    ensures poolMax > 0 && poolMax < b.minSessions ==> b.maxSessions == b.minSessions
    ensures poolMax <= 0 ==> b.maxSessions == Max(numCPU * 16, b.minSessions)
    ensures var wanted := if poolSize <= 0 then 4 else poolSize;
      if wanted < b.minSessions then b.initialSessions == b.minSessions
      else if wanted > b.maxSessions then b.initialSessions == b.maxSessions
      else b.initialSessions == wanted
  {
    var minSessions := poolMin;
    if minSessions <= 0 {
      minSessions := 2;
    }
    var maxSessions := poolMax;
    if maxSessions <= 0 {
      maxSessions := Max(numCPU * 16, minSessions);
    }
    if maxSessions < minSessions {
      maxSessions := minSessions;
    }
    var initialSessions := poolSize;
    if initialSessions <= 0 {
      initialSessions := 4;
    }
    initialSessions := Min(Max(initialSessions, minSessions), maxSessions);
    b := Bounds(minSessions, maxSessions, initialSessions);
  }

  ghost function Idle(ss: Sessions): set<string> {
    set id | id in ss && ss[id].active == 0
  }

  /** The candidates not yet tried: still shown as idle. */
  ghost function Unmarked(cs: seq<Candidate>): set<string> {
    set i | 0 <= i < |cs| && cs[i].active == 0 :: cs[i].id
  }

  /** One candidate per session; those tried are marked, the others show the session as it was. */
  ghost predicate Snapshot(cs: seq<Candidate>, before: Sessions, tried: set<string>) {
    && (forall i, j :: 0 <= i < j < |cs| ==> cs[i].id != cs[j].id)
    && (forall i :: 0 <= i < |cs| ==> cs[i].id in before && cs[i].lastActive == before[cs[i].id].lastActive)
    && (forall i :: 0 <= i < |cs| ==> (cs[i].active == 0 <==> before[cs[i].id].active == 0 && cs[i].id !in tried))
    && (forall id :: id in before ==> exists i :: 0 <= i < |cs| && cs[i].id == id)
  }

  /** The first candidate with this ID is marked, and nothing else. */
  ghost predicate Marked(cs: seq<Candidate>, ds: seq<Candidate>, id: string) {
    |ds| == |cs| && forall i :: 0 <= i < |cs| ==>
      ds[i] == if cs[i].id == id && (forall j :: 0 <= j < i ==> cs[j].id != id) then cs[i].(active := 1) else cs[i]
  }

  /** No session of `kept` that was idle had been idle for longer than one of `removed`. */
  ghost predicate OldestFirst(before: Sessions, removed: set<string>, kept: set<string>) {
    forall r, k :: r in removed && k in kept && r in before && k in Idle(before) ==> before[r].lastActive <= before[k].lastActive
  }

  class Pool {
    const bounds: Bounds
    var primary: bool
    var dataSessions: Sessions
    var desiredTotal: int
    var lastScale: int
    var closed: bool

    constructor (bounds: Bounds)
      ensures this.bounds == bounds && !primary && dataSessions == map[] && desiredTotal == 0 && !closed
    {
      this.bounds := bounds;
      primary, dataSessions, desiredTotal, lastScale, closed := false, map[], 0, 0, false;
    }

    ghost function Count(): nat
      reads this
    {
      |dataSessions| + if primary then 1 else 0
    }

    method SessionCount() returns (count: nat)
      ensures count == Count()
    {
      count := |dataSessions|;
      if primary {
        count := count + 1;
      }
    }

    /** The store at the end of `addDataSession`, which does not look at the stop channel again. */
    method StoreSession(id: string, now: int)
      modifies this`dataSessions
      ensures dataSessions == old(dataSessions)[id := Handle(0, now)]
    {
      dataSessions := dataSessions[id := Handle(0, now)];
    }

    /**
     * `addDataSession` with nobody closing the client meanwhile: `dialed` is whether dialling and the
     * handshake succeed; IDs come from a counter.
     */
    method AddDataSession(id: string, now: int, dialed: bool) returns (ok: bool)
      modifies this`dataSessions
      ensures ok <==> dialed && !closed
      ensures dataSessions == if ok then old(dataSessions)[id := Handle(0, now)] else old(dataSessions)
    {
      if closed || !dialed {
        return false;
      }
      StoreSession(id, now);
      ok := true;
    }

    method RemoveDataSession(id: string) returns (ok: bool)
      modifies this`dataSessions
      ensures ok <==> id in old(dataSessions)
      ensures dataSessions == old(dataSessions) - {id}
    {
      ok := id in dataSessions;
      dataSessions := dataSessions - {id};
    }

    /** `Close`: once; no session is left. */
    method Close()
      modifies this`closed, this`dataSessions, this`primary
      ensures closed
      ensures if old(closed) then dataSessions == old(dataSessions) && primary == old(primary) else dataSessions == map[] && !primary && Count() == 0
    {
      if !closed {
        closed := true;
        dataSessions := map[];
        primary := false;
      }
    }

    /** `Close` while a session of an open client is being dialled: the closed client is left with it. */
    method CloseDuringDial(id: string, now: int)
      requires !closed
      modifies this`closed, this`dataSessions, this`primary
      ensures closed && dataSessions == map[id := Handle(0, now)]
    {
      Close();
      StoreSession(id, now);
    }

    // -------------------------------------------------------------- eviction of idle sessions

    method TakeSnapshot() returns (candidates: array<Candidate>)
      ensures fresh(candidates) && Snapshot(candidates[..], dataSessions, {})
    {
      var list: seq<Candidate> := [];
      var todo := dataSessions.Keys;
      while todo != {}
        invariant todo <= dataSessions.Keys
        invariant Snapshot(list, map id | id in dataSessions && id !in todo :: dataSessions[id], {})
        decreases |todo|
      {
        var id :| id in todo;
        ghost var before := list;
        list := list + [Candidate(id, dataSessions[id].active, dataSessions[id].lastActive)];
        SnapshotAdd(before, map x | x in dataSessions && x !in todo :: dataSessions[x], id, dataSessions[id]);
        assert (map x | x in dataSessions && x !in todo :: dataSessions[x])[id := dataSessions[id]]
            == map x | x in dataSessions && x !in todo - {id} :: dataSessions[x];
        todo := todo - {id};
      }
      candidates := new Candidate[|list|](i requires 0 <= i < |list| => list[i]);
      assert candidates[..] == list;
      assert dataSessions == map id | id in dataSessions && id !in todo :: dataSessions[id];
    }

    /** The inner search: the unmarked candidate idle for longest. */
    static method FindOldest(candidates: array<Candidate>) returns (best: Option<Candidate>)
      ensures best.None? <==> Unmarked(candidates[..]) == {}
      ensures best.Some? ==> best.value in candidates[..] && best.value.active == 0
      ensures best.Some? ==> forall i :: 0 <= i < candidates.Length && candidates[i].active == 0 ==> best.value.lastActive <= candidates[i].lastActive
    {
      best := None;
      for k := 0 to candidates.Length
        invariant best.None? ==> forall i :: 0 <= i < k ==> candidates[i].active != 0
        invariant best.Some? ==> best.value in candidates[..] && best.value.active == 0
        invariant best.Some? ==> forall i :: 0 <= i < k && candidates[i].active == 0 ==> best.value.lastActive <= candidates[i].lastActive
      {
        var cand := candidates[k];
        if cand.active != 0 {
          continue;
        }
        if best.None? || cand.lastActive < best.value.lastActive {
          best := Some(cand);
        }
      }
      if best.Some? {
        assert best.value.id in Unmarked(candidates[..]);
      }
    }

    /** Marks the first candidate with this ID as tried. */
    static method MarkTried(candidates: array<Candidate>, id: string)
      modifies candidates
      ensures Marked(old(candidates[..]), candidates[..], id)
    {
      for i := 0 to candidates.Length
        invariant forall j :: 0 <= j < i ==> candidates[j].id != id
        invariant forall j :: 0 <= j < candidates.Length ==> candidates[j] == old(candidates[j])
      {
        if candidates[i].id == id {
          candidates[i] := candidates[i].(active := 1);
          break;
        }
      }
    }

    /**
     * `removeIdleSessions`: at most `n` sessions, all idle when it started, oldest first.  `lost(k)` are
     * the sessions that others remove before its k-th attempt; without any it removes exactly as many
     * as there are, up to `n`.
     */
    method RemoveIdleSessions(n: int, lost: nat -> set<string>) returns (ghost removed: set<string>)
      modifies this`dataSessions
      ensures removed <= old(Idle(dataSessions)) && |removed| <= Max(0, n)
      ensures dataSessions.Keys <= old(dataSessions).Keys - removed && forall id :: id in dataSessions ==> dataSessions[id] == old(dataSessions)[id]
      ensures LostOtherwise(old(dataSessions), dataSessions, removed, lost)
      ensures OldestFirst(old(dataSessions), removed, dataSessions.Keys)
      ensures |removed| < n ==> forall id :: id in dataSessions ==> id !in old(Idle(dataSessions))
      ensures NoneLost(lost) ==> |removed| == Min(Max(0, n), |old(Idle(dataSessions))|) && dataSessions == old(dataSessions) - removed
    {
      hide Snapshot, Progress, Idle, Unmarked, OldestFirst, Marked, LostOtherwise, NoneLost;
      removed := {};
      ghost var before := dataSessions;
      ProgressStarts(before, lost);
      if n <= 0 {
        NothingTaken(before);
        return;
      }
      var candidates := TakeSnapshot();
      var count, attempt := 0, 0;
      ghost var tried := {};
      while count < n
        invariant count == |removed| <= n && tried <= Idle(before)
        invariant fresh(candidates) && Snapshot(candidates[..], before, tried)
        invariant Progress(before, dataSessions, removed, tried, lost)
        decreases Idle(before) - tried
      {
        var best := FindOldest(candidates);
        SnapshotUnmarked(candidates[..], before, tried);
        if best.None? {
          ProgressEnds(before, dataSessions, removed, tried, lost, n);
          return;
        }
        var id := best.value.id;
        OldestOfSnapshot(candidates[..], before, tried, best.value);
        ghost var now := dataSessions;
        dataSessions := dataSessions - lost(attempt);
        ghost var kept := dataSessions;
        var ok := RemoveDataSession(id);
        ProgressStep(before, now, kept, removed, tried, lost, attempt, id);
        if ok {
          count := count + 1;
          removed := removed + {id};
        }
        ghost var marks := candidates[..];
        MarkTried(candidates, id);
        SnapshotMark(marks, candidates[..], before, tried, id);
        tried := tried + {id};
        attempt := attempt + 1;
      }
      ProgressEnds(before, dataSessions, removed, tried, lost, n);
    }
  }

  /** Midway: what was removed is older than whatever idle session has not been tried. */
  ghost predicate Evicted(before: Sessions, now: Sessions, removed: set<string>, tried: set<string>) {
    && now.Keys <= before.Keys - tried && (forall id :: id in now ==> now[id] == before[id])
    && (forall r, k :: r in tried && k in Idle(before) && k !in tried && r in before ==> before[r].lastActive <= before[k].lastActive)
  }

  // ---------------------------------------------------------------- facts the eviction uses

  lemma SmallerSet<T>(a: set<T>, b: set<T>)
    requires a <= b
    ensures |a| <= |b| && (|a| == |b| ==> a == b)
  {
    assert |b - a| == |b| - |a|;
  }

  lemma SnapshotAdd(cs: seq<Candidate>, before: Sessions, id: string, h: Handle)
    requires Snapshot(cs, before, {}) && id !in before
    ensures Snapshot(cs + [Candidate(id, h.active, h.lastActive)], before[id := h], {})
  {
    var ds := cs + [Candidate(id, h.active, h.lastActive)];
    forall x: string | x == id || x in before ensures exists i :: 0 <= i < |ds| && ds[i].id == x {
      if x == id {
        assert ds[|cs|].id == x;
      } else {
        var i :| 0 <= i < |cs| && cs[i].id == x;
        assert ds[i].id == x;
      }
    }
  }

  lemma SnapshotUnmarked(cs: seq<Candidate>, before: Sessions, tried: set<string>)
    requires Snapshot(cs, before, tried)
    ensures Unmarked(cs) == Idle(before) - tried
  {
    forall id | id in Idle(before) - tried ensures id in Unmarked(cs) {
      var i :| 0 <= i < |cs| && cs[i].id == id;
      assert cs[i].active == 0;
    }
  }

  lemma OldestOfSnapshot(cs: seq<Candidate>, before: Sessions, tried: set<string>, best: Candidate)
    requires Snapshot(cs, before, tried) && best in cs && best.active == 0
    requires forall i :: 0 <= i < |cs| && cs[i].active == 0 ==> best.lastActive <= cs[i].lastActive
    ensures best.id in Idle(before) && best.id !in tried
    ensures forall k :: k in Idle(before) && k !in tried ==> before[best.id].lastActive <= before[k].lastActive
  {
    forall k | k in Idle(before) && k !in tried ensures best.lastActive <= before[k].lastActive {
      var i :| 0 <= i < |cs| && cs[i].id == k;
      assert cs[i].active == 0;
    }
  }

  lemma SnapshotMark(cs: seq<Candidate>, ds: seq<Candidate>, before: Sessions, tried: set<string>, id: string)
    requires Snapshot(cs, before, tried) && Marked(cs, ds, id)
    ensures Snapshot(ds, before, tried + {id})
  {
    forall i | 0 <= i < |cs| ensures ds[i].id == cs[i].id && ds[i].lastActive == cs[i].lastActive
                                     && ds[i].active == if cs[i].id == id then 1 else cs[i].active {
      if cs[i].id == id {
        forall j | 0 <= j < i ensures cs[j].id != id {
        }
      }
    }
    forall x | x in before ensures exists i :: 0 <= i < |ds| && ds[i].id == x {
      var i :| 0 <= i < |cs| && cs[i].id == x;
      assert ds[i].id == x;
    }
  }

  ghost predicate NoneLost(lost: nat -> set<string>) {
    forall k: nat :: lost(k) == {}
  }

  ghost predicate LostOtherwise(before: Sessions, now: Sessions, removed: set<string>, lost: nat -> set<string>) {
    forall id :: id in before && id !in now ==> id in removed || exists k: nat :: id in lost(k)
  }

  /** How far the eviction has come: `tried` were attempted, `removed` of them successfully. */
  ghost predicate Progress(before: Sessions, now: Sessions, removed: set<string>, tried: set<string>, lost: nat -> set<string>) {
    && Evicted(before, now, removed, tried) && removed <= tried <= Idle(before) && LostOtherwise(before, now, removed, lost)
    && (NoneLost(lost) ==> tried == removed && now == before - removed)
  }

  lemma ProgressStarts(before: Sessions, lost: nat -> set<string>)
    ensures Progress(before, before, {}, {}, lost)
  {
    assert before - {} == before;
  }

  lemma NothingTaken(before: Sessions)
    ensures before - {} == before && OldestFirst(before, {}, before.Keys)
  {
  }

  lemma ProgressStep(before: Sessions, now: Sessions, kept: Sessions, removed: set<string>, tried: set<string>, lost: nat -> set<string>, attempt: nat, id: string)
    requires Progress(before, now, removed, tried, lost) && kept == now - lost(attempt)
    requires id in Idle(before) && id !in tried
    requires forall k :: k in Idle(before) && k !in tried ==> before[id].lastActive <= before[k].lastActive
    ensures id !in removed
    ensures var removed' := if id in kept then removed + {id} else removed;
      Progress(before, kept - {id}, removed', tried + {id}, lost)
  {
    var removed' := if id in kept then removed + {id} else removed;
    EvictedStep(before, now, kept, removed, tried, id);
    forall x | x in before && x !in kept - {id} ensures x in removed' || exists k: nat :: x in lost(k) {
      if x in now && x !in kept {
        assert x in lost(attempt);
      }
    }
    if NoneLost(lost) {
      assert kept == now;
      assert before - removed - {id} == before - (removed + {id});
    }
  }

  /** What the eviction has done when it has removed enough, or tried every idle session. */
  lemma ProgressEnds(before: Sessions, now: Sessions, removed: set<string>, tried: set<string>, lost: nat -> set<string>, n: int)
    requires Progress(before, now, removed, tried, lost) && 0 <= |removed| <= n && (|removed| == n || Idle(before) - tried == {})
    ensures removed <= Idle(before) && OldestFirst(before, removed, now.Keys) && LostOtherwise(before, now, removed, lost)
    ensures now.Keys <= before.Keys - removed && forall id :: id in now ==> now[id] == before[id]
    ensures |removed| < n ==> forall id :: id in now ==> id !in Idle(before)
    ensures NoneLost(lost) ==> |removed| == Min(Max(0, n), |Idle(before)|) && now == before - removed
  {
    SmallerSet(removed, Idle(before));
    if |removed| < n {
      forall id | id in Idle(before) ensures id in tried {
        assert id !in Idle(before) - tried;
      }
      if NoneLost(lost) { assert removed == Idle(before); }
    }
  }

  lemma EvictedStep(before: Sessions, now: Sessions, kept: Sessions, removed: set<string>, tried: set<string>, id: string)
    requires Evicted(before, now, removed, tried) && kept.Keys <= now.Keys && forall x :: x in kept ==> kept[x] == now[x]
    requires id in Idle(before) && id !in tried
    requires forall k :: k in Idle(before) && k !in tried ==> before[id].lastActive <= before[k].lastActive
    ensures Evicted(before, kept - {id}, removed, tried + {id})
  {
  }
}
