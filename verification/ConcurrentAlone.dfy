/**
 * One call of `OpenStream` taking all its steps with nobody in between, in any state other callers may
 * have left: it comes to what the call does when it is alone in the program.
 */
module ConcurrentAlone {
  import opened Collections
  import opened ConnectionGroup
  import opened ConcurrentOpens

  /** The state with caller `i` elsewhere. */
  function At(s: State, i: nat, c: Caller): State
    requires i < |s.callers|
  {
    s.(callers := s.callers[i := c])
  }

  /** Nobody but caller `i` moves. */
  ghost predicate Own(steps: seq<Step>, i: nat) {
    forall e :: e in steps ==> OfCaller(e) && e.i == i
  }

  /** One more move of the caller. */
  lemma Move(s: State, steps: seq<Step>, i: nat, c: Caller, e: Step, d: Caller)
    requires i < |s.callers| && OfCaller(e) && !e.Open? && e.i == i
    requires Own(steps, i) && RunFrom(s, steps) == At(s, i, c) && Moved(s, c, e) == d
    ensures Own(steps + [e], i) && RunFrom(s, steps + [e]) == At(s, i, d)
  {
    hide RunFrom;
    RunsOn(s, steps, e);
    SameGroupMoves(s, s.callers[i := c], c, e);
    hide Moved;
    assert s.callers[i := c][i := d] == s.callers[i := d];
  }

  /** The loads of those of these sessions that go into a heap. */
  ghost function LoadsOf(s: State, ids: set<nat>, primary: bool): map<nat, nat> {
    map id | id in ids && id < |s.sessions| && s.sessions[id].open && (primary || s.sessions[id].name != "primary") :: s.sessions[id].streams
  }

  lemma NoLoads(s: State, heap: map<nat, nat>, primary: bool)
    ensures heap + LoadsOf(s, {}, primary) == heap && map[] + heap == heap
  {
  }

  lemma OneScanned(s: State, i: nat, a: nat, primary: bool, todo: set<nat>, heap: map<nat, nat>, id: nat) returns (grown: map<nat, nat>)
    requires id in todo && id < |s.sessions|
    ensures Moved(s, Scanning(a, primary, todo, heap), Scan(i, id)) == Scanning(a, primary, todo - {id}, grown)
    ensures grown + LoadsOf(s, todo - {id}, primary) == heap + LoadsOf(s, todo, primary)
  {
    hide LoadsOf;
    grown := if Fits(s.sessions[id], primary) then heap[id := s.sessions[id].streams] else heap;
    LoadsGrow(s, primary, todo, heap, id);
  }

  lemma LoadsGrow(s: State, primary: bool, todo: set<nat>, heap: map<nat, nat>, id: nat)
    requires id in todo && id < |s.sessions|
    ensures (if Fits(s.sessions[id], primary) then heap[id := s.sessions[id].streams] else heap) + LoadsOf(s, todo - {id}, primary)
            == heap + LoadsOf(s, todo, primary)
  {
  }

  lemma {:induction false} ScansAll(s: State, steps: seq<Step>, i: nat, a: nat, primary: bool, todo: set<nat>, heap: map<nat, nat>) returns (more: seq<Step>)
    requires i < |s.callers| && (forall id :: id in todo ==> id < |s.sessions|)
    requires Own(steps, i) && RunFrom(s, steps) == At(s, i, Scanning(a, primary, todo, heap))
    ensures Own(more, i) && RunFrom(s, more) == At(s, i, Scanning(a, primary, {}, heap + LoadsOf(s, todo, primary)))
    decreases |todo|
  {
    hide RunFrom, Next, Moved, LoadsOf, Own;
    if todo == {} {
      more := steps;
      NoLoads(s, heap, primary);
    } else {
      var id :| id in todo;
      var grown := OneScanned(s, i, a, primary, todo, heap, id);
      Move(s, steps, i, Scanning(a, primary, todo, heap), Scan(i, id), Scanning(a, primary, todo - {id}, grown));
      more := ScansAll(s, steps + [Scan(i, id)], i, a, primary, todo - {id}, grown);
    }
  }

  /** One build of a heap, under the read lock. */
  lemma BuildsHeap(s: State, steps: seq<Step>, i: nat, a: nat, primary: bool) returns (more: seq<Step>)
    requires i < |s.callers| && Named(s) && Own(steps, i) && RunFrom(s, steps) == At(s, i, Ready(a, primary))
    ensures var heap := LoadsOf(s, s.members.Values, primary);
      && Own(more, i)
      && RunFrom(s, more) == At(s, i, if heap != map[] then Popping(a, heap, false) else if !primary then Ready(a, true) else Returning(Err(GroupClosed)))
  {
    hide RunFrom, Next, LoadsOf, Own;
    var members, heap := s.members.Values, LoadsOf(s, s.members.Values, primary);
    Move(s, steps, i, Ready(a, primary), Lock(i), Scanning(a, primary, members, map[]));
    more := ScansAll(s, steps + [Lock(i)], i, a, primary, members, map[]);
    NoLoads(s, heap, primary);
    var d := Moved(s, Scanning(a, primary, {}, heap), Unlock(i));
    Move(s, more, i, Scanning(a, primary, {}, heap), Unlock(i), d);
    more := more + [Unlock(i)];
  }

  /** The sessions a call on its own chooses from: the open ones but the primary, or else the open ones. */
  ghost function Choice(s: State): map<nat, nat> {
    if LoadsOf(s, s.members.Values, false) != map[] then LoadsOf(s, s.members.Values, false) else LoadsOf(s, s.members.Values, true)
  }

  /** From the look at the stop channel to the heap. */
  lemma LooksAndBuilds(s: State, steps: seq<Step>, i: nat, a: nat) returns (more: seq<Step>)
    requires i < |s.callers| && Named(s) && Own(steps, i) && RunFrom(s, steps) == At(s, i, Looking(a))
    ensures Own(more, i)
    ensures RunFrom(s, more) == At(s, i, if s.stopped || Choice(s) == map[] then Returning(Err(GroupClosed)) else Popping(a, Choice(s), false))
  {
    hide RunFrom, Next, LoadsOf, Own;
    var d := if s.stopped then Returning(Err(GroupClosed)) else Ready(a, false);
    Move(s, steps, i, Looking(a), Look(i), d);
    more := steps + [Look(i)];
    if !s.stopped {
      more := BuildsHeap(s, more, i, a, false);
      if LoadsOf(s, s.members.Values, false) == map[] {
        more := BuildsHeap(s, more, i, a, true);
      }
    }
  }

  lemma {:induction false} LeastExists(heap: map<nat, nat>) returns (id: nat)
    requires heap != map[]
    ensures LeastOf(heap, id)
    decreases |heap|
  {
    id :| id in heap;
    var rest := heap - {id};
    assert heap.Keys == rest.Keys + {id};
    assert forall x :: x in heap ==> x == id || x in rest;
    if rest != map[] {
      var other := LeastExists(rest);
      if heap[other] <= heap[id] { id := other; }
    }
  }

  /** A round over sessions that are all full: each is popped and turned down. */
  lemma {:induction false} TurnsDownAll(s: State, steps: seq<Step>, i: nat, a: nat, heap: map<nat, nat>) returns (more: seq<Step>)
    requires i < |s.callers| && Own(steps, i) && RunFrom(s, steps) == At(s, i, Popping(a, heap, false))
    requires forall id :: id in heap ==> id < |s.sessions| && s.sessions[id].open && s.sessions[id].streams >= 256
    ensures Own(more, i) && RunFrom(s, more) == At(s, i, Popping(a, map[], false))
    decreases |heap|
  {
    hide RunFrom, Next, Own;
    if heap == map[] {
      more := steps;
    } else {
      var id := LeastExists(heap);
      var rest := heap - {id};
      assert heap.Keys == rest.Keys + {id};
      Move(s, steps, i, Popping(a, heap, false), Pop(i, id), Probing(a, rest, false, id));
      Move(s, steps + [Pop(i, id)], i, Probing(a, rest, false, id), Probe(i), Popping(a, rest, false));
      more := TurnsDownAll(s, steps + [Pop(i, id)] + [Probe(i)], i, a, rest);
    }
  }

  /** All attempts from the `a`-th on find every session full. */
  lemma {:induction false} RunsIntoCapacity(s: State, steps: seq<Step>, i: nat, a: nat) returns (more: seq<Step>)
    requires i < |s.callers| && Named(s) && Own(steps, i) && RunFrom(s, steps) == At(s, i, Looking(a)) && a < 3
    requires !s.stopped && Choice(s) != map[] && forall id :: id in Choice(s) ==> Choice(s)[id] >= 256
    ensures Own(more, i) && RunFrom(s, more) == At(s, i, Returning(Err(AtCapacity)))
    decreases 3 - a
  {
    hide RunFrom, Next, Own, LoadsOf;
    more := LooksAndBuilds(s, steps, i, a);
    ChoiceIsOpen(s);
    more := TurnsDownAll(s, more, i, a, Choice(s));
    if a < 2 {
      Move(s, more, i, Popping(a, map[], false), EndRound(i), Waiting(a));
      more := more + [EndRound(i)];
      Move(s, more, i, Waiting(a), Wake(i, false), Looking(a + 1));
      more := RunsIntoCapacity(s, more + [Wake(i, false)], i, a + 1);
    } else {
      Move(s, more, i, Popping(a, map[], false), EndRound(i), Returning(Err(AtCapacity)));
      more := more + [EndRound(i)];
    }
  }

  lemma ChoiceIsOpen(s: State)
    ensures forall id :: id in Choice(s) ==> id < |s.sessions| && s.sessions[id].open && Choice(s)[id] == s.sessions[id].streams
  {
  }

  /** The state with one more stream on a session. */
  function OneStreamMore(s: State, id: nat): State
    requires id < |s.sessions|
  {
    s.(sessions := s.sessions[id := s.sessions[id].(streams := s.sessions[id].streams + 1)])
  }

  /** From the heap to the open, on the session popped first. */
  lemma OpensLeast(s: State, steps: seq<Step>, i: nat, heap: map<nat, nat>, id: nat) returns (more: seq<Step>)
    requires i < |s.callers| && Own(steps, i) && RunFrom(s, steps) == At(s, i, Popping(0, heap, false))
    requires LeastOf(heap, id) && id < |s.sessions| && s.sessions[id].open && s.sessions[id].streams < 256
    ensures Own(more, i) && RunFrom(s, more) == At(OneStreamMore(s, id), i, Returning(Ok(id)))
  {
    hide RunFrom, Own;
    var rest := heap - {id};
    Move(s, steps, i, Popping(0, heap, false), Pop(i, id), Probing(0, rest, false, id));
    Move(s, steps + [Pop(i, id)], i, Probing(0, rest, false, id), Probe(i), Checked(0, rest, id));
    more := steps + [Pop(i, id)] + [Probe(i)];
    RunsOn(s, more, Open(i, true));
    assert s.callers[i := Checked(0, rest, id)][i := Returning(Ok(id))] == s.callers[i := Returning(Ok(id))];
    OwnMore(more, i);
    more := more + [Open(i, true)];
  }

  lemma OwnMore(steps: seq<Step>, i: nat)
    requires Own(steps, i)
    ensures Own(steps + [Open(i, true)], i) && Own([], i)
  {
  }

  /**
   * What a call on its own comes to when `session.Open()` works: closed in a stopped group or one without open
   * sessions; at capacity when all it may use carry 256 streams; and otherwise a stream on one of the least
   * loaded, open sessions but the primary first, and on nothing else.
   */
  lemma CallAlone(s: State, i: nat) returns (steps: seq<Step>, result: Result<nat, Failure>)
    requires i < |s.callers| && s.callers[i].Idle? && Named(s)
    ensures Own(steps, i)
    ensures result == Err(GroupClosed) <==> s.stopped || Choice(s) == map[]
    ensures result == Err(AtCapacity) <==> !s.stopped && Choice(s) != map[] && forall id :: id in Choice(s) ==> s.sessions[id].streams >= 256
    ensures result.Ok? || result == Err(GroupClosed) || result == Err(AtCapacity)
    ensures result.Ok? ==>
              && result.value in Choice(s) && s.sessions[result.value].streams < 256
              && forall id :: id in Choice(s) ==> s.sessions[result.value].streams <= s.sessions[id].streams
    ensures RunFrom(s, steps) == At(if result.Ok? then OneStreamMore(s, result.value) else s, i, Returning(result))
  {
    hide RunFrom, Next, Own, LoadsOf;
    NoSteps(s);
    OwnMore([], i);
    assert s.callers[i := Idle] == s.callers;
    Move(s, [], i, Idle, Call(i), Looking(0));
    steps := [] + [Call(i)];
    ChoiceIsOpen(s);
    if s.stopped || Choice(s) == map[] {
      steps := LooksAndBuilds(s, steps, i, 0);
      result := Err(GroupClosed);
    } else {
      var id := LeastExists(Choice(s));
      if s.sessions[id].streams >= 256 {
        steps := RunsIntoCapacity(s, steps, i, 0);
        result := Err(AtCapacity);
      } else {
        steps := LooksAndBuilds(s, steps, i, 0);
        steps := OpensLeast(s, steps, i, Choice(s), id);
        result := Ok(id);
      }
    }
  }

  /** A waiting call goes on to its next attempt, or gives up once the group is closed; a finished one is over. */
  lemma WaitsAndReturns(s: State, i: nat)
    requires i < |s.callers|
    ensures s.callers[i].Waiting? ==>
              && Next(s, Wake(i, false)) == At(s, i, Looking(s.callers[i].attempt + 1))
              && Next(s, Wake(i, true)) == (if s.stopped then At(s, i, Returning(Err(GroupClosed))) else s)
    ensures Next(s, Return(i)) == if s.callers[i].Returning? then At(s, i, Idle) else s
    ensures Next(s, Call(i)) == if s.callers[i].Idle? then At(s, i, Looking(0)) else s
  {
    assert s.callers[i := s.callers[i]] == s.callers;
  }

  /** Removing, closing and finishing outside the calls: what they take, and that a removal waits for the read lock. */
  lemma OthersExactly(s: State, name: string, id: nat)
    ensures Next(s, Remove(name)).members == if Locked(s) then s.members else s.members - {name}
    ensures id < |s.sessions| ==>
              && |Next(s, EndStream(id)).sessions| == |s.sessions|
              && Next(s, EndStream(id)).sessions[id].streams == if s.sessions[id].streams > 0 then s.sessions[id].streams - 1 else 0
  {
  }
}
