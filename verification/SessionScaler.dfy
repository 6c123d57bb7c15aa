/**
 * The session scaler: its decision at one tick, the tick as a method on the pool, the whole client as
 * a state machine in which sessions are lost and dials fail at any moment, and the load arithmetic
 * that keeps it from thrashing.
 */
module SessionScaler {
  import opened Collections
  import opened ClientPool

  const SECOND := 1_000_000_000
  const SCALE_UP_COOLDOWN := SECOND
  const SCALE_DOWN_COOLDOWN := 60 * SECOND
  const CAPACITY_PER_SESSION := 256
  const SCALE_UP_LOAD := 0.6
  const SCALE_DOWN_LOAD := 0.2
  const BURST_THRESHOLD := 0.9
  const MAX_BURST_ADD := 4

  function Load(active: int, sessions: int): real
    requires sessions > 0
  {
    active as real / (sessions * CAPACITY_PER_SESSION) as real
  }

  datatype Decision = Hold | Burst(toAdd: nat) | Grow(newDesired: int) | Shrink(newDesired: int)

  function Decide(b: Bounds, desired: int, lastScale: int, current: int, active: int, now: int): Decision
    requires Clamped(b) && current > 0
  {
    if Load(active, current) > BURST_THRESHOLD && current < b.maxSessions then Burst(Min(MAX_BURST_ADD, b.maxSessions - current))
    else if Load(active, current) > SCALE_UP_LOAD && current < b.maxSessions then
      if now - lastScale < SCALE_UP_COOLDOWN then Hold
      else if Min(desired + 1, b.maxSessions) > desired then Grow(Min(desired + 1, b.maxSessions)) else Hold
    else if Load(active, current) < SCALE_DOWN_LOAD && current > b.minSessions then
      if now - lastScale < SCALE_DOWN_COOLDOWN then Hold
      else if Max(desired - 1, b.minSessions) < desired && current > Max(desired - 1, b.minSessions) then Shrink(Max(desired - 1, b.minSessions))
      else Hold
    else Hold
  }

  /**
   * The decision in whole numbers: a burst of up to four above nine tenths of the capacity and below the
   * maximum; one more session above six tenths, a second after the last change; one less below two tenths
   * and above the minimum, a minute after it; and nothing otherwise.
   */
  lemma DecisionExactly(b: Bounds, desired: int, lastScale: int, current: int, active: int, now: int)
    requires Clamped(b) && current > 0
    ensures var decision := Decide(b, desired, lastScale, current, active, now);
      var burst := 10 * active > 9 * 256 * current && current < b.maxSessions;
      var grow := 10 * active > 6 * 256 * current && !(10 * active > 9 * 256 * current) && current < b.maxSessions
                  && now - lastScale >= 1_000_000_000 && desired < b.maxSessions;
      var shrink := 10 * active < 2 * 256 * current && current > b.minSessions
                    && now - lastScale >= 60_000_000_000 && desired > b.minSessions && current > desired - 1;
      && (burst ==> decision == Burst(if b.maxSessions - current < 4 then b.maxSessions - current else 4))
      && (grow ==> decision == Grow(desired + 1))
      && (shrink ==> decision == Shrink(desired - 1))
      && (!burst && !grow && !shrink ==> decision == Hold)
  {
    hide Load;
    LoadAbove(active, current, BURST_THRESHOLD);
    LoadAbove(active, current, SCALE_UP_LOAD);
    LoadAbove(active, current, SCALE_DOWN_LOAD);
  }

  /** The targets the scaler may ever have. */
  predicate InRange(b: Bounds, desired: int) {
    Min(b.minSessions, MAX_BURST_ADD + 1) <= desired <= b.maxSessions
  }

  /** Every decision stays within the bounds: room for what it adds, and a target in range. */
  lemma DecisionInBounds(b: Bounds, desired: int, lastScale: int, current: int, active: int, now: int)
    requires Clamped(b) && InRange(b, desired) && 1 <= current <= b.maxSessions
    ensures match Decide(b, desired, lastScale, current, active, now)
            case Hold => true
            case Burst(toAdd) => 1 <= toAdd <= MAX_BURST_ADD && current + toAdd <= b.maxSessions && InRange(b, current + toAdd)
            case Grow(newDesired) => current + 1 <= b.maxSessions && newDesired == desired + 1 && InRange(b, newDesired)
            case Shrink(newDesired) => current > b.minSessions && b.minSessions <= newDesired == desired - 1 && InRange(b, newDesired)
  {
    hide Load;
  }

  // ---------------------------------------------------------------- one tick of the loop

  function Successes(dialed: nat -> bool, n: nat): nat {
    if n == 0 then 0 else Successes(dialed, n - 1) + if dialed(n - 1) then 1 else 0
  }

  /** IDs come from a counter: none is in use, and none repeats. */
  ghost predicate FreshIDs(ss: Sessions, ids: nat -> string, from: nat) {
    (forall i: nat :: i >= from ==> ids(i) !in ss) && forall i: nat, j: nat :: i != j ==> ids(i) != ids(j)
  }

  ghost predicate Extends(before: Sessions, after: Sessions) {
    before.Keys <= after.Keys && forall id :: id in before ==> after[id] == before[id]
  }

  lemma ExtendsItself(ss: Sessions)
    ensures Extends(ss, ss)
  {
  }

  lemma OneMore(first: Sessions, before: Sessions, after: Sessions, ids: nat -> string, i: nat, now: int, ok: bool)
    requires FreshIDs(before, ids, i) && Extends(first, before) && after == if ok then before[ids(i) := Handle(0, now)] else before
    ensures FreshIDs(after, ids, i + 1) && Extends(first, after) && |after| == |before| + if ok then 1 else 0
  {
    if ok {
      assert after.Keys == before.Keys + {ids(i)};
    }
  }

  lemma SuccessesNone(dialed: nat -> bool)
    ensures Successes(dialed, 0) == 0
  {
  }

  lemma SuccessesNext(dialed: nat -> bool, n: nat)
    ensures Successes(dialed, n + 1) == Successes(dialed, n) + if dialed(n) then 1 else 0
  {
  }

  class Scaler {
    const client: Pool

    constructor (client: Pool)
      ensures this.client == client
    {
      this.client := client;
    }

    method AddSessions(n: nat, now: int, dialed: nat -> bool, ids: nat -> string)
      requires !client.closed
      requires FreshIDs(client.dataSessions, ids, 0)
      modifies client`dataSessions
      ensures client.Count() == old(client.Count()) + Successes(dialed, n) && Extends(old(client.dataSessions), client.dataSessions)
    {
      hide FreshIDs, Extends, Successes;
      SuccessesNone(dialed);
      ExtendsItself(client.dataSessions);
      for i := 0 to n
        invariant client.Count() == old(client.Count()) + Successes(dialed, i)
        invariant FreshIDs(client.dataSessions, ids, i) && Extends(old(client.dataSessions), client.dataSessions)
      {
        ghost var before := client.dataSessions;
        var ok := client.AddDataSession(ids(i), now, dialed(i));
        OneMore(old(client.dataSessions), before, client.dataSessions, ids, i, now, ok);
        SuccessesNext(dialed, i);
      }
    }

    /** One turn of `scalerLoop`, with no session lost meanwhile. */
    method Tick(active: int, now: int, dialed: nat -> bool, ids: nat -> string)
      requires Clamped(client.bounds) && client.primary && !client.closed && client.Count() <= client.bounds.maxSessions
      requires client.desiredTotal == 0 || InRange(client.bounds, client.desiredTotal)
      requires FreshIDs(client.dataSessions, ids, 0)
      modifies client`dataSessions, client`desiredTotal, client`lastScale
      ensures 1 <= client.Count() <= client.bounds.maxSessions && InRange(client.bounds, client.desiredTotal)
      ensures var b, current := client.bounds, old(client.Count());
        var desired := if old(client.desiredTotal) == 0 then b.initialSessions else old(client.desiredTotal);
        match Decide(b, desired, old(client.lastScale), current, active, now)
        case Hold => client.dataSessions == old(client.dataSessions) && client.desiredTotal == desired && client.lastScale == old(client.lastScale)
        case Burst(toAdd) => Extends(old(client.dataSessions), client.dataSessions) && client.Count() == current + Successes(dialed, toAdd) && client.desiredTotal == current + toAdd && client.lastScale == now
        case Grow(newDesired) => Extends(old(client.dataSessions), client.dataSessions) && client.Count() == current + Successes(dialed, 1) && client.desiredTotal == newDesired && client.lastScale == now
        case Shrink(newDesired) =>
          && client.Count() == current - Min(1, |Idle(old(client.dataSessions))|) && client.Count() >= b.minSessions
          && client.desiredTotal == newDesired && client.lastScale == now
          && OldestFirst(old(client.dataSessions), old(client.dataSessions).Keys - client.dataSessions.Keys, client.dataSessions.Keys)
    {
      hide Load, Idle, OldestFirst, FreshIDs, Extends, Successes;
      ExtendsItself(client.dataSessions);
      var desired := client.desiredTotal;
      if desired == 0 {
        desired := client.bounds.initialSessions;
        client.desiredTotal := desired;
      }
      var lastScale := client.lastScale;
      var current := client.SessionCount();
      DecisionInBounds(client.bounds, desired, lastScale, current, active, now);
      var load := Load(active, current);
      if load > BURST_THRESHOLD && current < client.bounds.maxSessions {
        var toAdd := Min(MAX_BURST_ADD, client.bounds.maxSessions - current);
        SuccessesBounded(dialed, toAdd);
        AddSessions(toAdd, now, dialed, ids);
        client.desiredTotal := current + toAdd;
        client.lastScale := now;
        return;
      }
      if load > SCALE_UP_LOAD && current < client.bounds.maxSessions {
        if now - lastScale < SCALE_UP_COOLDOWN {
          return;
        }
        var newDesired := Min(desired + 1, client.bounds.maxSessions);
        if newDesired > desired {
          SuccessesBounded(dialed, 1);
          AddSessions(1, now, dialed, ids);
          client.desiredTotal := newDesired;
          client.lastScale := now;
        }
        return;
      }
      if load < SCALE_DOWN_LOAD && current > client.bounds.minSessions {
        if now - lastScale < SCALE_DOWN_COOLDOWN {
          return;
        }
        var newDesired := Max(desired - 1, client.bounds.minSessions);
        if newDesired < desired && current > newDesired {
          RemoveOne();
          client.desiredTotal := newDesired;
          client.lastScale := now;
        }
      }
    }

    method RemoveOne()
      modifies client`dataSessions
      ensures client.Count() == old(client.Count()) - Min(1, |Idle(old(client.dataSessions))|)
      ensures OldestFirst(old(client.dataSessions), old(client.dataSessions).Keys - client.dataSessions.Keys, client.dataSessions.Keys)
    {
      ghost var before := client.dataSessions;
      ghost var removed := client.RemoveIdleSessions(1, _ => {});
      assert client.dataSessions.Keys == before.Keys - removed;
      assert before.Keys - client.dataSessions.Keys == removed;
      assert |before.Keys - removed| == |before.Keys| - |removed|;
    }
  }

  lemma {:induction false} SuccessesBounded(dialed: nat -> bool, n: nat)
    ensures Successes(dialed, n) <= n
  {
    if n > 0 { SuccessesBounded(dialed, n - 1); }
  }

  // ---------------------------------------------------------------- the client over time

  /** `lost` counts the sessions others have lost since the scaler looked. */
  datatype Phase =
    | Setup | Warming(left: nat) | Waiting | Measuring(desired: int, lastScale: int)
    | Adding(left: nat, target: int, at: int)
    | Removing(current: int, lost: nat, evicted: bool, target: int, at: int)

  /** `count` are the data sessions and the primary, which lives until the client closes. */
  datatype State = State(count: nat, desired: int, lastScale: int, phase: Phase)

  const INITIAL := State(1, 0, 0, Setup)

  datatype Step = Connect | Dial(ok: bool) | Begin | Measure(active: int, now: int) | Evict(idle: bool) | Finish | Lose

  /** `warmupSessions`, the scaler's turns, and a data session being lost at any moment; other steps do nothing. */
  function Next(b: Bounds, s: State, e: Step): State
    requires Clamped(b)
  {
    match (e, s.phase)
    case (Connect, Setup) => s.(desired := b.initialSessions, phase := Warming(Max(0, b.initialSessions - s.count)))
    case (Dial(ok), Warming(left)) => if left > 0 then s.(count := s.count + if ok then 1 else 0, phase := Warming(left - 1)) else s
    case (Dial(ok), Adding(left, target, at)) => if left > 0 then s.(count := s.count + if ok then 1 else 0, phase := Adding(left - 1, target, at)) else s
    case (Begin, Waiting) =>
      var desired := if s.desired == 0 then b.initialSessions else s.desired;
      s.(desired := desired, phase := Measuring(desired, s.lastScale))
    case (Measure(active, now), Measuring(desired, lastScale)) =>
      if s.count == 0 then s.(phase := Waiting)
      else (match Decide(b, desired, lastScale, s.count, active, now)
            case Hold => s.(phase := Waiting)
            case Burst(toAdd) => s.(phase := Adding(toAdd, s.count + toAdd, now))
            case Grow(newDesired) => s.(phase := Adding(1, newDesired, now))
            case Shrink(newDesired) => s.(phase := Removing(s.count, 0, false, newDesired, now)))
    case (Evict(idle), Removing(current, lost, evicted, target, at)) =>
      if !evicted && idle && s.count > 1 then s.(count := s.count - 1, phase := Removing(current, lost, true, target, at)) else s
    case (Finish, Warming(left)) => if left == 0 then s.(phase := Waiting) else s
    case (Finish, Adding(left, target, at)) => if left == 0 then s.(desired := target, lastScale := at, phase := Waiting) else s
    case (Finish, Removing(current, lost, evicted, target, at)) => s.(desired := target, lastScale := at, phase := Waiting)
    case (Lose, Removing(current, lost, evicted, target, at)) =>
      if s.count > 1 then s.(count := s.count - 1, phase := Removing(current, lost + 1, evicted, target, at)) else s
    case (Lose, _) => if s.count > 1 then s.(count := s.count - 1) else s
    case _ => s
  }

  function Run(b: Bounds, steps: seq<Step>): State
    requires Clamped(b)
  {
    if steps == [] then INITIAL else Next(b, Run(b, steps[..|steps| - 1]), steps[|steps| - 1])
  }

  lemma RunExtends(b: Bounds, steps: seq<Step>, e: Step)
    requires Clamped(b)
    ensures Run(b, []) == INITIAL && Run(b, steps + [e]) == Next(b, Run(b, steps), e)
  {
    assert (steps + [e])[..|steps|] == steps;
  }

  predicate Inv(b: Bounds, s: State) {
    && 1 <= s.count <= b.maxSessions
    && (if s.phase.Setup? then s.desired == 0 else InRange(b, s.desired))
    && match s.phase
       case Warming(left) => s.count + left <= b.maxSessions
       case Measuring(desired, _) => InRange(b, desired)
       case Adding(left, target, _) => s.count + left <= b.maxSessions && InRange(b, target)
       case Removing(current, lost, evicted, target, _) =>
         && current > b.minSessions && target >= b.minSessions && InRange(b, target)
         && s.count == current - lost - (if evicted then 1 else 0)
       case _ => true
  }

  lemma NextKeeps(b: Bounds, s: State, e: Step)
    requires Clamped(b) && Inv(b, s)
    ensures Inv(b, Next(b, s, e))
  {
    hide Decide;
    if e.Measure? && s.phase.Measuring? {
      DecisionInBounds(b, s.phase.desired, s.phase.lastScale, s.count, e.active, e.now);
    }
  }

  // ---------------------------------------------------------------- one turn from end to end

  /** The state after these dials. */
  function AfterDials(b: Bounds, s: State, outcomes: seq<bool>): State
    requires Clamped(b)
  {
    if outcomes == [] then s else Next(b, AfterDials(b, s, outcomes[..|outcomes| - 1]), Dial(outcomes[|outcomes| - 1]))
  }

  lemma {:induction false} DialsAdd(b: Bounds, s: State, outcomes: seq<bool>)
    requires Clamped(b) && (s.phase.Warming? || s.phase.Adding?) && |outcomes| <= s.phase.left
    ensures AfterDials(b, s, outcomes) == s.(count := s.count + Count(outcomes, true), phase := s.phase.(left := s.phase.left - |outcomes|))
  {
    if outcomes != [] {
      DialsAdd(b, s, outcomes[..|outcomes| - 1]);
    }
  }

  /** The warm-up dials what is missing of the initial number, and keeps what succeeds. */
  lemma WarmsUpExactly(b: Bounds, s: State, outcomes: seq<bool>)
    requires Clamped(b) && s.phase.Setup? && |outcomes| == if s.count < b.initialSessions then b.initialSessions - s.count else 0
    ensures Next(b, AfterDials(b, Next(b, s, Connect), outcomes), Finish)
            == s.(count := s.count + Count(outcomes, true), desired := b.initialSessions, phase := Waiting)
  {
    DialsAdd(b, Next(b, s, Connect), outcomes);
  }

  /** A session lost is one less, at any moment and whatever the scaler is at, but for the primary; and nothing ends before its dials do. */
  lemma LosesExactly(b: Bounds, s: State)
    requires Clamped(b)
    ensures var t := Next(b, s, Lose);
      && t.count == (if s.count > 1 then s.count - 1 else s.count) && t.desired == s.desired && t.lastScale == s.lastScale
      && (if s.phase.Removing? && s.count > 1 then t.phase == s.phase.(lost := s.phase.lost + 1) else t.phase == s.phase)
    ensures (s.phase.Warming? || s.phase.Adding?) && s.phase.left > 0 ==> Next(b, s, Finish) == s
  {
  }

  /** How many sessions a turn dials: up to four above nine tenths of the capacity, one above six tenths. */
  ghost predicate Adds(b: Bounds, s: State, desired: int, active: int, now: int, n: nat, target: int) {
    s.count < b.maxSessions
    && if 10 * active > 9 * 256 * s.count then
         n == (if b.maxSessions - s.count < 4 then b.maxSessions - s.count else 4) && target == s.count + n
       else
         && 10 * active > 6 * 256 * s.count && now - s.lastScale >= 1_000_000_000 && desired < b.maxSessions
         && n == 1 && target == desired + 1
  }

  /** Whether a turn takes one away: below two tenths, above the minimum, a minute after the last change. */
  ghost predicate TakesAway(b: Bounds, s: State, desired: int, active: int, now: int) {
    && 10 * active < 2 * 256 * s.count && s.count > b.minSessions && now - s.lastScale >= 60_000_000_000
    && desired > b.minSessions && s.count > desired - 1
  }

  /** One turn with no session lost meanwhile: what it dials, takes away or leaves, and the target and time it notes. */
  lemma TurnExactly(b: Bounds, s: State, active: int, now: int, n: nat, target: int, outcomes: seq<bool>)
    requires Clamped(b) && s.phase.Waiting? && s.count >= 1
    ensures var desired := if s.desired == 0 then b.initialSessions else s.desired;
      var t := Next(b, Next(b, s, Begin), Measure(active, now));
      && (Adds(b, s, desired, active, now, n, target) && |outcomes| == n ==>
            Next(b, AfterDials(b, t, outcomes), Finish) == s.(count := s.count + Count(outcomes, true), desired := target, lastScale := now))
      && (TakesAway(b, s, desired, active, now) ==>
            && Next(b, t, Finish) == s.(desired := desired - 1, lastScale := now)
            && (s.count > 1 ==> Next(b, Next(b, t, Evict(true)), Finish) == s.(count := s.count - 1, desired := desired - 1, lastScale := now)))
      && (!TakesAway(b, s, desired, active, now) && (forall n, target :: !Adds(b, s, desired, active, now, n, target)) ==> t == s.(desired := desired))
  {
    hide Decide;
    var desired := if s.desired == 0 then b.initialSessions else s.desired;
    var t := Next(b, Next(b, s, Begin), Measure(active, now));
    DecisionExactly(b, desired, s.lastScale, s.count, active, now);
    if Adds(b, s, desired, active, now, n, target) && |outcomes| == n {
      assert t == s.(desired := desired, phase := Adding(n, target, now));
      DialsAdd(b, t, outcomes);
    }
    var most := b.maxSessions - s.count;
    if most > 0 && forall n, target :: !Adds(b, s, desired, active, now, n, target) {
      assert !Adds(b, s, desired, active, now, if most < 4 then most else 4, s.count + if most < 4 then most else 4);
      assert !Adds(b, s, desired, active, now, 1, desired + 1);
    }
  }

  /** Whatever is lost and whichever dials fail: never above the maximum, and the target stays in range. */
  lemma {:induction false} PoolStaysInBounds(b: Bounds, steps: seq<Step>)
    requires Clamped(b)
    ensures Inv(b, Run(b, steps))
    ensures var s := Run(b, steps);
      1 <= s.count <= b.maxSessions && (s.phase.Setup? || Min(b.minSessions, 5) <= s.desired <= b.maxSessions)
  {
    hide Next;
    if steps != [] {
      PoolStaysInBounds(b, steps[..|steps| - 1]);
      NextKeeps(b, Run(b, steps[..|steps| - 1]), steps[|steps| - 1]);
    }
  }

  /** A scale-down leaves at least the minimum, less only what others lost while it ran. */
  lemma ScaleDownKeepsMinimum(b: Bounds, steps: seq<Step>)
    requires Clamped(b) && Run(b, steps).phase.Removing?
    ensures var s := Run(b, steps); s.count >= b.minSessions - s.phase.lost && s.phase.target >= b.minSessions
  {
    hide Next;
    PoolStaysInBounds(b, steps);
  }

  // ---------------------------------------------------------------- no thrashing

  lemma LoadAbove(active: int, n: int, t: real)
    requires n > 0
    ensures Load(active, n) > t <==> active as real > t * (n * CAPACITY_PER_SESSION) as real
    ensures Load(active, n) < t <==> active as real < t * (n * CAPACITY_PER_SESSION) as real
  {
    var x, y := active as real, (n * CAPACITY_PER_SESSION) as real;
    assert y > 0.0;
    Quotient(x, y, t);
  }

  lemma Quotient(x: real, y: real, t: real)
    requires y > 0.0
    ensures x / y > t <==> x > t * y
    ensures x / y < t <==> x < t * y
  {
    var q := x / y;
    assert x == q * y;
    if q > t {
      assert (q - t) * y > 0.0;
    } else if q < t {
      assert (t - q) * y > 0.0;
    }
  }

  /** After a scale-down the load is still below the scale-up threshold, by a wide margin. */
  lemma ScaleDownDoesNotThrash(active: int, n: int)
    requires n >= 2 && Load(active, n) < SCALE_DOWN_LOAD
    ensures Load(active, n - 1) < 0.4 < SCALE_UP_LOAD
  {
    hide Load;
    LoadAbove(active, n, SCALE_DOWN_LOAD);
    LoadAbove(active, n - 1, 0.4);
  }

  /** After adding one session the load is still above the scale-down threshold. */
  lemma ScaleUpDoesNotThrash(active: int, n: int)
    requires n >= 1 && Load(active, n) > SCALE_UP_LOAD
    ensures Load(active, n + 1) > 0.3 > SCALE_DOWN_LOAD
  {
    hide Load;
    LoadAbove(active, n, SCALE_UP_LOAD);
    LoadAbove(active, n + 1, 0.3);
  }

  /** A burst can undershoot the scale-down threshold only when it takes one session to five. */
  lemma BurstThrashesExactly(n: int, k: int)
    requires n >= 1 && 1 <= k <= MAX_BURST_ADD
    ensures (forall active :: Load(active, n) > BURST_THRESHOLD ==> !(Load(active, n + k) < SCALE_DOWN_LOAD)) <==> !(n == 1 && k == 4)
  {
    hide Load;
    if n == 1 && k == 4 {
      LoadAbove(231, 1, BURST_THRESHOLD);
      LoadAbove(231, 5, SCALE_DOWN_LOAD);
      assert Load(231, n) > BURST_THRESHOLD && Load(231, n + k) < SCALE_DOWN_LOAD;
    } else {
      forall active | Load(active, n) > BURST_THRESHOLD ensures !(Load(active, n + k) < SCALE_DOWN_LOAD) {
        LoadAbove(active, n, BURST_THRESHOLD);
        LoadAbove(active, n + k, SCALE_DOWN_LOAD);
      }
    }
  }

  /** With the same traffic, no later turn takes a scale-down back. */
  lemma ShrinkIsNotUndone(b: Bounds, desired: int, lastScale: int, n: int, active: int, now: int, desired': int, lastScale': int, now': int)
    requires Clamped(b) && n >= 1 && Decide(b, desired, lastScale, n, active, now).Shrink?
    ensures n >= 2 && (Decide(b, desired', lastScale', n - 1, active, now').Hold? || Decide(b, desired', lastScale', n - 1, active, now').Shrink?)
  {
    hide Load;
    ScaleDownDoesNotThrash(active, n);
  }

  /** No later turn takes back one session added, or a burst that starts from at least two sessions. */
  lemma GrowthIsNotUndone(b: Bounds, desired: int, lastScale: int, n: int, active: int, now: int, desired': int, lastScale': int, now': int)
    requires Clamped(b) && n >= 1
    ensures Decide(b, desired, lastScale, n, active, now).Grow? ==> !Decide(b, desired', lastScale', n + 1, active, now').Shrink?
    ensures var decision := Decide(b, desired, lastScale, n, active, now);
      decision.Burst? && n >= 2 ==> !Decide(b, desired', lastScale', n + decision.toAdd, active, now').Shrink?
  {
    hide Load;
    var decision := Decide(b, desired, lastScale, n, active, now);
    if decision.Grow? {
      ScaleUpDoesNotThrash(active, n);
    } else if decision.Burst? && n >= 2 {
      BurstThrashesExactly(n, decision.toAdd);
    }
  }
}
