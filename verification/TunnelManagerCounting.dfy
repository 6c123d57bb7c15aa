/**
 * Counting in the tunnel manager, over every interleaving: the counters equal what is stored plus
 * what is in flight plus what was displaced, so the limits hold and no guard is ever needed.
 */
module TunnelManagerCounting {
  import opened Collections
  import opened Subdomains
  import opened ShardedMap
  import opened TunnelManager

  /** Does this call hold a global slot that no stored tunnel accounts for? */
  function SlotWeight(p: Proc): int {
    if p.Reserved? || p.Admitted? || p.Naming? || p.Picked? || p.UndoIP? || p.UndoGlobal? || p.Uncounting? || p.SweepUncounting?
    then 1 else 0
  }

  /** Does this call hold a slot of `ip` that no stored tunnel accounts for? */
  function IPWeight(p: Proc, ip: string): int {
    if (p.Naming? && p.ip == ip) || (p.Picked? && p.ip == ip) || (p.UndoIP? && p.ip == ip)
       || (p.Uncounting? && p.ip == ip) || (p.UncountingIP? && p.ip == ip)
       || (p.SweepUncounting? && p.ip == ip) || (p.SweepUncountingIP? && p.ip == ip)
    then 1 else 0
  }

  function SlotsInFlight(ps: seq<Proc>): int {
    if ps == [] then 0 else SlotsInFlight(ps[..|ps| - 1]) + SlotWeight(ps[|ps| - 1])
  }

  function IPSlotsInFlight(ps: seq<Proc>, ip: string): int {
    if ps == [] then 0 else IPSlotsInFlight(ps[..|ps| - 1], ip) + IPWeight(ps[|ps| - 1], ip)
  }

  function DisplacedOf(ts: seq<Tunnel>, ip: string): nat {
    if ts == [] then 0 else DisplacedOf(ts[..|ts| - 1], ip) + if ts[|ts| - 1].ip == ip then 1 else 0
  }

  ghost predicate IPCounted(s: State, ip: string) {
    && IPCount(s.byIP, ip) == |OfIP(Flat(s.shards), ip)| + IPSlotsInFlight(s.procs, ip) + DisplacedOf(s.displaced, ip)
    && (ip in s.byIP ==> s.byIP[ip] > 0)
  }

  /** The books balance: globally and for every non-empty address. */
  ghost predicate Counted(s: State) {
    && s.count == |Flat(s.shards)| + SlotsInFlight(s.procs) + |s.displaced|
    && "" !in s.byIP
    && forall ip :: ip != "" ==> IPCounted(s, ip)
  }

  /** A call only ever holds per-address slots of a real address. */
  predicate ProcOk(p: Proc) {
    && (p.Admitted? || p.UndoIP? || p.UncountingIP? || p.SweepUncountingIP? ==> p.ip != "")
    && (p.Picked? ==> ValidateSubdomain(p.name) && !IsReserved(p.name))
  }

  ghost predicate Limited(c: Config, s: State) {
    && s.count <= c.maxTunnels
    && (forall ip :: ip in s.byIP ==> s.byIP[ip] <= c.maxTunnelsPerIP)
    && forall i :: 0 <= i < |s.procs| ==>
         && (s.procs[i].Loaded? ==> s.procs[i].current < c.maxTunnels)
         && ProcOk(s.procs[i])
  }

  ghost predicate Inv(c: Config, s: State) {
    |s.shards| == NUM_SHARDS && Placed(c.hash, s.shards) && Counted(s) && Limited(c, s)
  }

  // ---------------------------------------------------------------- sums over calls

  lemma {:induction false} SlotsUpdate(ps: seq<Proc>, i: nat, p: Proc)
    requires i < |ps|
    ensures SlotsInFlight(ps[i := p]) == SlotsInFlight(ps) - SlotWeight(ps[i]) + SlotWeight(p)
  {
    var n := |ps| - 1;
    if i == n {
      assert ps[i := p][..n] == ps[..n];
    } else {
      assert ps[i := p][..n] == ps[..n][i := p];
      SlotsUpdate(ps[..n], i, p);
    }
  }

  lemma {:induction false} IPSlotsUpdate(ps: seq<Proc>, i: nat, p: Proc, ip: string)
    requires i < |ps|
    ensures IPSlotsInFlight(ps[i := p], ip) == IPSlotsInFlight(ps, ip) - IPWeight(ps[i], ip) + IPWeight(p, ip)
  {
    var n := |ps| - 1;
    if i == n {
      assert ps[i := p][..n] == ps[..n];
    } else {
      assert ps[i := p][..n] == ps[..n][i := p];
      IPSlotsUpdate(ps[..n], i, p, ip);
    }
  }

  lemma {:induction false} SlotsNonNegative(ps: seq<Proc>, ip: string)
    ensures SlotsInFlight(ps) >= 0 && IPSlotsInFlight(ps, ip) >= 0
    ensures forall i :: 0 <= i < |ps| ==> SlotsInFlight(ps) >= SlotWeight(ps[i]) && IPSlotsInFlight(ps, ip) >= IPWeight(ps[i], ip)
  {
    if ps != [] {
      var n := |ps| - 1;
      SlotsNonNegative(ps[..n], ip);
      forall i | 0 <= i < |ps|
        ensures SlotsInFlight(ps) >= SlotWeight(ps[i]) && IPSlotsInFlight(ps, ip) >= IPWeight(ps[i], ip) {
        assert i < n ==> ps[i] == ps[..n][i];
      }
    }
  }

  lemma SpawnedWeights(ps: seq<Proc>, p: Proc, ip: string)
    ensures SlotsInFlight(ps + [p]) == SlotsInFlight(ps) + SlotWeight(p)
    ensures IPSlotsInFlight(ps + [p], ip) == IPSlotsInFlight(ps, ip) + IPWeight(p, ip)
  {
    assert (ps + [p])[..|ps|] == ps;
  }

  lemma DisplacedAppend(ts: seq<Tunnel>, t: Tunnel, ip: string)
    ensures DisplacedOf(ts + [t], ip) == DisplacedOf(ts, ip) + if t.ip == ip then 1 else 0
  {
    assert (ts + [t])[..|ts|] == ts;
  }

  // ---------------------------------------------------------------- kinds of change

  /** One call moves on; the counters follow the weights. */
  lemma MoveKeeps(c: Config, s: State, t: State, i: nat, p: Proc)
    requires Inv(c, s) && i < |s.procs| && t == s.(procs := s.procs[i := p], count := t.count, byIP := t.byIP)
    requires t.count == s.count + SlotWeight(p) - SlotWeight(s.procs[i]) && t.count <= c.maxTunnels
    requires ProcOk(p) && (p.Loaded? ==> p.current < c.maxTunnels)
    requires "" !in t.byIP
    requires forall ip :: ip != "" ==> IPCount(t.byIP, ip) == IPCount(s.byIP, ip) + IPWeight(p, ip) - IPWeight(s.procs[i], ip)
    requires forall ip :: ip in t.byIP ==> 0 < t.byIP[ip] <= c.maxTunnelsPerIP
    ensures Inv(c, t)
  {
    hide Flat, Placed, SlotsInFlight, IPSlotsInFlight, OfIP, ProcOk;
    SlotsUpdate(s.procs, i, p);
    forall ip | ip != "" ensures IPCounted(t, ip) {
      assert IPCounted(s, ip);
      IPSlotsUpdate(s.procs, i, p, ip);
    }
  }

  /** A move that touches no counter. */
  lemma QuietMoveKeeps(c: Config, s: State, i: nat, p: Proc)
    requires Inv(c, s) && i < |s.procs|
    requires SlotWeight(p) == SlotWeight(s.procs[i])
    requires forall ip :: ip != "" ==> IPWeight(p, ip) == IPWeight(s.procs[i], ip)
    requires ProcOk(p) && (p.Loaded? ==> p.current < c.maxTunnels)
    ensures Inv(c, SetProc(s, i, p))
  {
    hide Flat, Placed, SlotsInFlight, IPSlotsInFlight, OfIP, ProcOk;
    forall ip | ip in s.byIP ensures 0 < s.byIP[ip] <= c.maxTunnelsPerIP {
      assert IPCounted(s, ip);
    }
    MoveKeeps(c, s, SetProc(s, i, p), i, p);
  }

  lemma SpawnKeeps(c: Config, s: State, p: Proc)
    requires Inv(c, s) && SlotWeight(p) == 0 && ProcOk(p) && !p.Loaded?
    requires forall ip :: IPWeight(p, ip) == 0
    ensures Inv(c, s.(procs := s.procs + [p]))
  {
    hide Flat, Placed, SlotsInFlight, IPSlotsInFlight, OfIP, ProcOk;
    var t := s.(procs := s.procs + [p]);
    SpawnedWeights(s.procs, p, "");
    forall ip | ip != "" ensures IPCounted(t, ip) {
      assert IPCounted(s, ip);
      SpawnedWeights(s.procs, p, ip);
    }
  }

  /** The guarded decrement, when the guard holds. */
  lemma DecrementEffect(byIP: map<string, int>, ip: string)
    requires IPCount(byIP, ip) > 0
    ensures var after := DecrementIP(byIP, ip);
      && (forall other :: IPCount(after, other) == IPCount(byIP, other) - if other == ip then 1 else 0)
      && (forall other :: other in after ==> other in byIP && (other != ip ==> after[other] == byIP[other]))
      && (ip in after ==> 0 < after[ip] < byIP[ip])
  {
  }

  /** Whoever is about to decrement an address finds a positive count: the guard is always true. */
  lemma GuardHolds(c: Config, s: State, i: nat)
    requires Inv(c, s) && i < |s.procs|
    requires s.procs[i].UndoIP? || s.procs[i].UncountingIP? || s.procs[i].SweepUncountingIP?
    ensures IPCount(s.byIP, s.procs[i].ip) > 0
  {
    hide Flat, Placed;
    var ip := s.procs[i].ip;
    assert ProcOk(s.procs[i]);
    assert IPCounted(s, ip);
    SlotsNonNegative(s.procs, ip);
  }

  lemma GlobalGuardHolds(c: Config, s: State, i: nat)
    requires Inv(c, s) && i < |s.procs| && SlotWeight(s.procs[i]) == 1
    ensures s.count > 0
  {
    hide Flat, Placed;
    SlotsNonNegative(s.procs, "");
  }

  /** A call gives back its address slot. */
  lemma DecrementKeeps(c: Config, s: State, i: nat, p: Proc)
    requires Inv(c, s) && i < |s.procs|
    requires s.procs[i].UndoIP? || s.procs[i].UncountingIP? || s.procs[i].SweepUncountingIP?
    requires SlotWeight(p) == SlotWeight(s.procs[i]) && !p.Loaded? && ProcOk(p) && forall ip :: IPWeight(p, ip) == 0
    ensures Inv(c, SetProc(s, i, p).(byIP := DecrementIP(s.byIP, s.procs[i].ip)))
  {
    hide Flat, Placed, SlotsInFlight, IPSlotsInFlight, OfIP, ProcOk, DecrementIP;
    var ip := s.procs[i].ip;
    GuardHolds(c, s, i);
    DecrementEffect(s.byIP, ip);
    forall other | other in s.byIP ensures 0 < s.byIP[other] <= c.maxTunnelsPerIP {
      assert IPCounted(s, other);
    }
    MoveKeeps(c, s, SetProc(s, i, p).(byIP := DecrementIP(s.byIP, ip)), i, p);
  }

  /** A call stores the tunnel whose slots it holds under a free or a taken name. */
  lemma StoreKeeps(c: Config, s: State, t: State, i: nat, name: string, tunnel: Tunnel)
    requires Inv(c, s) && i < |s.procs| && (s.procs[i].Naming? || s.procs[i].Picked?)
    requires tunnel.ip == s.procs[i].ip && NameKept(tunnel, name)
    requires t == s.(shards := PutTunnel(c, s.shards, name, tunnel), procs := s.procs[i := Registered(name)], displaced := t.displaced)
    requires t.displaced == if name in Flat(s.shards) then s.displaced + [Flat(s.shards)[name]] else s.displaced
    ensures Inv(c, t) && Flat(t.shards) == Flat(s.shards)[name := tunnel]
  {
    hide Flat, Placed, SlotsInFlight, IPSlotsInFlight, OfIP, DisplacedOf, NameKept;
    var m := Flat(s.shards);
    PutIsFlat(c.hash, s.shards, name, tunnel);
    SlotsUpdate(s.procs, i, Registered(name));
    if name in m { OfIPReplace(m, name, tunnel, ""); } else { OfIPInsert(m, name, tunnel, ""); }
    forall ip | ip != "" ensures IPCounted(t, ip) {
      assert IPCounted(s, ip);
      IPSlotsUpdate(s.procs, i, Registered(name), ip);
      if name in m {
        OfIPReplace(m, name, tunnel, ip);
        DisplacedAppend(s.displaced, m[name], ip);
      } else {
        OfIPInsert(m, name, tunnel, ip);
      }
    }
  }

  /** What taking a stored tunnel out does to the shards. */
  lemma DeletedFrom(c: Config, s: State, name: string)
    requires Inv(c, s) && name in ShardOf(c, s, name).tunnels
    ensures var shards := DeleteTunnel(c, s.shards, name);
      |shards| == NUM_SHARDS && Placed(c.hash, shards) && Flat(shards) == Flat(s.shards) - {name}
    ensures name in Flat(s.shards) && Flat(s.shards)[name] == ShardOf(c, s, name).tunnels[name]
  {
    hide Flat, Counted, Limited;
    FlatLookup(c.hash, s.shards, name);
    DeleteIsFlat(c.hash, s.shards, name);
  }

  /** A call takes a stored tunnel out and now holds its slots. */
  lemma DeleteKeeps(c: Config, s: State, i: nat, name: string, p: Proc)
    requires Inv(c, s) && i < |s.procs| && name in ShardOf(c, s, name).tunnels
    requires s.procs[i].Removing? || s.procs[i].Sweeping?
    requires (p.Uncounting? || p.SweepUncounting?) && p.ip == ShardOf(c, s, name).tunnels[name].ip
    ensures var t := SetProc(s, i, p).(shards := DeleteTunnel(c, s.shards, name));
      Inv(c, t) && Flat(t.shards) == Flat(s.shards) - {name}
  {
    hide Flat, SlotsInFlight, IPSlotsInFlight, OfIP, DisplacedOf, Placed, DeleteTunnel, ShardOf;
    var m := Flat(s.shards);
    var t := SetProc(s, i, p).(shards := DeleteTunnel(c, s.shards, name));
    DeletedFrom(c, s, name);
    SlotsUpdate(s.procs, i, p);
    OfIPRemove(m, name, "");
    forall ip | ip != "" ensures IPCounted(t, ip) {
      assert IPCounted(s, ip);
      IPSlotsUpdate(s.procs, i, p, ip);
      OfIPRemove(m, name, ip);
    }
  }

  // ---------------------------------------------------------------- every step keeps the books

  lemma ClaimKeeps(c: Config, s: State, i: nat)
    requires Inv(c, s) && i < |s.procs| && s.procs[i].Naming?
    ensures var t := ClaimCustom(c, s, i); Inv(c, t) && t.displaced == s.displaced
  {
    hide Flat, Counted, Limited, Placed, IsReserved, ValidateSubdomain;
    var p := s.procs[i];
    if !ValidateSubdomain(p.custom) {
      QuietMoveKeeps(c, s, i, Undo(p.ip, InvalidSubdomain));
    } else if IsReserved(p.custom) {
      QuietMoveKeeps(c, s, i, Undo(p.ip, ReservedSubdomain));
    } else if p.custom in ShardOf(c, s, p.custom).used {
      QuietMoveKeeps(c, s, i, Undo(p.ip, SubdomainTaken));
    } else {
      UsedIsStored(c, s, p.custom);
      FlatLookup(c.hash, s.shards, p.custom);
      StoreKeeps(c, s, ClaimCustom(c, s, i), i, p.custom, Tunnel(p.id, p.custom, p.ip));
    }
  }

  lemma UsedIsStored(c: Config, s: State, name: string)
    requires |s.shards| == NUM_SHARDS && Placed(c.hash, s.shards)
    ensures name in ShardOf(c, s, name).used <==> name in ShardOf(c, s, name).tunnels
    ensures name in ShardOf(c, s, name).tunnels <==> name in Flat(s.shards)
  {
    FlatLookup(c.hash, s.shards, name);
    assert ShardPlaced(c.hash, s.shards[Slot(c.hash, name)], Slot(c.hash, name));
  }

  /** Whether the step stores a generated name over a tunnel that is there. */
  ghost predicate Displaces(c: Config, s: State, e: Step) {
    e.CommitGenerated? && e.i < |s.procs| && s.procs[e.i].Picked? && s.procs[e.i].name in Flat(s.shards)
  }

  lemma StoreGeneratedKeeps(c: Config, s: State, i: nat)
    requires Inv(c, s) && i < |s.procs| && s.procs[i].Picked?
    ensures var t := StoreGenerated(c, s, i); Inv(c, t) && |t.displaced| == |s.displaced| + if Displaces(c, s, CommitGenerated(i)) then 1 else 0
  {
    hide Flat, Counted, Placed, IsReserved, ValidateSubdomain;
    var p := s.procs[i];
    assert ProcOk(p);
    FlatLookup(c.hash, s.shards, p.name);
    StoreKeeps(c, s, StoreGenerated(c, s, i), i, p.name, Tunnel(p.id, p.name, p.ip));
  }

  /** The part of a registration before it has a name. */
  predicate IsReserving(e: Step) {
    e.Register? || e.Load? || e.Cas? || e.RateCheck? || e.ReserveIP?
  }

  lemma ReservingKeeps(c: Config, s: State, e: Step)
    requires Inv(c, s) && IsReserving(e)
    ensures Inv(c, RegisterStep(c, s, e)) && RegisterStep(c, s, e).displaced == s.displaced
  {
    hide Flat, Counted, Placed, ValidateSubdomain, IsReserved;
    match e
    case Register(custom, ip, id) => SpawnKeeps(c, s, Loading(custom, ip, id));
    case Load(i) =>
      if i < |s.procs| && s.procs[i].Loading? {
        var p := s.procs[i];
        QuietMoveKeeps(c, s, i, if s.count >= c.maxTunnels then Failed(TooManyTunnels) else Loaded(p.custom, p.ip, p.id, s.count));
      }
    case Cas(i) => if i < |s.procs| && s.procs[i].Loaded? { CasKeeps(c, s, i); }
    case RateCheck(i, ok) => if i < |s.procs| && s.procs[i].Reserved? { RateCheckKeeps(c, s, i, ok); }
    case ReserveIP(i) => if i < |s.procs| && s.procs[i].Admitted? { ReserveIPKeeps(c, s, i); }
  }

  lemma NamingKeeps(c: Config, s: State, e: Step)
    requires Inv(c, s) && !IsRemoval(e) && !IsSweep(e) && !IsReserving(e)
    ensures Inv(c, RegisterStep(c, s, e))
    ensures !e.CommitGenerated? ==> RegisterStep(c, s, e).displaced == s.displaced
    ensures |RegisterStep(c, s, e).displaced| == |s.displaced| + if Displaces(c, s, e) then 1 else 0
  {
    hide Flat, Counted, Placed, ClaimCustom, StoreGenerated, IsGenerated, ValidateSubdomain, IsReserved, DecrementIP;
    match e
    case CommitCustom(i) => if i < |s.procs| && s.procs[i].Naming? && s.procs[i].custom != "" { ClaimKeeps(c, s, i); }
    case Generate(i, name) =>
      if i < |s.procs| && s.procs[i].Naming? && s.procs[i].custom == "" && CanGenerate(c, s, name) {
        GeneratedNamesAreValid(name, if IsGenerated(name, 8) then 8 else 6);
        QuietMoveKeeps(c, s, i, Picked(name, s.procs[i].ip, s.procs[i].id));
      }
    case CommitGenerated(i) => if i < |s.procs| && s.procs[i].Picked? { StoreGeneratedKeeps(c, s, i); }
    case RollbackIP(i) =>
      if i < |s.procs| && s.procs[i].UndoIP? { DecrementKeeps(c, s, i, UndoGlobal(s.procs[i].error)); }
    case RollbackGlobal(i) =>
      if i < |s.procs| && s.procs[i].UndoGlobal? { UncountKeeps(c, s, i, Failed(s.procs[i].error)); }
  }

  lemma RegisterKeeps(c: Config, s: State, e: Step)
    requires Inv(c, s) && !IsRemoval(e) && !IsSweep(e)
    ensures Inv(c, RegisterStep(c, s, e))
    ensures !e.CommitGenerated? ==> RegisterStep(c, s, e).displaced == s.displaced
    ensures |RegisterStep(c, s, e).displaced| == |s.displaced| + if Displaces(c, s, e) then 1 else 0
  {
    hide Flat, Inv, RegisterStep;
    if IsReserving(e) { ReservingKeeps(c, s, e); } else { NamingKeeps(c, s, e); }
  }

  lemma AllPositive(c: Config, s: State)
    requires Inv(c, s)
    ensures forall ip :: ip in s.byIP ==> 0 < s.byIP[ip] <= c.maxTunnelsPerIP
  {
    forall ip | ip in s.byIP ensures 0 < s.byIP[ip] {
      assert IPCounted(s, ip);
    }
  }

  /** A compare-and-swap that succeeds saw a count below the limit. */
  lemma CasKeeps(c: Config, s: State, i: nat)
    requires Inv(c, s) && i < |s.procs| && s.procs[i].Loaded?
    ensures Inv(c, RegisterStep(c, s, Cas(i)))
  {
    hide Flat, Placed;
    AllPositive(c, s);
    var p := s.procs[i];
    if s.count == p.current {
      MoveKeeps(c, s, RegisterStep(c, s, Cas(i)), i, Reserved(p.custom, p.ip, p.id));
    } else {
      QuietMoveKeeps(c, s, i, Loading(p.custom, p.ip, p.id));
    }
  }

  lemma RateCheckKeeps(c: Config, s: State, i: nat, ok: bool)
    requires Inv(c, s) && i < |s.procs| && s.procs[i].Reserved?
    ensures Inv(c, RegisterStep(c, s, RateCheck(i, ok)))
  {
    hide Flat, Placed, Counted, Limited;
    var p := s.procs[i];
    if p.ip == "" { QuietMoveKeeps(c, s, i, Naming(p.custom, p.ip, p.id)); }
    else if !ok { QuietMoveKeeps(c, s, i, UndoGlobal(RateLimitExceeded)); }
    else { QuietMoveKeeps(c, s, i, Admitted(p.custom, p.ip, p.id)); }
  }

  lemma ReserveIPKeeps(c: Config, s: State, i: nat)
    requires Inv(c, s) && i < |s.procs| && s.procs[i].Admitted?
    ensures Inv(c, RegisterStep(c, s, ReserveIP(i)))
  {
    hide Flat, Placed;
    AllPositive(c, s);
    var p := s.procs[i];
    assert ProcOk(p);
    if IPCount(s.byIP, p.ip) >= c.maxTunnelsPerIP {
      QuietMoveKeeps(c, s, i, UndoGlobal(TooManyPerIP));
    } else {
      assert IPCounted(s, p.ip);
      SlotsNonNegative(s.procs, p.ip);
      MoveKeeps(c, s, RegisterStep(c, s, ReserveIP(i)), i, Naming(p.custom, p.ip, p.id));
    }
  }

  /** A call gives back its global slot. */
  lemma UncountKeeps(c: Config, s: State, i: nat, p: Proc)
    requires Inv(c, s) && i < |s.procs| && SlotWeight(s.procs[i]) == 1 && SlotWeight(p) == 0 && ProcOk(p) && !p.Loaded?
    requires forall ip :: ip != "" ==> IPWeight(p, ip) == IPWeight(s.procs[i], ip)
    ensures Inv(c, SetProc(s, i, p).(count := s.count - 1))
  {
    hide Flat, Placed;
    AllPositive(c, s);
    MoveKeeps(c, s, SetProc(s, i, p).(count := s.count - 1), i, p);
  }

  lemma RemoveKeeps(c: Config, s: State, e: Step)
    requires Inv(c, s) && IsRemoval(e)
    ensures Inv(c, RemoveStep(c, s, e)) && RemoveStep(c, s, e).displaced == s.displaced
  {
    hide Flat, Counted, Limited, Placed, DeleteTunnel, DecrementIP;
    match e
    case Unregister(name) => SpawnKeeps(c, s, Removing(name));
    case RemoveTunnel(i) =>
      if i < |s.procs| && s.procs[i].Removing? {
        var name := s.procs[i].name;
        var tunnels := ShardOf(c, s, name).tunnels;
        if name !in tunnels { QuietMoveKeeps(c, s, i, Removed); } else { DeleteKeeps(c, s, i, name, Uncounting(tunnels[name].ip)); }
      }
    case Uncount(i) =>
      if i < |s.procs| && s.procs[i].Uncounting? {
        UncountKeeps(c, s, i, if s.procs[i].ip == "" then Removed else UncountingIP(s.procs[i].ip));
      }
    case UncountIP(i) => if i < |s.procs| && s.procs[i].UncountingIP? { DecrementKeeps(c, s, i, Removed); }
  }

  lemma SweepKeeps(c: Config, s: State, e: Step)
    requires Inv(c, s) && IsSweep(e)
    ensures Inv(c, SweepStep(c, s, e)) && SweepStep(c, s, e).displaced == s.displaced
  {
    hide Flat, Counted, Limited, Placed, DeleteTunnel, DecrementIP;
    match e
    case Sweep(shard, stale) => SpawnKeeps(c, s, Sweeping(stale));
    case SweepRemove(i) =>
      if i < |s.procs| && s.procs[i].Sweeping? && s.procs[i].todo != [] {
        var name, rest := s.procs[i].todo[0], s.procs[i].todo[1..];
        var tunnels := ShardOf(c, s, name).tunnels;
        if name !in tunnels { QuietMoveKeeps(c, s, i, Sweeping(rest)); } else { DeleteKeeps(c, s, i, name, SweepUncounting(rest, tunnels[name].ip)); }
      }
    case SweepUncount(i) =>
      if i < |s.procs| && s.procs[i].SweepUncounting? {
        var p := s.procs[i];
        UncountKeeps(c, s, i, if p.ip == "" then Sweeping(p.todo) else SweepUncountingIP(p.todo, p.ip));
      }
    case SweepUncountIP(i) => if i < |s.procs| && s.procs[i].SweepUncountingIP? { DecrementKeeps(c, s, i, Sweeping(s.procs[i].todo)); }
  }

  lemma NextKeeps(c: Config, s: State, e: Step)
    requires Inv(c, s)
    ensures Inv(c, Next(c, s, e))
    ensures !e.CommitGenerated? ==> Next(c, s, e).displaced == s.displaced
    ensures |Next(c, s, e).displaced| == |s.displaced| + if Displaces(c, s, e) then 1 else 0
  {
    hide Inv, RegisterStep, RemoveStep, SweepStep;
    if IsRemoval(e) { RemoveKeeps(c, s, e); } else if IsSweep(e) { SweepKeeps(c, s, e); } else { RegisterKeeps(c, s, e); }
  }

  lemma {:induction false} FlatOfEmpty(shards: seq<Shard>)
    requires forall i :: 0 <= i < |shards| ==> shards[i] == EMPTY_SHARD
    ensures Flat(shards) == map[]
  {
    if shards != [] {
      FlatOfEmpty(shards[..|shards| - 1]);
    }
  }

  lemma StartsBalanced(c: Config)
    ensures Inv(c, Initial())
  {
    FlatOfEmpty(Initial().shards);
    assert forall ip :: IPCounted(Initial(), ip) by {
      assert forall ip :: OfIP(map[], ip) == {};
    }
  }

  /** Over every interleaving: both equations, both limits, no zero entries, keys only in their own shard. */
  lemma {:induction false} BooksBalance(c: Config, steps: seq<Step>)
    ensures Inv(c, Run(c, steps))
  {
    if steps == [] {
      StartsBalanced(c);
    } else {
      BooksBalance(c, steps[..|steps| - 1]);
      NextKeeps(c, Run(c, steps[..|steps| - 1]), steps[|steps| - 1]);
    }
  }

  // ---------------------------------------------------------------- what that means

  /** No generated name was taken between its choice and its registration. */
  ghost predicate FreshRun(c: Config, steps: seq<Step>) {
    steps == [] ||
    (FreshRun(c, steps[..|steps| - 1]) && !Displaces(c, Run(c, steps[..|steps| - 1]), steps[|steps| - 1]))
  }

  /** The step stores a generated name over a tunnel of this address. */
  ghost predicate DisplacesOf(c: Config, s: State, e: Step, ip: string) {
    Displaces(c, s, e) && Flat(s.shards)[s.procs[e.i].name].ip == ip
  }

  /** No tunnel of this address was displaced. */
  ghost predicate FreshRunFor(c: Config, steps: seq<Step>, ip: string) {
    steps == [] ||
    (FreshRunFor(c, steps[..|steps| - 1], ip) && !DisplacesOf(c, Run(c, steps[..|steps| - 1]), steps[|steps| - 1], ip))
  }

  lemma DisplacedNext(c: Config, s: State, e: Step)
    requires Inv(c, s)
    ensures Next(c, s, e).displaced == if Displaces(c, s, e) then s.displaced + [Flat(s.shards)[s.procs[e.i].name]] else s.displaced
  {
    hide Flat, Counted, Limited;
    if e.CommitGenerated? {
      if e.i < |s.procs| && s.procs[e.i].Picked? {
        FlatLookup(c.hash, s.shards, s.procs[e.i].name);
      }
    } else {
      hide Inv;
      NextKeeps(c, s, e);
    }
  }

  lemma {:induction false} FreshForExactly(c: Config, steps: seq<Step>, ip: string)
    ensures FreshRunFor(c, steps, ip) <==> DisplacedOf(Run(c, steps).displaced, ip) == 0
  {
    hide Flat, Inv, Next;
    if steps != [] {
      var before, e := steps[..|steps| - 1], steps[|steps| - 1];
      var s := Run(c, before);
      FreshForExactly(c, before, ip);
      BooksBalance(c, before);
      DisplacedNext(c, s, e);
      if Displaces(c, s, e) {
        DisplacedAppend(s.displaced, Flat(s.shards)[s.procs[e.i].name], ip);
      }
    }
  }

  /** Nothing was displaced if and only if every generated name was still free when it was stored. */
  lemma {:induction false} FreshExactly(c: Config, steps: seq<Step>)
    ensures FreshRun(c, steps) <==> Run(c, steps).displaced == []
  {
    hide Flat, Inv, Next;
    if steps != [] {
      var before, e := steps[..|steps| - 1], steps[|steps| - 1];
      FreshExactly(c, before);
      BooksBalance(c, before);
      NextKeeps(c, Run(c, before), e);
    }
  }

  /**
   * The counters, exactly.  The global count is the stored tunnels and the slots in flight if and only if
   * every generated name was still free when it was stored, and the displaced tunnels more otherwise;
   * likewise per address; both stay within their limits.
   */
  lemma CountsExactly(c: Config, steps: seq<Step>)
    ensures var s := Run(c, steps);
      && s.count == TotalTunnels(s.shards) + SlotsInFlight(s.procs) + |s.displaced|
      && TotalTunnels(s.shards) == |Flat(s.shards)| <= s.count <= c.maxTunnels
      && (s.count == TotalTunnels(s.shards) + SlotsInFlight(s.procs) <==> FreshRun(c, steps))
    ensures forall ip :: ip != "" ==> IPCountsExactly(c, steps, ip)
  {
    hide Flat, Placed, Next, FreshRun, Run, IPCountsExactly;
    var s := Run(c, steps);
    BooksBalance(c, steps);
    FreshExactly(c, steps);
    FlatSize(c.hash, s.shards);
    SlotsNonNegative(s.procs, "");
    forall ip | ip != "" ensures IPCountsExactly(c, steps, ip) {
      IPExactly(c, steps, ip);
    }
  }

  ghost predicate IPCountsExactly(c: Config, steps: seq<Step>, ip: string) {
    var s := Run(c, steps);
    && IPCount(s.byIP, ip) == |OfIP(Flat(s.shards), ip)| + IPSlotsInFlight(s.procs, ip) + DisplacedOf(s.displaced, ip)
    && |OfIP(Flat(s.shards), ip)| <= IPCount(s.byIP, ip) <= c.maxTunnelsPerIP
    && (ip in s.byIP ==> s.byIP[ip] > 0)
    && (IPCount(s.byIP, ip) == |OfIP(Flat(s.shards), ip)| + IPSlotsInFlight(s.procs, ip) <==> FreshRunFor(c, steps, ip))
  }

  lemma IPExactly(c: Config, steps: seq<Step>, ip: string)
    requires ip != ""
    ensures IPCountsExactly(c, steps, ip)
  {
    hide Flat, Placed, Next, Run, FreshRunFor;
    BooksBalance(c, steps);
    FreshForExactly(c, steps, ip);
    IPWithinLimit(c, Run(c, steps), ip);
  }

  lemma IPWithinLimit(c: Config, s: State, ip: string)
    requires Inv(c, s) && ip != ""
    ensures IPCounted(s, ip) && |OfIP(Flat(s.shards), ip)| + DisplacedOf(s.displaced, ip) <= IPCount(s.byIP, ip) <= c.maxTunnelsPerIP
  {
    hide Flat, Placed;
    assert IPCounted(s, ip);
    SlotsNonNegative(s.procs, ip);
  }

  /** Every `> 0` guard before a decrement is true whenever it is reached. */
  lemma GuardsNeverFail(c: Config, steps: seq<Step>, i: nat)
    requires i < |Run(c, steps).procs|
    ensures var s := Run(c, steps); var p := s.procs[i];
      && (p.UndoIP? || p.UncountingIP? || p.SweepUncountingIP? ==> IPCount(s.byIP, p.ip) > 0)
      && (SlotWeight(p) == 1 ==> s.count > 0)
  {
    var s := Run(c, steps);
    BooksBalance(c, steps);
    if s.procs[i].UndoIP? || s.procs[i].UncountingIP? || s.procs[i].SweepUncountingIP? { GuardHolds(c, s, i); }
    if SlotWeight(s.procs[i]) == 1 { GlobalGuardHolds(c, s, i); }
  }

  /** A requested name is stored only if it is free; a successful claim adds it and changes nothing else. */
  lemma CustomNeverDisplaces(c: Config, steps: seq<Step>, i: nat)
    requires i < |Run(c, steps).procs| && Run(c, steps).procs[i].Naming? && Run(c, steps).procs[i].custom != ""
    ensures var s := Run(c, steps); var t := Next(c, s, CommitCustom(i)); var p := s.procs[i];
      && (t.procs[i].Registered? <==> ValidateSubdomain(p.custom) && !IsReserved(p.custom) && p.custom !in Flat(s.shards))
      && (t.procs[i].Registered? ==> Flat(t.shards) == Flat(s.shards)[p.custom := Tunnel(p.id, p.custom, p.ip)])
      && (!t.procs[i].Registered? ==> t.shards == s.shards)
      && t.displaced == s.displaced
  {
    hide Flat, Counted, Limited, IsReserved, ValidateSubdomain;
    var s := Run(c, steps);
    var p := s.procs[i];
    BooksBalance(c, steps);
    UsedIsStored(c, s, p.custom);
    if ValidateSubdomain(p.custom) && !IsReserved(p.custom) {
      PutIsFlat(c.hash, s.shards, p.custom, Tunnel(p.id, p.custom, p.ip));
    }
  }

  /** No call is between taking a slot and settling it. */
  ghost predicate Quiet(ps: seq<Proc>) {
    forall i :: 0 <= i < |ps| ==> SlotWeight(ps[i]) == 0
  }

  lemma {:induction false} NoSlotsInFlight(ps: seq<Proc>)
    requires Quiet(ps)
    ensures SlotsInFlight(ps) == 0
  {
    if ps != [] {
      NoSlotsInFlight(ps[..|ps| - 1]);
    }
  }

  /** Once every call has finished, the manager counts what it stores and what it lost for good. */
  lemma QuietCount(c: Config, steps: seq<Step>)
    requires Quiet(Run(c, steps).procs)
    ensures var s := Run(c, steps); s.count == TotalTunnels(s.shards) + |s.displaced|
  {
    NoSlotsInFlight(Run(c, steps).procs);
    CountsExactly(c, steps);
  }

  // ---------------------------------------------------------------- a displacing run

  const NAME := "aaaaaaaa"

  lemma RunExtends(c: Config, steps: seq<Step>, e: Step)
    ensures Run(c, steps + [e]) == Next(c, Run(c, steps), e)
  {
    assert (steps + [e])[..|steps|] == steps;
  }

  /** The steps of the i-th call up to its choice of a name. */
  function Choosing(i: nat): seq<Step> {
    [Register("", "", i), Load(i), Cas(i), RateCheck(i, true), Generate(i, NAME)]
  }

  /** A call alone takes a global slot, if there is one. */
  lemma SlotTaken(c: Config, s: State)
    requires |s.shards| == NUM_SHARDS && s.count < c.maxTunnels
    ensures var i := |s.procs|;
      Next(c, Next(c, Next(c, s, Register("", "", i)), Load(i)), Cas(i)) == s.(procs := s.procs + [Reserved("", "", i)], count := s.count + 1)
  {
    var i := |s.procs|;
    var s1 := Next(c, s, Register("", "", i));
    var s2 := Next(c, s1, Load(i));
    assert s2 == s.(procs := s.procs + [Loaded("", "", i, s.count)]);
  }

  /** And then chooses a name. */
  lemma NameChosen(c: Config, s: State, ps: seq<Proc>, i: nat)
    requires |s.shards| == NUM_SHARDS && i == |ps| && s.procs == ps + [Reserved("", "", i)]
    ensures Next(c, Next(c, s, RateCheck(i, true)), Generate(i, NAME)) == s.(procs := ps + [Picked(NAME, "", i)])
  {
    hide IsGenerated;
    NameIsGenerated();
    assert Next(c, s, RateCheck(i, true)) == s.(procs := ps + [Naming("", "", i)]);
  }

  lemma ChoosingEffect(c: Config, steps: seq<Step>)
    requires var s := Run(c, steps); s.count < c.maxTunnels
    ensures var s := Run(c, steps);
      Run(c, steps + Choosing(|s.procs|)) == s.(procs := s.procs + [Picked(NAME, "", |s.procs|)], count := s.count + 1)
  {
    hide Run, Next;
    var s := Run(c, steps);
    var i := |s.procs|;
    var a := steps + [Register("", "", i)];
    var b := a + [Load(i)] + [Cas(i)];
    RunExtends(c, steps, Register("", "", i));
    RunExtends(c, a, Load(i));
    RunExtends(c, a + [Load(i)], Cas(i));
    RunExtends(c, b, RateCheck(i, true));
    RunExtends(c, b + [RateCheck(i, true)], Generate(i, NAME));
    SlotTaken(c, s);
    NameChosen(c, Run(c, b), s.procs, i);
    assert steps + Choosing(i) == b + [RateCheck(i, true)] + [Generate(i, NAME)];
  }

  lemma NameIsGenerated()
    ensures IsGenerated(NAME, 8)
  {
    assert forall i :: 0 <= i < |NAME| ==> NAME[i] == SubdomainChars()[0];
  }

  /**
   * Without freshness a slot can be lost: two registrations choose the same name, the second one
   * overwrites the first, and with nothing in flight the count says two while one tunnel is stored.
   */
  lemma SlotCanBeLost(c: Config)
    requires c.maxTunnels >= 2
    ensures var s := Run(c, Choosing(0) + Choosing(1) + [CommitGenerated(0)] + [CommitGenerated(1)]);
      s.count == 2 && TotalTunnels(s.shards) == 1 && SlotsInFlight(s.procs) == 0 && s.displaced == [Tunnel(0, NAME, "")]
  {
    hide Run, Next, Flat, TotalTunnels, SlotsInFlight, Inv;
    StartsInitially(c);
    assert [] + Choosing(0) == Choosing(0);
    ChoosingEffect(c, []);
    ChoosingEffect(c, Choosing(0));
    var both := Choosing(0) + Choosing(1);
    RunExtends(c, both, CommitGenerated(0));
    RunExtends(c, both + [CommitGenerated(0)], CommitGenerated(1));
    StoresTwice(c, Run(c, both));
    var s := Run(c, both + [CommitGenerated(0)] + [CommitGenerated(1)]);
    NoSlotsInFlight(s.procs);
    CountsExactly(c, both + [CommitGenerated(0)] + [CommitGenerated(1)]);
  }

  /** Two calls that chose the same free name both store it. */
  lemma StoresTwice(c: Config, s: State)
    requires |s.shards| == NUM_SHARDS && s.procs == [Picked(NAME, "", 0), Picked(NAME, "", 1)] && s.displaced == []
    requires NAME !in ShardOf(c, s, NAME).tunnels
    ensures var t := Next(c, Next(c, s, CommitGenerated(0)), CommitGenerated(1));
      t.procs == [Registered(NAME), Registered(NAME)] && t.displaced == [Tunnel(0, NAME, "")] && t.count == s.count
  {
  }

  lemma StartsInitially(c: Config)
    ensures Run(c, []) == Initial() && Initial().procs == [] && Initial().displaced == [] && Initial().count == 0
    ensures NAME !in ShardOf(c, Initial(), NAME).tunnels
  {
  }
}
