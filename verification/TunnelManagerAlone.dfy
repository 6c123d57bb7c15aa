/**
 * One call of the tunnel manager on its own, from any state other calls may have left: exactly when a
 * registration succeeds, what it then adds, that a refused one leaves nothing, and that removal takes
 * back what registration added.
 */
module TunnelManagerAlone {
  import opened Collections
  import opened Subdomains
  import opened ShardedMap
  import opened TunnelManager
  import opened TunnelManagerCounting

  /** A registration taking all its steps with nobody in between; those that do not apply do nothing. */
  function RegisterAlone(c: Config, s: State, custom: string, ip: string, id: nat, ok: bool, name: string): State
    requires |s.shards| == NUM_SHARDS
  {
    var i := |s.procs|;
    var slot := Next(c, Next(c, Next(c, s, Register(custom, ip, id)), Load(i)), Cas(i));
    var admitted := Next(c, Next(c, slot, RateCheck(i, ok)), ReserveIP(i));
    var named := Next(c, Next(c, Next(c, admitted, CommitCustom(i)), Generate(i, name)), CommitGenerated(i));
    Next(c, Next(c, named, RollbackIP(i)), RollbackGlobal(i))
  }

  function UnregisterAlone(c: Config, s: State, name: string): State
    requires |s.shards| == NUM_SHARDS
  {
    var i := |s.procs|;
    Next(c, Next(c, Next(c, Next(c, s, Unregister(name)), RemoveTunnel(i)), Uncount(i)), UncountIP(i))
  }

  function SweepAlone(c: Config, s: State, name: string): State
    requires |s.shards| == NUM_SHARDS
  {
    var i := |s.procs|;
    Next(c, Next(c, Next(c, Next(c, s, Sweep(Slot(c.hash, name), [name])), SweepRemove(i)), SweepUncount(i)), SweepUncountIP(i))
  }

  /** `s` with one more call, and otherwise only the counters changed. */
  ghost predicate Called(s: State, t: State, p: Proc, count: int, byIP: map<string, int>) {
    t == s.(procs := s.procs + [p], count := count, byIP := byIP)
  }

  lemma TakesSlot(c: Config, s: State, custom: string, ip: string, id: nat)
    requires |s.shards| == NUM_SHARDS
    ensures var i := |s.procs|; var t := Next(c, Next(c, Next(c, s, Register(custom, ip, id)), Load(i)), Cas(i));
      if s.count < c.maxTunnels then Called(s, t, Reserved(custom, ip, id), s.count + 1, s.byIP)
      else Called(s, t, Failed(TooManyTunnels), s.count, s.byIP)
  {
    var i := |s.procs|;
    var s1 := Next(c, s, Register(custom, ip, id));
    var s2 := Next(c, s1, Load(i));
    assert s2 == s.(procs := s.procs + [if s.count < c.maxTunnels then Loaded(custom, ip, id, s.count) else Failed(TooManyTunnels)]);
  }

  /** The address check of a call that has its slot. */
  lemma TakesIPSlot(c: Config, s: State, t: State, custom: string, ip: string, id: nat, ok: bool, count: int)
    requires |s.shards| == NUM_SHARDS && Called(s, t, Reserved(custom, ip, id), count, s.byIP)
    ensures var i := |s.procs|; var u, n := Next(c, Next(c, t, RateCheck(i, ok)), ReserveIP(i)), if ip in s.byIP then s.byIP[ip] else 0;
      if ip == "" then Called(s, u, Naming(custom, ip, id), count, s.byIP)
      else if !ok then Called(s, u, UndoGlobal(RateLimitExceeded), count, s.byIP)
      else if n >= c.maxTunnelsPerIP then Called(s, u, UndoGlobal(TooManyPerIP), count, s.byIP)
      else Called(s, u, Naming(custom, ip, id), count, s.byIP[ip := n + 1])
  {
    var i := |s.procs|;
    var t1 := Next(c, t, RateCheck(i, ok));
    assert t1 == t.(procs := s.procs + [if ip == "" then Naming(custom, ip, id) else if !ok then UndoGlobal(RateLimitExceeded) else Admitted(custom, ip, id)]);
  }

  lemma UsedInFlat(c: Config, s: State, name: string)
    requires |s.shards| == NUM_SHARDS && Placed(c.hash, s.shards)
    ensures name in ShardOf(c, s, name).used <==> name in Flat(s.shards)
    ensures name in ShardOf(c, s, name).tunnels <==> name in Flat(s.shards)
    ensures name in Flat(s.shards) ==> ShardOf(c, s, name).tunnels[name] == Flat(s.shards)[name]
  {
    hide Flat;
    FlatLookup(c.hash, s.shards, name);
    assert ShardPlaced(c.hash, s.shards[Slot(c.hash, name)], Slot(c.hash, name));
  }

  /** The state with one more tunnel stored, by the call that becomes `Registered`. */
  ghost predicate Stored(c: Config, s: State, t: State, u: State, wanted: string, tunnel: Tunnel) {
    && u == t.(shards := u.shards, procs := s.procs + [Registered(wanted)])
    && |u.shards| == NUM_SHARDS && Placed(c.hash, u.shards) && Flat(u.shards) == Flat(s.shards)[wanted := tunnel]
  }

  function Refusal(ip: string, error: Error): Proc {
    if ip == "" then UndoGlobal(error) else UndoIP(ip, error)
  }

  lemma TakesRequested(c: Config, s: State, t: State, custom: string, ip: string, id: nat)
    requires |s.shards| == NUM_SHARDS && Placed(c.hash, s.shards) && t.shards == s.shards && custom != ""
    requires t.procs == s.procs + [Naming(custom, ip, id)]
    ensures var u := Next(c, t, CommitCustom(|s.procs|));
      if !ValidateSubdomain(custom) then u == t.(procs := s.procs + [Refusal(ip, InvalidSubdomain)])
      else if IsReserved(custom) then u == t.(procs := s.procs + [Refusal(ip, ReservedSubdomain)])
      else if custom in Flat(s.shards) then u == t.(procs := s.procs + [Refusal(ip, SubdomainTaken)])
      else Stored(c, s, t, u, custom, Tunnel(id, custom, ip))
  {
    hide Flat, Placed, ValidateSubdomain, IsReserved;
    UsedInFlat(c, s, custom);
    if ValidateSubdomain(custom) && !IsReserved(custom) { PutIsFlat(c.hash, s.shards, custom, Tunnel(id, custom, ip)); }
  }

  lemma TakesGenerated(c: Config, s: State, t: State, ip: string, id: nat, name: string)
    requires |s.shards| == NUM_SHARDS && Placed(c.hash, s.shards) && t.shards == s.shards && t.displaced == s.displaced
    requires t.procs == s.procs + [Naming("", ip, id)]
    requires IsGenerated(name, 6) && !IsReserved(name) && name !in Flat(s.shards)
    ensures Stored(c, s, t, Next(c, Next(c, t, Generate(|s.procs|, name)), CommitGenerated(|s.procs|)), name, Tunnel(id, name, ip))
  {
    hide Flat, Placed, IsGenerated, ValidateSubdomain, IsReserved;
    var i := |s.procs|;
    UsedInFlat(c, s, name);
    GeneratedNamesAreValid(name, 6);
    var t1 := Next(c, t, Generate(i, name));
    assert t1 == t.(procs := s.procs + [Picked(name, ip, id)]);
    PutIsFlat(c.hash, s.shards, name, Tunnel(id, name, ip));
  }

  /** Nothing to commit: the naming steps leave a call alone that is elsewhere. */
  lemma SkipsNaming(c: Config, t: State, i: nat, name: string)
    requires |t.shards| == NUM_SHARDS && i < |t.procs| && !t.procs[i].Naming? && !t.procs[i].Picked?
    ensures Next(c, t, CommitCustom(i)) == Next(c, t, Generate(i, name)) == Next(c, t, CommitGenerated(i)) == t
  {
  }

  lemma SkipsChecks(c: Config, t: State, i: nat, ok: bool)
    requires |t.shards| == NUM_SHARDS && i < |t.procs| && t.procs[i].Failed?
    ensures Next(c, t, RateCheck(i, ok)) == Next(c, t, ReserveIP(i)) == t
  {
  }

  lemma SkipsRollback(c: Config, t: State, i: nat)
    requires |t.shards| == NUM_SHARDS && i < |t.procs| && (t.procs[i].Failed? || t.procs[i].Registered?)
    ensures Next(c, t, RollbackIP(i)) == Next(c, t, RollbackGlobal(i)) == t
  {
  }

  /** A refused call gives both its slots back. */
  lemma RollsBack(c: Config, s: State, t: State, ip: string, error: Error)
    requires |s.shards| == NUM_SHARDS && (ip in s.byIP ==> s.byIP[ip] > 0)
    requires Called(s, t, UndoGlobal(error), s.count + 1, s.byIP)
             || (ip != "" && Called(s, t, UndoIP(ip, error), s.count + 1, s.byIP[ip := (if ip in s.byIP then s.byIP[ip] else 0) + 1]))
    ensures Called(s, Next(c, Next(c, t, RollbackIP(|s.procs|)), RollbackGlobal(|s.procs|)), Failed(error), s.count, s.byIP)
  {
    var i := |s.procs|;
    var t1 := Next(c, t, RollbackIP(i));
    if t.procs[i].UndoIP? {
      var n := if ip in s.byIP then s.byIP[ip] else 0;
      assert (s.byIP[ip := n + 1] - {ip}).Keys == s.byIP.Keys - {ip};
      assert DecrementIP(s.byIP[ip := n + 1], ip) == s.byIP;
    }
    assert t1 == s.(procs := s.procs + [UndoGlobal(error)], count := s.count + 1);
  }

  /** What a registration on its own comes to, check by check in the order of the code. */
  ghost predicate Answers(c: Config, s: State, custom: string, ip: string, ok: bool, name: string, p: Proc) {
    var full := s.count >= c.maxTunnels;
    var ipFull := ip != "" && (if ip in s.byIP then s.byIP[ip] else 0) >= c.maxTunnelsPerIP;
    var admitted := !full && (ip == "" || (ok && !ipFull));
    && (p == Failed(TooManyTunnels) <==> full)
    && (p == Failed(RateLimitExceeded) <==> !full && ip != "" && !ok)
    && (p == Failed(TooManyPerIP) <==> !full && ok && ipFull)
    && (p == Failed(InvalidSubdomain) <==> admitted && custom != "" && !ValidateSubdomain(custom))
    && (p == Failed(ReservedSubdomain) <==> admitted && custom != "" && ValidateSubdomain(custom) && IsReserved(custom))
    && (p == Failed(SubdomainTaken) <==>
          admitted && custom != "" && ValidateSubdomain(custom) && !IsReserved(custom) && custom in Flat(s.shards))
    && (p == Registered(if custom == "" then name else custom) <==>
          admitted && (custom != "" ==> ValidateSubdomain(custom) && !IsReserved(custom) && custom !in Flat(s.shards)))
  }

  /** The part of a registration before its name, on its own. */
  lemma AdmitsAlone(c: Config, s: State, custom: string, ip: string, id: nat, ok: bool)
    requires |s.shards| == NUM_SHARDS
    ensures var i := |s.procs|; var n := if ip in s.byIP then s.byIP[ip] else 0;
      var t := Next(c, Next(c, Next(c, Next(c, Next(c, s, Register(custom, ip, id)), Load(i)), Cas(i)), RateCheck(i, ok)), ReserveIP(i));
      if s.count >= c.maxTunnels then Called(s, t, Failed(TooManyTunnels), s.count, s.byIP)
      else if ip == "" then Called(s, t, Naming(custom, ip, id), s.count + 1, s.byIP)
      else if !ok then Called(s, t, UndoGlobal(RateLimitExceeded), s.count + 1, s.byIP)
      else if n >= c.maxTunnelsPerIP then Called(s, t, UndoGlobal(TooManyPerIP), s.count + 1, s.byIP)
      else Called(s, t, Naming(custom, ip, id), s.count + 1, s.byIP[ip := n + 1])
  {
    hide Next;
    var i := |s.procs|;
    var t := Next(c, Next(c, Next(c, s, Register(custom, ip, id)), Load(i)), Cas(i));
    TakesSlot(c, s, custom, ip, id);
    if s.count >= c.maxTunnels {
      SkipsChecks(c, t, i, ok);
    } else {
      TakesIPSlot(c, s, t, custom, ip, id, ok, s.count + 1);
    }
  }

  /** And the naming, with the rollback. */
  lemma NamesAlone(c: Config, s: State, t: State, custom: string, ip: string, id: nat, name: string)
    requires Inv(c, s) && (custom == "" ==> IsGenerated(name, 6) && !IsReserved(name) && name !in Flat(s.shards))
    requires Called(s, t, Naming(custom, ip, id), s.count + 1, t.byIP)
    requires t.byIP == if ip == "" then s.byIP else s.byIP[ip := (if ip in s.byIP then s.byIP[ip] else 0) + 1]
    ensures var i := |s.procs|; var u := Next(c, Next(c, Next(c, t, CommitCustom(i)), Generate(i, name)), CommitGenerated(i));
      var v := Next(c, Next(c, u, RollbackIP(i)), RollbackGlobal(i));
      if custom != "" && !ValidateSubdomain(custom) then Called(s, v, Failed(InvalidSubdomain), s.count, s.byIP)
      else if custom != "" && IsReserved(custom) then Called(s, v, Failed(ReservedSubdomain), s.count, s.byIP)
      else if custom != "" && custom in Flat(s.shards) then Called(s, v, Failed(SubdomainTaken), s.count, s.byIP)
      else var wanted := if custom == "" then name else custom; Stored(c, s, t, v, wanted, Tunnel(id, wanted, ip))
  {
    hide Next, Flat, Placed, IsGenerated, ValidateSubdomain, IsReserved, Counted, Limited;
    var i := |s.procs|;
    PositiveCount(c, s, ip);
    if custom == "" {
      assert IsGenerated(name, 6) && !IsReserved(name) && name !in Flat(s.shards);
      SkipsRequest(c, t, i);
      TakesGenerated(c, s, t, ip, id, name);
    } else {
      TakesRequested(c, s, t, custom, ip, id);
      SkipsNaming(c, Next(c, t, CommitCustom(i)), i, name);
    }
    var u := Next(c, Next(c, Next(c, t, CommitCustom(i)), Generate(i, name)), CommitGenerated(i));
    if u.procs[i].Registered? {
      SkipsRollback(c, u, i);
    } else {
      RollsBack(c, s, u, ip, u.procs[i].error);
    }
  }

  lemma SkipsRequest(c: Config, t: State, i: nat)
    requires |t.shards| == NUM_SHARDS && i < |t.procs| && t.procs[i].Naming? && t.procs[i].custom == ""
    ensures Next(c, t, CommitCustom(i)) == t
  {
  }

  lemma PositiveCount(c: Config, s: State, ip: string)
    requires Inv(c, s)
    ensures ip in s.byIP ==> ip != "" && s.byIP[ip] > 0
  {
    if ip != "" { assert IPCounted(s, ip); }
  }

  /** All of it, as one update of the state. */
  lemma AloneComesTo(c: Config, s: State, custom: string, ip: string, id: nat, ok: bool, name: string)
    requires Inv(c, s) && (custom == "" ==> IsGenerated(name, 6) && !IsReserved(name) && name !in Flat(s.shards))
    ensures var t := RegisterAlone(c, s, custom, ip, id, ok, name); var n := if ip in s.byIP then s.byIP[ip] else 0;
      if s.count >= c.maxTunnels then Called(s, t, Failed(TooManyTunnels), s.count, s.byIP)
      else if ip != "" && !ok then Called(s, t, Failed(RateLimitExceeded), s.count, s.byIP)
      else if ip != "" && n >= c.maxTunnelsPerIP then Called(s, t, Failed(TooManyPerIP), s.count, s.byIP)
      else if custom != "" && !ValidateSubdomain(custom) then Called(s, t, Failed(InvalidSubdomain), s.count, s.byIP)
      else if custom != "" && IsReserved(custom) then Called(s, t, Failed(ReservedSubdomain), s.count, s.byIP)
      else if custom != "" && custom in Flat(s.shards) then Called(s, t, Failed(SubdomainTaken), s.count, s.byIP)
      else
        var wanted := if custom == "" then name else custom;
        Stored(c, s, s.(count := s.count + 1, byIP := if ip == "" then s.byIP else s.byIP[ip := n + 1]), t, wanted, Tunnel(id, wanted, ip))
  {
    hide Next, Flat, Placed, IsGenerated, ValidateSubdomain, IsReserved, Counted, Limited;
    var i := |s.procs|;
    PositiveCount(c, s, ip);
    AdmitsAlone(c, s, custom, ip, id, ok);
    var t := Next(c, Next(c, Next(c, Next(c, Next(c, s, Register(custom, ip, id)), Load(i)), Cas(i)), RateCheck(i, ok)), ReserveIP(i));
    if t.procs[i].Naming? {
      NamesAlone(c, s, t, custom, ip, id, name);
    } else {
      SkipsNaming(c, t, i, name);
      if t.procs[i].Failed? {
        SkipsRollback(c, t, i);
      } else {
        RollsBack(c, s, t, ip, t.procs[i].error);
      }
    }
  }

  /**
   * A registration that nobody interrupts, in any state the manager can be in: it succeeds, or gives one
   * of the six errors, exactly under these conditions; a success adds the one tunnel and its two slots,
   * and a refusal leaves everything as it was.
   */
  lemma RegistersExactly(c: Config, s: State, custom: string, ip: string, id: nat, ok: bool, name: string)
    requires Inv(c, s) && (custom == "" ==> IsGenerated(name, 6) && !IsReserved(name) && name !in Flat(s.shards))
    ensures var t := RegisterAlone(c, s, custom, ip, id, ok, name); var wanted := if custom == "" then name else custom;
      && |t.procs| == |s.procs| + 1 && t.procs[..|s.procs|] == s.procs && Answers(c, s, custom, ip, ok, name, t.procs[|s.procs|])
      && (t.procs[|s.procs|].Failed? ==> t == s.(procs := t.procs))
      && (t.procs[|s.procs|] == Registered(wanted) ==>
            && Flat(t.shards) == Flat(s.shards)[wanted := Tunnel(id, wanted, ip)] && t.count == s.count + 1 && t.displaced == s.displaced
            && t.byIP == if ip == "" then s.byIP else s.byIP[ip := (if ip in s.byIP then s.byIP[ip] else 0) + 1])
  {
    hide Next, RegisterAlone, Flat, Placed, IsGenerated, ValidateSubdomain, IsReserved, Inv;
    AloneComesTo(c, s, custom, ip, id, ok, name);
  }

  // ---------------------------------------------------------------- removal

  /** The address counters after one tunnel of `ip` is gone. */
  ghost predicate OneLess(before: map<string, int>, after: map<string, int>, ip: string) {
    if ip == "" then after == before
    else if ip in before && before[ip] > 1 then after == before[ip := before[ip] - 1]
    else after == before - {ip}
  }

  lemma DecrementIsOneLess(byIP: map<string, int>, ip: string)
    requires ip in byIP ==> byIP[ip] > 0
    ensures OneLess(byIP, if ip == "" then byIP else DecrementIP(byIP, ip), ip)
  {
    assert ip !in byIP ==> byIP - {ip} == byIP;
  }

  /** The lookup and removal both calls start with. */
  lemma Removes(c: Config, s: State, t: State, name: string)
    requires |s.shards| == NUM_SHARDS && Placed(c.hash, s.shards) && Called(s, t, Removing(name), s.count, s.byIP)
    ensures var i := |s.procs|; var u := Next(c, t, RemoveTunnel(i));
      if name !in Flat(s.shards) then Called(s, u, Removed, s.count, s.byIP)
      else
        && u == t.(shards := u.shards, procs := s.procs + [Uncounting(Flat(s.shards)[name].ip)])
        && |u.shards| == NUM_SHARDS && Flat(u.shards) == Flat(s.shards) - {name}
  {
    hide Flat, Placed;
    UsedInFlat(c, s, name);
    DeleteIsFlat(c.hash, s.shards, name);
  }

  lemma Uncounts(c: Config, t: State, i: nat)
    requires |t.shards| == NUM_SHARDS && i < |t.procs| && t.procs[i].Uncounting? && (t.procs[i].ip in t.byIP ==> t.byIP[t.procs[i].ip] > 0)
    ensures var u := Next(c, Next(c, t, Uncount(i)), UncountIP(i));
      u == t.(procs := t.procs[i := Removed], count := t.count - 1, byIP := u.byIP) && OneLess(t.byIP, u.byIP, t.procs[i].ip)
  {
    hide OneLess;
    var ip := t.procs[i].ip;
    DecrementIsOneLess(t.byIP, ip);
    assert Next(c, t, Uncount(i)) == t.(procs := t.procs[i := if ip == "" then Removed else UncountingIP(ip)], count := t.count - 1);
  }

  lemma SweepUncounts(c: Config, t: State, i: nat)
    requires |t.shards| == NUM_SHARDS && i < |t.procs| && t.procs[i].SweepUncounting? && (t.procs[i].ip in t.byIP ==> t.byIP[t.procs[i].ip] > 0)
    ensures var u := Next(c, Next(c, t, SweepUncount(i)), SweepUncountIP(i));
      && u == t.(procs := t.procs[i := Sweeping(t.procs[i].todo)], count := t.count - 1, byIP := u.byIP)
      && OneLess(t.byIP, u.byIP, t.procs[i].ip)
  {
    hide OneLess;
    var ip, todo := t.procs[i].ip, t.procs[i].todo;
    DecrementIsOneLess(t.byIP, ip);
    assert Next(c, t, SweepUncount(i)) == t.(procs := t.procs[i := if ip == "" then Sweeping(todo) else SweepUncountingIP(todo, ip)], count := t.count - 1);
  }

  lemma SkipsUncounts(c: Config, t: State, i: nat)
    requires |t.shards| == NUM_SHARDS && i < |t.procs| && t.procs[i].Removed?
    ensures Next(c, t, Uncount(i)) == Next(c, t, UncountIP(i)) == t
  {
  }

  /** A sweep starts on names that are stored in its shard, and on no others. */
  lemma SweepsStored(c: Config, s: State, shard: nat, stale: seq<string>)
    requires |s.shards| == NUM_SHARDS
    ensures Next(c, s, Sweep(shard, stale)) ==
            if shard < 32 && forall name :: name in stale ==> name in s.shards[shard].tunnels then s.(procs := s.procs + [Sweeping(stale)]) else s
  {
    assert forall i :: 0 <= i < |stale| ==> stale[i] in stale;
  }

  /** The same for a sweep of one name. */
  lemma SweepRemoves(c: Config, s: State, name: string)
    requires |s.shards| == NUM_SHARDS && Placed(c.hash, s.shards) && name in Flat(s.shards)
    ensures var i := |s.procs|; var u := Next(c, Next(c, s, Sweep(Slot(c.hash, name), [name])), SweepRemove(i));
      && u == s.(shards := u.shards, procs := s.procs + [SweepUncounting([], Flat(s.shards)[name].ip)])
      && |u.shards| == NUM_SHARDS && Flat(u.shards) == Flat(s.shards) - {name}
  {
    hide Flat, Placed;
    UsedInFlat(c, s, name);
    DeleteIsFlat(c.hash, s.shards, name);
    var t := Next(c, s, Sweep(Slot(c.hash, name), [name]));
    assert t == s.(procs := s.procs + [Sweeping([name])]);
    assert [name][1..] == [];
  }

  /** An unregistration on its own takes out the tunnel of that name and its slots, if there is one. */
  lemma UnregistersExactly(c: Config, s: State, name: string)
    requires |s.shards| == NUM_SHARDS && Placed(c.hash, s.shards) && forall ip :: ip in s.byIP ==> s.byIP[ip] > 0
    ensures var t := UnregisterAlone(c, s, name);
      && t.procs == s.procs + [Removed] && t.displaced == s.displaced
      && (name !in Flat(s.shards) ==> t == s.(procs := t.procs))
      && (name in Flat(s.shards) ==>
            Flat(t.shards) == Flat(s.shards) - {name} && t.count == s.count - 1 && OneLess(s.byIP, t.byIP, Flat(s.shards)[name].ip))
  {
    hide Next, Flat, Placed, OneLess;
    var i := |s.procs|;
    Unregistering(c, s, name);
    Removes(c, s, Next(c, s, Unregister(name)), name);
    var t := Next(c, Next(c, s, Unregister(name)), RemoveTunnel(i));
    if name in Flat(s.shards) {
      Uncounts(c, t, i);
    } else {
      SkipsUncounts(c, t, i);
    }
  }

  lemma Unregistering(c: Config, s: State, name: string)
    requires |s.shards| == NUM_SHARDS
    ensures Called(s, Next(c, s, Unregister(name)), Removing(name), s.count, s.byIP)
  {
  }

  /** So does a sweep that finds the tunnel stale. */
  lemma SweepsExactly(c: Config, s: State, name: string)
    requires |s.shards| == NUM_SHARDS && Placed(c.hash, s.shards) && forall ip :: ip in s.byIP ==> s.byIP[ip] > 0
    requires name in Flat(s.shards)
    ensures var t := SweepAlone(c, s, name);
      && t.procs == s.procs + [Sweeping([])] && t.displaced == s.displaced
      && Flat(t.shards) == Flat(s.shards) - {name} && t.count == s.count - 1 && OneLess(s.byIP, t.byIP, Flat(s.shards)[name].ip)
  {
    hide Next, Flat, Placed, OneLess;
    var i := |s.procs|;
    SweepRemoves(c, s, name);
    SweepUncounts(c, Next(c, Next(c, s, Sweep(Slot(c.hash, name), [name])), SweepRemove(i)), i);
  }

  /** Registered and removed again: tunnels and counters are what they were. */
  lemma RemovalTakesBack(c: Config, s: State, custom: string, ip: string, id: nat, ok: bool, name: string)
    requires Inv(c, s) && (custom == "" ==> IsGenerated(name, 6) && !IsReserved(name) && name !in Flat(s.shards))
    requires RegisterAlone(c, s, custom, ip, id, ok, name).procs == s.procs + [Registered(if custom == "" then name else custom)]
    ensures var t := RegisterAlone(c, s, custom, ip, id, ok, name); var wanted := if custom == "" then name else custom;
      && Flat(UnregisterAlone(c, t, wanted).shards) == Flat(SweepAlone(c, t, wanted).shards) == Flat(s.shards)
      && UnregisterAlone(c, t, wanted).count == SweepAlone(c, t, wanted).count == s.count
      && UnregisterAlone(c, t, wanted).byIP == SweepAlone(c, t, wanted).byIP == s.byIP
  {
    hide RegisterAlone, UnregisterAlone, SweepAlone, Flat, Placed, IsGenerated, ValidateSubdomain, IsReserved, Counted, Limited;
    var t, wanted := RegisterAlone(c, s, custom, ip, id, ok, name), if custom == "" then name else custom;
    AloneComesTo(c, s, custom, ip, id, ok, name);
    assert t.procs[|s.procs|] == Registered(wanted);
    forall other | other in s.byIP ensures s.byIP[other] > 0 { PositiveCount(c, s, other); }
    UnregistersExactly(c, t, wanted);
    SweepsExactly(c, t, wanted);
    assert Flat(s.shards)[wanted := Tunnel(id, wanted, ip)] - {wanted} == Flat(s.shards);
    TakenBack(s.byIP, t.byIP, UnregisterAlone(c, t, wanted).byIP, ip);
    TakenBack(s.byIP, t.byIP, SweepAlone(c, t, wanted).byIP, ip);
  }

  lemma TakenBack(before: map<string, int>, during: map<string, int>, after: map<string, int>, ip: string)
    requires ip in before ==> before[ip] > 0
    requires during == if ip == "" then before else before[ip := (if ip in before then before[ip] else 0) + 1]
    requires OneLess(during, after, ip)
    ensures after == before
  {
    if ip != "" {
      assert ip !in before ==> during - {ip} == before;
    }
  }
}
