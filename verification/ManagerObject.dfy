/**
 * The tunnel manager as the object the program uses.  Each method is one call running alone; it goes
 * through the same critical sections as the interleaved model, in the same order, and what it does
 * is stated on the flat map.
 */
module ManagerObject {
  import opened Collections
  import opened Subdomains
  import opened ShardedMap
  import opened TunnelManager
  import opened TunnelManagerCounting
  import Limiter = RateLimiter

  /** The random names one registration may draw: ten short ones, then the long fallback. */
  ghost predicate Draws(draws: seq<string>) {
    |draws| == 11 && (forall i :: 0 <= i < 10 ==> IsGenerated(draws[i], 6)) && IsGenerated(draws[10], 8)
  }

  /** The i-th draw is the first that is neither reserved nor taken. */
  ghost predicate FirstFreeAt(draws: seq<string>, taken: set<string>, i: nat)
    requires |draws| == 11
  {
    && i < 10 && !IsReserved(draws[i]) && draws[i] !in taken
    && forall j :: 0 <= j < i ==> IsReserved(draws[j]) || draws[j] in taken
  }

  /** The first of the ten short draws that may be had, or else the long one. */
  ghost predicate FirstFree(draws: seq<string>, taken: set<string>, name: string)
    requires |draws| == 11
  {
    || (exists i: nat :: FirstFreeAt(draws, taken, i) && name == draws[i])
    || (name == draws[10] && forall j :: 0 <= j < 10 ==> IsReserved(draws[j]) || draws[j] in taken)
  }

  lemma FirstFreeIsDrawn(draws: seq<string>, taken: set<string>, name: string)
    requires |draws| == 11 && FirstFree(draws, taken, name)
    ensures name in draws
  {
  }

  class Manager {
    const config: Config
    const shards: array<Shard>
    const rateLimiter: Limiter.RateLimiter
    var tunnelCount: int
    var tunnelsByIP: map<string, int>
    ghost var displaced: seq<Tunnel>

    ghost function View(): State
      reads this, shards
    {
      State(shards[..], tunnelCount, tunnelsByIP, [], displaced)
    }

    ghost predicate Valid()
      reads this, shards
    {
      shards.Length == NUM_SHARDS && Inv(config, View())
    }

    /** The registered tunnels by name. */
    ghost function Tunnels(): map<string, Tunnel>
      reads this, shards
    {
      Flat(shards[..])
    }

    constructor (config: Config, rateLimiter: Limiter.RateLimiter)
      ensures Valid() && fresh(shards) && Tunnels() == map[] && tunnelCount == 0 && tunnelsByIP == map[]
      ensures this.config == config && this.rateLimiter == rateLimiter
    {
      this.config := config;
      this.rateLimiter := rateLimiter;
      tunnelCount, tunnelsByIP, displaced := 0, map[], [];
      shards := new Shard[NUM_SHARDS](_ => EMPTY_SHARD);
      new;
      assert shards[..] == Initial().shards;
      StartsBalanced(config);
      FlatOfEmpty(shards[..]);
    }

    method GetShard(subdomain: string) returns (k: nat)
      ensures k == Slot(config.hash, subdomain) < NUM_SHARDS
    {
      k := config.hash(subdomain) % NUM_SHARDS;
    }

    method Get(subdomain: string) returns (tc: Option<Tunnel>)
      requires Valid()
      ensures tc == if subdomain in Tunnels() then Some(Tunnels()[subdomain]) else None
    {
      var k := GetShard(subdomain);
      FlatLookup(config.hash, shards[..], subdomain);
      tc := if subdomain in shards[k].tunnels then Some(shards[k].tunnels[subdomain]) else None;
    }

    /** Every registered tunnel, each once. */
    method List() returns (connections: seq<Tunnel>)
      requires Valid()
      ensures Lists(connections, Tunnels())
    {
      hide Flat, Inv, Lists, Placed, ShardPlaced;
      connections := [];
      FlatOfEmpty([]);
      NothingListed();
      for i := 0 to NUM_SHARDS
        invariant Lists(connections, Flat(shards[..i]))
      {
        var listed := ListShard(i);
        FrontPlaced(config, View(), i);
        ListGrows(config.hash, shards[..i], shards[i], connections, listed);
        connections := connections + listed;
      }
      assert shards[..NUM_SHARDS] == shards[..];
    }

    method ListShard(i: nat) returns (listed: seq<Tunnel>)
      requires Valid() && i < NUM_SHARDS
      ensures Lists(listed, shards[i].tunnels)
    {
      var tunnels := shards[i].tunnels;
      assert ShardPlaced(config.hash, shards[..][i], i);
      listed := [];
      var todo := tunnels.Keys;
      while todo != {}
        invariant todo <= tunnels.Keys && |listed| + |todo| == |tunnels|
        invariant forall t :: t in listed <==> t.name in tunnels && t.name !in todo && tunnels[t.name] == t
        decreases |todo|
      {
        var name :| name in todo;
        todo := todo - {name};
        assert NameKept(tunnels[name], name);
        listed := listed + [tunnels[name]];
      }
    }

    // -------------------------------------------------------------- critical sections

    /** The compare-and-swap loop; running alone, its first exchange succeeds. */
    method ReserveGlobal() returns (ok: bool)
      modifies this`tunnelCount
      ensures ok <==> old(tunnelCount) < config.maxTunnels
      ensures tunnelCount == old(tunnelCount) + if ok then 1 else 0
    {
      ok := false;
      while !ok
        invariant tunnelCount == old(tunnelCount) + if ok then 1 else 0
        invariant ok ==> old(tunnelCount) < config.maxTunnels
        decreases !ok
      {
        var current := tunnelCount;
        if current >= config.maxTunnels {
          return false;
        }
        if tunnelCount == current {
          tunnelCount := current + 1;
          ok := true;
        }
      }
    }

    method RollbackGlobal()
      modifies this`tunnelCount
      ensures tunnelCount == old(tunnelCount) - 1
    {
      tunnelCount := tunnelCount - 1;
    }

    method ReserveIP(ip: string) returns (ok: bool)
      modifies this`tunnelsByIP
      ensures ok <==> IPCount(old(tunnelsByIP), ip) < config.maxTunnelsPerIP
      ensures tunnelsByIP == if ok then old(tunnelsByIP)[ip := IPCount(old(tunnelsByIP), ip) + 1] else old(tunnelsByIP)
    {
      if IPCount(tunnelsByIP, ip) >= config.maxTunnelsPerIP {
        return false;
      }
      tunnelsByIP := tunnelsByIP[ip := IPCount(tunnelsByIP, ip) + 1];
      ok := true;
    }

    method ReleaseIP(ip: string)
      modifies this`tunnelsByIP
      ensures tunnelsByIP == if ip == "" then old(tunnelsByIP) else DecrementIP(old(tunnelsByIP), ip)
    {
      if ip != "" {
        if IPCount(tunnelsByIP, ip) > 0 {
          tunnelsByIP := tunnelsByIP[ip := IPCount(tunnelsByIP, ip) - 1];
          if tunnelsByIP[ip] == 0 {
            tunnelsByIP := tunnelsByIP - {ip};
          }
        }
      }
    }

    method PutInShard(name: string, t: Tunnel)
      requires shards.Length == NUM_SHARDS
      modifies shards
      ensures shards[..] == PutTunnel(config, old(shards[..]), name, t)
    {
      var k := GetShard(name);
      shards[k] := Shard(shards[k].tunnels[name := t], shards[k].used + {name});
    }

    method DeleteFromShard(name: string)
      requires shards.Length == NUM_SHARDS
      modifies shards
      ensures shards[..] == DeleteTunnel(config, old(shards[..]), name)
    {
      var k := GetShard(name);
      shards[k] := Shard(shards[k].tunnels - {name}, shards[k].used - {name});
    }

    /**
     * Draws names until one is neither reserved nor registered; after ten misses takes the long one
     * unchecked.
     */
    method GenerateUniqueSubdomain(draws: seq<string>, ghost before: State) returns (name: string)
      requires shards.Length == NUM_SHARDS && Draws(draws) && Inv(config, before) && before.shards == shards[..]
      ensures CanGenerate(config, View(), name) && FirstFree(draws, Tunnels().Keys, name)
    {
      hide Flat, Inv, IsReserved, IsGenerated;
      for i := 0 to 10
        invariant forall j :: 0 <= j < i ==> IsReserved(draws[j]) || draws[j] in Tunnels()
      {
        var subdomain := draws[i];
        if IsReserved(subdomain) {
          continue;
        }
        var k := GetShard(subdomain);
        UsedIsFlat(config, before, subdomain);
        if subdomain !in shards[k].used {
          assert FirstFreeAt(draws, Tunnels().Keys, i);
          return subdomain;
        }
      }
      name := draws[10];
    }

    // -------------------------------------------------------------- calls

    /** Everything before a name is chosen: the global slot, the rate limit, the address slot. */
    method ReserveSlots(ip: string, now: int) returns (refused: Option<Error>)
      modifies this`tunnelCount, this`tunnelsByIP, rateLimiter
      ensures var rateOk := Limiter.Decide(rateLimiter.config, old(rateLimiter.rateLimits), ip, now);
        && (refused == Some(TooManyTunnels) <==> old(tunnelCount) >= config.maxTunnels)
        && (refused == Some(RateLimitExceeded) <==> old(tunnelCount) < config.maxTunnels && ip != "" && !rateOk)
        && (refused == Some(TooManyPerIP) <==>
              old(tunnelCount) < config.maxTunnels && ip != "" && rateOk && IPCount(old(tunnelsByIP), ip) >= config.maxTunnelsPerIP)
        && (refused.Some? ==> refused.value == TooManyTunnels || refused.value == RateLimitExceeded || refused.value == TooManyPerIP)
      ensures refused.Some? ==> tunnelCount == old(tunnelCount) && tunnelsByIP == old(tunnelsByIP)
      ensures refused.None? ==> old(tunnelCount) < config.maxTunnels && (ip != "" ==> IPCount(old(tunnelsByIP), ip) < config.maxTunnelsPerIP)
      ensures refused.None? ==> tunnelCount == old(tunnelCount) + 1
                                && tunnelsByIP == if ip == "" then old(tunnelsByIP) else old(tunnelsByIP)[ip := IPCount(old(tunnelsByIP), ip) + 1]
      ensures rateLimiter.rateLimits == if old(tunnelCount) >= config.maxTunnels then old(rateLimiter.rateLimits)
                                        else Limiter.Update(rateLimiter.config, old(rateLimiter.rateLimits), ip, now)
    {
      var ok := ReserveGlobal();
      if !ok {
        return Some(TooManyTunnels);
      }
      if ip != "" {
        ok := rateLimiter.CheckAndIncrement(ip, now);
        if !ok {
          RollbackGlobal();
          return Some(RateLimitExceeded);
        }
        ok := ReserveIP(ip);
        if !ok {
          RollbackGlobal();
          return Some(TooManyPerIP);
        }
      }
      return None;
    }

    /** The requested name if it may be had, else a generated one. */
    method ChooseName(custom: string, draws: seq<string>, ghost before: State) returns (r: Result<string, Error>)
      requires shards.Length == NUM_SHARDS && Draws(draws) && Inv(config, before) && before.shards == shards[..]
      ensures r == Err(InvalidSubdomain) <==> custom != "" && !ValidateSubdomain(custom)
      ensures r == Err(ReservedSubdomain) <==> custom != "" && ValidateSubdomain(custom) && IsReserved(custom)
      ensures r == Err(SubdomainTaken) <==> custom != "" && ValidateSubdomain(custom) && !IsReserved(custom) && custom in Tunnels()
      ensures r.Err? ==> r.error == InvalidSubdomain || r.error == ReservedSubdomain || r.error == SubdomainTaken
      ensures r.Ok? ==> ValidateSubdomain(r.value) && !IsReserved(r.value)
      ensures r.Ok? ==> if custom == "" then FirstFree(draws, Tunnels().Keys, r.value) else r.value == custom
    {
      hide Flat, Inv, ValidateSubdomain, IsReserved, IsGenerated, CanGenerate, Draws, FirstFree;
      if custom == "" {
        var subdomain := GenerateUniqueSubdomain(draws, before);
        GeneratedIsValid(config, View(), subdomain);
        return Ok(subdomain);
      }
      if !ValidateSubdomain(custom) {
        return Err(InvalidSubdomain);
      }
      if IsReserved(custom) {
        return Err(ReservedSubdomain);
      }
      var k := GetShard(custom);
      UsedIsFlat(config, before, custom);
      if custom in shards[k].used {
        return Err(SubdomainTaken);
      }
      r := Ok(custom);
    }

    /** Stores a tunnel whose slots the call `named` holds. */
    method Store(subdomain: string, t: Tunnel, ghost named: State)
      requires Inv(config, named) && |named.procs| == 1 && named.procs[0].Naming? && View() == named.(procs := [])
      requires t.ip == named.procs[0].ip && NameKept(t, subdomain)
      modifies this`displaced, shards
      ensures Valid() && Tunnels() == old(Tunnels())[subdomain := t]
      ensures displaced == if subdomain in old(Tunnels()) then old(displaced) + [old(Tunnels())[subdomain]] else old(displaced)
    {
      hide Flat, Counted, Limited, Placed, PutTunnel;
      displaced := if subdomain in Flat(named.shards) then displaced + [Flat(named.shards)[subdomain]] else displaced;
      PutInShard(subdomain, t);
      StoreIsFlat(config, named, View().(procs := [Registered(subdomain)]), subdomain, t);
    }

    /** `RegisterWithIP`: a refused call leaves no trace but its rate-limit entry. */
    method RegisterWithIP(id: nat, custom: string, ip: string, now: int, draws: seq<string>) returns (r: Result<string, Error>)
      requires Valid() && Draws(draws)
      modifies this`tunnelCount, this`tunnelsByIP, this`displaced, shards, rateLimiter
      ensures Valid()
      ensures var rateOk := Limiter.Decide(rateLimiter.config, old(rateLimiter.rateLimits), ip, now);
        && (r == Err(TooManyTunnels) <==> old(tunnelCount) >= config.maxTunnels)
        && (r == Err(RateLimitExceeded) <==> old(tunnelCount) < config.maxTunnels && ip != "" && !rateOk)
        && (r == Err(TooManyPerIP) <==>
              old(tunnelCount) < config.maxTunnels && ip != "" && rateOk && IPCount(old(tunnelsByIP), ip) >= config.maxTunnelsPerIP)
      ensures var slots := old(tunnelCount) < config.maxTunnels
                           && (ip == "" || (Limiter.Decide(rateLimiter.config, old(rateLimiter.rateLimits), ip, now)
                                            && IPCount(old(tunnelsByIP), ip) < config.maxTunnelsPerIP));
        && (r == Err(InvalidSubdomain) <==> slots && custom != "" && !ValidateSubdomain(custom))
        && (r == Err(ReservedSubdomain) <==> slots && custom != "" && ValidateSubdomain(custom) && IsReserved(custom))
        && (r == Err(SubdomainTaken) <==>
              slots && custom != "" && ValidateSubdomain(custom) && !IsReserved(custom) && custom in old(Tunnels()))
        && (r.Ok? <==> slots && (custom == "" || (ValidateSubdomain(custom) && !IsReserved(custom) && custom !in old(Tunnels()))))
      ensures r.Err? ==> Tunnels() == old(Tunnels()) && tunnelCount == old(tunnelCount)
                         && tunnelsByIP == old(tunnelsByIP) && displaced == old(displaced)
      ensures r.Ok? ==>
        && Tunnels() == old(Tunnels())[r.value := Tunnel(id, r.value, ip)]
        && ValidateSubdomain(r.value) && !IsReserved(r.value)
        && (if custom == "" then FirstFree(draws, old(Tunnels()).Keys, r.value) else r.value == custom)
        && tunnelCount == old(tunnelCount) + 1
        && (forall other :: IPCount(tunnelsByIP, other) == IPCount(old(tunnelsByIP), other) + if ip != "" && other == ip then 1 else 0)
        && displaced == if r.value in old(Tunnels()) then old(displaced) + [old(Tunnels())[r.value]] else old(displaced)
      ensures rateLimiter.rateLimits == if old(tunnelCount) >= config.maxTunnels then old(rateLimiter.rateLimits)
                                        else Limiter.Update(rateLimiter.config, old(rateLimiter.rateLimits), ip, now)
    {
      hide Flat, Inv, ValidateSubdomain, IsReserved, IsGenerated, CanGenerate, Draws, FirstFree;
      ghost var before := View();
      var refused := ReserveSlots(ip, now);
      if refused.Some? {
        return Err(refused.value);
      }
      ghost var named := SlotsReserved(config, before, id, custom, ip);
      var choice := ChooseName(custom, draws, before);
      if choice.Err? {
        ReleaseIP(ip);
        RollbackGlobal();
        ReleaseUndoes(config, before, ip);
        return Err(choice.error);
      }
      var subdomain := choice.value;
      Store(subdomain, Tunnel(id, subdomain, ip), named);
      r := Ok(subdomain);
    }

    /** `Unregister`: removes the tunnel and its slots, or does nothing. */
    method Unregister(name: string)
      requires Valid()
      modifies this`tunnelCount, this`tunnelsByIP, shards
      ensures Valid() && Tunnels() == old(Tunnels()) - {name}
      ensures name !in old(Tunnels()) ==> View() == old(View())
      ensures name in old(Tunnels()) ==>
                && tunnelCount == old(tunnelCount) - 1
                && forall ip :: IPCount(tunnelsByIP, ip) == IPCount(old(tunnelsByIP), ip) - if ip != "" && old(Tunnels())[name].ip == ip then 1 else 0
    {
      hide Flat, Inv;
      ghost var before := View();
      UsedIsFlat(config, before, name);
      var k := GetShard(name);
      if name !in shards[k].tunnels {
        assert Flat(shards[..]) - {name} == Flat(shards[..]);
        return;
      }
      var remoteIP := shards[k].tunnels[name].ip;
      DeleteFromShard(name);
      tunnelCount := tunnelCount - 1;
      ReleaseIP(remoteIP);
      RemovalSettles(config, before, name);
    }

    /** One shard of `CleanupStale`: removes its stale tunnels in whatever order they were collected. */
    method CleanupShard(i: nat, stale: set<string>) returns (cleaned: nat)
      requires Valid() && i < NUM_SHARDS
      modifies this`tunnelCount, this`tunnelsByIP, shards
      ensures Valid() && Tunnels() == old(Tunnels()) - (stale * old(shards[i]).tunnels.Keys)
      ensures cleaned == |stale * old(shards[i]).tunnels.Keys| && tunnelCount == old(tunnelCount) - cleaned
      ensures forall j :: 0 <= j < NUM_SHARDS && j != i ==> shards[j] == old(shards[j])
    {
      hide Flat, Inv;
      var todo := stale * shards[i].tunnels.Keys;
      ghost var gone := {};
      cleaned := 0;
      MinusNone(Tunnels());
      MinusNone(shards[i].tunnels);
      while todo != {}
        invariant Valid() && gone !! todo && gone + todo == stale * old(shards[i]).tunnels.Keys && cleaned == |gone|
        invariant shards[i].tunnels == old(shards[i]).tunnels - gone
        invariant Tunnels() == old(Tunnels()) - gone && tunnelCount == old(tunnelCount) - cleaned
        invariant forall j :: 0 <= j < NUM_SHARDS && j != i ==> shards[j] == old(shards[j])
        decreases |todo|
      {
        var name :| name in todo;
        assert name in shards[i].tunnels;
        RemoveOne(i, name);
        MinusMore(old(Tunnels()), gone, name);
        MinusMore(old(shards[i]).tunnels, gone, name);
        todo := todo - {name};
        gone := gone + {name};
        cleaned := cleaned + 1;
      }
      assert gone == stale * old(shards[i]).tunnels.Keys;
    }

    /** The body of the sweep for one stale name of shard `i`. */
    method RemoveOne(i: nat, name: string)
      requires Valid() && i < NUM_SHARDS && name in shards[i].tunnels
      modifies this`tunnelCount, this`tunnelsByIP, shards
      ensures Valid() && Tunnels() == old(Tunnels()) - {name} && tunnelCount == old(tunnelCount) - 1
      ensures shards[i].tunnels == old(shards[i]).tunnels - {name}
      ensures forall j :: 0 <= j < NUM_SHARDS && j != i ==> shards[j] == old(shards[j])
    {
      hide Flat, Inv;
      ghost var before := View();
      KeyIsPlaced(config, before, i, name);
      UsedIsFlat(config, before, name);
      var remoteIP := shards[i].tunnels[name].ip;
      DeleteFromShard(name);
      tunnelCount := tunnelCount - 1;
      ReleaseIP(remoteIP);
      RemovalSettles(config, before, name);
      forall j | 0 <= j < NUM_SHARDS ensures shards[j] == if j == i then Delete(before.shards[i], name) else before.shards[j] {
        assert shards[j] == shards[..][j];
      }
    }

    /** `CleanupStale`: `stale` are the names whose connection is no longer alive. */
    method CleanupStale(stale: set<string>, now: int) returns (total: nat)
      requires Valid()
      modifies this`tunnelCount, this`tunnelsByIP, shards, rateLimiter
      ensures Valid() && Tunnels() == old(Tunnels()) - stale
      ensures total == |old(Tunnels())| - |Tunnels()| && tunnelCount == old(tunnelCount) - total
      ensures rateLimiter.rateLimits == Limiter.Swept(old(rateLimiter.rateLimits), now)
    {
      hide Flat, Inv, Limiter.Swept, SweptUpTo;
      total := 0;
      SweepStarts(config.hash, Tunnels(), stale);
      for i := 0 to NUM_SHARDS
        invariant Valid() && tunnelCount == old(tunnelCount) - total
        invariant total == |old(Tunnels())| - |Tunnels()| && rateLimiter.rateLimits == old(rateLimiter.rateLimits)
        invariant SweptUpTo(config.hash, old(Tunnels()), Tunnels(), stale, i)
      {
        ghost var before, keys := View(), stale * shards[i].tunnels.Keys;
        var cleaned := CleanupShard(i, stale);
        SweepNext(config, before, old(Tunnels()), stale, i);
        total := total + cleaned;
      }
      SweepEnds(config.hash, old(Tunnels()), Tunnels(), stale);
      var removed := rateLimiter.Cleanup(now);
    }
  }

  /** The sweep has dealt with the shards below `i`. */
  ghost predicate SweptUpTo(hash: Hash, before: map<string, Tunnel>, now: map<string, Tunnel>, stale: set<string>, i: nat) {
    && (forall name :: name in now <==> name in before && !(name in stale && Slot(hash, name) < i))
    && (forall name :: name in now ==> now[name] == before[name])
  }

  lemma SweepStarts(hash: Hash, flat: map<string, Tunnel>, stale: set<string>)
    ensures SweptUpTo(hash, flat, flat, stale, 0)
  {
  }

  lemma SweepNext(c: Config, s: State, first: map<string, Tunnel>, stale: set<string>, i: nat)
    requires Inv(c, s) && i < NUM_SHARDS && SweptUpTo(c.hash, first, Flat(s.shards), stale, i)
    ensures var keys := stale * s.shards[i].tunnels.Keys;
      SweptUpTo(c.hash, first, Flat(s.shards) - keys, stale, i + 1) && |Flat(s.shards) - keys| == |Flat(s.shards)| - |keys|
  {
    hide Flat, SweptUpTo, Placed, Counted, Limited, Slot;
    var flat, keys := Flat(s.shards), stale * s.shards[i].tunnels.Keys;
    forall name ensures name in keys <==> name in stale && name in flat && Slot(c.hash, name) == i {
      SlotKeys(c, s, i, name);
    }
    SweepMore(c.hash, first, flat, keys, stale, i);
    RemoveKeysSize(flat, keys);
  }

  lemma SweepMore(hash: Hash, first: map<string, Tunnel>, flat: map<string, Tunnel>, keys: set<string>, stale: set<string>, i: nat)
    requires SweptUpTo(hash, first, flat, stale, i)
    requires forall name :: name in keys <==> name in stale && name in flat && Slot(hash, name) == i
    ensures SweptUpTo(hash, first, flat - keys, stale, i + 1)
  {
  }

  lemma SweepEnds(hash: Hash, before: map<string, Tunnel>, now: map<string, Tunnel>, stale: set<string>)
    requires SweptUpTo(hash, before, now, stale, NUM_SHARDS)
    ensures now == before - stale
  {
  }

  // ---------------------------------------------------------------- facts the methods use

  /** The tunnels of the map, each once. */
  ghost predicate Lists(ts: seq<Tunnel>, m: map<string, Tunnel>) {
    |ts| == |m| && forall t :: t in ts <==> t.name in m && m[t.name] == t
  }

  lemma NothingListed()
    ensures Lists([], map[])
  {
  }

  lemma ListsUnion(a: seq<Tunnel>, m: map<string, Tunnel>, b: seq<Tunnel>, n: map<string, Tunnel>)
    requires Lists(a, m) && Lists(b, n) && m.Keys !! n.Keys
    ensures Lists(a + b, m + n)
  {
    assert (m + n).Keys == m.Keys + n.Keys;
    assert |m.Keys + n.Keys| == |m.Keys| + |n.Keys|;
  }

  lemma FlatAppend(front: seq<Shard>, last: Shard)
    ensures Flat(front + [last]) == Flat(front) + last.tunnels
  {
    assert (front + [last])[..|front|] == front;
  }

  /** Listing one more shard lists it next to the shards before it. */
  lemma ListGrows(hash: Hash, front: seq<Shard>, last: Shard, before: seq<Tunnel>, listed: seq<Tunnel>)
    requires Placed(hash, front) && ShardPlaced(hash, last, |front|)
    requires Lists(before, Flat(front)) && Lists(listed, last.tunnels)
    ensures Lists(before + listed, Flat(front + [last]))
  {
    hide Flat, Placed, ShardPlaced, Lists;
    NextShard(hash, front, last);
    FlatAppend(front, last);
    ListsUnion(before, Flat(front), listed, last.tunnels);
  }

  lemma FrontPlaced(c: Config, s: State, i: nat)
    requires Inv(c, s) && i < NUM_SHARDS
    ensures Placed(c.hash, s.shards[..i]) && ShardPlaced(c.hash, s.shards[i], i)
    ensures s.shards[..i + 1] == s.shards[..i] + [s.shards[i]]
  {
    hide Counted, Limited, Flat, NameKept, Slot;
  }

  /** A call that is over can be forgotten. */
  lemma ForgetFinished(c: Config, s: State)
    requires Inv(c, s) && |s.procs| == 1
    requires s.procs[0].Registered? || s.procs[0].Failed? || s.procs[0].Removed? || s.procs[0].Sweeping?
    ensures Inv(c, s.(procs := []))
  {
    hide Flat, Placed;
    var t := s.(procs := []);
    SpawnedWeights([], s.procs[0], "");
    assert [] + [s.procs[0]] == s.procs;
    forall ip | ip != "" ensures IPCounted(t, ip) {
      assert IPCounted(s, ip);
      SpawnedWeights([], s.procs[0], ip);
    }
  }

  /** The interleaved model after one call alone has taken its global slot. */
  lemma GlobalSlotReserved(c: Config, s: State, id: nat, custom: string, ip: string)
    requires Inv(c, s) && s.procs == [] && s.count < c.maxTunnels
    ensures Inv(c, s.(procs := [Reserved(custom, ip, id)], count := s.count + 1))
  {
    hide Counted, Limited, Placed, Flat;
    var s1 := s.(procs := [Loading(custom, ip, id)]);
    assert [] + [Loading(custom, ip, id)] == [Loading(custom, ip, id)];
    NextKeeps(c, s, Register(custom, ip, id));
    assert Next(c, s, Register(custom, ip, id)) == s1;
    var s2 := s.(procs := [Loaded(custom, ip, id, s.count)]);
    NextKeeps(c, s1, Load(0));
    assert Next(c, s1, Load(0)) == s2;
    NextKeeps(c, s2, Cas(0));
    assert Next(c, s2, Cas(0)) == s.(procs := [Reserved(custom, ip, id)], count := s.count + 1);
  }

  /** And after it has its address slot too. */
  lemma IPSlotReserved(c: Config, s: State, id: nat, custom: string, ip: string)
    requires Inv(c, s) && s.procs == [Reserved(custom, ip, id)] && (ip != "" ==> IPCount(s.byIP, ip) < c.maxTunnelsPerIP)
    ensures Inv(c, s.(procs := [Naming(custom, ip, id)], byIP := if ip == "" then s.byIP else s.byIP[ip := IPCount(s.byIP, ip) + 1]))
  {
    hide Counted, Limited, Placed, Flat;
    NextKeeps(c, s, RateCheck(0, true));
    if ip == "" {
      assert Next(c, s, RateCheck(0, true)) == s.(procs := [Naming(custom, ip, id)]);
    } else {
      var s1 := s.(procs := [Admitted(custom, ip, id)]);
      assert Next(c, s, RateCheck(0, true)) == s1;
      NextKeeps(c, s1, ReserveIP(0));
      assert Next(c, s1, ReserveIP(0)) == s.(procs := [Naming(custom, ip, id)], byIP := s.byIP[ip := IPCount(s.byIP, ip) + 1]);
    }
  }

  ghost function SlotsReserved(c: Config, s: State, id: nat, custom: string, ip: string): (t: State)
    requires Inv(c, s) && s.procs == []
    requires s.count < c.maxTunnels && (ip != "" ==> IPCount(s.byIP, ip) < c.maxTunnelsPerIP)
    ensures Inv(c, t)
  {
    hide Inv;
    GlobalSlotReserved(c, s, id, custom, ip);
    IPSlotReserved(c, s.(procs := [Reserved(custom, ip, id)], count := s.count + 1), id, custom, ip);
    s.(procs := [Naming(custom, ip, id)], count := s.count + 1, byIP := if ip == "" then s.byIP else s.byIP[ip := IPCount(s.byIP, ip) + 1])
  }

  lemma UsedIsFlat(c: Config, s: State, name: string)
    requires Inv(c, s)
    ensures name in ShardOf(c, s, name).used <==> name in Flat(s.shards)
    ensures name in ShardOf(c, s, name).tunnels <==> name in Flat(s.shards)
    ensures name in Flat(s.shards) ==> Flat(s.shards)[name] == ShardOf(c, s, name).tunnels[name]
  {
    UsedIsStored(c, s, name);
    FlatLookup(c.hash, s.shards, name);
  }

  lemma GeneratedIsValid(c: Config, s: State, name: string)
    requires |s.shards| == NUM_SHARDS && CanGenerate(c, s, name)
    ensures ValidateSubdomain(name) && !IsReserved(name)
  {
    GeneratedNamesAreValid(name, if IsGenerated(name, 8) then 8 else 6);
  }

  /** Giving the address slot back restores the map, which had no zero entry. */
  lemma ReleaseUndoes(c: Config, s: State, ip: string)
    requires Inv(c, s)
    ensures ip != "" ==> DecrementIP(s.byIP[ip := IPCount(s.byIP, ip) + 1], ip) == s.byIP
  {
    AllPositive(c, s);
  }

  /** Storing a tunnel whose slots are held, then forgetting the call. */
  lemma StoreIsFlat(c: Config, s: State, t: State, name: string, tunnel: Tunnel)
    requires Inv(c, s) && |s.procs| == 1 && s.procs[0].Naming?
    requires tunnel.ip == s.procs[0].ip && NameKept(tunnel, name)
    requires t == s.(shards := PutTunnel(c, s.shards, name, tunnel), procs := [Registered(name)], displaced := t.displaced)
    requires t.displaced == if name in Flat(s.shards) then s.displaced + [Flat(s.shards)[name]] else s.displaced
    ensures Inv(c, t.(procs := [])) && Flat(t.shards) == Flat(s.shards)[name := tunnel]
  {
    hide Inv, Flat, NameKept;
    assert s.procs[0 := Registered(name)] == [Registered(name)];
    StoreKeeps(c, s, t, 0, name, tunnel);
    ForgetFinished(c, t);
  }

  /** Removing a stored tunnel and settling its slots. */
  lemma RemovalSettles(c: Config, s: State, name: string)
    requires Inv(c, s) && s.procs == [] && name in ShardOf(c, s, name).tunnels
    ensures var ip := ShardOf(c, s, name).tunnels[name].ip;
      var byIP := if ip == "" then s.byIP else DecrementIP(s.byIP, ip);
      var t := s.(shards := DeleteTunnel(c, s.shards, name), count := s.count - 1, byIP := byIP);
      && Inv(c, t) && Flat(t.shards) == Flat(s.shards) - {name}
      && forall other :: IPCount(byIP, other) == IPCount(s.byIP, other) - if ip != "" && other == ip then 1 else 0
  {
    hide Counted, Limited, Placed, Flat, DeleteTunnel, DecrementIP;
    var ip := ShardOf(c, s, name).tunnels[name].ip;
    SpawnKeeps(c, s, Removing(name));
    var s1 := s.(procs := s.procs + [Removing(name)]);
    DeleteKeeps(c, s1, 0, name, Uncounting(ip));
    var s2 := SetProc(s1, 0, Uncounting(ip)).(shards := DeleteTunnel(c, s1.shards, name));
    var p := if ip == "" then Removed else UncountingIP(ip);
    UncountKeeps(c, s2, 0, p);
    var s3 := SetProc(s2, 0, p).(count := s2.count - 1);
    if ip == "" {
      ForgetFinished(c, s3);
    } else {
      GuardHolds(c, s3, 0);
      DecrementEffect(s.byIP, ip);
      DecrementKeeps(c, s3, 0, Removed);
      ForgetFinished(c, SetProc(s3, 0, Removed).(byIP := DecrementIP(s.byIP, ip)));
    }
  }

  lemma KeyIsPlaced(c: Config, s: State, i: nat, name: string)
    requires Inv(c, s) && i < NUM_SHARDS && name in s.shards[i].tunnels
    ensures Slot(c.hash, name) == i
  {
    assert ShardPlaced(c.hash, s.shards[i], i);
  }

  lemma SlotKeys(c: Config, s: State, i: nat, name: string)
    requires Inv(c, s) && i < NUM_SHARDS
    ensures name in s.shards[i].tunnels <==> name in Flat(s.shards) && Slot(c.hash, name) == i
  {
    UsedIsFlat(c, s, name);
    if name in s.shards[i].tunnels { KeyIsPlaced(c, s, i, name); }
  }

  lemma RemoveKeysSize(m: map<string, Tunnel>, keys: set<string>)
    requires keys <= m.Keys
    ensures |m - keys| == |m| - |keys|
  {
    assert (m - keys).Keys == m.Keys - keys;
    assert |m.Keys - keys| == |m.Keys| - |keys|;
  }

  lemma MinusNone(m: map<string, Tunnel>)
    ensures m - {} == m
  {
  }

  lemma MinusMore(m: map<string, Tunnel>, gone: set<string>, name: string)
    ensures m - gone - {name} == m - (gone + {name})
  {
  }
}
