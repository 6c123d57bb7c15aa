/** The manager's 32 shards and the one flat map they amount to. */
module ShardedMap {
  import opened Collections
  import opened Subdomains

  const NUM_SHARDS := 32

  /** A registered connection: its identity, the name it was created with and the address it counts for. */
  datatype Tunnel = Tunnel(id: nat, name: string, ip: string)

  /** `used` is the shard's second map, of names to `true`. */
  datatype Shard = Shard(tunnels: map<string, Tunnel>, used: set<string>)

  type Hash = string -> nat

  const EMPTY_SHARD := Shard(map[], {})

  function Slot(hash: Hash, name: string): nat {
    hash(name) % NUM_SHARDS
  }

  function Put(s: Shard, name: string, t: Tunnel): Shard {
    Shard(s.tunnels[name := t], s.used + {name})
  }

  function Delete(s: Shard, name: string): Shard {
    Shard(s.tunnels - {name}, s.used - {name})
  }

  /** Every key is in its own shard only, stored under its own name, and both maps have the same keys. */
  ghost predicate Placed(hash: Hash, shards: seq<Shard>) {
    && |shards| <= NUM_SHARDS
    && forall i :: 0 <= i < |shards| ==> ShardPlaced(hash, shards[i], i)
  }

  ghost predicate ShardPlaced(hash: Hash, s: Shard, i: nat) {
    && s.used == s.tunnels.Keys
    && forall name :: name in s.tunnels ==> Slot(hash, name) == i && NameKept(s.tunnels[name], name)
  }

  ghost predicate NameKept(t: Tunnel, name: string) {
    t.name == name && ValidateSubdomain(name) && !IsReserved(name)
  }

  /** The flat map. */
  ghost function Flat(shards: seq<Shard>): map<string, Tunnel> {
    if shards == [] then map[] else Flat(shards[..|shards| - 1]) + shards[|shards| - 1].tunnels
  }

  /** Looking a name up in its shard is looking it up in the flat map. */
  lemma {:induction false} FlatLookup(hash: Hash, shards: seq<Shard>, name: string)
    requires Placed(hash, shards)
    ensures name in Flat(shards) <==> Slot(hash, name) < |shards| && name in shards[Slot(hash, name)].tunnels
    ensures name in Flat(shards) ==> Flat(shards)[name] == shards[Slot(hash, name)].tunnels[name]
  {
    if shards != [] {
      var n := |shards| - 1;
      assert Placed(hash, shards[..n]);
      FlatLookup(hash, shards[..n], name);
      assert ShardPlaced(hash, shards[n], n);
    }
  }

  lemma PutIsFlat(hash: Hash, shards: seq<Shard>, name: string, t: Tunnel)
    requires Placed(hash, shards) && |shards| == NUM_SHARDS && NameKept(t, name)
    ensures var k := Slot(hash, name); var after := shards[k := Put(shards[k], name, t)];
      Placed(hash, after) && Flat(after) == Flat(shards)[name := t]
  {
    hide Flat, NameKept;
    var k := Slot(hash, name);
    var after := shards[k := Put(shards[k], name, t)];
    assert ShardPlaced(hash, shards[k], k);
    forall i | 0 <= i < |after| ensures ShardPlaced(hash, after[i], i) {
      assert ShardPlaced(hash, shards[i], i);
    }
    forall other ensures other in Flat(after) <==> other in Flat(shards)[name := t] {
      FlatLookup(hash, shards, other);
      FlatLookup(hash, after, other);
    }
    forall other | other in Flat(after) ensures Flat(after)[other] == Flat(shards)[name := t][other] {
      FlatLookup(hash, shards, other);
      FlatLookup(hash, after, other);
    }
  }

  lemma DeleteIsFlat(hash: Hash, shards: seq<Shard>, name: string)
    requires Placed(hash, shards) && |shards| == NUM_SHARDS
    ensures var k := Slot(hash, name); var after := shards[k := Delete(shards[k], name)];
      Placed(hash, after) && Flat(after) == Flat(shards) - {name}
  {
    hide Flat, NameKept;
    var k := Slot(hash, name);
    var after := shards[k := Delete(shards[k], name)];
    assert ShardPlaced(hash, shards[k], k);
    forall i | 0 <= i < |after| ensures ShardPlaced(hash, after[i], i) {
      assert ShardPlaced(hash, shards[i], i);
    }
    forall other ensures other in Flat(after) <==> other in Flat(shards) - {name} {
      FlatLookup(hash, shards, other);
      FlatLookup(hash, after, other);
    }
    forall other | other in Flat(after) ensures Flat(after)[other] == (Flat(shards) - {name})[other] {
      FlatLookup(hash, shards, other);
      FlatLookup(hash, after, other);
    }
  }

  /** The shards' sizes add up to the size of the flat map: nothing is stored twice. */
  ghost function TotalTunnels(shards: seq<Shard>): nat {
    if shards == [] then 0 else TotalTunnels(shards[..|shards| - 1]) + |shards[|shards| - 1].tunnels|
  }

  /** One more shard shares no name with the shards before it. */
  lemma NextShard(hash: Hash, front: seq<Shard>, last: Shard)
    requires Placed(hash, front) && ShardPlaced(hash, last, |front|)
    ensures Flat(front).Keys !! last.tunnels.Keys
  {
    hide Flat, NameKept, Placed, Slot;
    forall name | name in last.tunnels ensures name !in Flat(front) {
      FlatLookup(hash, front, name);
    }
  }

  lemma {:induction false} FlatSize(hash: Hash, shards: seq<Shard>)
    requires Placed(hash, shards)
    ensures |Flat(shards)| == TotalTunnels(shards)
  {
    if shards != [] {
      var n := |shards| - 1;
      var init, last := Flat(shards[..n]), shards[n].tunnels;
      FlatSize(hash, shards[..n]);
      assert ShardPlaced(hash, shards[n], n);
      NextShard(hash, shards[..n], shards[n]);
      hide Placed, ShardPlaced;
      assert (init + last).Keys == init.Keys + last.Keys;
      assert |init.Keys + last.Keys| == |init.Keys| + |last.Keys|;
    }
  }

  // ---------------------------------------------------------------- tunnels of one address

  ghost function OfIP(m: map<string, Tunnel>, ip: string): set<string> {
    set name | name in m && m[name].ip == ip
  }

  lemma OfIPInsert(m: map<string, Tunnel>, name: string, t: Tunnel, ip: string)
    requires name !in m
    ensures |OfIP(m[name := t], ip)| == |OfIP(m, ip)| + if t.ip == ip then 1 else 0
    ensures |m[name := t]| == |m| + 1
  {
    OfIPWith(m, name, t, ip);
    hide OfIP;
    assert m[name := t].Keys == m.Keys + {name};
    assert |m.Keys + {name}| == |m.Keys| + 1;
  }

  lemma OfIPWith(m: map<string, Tunnel>, name: string, t: Tunnel, ip: string)
    requires name !in m
    ensures name !in OfIP(m, ip) && OfIP(m[name := t], ip) == OfIP(m, ip) + if t.ip == ip then {name} else {}
  {
  }

  lemma OfIPReplace(m: map<string, Tunnel>, name: string, t: Tunnel, ip: string)
    requires name in m
    ensures |OfIP(m[name := t], ip)| + (if m[name].ip == ip then 1 else 0) == |OfIP(m, ip)| + if t.ip == ip then 1 else 0
    ensures |m[name := t]| == |m|
  {
    OfIPRemove(m, name, ip);
    assert (m - {name})[name := t] == m[name := t];
    OfIPInsert(m - {name}, name, t, ip);
  }

  lemma OfIPRemove(m: map<string, Tunnel>, name: string, ip: string)
    requires name in m
    ensures |OfIP(m - {name}, ip)| + (if m[name].ip == ip then 1 else 0) == |OfIP(m, ip)|
    ensures |m - {name}| == |m| - 1
  {
    var before := m - {name};
    assert before.Keys == m.Keys - {name};
    assert |m.Keys - {name}| == |m.Keys| - 1;
    if m[name].ip == ip {
      assert OfIP(before, ip) == OfIP(m, ip) - {name};
    } else {
      assert OfIP(before, ip) == OfIP(m, ip);
    }
  }
}
