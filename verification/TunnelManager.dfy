/**
 * The tunnel manager under interleaving: registrations, unregistrations and stale sweeps run as
 * concurrent processes, and every compare-and-swap, atomic add and lock section is one step.
 */
module TunnelManager {
  import opened Collections
  import opened Subdomains
  import opened ShardedMap

  datatype Error = TooManyTunnels | RateLimitExceeded | TooManyPerIP | InvalidSubdomain | ReservedSubdomain | SubdomainTaken

  datatype Config = Config(maxTunnels: nat, maxTunnelsPerIP: nat, hash: Hash)

  /** One call in progress. */
  datatype Proc =
    // RegisterWithIP
    | Loading(custom: string, ip: string, id: nat)
    | Loaded(custom: string, ip: string, id: nat, current: int)
    | Reserved(custom: string, ip: string, id: nat)
    | Admitted(custom: string, ip: string, id: nat)
    | Naming(custom: string, ip: string, id: nat)
    | Picked(name: string, ip: string, id: nat)
    | UndoIP(ip: string, error: Error)
    | UndoGlobal(error: Error)
    | Registered(name: string)
    | Failed(error: Error)
    // Unregister
    | Removing(name: string)
    | Uncounting(ip: string)
    | UncountingIP(ip: string)
    | Removed
    // CleanupStale, one shard
    | Sweeping(todo: seq<string>)
    | SweepUncounting(todo: seq<string>, ip: string)
    | SweepUncountingIP(todo: seq<string>, ip: string)

  /** `displaced` is history: tunnels whose entry a generated name overwrote. */
  datatype State = State(shards: seq<Shard>, count: int, byIP: map<string, int>, procs: seq<Proc>, displaced: seq<Tunnel>)

  datatype Step =
    | Register(custom: string, ip: string, id: nat) | Load(i: nat) | Cas(i: nat) | RateCheck(i: nat, ok: bool) | ReserveIP(i: nat)
    | CommitCustom(i: nat) | Generate(i: nat, name: string) | CommitGenerated(i: nat) | RollbackIP(i: nat) | RollbackGlobal(i: nat)
    | Unregister(name: string) | RemoveTunnel(i: nat) | Uncount(i: nat) | UncountIP(i: nat)
    | Sweep(shard: nat, stale: seq<string>) | SweepRemove(i: nat) | SweepUncount(i: nat) | SweepUncountIP(i: nat)

  function Initial(): State {
    State(seq(NUM_SHARDS, _ => EMPTY_SHARD), 0, map[], [], [])
  }

  function IPCount(byIP: map<string, int>, ip: string): int {
    if ip in byIP then byIP[ip] else 0
  }

  /** The guarded decrement that rollbacks and removals share. */
  function DecrementIP(byIP: map<string, int>, ip: string): map<string, int> {
    if IPCount(byIP, ip) > 0 then
      if IPCount(byIP, ip) - 1 == 0 then byIP - {ip} else byIP[ip := IPCount(byIP, ip) - 1]
    else byIP
  }

  function ShardOf(c: Config, s: State, name: string): Shard
    requires |s.shards| == NUM_SHARDS
  {
    s.shards[Slot(c.hash, name)]
  }

  function PutTunnel(c: Config, shards: seq<Shard>, name: string, t: Tunnel): seq<Shard>
    requires |shards| == NUM_SHARDS
  {
    var k := Slot(c.hash, name);
    shards[k := Put(shards[k], name, t)]
  }

  function DeleteTunnel(c: Config, shards: seq<Shard>, name: string): seq<Shard>
    requires |shards| == NUM_SHARDS
  {
    var k := Slot(c.hash, name);
    shards[k := Delete(shards[k], name)]
  }

  function SetProc(s: State, i: nat, p: Proc): State
    requires i < |s.procs|
  {
    s.(procs := s.procs[i := p])
  }

  function Undo(ip: string, error: Error): Proc {
    if ip == "" then UndoGlobal(error) else UndoIP(ip, error)
  }

  /** The critical section that claims a requested name, after the checks that need no lock. */
  function ClaimCustom(c: Config, s: State, i: nat): State
    requires |s.shards| == NUM_SHARDS && i < |s.procs| && s.procs[i].Naming?
  {
    var p := s.procs[i];
    if !ValidateSubdomain(p.custom) then SetProc(s, i, Undo(p.ip, InvalidSubdomain))
    else if IsReserved(p.custom) then SetProc(s, i, Undo(p.ip, ReservedSubdomain))
    else if p.custom in ShardOf(c, s, p.custom).used then SetProc(s, i, Undo(p.ip, SubdomainTaken))
    else s.(shards := PutTunnel(c, s.shards, p.custom, Tunnel(p.id, p.custom, p.ip)), procs := s.procs[i := Registered(p.custom)])
  }

  /** What `generateUniqueSubdomain` can return: a free 6-character name, or after ten misses any 8-character one. */
  predicate CanGenerate(c: Config, s: State, name: string)
    requires |s.shards| == NUM_SHARDS
  {
    || (IsGenerated(name, 6) && !IsReserved(name) && name !in ShardOf(c, s, name).used)
    || IsGenerated(name, 8)
  }

  /** The critical section that stores a generated name, without looking whether it is taken by now. */
  function StoreGenerated(c: Config, s: State, i: nat): State
    requires |s.shards| == NUM_SHARDS && i < |s.procs| && s.procs[i].Picked?
  {
    var p := s.procs[i];
    var stored := ShardOf(c, s, p.name).tunnels;
    s.(shards := PutTunnel(c, s.shards, p.name, Tunnel(p.id, p.name, p.ip)), procs := s.procs[i := Registered(p.name)],
       displaced := if p.name in stored then s.displaced + [stored[p.name]] else s.displaced)
  }

  function RegisterStep(c: Config, s: State, e: Step): (t: State)
    requires |s.shards| == NUM_SHARDS
    ensures |t.shards| == NUM_SHARDS
  {
    match e
    case Register(custom, ip, id) => s.(procs := s.procs + [Loading(custom, ip, id)])
    case Load(i) =>
      if i < |s.procs| && s.procs[i].Loading? then
        var p := s.procs[i];
        if s.count >= c.maxTunnels then SetProc(s, i, Failed(TooManyTunnels))
        else SetProc(s, i, Loaded(p.custom, p.ip, p.id, s.count))
      else s
    case Cas(i) =>
      if i < |s.procs| && s.procs[i].Loaded? then
        var p := s.procs[i];
        if s.count == p.current then SetProc(s, i, Reserved(p.custom, p.ip, p.id)).(count := s.count + 1)
        else SetProc(s, i, Loading(p.custom, p.ip, p.id))
      else s
    case RateCheck(i, ok) =>
      if i < |s.procs| && s.procs[i].Reserved? then
        var p := s.procs[i];
        if p.ip == "" then SetProc(s, i, Naming(p.custom, p.ip, p.id))
        else if !ok then SetProc(s, i, UndoGlobal(RateLimitExceeded))
        else SetProc(s, i, Admitted(p.custom, p.ip, p.id))
      else s
    case ReserveIP(i) =>
      if i < |s.procs| && s.procs[i].Admitted? then
        var p := s.procs[i];
        if IPCount(s.byIP, p.ip) >= c.maxTunnelsPerIP then SetProc(s, i, UndoGlobal(TooManyPerIP))
        else SetProc(s, i, Naming(p.custom, p.ip, p.id)).(byIP := s.byIP[p.ip := IPCount(s.byIP, p.ip) + 1])
      else s
    case CommitCustom(i) =>
      if i < |s.procs| && s.procs[i].Naming? && s.procs[i].custom != "" then ClaimCustom(c, s, i) else s
    case Generate(i, name) =>
      if i < |s.procs| && s.procs[i].Naming? && s.procs[i].custom == "" && CanGenerate(c, s, name) then
        SetProc(s, i, Picked(name, s.procs[i].ip, s.procs[i].id))
      else s
    case CommitGenerated(i) =>
      if i < |s.procs| && s.procs[i].Picked? then StoreGenerated(c, s, i) else s
    case RollbackIP(i) =>
      if i < |s.procs| && s.procs[i].UndoIP? then
        SetProc(s, i, UndoGlobal(s.procs[i].error)).(byIP := DecrementIP(s.byIP, s.procs[i].ip))
      else s
    case RollbackGlobal(i) =>
      if i < |s.procs| && s.procs[i].UndoGlobal? then SetProc(s, i, Failed(s.procs[i].error)).(count := s.count - 1) else s
    case _ => s
  }

  function RemoveStep(c: Config, s: State, e: Step): (t: State)
    requires |s.shards| == NUM_SHARDS
    ensures |t.shards| == NUM_SHARDS
  {
    match e
    case Unregister(name) => s.(procs := s.procs + [Removing(name)])
    case RemoveTunnel(i) =>
      if i < |s.procs| && s.procs[i].Removing? then
        var name := s.procs[i].name;
        var tunnels := ShardOf(c, s, name).tunnels;
        if name !in tunnels then SetProc(s, i, Removed)
        else SetProc(s, i, Uncounting(tunnels[name].ip)).(shards := DeleteTunnel(c, s.shards, name))
      else s
    case Uncount(i) =>
      if i < |s.procs| && s.procs[i].Uncounting? then
        var ip := s.procs[i].ip;
        SetProc(s, i, if ip == "" then Removed else UncountingIP(ip)).(count := s.count - 1)
      else s
    case UncountIP(i) =>
      if i < |s.procs| && s.procs[i].UncountingIP? then
        SetProc(s, i, Removed).(byIP := DecrementIP(s.byIP, s.procs[i].ip))
      else s
    case _ => s
  }

  function SweepStep(c: Config, s: State, e: Step): (t: State)
    requires |s.shards| == NUM_SHARDS
    ensures |t.shards| == NUM_SHARDS
  {
    match e
    case Sweep(shard, stale) =>
      if shard < NUM_SHARDS && forall i :: 0 <= i < |stale| ==> stale[i] in s.shards[shard].tunnels then
        s.(procs := s.procs + [Sweeping(stale)])
      else s
    case SweepRemove(i) =>
      if i < |s.procs| && s.procs[i].Sweeping? && s.procs[i].todo != [] then
        var name, rest := s.procs[i].todo[0], s.procs[i].todo[1..];
        var tunnels := ShardOf(c, s, name).tunnels;
        if name !in tunnels then SetProc(s, i, Sweeping(rest))
        else SetProc(s, i, SweepUncounting(rest, tunnels[name].ip)).(shards := DeleteTunnel(c, s.shards, name))
      else s
    case SweepUncount(i) =>
      if i < |s.procs| && s.procs[i].SweepUncounting? then
        var p := s.procs[i];
        SetProc(s, i, if p.ip == "" then Sweeping(p.todo) else SweepUncountingIP(p.todo, p.ip)).(count := s.count - 1)
      else s
    case SweepUncountIP(i) =>
      if i < |s.procs| && s.procs[i].SweepUncountingIP? then
        SetProc(s, i, Sweeping(s.procs[i].todo)).(byIP := DecrementIP(s.byIP, s.procs[i].ip))
      else s
    case _ => s
  }

  predicate IsRemoval(e: Step) {
    e.Unregister? || e.RemoveTunnel? || e.Uncount? || e.UncountIP?
  }

  predicate IsSweep(e: Step) {
    e.Sweep? || e.SweepRemove? || e.SweepUncount? || e.SweepUncountIP?
  }

  function Next(c: Config, s: State, e: Step): (t: State)
    requires |s.shards| == NUM_SHARDS
    ensures |t.shards| == NUM_SHARDS
  {
    if IsRemoval(e) then RemoveStep(c, s, e) else if IsSweep(e) then SweepStep(c, s, e) else RegisterStep(c, s, e)
  }

  function Run(c: Config, steps: seq<Step>): (s: State)
    ensures |s.shards| == NUM_SHARDS
  {
    if steps == [] then Initial() else Next(c, Run(c, steps[..|steps| - 1]), steps[|steps| - 1])
  }
}
