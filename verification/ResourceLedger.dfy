/**
 * The resource ledger: connections taking and returning ports, names and group IDs, interleaved step
 * by step, failing anywhere.  A step is one critical section of the allocator, the tunnel manager or
 * the group manager, or one assignment to a connection's lifecycle record.  A step that is not
 * enabled leaves the state as it is.
 */
module ResourceLedger {
  import opened Collections
  import opened Subdomains

  datatype Config = Config(minPort: nat, maxPort: nat)

  datatype Request = Request(tcp: bool, custom: string, wantsGroup: bool)

  datatype Stage =
    // RegistrationHandler.Register
    | Asking | Naming | RollingBack | Looking
    // the rest of Connection.Handle
    | Recording | Grouping | RecordingGroup | Serving | Lost
    // ConnectionLifecycleManager.Close
    | ReleasingPort | Unregistering | RemovingGroup | Closed

  /** What the lifecycle manager has been told to release. */
  datatype Record = Record(port: nat, subdomain: string, tunnelID: string)

  const NOTHING := Record(0, "", "")

  datatype Conn = Conn(request: Request, stage: Stage, port: nat, name: string, tunnelID: string, record: Record)

  /** History: which connection gave back its port or its name. */
  datatype Event = PortReturned(conn: nat) | NameReturned(conn: nat)

  /** The three shared maps; in `used` the values are history, the allocator only keeps the keys. */
  datatype State = State(used: map<nat, nat>, names: map<string, nat>, groups: map<string, nat>, conns: seq<Conn>, log: seq<Event>)

  const INITIAL := State(map[], map[], map[], [], [])

  datatype Step =
    | Arrive(request: Request) | Refuse(i: nat)
    | AllocatePort(i: nat, outcome: Option<nat>) | RegisterName(i: nat, registered: Option<string>) | RollBack(i: nat) | Lookup(i: nat)
    | RecordTunnel(i: nat) | CreateGroup(i: nat, id: string) | RecordGroup(i: nat)
    | StartClose(i: nat) | ReleasePort(i: nat) | Unregister(i: nat) | RemoveGroup(i: nat)
    | SweepGroups(stale: set<string>)

  function SetConn(s: State, i: nat, c: Conn): State
    requires i < |s.conns|
  {
    s.(conns := s.conns[i := c])
  }

  /** Whether the allocator can hand out `port`: the requested one if a valid one is requested, else any free one. */
  predicate CanAllocate(c: Config, s: State, custom: string, port: nat) {
    && c.minPort <= port <= c.maxPort && port !in s.used
    && (ParseTcpSubdomainPort(custom).Some? ==> port == ParseTcpSubdomainPort(custom).value)
  }

  /** Whether the manager can register `name` for a request: the requested one, or a fresh generated one. */
  predicate CanRegister(s: State, custom: string, name: string) {
    && ValidateSubdomain(name) && !IsReserved(name) && name !in s.names
    && (custom != "" ==> name == custom)
  }

  function RegisterStep(c: Config, s: State, e: Step): State {
    match e
    case Refuse(i) =>
      if i < |s.conns| && s.conns[i].stage.Asking? then SetConn(s, i, s.conns[i].(stage := ReleasingPort)) else s
    case AllocatePort(i, outcome) =>
      if !(i < |s.conns| && s.conns[i].stage.Asking?) then s
      else
        var conn := s.conns[i];
        if !conn.request.tcp then SetConn(s, i, conn.(stage := Naming))
        else if outcome.None? then SetConn(s, i, conn.(stage := ReleasingPort))
        else if CanAllocate(c, s, conn.request.custom, outcome.value) then
          var port := outcome.value;
          var custom := if conn.request.custom == "" then TcpName(port) else conn.request.custom;
          SetConn(s, i, conn.(stage := Naming, port := port, request := conn.request.(custom := custom))).(used := s.used[port := i])
        else s
    case RegisterName(i, registered) =>
      if !(i < |s.conns| && s.conns[i].stage.Naming?) then s
      else
        var conn := s.conns[i];
        if registered.None? then SetConn(s, i, conn.(stage := if conn.port > 0 then RollingBack else ReleasingPort))
        else if CanRegister(s, conn.request.custom, registered.value) then
          SetConn(s, i, conn.(stage := Looking, name := registered.value)).(names := s.names[registered.value := i])
        else s
    case RollBack(i) =>
      if i < |s.conns| && s.conns[i].stage.RollingBack? then
        SetConn(s, i, s.conns[i].(stage := ReleasingPort)).(used := s.used - {s.conns[i].port}, log := s.log + [PortReturned(i)])
      else s
    case Lookup(i) =>
      if i < |s.conns| && s.conns[i].stage.Looking? then
        SetConn(s, i, s.conns[i].(stage := if s.conns[i].name in s.names then Recording else Lost))
      else s
    case _ => s
  }

  function HandleStep(s: State, e: Step): State {
    match e
    case RecordTunnel(i) =>
      if i < |s.conns| && s.conns[i].stage.Recording? then
        SetConn(s, i, s.conns[i].(stage := Grouping, record := Record(s.conns[i].port, s.conns[i].name, "")))
      else s
    case CreateGroup(i, id) =>
      if !(i < |s.conns| && s.conns[i].stage.Grouping?) then s
      else if !s.conns[i].request.wantsGroup then SetConn(s, i, s.conns[i].(stage := Serving))
      else if id != "" && forall j :: 0 <= j < |s.conns| ==> s.conns[j].tunnelID != id then
        SetConn(s, i, s.conns[i].(stage := RecordingGroup, tunnelID := id)).(groups := s.groups[id := i])
      else s
    case RecordGroup(i) =>
      if i < |s.conns| && s.conns[i].stage.RecordingGroup? then
        SetConn(s, i, s.conns[i].(stage := Serving, record := s.conns[i].record.(tunnelID := s.conns[i].tunnelID)))
      else s
    case StartClose(i) =>
      if i < |s.conns| && (s.conns[i].stage.Serving? || s.conns[i].stage.Lost?) then SetConn(s, i, s.conns[i].(stage := ReleasingPort)) else s
    case _ => s
  }

  function CloseStep(s: State, e: Step): State {
    match e
    case ReleasePort(i) =>
      if i < |s.conns| && s.conns[i].stage.ReleasingPort? then
        var t := SetConn(s, i, s.conns[i].(stage := Unregistering));
        var port := s.conns[i].record.port;
        if port > 0 then t.(used := s.used - {port}, log := s.log + [PortReturned(i)]) else t
      else s
    case Unregister(i) =>
      if i < |s.conns| && s.conns[i].stage.Unregistering? then
        var t := SetConn(s, i, s.conns[i].(stage := RemovingGroup));
        var subdomain := s.conns[i].record.subdomain;
        if subdomain != "" then t.(names := s.names - {subdomain}, log := s.log + [NameReturned(i)]) else t
      else s
    case RemoveGroup(i) =>
      if i < |s.conns| && s.conns[i].stage.RemovingGroup? then
        var t := SetConn(s, i, s.conns[i].(stage := Closed));
        var record := s.conns[i].record;
        if record.subdomain != "" && record.tunnelID != "" then t.(groups := s.groups - {record.tunnelID}) else t
      else s
    case _ => s
  }

  function Next(c: Config, s: State, e: Step): State {
    match e
    case Arrive(request) => s.(conns := s.conns + [Conn(request, Asking, 0, "", "", NOTHING)])
    case SweepGroups(stale) => s.(groups := s.groups - stale)
    case Refuse(_) => RegisterStep(c, s, e)
    case AllocatePort(_, _) => RegisterStep(c, s, e)
    case RegisterName(_, _) => RegisterStep(c, s, e)
    case RollBack(_) => RegisterStep(c, s, e)
    case Lookup(_) => RegisterStep(c, s, e)
    case RecordTunnel(_) => HandleStep(s, e)
    case CreateGroup(_, _) => HandleStep(s, e)
    case RecordGroup(_) => HandleStep(s, e)
    case StartClose(_) => HandleStep(s, e)
    case ReleasePort(_) => CloseStep(s, e)
    case Unregister(_) => CloseStep(s, e)
    case RemoveGroup(_) => CloseStep(s, e)
  }

  function Run(c: Config, steps: seq<Step>): State {
    if steps == [] then INITIAL else Next(c, Run(c, steps[..|steps| - 1]), steps[|steps| - 1])
  }

  lemma RunExtends(c: Config, steps: seq<Step>, e: Step)
    ensures Run(c, []) == INITIAL && Run(c, steps + [e]) == Next(c, Run(c, steps), e)
  {
    assert (steps + [e])[..|steps|] == steps;
  }

  // ---------------------------------------------------------------- what a connection holds

  function PortOf(conn: Conn): Option<nat> {
    match conn.stage
    case Naming => if conn.port > 0 then Some(conn.port) else None
    case RollingBack => Some(conn.port)
    case Looking => if conn.port > 0 then Some(conn.port) else None
    case Recording => if conn.port > 0 then Some(conn.port) else None
    case Grouping => if conn.record.port > 0 then Some(conn.record.port) else None
    case RecordingGroup => if conn.record.port > 0 then Some(conn.record.port) else None
    case Serving => if conn.record.port > 0 then Some(conn.record.port) else None
    case ReleasingPort => if conn.record.port > 0 then Some(conn.record.port) else None
    case _ => None
  }

  function NameOf(conn: Conn): Option<string> {
    match conn.stage
    case Looking => Some(conn.name)
    case Recording => Some(conn.name)
    case Grouping => Some(conn.record.subdomain)
    case RecordingGroup => Some(conn.record.subdomain)
    case Serving => Some(conn.record.subdomain)
    case ReleasingPort => if conn.record.subdomain != "" then Some(conn.record.subdomain) else None
    case Unregistering => if conn.record.subdomain != "" then Some(conn.record.subdomain) else None
    case _ => None
  }

  function GroupOf(conn: Conn): Option<string> {
    match conn.stage
    case RecordingGroup => Some(conn.tunnelID)
    case Serving => if conn.record.tunnelID != "" then Some(conn.record.tunnelID) else None
    case ReleasingPort => if conn.record.tunnelID != "" then Some(conn.record.tunnelID) else None
    case Unregistering => if conn.record.tunnelID != "" then Some(conn.record.tunnelID) else None
    case RemovingGroup => if conn.record.tunnelID != "" then Some(conn.record.tunnelID) else None
    case _ => None
  }

  function Ports(conns: seq<Conn>): (r: seq<Option<nat>>)
    ensures |r| == |conns|
  {
    seq(|conns|, i requires 0 <= i < |conns| => PortOf(conns[i]))
  }

  function Names(conns: seq<Conn>): (r: seq<Option<string>>)
    ensures |r| == |conns|
  {
    seq(|conns|, i requires 0 <= i < |conns| => NameOf(conns[i]))
  }

  function Groups(conns: seq<Conn>): (r: seq<Option<string>>)
    ensures |r| == |conns|
  {
    seq(|conns|, i requires 0 <= i < |conns| => GroupOf(conns[i]))
  }

  // ---------------------------------------------------------------- ownership

  /** Every entry of the map belongs to the connection that holds it. */
  ghost predicate Tracked<K(!new)>(m: map<K, nat>, holds: seq<Option<K>>) {
    forall k :: k in m ==> m[k] < |holds| && holds[m[k]] == Some(k)
  }

  /** And everything held has its entry. */
  ghost predicate Owned<K(!new)>(m: map<K, nat>, holds: seq<Option<K>>) {
    && Tracked(m, holds)
    && forall i :: 0 <= i < |holds| && holds[i].Some? ==> holds[i].value in m && m[holds[i].value] == i
  }

  /** The map after connection `i` has exchanged what it held for something else. */
  function Moved<K>(m: map<K, nat>, i: nat, before: Option<K>, after: Option<K>): map<K, nat> {
    if before == after then m
    else
      var rest := if before.Some? then m - {before.value} else m;
      if after.Some? then rest[after.value := i] else rest
  }

  lemma MovedOwned<K(!new)>(m: map<K, nat>, holds: seq<Option<K>>, i: nat, after: Option<K>)
    requires Owned(m, holds) && i < |holds| && (after.Some? && after != holds[i] ==> after.value !in m)
    ensures Owned(Moved(m, i, holds[i], after), holds[i := after])
  {
  }

  lemma MovedTracked<K(!new)>(m: map<K, nat>, holds: seq<Option<K>>, i: nat, after: Option<K>)
    requires Tracked(m, holds) && i < |holds| && (after.Some? && after != holds[i] ==> after.value !in m)
    ensures Tracked(Moved(m, i, holds[i], after), holds[i := after])
  {
  }

  lemma SpawnOwned<K(!new)>(m: map<K, nat>, holds: seq<Option<K>>)
    requires Owned(m, holds)
    ensures Owned(m, holds + [None])
  {
  }

  // ---------------------------------------------------------------- the invariant

  predicate BeforeRecord(stage: Stage) {
    stage.Asking? || stage.Naming? || stage.RollingBack? || stage.Looking? || stage.Recording?
  }

  predicate AfterRecord(stage: Stage) {
    stage.Grouping? || stage.RecordingGroup? || stage.Serving?
  }

  /** The record says what the connection holds, from the moment it is written. */
  predicate RecordOk(conn: Conn) {
    && (BeforeRecord(conn.stage) ==> conn.record == NOTHING)
    && (AfterRecord(conn.stage) ==> conn.record.port == conn.port && conn.record.subdomain == conn.name && conn.name != "")
    && (conn.record == NOTHING || (conn.record.port == conn.port && conn.record.subdomain == conn.name && conn.name != ""))
    && (if conn.stage.RecordingGroup? then conn.record.tunnelID == "" && conn.tunnelID != "" else conn.record.tunnelID == conn.tunnelID)
    && (conn.stage.Grouping? ==> conn.tunnelID == "")
    && !conn.stage.Lost?
  }

  /** Names and ports of one connection fit together and were validly obtained. */
  predicate GrantOk(c: Config, conn: Conn) {
    && (conn.stage.Asking? ==> conn.port == 0)
    && (conn.stage.Asking? || conn.stage.Naming? || conn.stage.RollingBack? ==> conn.name == "")
    && (conn.port > 0 ==> conn.request.tcp && c.minPort <= conn.port <= c.maxPort)
    && (conn.name != "" ==> ValidateSubdomain(conn.name) && !IsReserved(conn.name) && (conn.request.custom != "" ==> conn.name == conn.request.custom))
    && (conn.stage.RollingBack? || (conn.stage.Naming? && conn.request.tcp) || (conn.name != "" && conn.request.tcp) ==> conn.port > 0)
    && (conn.port > 0 ==> conn.request.custom != "" && (ParseTcpSubdomainPort(conn.request.custom).Some? ==> ParseTcpSubdomainPort(conn.request.custom).value == conn.port))
    && (conn.stage.Looking? || conn.stage.Recording? ==> conn.name != "")
  }

  /** A resource is returned exactly once: when the connection has had it and does not hold it any more. */
  ghost predicate ReturnsOk(log: seq<Event>, i: nat, conn: Conn) {
    && Count(log, PortReturned(i)) == (if conn.port > 0 && PortOf(conn).None? then 1 else 0)
    && Count(log, NameReturned(i)) == (if conn.name != "" && NameOf(conn).None? then 1 else 0)
  }

  ghost predicate ConnOk(c: Config, log: seq<Event>, i: nat, conn: Conn) {
    RecordOk(conn) && GrantOk(c, conn) && ReturnsOk(log, i, conn)
  }

  ghost predicate ConnsOk(c: Config, s: State) {
    && (forall i :: 0 <= i < |s.conns| ==> ConnOk(c, s.log, i, s.conns[i]))
    && (forall i, j :: 0 <= i < j < |s.conns| && s.conns[i].tunnelID != "" ==> s.conns[i].tunnelID != s.conns[j].tunnelID)
    && (forall k :: k >= |s.conns| ==> Count(s.log, PortReturned(k)) == 0 && Count(s.log, NameReturned(k)) == 0)
  }

  ghost predicate Inv(c: Config, s: State) {
    && Owned(s.used, Ports(s.conns)) && Owned(s.names, Names(s.conns)) && Tracked(s.groups, Groups(s.conns))
    && ConnsOk(c, s)
  }

  predicate ValidConfig(c: Config) {
    0 < c.minPort < c.maxPort <= 65535
  }

  // ---------------------------------------------------------------- every step keeps it

  /** What a step of connection `i` does to the log. */
  predicate LogsAtMost(before: seq<Event>, after: seq<Event>, i: nat) {
    after == before || after == before + [PortReturned(i)] || after == before + [NameReturned(i)]
  }

  lemma OthersUnlogged(before: seq<Event>, after: seq<Event>, i: nat, k: nat)
    requires LogsAtMost(before, after, i) && k != i
    ensures Count(after, PortReturned(k)) == Count(before, PortReturned(k))
    ensures Count(after, NameReturned(k)) == Count(before, NameReturned(k))
  {
    if after != before {
      CountAppend(before, after[|before|], PortReturned(k));
      CountAppend(before, after[|before|], NameReturned(k));
    }
  }

  /** One connection moves on: the maps follow what it holds. */
  lemma MoveKeeps(c: Config, s: State, t: State, i: nat)
    requires Inv(c, s) && i < |s.conns| && |t.conns| == |s.conns| && t.conns == s.conns[i := t.conns[i]]
    requires t.used == Moved(s.used, i, PortOf(s.conns[i]), PortOf(t.conns[i]))
    requires t.names == Moved(s.names, i, NameOf(s.conns[i]), NameOf(t.conns[i]))
    requires t.groups == Moved(s.groups, i, GroupOf(s.conns[i]), GroupOf(t.conns[i]))
    requires PortOf(t.conns[i]).Some? && PortOf(t.conns[i]) != PortOf(s.conns[i]) ==> PortOf(t.conns[i]).value !in s.used
    requires NameOf(t.conns[i]).Some? && NameOf(t.conns[i]) != NameOf(s.conns[i]) ==> NameOf(t.conns[i]).value !in s.names
    requires GroupOf(t.conns[i]).Some? && GroupOf(t.conns[i]) != GroupOf(s.conns[i]) ==> GroupOf(t.conns[i]).value !in s.groups
    requires t.conns[i].tunnelID == s.conns[i].tunnelID || (t.conns[i].tunnelID != "" && forall j :: 0 <= j < |s.conns| ==> s.conns[j].tunnelID != t.conns[i].tunnelID)
    requires LogsAtMost(s.log, t.log, i) && ConnOk(c, t.log, i, t.conns[i])
    ensures Inv(c, t)
  {
    hide PortOf, NameOf, GroupOf, RecordOk, GrantOk, Count, Moved, Owned, Tracked, LogsAtMost;
    assert Ports(t.conns) == Ports(s.conns)[i := PortOf(t.conns[i])];
    assert Names(t.conns) == Names(s.conns)[i := NameOf(t.conns[i])];
    assert Groups(t.conns) == Groups(s.conns)[i := GroupOf(t.conns[i])];
    MovedOwned(s.used, Ports(s.conns), i, PortOf(t.conns[i]));
    MovedOwned(s.names, Names(s.conns), i, NameOf(t.conns[i]));
    MovedTracked(s.groups, Groups(s.conns), i, GroupOf(t.conns[i]));
    forall k: nat | k != i
      ensures Count(t.log, PortReturned(k)) == Count(s.log, PortReturned(k)) && Count(t.log, NameReturned(k)) == Count(s.log, NameReturned(k)) {
      OthersUnlogged(s.log, t.log, i, k);
    }
  }

  /** A move that holds and returns nothing new. */
  lemma QuietKeeps(c: Config, s: State, i: nat, conn: Conn)
    requires Inv(c, s) && i < |s.conns|
    requires PortOf(conn) == PortOf(s.conns[i]) && NameOf(conn) == NameOf(s.conns[i]) && GroupOf(conn) == GroupOf(s.conns[i])
    requires conn.port == s.conns[i].port && conn.name == s.conns[i].name && conn.tunnelID == s.conns[i].tunnelID
    requires RecordOk(conn) && GrantOk(c, conn)
    ensures Inv(c, SetConn(s, i, conn))
  {
    hide PortOf, NameOf, GroupOf, RecordOk, GrantOk, Count, Owned, Tracked;
    assert ConnOk(c, s.log, i, s.conns[i]);
    MoveKeeps(c, s, SetConn(s, i, conn), i);
  }

  lemma Logged(log: seq<Event>, e: Event, i: nat)
    ensures Count(log + [e], PortReturned(i)) == Count(log, PortReturned(i)) + if e == PortReturned(i) then 1 else 0
    ensures Count(log + [e], NameReturned(i)) == Count(log, NameReturned(i)) + if e == NameReturned(i) then 1 else 0
  {
    CountAppend(log, e, PortReturned(i));
    CountAppend(log, e, NameReturned(i));
  }

  lemma ArriveKeeps(c: Config, s: State, request: Request)
    requires Inv(c, s)
    ensures Inv(c, Next(c, s, Arrive(request)))
  {
    hide Count, Owned, Tracked;
    var conn := Conn(request, Asking, 0, "", "", NOTHING);
    var t := Next(c, s, Arrive(request));
    assert Ports(t.conns) == Ports(s.conns) + [None] && Names(t.conns) == Names(s.conns) + [None] && Groups(t.conns) == Groups(s.conns) + [None];
    SpawnOwned(s.used, Ports(s.conns));
    SpawnOwned(s.names, Names(s.conns));
    SpawnTracked(s.groups, Groups(s.conns));
  }

  lemma SpawnTracked<K(!new)>(m: map<K, nat>, holds: seq<Option<K>>)
    requires Tracked(m, holds)
    ensures Tracked(m, holds + [None])
  {
  }

  lemma SweepKeeps(c: Config, s: State, stale: set<string>)
    requires Inv(c, s)
    ensures Inv(c, s.(groups := s.groups - stale))
  {
    hide Owned, ConnOk;
    assert Tracked(s.groups, Groups(s.conns));
  }

  lemma AllocateKeeps(c: Config, s: State, i: nat, port: nat)
    requires ValidConfig(c) && Inv(c, s) && i < |s.conns| && s.conns[i].stage.Asking? && s.conns[i].request.tcp
    requires CanAllocate(c, s, s.conns[i].request.custom, port)
    ensures Inv(c, RegisterStep(c, s, AllocatePort(i, Some(port))))
  {
    hide Count, Owned, Tracked, ParseTcpSubdomainPort, TcpName, ValidateSubdomain, IsReserved;
    var t := RegisterStep(c, s, AllocatePort(i, Some(port)));
    assert ConnOk(c, s.log, i, s.conns[i]);
    TcpNameRoundTrip(port);
    assert TcpName(port) != "" by { assert ValidateSubdomain(TcpName(port)); ValidNotEmpty(TcpName(port)); }
    MoveKeeps(c, s, t, i);
  }

  lemma ValidNotEmpty(name: string)
    requires ValidateSubdomain(name)
    ensures name != ""
  {
  }

  lemma RegisterNameKeeps(c: Config, s: State, i: nat, name: string)
    requires Inv(c, s) && i < |s.conns| && s.conns[i].stage.Naming? && CanRegister(s, s.conns[i].request.custom, name)
    ensures Inv(c, RegisterStep(c, s, RegisterName(i, Some(name))))
  {
    hide Count, Owned, Tracked, ParseTcpSubdomainPort, ValidateSubdomain, IsReserved;
    var t := RegisterStep(c, s, RegisterName(i, Some(name)));
    assert ConnOk(c, s.log, i, s.conns[i]);
    ValidNotEmpty(name);
    MoveKeeps(c, s, t, i);
  }

  lemma RollBackKeeps(c: Config, s: State, i: nat)
    requires Inv(c, s) && i < |s.conns| && s.conns[i].stage.RollingBack?
    ensures Inv(c, RegisterStep(c, s, RollBack(i)))
  {
    hide Count, Owned, Tracked, ParseTcpSubdomainPort, ValidateSubdomain, IsReserved;
    assert ConnOk(c, s.log, i, s.conns[i]);
    Logged(s.log, PortReturned(i), i);
    MoveKeeps(c, s, RegisterStep(c, s, RollBack(i)), i);
  }

  /** The name just registered is still there: only its own connection takes it out. */
  lemma LookupSucceeds(c: Config, s: State, i: nat)
    requires Inv(c, s) && i < |s.conns| && s.conns[i].stage.Looking?
    ensures s.conns[i].name in s.names && s.names[s.conns[i].name] == i
  {
    assert Names(s.conns)[i] == Some(s.conns[i].name);
  }

  lemma RegisterKeeps(c: Config, s: State, e: Step)
    requires ValidConfig(c) && Inv(c, s) && (e.Refuse? || e.AllocatePort? || e.RegisterName? || e.RollBack? || e.Lookup?)
    ensures Inv(c, RegisterStep(c, s, e))
  {
    hide Count, Owned, Tracked, ParseTcpSubdomainPort, TcpName, ValidateSubdomain, IsReserved, CanAllocate, CanRegister;
    if e.i >= |s.conns| { return; }
    var conn := s.conns[e.i];
    assert ConnOk(c, s.log, e.i, conn);
    match e
    case Refuse(i) => if conn.stage.Asking? { QuietKeeps(c, s, i, conn.(stage := ReleasingPort)); }
    case AllocatePort(i, outcome) =>
      if conn.stage.Asking? {
        if !conn.request.tcp { QuietKeeps(c, s, i, conn.(stage := Naming)); }
        else if outcome.None? { QuietKeeps(c, s, i, conn.(stage := ReleasingPort)); }
        else if CanAllocate(c, s, conn.request.custom, outcome.value) { AllocateKeeps(c, s, i, outcome.value); }
      }
    case RegisterName(i, registered) =>
      if conn.stage.Naming? {
        if registered.None? { QuietKeeps(c, s, i, conn.(stage := if conn.port > 0 then RollingBack else ReleasingPort)); }
        else if CanRegister(s, conn.request.custom, registered.value) { RegisterNameKeeps(c, s, i, registered.value); }
      }
    case RollBack(i) => if conn.stage.RollingBack? { RollBackKeeps(c, s, i); }
    case Lookup(i) =>
      if conn.stage.Looking? {
        LookupSucceeds(c, s, i);
        QuietKeeps(c, s, i, conn.(stage := Recording));
      }
  }

  lemma GroupsHaveIDs(c: Config, s: State)
    requires Inv(c, s)
    ensures forall g :: g in s.groups ==> s.groups[g] < |s.conns| && s.conns[s.groups[g]].tunnelID == g
  {
    forall g | g in s.groups ensures s.groups[g] < |s.conns| && s.conns[s.groups[g]].tunnelID == g {
      var j := s.groups[g];
      assert Groups(s.conns)[j] == Some(g);
      assert ConnOk(c, s.log, j, s.conns[j]);
    }
  }

  lemma CreateGroupKeeps(c: Config, s: State, i: nat, id: string)
    requires Inv(c, s) && i < |s.conns| && s.conns[i].stage.Grouping? && s.conns[i].request.wantsGroup
    requires id != "" && forall j :: 0 <= j < |s.conns| ==> s.conns[j].tunnelID != id
    ensures Inv(c, HandleStep(s, CreateGroup(i, id)))
  {
    hide Count, Owned, Tracked, GrantOk;
    assert ConnOk(c, s.log, i, s.conns[i]);
    assert GrantOk(c, s.conns[i].(stage := RecordingGroup, tunnelID := id)) by { GrantCarries(c, s.conns[i], s.conns[i].(stage := RecordingGroup, tunnelID := id)); }
    GroupsHaveIDs(c, s);
    MoveKeeps(c, s, HandleStep(s, CreateGroup(i, id)), i);
  }

  /** What a connection was granted stays in order when it moves on with the same port and name. */
  lemma GrantCarries(c: Config, conn: Conn, next: Conn)
    requires GrantOk(c, conn) && next.request == conn.request && next.port == conn.port && next.name == conn.name
    requires !next.stage.Asking? && !next.stage.Naming? && !next.stage.RollingBack? && !next.stage.Looking? && !next.stage.Recording?
    ensures GrantOk(c, next)
  {
  }

  lemma NamedWhenRecording(c: Config, conn: Conn)
    requires GrantOk(c, conn) && conn.stage.Recording?
    ensures conn.name != ""
  {
  }

  lemma HandleKeeps(c: Config, s: State, e: Step)
    requires Inv(c, s) && (e.RecordTunnel? || e.CreateGroup? || e.RecordGroup? || e.StartClose?)
    ensures Inv(c, HandleStep(s, e))
  {
    hide Count, Owned, Tracked, GrantOk;
    if e.i >= |s.conns| { return; }
    var conn := s.conns[e.i];
    assert ConnOk(c, s.log, e.i, conn);
    match e
    case RecordTunnel(i) =>
      if conn.stage.Recording? {
        var next := conn.(stage := Grouping, record := Record(conn.port, conn.name, ""));
        GrantCarries(c, conn, next);
        NamedWhenRecording(c, conn);
        QuietKeeps(c, s, i, next);
      }
    case CreateGroup(i, id) =>
      if conn.stage.Grouping? {
        if !conn.request.wantsGroup {
          GrantCarries(c, conn, conn.(stage := Serving));
          QuietKeeps(c, s, i, conn.(stage := Serving));
        } else if id != "" && forall j :: 0 <= j < |s.conns| ==> s.conns[j].tunnelID != id {
          CreateGroupKeeps(c, s, i, id);
        }
      }
    case RecordGroup(i) =>
      if conn.stage.RecordingGroup? {
        var next := conn.(stage := Serving, record := conn.record.(tunnelID := conn.tunnelID));
        GrantCarries(c, conn, next);
        QuietKeeps(c, s, i, next);
      }
    case StartClose(i) =>
      if conn.stage.Serving? {
        GrantCarries(c, conn, conn.(stage := ReleasingPort));
        QuietKeeps(c, s, i, conn.(stage := ReleasingPort));
      }
  }

  lemma ReleasePortKeeps(c: Config, s: State, i: nat)
    requires Inv(c, s) && i < |s.conns| && s.conns[i].stage.ReleasingPort?
    ensures Inv(c, CloseStep(s, ReleasePort(i)))
  {
    hide Count, Owned, Tracked, GrantOk;
    var conn := s.conns[i];
    assert ConnOk(c, s.log, i, conn);
    GrantCarries(c, conn, conn.(stage := Unregistering));
    if conn.record.port > 0 {
      Logged(s.log, PortReturned(i), i);
      MoveKeeps(c, s, CloseStep(s, ReleasePort(i)), i);
    } else {
      QuietKeeps(c, s, i, conn.(stage := Unregistering));
    }
  }

  lemma UnregisterKeeps(c: Config, s: State, i: nat)
    requires Inv(c, s) && i < |s.conns| && s.conns[i].stage.Unregistering?
    ensures Inv(c, CloseStep(s, Unregister(i)))
  {
    hide Count, Owned, Tracked, GrantOk;
    var conn := s.conns[i];
    assert ConnOk(c, s.log, i, conn);
    GrantCarries(c, conn, conn.(stage := RemovingGroup));
    if conn.record.subdomain != "" {
      Logged(s.log, NameReturned(i), i);
      MoveKeeps(c, s, CloseStep(s, Unregister(i)), i);
    } else {
      QuietKeeps(c, s, i, conn.(stage := RemovingGroup));
    }
  }

  lemma RemoveGroupKeeps(c: Config, s: State, i: nat)
    requires Inv(c, s) && i < |s.conns| && s.conns[i].stage.RemovingGroup?
    ensures Inv(c, CloseStep(s, RemoveGroup(i)))
  {
    hide Count, Owned, Tracked, GrantOk;
    var conn := s.conns[i];
    assert ConnOk(c, s.log, i, conn);
    GrantCarries(c, conn, conn.(stage := Closed));
    if conn.record.tunnelID != "" {
      MoveKeeps(c, s, CloseStep(s, RemoveGroup(i)), i);
    } else {
      QuietKeeps(c, s, i, conn.(stage := Closed));
    }
  }

  lemma CloseKeeps(c: Config, s: State, e: Step)
    requires Inv(c, s) && (e.ReleasePort? || e.Unregister? || e.RemoveGroup?)
    ensures Inv(c, CloseStep(s, e))
  {
    hide Inv;
    if e.i >= |s.conns| { return; }
    var conn := s.conns[e.i];
    match e
    case ReleasePort(i) => if conn.stage.ReleasingPort? { ReleasePortKeeps(c, s, i); }
    case Unregister(i) => if conn.stage.Unregistering? { UnregisterKeeps(c, s, i); }
    case RemoveGroup(i) => if conn.stage.RemovingGroup? { RemoveGroupKeeps(c, s, i); }
  }

  lemma NextKeeps(c: Config, s: State, e: Step)
    requires ValidConfig(c) && Inv(c, s)
    ensures Inv(c, Next(c, s, e))
  {
    hide Inv, RegisterStep, HandleStep, CloseStep;
    if e.Arrive? { ArriveKeeps(c, s, e.request); }
    else if e.SweepGroups? { SweepKeeps(c, s, e.stale); }
    else if e.Refuse? || e.AllocatePort? || e.RegisterName? || e.RollBack? || e.Lookup? { RegisterKeeps(c, s, e); }
    else if e.RecordTunnel? || e.CreateGroup? || e.RecordGroup? || e.StartClose? { HandleKeeps(c, s, e); }
    else { CloseKeeps(c, s, e); }
  }

  lemma {:induction false} LedgerRuns(c: Config, steps: seq<Step>)
    requires ValidConfig(c)
    ensures Inv(c, Run(c, steps))
  {
    hide Next;
    if steps != [] {
      LedgerRuns(c, steps[..|steps| - 1]);
      NextKeeps(c, Run(c, steps[..|steps| - 1]), steps[|steps| - 1]);
    }
  }

  // ---------------------------------------------------------------- theorems over every run

  /**
   * The ledger balances: the ports and names in use are exactly those some connection holds, no two
   * connections hold the same one, and every group belongs to the live connection with that ID.
   */
  lemma LedgerBalances(c: Config, steps: seq<Step>)
    requires ValidConfig(c)
    ensures var s := Run(c, steps);
      && (forall p :: p in s.used <==> exists i :: 0 <= i < |s.conns| && PortOf(s.conns[i]) == Some(p))
      && (forall n :: n in s.names <==> exists i :: 0 <= i < |s.conns| && NameOf(s.conns[i]) == Some(n))
      && (forall g :: g in s.groups ==> exists i :: 0 <= i < |s.conns| && GroupOf(s.conns[i]) == Some(g))
    ensures var s := Run(c, steps); forall i, j :: 0 <= i < j < |s.conns| ==>
      && (PortOf(s.conns[i]).Some? ==> PortOf(s.conns[i]) != PortOf(s.conns[j]))
      && (NameOf(s.conns[i]).Some? ==> NameOf(s.conns[i]) != NameOf(s.conns[j]))
      && (s.conns[i].tunnelID != "" ==> s.conns[i].tunnelID != s.conns[j].tunnelID)
  {
    LedgerRuns(c, steps);
    HoldersExist(c, Run(c, steps));
    HoldersDiffer(c, Run(c, steps));
  }

  lemma HoldersExist(c: Config, s: State)
    requires Inv(c, s)
    ensures forall p :: p in s.used <==> exists i :: 0 <= i < |s.conns| && PortOf(s.conns[i]) == Some(p)
    ensures forall n :: n in s.names <==> exists i :: 0 <= i < |s.conns| && NameOf(s.conns[i]) == Some(n)
    ensures forall g :: g in s.groups ==> exists i :: 0 <= i < |s.conns| && GroupOf(s.conns[i]) == Some(g)
  {
    hide PortOf, NameOf, GroupOf, ConnsOk;
    forall p ensures p in s.used <==> exists i :: 0 <= i < |s.conns| && PortOf(s.conns[i]) == Some(p) {
      if p in s.used { assert Ports(s.conns)[s.used[p]] == Some(p); }
      forall i | 0 <= i < |s.conns| && PortOf(s.conns[i]) == Some(p) ensures p in s.used { assert Ports(s.conns)[i] == Some(p); }
    }
    forall n ensures n in s.names <==> exists i :: 0 <= i < |s.conns| && NameOf(s.conns[i]) == Some(n) {
      if n in s.names { assert Names(s.conns)[s.names[n]] == Some(n); }
      forall i | 0 <= i < |s.conns| && NameOf(s.conns[i]) == Some(n) ensures n in s.names { assert Names(s.conns)[i] == Some(n); }
    }
    forall g | g in s.groups ensures exists i :: 0 <= i < |s.conns| && GroupOf(s.conns[i]) == Some(g) {
      assert Groups(s.conns)[s.groups[g]] == Some(g);
    }
  }

  lemma HoldersDiffer(c: Config, s: State)
    requires Inv(c, s)
    ensures forall i, j :: 0 <= i < j < |s.conns| ==>
      && (PortOf(s.conns[i]).Some? ==> PortOf(s.conns[i]) != PortOf(s.conns[j]))
      && (NameOf(s.conns[i]).Some? ==> NameOf(s.conns[i]) != NameOf(s.conns[j]))
      && (s.conns[i].tunnelID != "" ==> s.conns[i].tunnelID != s.conns[j].tunnelID)
  {
    hide PortOf, NameOf, GroupOf, ConnOk;
    forall i, j | 0 <= i < j < |s.conns|
      ensures PortOf(s.conns[i]).Some? ==> PortOf(s.conns[i]) != PortOf(s.conns[j])
      ensures NameOf(s.conns[i]).Some? ==> NameOf(s.conns[i]) != NameOf(s.conns[j]) {
      assert Ports(s.conns)[i] == PortOf(s.conns[i]) && Ports(s.conns)[j] == PortOf(s.conns[j]);
      assert Names(s.conns)[i] == NameOf(s.conns[i]) && Names(s.conns)[j] == NameOf(s.conns[j]);
    }
  }

  /**
   * Everything is returned exactly once: a connection gives its port and its name back at most once,
   * and once it is closed it has given back whatever it ever got and owns no group.
   */
  lemma ReturnedExactlyOnce(c: Config, steps: seq<Step>, i: nat)
    requires ValidConfig(c) && i < |Run(c, steps).conns|
    ensures var s := Run(c, steps); var conn := s.conns[i];
      && Count(s.log, PortReturned(i)) <= 1 && Count(s.log, NameReturned(i)) <= 1
      && (conn.stage.Closed? ==>
            && Count(s.log, PortReturned(i)) == (if conn.port > 0 then 1 else 0)
            && Count(s.log, NameReturned(i)) == (if conn.name != "" then 1 else 0)
            && forall g :: g in s.groups ==> g != conn.tunnelID)
  {
    hide Count, Run, Inv;
    LedgerRuns(c, steps);
    ReturnedOnce(c, Run(c, steps), i);
  }

  lemma ReturnedOnce(c: Config, s: State, i: nat)
    requires Inv(c, s) && i < |s.conns|
    ensures Count(s.log, PortReturned(i)) <= 1 && Count(s.log, NameReturned(i)) <= 1
    ensures s.conns[i].stage.Closed? ==>
      && Count(s.log, PortReturned(i)) == (if s.conns[i].port > 0 then 1 else 0)
      && Count(s.log, NameReturned(i)) == (if s.conns[i].name != "" then 1 else 0)
      && forall g :: g in s.groups ==> g != s.conns[i].tunnelID
  {
    hide Count, RecordOk, GrantOk;
    assert ConnOk(c, s.log, i, s.conns[i]);
    forall g | g in s.groups ensures s.conns[i].stage.Closed? ==> g != s.conns[i].tunnelID {
      var j := s.groups[g];
      assert Groups(s.conns)[j] == Some(g);
      assert ConnOk(c, s.log, j, s.conns[j]);
      GroupIsID(c, s.log, j, s.conns[j]);
    }
  }

  lemma GroupIsID(c: Config, log: seq<Event>, i: nat, conn: Conn)
    requires ConnOk(c, log, i, conn) && GroupOf(conn).Some?
    ensures GroupOf(conn).value == conn.tunnelID != "" && !conn.stage.Closed?
  {
  }

  /** With every connection closed, nothing is left reserved. */
  lemma NothingLeftBehind(c: Config, steps: seq<Step>)
    requires ValidConfig(c)
    requires forall i :: 0 <= i < |Run(c, steps).conns| ==> Run(c, steps).conns[i].stage.Closed?
    ensures var s := Run(c, steps); s.used == map[] && s.names == map[] && s.groups == map[]
  {
    LedgerBalances(c, steps);
    var s := Run(c, steps);
    assert forall i :: 0 <= i < |s.conns| ==> PortOf(s.conns[i]) == None && NameOf(s.conns[i]) == None && GroupOf(s.conns[i]) == None;
    assert forall p :: p !in s.used;
    assert forall n :: n !in s.names && n !in s.groups;
  }

  /** A registration that got its name always finds its tunnel: the "failed to get registered tunnel" exit is dead. */
  lemma TunnelAlwaysFound(c: Config, steps: seq<Step>, i: nat)
    requires ValidConfig(c) && i < |Run(c, steps).conns|
    ensures var s := Run(c, steps);
      && !s.conns[i].stage.Lost?
      && (s.conns[i].stage.Looking? ==> Next(c, s, Lookup(i)).conns[i].stage.Recording?)
  {
    LedgerRuns(c, steps);
    var s := Run(c, steps);
    assert ConnOk(c, s.log, i, s.conns[i]);
    if s.conns[i].stage.Looking? { LookupSucceeds(c, s, i); }
  }

  // ---------------------------------------------------------------- one connection from end to end

  /** What a request takes from the three maps when it is granted: its port if it is for TCP, its name, its group if it wants one. */
  ghost predicate Serves(s: State, t: State, request: Request, port: nat, name: string, id: string) {
    && t.used == (if request.tcp then s.used[port := |s.conns|] else s.used)
    && t.names == s.names[name := |s.conns|]
    && t.groups == (if request.wantsGroup then s.groups[id := |s.conns|] else s.groups)
    && t.log == s.log && |t.conns| == |s.conns| + 1 && t.conns[..|s.conns|] == s.conns && t.conns[|s.conns|].stage.Serving?
    && t.conns[|s.conns|].record == Record(if request.tcp then port else 0, name, if request.wantsGroup then id else "")
  }

  /** Nothing is taken any more, and what was taken has been returned once. */
  ghost predicate LeavesNothing(s: State, t: State, returned: seq<Event>) {
    && t.used == s.used && t.names == s.names && t.groups == s.groups && t.log == s.log + returned
    && |t.conns| == |s.conns| + 1 && t.conns[..|s.conns|] == s.conns && t.conns[|s.conns|].stage.Closed?
  }

  /** The port can be had: it is in range, free, and the one the request asks for, if it asks for one. */
  ghost predicate FreePort(c: Config, s: State, request: Request, port: nat) {
    && 0 < c.minPort <= port <= c.maxPort && port !in s.used
    && (ParseTcpSubdomainPort(request.custom).Some? ==> ParseTcpSubdomainPort(request.custom).value == port)
  }

  /** The name can be had: it is valid, not reserved, free, and the one asked for or made from the port. */
  ghost predicate FreeName(s: State, request: Request, port: nat, name: string) {
    && ValidateSubdomain(name) && !IsReserved(name) && name !in s.names
    && (request.custom != "" ==> name == request.custom)
    && (request.custom == "" && request.tcp ==> name == TcpName(port))
  }

  /** A request for a free port and a free name is served, taking exactly these, whatever others hold. */
  lemma ServedWhenFree(c: Config, s: State, request: Request, port: nat, name: string, id: string) returns (t: State)
    requires (request.tcp ==> FreePort(c, s, request, port)) && FreeName(s, request, port, name)
    requires id != "" && forall j :: 0 <= j < |s.conns| ==> s.conns[j].tunnelID != id
    ensures var i := |s.conns|;
      var granted := Next(c, Next(c, Next(c, s, Arrive(request)), AllocatePort(i, Some(port))), RegisterName(i, Some(name)));
      t == Next(c, Next(c, Next(c, Next(c, granted, Lookup(i)), RecordTunnel(i)), CreateGroup(i, id)), RecordGroup(i))
    ensures Serves(s, t, request, port, name, id)
  {
    hide FreePort, FreeName, TcpName, Next;
    var i := |s.conns|;
    var s1 := GrantedWhenFree(c, s, request, port, name);
    var s2 := RecordedWhenFound(c, s1, i);
    t := GroupedWhenWanted(c, s2, i, id);
  }

  lemma RecordedWhenFound(c: Config, s: State, i: nat) returns (t: State)
    requires i < |s.conns| && s.conns[i].stage.Looking? && s.conns[i].name in s.names
    ensures t == Next(c, Next(c, s, Lookup(i)), RecordTunnel(i))
    ensures t == s.(conns := s.conns[i := s.conns[i].(stage := Grouping, record := Record(s.conns[i].port, s.conns[i].name, ""))])
  {
    var s1 := Next(c, s, Lookup(i));
    assert s1 == SetConn(s, i, s.conns[i].(stage := Recording));
    t := Next(c, s1, RecordTunnel(i));
  }

  lemma GroupedWhenWanted(c: Config, s: State, i: nat, id: string) returns (t: State)
    requires i < |s.conns| && s.conns[i].stage.Grouping? && s.conns[i].record.tunnelID == ""
    requires id != "" && forall j :: 0 <= j < |s.conns| ==> s.conns[j].tunnelID != id
    ensures t == Next(c, Next(c, s, CreateGroup(i, id)), RecordGroup(i))
    ensures t.used == s.used && t.names == s.names && t.log == s.log
    ensures t.groups == if s.conns[i].request.wantsGroup then s.groups[id := i] else s.groups
    ensures |t.conns| == |s.conns| && t.conns[..i] == s.conns[..i] && t.conns[i].stage.Serving?
    ensures t.conns[i].record == s.conns[i].record.(tunnelID := if s.conns[i].request.wantsGroup then id else "")
  {
    var s1 := Next(c, s, CreateGroup(i, id));
    if !s.conns[i].request.wantsGroup {
      assert s1 == SetConn(s, i, s.conns[i].(stage := Serving));
    } else {
      assert s1 == SetConn(s, i, s.conns[i].(stage := RecordingGroup, tunnelID := id)).(groups := s.groups[id := i]);
    }
    t := Next(c, s1, RecordGroup(i));
  }

  lemma GrantedWhenFree(c: Config, s: State, request: Request, port: nat, name: string) returns (t: State)
    requires (request.tcp ==> FreePort(c, s, request, port)) && FreeName(s, request, port, name)
    ensures var i := |s.conns|;
      && t == Next(c, Next(c, Next(c, s, Arrive(request)), AllocatePort(i, Some(port))), RegisterName(i, Some(name)))
      && t.used == (if request.tcp then s.used[port := i] else s.used)
      && t.names == s.names[name := i] && t.groups == s.groups && t.log == s.log
      && |t.conns| == i + 1 && t.conns[..i] == s.conns
      && t.conns[i].(request := request) == Conn(request, Looking, if request.tcp then port else 0, name, "", NOTHING)
      && t.conns[i].request.wantsGroup == request.wantsGroup
  {
    hide ParseTcpSubdomainPort, TcpName, ValidateSubdomain, IsReserved;
    var i := |s.conns|;
    var s1 := Next(c, Next(c, s, Arrive(request)), AllocatePort(i, Some(port)));
    assert s1.conns[i].stage.Naming? && s1.conns[i].port == (if request.tcp then port else 0);
    t := Next(c, s1, RegisterName(i, Some(name)));
  }

  /** `ConnectionLifecycleManager.Close`, undisturbed. */
  function Closing(c: Config, t: State, i: nat): State {
    Next(c, Next(c, Next(c, t, ReleasePort(i)), Unregister(i)), RemoveGroup(i))
  }

  lemma PortEffect(c: Config, t: State, i: nat)
    requires i < |t.conns| && t.conns[i].stage.ReleasingPort?
    ensures var u, port := Next(c, t, ReleasePort(i)), t.conns[i].record.port;
      && u == t.(used := if port > 0 then t.used - {port} else t.used, log := t.log + (if port > 0 then [PortReturned(i)] else []),
                 conns := t.conns[i := t.conns[i].(stage := Unregistering)])
  {
    assert t.log + [] == t.log;
  }

  lemma NameEffect(c: Config, t: State, i: nat)
    requires i < |t.conns| && t.conns[i].stage.Unregistering?
    ensures var u, name := Next(c, t, Unregister(i)), t.conns[i].record.subdomain;
      && u == t.(names := if name != "" then t.names - {name} else t.names, log := t.log + (if name != "" then [NameReturned(i)] else []),
                 conns := t.conns[i := t.conns[i].(stage := RemovingGroup)])
  {
    assert t.log + [] == t.log;
  }

  lemma GroupEffect(c: Config, t: State, i: nat)
    requires i < |t.conns| && t.conns[i].stage.RemovingGroup? && (t.conns[i].record.tunnelID != "" ==> t.conns[i].record.subdomain != "")
    ensures var u, id := Next(c, t, RemoveGroup(i)), t.conns[i].record.tunnelID;
      && u == t.(groups := if id != "" then t.groups - {id} else t.groups, conns := t.conns[i := t.conns[i].(stage := Closed)])
  {
  }

  /** It takes out what the record says, and nothing else. */
  lemma ClosingReturnsRecorded(c: Config, t: State, i: nat)
    requires i < |t.conns| && t.conns[i].stage.ReleasingPort? && (t.conns[i].record.tunnelID != "" ==> t.conns[i].record.subdomain != "")
    ensures var u, record := Closing(c, t, i), t.conns[i].record;
      && u.used == (if record.port > 0 then t.used - {record.port} else t.used)
      && u.names == (if record.subdomain != "" then t.names - {record.subdomain} else t.names)
      && u.groups == (if record.tunnelID != "" then t.groups - {record.tunnelID} else t.groups)
      && u.log == t.log + (if record.port > 0 then [PortReturned(i)] else []) + (if record.subdomain != "" then [NameReturned(i)] else [])
      && u.conns == t.conns[i := t.conns[i].(stage := Closed)]
  {
    hide Next;
    PortEffect(c, t, i);
    var t1 := Next(c, t, ReleasePort(i));
    NameEffect(c, t1, i);
    GroupEffect(c, Next(c, t1, Unregister(i)), i);
  }

  /** And when that connection closes, all of it is free again; its group may have been swept before. */
  lemma FreedWhenClosed(c: Config, s: State, t: State, request: Request, port: nat, name: string, id: string)
    requires Serves(s, t, request, port, name, id) && id != "" && name != "" && id !in s.groups && name !in s.names
    requires request.tcp ==> 0 < port && port !in s.used
    ensures var i := |s.conns|; var returned := if request.tcp then [PortReturned(i), NameReturned(i)] else [NameReturned(i)];
      && LeavesNothing(s, Closing(c, Next(c, t, StartClose(i)), i), returned)
      && Next(c, t, SweepGroups({id})).groups == s.groups
      && LeavesNothing(s, Closing(c, Next(c, Next(c, t, SweepGroups({id})), StartClose(i)), i), returned)
  {
    hide Closing, LeavesNothing;
    var i := |s.conns|;
    assert t.groups - {id} == s.groups && s.groups - {id} == s.groups;
    assert t.conns[..i] == s.conns;
    FreedFrom(c, s, Next(c, t, StartClose(i)), request, port, name, id);
    FreedFrom(c, s, Next(c, Next(c, t, SweepGroups({id})), StartClose(i)), request, port, name, id);
  }

  lemma FreedFrom(c: Config, s: State, t: State, request: Request, port: nat, name: string, id: string)
    requires |t.conns| == |s.conns| + 1 && t.conns[..|s.conns|] == s.conns && t.conns[|s.conns|].stage.ReleasingPort?
    requires t.conns[|s.conns|].record == Record(if request.tcp then port else 0, name, if request.wantsGroup then id else "")
    requires name != "" && name !in s.names && (request.tcp ==> 0 < port && port !in s.used)
    requires t.used == if request.tcp then s.used[port := |s.conns|] else s.used
    requires t.names == s.names[name := |s.conns|] && t.log == s.log
    requires t.groups - {id} == s.groups && (t.groups == s.groups || (request.wantsGroup && id != ""))
    ensures var i := |s.conns|;
      LeavesNothing(s, Closing(c, t, i), if request.tcp then [PortReturned(i), NameReturned(i)] else [NameReturned(i)])
  {
    hide Closing;
    ClosingReturnsRecorded(c, t, |s.conns|);
    assert request.tcp ==> t.used - {port} == s.used;
    assert t.names - {name} == s.names;
  }

  /** A registration that fails, at the checks, at the port or at the name, gives the port back and leaves nothing. */
  lemma RefusedLeavesNothing(c: Config, s: State, request: Request, port: nat)
    requires request.tcp ==> FreePort(c, s, request, port)
    ensures var i := |s.conns|; var asking := Next(c, s, Arrive(request)); var withPort := Next(c, asking, AllocatePort(i, Some(port)));
      && (request.tcp ==> withPort.used == s.used[port := i])
      && LeavesNothing(s, Closing(c, Next(c, asking, Refuse(i)), i), [])
      && (request.tcp ==> LeavesNothing(s, Closing(c, Next(c, asking, AllocatePort(i, None)), i), []))
      && LeavesNothing(s, Closing(c, Next(c, Next(c, withPort, RegisterName(i, None)), RollBack(i)), i), if request.tcp then [PortReturned(i)] else [])
  {
    hide Closing, FreePort, LeavesNothing;
    var i := |s.conns|;
    var asking := Next(c, s, Arrive(request));
    assert asking.conns[..i] == s.conns;
    assert s.log + [] == s.log;
    NothingToClose(c, s, Next(c, asking, Refuse(i)), []);
    if request.tcp { NothingToClose(c, s, Next(c, asking, AllocatePort(i, None)), []); }
    RolledBack(c, s, request, port);
    var withPort := Next(c, asking, AllocatePort(i, Some(port)));
    NothingToClose(c, s, Next(c, Next(c, withPort, RegisterName(i, None)), RollBack(i)), if request.tcp then [PortReturned(i)] else []);
  }

  lemma RolledBack(c: Config, s: State, request: Request, port: nat)
    requires request.tcp ==> FreePort(c, s, request, port)
    ensures var i := |s.conns|; var withPort := Next(c, Next(c, s, Arrive(request)), AllocatePort(i, Some(port)));
      var t := Next(c, Next(c, withPort, RegisterName(i, None)), RollBack(i));
      && (request.tcp ==> withPort.used == s.used[port := i])
      && t.used == s.used && t.names == s.names && t.groups == s.groups && |t.conns| == i + 1 && t.conns[..i] == s.conns
      && t.conns[i].stage.ReleasingPort? && t.conns[i].record == NOTHING
      && t.log == s.log + if request.tcp then [PortReturned(i)] else []
  {
    hide ParseTcpSubdomainPort, TcpName;
    var i := |s.conns|;
    var withPort := Next(c, Next(c, s, Arrive(request)), AllocatePort(i, Some(port)));
    assert withPort.conns[i].stage.Naming? && withPort.conns[i].port == if request.tcp then port else 0;
    var refused := Next(c, withPort, RegisterName(i, None));
    assert refused == SetConn(withPort, i, withPort.conns[i].(stage := if request.tcp then RollingBack else ReleasingPort));
    assert request.tcp ==> refused.used - {port} == s.used;
  }

  lemma NothingToClose(c: Config, s: State, t: State, returned: seq<Event>)
    requires t.used == s.used && t.names == s.names && t.groups == s.groups && |t.conns| == |s.conns| + 1 && t.conns[..|s.conns|] == s.conns
    requires t.conns[|s.conns|].stage.ReleasingPort? && t.conns[|s.conns|].record == NOTHING && t.log == s.log + returned
    ensures LeavesNothing(s, Closing(c, t, |s.conns|), returned)
  {
    hide Closing;
    ClosingReturnsRecorded(c, t, |s.conns|);
  }

  /** A registered TCP tunnel whose name claims a port has exactly that port. */
  lemma NameTellsPort(c: Config, steps: seq<Step>, i: nat)
    requires ValidConfig(c) && i < |Run(c, steps).conns|
    requires Run(c, steps).conns[i].request.tcp && Run(c, steps).conns[i].name != ""
    ensures var conn := Run(c, steps).conns[i];
      && c.minPort <= conn.port <= c.maxPort
      && (ParseTcpSubdomainPort(conn.name).Some? ==> ParseTcpSubdomainPort(conn.name) == Some(conn.port))
  {
    hide ParseTcpSubdomainPort, Count;
    LedgerRuns(c, steps);
    var s := Run(c, steps);
    assert ConnOk(c, s.log, i, s.conns[i]);
  }
}
