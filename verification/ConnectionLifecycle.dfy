/**
 * The objects behind the resource ledger: the group manager, the registration handler with its
 * rollback, the lifecycle manager that returns what was recorded, and a connection that runs them
 * one after the other.
 */
module ConnectionLifecycle {
  import opened Collections
  import opened Subdomains
  import Groups = ConnectionGroup
  import Ports = PortAllocator
  import Tunnels = ShardedMap
  import TunnelManager
  import opened ManagerObject
  import Limiter = RateLimiter

  // ---------------------------------------------------------------- groups

  /** The stale groups among those with these IDs. */
  ghost function StaleIn(groups: map<string, Groups.Group>, stale: string -> bool, ids: set<string>): set<Groups.Group> {
    set id | id in ids && id in groups && stale(id) :: groups[id]
  }

  /** The groups left once the stale ones with these IDs are taken out. */
  ghost function GroupsWithout(groups: map<string, Groups.Group>, stale: string -> bool, ids: set<string>): map<string, Groups.Group> {
    map id | id in groups && !(id in ids && stale(id)) :: groups[id]
  }

  lemma StaleNext(groups: map<string, Groups.Group>, stale: string -> bool, ids: set<string>, id: string)
    requires id in groups && id !in ids
    ensures !stale(id) ==> StaleIn(groups, stale, ids + {id}) == StaleIn(groups, stale, ids)
    ensures !stale(id) ==> GroupsWithout(groups, stale, ids + {id}) == GroupsWithout(groups, stale, ids)
    ensures stale(id) ==> StaleIn(groups, stale, ids + {id}) == StaleIn(groups, stale, ids) + {groups[id]}
    ensures stale(id) ==> GroupsWithout(groups, stale, ids + {id}) == GroupsWithout(groups, stale, ids) - {id}
    ensures id in GroupsWithout(groups, stale, ids) && GroupsWithout(groups, stale, ids)[id] == groups[id]
  {
  }

  lemma NothingTaken(groups: map<string, Groups.Group>, stale: string -> bool)
    ensures GroupsWithout(groups, stale, {}) == groups && StaleIn(groups, stale, {}) == {}
  {
  }

  ghost predicate NoneTwice(groups: map<string, Groups.Group>) {
    forall a, b :: a in groups && b in groups && a != b ==> groups[a] != groups[b]
  }

  lemma StaleApart(groups: map<string, Groups.Group>, stale: string -> bool)
    requires NoneTwice(groups)
    ensures GroupsWithout(groups, stale, groups.Keys) == map id | id in groups && !stale(id) :: groups[id]
    ensures NoneTwice(GroupsWithout(groups, stale, groups.Keys))
    ensures GroupsWithout(groups, stale, groups.Keys).Values !! StaleIn(groups, stale, groups.Keys)
  {
  }

  class GroupManager {
    var groups: map<string, Groups.Group>

    /** No group is kept under two IDs. */
    ghost predicate Valid()
      reads this
    {
      NoneTwice(groups)
    }

    constructor ()
      ensures Valid() && groups == map[]
    {
      groups := map[];
    }

    /** `CreateGroup` with the generated ID as a parameter. */
    method CreateGroup(tunnelID: string) returns (group: Groups.Group)
      requires Valid()
      modifies this`groups
      ensures Valid() && fresh(group) && groups == old(groups)[tunnelID := group] && !group.stopped && group.sessions == map[]
    {
      group := new Groups.Group();
      groups := groups[tunnelID := group];
    }

    /** `RemoveGroup`: takes the group out and closes it. */
    method RemoveGroup(tunnelID: string)
      requires Valid()
      modifies this`groups, if tunnelID in groups then {groups[tunnelID]} else {}
      ensures Valid() && groups == old(groups) - {tunnelID}
      ensures tunnelID in old(groups) ==> old(groups)[tunnelID].stopped
    {
      if tunnelID in groups {
        var group := groups[tunnelID];
        groups := groups - {tunnelID};
        group.Close();
      }
    }

    /** `cleanupStaleGroups`: takes out the stale groups first, then closes them. */
    method CleanupStaleGroups(stale: string -> bool)
      requires Valid()
      modifies this`groups, groups.Values
      ensures Valid() && groups == map id | id in old(groups) && !stale(id) :: old(groups)[id]
      ensures forall id :: id in old(groups) && stale(id) ==> old(groups)[id].stopped
      ensures forall id :: id in groups ==> groups[id].stopped == old(groups[id].stopped) && groups[id].sessions == old(groups[id].sessions)
    {
      StaleApart(groups, stale);
      var staleGroups := TakeStale(stale);
      CloseAll(staleGroups);
    }

    /** The part under the lock: the stale groups leave the map. */
    method TakeStale(stale: string -> bool) returns (staleGroups: set<Groups.Group>)
      modifies this`groups
      ensures groups == GroupsWithout(old(groups), stale, old(groups).Keys)
      ensures staleGroups == StaleIn(old(groups), stale, old(groups).Keys)
    {
      hide StaleIn, GroupsWithout;
      ghost var before := groups;
      var todo := groups.Keys;
      ghost var done := {};
      NothingTaken(groups, stale);
      staleGroups := {};
      while todo != {}
        invariant forall id :: id in before <==> id in done || id in todo
        invariant done !! todo
        invariant groups == GroupsWithout(before, stale, done)
        invariant staleGroups == StaleIn(before, stale, done)
        decreases |todo|
      {
        var id :| id in todo;
        StaleNext(before, stale, done, id);
        todo := todo - {id};
        done := done + {id};
        if stale(id) {
          staleGroups := staleGroups + {groups[id]};
          groups := groups - {id};
        }
      }
      assert done == before.Keys;
    }

    method CloseAll(closing: set<Groups.Group>)
      modifies closing
      ensures forall g :: g in closing ==> g.stopped
    {
      var todo := closing;
      while todo != {}
        invariant todo <= closing && forall g :: g in closing && g !in todo ==> g.stopped
        decreases |todo|
      {
        var g :| g in todo;
        todo := todo - {g};
        g.Close();
      }
    }

    /** `Close`: every group is closed and forgotten. */
    method Close()
      modifies this`groups, groups.Values
      ensures groups == map[] && forall id :: id in old(groups) ==> old(groups)[id].stopped
    {
      var closing := groups.Values;
      groups := map[];
      CloseAll(closing);
    }
  }

  // ---------------------------------------------------------------- registration

  datatype Request = Request(tcp: bool, custom: string, wantsGroup: bool)

  datatype Registration = Registration(subdomain: string, port: int, supportsDataConn: bool)

  datatype RegistrationError = NoAllocator | PortFailed(portError: Ports.Error) | NameFailed(nameError: TunnelManager.Error) | TunnelMissing

  /** The environment of one registration: random ports and names, and which ports can be bound. */
  datatype World = World(ports: nat -> Option<nat>, binds: (nat, int) -> bool, names: seq<string>, id: nat, now: int)

  /** The port a TCP request is given: the one its name asks for, or that of the first attempt that finds one. */
  ghost predicate Grants(min: int, max: int, used: set<int>, custom: string, world: World, port: int)
    requires Ports.ValidRange(min, max) && Ports.DrawsFit(min, max, world.ports)
  {
    match ParseTcpSubdomainPort(custom)
    case Some(asked) => port == asked && min <= port <= max && port !in used && world.binds(0, port)
    case None =>
      exists a: nat :: Ports.FoundFirst(min, max, used, world.ports, world.binds, a) && port == Ports.RandomPort(min, max, world.ports(a))
  }

  /** Two attempts cannot both be the first. */
  lemma OneFirst(min: int, max: int, used: set<int>, world: World)
    requires Ports.ValidRange(min, max) && Ports.DrawsFit(min, max, world.ports)
    ensures forall a: nat, b: nat | Ports.FoundFirst(min, max, used, world.ports, world.binds, a)
                                    && Ports.FoundFirst(min, max, used, world.ports, world.binds, b) :: a == b
  {
  }

  lemma TcpNameIsNamed(port: nat)
    ensures TcpName(port) != ""
  {
  }

  lemma ParsedPortInRange(custom: string)
    ensures match ParseTcpSubdomainPort(custom) case Some(port) => 1 <= port <= 65535 case None => true
  {
  }

  class RegistrationHandler {
    const manager: Manager
    const portAlloc: Ports.Allocator?

    ghost predicate Valid()
      reads this, manager, manager.shards, portAlloc
    {
      manager.Valid() && (portAlloc != null ==> portAlloc.Valid())
    }

    constructor (manager: Manager, portAlloc: Ports.Allocator?)
      ensures this.manager == manager && this.portAlloc == portAlloc
    {
      this.manager, this.portAlloc := manager, portAlloc;
    }

    ghost function Used(): set<int>
      reads this, portAlloc
    {
      if portAlloc == null then {} else portAlloc.used
    }

    ghost predicate Fits(world: World)
      reads this, portAlloc
    {
      Draws(world.names) && (portAlloc != null ==> Ports.DrawsFit(portAlloc.min, portAlloc.max, world.ports))
    }

    /** The port part of `Register`. */
    method AllocatePort(custom: string, world: World) returns (r: Result<int, RegistrationError>)
      requires Valid() && Fits(world)
      modifies if portAlloc == null then {} else {portAlloc}`used
      ensures Valid()
      ensures r == Err(NoAllocator) <==> portAlloc == null
      ensures portAlloc != null ==> forall port :: r == Ok(port) <==> Grants(portAlloc.min, portAlloc.max, old(portAlloc.used), custom, world, port)
      ensures r.Err? ==> Used() == old(Used()) && (r.error == NoAllocator || r.error.PortFailed?)
      ensures portAlloc != null && r.Err? ==>
                r == Err(PortFailed(match ParseTcpSubdomainPort(custom)
                                    case Some(asked) => if !(portAlloc.min <= asked <= portAlloc.max) then Ports.OutsideRange
                                                        else if asked in old(portAlloc.used) then Ports.InUse else Ports.Unavailable
                                    case None => Ports.Exhausted))
      ensures r.Ok? ==> 1 <= r.value <= 65535 && r.value !in old(Used()) && Used() == old(Used()) + {r.value}
    {
      hide ParseTcpSubdomainPort, Manager.Valid, Ports.FoundFirst;
      if portAlloc == null {
        return Err(NoAllocator);
      }
      ghost var used := portAlloc.used;
      ParsedPortInRange(custom);
      var requested := ParseTcpSubdomainPort(custom);
      var granted;
      if requested.Some? {
        granted := portAlloc.AllocateSpecific(requested.value, world.binds(0, requested.value));
      } else {
        granted := portAlloc.Allocate(world.ports, world.binds);
        OneFirst(portAlloc.min, portAlloc.max, used, world);
      }
      r := if granted.Err? then Err(PortFailed(granted.error)) else Ok(granted.value);
    }

    /** A port, where one is needed, is to be had. */
    ghost predicate PortToBeHad(req: Request, world: World)
      reads this, portAlloc
      requires Fits(world) && (portAlloc != null ==> portAlloc.Valid())
    {
      req.tcp ==> portAlloc != null && exists port :: Grants(portAlloc.min, portAlloc.max, portAlloc.used, req.custom, world, port)
    }

    /** The name it comes to, asked for or made of the port, is valid, unreserved and free; with none, one is generated. */
    ghost predicate NameToBeHad(req: Request, world: World)
      reads this, manager, manager.shards, portAlloc
      requires Fits(world) && (portAlloc != null ==> portAlloc.Valid())
    {
      && (req.custom != "" ==> ValidateSubdomain(req.custom) && !IsReserved(req.custom) && req.custom !in manager.Tunnels())
      && (req.custom == "" && req.tcp && portAlloc != null ==>
            forall port :: Grants(portAlloc.min, portAlloc.max, portAlloc.used, "", world, port) ==> TcpName(port) !in manager.Tunnels())
    }

    ghost predicate HasRoom()
      reads this, manager
    {
      manager.tunnelCount < manager.config.maxTunnels
    }

    /**
     * `Register`: a port first, then the name.  It succeeds exactly if there is a port, room and the name; a
     * failure leaves the ports and the tunnels as they were; the tunnel just registered is always found.
     */
    method Register(req: Request, world: World) returns (r: Result<Registration, RegistrationError>, ghost tunnel: Tunnels.Tunnel)
      requires Valid() && Fits(world)
      modifies manager`tunnelCount, manager`tunnelsByIP, manager`displaced, manager.shards, manager.rateLimiter
      modifies if portAlloc == null then {} else {portAlloc}`used
      ensures Valid()
      ensures r.Ok? <==> old(PortToBeHad(req, world) && HasRoom() && NameToBeHad(req, world))
      ensures r == Err(NoAllocator) <==> req.tcp && portAlloc == null
      ensures r.Err? && r.error.PortFailed? <==> portAlloc != null && !old(PortToBeHad(req, world))
      ensures r == Err(NameFailed(TunnelManager.TooManyTunnels)) <==> old(PortToBeHad(req, world) && !HasRoom())
      ensures r == Err(NameFailed(TunnelManager.InvalidSubdomain)) <==>
              old(PortToBeHad(req, world) && HasRoom()) && req.custom != "" && !ValidateSubdomain(req.custom)
      ensures r == Err(NameFailed(TunnelManager.ReservedSubdomain)) <==>
              old(PortToBeHad(req, world) && HasRoom()) && req.custom != "" && ValidateSubdomain(req.custom) && IsReserved(req.custom)
      ensures r == Err(NameFailed(TunnelManager.SubdomainTaken)) <==>
              old(PortToBeHad(req, world) && HasRoom() && !NameToBeHad(req, world))
              && (req.custom != "" ==> ValidateSubdomain(req.custom) && !IsReserved(req.custom))
      ensures r.Err? ==> Used() == old(Used()) && manager.Tunnels() == old(manager.Tunnels()) && r.error != TunnelMissing
      ensures r.Ok? ==>
        && Used() == (if req.tcp then old(Used()) + {r.value.port} else old(Used()))
        && (req.tcp ==> portAlloc != null && Grants(portAlloc.min, portAlloc.max, old(portAlloc.used), req.custom, world, r.value.port)
                        && 1 <= r.value.port <= 65535 && r.value.port !in old(Used()))
        && (!req.tcp ==> r.value.port == 0)
        && manager.Tunnels() == old(manager.Tunnels())[r.value.subdomain := tunnel] && tunnel == Tunnels.Tunnel(world.id, r.value.subdomain, "")
        && ValidateSubdomain(r.value.subdomain) && !IsReserved(r.value.subdomain) && r.value.supportsDataConn == req.wantsGroup
        && (req.custom != "" ==> r.value.subdomain == req.custom && req.custom !in old(manager.Tunnels()))
        && (req.custom == "" && req.tcp ==> r.value.subdomain == TcpName(r.value.port) && r.value.subdomain !in old(manager.Tunnels()))
        && (req.custom == "" && !req.tcp ==> FirstFree(world.names, old(manager.Tunnels()).Keys, r.value.subdomain))
        && (r.value.subdomain !in old(manager.Tunnels()) || r.value.subdomain in world.names)
    {
      hide ParseTcpSubdomainPort, TcpName, Tunnels.Flat, ValidateSubdomain, IsReserved, Manager.Valid, Manager.Tunnels, Grants, FirstFree, Limiter.Decide;
      tunnel := Tunnels.Tunnel(world.id, "", "");
      var port := 0;
      var custom := req.custom;
      if req.tcp {
        var granted := AllocatePort(custom, world);
        if granted.Err? {
          r := Err(granted.error);
          return;
        }
        port := granted.value;
        if custom == "" {
          custom := TcpName(port);
          TcpNameRoundTrip(port);
          TcpNameIsNamed(port);
        }
      }
      var registered := manager.RegisterWithIP(world.id, custom, "", world.now, world.names);
      if registered.Err? {
        if port > 0 && portAlloc != null {
          portAlloc.Release(port);
        }
        r := Err(NameFailed(registered.error));
        return;
      }
      if custom == "" {
        FirstFreeIsDrawn(world.names, old(manager.Tunnels()).Keys, registered.value);
      }
      tunnel := Tunnels.Tunnel(world.id, registered.value, "");
      var found := manager.Get(registered.value);
      if found.None? {
        r := Err(TunnelMissing);
        return;
      }
      r := Ok(Registration(registered.value, port, req.wantsGroup));
    }
  }

  // ---------------------------------------------------------------- the lifecycle of one connection

  class LifecycleManager {
    var closed: bool
    var portAlloc: Ports.Allocator?
    var port: int
    var manager: Manager?
    var subdomain: string
    var tunnelID: string
    var groupManager: GroupManager?

    constructor ()
      ensures !closed && portAlloc == null && port == 0 && manager == null && subdomain == "" && tunnelID == "" && groupManager == null
    {
      closed, portAlloc, port, manager, subdomain, tunnelID, groupManager := false, null, 0, null, "", "", null;
    }

    method SetPortAllocation(portAlloc: Ports.Allocator?, port: int)
      modifies this`portAlloc, this`port
      ensures this.portAlloc == portAlloc && this.port == port
    {
      this.portAlloc, this.port := portAlloc, port;
    }

    method SetTunnelRegistration(manager: Manager?, subdomain: string, tunnelID: string, groupManager: GroupManager?)
      modifies this`manager, this`subdomain, this`tunnelID, this`groupManager
      ensures this.manager == manager && this.subdomain == subdomain && this.tunnelID == tunnelID && this.groupManager == groupManager
    {
      this.manager, this.subdomain, this.tunnelID, this.groupManager := manager, subdomain, tunnelID, groupManager;
    }

    ghost predicate Releasable()
      reads this, portAlloc, manager, if manager == null then {} else {manager.shards}, groupManager
    {
      && (portAlloc != null ==> portAlloc.Valid())
      && (manager != null ==> manager.Valid())
      && (groupManager != null ==> groupManager.Valid())
    }

    /** The groups the close may touch. */
    ghost function Closing(): set<object>
      reads this, groupManager
    {
      if groupManager != null && tunnelID != "" && tunnelID in groupManager.groups then {groupManager.groups[tunnelID]} else {}
    }

    ghost function Shards(): set<object>
      reads this
    {
      if manager == null then {} else {manager.shards}
    }

    /** `Close`: the first call returns what is on record, any other does nothing. */
    method Close()
      requires Releasable()
      modifies this`closed, portAlloc, manager, Shards(), groupManager, Closing()
      ensures closed && Releasable()
      ensures old(portAlloc) == portAlloc && old(manager) == manager && old(groupManager) == groupManager
      ensures portAlloc != null ==> portAlloc.used == if !old(closed) && port > 0 then old(portAlloc.used) - {port} else old(portAlloc.used)
      ensures manager != null ==>
        manager.Tunnels() == if !old(closed) && subdomain != "" then old(manager.Tunnels()) - {subdomain} else old(manager.Tunnels())
      ensures groupManager != null ==>
        groupManager.groups == if !old(closed) && subdomain != "" && manager != null && tunnelID != "" then old(groupManager.groups) - {tunnelID}
                               else old(groupManager.groups)
    {
      hide Manager.Valid, Manager.Tunnels;
      if closed {
        return;
      }
      closed := true;
      if port > 0 && portAlloc != null {
        portAlloc.Release(port);
      }
      if subdomain != "" && manager != null {
        manager.Unregister(subdomain);
        if tunnelID != "" && groupManager != null {
          groupManager.RemoveGroup(tunnelID);
        }
      }
    }
  }

  /**
   * The registration part of `Connection.Handle` with its deferred `Close`: however far it gets, the
   * ports, the tunnels and the groups are afterwards what they were before.
   */
  method HandleConnection(handler: RegistrationHandler, groupManager: GroupManager?, req: Request, world: World, tunnelID: string, accepted: bool)
    returns (r: Result<Registration, RegistrationError>)
    requires handler.Valid() && handler.Fits(world) && (groupManager != null ==> groupManager.Valid())
    requires tunnelID != "" && (groupManager != null ==> tunnelID !in groupManager.groups)
    requires forall name :: name in world.names ==> name !in handler.manager.Tunnels()
    modifies handler.manager, handler.manager.shards, handler.manager.rateLimiter, handler.portAlloc, groupManager
    ensures handler.Valid() && handler.Used() == old(handler.Used())
    ensures handler.manager.Tunnels() == old(handler.manager.Tunnels())
    ensures groupManager != null ==> groupManager.groups == old(groupManager.groups)
    ensures r.Ok? <==> accepted && old(handler.PortToBeHad(req, world) && handler.HasRoom() && handler.NameToBeHad(req, world))
  {
    hide Manager.Valid, Manager.Tunnels, ValidateSubdomain, ParseTcpSubdomainPort, TcpName, Grants;
    hide RegistrationHandler.PortToBeHad, RegistrationHandler.NameToBeHad, RegistrationHandler.HasRoom;
    var lifecycle := new LifecycleManager();
    r := Err(NoAllocator);
    if accepted {
      r := RegisterAndRecord(handler, groupManager, req, world, tunnelID, lifecycle);
    }
    lifecycle.Close();
  }

  /** A registration whose results go to the lifecycle manager, with a group if the client wants one. */
  method RegisterAndRecord(handler: RegistrationHandler, groupManager: GroupManager?, req: Request, world: World, tunnelID: string, lifecycle: LifecycleManager)
    returns (r: Result<Registration, RegistrationError>)
    requires handler.Valid() && handler.Fits(world) && (groupManager != null ==> groupManager.Valid())
    requires tunnelID != "" && (groupManager != null ==> tunnelID !in groupManager.groups)
    requires forall name :: name in world.names ==> name !in handler.manager.Tunnels()
    requires !lifecycle.closed && lifecycle.port == 0 && lifecycle.subdomain == "" && lifecycle.portAlloc == null && lifecycle.manager == null && lifecycle.groupManager == null
    modifies handler.manager, handler.manager.shards, handler.manager.rateLimiter, handler.portAlloc, groupManager, lifecycle
    ensures handler.Valid() && !lifecycle.closed
    ensures r.Ok? <==> old(handler.PortToBeHad(req, world) && handler.HasRoom() && handler.NameToBeHad(req, world))
    ensures r == Err(NoAllocator) <==> req.tcp && handler.portAlloc == null
    ensures r.Err? && r.error.PortFailed? <==> handler.portAlloc != null && !old(handler.PortToBeHad(req, world))
    ensures r.Ok? ==> (lifecycle.tunnelID == if req.wantsGroup && groupManager != null then tunnelID else "")
    ensures r.Err? ==> handler.Used() == old(handler.Used()) && handler.manager.Tunnels() == old(handler.manager.Tunnels())
                       && (groupManager != null ==> groupManager.Valid() && groupManager.groups == old(groupManager.groups))
                       && lifecycle.port == 0 && lifecycle.subdomain == "" && lifecycle.portAlloc == null && lifecycle.manager == null && lifecycle.groupManager == null
    ensures r.Ok? ==>
      && lifecycle.portAlloc == handler.portAlloc && lifecycle.manager == handler.manager && lifecycle.groupManager == groupManager
      && lifecycle.port == r.value.port && lifecycle.subdomain == r.value.subdomain != ""
      && handler.Used() - (if lifecycle.port > 0 then {lifecycle.port} else {}) == old(handler.Used())
      && handler.manager.Tunnels() - {lifecycle.subdomain} == old(handler.manager.Tunnels())
      && (groupManager != null ==>
            && groupManager.Valid()
            && groupManager.groups - (if lifecycle.tunnelID != "" then {lifecycle.tunnelID} else {}) == old(groupManager.groups)
            && (lifecycle.tunnelID != "" ==> lifecycle.tunnelID in groupManager.groups && fresh(groupManager.groups[lifecycle.tunnelID])))
  {
    hide Manager.Valid, Manager.Tunnels, ParseTcpSubdomainPort, TcpName, NoneTwice, Grants, FirstFree;
    hide RegistrationHandler.Fits, RegistrationHandler.PortToBeHad, RegistrationHandler.NameToBeHad, RegistrationHandler.HasRoom;
    ghost var tunnel;
    r, tunnel := handler.Register(req, world);
    if r.Ok? {
      Record(handler.manager, handler.portAlloc, groupManager, r.value, tunnelID, lifecycle);
    }
  }

  /** What a registration has taken goes on record, its group once there is one. */
  method Record(manager: Manager, portAlloc: Ports.Allocator?, groupManager: GroupManager?, registration: Registration, tunnelID: string, lifecycle: LifecycleManager)
    requires groupManager != null ==> groupManager.Valid() && tunnelID !in groupManager.groups
    modifies groupManager, lifecycle
    ensures lifecycle.closed == old(lifecycle.closed) && lifecycle.portAlloc == portAlloc && lifecycle.port == registration.port
    ensures lifecycle.manager == manager && lifecycle.subdomain == registration.subdomain && lifecycle.groupManager == groupManager
    ensures lifecycle.tunnelID == if registration.supportsDataConn && groupManager != null then tunnelID else ""
    ensures groupManager != null ==>
              && groupManager.Valid()
              && (if registration.supportsDataConn then
                    tunnelID in groupManager.groups && fresh(groupManager.groups[tunnelID]) && groupManager.groups - {tunnelID} == old(groupManager.groups)
                  else groupManager.groups == old(groupManager.groups))
  {
    hide NoneTwice;
    lifecycle.SetPortAllocation(portAlloc, registration.port);
    lifecycle.SetTunnelRegistration(manager, registration.subdomain, "", groupManager);
    if registration.supportsDataConn && groupManager != null {
      var group := groupManager.CreateGroup(tunnelID);
      lifecycle.SetTunnelRegistration(manager, registration.subdomain, tunnelID, groupManager);
    }
  }
}
