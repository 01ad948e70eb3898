/** The request handlers in front of the database: route policy, region choice, device
    ownership and the device endpoint scan. Each handler runs as one atomic step. */
module Handlers {
  import opened Options
  import opened Signature
  import opened PortPool
  import opened RouteRows
  import opened RouteEdit
  import opened Policy
  import opened Tables
  import opened Allocator
  import opened Lifecycle
  import opened ControlPlane

  datatype Ask = Ask(wanted: seq<Request>, names: Names, node: Option<NodeId>, device: Option<int>, createNew: bool)

  /** The caller as the handler reads it: its id, ban, tunnel cap, and the region it falls back to. */
  datatype Caller = Caller(id: int, banned: bool, maxTunnels: int, fallback: Option<NodeId>)

  datatype Rejection = Banned | NoRoutes | BadPolicy | NoRegion | NotYourDevice | EndpointInUse | NotYourTunnel | SameRegion

  datatype Answer = Replied(reply: Reply) | Edited | Failed(why: Denial) | Rejected(rejection: Rejection)

  predicate ActiveNode(db: Db, node: Option<NodeId>)
  {
    node.Some? && node.value in db.nodes && db.nodes[node.value].active
  }

  function ChosenNode(caller: Caller, ask: Ask): Option<NodeId>
  {
    if ask.node.Some? then ask.node else caller.fallback
  }

  predicate OwnsDevice(db: Db, user: int, device: int)
  {
    device in db.devices && db.devices[device] == user
  }

  /** The pairs of a device's services, leaving one tunnel out. */
  function TakenEndpoints(db: Db, device: int, except: Option<TunnelId>): set<Pair>
  {
    set t, i | t in db.tunnels && t in db.routes && db.tunnels[t].device == Some(device) && Some(t) != except
               && 0 <= i < |db.routes[t]| :: PairOf(db.routes[t][i])
  }

  lemma ScanDecides(db: Db, device: int, except: Option<TunnelId>, wanted: seq<Pair>)
    ensures EndpointsFree(db, device, except, wanted)
            <==> forall i :: 0 <= i < |wanted| ==> !ClashesAny(TakenEndpoints(db, device, except), wanted[i])
  {
    var taken := TakenEndpoints(db, device, except);
    if EndpointsFree(db, device, except, wanted) {
      forall i, p | 0 <= i < |wanted| && p in taken
        ensures !Clash(p, wanted[i])
      {
        var t, j :| t in db.tunnels && t in db.routes && db.tunnels[t].device == Some(device) && Some(t) != except
                    && 0 <= j < |db.routes[t]| && p == PairOf(db.routes[t][j]);
      }
    }
    if forall i :: 0 <= i < |wanted| ==> !ClashesAny(taken, wanted[i]) {
      forall u, i, j | u in db.tunnels && u in db.routes && db.tunnels[u].device == Some(device) && Some(u) != except
                       && 0 <= i < |wanted| && 0 <= j < |db.routes[u]|
        ensures !Clash(PairOf(db.routes[u][j]), wanted[i])
      {
        assert PairOf(db.routes[u][j]) in taken;
      }
    }
  }

  /** Why a request is turned away before it reaches the allocator. */
  ghost function Turned(db: Db, caller: Caller, ask: Ask): Option<Rejection>
  {
    if caller.banned then Some(Banned)
    else if ask.wanted == [] then Some(NoRoutes)
    else if !PolicyOk(Wanted(ask.wanted)) then Some(BadPolicy)
    else if !ActiveNode(db, ChosenNode(caller, ask)) then Some(NoRegion)
    else if ask.device == None then None
    else if !OwnsDevice(db, caller.id, ask.device.value) then Some(NotYourDevice)
    else if !EndpointsFree(db, ask.device.value, None, Wanted(ask.wanted)) then Some(EndpointInUse)
    else None
  }

  function ReservationFor(db: Db, caller: Caller, ask: Ask): Reservation
    requires ActiveNode(db, ChosenNode(caller, ask))
  {
    var node := ChosenNode(caller, ask).value;
    Reservation(caller.id, node, db.nodes[node].publicHost, ask.wanted, ask.names, caller.maxTunnels, !ask.createNew, ask.device)
  }

  /** `request_tunnel` */
  ghost function Requested(db: Db, caller: Caller, ask: Ask, now: int): (Db, Answer)
    requires db.routes.Keys == db.tunnels.Keys
  {
    var rejection := Turned(db, caller, ask);
    if rejection.Some? then (db, Rejected(rejection.value))
    else
      var (db', reply) := Reserve(db, ReservationFor(db, caller, ask), now);
      (db', Replied(reply))
  }

  method RequestTunnel(db: Database, caller: Caller, ask: Ask, now: int) returns (answer: Answer)
    requires db.Valid()
    modifies db
    ensures db.Valid()
    ensures (db.Contents(), answer) == Requested(old(db.Contents()), caller, ask, now)
  {
    if caller.banned {
      return Rejected(Banned);
    }
    if ask.wanted == [] {
      return Rejected(NoRoutes);
    }
    var pairs := CollectPairs(ask.wanted);
    var refusal := CheckRoutePolicy(pairs);
    if refusal.Some? {
      return Rejected(BadPolicy);
    }
    var chosen := if ask.node.Some? then ask.node else caller.fallback;
    if chosen == None || chosen.value !in db.nodes || !db.nodes[chosen.value].active {
      return Rejected(NoRegion);
    }
    if ask.device.Some? {
      var did := ask.device.value;
      if did !in db.devices || db.devices[did] != caller.id {
        return Rejected(NotYourDevice);
      }
      var conflict := FirstConflict(TakenEndpoints(db.Contents(), did, None), pairs);
      ScanDecides(db.Contents(), did, None, pairs);
      if conflict.Some? {
        return Rejected(EndpointInUse);
      }
    }
    var r := Reservation(caller.id, chosen.value, db.nodes[chosen.value].publicHost, ask.wanted, ask.names,
                         caller.maxTunnels, !ask.createNew, ask.device);
    var reply := db.ReserveTunnel(r, now);
    return Replied(reply);
  }

  /** Whether the caller may touch the tunnel. */
  predicate MayTouch(db: Db, user: int, admin: bool, t: TunnelId)
  {
    t in db.tunnels && (admin || db.tunnels[t].owner == user)
  }

  ghost function EditTurned(db: Db, user: int, admin: bool, t: TunnelId, qs: seq<Request>): Option<Rejection>
  {
    if !MayTouch(db, user, admin, t) then Some(NotYourTunnel)
    else if !PolicyOk(Wanted(qs)) then Some(BadPolicy)
    else if db.tunnels[t].device.Some? && !EndpointsFree(db, db.tunnels[t].device.value, Some(t), Wanted(qs))
    then Some(EndpointInUse)
    else None
  }

  /** `set_service_routes`, the handler */
  ghost function EditedRoutes(db: Db, user: int, admin: bool, t: TunnelId, qs: seq<Request>): (Db, Answer)
    requires db.routes.Keys == db.tunnels.Keys
  {
    var rejection := EditTurned(db, user, admin, t, qs);
    if rejection.Some? then (db, Rejected(rejection.value))
    else
      var (db', denial) := SetRoutes(db, t, db.tunnels[t].node, qs);
      (db', if denial.Some? then Failed(denial.value) else Edited)
  }

  method EditRoutes(db: Database, user: int, admin: bool, t: TunnelId, qs: seq<Request>) returns (answer: Answer)
    requires db.Valid()
    modifies db
    ensures db.Valid()
    ensures (db.Contents(), answer) == EditedRoutes(old(db.Contents()), user, admin, t, qs)
  {
    if t !in db.tunnels || !(admin || db.tunnels[t].owner == user) {
      return Rejected(NotYourTunnel);
    }
    var pairs := CollectPairs(qs);
    var refusal := CheckRoutePolicy(pairs);
    if refusal.Some? {
      return Rejected(BadPolicy);
    }
    if db.tunnels[t].device.Some? {
      var did := db.tunnels[t].device.value;
      var conflict := FirstConflict(TakenEndpoints(db.Contents(), did, Some(t)), pairs);
      ScanDecides(db.Contents(), did, Some(t), pairs);
      if conflict.Some? {
        return Rejected(EndpointInUse);
      }
    }
    var denial := db.SetServiceRoutes(t, db.tunnels[t].node, qs);
    return if denial.Some? then Failed(denial.value) else Edited;
  }

  /** `migrate_tunnel`, the handler */
  function MovedTunnel(db: Db, user: int, admin: bool, t: TunnelId, node: NodeId): (Db, Answer)
    requires db.routes.Keys == db.tunnels.Keys
  {
    if !MayTouch(db, user, admin, t) then (db, Rejected(NotYourTunnel))
    else if !ActiveNode(db, Some(node)) then (db, Rejected(NoRegion))
    else if db.tunnels[t].node == node then (db, Rejected(SameRegion))
    else
      var (db', denial) := Migrate(db, t, node, db.nodes[node].publicHost);
      (db', if denial.Some? then Failed(denial.value) else Edited)
  }

  method MoveTunnel(db: Database, user: int, admin: bool, t: TunnelId, node: NodeId) returns (answer: Answer)
    requires db.Valid()
    modifies db
    ensures db.Valid()
    ensures (db.Contents(), answer) == MovedTunnel(old(db.Contents()), user, admin, t, node)
  {
    if t !in db.tunnels || !(admin || db.tunnels[t].owner == user) {
      return Rejected(NotYourTunnel);
    }
    if node !in db.nodes || !db.nodes[node].active {
      return Rejected(NoRegion);
    }
    if db.tunnels[t].node == node {
      return Rejected(SameRegion);
    }
    var denial := db.MigrateTunnel(t, node, db.nodes[node].publicHost);
    return if denial.Some? then Failed(denial.value) else Edited;
  }

  // ------------------------------------------------------------------
  // Who gets which answer
  // ------------------------------------------------------------------

  /** The caller may neither see nor change the tunnel: there is none, or it is somebody else's. */
  predicate Stranger(db: Db, user: int, admin: bool, t: TunnelId)
  {
    t !in db.tunnels || (!admin && db.tunnels[t].owner != user)
  }

  /** The two want the same local socket: the same port over tcp, or over udp. */
  predicate SameSocket(r: Route, q: Request)
  {
    && r.localPort == q.localPort && !r.kind.IsHostRouted() && !q.mode.IsHostRouted()
    && (r.kind == q.mode || r.kind.Both? || q.mode.Both?)
  }

  lemma ClashMeans(r: Route, q: Request)
    ensures Clash(PairOf(r), (q.mode, q.localPort)) <==> SameSocket(r, q)
  {
    if SameSocket(r, q) {
      var slot := if r.kind.Udp? || q.mode.Udp? then UdpSlot else TcpSlot;
      assert slot in {TcpSlot, UdpSlot} && Takes(r.kind, slot) && Takes(q.mode, slot);
    }
  }

  /** Another service of the device, not counting `besides`, has a socket that the request wants. */
  ghost predicate SocketTaken(db: Db, device: int, besides: Option<TunnelId>, qs: seq<Request>)
  {
    exists u, i, j :: u in db.tunnels && u in db.routes && Some(u) != besides && db.tunnels[u].device == Some(device)
                      && 0 <= i < |qs| && 0 <= j < |db.routes[u]| && SameSocket(db.routes[u][j], qs[i])
  }

  lemma FreeUnlessTaken(db: Db, device: int, besides: Option<TunnelId>, qs: seq<Request>)
    ensures EndpointsFree(db, device, besides, Wanted(qs)) <==> !SocketTaken(db, device, besides, qs)
  {
    forall u, i, j | u in db.routes && 0 <= i < |qs| && 0 <= j < |db.routes[u]|
      ensures Clash(PairOf(db.routes[u][j]), Wanted(qs)[i]) <==> SameSocket(db.routes[u][j], qs[i])
    {
      ClashMeans(db.routes[u][j], qs[i]);
    }
  }

  /** An edit by a stranger is rejected as such and changes nothing. Anyone else is rejected exactly for
      a set against the policy, or for a socket that another service of the device has; otherwise the
      edit is made, or fails for the reasons of `Allocator.SetRoutesDenials`. */
  lemma EditAnswers(db: Db, user: int, admin: bool, t: TunnelId, qs: seq<Request>)
    requires Sound(db)
    ensures var (db', answer) := EditedRoutes(db, user, admin, t, qs);
      if Stranger(db, user, admin, t) then db' == db && answer == Rejected(NotYourTunnel)
      else if !PolicyOk(Wanted(qs)) then db' == db && answer == Rejected(BadPolicy)
      else if db.tunnels[t].device.Some? && SocketTaken(db, db.tunnels[t].device.value, Some(t), qs)
      then db' == db && answer == Rejected(EndpointInUse)
      else
        var (edited, denial) := SetRoutes(db, t, db.tunnels[t].node, qs);
        db' == edited && answer == if denial == None then Edited else Failed(denial.value)
  {
    if t in db.tunnels && db.tunnels[t].device.Some? {
      FreeUnlessTaken(db, db.tunnels[t].device.value, Some(t), qs);
    }
  }

  /** A move by a stranger is rejected as such and changes nothing. Anyone else is rejected exactly for
      a node that is unknown or inactive, or the one the tunnel is on; otherwise the tunnel moves to the
      node and its host if it fits, and the move fails for lack of ports if not. */
  lemma MoveAnswers(db: Db, user: int, admin: bool, t: TunnelId, node: NodeId)
    requires Sound(db)
    ensures var (db', answer) := MovedTunnel(db, user, admin, t, node);
      if Stranger(db, user, admin, t) then db' == db && answer == Rejected(NotYourTunnel)
      else if node !in db.nodes || !db.nodes[node].active then db' == db && answer == Rejected(NoRegion)
      else if db.tunnels[t].node == node then db' == db && answer == Rejected(SameRegion)
      else if !MigrationFits(db, t, node) then db' == db && answer == Failed(PortExhausted)
      else
        && answer == Edited && Relocated(db, db', t, db'.tunnels[t])
        && MovedColumns(db.tunnels[t], db'.tunnels[t], node, db.nodes[node].publicHost, None)
  {
    if t in db.tunnels && node in db.nodes {
      MigrateEffect(db, t, node, db.nodes[node].publicHost);
      MigrateDeniedIff(db, t, node, db.nodes[node].publicHost);
    }
  }

  /** A request is turned away, and changes nothing, exactly for a banned caller, an empty set, a set
      against the policy, a missing or inactive region, somebody else's device, or a socket that another
      service of the device has; the first that applies is the answer. */
  lemma RequestRejected(db: Db, caller: Caller, ask: Ask, now: int)
    requires Sound(db)
    ensures var (db', answer) := Requested(db, caller, ask, now);
      var node := if ask.node == None then caller.fallback else ask.node;
      && (answer.Rejected? ==> db' == db)
      && if caller.banned then answer == Rejected(Banned)
         else if |ask.wanted| == 0 then answer == Rejected(NoRoutes)
         else if !PolicyOk(Wanted(ask.wanted)) then answer == Rejected(BadPolicy)
         else if node == None || node.value !in db.nodes || !db.nodes[node.value].active then answer == Rejected(NoRegion)
         else if ask.device.Some? && (ask.device.value !in db.devices || db.devices[ask.device.value] != caller.id)
         then answer == Rejected(NotYourDevice)
         else if ask.device.Some? && SocketTaken(db, ask.device.value, None, ask.wanted) then answer == Rejected(EndpointInUse)
         else answer.Replied?
  {
    if ask.device.Some? {
      FreeUnlessTaken(db, ask.device.value, None, ask.wanted);
    }
  }

  /** A request that is granted gives the caller a tunnel of its own: an existing one, only if it did
      not insist on a new one; or a new one on the active node it chose, under that node's host, within
      the caller's cap. */
  lemma RequestGranted(db: Db, caller: Caller, ask: Ask, now: int)
    requires Sound(db) && Requested(db, caller, ask, now).1.Replied? && Requested(db, caller, ask, now).1.reply.Granted?
    ensures var (db', answer) := Requested(db, caller, ask, now); var reply := answer.reply;
      && reply.tunnel in db'.tunnels && db'.tunnels[reply.tunnel].owner == caller.id
      && reply.publicHost == db'.tunnels[reply.tunnel].publicHost && reply.node == db'.tunnels[reply.tunnel].node
      && (reply.reused ==> !ask.createNew && db' == db)
      && (!reply.reused ==>
            && db'.tunnels[reply.tunnel].device == ask.device
            && (ask.node.Some? ==> reply.node == ask.node.value) && (ask.node == None ==> Some(reply.node) == caller.fallback)
            && reply.node in db.nodes && db.nodes[reply.node].active && reply.publicHost == db.nodes[reply.node].publicHost
            && Owned(db', caller.id) <= caller.maxTunnels)
  {
    var r := ReservationFor(db, caller, ask);
    ReserveLimits(db, r, now);
    if Requested(db, caller, ask, now).1.reply.reused {
      ReuseOnlySameSet(db, r, now);
    } else {
      ReserveCreates(db, r, now);
    }
  }

  // ------------------------------------------------------------------
  // What the handlers keep
  // ------------------------------------------------------------------

  /** No request whatever can break an invariant: the handler's checks are what the allocator needs. */
  lemma RequestedKeeps(db: Db, caller: Caller, ask: Ask, now: int)
    requires Sound(db)
    ensures Sound(Requested(db, caller, ask, now).0)
    ensures Agreement(db) ==> Agreement(Requested(db, caller, ask, now).0)
    ensures Requested(db, caller, ask, now).1.Rejected? ==> Requested(db, caller, ask, now).0 == db
  {
    if Turned(db, caller, ask) == None {
      ReserveKeeps(db, ReservationFor(db, caller, ask), now);
    }
  }

  lemma EditedKeeps(db: Db, user: int, admin: bool, t: TunnelId, qs: seq<Request>)
    requires Sound(db)
    ensures Sound(EditedRoutes(db, user, admin, t, qs).0)
    ensures Agreement(db) ==> Agreement(EditedRoutes(db, user, admin, t, qs).0)
    ensures EditedRoutes(db, user, admin, t, qs).1 != Edited ==> EditedRoutes(db, user, admin, t, qs).0 == db
  {
    if EditTurned(db, user, admin, t, qs) == None {
      SetRoutesKeeps(db, t, db.tunnels[t].node, qs);
      SetRoutesDenials(db, t, db.tunnels[t].node, qs);
    }
  }

  lemma MovedTunnelKeeps(db: Db, user: int, admin: bool, t: TunnelId, node: NodeId)
    requires Sound(db)
    ensures Sound(MovedTunnel(db, user, admin, t, node).0)
    ensures Agreement(db) && (t in db.routes ==> NoBoth(db.routes[t])) ==> Agreement(MovedTunnel(db, user, admin, t, node).0)
    ensures MovedTunnel(db, user, admin, t, node).1 != Edited ==> MovedTunnel(db, user, admin, t, node).0 == db
  {
    if MayTouch(db, user, admin, t) && ActiveNode(db, Some(node)) {
      MigrateRelocates(db, t, node, db.nodes[node].publicHost);
      if Agreement(db) {
        MigrateKeepsIff(db, t, node, db.nodes[node].publicHost);
      }
    }
  }

  ghost predicate NeedsNoSocket(wanted: seq<Pair>)
  {
    forall i :: 0 <= i < |wanted| ==> !IsDedicated(wanted[i])
  }

  /** The caller asks, in any order, for what its tunnel `t` already is. */
  ghost predicate AsksAgain(db: Db, caller: Caller, ask: Ask, t: TunnelId)
  {
    && t in db.tunnels && t in db.routes
    && !caller.banned && ask.wanted != [] && !ask.createNew
    && ActiveNode(db, ChosenNode(caller, ask))
    && db.tunnels[t].owner == caller.id && db.tunnels[t].device == ask.device
    && multiset(Wanted(ask.wanted)) == multiset(Pairs(db.routes[t]))
  }

  lemma AskedPolicy(db: Db, caller: Caller, ask: Ask, t: TunnelId)
    requires Sound(db) && AsksAgain(db, caller, ask, t)
    ensures PolicyOk(Wanted(ask.wanted))
  {
    var had, wants := Pairs(db.routes[t]), Wanted(ask.wanted);
    assert RowsOk(db.tunnels[t], db.routes[t]);
    PolicyNoRepeats(had);
    SameMultisetNoRepeats(had, wants);
    SameElementsSameMultiset(had, wants);
    PolicyPermutes(had, wants);
  }

  lemma SameMultisetNoRepeats(a: seq<Pair>, b: seq<Pair>)
    requires NoRepeats(a) && multiset(a) == multiset(b)
    ensures NoRepeats(b)
  {
    forall i, j | 0 <= i < j < |b|
      ensures b[i] != b[j]
    {
      OccursOnce(a, b[i]);
      if b[i] == b[j] {
        TwiceInMultiset(b, i, j);
      }
    }
  }

  lemma TwiceInMultiset(b: seq<Pair>, i: nat, j: nat)
    requires i < j < |b| && b[i] == b[j]
    ensures multiset(b)[b[i]] >= 2
  {
    assert b == b[..j] + b[j..];
    assert b[i] in b[..j] && b[j] in b[j..];
    assert b[..j][i] == b[i] && b[j..][0] == b[j];
    assert multiset(b) == multiset(b[..j]) + multiset(b[j..]);
  }

  /** A dedicated pair clashes with itself. */
  lemma ClashSelf(p: Pair)
    ensures Clash(p, p) <==> IsDedicated(p)
  {
    match p.0 {
      case Udp => assert Takes(p.0, UdpSlot);
      case Tcp => assert Takes(p.0, TcpSlot);
      case Both => assert Takes(p.0, TcpSlot);
      case Http =>
      case Https =>
    }
  }

  lemma HostsNeverClash(wanted: seq<Pair>, p: Pair, i: nat)
    requires NeedsNoSocket(wanted) && i < |wanted|
    ensures !Clash(p, wanted[i])
  {
    assert !IsDedicated(wanted[i]);
  }

  /** A caller that presents the routes it already has, in any order, is given exactly its tunnel
      back with no table changed, if the tunnel is on no device or has no dedicated route. A
      dedicated route of a device is turned away: the scan counts the tunnel's own endpoints. */
  lemma ReconnectIff(db: Db, caller: Caller, ask: Ask, now: int, t: TunnelId)
    requires Sound(db) && AsksAgain(db, caller, ask, t)
    ensures ask.device == None || NeedsNoSocket(Wanted(ask.wanted))
            <==> Requested(db, caller, ask, now) == (db, Replied(Reuse(db, t)))
    ensures ask.device.Some? && !NeedsNoSocket(Wanted(ask.wanted))
            <==> Requested(db, caller, ask, now) == (db, Rejected(EndpointInUse))
  {
    var wanted := Wanted(ask.wanted);
    AskedPolicy(db, caller, ask, t);
    assert DeviceOk(db.devices, db.tunnels[t]);
    if ask.device == None || NeedsNoSocket(wanted) {
      if ask.device.Some? {
        HostsAreFree(db, ask.device.value, wanted);
      }
      ReuseAnyOrder(db, ReservationFor(db, caller, ask), now, t);
    } else {
      OwnEndpointsClash(db, ask.device.value, t, wanted);
    }
  }

  lemma HostsAreFree(db: Db, device: int, wanted: seq<Pair>)
    requires NeedsNoSocket(wanted)
    ensures EndpointsFree(db, device, None, wanted)
  {
    forall u, i, j | u in db.tunnels && u in db.routes && 0 <= i < |wanted| && 0 <= j < |db.routes[u]|
      ensures !Clash(PairOf(db.routes[u][j]), wanted[i])
    {
      HostsNeverClash(wanted, PairOf(db.routes[u][j]), i);
    }
  }

  lemma OwnEndpointsClash(db: Db, device: int, t: TunnelId, wanted: seq<Pair>)
    requires t in db.tunnels && t in db.routes && db.tunnels[t].device == Some(device)
    requires multiset(wanted) == multiset(Pairs(db.routes[t])) && !NeedsNoSocket(wanted)
    ensures !EndpointsFree(db, device, None, wanted)
  {
    var i :| 0 <= i < |wanted| && IsDedicated(wanted[i]);
    ClashSelf(wanted[i]);
    assert wanted[i] in multiset(Pairs(db.routes[t]));
    assert wanted[i] in Pairs(db.routes[t]);
    var j :| 0 <= j < |db.routes[t]| && Pairs(db.routes[t])[j] == wanted[i];
    assert Clash(PairOf(db.routes[t][j]), wanted[i]);
  }
}
