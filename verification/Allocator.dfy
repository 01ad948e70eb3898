/** The transactions of the control plane, as functions on the tables. */
module Allocator {
  import opened Options
  import opened Signature
  import opened PortPool
  import opened RouteRows
  import opened RouteEdit
  import opened Policy
  import opened Tables

  datatype Denial =
    | LimitReached(max: int)
    | PortExhausted
    | BadSubdomain
    | SubdomainTaken(name: string)
    | RouteSetExists(which: string)
    | DbError

  // ------------------------------------------------------------------
  // Names
  // ------------------------------------------------------------------

  /** The user's choice, or the names the generator draws. */
  datatype Names = Custom(name: string) | Drawn(draws: seq<string>)

  const ATTEMPTS := 10

  predicate Alnum(c: char)
  {
    'a' <= c <= 'z' || '0' <= c <= '9'
  }

  predicate ValidSubdomain(s: string)
  {
    3 <= |s| <= 30 && Alnum(s[0]) && Alnum(s[|s| - 1]) && forall i :: 0 <= i < |s| ==> Alnum(s[i]) || s[i] == '-'
  }

  predicate NameTaken(db: Db, name: string)
  {
    exists t :: t in db.tunnels && db.tunnels[t].subdomain == name
  }

  predicate Usable(db: Db, name: string)
  {
    name !in db.reserved && !NameTaken(db, name)
  }

  /** The first usable name among the draws. */
  function FirstUsable(db: Db, draws: seq<string>): (name: Option<string>)
    ensures name.Some? ==> Usable(db, name.value)
  {
    if draws == [] then None
    else
      var n := |draws| - 1;
      match FirstUsable(db, draws[..n])
      case Some(name) => Some(name)
      case None => if Usable(db, draws[n]) then Some(draws[n]) else None
  }

  lemma {:induction false} FirstUsableSticks(db: Db, draws: seq<string>, n: nat)
    requires n <= |draws| && FirstUsable(db, draws[..n]).Some?
    ensures FirstUsable(db, draws) == FirstUsable(db, draws[..n])
    decreases |draws|
  {
    if n < |draws| {
      assert draws[..|draws| - 1][..n] == draws[..n];
      FirstUsableSticks(db, draws[..|draws| - 1], n);
    } else {
      assert draws[..n] == draws;
    }
  }

  datatype Naming = Named(name: string) | Unnamed(why: Denial)

  function Attempts(draws: seq<string>): seq<string>
  {
    if |draws| <= ATTEMPTS then draws else draws[..ATTEMPTS]
  }

  function ChooseName(db: Db, names: Names): (n: Naming)
    ensures n.Named? ==> Usable(db, n.name)
  {
    match names
    case Custom(name) =>
      if !ValidSubdomain(name) then Unnamed(BadSubdomain)
      else if !Usable(db, name) then Unnamed(SubdomainTaken(name))
      else Named(name)
    case Drawn(draws) =>
      match FirstUsable(db, Attempts(draws))
      case Some(name) => Named(name)
      case None => Unnamed(DbError)
  }

  // ------------------------------------------------------------------
  // Reserving
  // ------------------------------------------------------------------

  datatype Reservation = Reservation(owner: int, node: NodeId, publicHost: string, wanted: seq<Request>, names: Names,
                                     maxTunnels: int, allowReuse: bool, device: Option<int>)

  datatype Reply =
    | Granted(tunnel: TunnelId, subdomain: string, node: NodeId, publicHost: string, rows: seq<Route>,
              customDomain: Option<string>, reused: bool)
    | Denied(why: Denial)

  /** The tunnels of this owner and device with this signature: at most one, unless it is empty. */
  function Matching(db: Db, owner: int, device: Option<int>, sig: string): set<TunnelId>
  {
    set t | t in db.tunnels && db.tunnels[t].owner == owner && db.tunnels[t].sig == sig
            && DeviceKey(db.tunnels[t].device) == DeviceKey(device)
  }

  function OwnedBy(db: Db, owner: int): set<TunnelId>
  {
    set t | t in db.tunnels && db.tunnels[t].owner == owner
  }

  function NewTunnel(r: Reservation, name: string, now: int): Tunnel
  {
    Tunnel(name, r.owner, r.device, SignatureOf(Wanted(r.wanted)), AwaitingAgent, r.publicHost, r.node, now,
           None, None, None, None)
  }

  function Reuse(db: Db, t: TunnelId): Reply
    requires t in db.tunnels && t in db.routes
  {
    var tunnel := db.tunnels[t];
    Granted(t, tunnel.subdomain, tunnel.node, tunnel.publicHost, db.routes[t], tunnel.customDomain, true)
  }

  /** Insert the tunnel and its routes under the next id. */
  function AddTunnel(db: Db, r: Reservation, name: string, now: int): (Db, Reply)
  {
    if r.device.Some? && r.device.value !in db.devices then (db, Denied(DbError))
    else match AddRoutes(db.pool, [], r.node, db.nextId, 0, r.wanted)
      case NoPort => (db, Denied(PortExhausted))
      case Violation => (db, Denied(DbError))
      case Work(pool, rows) =>
        (Put(db, db.nextId, NewTunnel(r, name, now), rows, pool),
         Granted(db.nextId, name, r.node, r.publicHost, rows, None, false))
  }

  /** `reserve_tunnel` */
  function Reserve(db: Db, r: Reservation, now: int): (Db, Reply)
    requires db.routes.Keys == db.tunnels.Keys
  {
    var same := Matching(db, r.owner, r.device, SignatureOf(Wanted(r.wanted)));
    if same != {} then
      var t := Least(same);
      (db, if r.allowReuse then Reuse(db, t) else Denied(RouteSetExists(db.tunnels[t].subdomain)))
    else if |OwnedBy(db, r.owner)| >= r.maxTunnels then (db, Denied(LimitReached(r.maxTunnels)))
    else match ChooseName(db, r.names)
      case Unnamed(why) => (db, Denied(why))
      case Named(name) => AddTunnel(db, r, name, now)
  }

  // ------------------------------------------------------------------
  // Editing, moving, failing over
  // ------------------------------------------------------------------

  predicate SetTaken(db: Db, t: TunnelId, sig: string)
    requires t in db.tunnels
  {
    sig != "" && exists u :: u in db.tunnels && u != t && SameSet(db.tunnels[t].(sig := sig), db.tunnels[u])
  }

  /** `set_service_routes` */
  function SetRoutes(db: Db, t: TunnelId, node: NodeId, qs: seq<Request>): (Db, Option<Denial>)
    requires t in db.tunnels && t in db.routes
  {
    match Reconciled(db.pool, db.routes[t], node, t, qs)
    case NoPort => (db, Some(PortExhausted))
    case Violation => (db, Some(DbError))
    case Work(pool, rows) =>
      var sig := SignatureOf(Wanted(qs));
      if SetTaken(db, t, sig) then (db, Some(RouteSetExists(sig)))
      else (Put(db, t, db.tunnels[t].(sig := sig), rows, pool), None)
  }

  function Moved(tunnel: Tunnel, node: NodeId, host: string): Tunnel
  {
    tunnel.(node := node, publicHost := host, failoverFrom := None, customDomain := None)
  }

  /** `migrate_tunnel` */
  function Migrate(db: Db, t: TunnelId, node: NodeId, host: string): (Db, Option<Denial>)
    requires t in db.tunnels && t in db.routes
  {
    match Reclaim(FreeTunnels(db.pool, {t}), db.routes[t], node, t, |db.routes[t]|)
    case NoPort => (db, Some(PortExhausted))
    case Violation => (db, Some(DbError))
    case Work(pool, rows) => (Put(db, t, Moved(db.tunnels[t], node, host), rows, pool), None)
  }

  // ------------------------------------------------------------------
  // Reserving keeps the invariants
  // ------------------------------------------------------------------

  lemma AddedToNone(qs: seq<Request>, rows: seq<Route>)
    requires Added([], 0, qs, rows)
    ensures Pairs(rows) == Wanted(qs)
    ensures Ascending(rows) && PortsFit(rows)
    ensures forall i :: 0 <= i < |rows| ==> rows[i].routeId == i + 1
  {
    forall i | 0 <= i < |rows|
      ensures rows[i].routeId == i + 1 && PairOf(rows[i]) == (qs[i].mode, qs[i].localPort)
      ensures rows[i].publicPort.Some? <==> Dedicated(rows[i])
    {
      var none: seq<Route> := [];
      assert Serves(rows[|none| + i], 0 + 1 + i, qs[i]);
    }
  }

  /** The rows of a new tunnel are the requests in order, numbered from 1. */
  lemma FreshRows(pool: Pool, node: NodeId, t: TunnelId, qs: seq<Request>)
    requires AddRoutes(pool, [], node, t, 0, qs).Work?
    ensures var rows := AddRoutes(pool, [], node, t, 0, qs).rows;
      && Pairs(rows) == Wanted(qs)
      && Ascending(rows) && PortsFit(rows)
      && |rows| == |qs|
      && (forall i :: 0 <= i < |rows| ==> rows[i].routeId == i + 1)
  {
    AddRoutesRows(pool, [], node, t, 0, qs);
    AddedToNone(qs, AddRoutes(pool, [], node, t, 0, qs).rows);
  }

  /** The pairs of a request clash with none of a device's routes. */
  ghost predicate EndpointsFree(db: Db, device: int, except: Option<TunnelId>, wanted: seq<Pair>)
  {
    forall u :: u in db.tunnels && u in db.routes && db.tunnels[u].device == Some(device) && Some(u) != except ==>
      forall i, j :: 0 <= i < |wanted| && 0 <= j < |db.routes[u]| ==> !Clash(PairOf(db.routes[u][j]), wanted[i])
  }

  /** Rows whose pairs are among `wanted` clash with no other tunnel of the device. */
  lemma NoClashFrom(db: Db, device: int, except: Option<TunnelId>, wanted: seq<Pair>, rows: seq<Route>, u: TunnelId)
    requires EndpointsFree(db, device, except, wanted)
    requires u in db.tunnels && u in db.routes && db.tunnels[u].device == Some(device) && Some(u) != except
    requires Elements(Pairs(rows)) <= Elements(wanted)
    ensures NoClash(rows, db.routes[u])
  {
    forall i, j | 0 <= i < |rows| && 0 <= j < |db.routes[u]|
      ensures !Clash(PairOf(rows[i]), PairOf(db.routes[u][j]))
    {
      assert Pairs(rows)[i] in Elements(Pairs(rows));
      assert PairOf(rows[i]) in Elements(wanted);
      var k :| 0 <= k < |wanted| && wanted[k] == PairOf(rows[i]);
      ClashSymmetric(PairOf(rows[i]), PairOf(db.routes[u][j]));
    }
  }

  /** What the handler has checked before it reserves. */
  ghost predicate Admissible(db: Db, r: Reservation)
  {
    && r.wanted != [] && PolicyOk(Wanted(r.wanted))
    && (r.device.Some? ==>
          && r.device.value in db.devices && db.devices[r.device.value] == r.owner
          && EndpointsFree(db, r.device.value, None, Wanted(r.wanted)))
  }

  lemma NewIsCompatible(db: Db, r: Reservation, name: string, now: int, rows: seq<Route>, u: TunnelId)
    requires Sound(db) && Admissible(db, r) && Usable(db, name) && u in db.tunnels
    requires Matching(db, r.owner, r.device, SignatureOf(Wanted(r.wanted))) == {}
    requires Pairs(rows) == Wanted(r.wanted)
    ensures Compatible(NewTunnel(r, name, now), rows, db.tunnels[u], db.routes[u])
  {
    assert u !in Matching(db, r.owner, r.device, SignatureOf(Wanted(r.wanted)));
    if r.device.Some? && db.tunnels[u].device == r.device {
      NoClashFrom(db, r.device.value, None, Wanted(r.wanted), rows, u);
    }
  }

  lemma InsertKeeps(db: Db, r: Reservation, name: string, now: int)
    requires Sound(db) && Admissible(db, r) && Usable(db, name)
    requires Matching(db, r.owner, r.device, SignatureOf(Wanted(r.wanted))) == {}
    ensures Sound(AddTunnel(db, r, name, now).0)
    ensures Agreement(db) ==> Agreement(AddTunnel(db, r, name, now).0)
  {
    var t := db.nextId;
    var w := AddRoutes(db.pool, [], r.node, t, 0, r.wanted);
    if w.Work? {
      FreshRows(db.pool, r.node, t, r.wanted);
      OwnNothing(db);
      AddRoutesAgree(db.pool, [], r.node, t, 0, r.wanted);
      AddRoutesOthers(db.pool, [], r.node, t, 0, r.wanted);
      var tunnel := NewTunnel(r, name, now);
      forall u | u in db.tunnels && u != t
        ensures Compatible(tunnel, w.rows, db.tunnels[u], db.routes[u])
      {
        NewIsCompatible(db, r, name, now, w.rows, u);
      }
      SoundPut(db, t, tunnel, w.rows, w.pool);
      if Agreement(db) {
        AgreementPut(db, t, tunnel, w.rows, w.pool);
      }
    }
  }

  lemma OwnNothing(db: Db)
    requires Sound(db)
    ensures Own(db.pool, db.nextId) == map[] && Agrees(Own(db.pool, db.nextId), [], {})
  {
    forall k | k in db.pool
      ensures db.pool[k].tunnel != Some(db.nextId)
    {
    }
    assert Own(db.pool, db.nextId) == map[];
  }

  /** A reservation keeps every invariant, whether it reuses, inserts or is denied. */
  lemma ReserveKeeps(db: Db, r: Reservation, now: int)
    requires Sound(db) && Admissible(db, r)
    ensures Sound(Reserve(db, r, now).0)
    ensures Agreement(db) ==> Agreement(Reserve(db, r, now).0)
  {
    var naming := ChooseName(db, r.names);
    if naming.Named? && Matching(db, r.owner, r.device, SignatureOf(Wanted(r.wanted))) == {} {
      InsertKeeps(db, r, naming.name, now);
    }
  }

  /** At most one tunnel of an owner and device holds a nonempty set of pairs. */
  lemma OnlyMatch(db: Db, owner: int, device: Option<int>, wanted: seq<Request>, t: TunnelId)
    requires Sound(db) && t in db.tunnels && wanted != []
    requires owner == db.tunnels[t].owner && DeviceKey(device) == DeviceKey(db.tunnels[t].device)
    requires multiset(Wanted(wanted)) == multiset(Pairs(db.routes[t]))
    ensures Matching(db, owner, device, SignatureOf(Wanted(wanted))) == {t}
  {
    SignatureIff(Wanted(wanted), Pairs(db.routes[t]));
    EmptySignatureIff(Wanted(wanted));
    var same := Matching(db, owner, device, SignatureOf(Wanted(wanted)));
    assert t in same;
    forall u | u in same
      ensures u == t
    {
      assert u != t ==> Compatible(db.tunnels[u], db.routes[u], db.tunnels[t], db.routes[t]);
    }
  }

  /** A request holding the pairs of an existing tunnel of the same owner and device, in any
      order, gets exactly that tunnel, its rows and its ports, and no table changes. */
  lemma ReuseAnyOrder(db: Db, r: Reservation, now: int, t: TunnelId)
    requires Sound(db) && t in db.tunnels && r.wanted != [] && r.allowReuse
    requires r.owner == db.tunnels[t].owner && DeviceKey(r.device) == DeviceKey(db.tunnels[t].device)
    requires multiset(Wanted(r.wanted)) == multiset(Pairs(db.routes[t]))
    ensures var was := db.tunnels[t];
      Reserve(db, r, now)
      == (db, Granted(t, was.subdomain, was.node, was.publicHost, db.routes[t], was.customDomain, true))
  {
    OnlyMatch(db, r.owner, r.device, r.wanted, t);
  }

  /** Asked for a new tunnel instead, the same request is a conflict with that tunnel, in any order. */
  lemma CreateNewConflicts(db: Db, r: Reservation, now: int, t: TunnelId)
    requires Sound(db) && t in db.tunnels && r.wanted != [] && !r.allowReuse
    requires r.owner == db.tunnels[t].owner && DeviceKey(r.device) == DeviceKey(db.tunnels[t].device)
    requires multiset(Wanted(r.wanted)) == multiset(Pairs(db.routes[t]))
    ensures Reserve(db, r, now) == (db, Denied(RouteSetExists(db.tunnels[t].subdomain)))
  {
    OnlyMatch(db, r.owner, r.device, r.wanted, t);
  }

  /** Reuse happens for no other request: the reused tunnel is the owner's, on that device, and holds
      exactly the requested pairs. */
  lemma ReuseOnlySameSet(db: Db, r: Reservation, now: int)
    requires Sound(db) && Reserve(db, r, now).1.Granted? && Reserve(db, r, now).1.reused
    ensures var reply := Reserve(db, r, now).1;
      && Reserve(db, r, now).0 == db
      && r.allowReuse
      && reply.tunnel in db.tunnels && reply.rows == db.routes[reply.tunnel]
      && db.tunnels[reply.tunnel].owner == r.owner && DeviceKey(db.tunnels[reply.tunnel].device) == DeviceKey(r.device)
      && reply.subdomain == db.tunnels[reply.tunnel].subdomain && reply.customDomain == db.tunnels[reply.tunnel].customDomain
      && reply.node == db.tunnels[reply.tunnel].node && reply.publicHost == db.tunnels[reply.tunnel].publicHost
      && multiset(Wanted(r.wanted)) == multiset(Pairs(reply.rows))
  {
    var reply := Reserve(db, r, now).1;
    SignatureIff(Wanted(r.wanted), Pairs(reply.rows));
  }

  /** Reserving, then presenting the same routes in any order, gives the same tunnel back. */
  lemma ReserveThenReconnect(db: Db, r: Reservation, now: int, again: Reservation, later: int)
    requires Sound(db) && Admissible(db, r) && Reserve(db, r, now).1.Granted?
    requires again.owner == r.owner && DeviceKey(again.device) == DeviceKey(r.device) && again.allowReuse
    requires multiset(Wanted(again.wanted)) == multiset(Wanted(r.wanted))
    ensures var (db', first) := Reserve(db, r, now); var (db'', second) := Reserve(db', again, later);
      && db'' == db' && second.Granted? && second.reused
      && second.tunnel == first.tunnel && second.subdomain == first.subdomain && second.rows == first.rows
      && second.node == first.node && second.publicHost == first.publicHost
  {
    var (db', first) := Reserve(db, r, now);
    ReserveKeeps(db, r, now);
    SameWanted(r.wanted, again.wanted);
    if first.reused {
      ReuseOnlySameSet(db, r, now);
    } else {
      FreshRows(db.pool, r.node, db.nextId, r.wanted);
      assert db'.routes[first.tunnel] == first.rows;
    }
    ReuseAnyOrder(db', again, later, first.tunnel);
  }

  lemma SameWanted(a: seq<Request>, b: seq<Request>)
    requires multiset(Wanted(a)) == multiset(Wanted(b))
    ensures |a| == |b|
  {
    assert |multiset(Wanted(a))| == |a| && |multiset(Wanted(b))| == |b|;
  }

  /** A tunnel that waits for its agent under this host, and has neither been heard of nor moved nor
      given a domain of its own. */
  predicate StartsOut(tunnel: Tunnel, host: string, now: int)
  {
    && tunnel.status == AwaitingAgent && tunnel.publicHost == host && tunnel.createdAt == now
    && tunnel.lastSeen == None && tunnel.lastActive == None && tunnel.customDomain == None && tunnel.failoverFrom == None
  }

  lemma FreshColumns(pool: Pool, node: NodeId, t: TunnelId, qs: seq<Request>)
    requires AddRoutes(pool, [], node, t, 0, qs).Work?
    ensures var w := AddRoutes(pool, [], node, t, 0, qs);
      && |w.rows| == |qs|
      && (forall i :: 0 <= i < |qs| ==> w.rows[i].caption == qs[i].caption && w.rows[i].srv == None)
      && |FreePorts(w.pool, node)| == |FreePorts(pool, node)| - Need(qs)
  {
    AddRoutesRows(pool, [], node, t, 0, qs);
    AddRoutesNeed(pool, [], node, t, 0, qs);
    var rows, none: seq<Route> := AddRoutes(pool, [], node, t, 0, qs).rows, [];
    forall i | 0 <= i < |qs|
      ensures rows[i].caption == qs[i].caption && rows[i].srv == None
    {
      assert Serves(rows[|none| + i], 0 + 1 + i, qs[i]);
    }
  }

  /** A tunnel that is not reused is new: a new id, an unused name, exactly the requested pairs on
      the requested node, its ports taken from there, and every other tunnel as it was. */
  lemma ReserveCreates(db: Db, r: Reservation, now: int)
    requires Sound(db) && Reserve(db, r, now).1.Granted? && !Reserve(db, r, now).1.reused
    ensures var (db', reply) := Reserve(db, r, now);
      && reply.tunnel !in db.tunnels && Usable(db, reply.subdomain)
      && db'.tunnels.Keys == db.tunnels.Keys + {reply.tunnel} && db'.routes[reply.tunnel] == reply.rows
      && Pairs(reply.rows) == Wanted(r.wanted)
      && db'.tunnels[reply.tunnel].subdomain == reply.subdomain && db'.tunnels[reply.tunnel].owner == r.owner
      && db'.tunnels[reply.tunnel].device == r.device && db'.tunnels[reply.tunnel].node == r.node == reply.node
      && StartsOut(db'.tunnels[reply.tunnel], r.publicHost, now)
      && reply.publicHost == r.publicHost && reply.customDomain == None
      && (forall i :: 0 <= i < |r.wanted| ==> reply.rows[i].caption == r.wanted[i].caption && reply.rows[i].srv == None)
      && |FreePorts(db'.pool, r.node)| == |FreePorts(db.pool, r.node)| - Need(r.wanted)
      && db'.nodes == db.nodes && db'.devices == db.devices && db'.reserved == db.reserved
      && (forall u :: u in db.tunnels ==> db'.tunnels[u] == db.tunnels[u] && db'.routes[u] == db.routes[u])
  {
    FreshRows(db.pool, r.node, db.nextId, r.wanted);
    FreshColumns(db.pool, r.node, db.nextId, r.wanted);
  }

  /** How many tunnels the owner has. */
  function Owned(db: Db, owner: int): nat
  {
    |set t | t in db.tunnels && db.tunnels[t].owner == owner|
  }

  /** A fresh tunnel respects the owner's cap, and a denial changes no table. */
  lemma ReserveLimits(db: Db, r: Reservation, now: int)
    requires Sound(db)
    ensures var (db', reply) := Reserve(db, r, now);
      && (reply.Denied? ==> db' == db)
      && (reply.Granted? && !reply.reused ==>
            Owned(db', r.owner) == Owned(db, r.owner) + 1 && Owned(db', r.owner) <= r.maxTunnels)
  {
    var (db', reply) := Reserve(db, r, now);
    assert OwnedBy(db, r.owner) == set t | t in db.tunnels && db.tunnels[t].owner == r.owner;
    if reply.Granted? && !reply.reused {
      var owned' := set t | t in db'.tunnels && db'.tunnels[t].owner == r.owner;
      assert owned' == OwnedBy(db, r.owner) + {db.nextId};
      assert db.nextId !in OwnedBy(db, r.owner);
    }
  }

  /** A name is out of use if it is reserved or some tunnel has it. */
  predicate InUse(db: Db, name: string)
  {
    name in db.reserved || exists t :: t in db.tunnels && db.tunnels[t].subdomain == name
  }

  predicate FirstFree(db: Db, draws: seq<string>, i: nat)
    requires i < |draws|
  {
    !InUse(db, draws[i]) && forall j :: 0 <= j < i ==> InUse(db, draws[j])
  }

  lemma {:induction false} FirstUsableIs(db: Db, draws: seq<string>)
    ensures FirstUsable(db, draws).None? <==> forall i :: 0 <= i < |draws| ==> InUse(db, draws[i])
    ensures FirstUsable(db, draws).Some? ==>
      exists i :: 0 <= i < |draws| && FirstUsable(db, draws) == Some(draws[i]) && FirstFree(db, draws, i)
  {
    if draws != [] {
      var n := |draws| - 1;
      FirstUsableIs(db, draws[..n]);
      if FirstUsable(db, draws[..n]).Some? {
        var i :| 0 <= i < n && FirstUsable(db, draws[..n]) == Some(draws[..n][i]) && FirstFree(db, draws[..n], i);
        assert forall j :: 0 <= j < i ==> InUse(db, draws[..n][j]) == InUse(db, draws[j]);
        assert FirstFree(db, draws, i);
      } else {
        assert forall i :: 0 <= i < n ==> draws[..n][i] == draws[i];
        if !InUse(db, draws[n]) {
          assert FirstFree(db, draws, n);
        }
      }
    }
  }

  /** A chosen name is taken as it is or turned down for a reason; of at most ten drawn names the
      first that is not in use is taken. */
  lemma NameChosen(db: Db, names: Names)
    ensures names.Custom? ==>
      ChooseName(db, names) ==
        if !ValidSubdomain(names.name) then Unnamed(BadSubdomain)
        else if InUse(db, names.name) then Unnamed(SubdomainTaken(names.name))
        else Named(names.name)
    ensures names.Drawn? && ChooseName(db, names).Unnamed? ==>
      ChooseName(db, names).why == DbError && forall i :: 0 <= i < |names.draws| && i < 10 ==> InUse(db, names.draws[i])
    ensures names.Drawn? && ChooseName(db, names).Named? ==>
      exists i :: 0 <= i < |names.draws| && i < 10 && ChooseName(db, names).name == names.draws[i] && FirstFree(db, names.draws, i)
  {
    if names.Drawn? {
      var tries := Attempts(names.draws);
      FirstUsableIs(db, tries);
      assert |tries| == (if |names.draws| < 10 then |names.draws| else 10);
      assert forall i :: 0 <= i < |tries| ==> tries[i] == names.draws[i];
      if i :| 0 <= i < |tries| && FirstUsable(db, tries) == Some(tries[i]) && FirstFree(db, tries, i) {
        assert FirstFree(db, names.draws, i);
      }
    }
  }

  /** The owner has a tunnel on that device with the requested pairs. */
  ghost predicate HasSet(db: Db, r: Reservation)
    requires db.routes.Keys == db.tunnels.Keys
  {
    exists t :: t in db.tunnels && db.tunnels[t].owner == r.owner && DeviceKey(db.tunnels[t].device) == DeviceKey(r.device)
                && multiset(Pairs(db.routes[t])) == multiset(Wanted(r.wanted))
  }

  lemma MatchingIff(db: Db, r: Reservation)
    requires Sound(db)
    ensures Matching(db, r.owner, r.device, SignatureOf(Wanted(r.wanted))) != {} <==> HasSet(db, r)
  {
    var same := Matching(db, r.owner, r.device, SignatureOf(Wanted(r.wanted)));
    forall t | t in db.tunnels
      ensures db.tunnels[t].sig == SignatureOf(Wanted(r.wanted))
              <==> multiset(Pairs(db.routes[t])) == multiset(Wanted(r.wanted))
    {
      assert RowsOk(db.tunnels[t], db.routes[t]);
      SignatureIff(Wanted(r.wanted), Pairs(db.routes[t]));
    }
    if HasSet(db, r) {
      var t :| t in db.tunnels && db.tunnels[t].owner == r.owner && DeviceKey(db.tunnels[t].device) == DeviceKey(r.device)
               && multiset(Pairs(db.routes[t])) == multiset(Wanted(r.wanted));
      assert t in same;
    }
    if same != {} {
      var t := Least(same);
      assert t in same;
    }
  }

  /** Exactly when a reservation reuses, conflicts, meets the cap, has no name, finds no ports, or
      makes a new tunnel. */
  lemma ReserveOutcome(db: Db, r: Reservation, now: int)
    requires Sound(db) && Admissible(db, r)
    ensures var reply, naming := Reserve(db, r, now).1, ChooseName(db, r.names);
      if HasSet(db, r) then
        if r.allowReuse then reply.Granted? && reply.reused else reply.Denied? && reply.why.RouteSetExists?
      else if Owned(db, r.owner) >= r.maxTunnels then reply == Denied(LimitReached(r.maxTunnels))
      else if naming.Unnamed? then reply == Denied(naming.why)
      else if |FreePorts(db.pool, r.node)| < Need(r.wanted) then reply == Denied(PortExhausted)
      else reply.Granted? && !reply.reused && reply.subdomain == naming.name
  {
    MatchingIff(db, r);
    assert OwnedBy(db, r.owner) == set t | t in db.tunnels && db.tunnels[t].owner == r.owner;
    AddedOrShort(db.pool, r.node, db.nextId, r.wanted);
  }

  lemma AddedOrShort(pool: Pool, node: NodeId, t: TunnelId, qs: seq<Request>)
    requires PolicyOk(Wanted(qs))
    ensures AddRoutes(pool, [], node, t, 0, qs) == NoPort <==> |FreePorts(pool, node)| < Need(qs)
    ensures AddRoutes(pool, [], node, t, 0, qs) != Violation
  {
    PolicyDistinct(qs);
    assert HostsDistinct([], qs);
    AddRoutesNoViolation(pool, [], node, t, 0, qs);
    AddRoutesNeed(pool, [], node, t, 0, qs);
  }

  // ------------------------------------------------------------------
  // Editing keeps the invariants
  // ------------------------------------------------------------------

  ghost predicate EditAdmissible(db: Db, t: TunnelId, qs: seq<Request>)
  {
    && t in db.tunnels && PolicyOk(Wanted(qs))
    && (db.tunnels[t].device.Some? ==> EndpointsFree(db, db.tunnels[t].device.value, Some(t), Wanted(qs)))
  }

  lemma RowsAfterEdit(db: Db, t: TunnelId, node: NodeId, qs: seq<Request>)
    requires Sound(db) && EditAdmissible(db, t, qs)
    requires Reconciled(db.pool, db.routes[t], node, t, qs).Work?
    ensures var rows := Reconciled(db.pool, db.routes[t], node, t, qs).rows;
      RowsOk(db.tunnels[t].(sig := SignatureOf(Wanted(qs))), rows)
  {
    var before, rows := db.routes[t], Reconciled(db.pool, db.routes[t], node, t, qs).rows;
    assert RowsOk(db.tunnels[t], before);
    PolicyNoRepeats(Pairs(before));
    ReconcileExact(db.pool, before, node, t, qs);
    ReconciledSignature(db.pool, before, node, t, qs);
    EditedPorts(before, qs, rows);
  }

  lemma EditedPorts(before: seq<Route>, qs: seq<Request>, rows: seq<Route>)
    requires Reconciles(before, qs, rows) && PortsFit(before)
    requires forall i :: 0 <= i < |before| ==> before[i].routeId >= 1
    ensures PortsFit(rows) && forall i :: 0 <= i < |rows| ==> rows[i].routeId >= 1
  {
    MaxIdNonNegative(before);
    forall i | 0 <= i < |rows|
      ensures rows[i].routeId >= 1 && (rows[i].publicPort.Some? <==> Dedicated(rows[i]))
    {
      assert rows[i] in rows;
      if rows[i] !in before {
        var q :| q in qs && !Present(before, q) && Fresh(before, rows[i], |qs|, q);
      }
    }
  }

  lemma MaxIdNonNegative(rows: seq<Route>)
    requires forall i :: 0 <= i < |rows| ==> rows[i].routeId >= 1
    ensures MaxId(rows) >= 0
  {
    MaxIdBounds(rows);
    if rows != [] {
      assert rows[0].routeId >= 1;
    }
  }

  lemma EditedIsCompatible(db: Db, t: TunnelId, node: NodeId, qs: seq<Request>, u: TunnelId)
    requires Sound(db) && EditAdmissible(db, t, qs) && u in db.tunnels && u != t
    requires Reconciled(db.pool, db.routes[t], node, t, qs).Work?
    requires !SetTaken(db, t, SignatureOf(Wanted(qs)))
    ensures var rows := Reconciled(db.pool, db.routes[t], node, t, qs).rows;
      Compatible(db.tunnels[t].(sig := SignatureOf(Wanted(qs))), rows, db.tunnels[u], db.routes[u])
  {
    var rows := Reconciled(db.pool, db.routes[t], node, t, qs).rows;
    assert Compatible(db.tunnels[t], db.routes[t], db.tunnels[u], db.routes[u]);
    if db.tunnels[t].device.Some? && db.tunnels[u].device == db.tunnels[t].device {
      assert RowsOk(db.tunnels[t], db.routes[t]);
      ReconcileExact(db.pool, db.routes[t], node, t, qs);
      ReconciledPairs(db.routes[t], qs, rows);
      NoClashFrom(db, db.tunnels[t].device.value, Some(t), Wanted(qs), rows, u);
    }
  }

  /** An in-place edit keeps every invariant, whether it commits or rolls back. */
  lemma SetRoutesKeeps(db: Db, t: TunnelId, node: NodeId, qs: seq<Request>)
    requires Sound(db) && EditAdmissible(db, t, qs)
    ensures Sound(SetRoutes(db, t, node, qs).0)
    ensures Agreement(db) ==> Agreement(SetRoutes(db, t, node, qs).0)
  {
    var w := Reconciled(db.pool, db.routes[t], node, t, qs);
    var sig := SignatureOf(Wanted(qs));
    if w.Work? && !SetTaken(db, t, sig) {
      var tunnel := db.tunnels[t].(sig := sig);
      RowsAfterEdit(db, t, node, qs);
      ReconcileOthers(db.pool, db.routes[t], node, t, qs);
      forall u | u in db.tunnels && u != t
        ensures Compatible(tunnel, w.rows, db.tunnels[u], db.routes[u])
      {
        EditedIsCompatible(db, t, node, qs, u);
      }
      SoundPut(db, t, tunnel, w.rows, w.pool);
      if Agreement(db) {
        ReconcileAgrees(db.pool, db.routes[t], node, t, qs);
        AgreementPut(db, t, tunnel, w.rows, w.pool);
      }
    }
  }

  /** An admissible edit can only be denied for lack of ports, or because another tunnel of the
      owner and device already has the requested set. */
  lemma SetRoutesDenials(db: Db, t: TunnelId, node: NodeId, qs: seq<Request>)
    requires Sound(db) && EditAdmissible(db, t, qs)
    ensures var rows := db.routes[t]; var (db', denial) := SetRoutes(db, t, node, qs);
      var short := |FreePorts(FreeRoutes(db.pool, t, Stale(rows, qs, |rows|)), node)| < Need(News(rows, qs));
      && (denial == Some(PortExhausted) <==> short)
      && (denial.Some? && denial != Some(PortExhausted) <==> !short && OtherHasSet(db, t, qs))
      && (denial.Some? ==> db' == db)
  {
    var rows := db.routes[t];
    assert RowsOk(db.tunnels[t], rows);
    ReconcileNeverViolates(db.pool, rows, node, t, qs);
    ReconcileExhaustedIff(db.pool, rows, node, t, qs);
    SetTakenIff(db, t, qs);
  }

  /** Another tunnel of the owner and device has the requested pairs, of which there is at least one. */
  ghost predicate OtherHasSet(db: Db, t: TunnelId, qs: seq<Request>)
    requires db.routes.Keys == db.tunnels.Keys && t in db.tunnels
  {
    qs != [] && exists u ::
      && u in db.tunnels && u != t
      && db.tunnels[u].owner == db.tunnels[t].owner && DeviceKey(db.tunnels[u].device) == DeviceKey(db.tunnels[t].device)
      && multiset(Pairs(db.routes[u])) == multiset(Wanted(qs))
  }

  lemma SetTakenIff(db: Db, t: TunnelId, qs: seq<Request>)
    requires Sound(db) && t in db.tunnels
    ensures SetTaken(db, t, SignatureOf(Wanted(qs))) <==> OtherHasSet(db, t, qs)
  {
    EmptySignatureIff(Wanted(qs));
    forall u | u in db.tunnels
      ensures db.tunnels[u].sig == SignatureOf(Wanted(qs)) <==> multiset(Pairs(db.routes[u])) == multiset(Wanted(qs))
    {
      assert RowsOk(db.tunnels[u], db.routes[u]);
      SignatureIff(Wanted(qs), Pairs(db.routes[u]));
    }
  }

  /** An edit that succeeds leaves exactly the requested pairs, with every kept row as it was and
      every new row under a larger id. */
  lemma SetRoutesExact(db: Db, t: TunnelId, node: NodeId, qs: seq<Request>)
    requires Sound(db) && EditAdmissible(db, t, qs) && SetRoutes(db, t, node, qs).1 == None
    ensures var db' := SetRoutes(db, t, node, qs).0;
      && t in db'.tunnels && t in db'.routes
      && Reconciles(db.routes[t], qs, db'.routes[t])
      && multiset(Pairs(db'.routes[t])) == multiset(Wanted(qs))
      && MaxId(db'.routes[t]) <= MaxId(db.routes[t]) + 6
      && db'.tunnels[t] == db.tunnels[t].(sig := SignatureOf(Wanted(qs)))
      && db'.nodes == db.nodes && db'.devices == db.devices && db'.tunnels.Keys == db.tunnels.Keys
      && (forall u :: u in db.tunnels && u != t ==> db'.routes[u] == db.routes[u] && db'.tunnels[u] == db.tunnels[u])
  {
    var rows := db.routes[t];
    assert RowsOk(db.tunnels[t], rows);
    PolicyNoRepeats(Pairs(rows));
    MaxIdNonNegative(rows);
    ReconcileExact(db.pool, rows, node, t, qs);
    ReconciledSignature(db.pool, rows, node, t, qs);
    ReconcileMaxId(db.pool, rows, node, t, qs);
  }

  /** The same edit again changes nothing. */
  lemma SetRoutesTwice(db: Db, t: TunnelId, node: NodeId, qs: seq<Request>, node': NodeId)
    requires Sound(db) && EditAdmissible(db, t, qs) && SetRoutes(db, t, node, qs).1 == None
    ensures var db' := SetRoutes(db, t, node, qs).0;
      t in db'.tunnels && t in db'.routes && SetRoutes(db', t, node', qs) == (db', None)
  {
    var rows := db.routes[t];
    var db' := SetRoutes(db, t, node, qs).0;
    assert RowsOk(db.tunnels[t], rows);
    ReconcileTwice(db.pool, rows, node, t, qs, node');
    var sig := SignatureOf(Wanted(qs));
    PutAgain(db, t, db.tunnels[t].(sig := sig), db'.routes[t], db'.pool);
    SetStillFree(db, t, sig, db');
  }

  /** Writing a tunnel back as it is changes nothing. */
  lemma PutAgain(db: Db, t: TunnelId, tunnel: Tunnel, rows: seq<Route>, pool: Pool)
    ensures var db' := Put(db, t, tunnel, rows, pool);
      t in db'.tunnels && t in db'.routes && Put(db', t, tunnel, rows, pool) == db'
  {
  }

  lemma SetStillFree(db: Db, t: TunnelId, sig: string, db': Db)
    requires t in db.tunnels && !SetTaken(db, t, sig) && db'.tunnels == db.tunnels[t := db.tunnels[t].(sig := sig)]
    ensures !SetTaken(db', t, sig)
  {
  }
}
