/** Moving, deleting and sweeping tunnels; nodes coming and going. */
module Lifecycle {
  import opened Options
  import opened Sets
  import opened Signature
  import opened PortPool
  import opened RouteRows
  import opened Policy
  import opened Tables
  import opened Allocator

  ghost predicate TunnelAgrees(db: Db, t: TunnelId)
    requires t in db.routes
  {
    Agrees(Own(db.pool, t), db.routes[t], {})
  }

  // ------------------------------------------------------------------
  // Migration
  // ------------------------------------------------------------------

  lemma SamePairs(rows: seq<Route>, rows': seq<Route>)
    requires SameButPorts(rows, rows')
    ensures Pairs(rows') == Pairs(rows)
  {
    forall i | 0 <= i < |rows|
      ensures PairOf(rows'[i]) == PairOf(rows[i])
    {
      assert rows'[i] == rows[i].(publicPort := rows'[i].publicPort);
    }
  }

  lemma MovedRowsOk(tunnel: Tunnel, rows: seq<Route>, tunnel': Tunnel, rows': seq<Route>)
    requires RowsOk(tunnel, rows) && SameButPorts(rows, rows') && tunnel'.sig == tunnel.sig
    requires forall i :: 0 <= i < |rows| && Reclaims(rows[i]) ==> rows'[i].publicPort.Some?
    ensures RowsOk(tunnel', rows')
  {
    SamePairs(rows, rows');
    forall i | 0 <= i < |rows|
      ensures rows'[i].routeId == rows[i].routeId
      ensures rows'[i].publicPort.Some? <==> Dedicated(rows'[i])
    {
      assert rows'[i] == rows[i].(publicPort := rows'[i].publicPort);
    }
  }

  /** Tunnels that differ in neither name, owner, device nor pairs are apart from the same others. */
  lemma StillCompatible(a: Tunnel, aRows: seq<Route>, a': Tunnel, aRows': seq<Route>, b: Tunnel, bRows: seq<Route>)
    requires Compatible(a, aRows, b, bRows)
    requires a'.subdomain == a.subdomain && a'.owner == a.owner && a'.device == a.device && a'.sig == a.sig
    requires Pairs(aRows') == Pairs(aRows)
    ensures Compatible(a', aRows', b, bRows)
  {
    if a.device.Some? && a.device == b.device {
      forall i, j | 0 <= i < |aRows'| && 0 <= j < |bRows|
        ensures !Clash(PairOf(aRows'[i]), PairOf(bRows[j]))
      {
        assert PairOf(aRows'[i]) == Pairs(aRows')[i] == Pairs(aRows)[i] == PairOf(aRows[i]);
      }
    }
  }

  /** Writing back a tunnel with the same identity and pairs. */
  lemma SoundRewrite(db: Db, t: TunnelId, tunnel: Tunnel, rows: seq<Route>, pool: Pool)
    requires Sound(db) && t in db.tunnels && RowsOk(tunnel, rows) && OthersKeep(db.pool, pool, t)
    requires Pairs(rows) == Pairs(db.routes[t])
    requires var was := db.tunnels[t];
      tunnel.subdomain == was.subdomain && tunnel.owner == was.owner && tunnel.device == was.device && tunnel.sig == was.sig
    ensures Sound(Put(db, t, tunnel, rows, pool))
  {
    forall u | u in db.tunnels && u != t
      ensures Compatible(tunnel, rows, db.tunnels[u], db.routes[u])
    {
      StillCompatible(db.tunnels[t], db.routes[t], tunnel, rows, db.tunnels[u], db.routes[u]);
    }
    SoundPut(db, t, tunnel, rows, pool);
  }

  /** Rewriting columns that identify nothing keeps every invariant. */
  lemma UpdateKeeps(db: Db, t: TunnelId, tunnel: Tunnel)
    requires Sound(db) && t in db.tunnels
    requires var was := db.tunnels[t];
      tunnel.subdomain == was.subdomain && tunnel.owner == was.owner && tunnel.device == was.device && tunnel.sig == was.sig
    ensures Sound(db.(tunnels := db.tunnels[t := tunnel]))
    ensures Agreement(db) ==> Agreement(db.(tunnels := db.tunnels[t := tunnel]))
  {
    assert RowsOk(db.tunnels[t], db.routes[t]);
    SoundRewrite(db, t, tunnel, db.routes[t], db.pool);
    assert Put(db, t, tunnel, db.routes[t], db.pool) == db.(tunnels := db.tunnels[t := tunnel]);
  }

  lemma {:induction false} ReclaimOthers(pool: Pool, rows: seq<Route>, node: NodeId, t: TunnelId, n: nat)
    requires n <= |rows| && Reclaim(pool, rows, node, t, n).Work?
    ensures OthersKeep(pool, Reclaim(pool, rows, node, t, n).pool, t)
  {
    if n > 0 {
      ReclaimOthers(pool, rows, node, t, n - 1);
      ClaimEffect(Reclaim(pool, rows, node, t, n - 1).pool, node, t, rows[n - 1].routeId);
    }
  }

  lemma MoveWork(pool: Pool, rows: seq<Route>, node: NodeId, t: TunnelId)
    requires Ascending(rows)
    ensures var w := Reclaim(FreeTunnels(pool, {t}), rows, node, t, |rows|);
      && w != Violation
      && (w.Work? ==> OthersKeep(pool, w.pool, t) && SameButPorts(rows, w.rows)
                      && (forall i :: 0 <= i < |rows| && Reclaims(rows[i]) ==> w.rows[i].publicPort.Some?)
                      && (Agrees(Own(w.pool, t), w.rows, {}) <==> NoBoth(rows)))
  {
    var freed := FreeTunnels(pool, {t});
    GivenUp(pool, {t});
    ReclaimNeed(freed, rows, node, t, |rows|);
    if Reclaim(freed, rows, node, t, |rows|).Work? {
      ReclaimOthers(freed, rows, node, t, |rows|);
      ReclaimRows(freed, rows, node, t, |rows|);
      MoveAgreesIff(freed, rows, node, t);
    }
  }

  /** Tunnel `t` was rewritten to `tunnel` and given new ports: nothing else changed, and the
      tunnel agrees with the pool exactly if it has no `both` route. */
  ghost predicate Relocated(db: Db, db': Db, t: TunnelId, tunnel: Tunnel)
  {
    && db' == db.(tunnels := db.tunnels[t := tunnel], routes := db'.routes, pool := db'.pool)
    && db'.routes.Keys == db.routes.Keys && t in db.routes
    && (forall u :: u in db.routes && u != t ==> db'.routes[u] == db.routes[u])
    && OthersKeep(db.pool, db'.pool, t)
    && SameButPorts(db.routes[t], db'.routes[t])
    && (TunnelAgrees(db', t) <==> NoBoth(db.routes[t]))
  }

  lemma MigrateRelocates(db: Db, t: TunnelId, node: NodeId, host: string)
    requires Sound(db) && t in db.tunnels
    ensures var (db', denial) := Migrate(db, t, node, host);
      && Sound(db')
      && (denial.Some? ==> db' == db && denial == Some(PortExhausted))
      && (denial == None ==> Relocated(db, db', t, Moved(db.tunnels[t], node, host)))
  {
    var rows := db.routes[t];
    assert RowsOk(db.tunnels[t], rows);
    MoveWork(db.pool, rows, node, t);
    var w := Reclaim(FreeTunnels(db.pool, {t}), rows, node, t, |rows|);
    if w.Work? {
      var tunnel := Moved(db.tunnels[t], node, host);
      SamePairs(rows, w.rows);
      MovedRowsOk(db.tunnels[t], rows, tunnel, w.rows);
      SoundRewrite(db, t, tunnel, w.rows, w.pool);
    }
  }

  /** What a move does to the columns of a tunnel: it is on the node, under the node's host, without its
      custom domain, with that note of where it failed over from; all else is as it was. */
  ghost predicate MovedColumns(was: Tunnel, moved: Tunnel, node: NodeId, host: string, from: Option<string>)
  {
    && moved.node == node && moved.publicHost == host && moved.customDomain == None && moved.failoverFrom == from
    && moved.subdomain == was.subdomain && moved.owner == was.owner && moved.device == was.device && moved.sig == was.sig
    && moved.status == was.status
    && moved.createdAt == was.createdAt && moved.lastSeen == was.lastSeen && moved.lastActive == was.lastActive
  }

  /** A migration that succeeds changes the node, the host and the ports of one tunnel, resets its
      custom domain, and leaves its subdomain, its route ids and everything else alone. It keeps
      the agreement of its tunnel exactly if that has no `both` route, whose port it frees and
      never claims again. A migration that is denied changes nothing. */
  lemma MigrateEffect(db: Db, t: TunnelId, node: NodeId, host: string)
    requires Sound(db) && t in db.tunnels
    ensures var (db', denial) := Migrate(db, t, node, host);
      && Sound(db')
      && (denial.Some? ==> db' == db && denial == Some(PortExhausted))
      && (denial == None ==> Relocated(db, db', t, db'.tunnels[t]))
      && (denial == None ==> MovedColumns(db.tunnels[t], db'.tunnels[t], node, host, None))
  {
    MigrateRelocates(db, t, node, host);
  }

  /** The ports of a node among the rows a tunnel holds. */
  function HeldOn(held: Held, node: NodeId): set<int>
  {
    set k | k in held && k.0 == node :: k.1
  }

  /** The node's free ports, with those the tunnel holds there, cover its tcp and udp routes. */
  predicate MigrationFits(db: Db, t: TunnelId, node: NodeId)
    requires t in db.routes
  {
    MoveNeed(db.routes[t]) <= |FreePorts(db.pool, node)| + |HeldOn(Own(db.pool, t), node)|
  }

  /** Migration keeps the agreement of the whole tables exactly if it does not fit, and so is denied,
      or the tunnel has no `both` route. */
  lemma MigrateKeepsIff(db: Db, t: TunnelId, node: NodeId, host: string)
    requires Sound(db) && Agreement(db) && t in db.tunnels
    ensures Agreement(Migrate(db, t, node, host).0) <==> (MigrationFits(db, t, node) ==> NoBoth(db.routes[t]))
  {
    MigrateRelocates(db, t, node, host);
    MigrateDeniedIff(db, t, node, host);
    var (db', denial) := Migrate(db, t, node, host);
    if denial == None && NoBoth(db.routes[t]) {
      forall u | u in db'.routes
        ensures TunnelAgrees(db', u)
      {
        assert u != t ==> TunnelAgrees(db, u);
      }
    }
  }

  /** Migration is denied exactly if it does not fit; otherwise it takes exactly what it needs. */
  lemma MigrateDeniedIff(db: Db, t: TunnelId, node: NodeId, host: string)
    requires Sound(db) && t in db.tunnels
    ensures Migrate(db, t, node, host).1.Some? <==> !MigrationFits(db, t, node)
    ensures Migrate(db, t, node, host).1 == None ==>
      |FreePorts(Migrate(db, t, node, host).0.pool, node)|
      == |FreePorts(db.pool, node)| + |HeldOn(Own(db.pool, t), node)| - MoveNeed(db.routes[t])
  {
    var rows := db.routes[t];
    assert rows[..|rows|] == rows;
    ReclaimNeed(FreeTunnels(db.pool, {t}), rows, node, t, |rows|);
    FreedPorts(db.pool, t, node);
  }

  /** Freeing a tunnel's rows adds the ports it held on a node to the node's free ports. */
  lemma FreedPorts(pool: Pool, t: TunnelId, node: NodeId)
    ensures |FreePorts(FreeTunnels(pool, {t}), node)| == |FreePorts(pool, node)| + |HeldOn(Own(pool, t), node)|
  {
    var freed, free, held := FreePorts(FreeTunnels(pool, {t}), node), FreePorts(pool, node), HeldOn(Own(pool, t), node);
    forall p
      ensures p in freed <==> p in free || p in held
    {
      assert p in freed <==> (node, p) in pool && FreeTunnels(pool, {t})[(node, p)].tunnel.None?;
      assert p in free <==> (node, p) in pool && pool[(node, p)].tunnel.None?;
      assert p in held <==> (node, p) in Own(pool, t);
    }
    assert freed == free + held && free !! held;
  }

  // ------------------------------------------------------------------
  // Deleting
  // ------------------------------------------------------------------

  /** Free the pool rows of `ts`, then delete them: `delete_tunnel`, `reconcile_abandoned`. */
  function DeleteTunnels(db: Db, ts: set<TunnelId>): Db
  {
    Remove(db, ts, FreeTunnels(db.pool, ts))
  }

  /** A cascade deletes tunnels and leaves their pool rows free with a stale route id. */
  function CascadeTunnels(db: Db, ts: set<TunnelId>): Db
  {
    Remove(db, ts, Orphan(db.pool, ts))
  }

  /** `COALESCE(at, created_at) < now() - make_interval(secs => window)` */
  predicate OlderThan(at: Option<int>, created: int, now: int, window: int)
  {
    (match at case Some(x) => x case None => created) < now - window
  }

  function Abandoned(db: Db, now: int, grace: int): set<TunnelId>
  {
    set t | t in db.tunnels && db.tunnels[t].status != AwaitingAgent && db.tunnels[t].status != Stopped
            && db.tunnels[t].device == None && OlderThan(db.tunnels[t].lastSeen, db.tunnels[t].createdAt, now, grace)
  }

  function Idle(db: Db, now: int, window: int): set<TunnelId>
  {
    set t | t in db.tunnels && db.tunnels[t].device.Some? && db.tunnels[t].sig != ""
            && OlderThan(db.tunnels[t].lastActive, db.tunnels[t].createdAt, now, window)
  }

  /** `expire_idle_service_hosts`: keep the tunnels, drop their routes, clear their signature. */
  function Park(db: Db, ts: set<TunnelId>): Db
  {
    db.(tunnels := map t | t in db.tunnels :: if t in ts then db.tunnels[t].(sig := "") else db.tunnels[t],
        routes := map t | t in db.routes :: if t in ts then [] else db.routes[t],
        pool := FreeTunnels(db.pool, ts))
  }

  /** Every way of deleting tunnels keeps every invariant: explicit, by a sweep or by a cascade. */
  lemma DeleteKeeps(db: Db, ts: set<TunnelId>)
    requires Sound(db)
    ensures Sound(DeleteTunnels(db, ts)) && Sound(CascadeTunnels(db, ts))
    ensures Agreement(db) ==> Agreement(DeleteTunnels(db, ts)) && Agreement(CascadeTunnels(db, ts))
  {
    GivenUp(db.pool, ts);
    RemoveKeeps(db, ts, FreeTunnels(db.pool, ts));
    RemoveKeeps(db, ts, Orphan(db.pool, ts));
  }

  /** The rows of deleted tunnels can be claimed again at once, the stale route ids of a cascade
      notwithstanding. */
  lemma DeletedPortsAreFree(db: Db, ts: set<TunnelId>, node: NodeId, port: int)
    requires (node, port) in db.pool && db.pool[(node, port)].tunnel.Some? && db.pool[(node, port)].tunnel.value in ts
    ensures port in FreePorts(DeleteTunnels(db, ts).pool, node)
    ensures port in FreePorts(CascadeTunnels(db, ts).pool, node)
  {
    assert (node, port) in DeleteTunnels(db, ts).pool;
    assert (node, port) in CascadeTunnels(db, ts).pool;
  }

  lemma EmptyRowsOk(tunnel: Tunnel)
    requires tunnel.sig == ""
    ensures RowsOk(tunnel, [])
  {
    EmptySignatureIff(Pairs([]));
    assert Pairs([]) == [];
  }

  lemma ParkedAgreement(db: Db, ts: set<TunnelId>)
    requires Agreement(db)
    ensures Agreement(Park(db, ts))
  {
    var db' := Park(db, ts);
    GivenUp(db.pool, ts);
    forall t | t in db'.routes
      ensures TunnelAgrees(db', t)
    {
      if t in ts {
        assert Own(db'.pool, t) == map[] && db'.routes[t] == [];
      } else {
        assert TunnelAgrees(db, t);
      }
    }
  }

  lemma ParkedCompatible(db: Db, ts: set<TunnelId>, t: TunnelId, u: TunnelId)
    requires Sound(db) && t in db.tunnels && u in db.tunnels && t != u
    ensures var db' := Park(db, ts); Compatible(db'.tunnels[t], db'.routes[t], db'.tunnels[u], db'.routes[u])
  {
    assert Compatible(db.tunnels[t], db.routes[t], db.tunnels[u], db.routes[u]);
  }

  /** Parking keeps every invariant. */
  lemma ParkKeeps(db: Db, ts: set<TunnelId>)
    requires Sound(db)
    ensures Sound(Park(db, ts))
    ensures Agreement(db) ==> Agreement(Park(db, ts))
  {
    var db' := Park(db, ts);
    GivenUp(db.pool, ts);
    HeldAfterGivingUp(db.pool, db'.pool, ts, db.tunnels.Keys);
    assert db'.tunnels.Keys == db.tunnels.Keys;
    forall t | t in db'.tunnels
      ensures t < db'.nextId && RowsOk(db'.tunnels[t], db'.routes[t]) && DeviceOk(db'.devices, db'.tunnels[t])
    {
      if t in ts {
        EmptyRowsOk(db'.tunnels[t]);
      }
    }
    forall t, u | t in db'.tunnels && u in db'.tunnels && t != u
      ensures Compatible(db'.tunnels[t], db'.routes[t], db'.tunnels[u], db'.routes[u])
    {
      ParkedCompatible(db, ts, t, u);
    }
    if Agreement(db) {
      ParkedAgreement(db, ts);
    }
  }

  // ------------------------------------------------------------------
  // Devices and users
  // ------------------------------------------------------------------

  function DeviceTunnels(db: Db, d: int): set<TunnelId>
  {
    set t | t in db.tunnels && db.tunnels[t].device == Some(d)
  }

  /** `delete_device`: only its owner can delete it; its tunnels go with it. */
  function DeleteDevice(db: Db, d: int, owner: int): Db
  {
    if d in db.devices && db.devices[d] == owner then
      CascadeTunnels(db, DeviceTunnels(db, d)).(devices := db.devices - {d})
    else db
  }

  function DevicesOf(db: Db, owner: int): set<int>
  {
    set d | d in db.devices && db.devices[d] == owner
  }

  /** `delete_user`: devices and tunnels of the user go, and so do tunnels of those devices. */
  function DeleteUser(db: Db, owner: int): Db
  {
    var ts := set t | t in db.tunnels
                      && (db.tunnels[t].owner == owner
                          || (db.tunnels[t].device.Some? && db.tunnels[t].device.value in DevicesOf(db, owner)));
    CascadeTunnels(db, ts).(devices := db.devices - DevicesOf(db, owner))
  }

  lemma FewerDevices(db: Db, ds: set<int>)
    requires Sound(db) && forall t :: t in db.tunnels && db.tunnels[t].device.Some? ==> db.tunnels[t].device.value !in ds
    ensures Sound(db.(devices := db.devices - ds))
    ensures Agreement(db) ==> Agreement(db.(devices := db.devices - ds))
  {
  }

  lemma DeleteDeviceKeeps(db: Db, d: int, owner: int)
    requires Sound(db)
    ensures Sound(DeleteDevice(db, d, owner))
    ensures Agreement(db) ==> Agreement(DeleteDevice(db, d, owner))
  {
    DeleteKeeps(db, DeviceTunnels(db, d));
    FewerDevices(CascadeTunnels(db, DeviceTunnels(db, d)), {d});
  }

  lemma DeleteUserKeeps(db: Db, owner: int)
    requires Sound(db)
    ensures Sound(DeleteUser(db, owner))
    ensures Agreement(db) ==> Agreement(DeleteUser(db, owner))
  {
    var ts := set t | t in db.tunnels
                      && (db.tunnels[t].owner == owner
                          || (db.tunnels[t].device.Some? && db.tunnels[t].device.value in DevicesOf(db, owner)));
    DeleteKeeps(db, ts);
    FewerDevices(CascadeTunnels(db, ts), DevicesOf(db, owner));
  }

  // ------------------------------------------------------------------
  // Nodes
  // ------------------------------------------------------------------

  /** Rows for the ports of a range that the node does not have yet. */
  function Seed(pool: Pool, node: NodeId, lo: int, hi: int): Pool
  {
    map k | k in pool.Keys + (set p | lo <= p <= hi :: (node, p)) :: if k in pool then pool[k] else FREE
  }

  /** `register_node`: insert or refresh the node, seed its pool. */
  function RegisterNode(db: Db, node: NodeId, details: Node, lo: int, hi: int, now: int): Db
  {
    var row := if node in db.nodes
      then db.nodes[node].(publicHost := details.publicHost, lastSeen := Some(now))
      else details.(active := true, lastSeen := Some(now), createdAt := now);
    db.(nodes := db.nodes[node := row], pool := Seed(db.pool, node, lo, hi))
  }

  /** Seeding adds free rows only. */
  lemma SeedKeepsOwn(pool: Pool, node: NodeId, lo: int, hi: int)
    ensures forall u :: Own(Seed(pool, node, lo, hi), u) == Own(pool, u)
    ensures HeldKeys(Seed(pool, node, lo, hi)) == HeldKeys(pool)
    ensures FreePorts(Seed(pool, node, lo, hi), node)
         == FreePorts(pool, node) + (set p | lo <= p <= hi && (node, p) !in pool)
  {
    var pool' := Seed(pool, node, lo, hi);
    assert forall k :: k in pool ==> k in pool' && pool'[k] == pool[k];
    assert forall k :: k in pool' && k !in pool ==> pool'[k] == FREE;
    forall u
      ensures Own(pool', u) == Own(pool, u)
    {
    }
    forall p
      ensures p in FreePorts(pool', node) <==> p in FreePorts(pool, node) || (lo <= p <= hi && (node, p) !in pool)
    {
      assert p in FreePorts(pool', node) <==> (node, p) in pool' && pool'[(node, p)].tunnel.None?;
      assert p in FreePorts(pool, node) <==> (node, p) in pool && pool[(node, p)].tunnel.None?;
    }
  }

  lemma RegisterKeeps(db: Db, node: NodeId, details: Node, lo: int, hi: int, now: int)
    requires Sound(db)
    ensures Sound(RegisterNode(db, node, details, lo, hi, now))
    ensures Agreement(db) ==> Agreement(RegisterNode(db, node, details, lo, hi, now))
  {
    SeedKeepsOwn(db.pool, node, lo, hi);
    var db' := RegisterNode(db, node, details, lo, hi, now);
    forall k | k in db'.pool && db'.pool[k].tunnel.Some?
      ensures db'.pool[k].tunnel.value in db.tunnels.Keys
    {
      assert k in HeldKeys(db'.pool);
      assert k in HeldKeys(db.pool);
    }
  }

  /** `delete_node` drops the node's pool rows, held or not. */
  function DeleteNode(db: Db, node: NodeId): Db
  {
    db.(pool := map k | k in db.pool && k.0 != node :: db.pool[k], nodes := db.nodes - {node})
  }

  ghost predicate HoldsOn(db: Db, node: NodeId)
  {
    exists k :: k in HeldKeys(db.pool) && k.0 == node
  }

  /** Deleting a node keeps the agreement exactly if no tunnel holds one of its ports. */
  lemma DeleteNodeKeepsIff(db: Db, node: NodeId)
    requires Sound(db) && Agreement(db)
    ensures Sound(DeleteNode(db, node))
    ensures Agreement(DeleteNode(db, node)) <==> !HoldsOn(db, node)
  {
    var db' := DeleteNode(db, node);
    if HoldsOn(db, node) {
      var k :| k in HeldKeys(db.pool) && k.0 == node;
      if Agreement(db') {
        HeldCount(db);
        HeldCount(db');
        assert DedicatedRoutes(db') == DedicatedRoutes(db);
        LostRow(db, node, k);
      }
    } else {
      forall t | t in db'.routes
        ensures TunnelAgrees(db', t)
      {
        assert TunnelAgrees(db, t);
        SameOwn(db, node, t);
      }
    }
  }

  lemma SameOwn(db: Db, node: NodeId, t: TunnelId)
    requires !HoldsOn(db, node)
    ensures Own(DeleteNode(db, node).pool, t) == Own(db.pool, t)
  {
    forall k | k in Own(db.pool, t)
      ensures k in Own(DeleteNode(db, node).pool, t)
    {
      assert k in HeldKeys(db.pool);
    }
  }

  lemma LostRow(db: Db, node: NodeId, k: PortKey)
    requires k in HeldKeys(db.pool) && k.0 == node
    ensures |HeldKeys(DeleteNode(db, node).pool)| < |HeldKeys(db.pool)|
  {
    var a, b := HeldKeys(DeleteNode(db, node).pool), HeldKeys(db.pool);
    assert a <= b && k in b - a;
    assert b == a + (b - a);
    assert |b| == |a| + |b - a|;
  }

  // ------------------------------------------------------------------
  // Status
  // ------------------------------------------------------------------

  datatype Signal = GoOnline(node: NodeId) | GoOffline | Stop | Start | Report(active: bool)

  /** `set_tunnel_online`, `set_tunnel_offline`, `stop_tunnel_keep`, `start_tunnel_keep`, and the
      bandwidth report that refreshes `last_active_at`. */
  function Signalled(tunnel: Tunnel, s: Signal, now: int): Tunnel
  {
    match s
    case GoOnline(node) => tunnel.(status := Online, node := node, lastSeen := Some(now))
    case GoOffline => if tunnel.status == Stopped then tunnel else tunnel.(status := Offline, lastSeen := Some(now))
    case Stop => tunnel.(status := Stopped, lastSeen := Some(now))
    case Start => if tunnel.status == Stopped then tunnel.(status := AwaitingAgent) else tunnel
    case Report(active) =>
      tunnel.(lastSeen := Some(now), lastActive := if active then Some(now) else tunnel.lastActive)
  }

  function SignalTunnel(db: Db, t: TunnelId, s: Signal, now: int): Db
  {
    if t in db.tunnels then db.(tunnels := db.tunnels[t := Signalled(db.tunnels[t], s, now)]) else db
  }

  /** Status changes, even one that rewrites the tunnel's node, keep every invariant. */
  lemma SignalKeeps(db: Db, t: TunnelId, s: Signal, now: int)
    requires Sound(db)
    ensures Sound(SignalTunnel(db, t, s, now))
    ensures Agreement(db) ==> Agreement(SignalTunnel(db, t, s, now))
  {
    if t in db.tunnels {
      UpdateKeeps(db, t, Signalled(db.tunnels[t], s, now));
    }
  }
}
