/** The tables of the control plane and what must hold of them together. */
module Tables {
  import opened Options
  import opened Sets
  import opened Signature
  import opened PortPool
  import opened RouteRows
  import opened Policy

  datatype Status = AwaitingAgent | Online | Offline | Stopped

  datatype Tunnel = Tunnel(subdomain: string, owner: int, device: Option<int>, sig: string, status: Status,
                           publicHost: string, node: NodeId, createdAt: int, lastSeen: Option<int>,
                           lastActive: Option<int>, customDomain: Option<string>, failoverFrom: Option<string>)

  datatype Node = Node(name: string, region: Option<string>, publicHost: string, active: bool,
                       lastSeen: Option<int>, createdAt: int)

  /** `devices` maps a device to its owner. `nextId` is the identity column of `tunnels`. */
  datatype Db = Db(tunnels: map<TunnelId, Tunnel>, routes: map<TunnelId, seq<Route>>, pool: Pool,
                   nodes: map<NodeId, Node>, devices: map<int, int>, reserved: set<string>, nextId: TunnelId)

  // ------------------------------------------------------------------
  // Invariants
  // ------------------------------------------------------------------

  /** `COALESCE(device_id, 0)` */
  function DeviceKey(device: Option<int>): int
  {
    match device case Some(d) => d case None => 0
  }

  /** The unique index on (owner, device, route_sig), which leaves parked tunnels out. */
  predicate SameSet(a: Tunnel, b: Tunnel)
  {
    a.sig != "" && a.sig == b.sig && a.owner == b.owner && DeviceKey(a.device) == DeviceKey(b.device)
  }

  ghost predicate NoClash(a: seq<Route>, b: seq<Route>)
  {
    forall i, j :: 0 <= i < |a| && 0 <= j < |b| ==> !Clash(PairOf(a[i]), PairOf(b[j]))
  }

  /** What two different tunnels must never share: a subdomain, a route set on one device, or a
      local endpoint of one device. */
  ghost predicate Compatible(a: Tunnel, aRows: seq<Route>, b: Tunnel, bRows: seq<Route>)
  {
    && a.subdomain != b.subdomain
    && !SameSet(a, b)
    && (a.device.Some? && a.device == b.device ==> NoClash(aRows, bRows))
  }

  ghost predicate RowsOk(tunnel: Tunnel, rows: seq<Route>)
  {
    && Ascending(rows)
    && (forall i :: 0 <= i < |rows| ==> rows[i].routeId >= 1)
    && PortsFit(rows)
    && PolicyOk(Pairs(rows))
    && tunnel.sig == SignatureOf(Pairs(rows))
  }

  predicate DeviceOk(devices: map<int, int>, tunnel: Tunnel)
  {
    tunnel.device.Some? ==> tunnel.device.value in devices && devices[tunnel.device.value] == tunnel.owner
  }

  ghost predicate HeldByTunnels(pool: Pool, ts: set<TunnelId>)
  {
    forall k :: k in pool && pool[k].tunnel.Some? ==> pool[k].tunnel.value in ts
  }

  ghost predicate Sound(db: Db)
  {
    && db.routes.Keys == db.tunnels.Keys
    && (forall t :: t in db.tunnels ==>
          t < db.nextId && RowsOk(db.tunnels[t], db.routes[t]) && DeviceOk(db.devices, db.tunnels[t]))
    && HeldByTunnels(db.pool, db.tunnels.Keys)
    && (forall t, u :: t in db.tunnels && u in db.tunnels && t != u ==>
          Compatible(db.tunnels[t], db.routes[t], db.tunnels[u], db.routes[u]))
  }

  /** In every tunnel, the pool rows it holds and its dedicated routes name each other one to one. */
  ghost predicate Agreement(db: Db)
  {
    forall t :: t in db.routes ==> Agrees(Own(db.pool, t), db.routes[t], {})
  }

  // ------------------------------------------------------------------
  // Writing one tunnel
  // ------------------------------------------------------------------

  function Put(db: Db, t: TunnelId, tunnel: Tunnel, rows: seq<Route>, pool: Pool): Db
  {
    db.(tunnels := db.tunnels[t := tunnel], routes := db.routes[t := rows], pool := pool,
        nextId := if t < db.nextId then db.nextId else t + 1)
  }

  /** Only the pool rows of `t` may have changed hands. */
  ghost predicate OthersKeep(pool: Pool, pool': Pool, t: TunnelId)
  {
    forall u :: u != t ==> Own(pool', u) == Own(pool, u)
  }

  lemma ClashSymmetric(p: Pair, q: Pair)
    ensures Clash(p, q) == Clash(q, p)
  {
    if Clash(p, q) {
      var slot :| slot in {TcpSlot, UdpSlot} && Takes(p.0, slot) && Takes(q.0, slot);
      assert Takes(q.0, slot) && Takes(p.0, slot);
    }
  }

  lemma CompatibleSymmetric(a: Tunnel, aRows: seq<Route>, b: Tunnel, bRows: seq<Route>)
    requires Compatible(a, aRows, b, bRows)
    ensures Compatible(b, bRows, a, aRows)
  {
    if b.device.Some? && a.device == b.device {
      forall i, j | 0 <= i < |bRows| && 0 <= j < |aRows|
        ensures !Clash(PairOf(bRows[i]), PairOf(aRows[j]))
      {
        ClashSymmetric(PairOf(bRows[i]), PairOf(aRows[j]));
      }
    }
  }

  lemma HeldAfter(pool: Pool, pool': Pool, t: TunnelId, ts: set<TunnelId>)
    requires HeldByTunnels(pool, ts) && OthersKeep(pool, pool', t)
    ensures HeldByTunnels(pool', ts + {t})
  {
    forall k | k in pool' && pool'[k].tunnel.Some?
      ensures pool'[k].tunnel.value in ts + {t}
    {
      var u := pool'[k].tunnel.value;
      if u != t {
        assert k in Own(pool', u);
        assert k in Own(pool, u);
      }
    }
  }

  lemma SoundPut(db: Db, t: TunnelId, tunnel: Tunnel, rows: seq<Route>, pool: Pool)
    requires Sound(db) && RowsOk(tunnel, rows) && DeviceOk(db.devices, tunnel)
    requires OthersKeep(db.pool, pool, t)
    requires forall u :: u in db.tunnels && u != t ==> Compatible(tunnel, rows, db.tunnels[u], db.routes[u])
    ensures Sound(Put(db, t, tunnel, rows, pool))
  {
    var db' := Put(db, t, tunnel, rows, pool);
    HeldAfter(db.pool, pool, t, db.tunnels.Keys);
    assert db'.tunnels.Keys == db.tunnels.Keys + {t};
    forall u, v | u in db'.tunnels && v in db'.tunnels && u != v
      ensures Compatible(db'.tunnels[u], db'.routes[u], db'.tunnels[v], db'.routes[v])
    {
      if v == t {
        CompatibleSymmetric(tunnel, rows, db.tunnels[u], db.routes[u]);
      }
    }
  }

  lemma AgreementPut(db: Db, t: TunnelId, tunnel: Tunnel, rows: seq<Route>, pool: Pool)
    requires Agreement(db) && OthersKeep(db.pool, pool, t) && Agrees(Own(pool, t), rows, {})
    ensures Agreement(Put(db, t, tunnel, rows, pool))
  {
  }

  /** A change to one tunnel breaks the agreement exactly if that tunnel stops agreeing. */
  lemma AgreementPutIff(db: Db, t: TunnelId, tunnel: Tunnel, rows: seq<Route>, pool: Pool)
    requires Agreement(db) && OthersKeep(db.pool, pool, t)
    ensures Agreement(Put(db, t, tunnel, rows, pool)) <==> Agrees(Own(pool, t), rows, {})
  {
    var db' := Put(db, t, tunnel, rows, pool);
    assert db'.routes[t] == rows;
  }

  // ------------------------------------------------------------------
  // Removing tunnels
  // ------------------------------------------------------------------

  /** `DELETE FROM tunnels WHERE id = ANY(ts)`, with the cascade to `routes`. */
  function Remove(db: Db, ts: set<TunnelId>, pool: Pool): Db
  {
    db.(tunnels := map t | t in db.tunnels && t !in ts :: db.tunnels[t],
        routes := map t | t in db.routes && t !in ts :: db.routes[t],
        pool := pool)
  }

  /** The pool rows of `ts` are given up and no others change hands. */
  ghost predicate GivesUp(pool: Pool, pool': Pool, ts: set<TunnelId>)
  {
    forall u :: Own(pool', u) == if u in ts then map[] else Own(pool, u)
  }

  lemma GivenUp(pool: Pool, ts: set<TunnelId>)
    ensures GivesUp(pool, FreeTunnels(pool, ts), ts) && GivesUp(pool, Orphan(pool, ts), ts)
  {
    forall u
      ensures Own(FreeTunnels(pool, ts), u) == if u in ts then map[] else Own(pool, u)
      ensures Own(Orphan(pool, ts), u) == if u in ts then map[] else Own(pool, u)
    {
      FreeTunnelsEffect(pool, ts, u);
    }
  }

  lemma HeldAfterGivingUp(pool: Pool, pool': Pool, ts: set<TunnelId>, all: set<TunnelId>)
    requires HeldByTunnels(pool, all) && GivesUp(pool, pool', ts)
    ensures HeldByTunnels(pool', all - ts)
  {
    forall k | k in pool' && pool'[k].tunnel.Some?
      ensures pool'[k].tunnel.value in all - ts
    {
      var u := pool'[k].tunnel.value;
      assert k in Own(pool', u);
      assert u !in ts && k in Own(pool, u);
    }
  }

  lemma RemoveKeeps(db: Db, ts: set<TunnelId>, pool: Pool)
    requires Sound(db) && GivesUp(db.pool, pool, ts)
    ensures Sound(Remove(db, ts, pool))
    ensures Agreement(db) ==> Agreement(Remove(db, ts, pool))
  {
    HeldAfterGivingUp(db.pool, pool, ts, db.tunnels.Keys);
    var db' := Remove(db, ts, pool);
    assert db'.tunnels.Keys == db.tunnels.Keys - ts && db'.routes.Keys == db.tunnels.Keys - ts;
  }

  // ------------------------------------------------------------------
  // Counting
  // ------------------------------------------------------------------

  function HeldKeys(pool: Pool): set<PortKey>
  {
    set k | k in pool && pool[k].tunnel.Some?
  }

  /** Every dedicated route of every tunnel. */
  function DedicatedRoutes(db: Db): set<(TunnelId, Option<int>)>
  {
    set t, i | t in db.routes && 0 <= i < |db.routes[t]| && Dedicated(db.routes[t][i]) :: (t, Some(db.routes[t][i].routeId))
  }

  function NameOf(pool: Pool, k: PortKey): (TunnelId, Option<int>)
    requires k in HeldKeys(pool)
  {
    (pool[k].tunnel.value, pool[k].route)
  }

  lemma {:induction false} SameCardinality(pool: Pool, ks: set<PortKey>, names: set<(TunnelId, Option<int>)>)
    requires ks <= HeldKeys(pool)
    requires forall k, l :: k in ks && l in ks && NameOf(pool, k) == NameOf(pool, l) ==> k == l
    requires names == set k | k in ks :: NameOf(pool, k)
    ensures |ks| == |names|
    decreases ks
  {
    if ks == {} {
      assert names == {};
    } else {
      var k := Pick(ks);
      SameCardinality(pool, ks - {k}, names - {NameOf(pool, k)});
    }
  }

  lemma NamesAreRoutes(db: Db)
    requires Sound(db) && Agreement(db)
    ensures (set k | k in HeldKeys(db.pool) :: NameOf(db.pool, k)) == DedicatedRoutes(db)
  {
    var names := set k | k in HeldKeys(db.pool) :: NameOf(db.pool, k);
    forall x | x in names
      ensures x in DedicatedRoutes(db)
    {
      var k :| k in HeldKeys(db.pool) && NameOf(db.pool, k) == x;
      assert x.0 in db.routes && k in Own(db.pool, x.0);
      var i := HeldIds(Own(db.pool, x.0), db.routes[x.0], {}, k);
      assert x == (x.0, Some(db.routes[x.0][i].routeId));
    }
    forall x | x in DedicatedRoutes(db)
      ensures x in names
    {
      var t, i :| t in db.routes && 0 <= i < |db.routes[t]| && Dedicated(db.routes[t][i]) && x == (t, Some(db.routes[t][i].routeId));
      assert LinkOf(db.routes[t][i]) in Owed(db.routes[t], {});
      assert LinkOf(db.routes[t][i]) in Backing(Own(db.pool, t));
      var k :| k in Own(db.pool, t) && (Own(db.pool, t)[k], Some(k.1)) == LinkOf(db.routes[t][i]);
      assert k in HeldKeys(db.pool) && NameOf(db.pool, k) == x;
    }
  }

  /** Nothing is held twice and nothing leaks: as many pool rows are held as there are dedicated
      routes. */
  lemma HeldCount(db: Db)
    requires Sound(db) && Agreement(db)
    ensures |HeldKeys(db.pool)| == |DedicatedRoutes(db)|
  {
    NamesAreRoutes(db);
    forall k, l | k in HeldKeys(db.pool) && l in HeldKeys(db.pool) && NameOf(db.pool, k) == NameOf(db.pool, l)
      ensures k == l
    {
      var t := db.pool[k].tunnel.value;
      assert t in db.routes && k in Own(db.pool, t) && l in Own(db.pool, t);
      assert OneRowEach(Own(db.pool, t));
    }
    SameCardinality(db.pool, HeldKeys(db.pool), DedicatedRoutes(db));
  }
}
