/** The control plane's database, whose transactions rewrite the tables. Each method works on
    copies and assigns the fields where the source commits; returning early is its rollback. */
module ControlPlane {
  import opened Options
  import opened Signature
  import opened PortPool
  import opened RouteRows
  import opened RouteEdit
  import opened Tables
  import opened Allocator
  import opened Lifecycle
  import opened Failover

  class Database {
    var tunnels: map<TunnelId, Tunnel>
    var routes: map<TunnelId, seq<Route>>
    var pool: Pool
    var nodes: map<NodeId, Node>
    var devices: map<int, int>
    const reserved: set<string>
    var nextId: TunnelId

    function Contents(): Db
      reads this
    {
      Db(tunnels, routes, pool, nodes, devices, reserved, nextId)
    }

    ghost predicate Valid()
      reads this
    {
      routes.Keys == tunnels.Keys
    }

    constructor (reserved: set<string>)
      ensures Valid() && Contents() == Db(map[], map[], map[], map[], map[], reserved, 1)
    {
      tunnels, routes, pool, nodes, devices, nextId := map[], map[], map[], map[], map[], 1;
      this.reserved := reserved;
    }

    /** Commit one tunnel's row, its routes and the pool. */
    method Commit(t: TunnelId, tunnel: Tunnel, rows: seq<Route>, pool': Pool)
      requires Valid()
      modifies this
      ensures Valid() && Contents() == Put(old(Contents()), t, tunnel, rows, pool')
    {
      tunnels, routes, pool := tunnels[t := tunnel], routes[t := rows], pool';
      if nextId <= t {
        nextId := t + 1;
      }
    }

    /** Up to ten draws, the first of which that is usable is taken. */
    method PickName(names: Names) returns (n: Naming)
      ensures n == ChooseName(Contents(), names)
    {
      match names {
        case Custom(name) =>
          if !ValidSubdomain(name) {
            return Unnamed(BadSubdomain);
          }
          if name in reserved || NameTaken(Contents(), name) {
            return Unnamed(SubdomainTaken(name));
          }
          return Named(name);
        case Drawn(draws) =>
          var tries := Attempts(draws);
          for i := 0 to |tries|
            invariant FirstUsable(Contents(), tries[..i]) == None
          {
            assert tries[..i + 1][..i] == tries[..i];
            if tries[i] in reserved {
              continue;
            }
            if !NameTaken(Contents(), tries[i]) {
              FirstUsableSticks(Contents(), tries, i + 1);
              return Named(tries[i]);
            }
          }
          assert tries[..|tries|] == tries;
          return Unnamed(DbError);
      }
    }

    method ReserveTunnel(r: Reservation, now: int) returns (reply: Reply)
      requires Valid()
      modifies this
      ensures Valid()
      ensures (Contents(), reply) == Reserve(old(Contents()), r, now)
      ensures reply.Denied? ==> Contents() == old(Contents())
    {
      var pairs := CollectPairs(r.wanted);
      var sig := RouteSignature(pairs);
      var same := Matching(Contents(), r.owner, r.device, sig);
      if same != {} {
        var t := Least(same);
        if !r.allowReuse {
          return Denied(RouteSetExists(tunnels[t].subdomain));
        }
        return Granted(t, tunnels[t].subdomain, tunnels[t].node, tunnels[t].publicHost, routes[t],
                       tunnels[t].customDomain, true);
      }
      if |OwnedBy(Contents(), r.owner)| >= r.maxTunnels {
        return Denied(LimitReached(r.maxTunnels));
      }
      var naming := PickName(r.names);
      match naming {
        case Unnamed(why) =>
          return Denied(why);
        case Named(name) =>
          reply := InsertTunnel(r, sig, name, now);
      }
    }

    /** The inserting half of `reserve_tunnel`. */
    method InsertTunnel(r: Reservation, sig: string, name: string, now: int) returns (reply: Reply)
      requires Valid() && sig == SignatureOf(Wanted(r.wanted))
      modifies this
      ensures Valid()
      ensures (Contents(), reply) == AddTunnel(old(Contents()), r, name, now)
    {
      if r.device.Some? && r.device.value !in devices {
        return Denied(DbError);
      }
      var t := nextId;
      var w := InsertAll(pool, r.node, t, r.wanted);
      match w {
        case NoPort =>
          return Denied(PortExhausted);
        case Violation =>
          return Denied(DbError);
        case Work(pool', rows) =>
          var tunnel := Tunnel(name, r.owner, r.device, sig, AwaitingAgent, r.publicHost, r.node, now, None, None, None, None);
          Commit(t, tunnel, rows, pool');
          return Granted(t, name, r.node, r.publicHost, rows, None, false);
      }
    }

    method SetServiceRoutes(t: TunnelId, node: NodeId, qs: seq<Request>) returns (denial: Option<Denial>)
      requires Valid() && t in tunnels
      modifies this
      ensures Valid()
      ensures (Contents(), denial) == SetRoutes(old(Contents()), t, node, qs)
      ensures denial.Some? ==> Contents() == old(Contents())
    {
      var w := Reconcile(pool, routes[t], node, t, qs);
      match w {
        case NoPort =>
          return Some(PortExhausted);
        case Violation =>
          return Some(DbError);
        case Work(pool', rows) =>
          var pairs := CollectPairs(qs);
          var sig := RouteSignature(pairs);
          if SetTaken(Contents(), t, sig) {
            return Some(RouteSetExists(sig));
          }
          Commit(t, tunnels[t].(sig := sig), rows, pool');
          return None;
      }
    }

    method MigrateTunnel(t: TunnelId, node: NodeId, host: string) returns (denial: Option<Denial>)
      requires Valid() && t in tunnels
      modifies this
      ensures Valid()
      ensures (Contents(), denial) == Migrate(old(Contents()), t, node, host)
      ensures denial.Some? ==> Contents() == old(Contents())
    {
      var freed := FreeTunnels(pool, {t});
      var w := ClaimAgain(freed, routes[t], node, t);
      match w {
        case NoPort =>
          return Some(PortExhausted);
        case Violation =>
          return Some(DbError);
        case Work(pool', rows) =>
          var tunnel := tunnels[t].(node := node, publicHost := host, failoverFrom := None, customDomain := None);
          Commit(t, tunnel, rows, pool');
          return None;
      }
    }

    /** Migrate one tunnel and note the region it left. */
    method FailOverTunnel(t: TunnelId, target: NodeId, host: string, from: string) returns (denial: Option<Denial>)
      requires Valid() && t in tunnels
      modifies this
      ensures Valid()
      ensures (Contents(), denial) == FailOver(old(Contents()), t, target, host, from)
    {
      denial := MigrateTunnel(t, target, host);
      if denial == None {
        tunnels := tunnels[t := tunnels[t].(failoverFrom := Some(from))];
      }
    }

    /** `target` and `pending` are the database's answers to the sweep's two queries. */
    method FailoverStaleNodes(now: int, window: int, target: Option<NodeId>, pending: seq<TunnelId>)
      returns (moved: seq<Move>)
      requires Valid()
      requires IsTarget(Contents(), now, window, target)
      requires IsPending(Contents(), DeadNodes(Contents(), now, window), pending)
      modifies this
      ensures Valid()
      ensures target == None ==> moved == [] && Contents() == old(Contents())
      ensures target.Some? ==> ReadyToSweep(old(Contents()), target.value, pending)
      ensures target.Some? ==> (Contents(), moved) == Sweep(old(Contents()), target.value, pending)
    {
      if target == None {
        return [];
      }
      ghost var before := Contents();
      DeadAreNotTheTarget(before, now, window, target.value, pending);
      moved := MoveAll(tunnels, nodes, target.value, pending);
    }

    /** The loop of the sweep, over the rows of `tunnels` and `nodes` read before it. */
    method MoveAll(tunnels0: map<TunnelId, Tunnel>, nodes0: map<NodeId, Node>, target: NodeId, pending: seq<TunnelId>)
      returns (moved: seq<Move>)
      requires Valid() && tunnels0 == tunnels && nodes0 == nodes
      requires ReadyToSweep(Contents(), target, pending)
      modifies this
      ensures Valid() && (Contents(), moved) == Sweep(old(Contents()), target, pending)
    {
      moved := [];
      for i := 0 to |pending|
        invariant Valid() && ReadyToSweep(old(Contents()), target, pending[..i])
        invariant (Contents(), moved) == Sweep(old(Contents()), target, pending[..i])
      {
        SweepStep(old(Contents()), target, pending, i);
        var t := pending[i];
        var from := tunnels0[t].node;
        if from != target {
          var denial := FailOverTunnel(t, target, nodes0[target].publicHost, RegionLabel(nodes0[from]));
          if denial == None {
            moved := moved + [Move(tunnels0[t].subdomain, from, target)];
          }
        }
      }
      assert pending[..|pending|] == pending;
    }

    method DeleteTunnel(t: TunnelId) returns (deleted: nat)
      requires Valid()
      modifies this
      ensures Valid() && Contents() == DeleteTunnels(old(Contents()), {t})
      ensures deleted == if t in old(tunnels) then 1 else 0
    {
      deleted := if t in tunnels then 1 else 0;
      pool := FreeTunnels(pool, {t});
      tunnels := map u | u in tunnels && u !in {t} :: tunnels[u];
      routes := map u | u in routes && u !in {t} :: routes[u];
    }

    method ReconcileAbandoned(now: int, grace: int) returns (deleted: nat)
      requires Valid()
      modifies this
      ensures Valid() && Contents() == DeleteTunnels(old(Contents()), Abandoned(old(Contents()), now, grace))
      ensures deleted == |Abandoned(old(Contents()), now, grace)|
    {
      var stale := Abandoned(Contents(), now, grace);
      if stale == {} {
        DeleteNone(Contents());
        return 0;
      }
      pool := FreeTunnels(pool, stale);
      tunnels := map u | u in tunnels && u !in stale :: tunnels[u];
      routes := map u | u in routes && u !in stale :: routes[u];
      deleted := |stale|;
    }

    method ExpireIdleServiceHosts(now: int, window: int) returns (parked: nat)
      requires Valid()
      modifies this
      ensures Valid() && Contents() == Park(old(Contents()), Idle(old(Contents()), now, window))
      ensures parked == |Idle(old(Contents()), now, window)|
    {
      var idle := Idle(Contents(), now, window);
      if idle == {} {
        ParkNone(Contents());
        return 0;
      }
      pool := FreeTunnels(pool, idle);
      routes := map u | u in routes :: if u in idle then [] else routes[u];
      tunnels := map u | u in tunnels :: if u in idle then tunnels[u].(sig := "") else tunnels[u];
      parked := |idle|;
    }

    /** The cascade of a deleted owner row: tunnels and routes go, pool rows lose their tunnel. */
    method Cascade(ts: set<TunnelId>)
      requires Valid()
      modifies this
      ensures Valid() && Contents() == CascadeTunnels(old(Contents()), ts)
    {
      tunnels := map u | u in tunnels && u !in ts :: tunnels[u];
      routes := map u | u in routes && u !in ts :: routes[u];
      pool := map k | k in pool ::
        if pool[k].tunnel.Some? && pool[k].tunnel.value in ts then pool[k].(tunnel := None) else pool[k];
    }

    method DeleteDeviceRow(d: int, owner: int) returns (ok: bool)
      requires Valid()
      modifies this
      ensures Valid() && Contents() == DeleteDevice(old(Contents()), d, owner)
      ensures ok == (d in old(devices) && old(devices)[d] == owner)
    {
      ok := d in devices && devices[d] == owner;
      if ok {
        Cascade(DeviceTunnels(Contents(), d));
        devices := devices - {d};
      }
    }

    method DeleteNodeRows(node: NodeId)
      requires Valid()
      modifies this
      ensures Valid() && Contents() == DeleteNode(old(Contents()), node)
    {
      pool := map k | k in pool && k.0 != node :: pool[k];
      nodes := nodes - {node};
    }

    /** The status updates, each an `UPDATE` of one tunnel's row. */
    method SetStatus(t: TunnelId, s: Signal, now: int)
      requires Valid()
      modifies this
      ensures Valid() && Contents() == SignalTunnel(old(Contents()), t, s, now)
    {
      if t !in tunnels {
        return;
      }
      var row := tunnels[t];
      match s {
        case GoOnline(node) =>
          row := row.(status := Online, node := node, lastSeen := Some(now));
        case GoOffline =>
          if row.status != Stopped {
            row := row.(status := Offline, lastSeen := Some(now));
          }
        case Stop =>
          row := row.(status := Stopped, lastSeen := Some(now));
        case Start =>
          if row.status == Stopped {
            row := row.(status := AwaitingAgent);
          }
        case Report(active) =>
          row := row.(lastSeen := Some(now));
          if active {
            row := row.(lastActive := Some(now));
          }
      }
      tunnels := tunnels[t := row];
    }

    method RegisterNodeRow(node: NodeId, details: Node, lo: int, hi: int, now: int)
      requires Valid()
      modifies this
      ensures Valid() && Contents() == RegisterNode(old(Contents()), node, details, lo, hi, now)
    {
      if node in nodes {
        nodes := nodes[node := nodes[node].(publicHost := details.publicHost, lastSeen := Some(now))];
      } else {
        nodes := nodes[node := details.(active := true, lastSeen := Some(now), createdAt := now)];
      }
      pool := Seed(pool, node, lo, hi);
    }
  }

  lemma DeleteNone(db: Db)
    ensures DeleteTunnels(db, {}) == db
  {
    assert FreeTunnels(db.pool, {}) == db.pool;
    assert (map t | t in db.tunnels && t !in {} :: db.tunnels[t]) == db.tunnels;
    assert (map t | t in db.routes && t !in {} :: db.routes[t]) == db.routes;
  }

  lemma ParkNone(db: Db)
    ensures Park(db, {}) == db
  {
    assert FreeTunnels(db.pool, {}) == db.pool;
    assert Park(db, {}).tunnels == db.tunnels;
    assert Park(db, {}).routes == db.routes;
  }
}
