/** What deletions, sweeps, status updates and node registrations leave behind, row by row. */
module Effects {
  import opened Options
  import opened Signature
  import opened PortPool
  import opened RouteRows
  import opened Tables
  import opened Allocator
  import opened Lifecycle

  /** All that the tunnels and the pool do not hold is as it was. */
  predicate RestKept(db: Db, db': Db)
  {
    db'.nodes == db.nodes && db'.reserved == db.reserved && db'.nextId == db.nextId
  }

  /** No pool row comes or goes; those of the tunnels that satisfy `given` are free, all others as
      they were. */
  ghost predicate GivenBack(pool: Pool, pool': Pool, given: set<TunnelId>)
  {
    && (forall k :: k in pool' <==> k in pool)
    && forall k :: k in pool ==>
         if pool[k].tunnel.Some? && pool[k].tunnel.value in given then pool'[k].tunnel == None else pool'[k] == pool[k]
  }

  /** Exactly the tunnels of `ts` are gone, with their routes, and their ports are given back. */
  ghost predicate Gone(db: Db, db': Db, ts: set<TunnelId>)
  {
    && (forall t :: t in db'.tunnels <==> t in db.tunnels && t !in ts)
    && (forall t :: t in db'.routes <==> t in db.routes && t !in ts)
    && (forall t :: t in db'.tunnels ==> db'.tunnels[t] == db.tunnels[t])
    && (forall t :: t in db'.routes ==> db'.routes[t] == db.routes[t])
    && GivenBack(db.pool, db'.pool, ts) && RestKept(db, db')
  }

  lemma DeletedExactly(db: Db, ts: set<TunnelId>)
    ensures Gone(db, DeleteTunnels(db, ts), ts) && DeleteTunnels(db, ts).devices == db.devices
    ensures Gone(db, CascadeTunnels(db, ts), ts) && CascadeTunnels(db, ts).devices == db.devices
  {
  }

  /** How long ago the tunnel last gave that sign, or was created if it never did. */
  function Since(now: int, sign: Option<int>, created: int): int
  {
    if sign.Some? then now - sign.value else now - created
  }

  /** The sweep of abandoned tunnels deletes exactly those of no device that have been online and were
      not seen for longer than the grace period. */
  lemma AbandonedExactly(db: Db, now: int, grace: int)
    ensures var db' := DeleteTunnels(db, Abandoned(db, now, grace));
      && db'.devices == db.devices && RestKept(db, db')
      && (forall t :: t in db'.tunnels ==> t in db.tunnels && db'.tunnels[t] == db.tunnels[t])
      && forall t :: t in db.tunnels ==>
           var tunnel := db.tunnels[t];
           (t !in db'.tunnels
            <==> tunnel.device == None && (tunnel.status == Online || tunnel.status == Offline)
                 && Since(now, tunnel.lastSeen, tunnel.createdAt) > grace)
  {
    DeletedExactly(db, Abandoned(db, now, grace));
    forall t | t in db.tunnels
      ensures var tunnel := db.tunnels[t];
        t in Abandoned(db, now, grace)
        <==> tunnel.device == None && (tunnel.status == Online || tunnel.status == Offline)
             && Since(now, tunnel.lastSeen, tunnel.createdAt) > grace
    {
      match db.tunnels[t].status case AwaitingAgent => case Online => case Offline => case Stopped =>
    }
  }

  /** A device's tunnel with routes that was not active for longer than the window. */
  predicate Idles(db: Db, now: int, window: int, t: TunnelId)
    requires t in db.tunnels && t in db.routes
  {
    db.tunnels[t].device.Some? && db.routes[t] != [] && Since(now, db.tunnels[t].lastActive, db.tunnels[t].createdAt) > window
  }

  /** The idle sweep keeps every tunnel; exactly the idle ones lose their routes, and nothing else but
      their signature; their ports are given back. */
  lemma ParkedExactly(db: Db, now: int, window: int)
    requires Sound(db)
    ensures var db' := Park(db, Idle(db, now, window));
      && db'.tunnels.Keys == db'.routes.Keys == db.tunnels.Keys
      && db'.devices == db.devices && RestKept(db, db')
      && GivenBack(db.pool, db'.pool, set t | t in db.tunnels && Idles(db, now, window, t))
      && forall t :: t in db.tunnels ==>
           if Idles(db, now, window, t) then db'.routes[t] == [] && db'.tunnels[t] == db.tunnels[t].(sig := "")
           else db'.routes[t] == db.routes[t] && db'.tunnels[t] == db.tunnels[t]
  {
    forall t | t in db.tunnels
      ensures t in Idle(db, now, window) <==> Idles(db, now, window, t)
    {
      assert RowsOk(db.tunnels[t], db.routes[t]);
      EmptySignatureIff(Pairs(db.routes[t]));
      assert |Pairs(db.routes[t])| == |db.routes[t]|;
    }
    assert Idle(db, now, window) == set t | t in db.tunnels && Idles(db, now, window, t);
  }

  /** Deleting a device takes exactly its tunnels with it, and only its owner can. */
  lemma DeviceGoneExactly(db: Db, d: int, owner: int)
    requires Sound(db)
    ensures var db' := DeleteDevice(db, d, owner);
      if d in db.devices && db.devices[d] == owner then
        && Gone(db, db', set t | t in db.tunnels && db.tunnels[t].device == Some(d))
        && db'.devices == db.devices - {d}
      else db' == db
  {
    DeletedExactly(db, DeviceTunnels(db, d));
  }

  /** Devices belong to the owners of their tunnels, so the tunnels of a user's devices are the user's. */
  lemma UserTunnels(db: Db, owner: int)
    requires Sound(db)
    ensures (set t | t in db.tunnels
                     && (db.tunnels[t].owner == owner
                         || (db.tunnels[t].device.Some? && db.tunnels[t].device.value in DevicesOf(db, owner))))
         == set t | t in db.tunnels && db.tunnels[t].owner == owner
  {
    forall t | t in db.tunnels && db.tunnels[t].device.Some? && db.tunnels[t].device.value in DevicesOf(db, owner)
      ensures db.tunnels[t].owner == owner
    {
      assert DeviceOk(db.devices, db.tunnels[t]);
    }
  }

  /** Deleting a user takes exactly the user's devices and tunnels. */
  lemma UserGoneExactly(db: Db, owner: int)
    requires Sound(db)
    ensures var db' := DeleteUser(db, owner);
      && Gone(db, db', set t | t in db.tunnels && db.tunnels[t].owner == owner)
      && (forall d :: d in db'.devices <==> d in db.devices && db.devices[d] != owner)
      && (forall d :: d in db'.devices ==> db'.devices[d] == db.devices[d])
  {
    UserTunnels(db, owner);
    DeletedExactly(db, set t | t in db.tunnels && db.tunnels[t].owner == owner);
  }

  /** Which status a signal leaves: only a start takes a tunnel out of being stopped, short of the
      agent coming online. */
  function StatusAfter(was: Status, s: Signal): Status
  {
    if s.GoOnline? then Online
    else if s.Stop? then Stopped
    else if was == Stopped then (if s.Start? then AwaitingAgent else Stopped)
    else if s.GoOffline? then Offline
    else was
  }

  /** What a signal does to each column of the tunnel, and that it does nothing else. */
  lemma StatusExactly(db: Db, t: TunnelId, s: Signal, now: int)
    requires t in db.tunnels
    ensures var db' := SignalTunnel(db, t, s, now);
      && db' == db.(tunnels := db.tunnels[t := db'.tunnels[t]])
      && var was, later := db.tunnels[t], db'.tunnels[t];
         && later.subdomain == was.subdomain && later.owner == was.owner && later.device == was.device
         && later.sig == was.sig && later.publicHost == was.publicHost && later.createdAt == was.createdAt
         && later.customDomain == was.customDomain && later.failoverFrom == was.failoverFrom
         && later.status == StatusAfter(was.status, s)
         && later.node == (if s.GoOnline? then s.node else was.node)
         && later.lastSeen == (if s.Start? || (s.GoOffline? && was.status == Stopped) then was.lastSeen else Some(now))
         && later.lastActive == (if s.Report? && s.active then Some(now) else was.lastActive)
  {
  }

  /** Registering a node makes it active if it is new, refreshes its host and heartbeat, and adds the
      ports of the range it does not have. */
  lemma RegisteredExactly(db: Db, node: NodeId, details: Node, lo: int, hi: int, now: int)
    ensures var db' := RegisterNode(db, node, details, lo, hi, now);
      && db' == db.(nodes := db'.nodes, pool := db'.pool)
      && db'.nodes.Keys == db.nodes.Keys + {node}
      && (forall n :: n in db.nodes && n != node ==> db'.nodes[n] == db.nodes[n])
      && db'.nodes[node].publicHost == details.publicHost && db'.nodes[node].lastSeen == Some(now)
      && (if node in db.nodes
          then db'.nodes[node].active == db.nodes[node].active && db'.nodes[node].createdAt == db.nodes[node].createdAt
               && db'.nodes[node].name == db.nodes[node].name && db'.nodes[node].region == db.nodes[node].region
          else db'.nodes[node].active && db'.nodes[node].createdAt == now
               && db'.nodes[node].name == details.name && db'.nodes[node].region == details.region)
      && (forall k :: k in db'.pool <==> k in db.pool || (k.0 == node && lo <= k.1 <= hi))
      && (forall k :: k in db.pool ==> db'.pool[k] == db.pool[k])
      && (forall k :: k in db'.pool && k !in db.pool ==> db'.pool[k].tunnel == None)
  {
  }

  /** Deleting a node takes exactly its pool rows, held or not, and leaves every tunnel as it is. */
  lemma NodeGoneExactly(db: Db, node: NodeId)
    ensures var db' := DeleteNode(db, node);
      && db' == db.(nodes := db'.nodes, pool := db'.pool)
      && (forall n :: n in db'.nodes <==> n in db.nodes && n != node)
      && (forall n :: n in db'.nodes ==> db'.nodes[n] == db.nodes[n])
      && (forall k :: k in db'.pool <==> k in db.pool && k.0 != node)
      && (forall k :: k in db'.pool ==> db'.pool[k] == db.pool[k])
  {
  }
}
