/** What the token of a tunnel grants, in terms of the tables it was minted from. */
module Grants {
  import opened Options
  import opened Bytes
  import Claims
  import opened PortPool
  import opened RouteRows
  import opened Tables
  import opened Tokens

  /** Ports are port numbers. */
  predicate PortsInRange(pool: Pool)
  {
    forall k :: k in pool ==> 0 <= k.1 < 65536
  }

  /** The tunnel holds a pool row with that port for that route. */
  ghost predicate HeldFor(held: Held, rid: int, port: Option<int>)
  {
    port.Some? && exists k :: k in held && k.1 == port.value && held[k] == Some(rid)
  }

  /** The claim is a claim of the route: of a host-routed one under the tunnel's full name, of any other
      under the port that the tunnel holds for it; a `both` route has a tcp half and a udp half, 10000
      ids further. */
  ghost predicate Grants(c: RouteClaim, r: Route, tunnel: Tunnel, held: Held)
  {
    if r.kind.IsHostRouted() then
      && c.routeId == r.routeId && c.mode == r.kind
      && c.host == Some(tunnel.subdomain + "." + tunnel.publicHost) && c.publicPort == None && c.srvService == None
    else
      && c.host == None && HeldFor(held, r.routeId, c.publicPort)
      && if r.kind.Both? then
           || (c.mode.Tcp? && c.routeId == r.routeId && c.srvService == r.srv)
           || (c.mode.Udp? && c.routeId == r.routeId + 10000 && c.srvService == None)
         else c.mode == r.kind && c.routeId == r.routeId && c.srvService == r.srv
  }

  lemma {:induction false} ClaimsOfRows(rows: seq<Route>, subdomain: string, host: string)
    ensures forall c :: c in AllClaims(rows, subdomain, host) <==>
      exists i :: 0 <= i < |rows| && c in ClaimsOf(rows[i], subdomain, host)
  {
    if rows != [] {
      var n := |rows| - 1;
      ClaimsOfRows(rows[..n], subdomain, host);
      forall c
        ensures c in AllClaims(rows, subdomain, host) <==> exists i :: 0 <= i < |rows| && c in ClaimsOf(rows[i], subdomain, host)
      {
        if c in AllClaims(rows[..n], subdomain, host) {
          var i :| 0 <= i < n && c in ClaimsOf(rows[..n][i], subdomain, host);
          assert c in ClaimsOf(rows[i], subdomain, host);
        }
        if i :| 0 <= i < |rows| && c in ClaimsOf(rows[i], subdomain, host) {
          assert i < n ==> c in ClaimsOf(rows[..n][i], subdomain, host);
        }
      }
    }
  }

  /** The held row of a dedicated route. */
  lemma HeldRow(db: Db, t: int, i: nat) returns (k: PortKey)
    requires Sound(db) && Agreement(db) && t in db.tunnels && i < |db.routes[t]| && Dedicated(db.routes[t][i])
    ensures k in Own(db.pool, t) && k in db.pool
    ensures Own(db.pool, t)[k] == Some(db.routes[t][i].routeId) && db.routes[t][i].publicPort == Some(k.1)
    ensures forall l :: l in Own(db.pool, t) && Own(db.pool, t)[l] == Some(db.routes[t][i].routeId) ==> l == k
  {
    assert RowsOk(db.tunnels[t], db.routes[t]);
    assert Agrees(Own(db.pool, t), db.routes[t], {});
    AgreesMeans(Own(db.pool, t), db.routes[t]);
    assert BackedOnce(Own(db.pool, t), db.routes[t], i);
    k :| Backed(Own(db.pool, t), db.routes[t], i, k);
  }

  lemma HeldOfRow(db: Db, t: int, k: PortKey) returns (i: nat)
    requires Sound(db) && Agreement(db) && t in db.tunnels && k in Own(db.pool, t)
    ensures i < |db.routes[t]| && Dedicated(db.routes[t][i]) && db.routes[t][i].publicPort == Some(k.1)
  {
    assert RowsOk(db.tunnels[t], db.routes[t]);
    assert Agrees(Own(db.pool, t), db.routes[t], {});
    AgreesMeans(Own(db.pool, t), db.routes[t]);
    assert BacksOne(Own(db.pool, t), db.routes[t], k);
    i :| Backed(Own(db.pool, t), db.routes[t], i, k);
  }

  lemma RowGrants(db: Db, t: int, i: nat)
    requires Sound(db) && Agreement(db) && t in db.tunnels && PortsInRange(db.pool) && SmallIds(db.routes[t])
    requires i < |db.routes[t]|
    ensures var r, tunnel := db.routes[t][i], db.tunnels[t];
      && (forall c :: c in ClaimsOf(r, tunnel.subdomain, tunnel.publicHost) ==> Grants(c, r, tunnel, Own(db.pool, t)))
      && (exists c :: c in ClaimsOf(r, tunnel.subdomain, tunnel.publicHost) && c.routeId == r.routeId && c.publicPort == r.publicPort)
      && (r.kind.Both? ==> exists c ::
            c in ClaimsOf(r, tunnel.subdomain, tunnel.publicHost) && c.routeId == r.routeId + 10000 && c.publicPort == r.publicPort)
  {
    var r, tunnel := db.routes[t][i], db.tunnels[t];
    var cs := ClaimsOf(r, tunnel.subdomain, tunnel.publicHost);
    assert RowsOk(tunnel, db.routes[t]);
    assert ToU16(r.routeId) == r.routeId && WrappingAdd(r.routeId, BOTH_UDP_ROUTE_OFFSET) == r.routeId + 10000;
    if Dedicated(r) {
      var k := HeldRow(db, t, i);
      assert ToU16(k.1) == k.1;
      assert HeldFor(Own(db.pool, t), r.routeId, Some(k.1));
    }
    assert cs[0] in cs;
    if r.kind.Both? {
      assert cs[1] in cs;
    }
  }

  /** The token has a claim of the route under the id `rid`. */
  ghost predicate HasGrant(db: Db, t: int, i: nat, rid: int)
    requires t in db.tunnels && t in db.routes && i < |db.routes[t]|
  {
    exists c :: c in TokenFor(db, t).routes && c.routeId == rid && Grants(c, db.routes[t][i], db.tunnels[t], Own(db.pool, t))
  }

  lemma RowHasGrants(db: Db, t: int, i: nat)
    requires Sound(db) && Agreement(db) && t in db.tunnels && PortsInRange(db.pool) && SmallIds(db.routes[t])
    requires i < |db.routes[t]|
    ensures HasGrant(db, t, i, db.routes[t][i].routeId)
    ensures db.routes[t][i].kind.Both? ==> HasGrant(db, t, i, db.routes[t][i].routeId + 10000)
  {
    var r, tunnel := db.routes[t][i], db.tunnels[t];
    RowGrants(db, t, i);
    ClaimsOfRows(db.routes[t], tunnel.subdomain, tunnel.publicHost);
    var c :| c in ClaimsOf(r, tunnel.subdomain, tunnel.publicHost) && c.routeId == r.routeId;
    assert c in TokenFor(db, t).routes;
    if r.kind.Both? {
      var d :| d in ClaimsOf(r, tunnel.subdomain, tunnel.publicHost) && d.routeId == r.routeId + 10000;
      assert d in TokenFor(db, t).routes;
    }
  }

  lemma ClaimIsGrant(db: Db, t: int, c: RouteClaim) returns (i: nat)
    requires Sound(db) && Agreement(db) && t in db.tunnels && PortsInRange(db.pool) && SmallIds(db.routes[t])
    requires c in TokenFor(db, t).routes
    ensures i < |db.routes[t]| && Grants(c, db.routes[t][i], db.tunnels[t], Own(db.pool, t))
  {
    var tunnel := db.tunnels[t];
    ClaimsOfRows(db.routes[t], tunnel.subdomain, tunnel.publicHost);
    i :| 0 <= i < |db.routes[t]| && c in ClaimsOf(db.routes[t][i], tunnel.subdomain, tunnel.publicHost);
    RowGrants(db, t, i);
  }

  /** The claims of a minted token are exactly the grants of the tunnel's routes, each with its host name
      or the port held for it; both halves of a `both` route are among them. The token is the owner's. */
  lemma TokenGrants(db: Db, t: int)
    requires Sound(db) && Agreement(db) && t in db.tunnels && PortsInRange(db.pool) && SmallIds(db.routes[t])
    ensures var token, rows, tunnel := TokenFor(db, t), db.routes[t], db.tunnels[t];
      && token.sub == tunnel.owner && token.tunnelId == t && token.subdomain == tunnel.subdomain
      && token.customDomain == tunnel.customDomain
      && (forall c :: c in token.routes ==> exists i :: 0 <= i < |rows| && Grants(c, rows[i], tunnel, Own(db.pool, t)))
      && (forall i :: 0 <= i < |rows| ==>
            && HasGrant(db, t, i, rows[i].routeId)
            && (rows[i].kind.Both? ==> HasGrant(db, t, i, rows[i].routeId + 10000)))
  {
    var rows, tunnel := db.routes[t], db.tunnels[t];
    forall c | c in TokenFor(db, t).routes
      ensures exists i :: 0 <= i < |rows| && Grants(c, rows[i], tunnel, Own(db.pool, t))
    {
      var i := ClaimIsGrant(db, t, c);
    }
    forall i | 0 <= i < |rows|
      ensures HasGrant(db, t, i, rows[i].routeId)
      ensures rows[i].kind.Both? ==> HasGrant(db, t, i, rows[i].routeId + 10000)
    {
      RowHasGrants(db, t, i);
    }
  }

  lemma GrantedIsHeld(db: Db, t: int, c: RouteClaim)
    requires Sound(db) && Agreement(db) && t in db.tunnels && PortsInRange(db.pool) && SmallIds(db.routes[t])
    requires c in TokenFor(db, t).routes && c.publicPort.Some?
    ensures exists k :: k in Own(db.pool, t) && k.1 == c.publicPort.value
  {
    var i := ClaimIsGrant(db, t, c);
  }

  lemma HeldIsGranted(db: Db, t: int, k: PortKey)
    requires Sound(db) && Agreement(db) && t in db.tunnels && PortsInRange(db.pool) && SmallIds(db.routes[t])
    requires k in Own(db.pool, t)
    ensures exists c :: c in TokenFor(db, t).routes && c.publicPort == Some(k.1)
  {
    var rows, tunnel := db.routes[t], db.tunnels[t];
    var i := HeldOfRow(db, t, k);
    RowGrants(db, t, i);
    ClaimsOfRows(rows, tunnel.subdomain, tunnel.publicHost);
    var c :| c in ClaimsOf(rows[i], tunnel.subdomain, tunnel.publicHost) && c.publicPort == rows[i].publicPort;
    assert c in TokenFor(db, t).routes && c.publicPort == Some(k.1);
  }

  /** The public ports that the token grants are exactly the ports that the tunnel holds. */
  lemma GrantsHeldPorts(db: Db, t: int, p: int)
    requires Sound(db) && Agreement(db) && t in db.tunnels && PortsInRange(db.pool) && SmallIds(db.routes[t])
    ensures (exists c :: c in TokenFor(db, t).routes && c.publicPort == Some(p))
      <==> exists k :: k in db.pool && db.pool[k].tunnel == Some(t) && k.1 == p
  {
    if c :| c in TokenFor(db, t).routes && c.publicPort == Some(p) {
      GrantedIsHeld(db, t, c);
      var k :| k in Own(db.pool, t) && k.1 == p;
      assert k in db.pool && db.pool[k].tunnel == Some(t) && k.1 == p;
    }
    if k :| k in db.pool && db.pool[k].tunnel == Some(t) && k.1 == p {
      HeldIsGranted(db, t, k);
    }
  }

  /** All claims of a route carry the one port held for it; so both halves of a `both` route share it. */
  lemma HalvesShareThePort(db: Db, t: int, i: nat, c: RouteClaim, d: RouteClaim)
    requires Sound(db) && Agreement(db) && t in db.tunnels && PortsInRange(db.pool) && SmallIds(db.routes[t])
    requires i < |db.routes[t]| && Dedicated(db.routes[t][i])
    requires Grants(c, db.routes[t][i], db.tunnels[t], Own(db.pool, t)) && Grants(d, db.routes[t][i], db.tunnels[t], Own(db.pool, t))
    ensures c.publicPort == d.publicPort == db.routes[t][i].publicPort
  {
    var k := HeldRow(db, t, i);
  }

  // ------------------------------------------------------------------
  // What the agent is told
  // ------------------------------------------------------------------

  /** The view tells of the route: its id, or that of its udp half, its mode, local port and label. */
  predicate Shows(v: View, r: Route)
  {
    && v.localPort == r.localPort && v.caption == r.caption
    && if r.kind.Both? then (v.mode.Tcp? && v.routeId == r.routeId) || (v.mode.Udp? && v.routeId == r.routeId + 10000)
       else v.mode == r.kind && v.routeId == r.routeId
  }

  /** The views tell of every route and half, and of nothing else. */
  lemma {:induction false} ViewsShow(rows: seq<Route>)
    requires SmallIds(rows) && forall i :: 0 <= i < |rows| ==> rows[i].localPort < 65536
    ensures forall v :: v in AllViews(rows) <==> exists i :: 0 <= i < |rows| && Shows(v, rows[i])
  {
    if rows != [] {
      var n := |rows| - 1;
      ViewsShow(rows[..n]);
      forall v
        ensures v in AllViews(rows) <==> exists i :: 0 <= i < |rows| && Shows(v, rows[i])
      {
        LastViews(rows[n], v);
        if v in AllViews(rows[..n]) {
          var i :| 0 <= i < n && Shows(v, rows[..n][i]);
          assert Shows(v, rows[i]);
        }
        if i :| 0 <= i < |rows| && Shows(v, rows[i]) {
          assert i < n ==> Shows(v, rows[..n][i]);
        }
      }
    }
  }

  lemma LastViews(r: Route, v: View)
    requires 1 <= r.routeId < 32768 && r.localPort < 65536
    ensures v in ViewsOf(r) <==> Shows(v, r)
  {
    assert ToU16(r.routeId) == r.routeId && ToU16(r.localPort) == r.localPort;
    assert WrappingAdd(r.routeId, BOTH_UDP_ROUTE_OFFSET) == r.routeId + 10000;
  }

  /** The bindings of the agent's hello name each view's id and its route's local port. */
  lemma BindingsShow(rows: seq<Route>, i: nat)
    requires SmallIds(rows) && (forall k :: 0 <= k < |rows| ==> rows[k].localPort < 65536) && i < |AllViews(rows)|
    ensures var b := BindingsOf(AllViews(rows))[i];
      exists k :: 0 <= k < |rows| && b.localPort == rows[k].localPort
        && (b.routeId == rows[k].routeId || (rows[k].kind.Both? && b.routeId == rows[k].routeId + 10000))
  {
    ViewsShow(rows);
    var v := AllViews(rows)[i];
    assert v in AllViews(rows);
    var k :| 0 <= k < |rows| && Shows(v, rows[k]);
  }
}
