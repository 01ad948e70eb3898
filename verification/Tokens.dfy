/** From persisted routes to the signed claims, to the agent's bindings, to the node's check. */
module Tokens {
  import opened Options
  import opened Bytes
  import Claims
  import opened RouteRows
  import opened RouteEdit
  import opened Tables
  import opened Runs

  type RouteClaim = Claims.RouteClaim

  /** What the agent is told about a route. */
  datatype View = View(routeId: U16, mode: Claims.RouteMode, localPort: U16, caption: Option<string>)

  const BOTH_UDP_ROUTE_OFFSET: U16 := 10000

  /** `as u16` */
  function ToU16(n: int): U16
  {
    n % 65536
  }

  /** `wrapping_add` */
  function WrappingAdd(a: U16, b: U16): U16
  {
    (a + b) % 65536
  }

  function PortOf(r: Route): Option<int>
  {
    match r.publicPort case Some(p) => Some(ToU16(p)) case None => None
  }

  /** The claims of one route: a `both` route becomes a tcp half and a udp half. */
  function ClaimsOf(r: Route, subdomain: string, host: string): (cs: seq<RouteClaim>)
  {
    var id := ToU16(r.routeId);
    if r.kind.Both? then
      [Claims.RouteClaim(id, Claims.Tcp, None, PortOf(r), r.srv),
       Claims.RouteClaim(WrappingAdd(id, BOTH_UDP_ROUTE_OFFSET), Claims.Udp, None, PortOf(r), None)]
    else if r.kind.IsHostRouted() then
      [Claims.RouteClaim(id, r.kind, Some(subdomain + "." + host), None, None)]
    else
      [Claims.RouteClaim(id, r.kind, None, PortOf(r), r.srv)]
  }

  function ViewsOf(r: Route): (vs: seq<View>)
  {
    var id, port := ToU16(r.routeId), ToU16(r.localPort);
    if r.kind.Both? then
      [View(id, Claims.Tcp, port, r.caption), View(WrappingAdd(id, BOTH_UDP_ROUTE_OFFSET), Claims.Udp, port, r.caption)]
    else
      [View(id, r.kind, port, r.caption)]
  }

  function AllClaims(rows: seq<Route>, subdomain: string, host: string): seq<RouteClaim>
  {
    if rows == [] then []
    else AllClaims(rows[..|rows| - 1], subdomain, host) + ClaimsOf(rows[|rows| - 1], subdomain, host)
  }

  function AllViews(rows: seq<Route>): seq<View>
  {
    if rows == [] then [] else AllViews(rows[..|rows| - 1]) + ViewsOf(rows[|rows| - 1])
  }

  /** The claims of the token for tunnel `t`. */
  function TokenFor(db: Db, t: int): Claims.TunnelClaims
    requires t in db.tunnels && t in db.routes
  {
    var tunnel := db.tunnels[t];
    Claims.TunnelClaims(1, tunnel.owner, t, tunnel.subdomain, "tunnel",
                        AllClaims(db.routes[t], tunnel.subdomain, tunnel.publicHost), tunnel.customDomain)
  }

  /** `build_reservation` */
  method BuildReservation(db: Db, t: int) returns (claims: Claims.TunnelClaims, views: seq<View>)
    requires t in db.tunnels && t in db.routes
    ensures claims == TokenFor(db, t) && views == AllViews(db.routes[t])
  {
    var rows, tunnel := db.routes[t], db.tunnels[t];
    var routes: seq<RouteClaim> := [];
    views := [];
    for i := 0 to |rows|
      invariant routes == AllClaims(rows[..i], tunnel.subdomain, tunnel.publicHost)
      invariant views == AllViews(rows[..i])
    {
      assert rows[..i + 1][..i] == rows[..i];
      routes := routes + ClaimsOf(rows[i], tunnel.subdomain, tunnel.publicHost);
      views := views + ViewsOf(rows[i]);
    }
    assert rows[..|rows|] == rows;
    claims := Claims.TunnelClaims(1, tunnel.owner, t, tunnel.subdomain, "tunnel", routes, tunnel.customDomain);
  }

  // ------------------------------------------------------------------
  // Shape
  // ------------------------------------------------------------------

  /** The ids a route has on the wire. */
  function WireIds(r: Route): set<U16>
  {
    var id := ToU16(r.routeId);
    if r.kind.Both? then {id, WrappingAdd(id, BOTH_UDP_ROUTE_OFFSET)} else {id}
  }

  function ClaimIds(cs: seq<RouteClaim>): set<U16>
  {
    set i | 0 <= i < |cs| :: cs[i].routeId
  }

  function RowIds(rows: seq<Route>): set<U16>
  {
    if rows == [] then {} else RowIds(rows[..|rows| - 1]) + WireIds(rows[|rows| - 1])
  }

  lemma ClaimIdsConcat(a: seq<RouteClaim>, b: seq<RouteClaim>)
    ensures ClaimIds(a + b) == ClaimIds(a) + ClaimIds(b)
  {
    forall x | x in ClaimIds(a) + ClaimIds(b)
      ensures x in ClaimIds(a + b)
    {
      if x in ClaimIds(a) {
        var i :| 0 <= i < |a| && a[i].routeId == x;
        assert (a + b)[i].routeId == x;
      } else {
        var i :| 0 <= i < |b| && b[i].routeId == x;
        assert (a + b)[|a| + i].routeId == x;
      }
    }
  }

  lemma UniqueConcat(a: seq<RouteClaim>, b: seq<RouteClaim>)
    ensures Claims.UniqueIds(a + b) <==> Claims.UniqueIds(a) && Claims.UniqueIds(b) && ClaimIds(a) !! ClaimIds(b)
  {
    var s := a + b;
    if Claims.UniqueIds(s) {
      forall i, j | 0 <= i < j < |a|
        ensures a[i].routeId != a[j].routeId
      {
        assert s[i].routeId != s[j].routeId;
      }
      forall i, j | 0 <= i < j < |b|
        ensures b[i].routeId != b[j].routeId
      {
        assert s[|a| + i].routeId != s[|a| + j].routeId;
      }
      forall i, j | 0 <= i < |a| && 0 <= j < |b|
        ensures a[i].routeId != b[j].routeId
      {
        assert s[i].routeId != s[|a| + j].routeId;
      }
    }
    if Claims.UniqueIds(a) && Claims.UniqueIds(b) && ClaimIds(a) !! ClaimIds(b) {
      forall i, j | 0 <= i < j < |s|
        ensures s[i].routeId != s[j].routeId
      {
        if i < |a| <= j {
          assert a[i].routeId in ClaimIds(a) && b[j - |a|].routeId in ClaimIds(b);
        }
      }
    }
  }

  lemma OneRoute(r: Route, subdomain: string, host: string)
    ensures ClaimIds(ClaimsOf(r, subdomain, host)) == WireIds(r)
    ensures Claims.UniqueIds(ClaimsOf(r, subdomain, host))
  {
    var cs := ClaimsOf(r, subdomain, host);
    assert cs[0].routeId == ToU16(r.routeId);
    if r.kind.Both? {
      assert cs[1].routeId == WrappingAdd(ToU16(r.routeId), BOTH_UDP_ROUTE_OFFSET);
    }
  }

  lemma {:induction false} ClaimIdsAreRowIds(rows: seq<Route>, subdomain: string, host: string)
    ensures ClaimIds(AllClaims(rows, subdomain, host)) == RowIds(rows)
  {
    if rows != [] {
      var n := |rows| - 1;
      ClaimIdsAreRowIds(rows[..n], subdomain, host);
      ClaimIdsConcat(AllClaims(rows[..n], subdomain, host), ClaimsOf(rows[n], subdomain, host));
      OneRoute(rows[n], subdomain, host);
    }
  }

  lemma {:induction false} RowIdsMeans(rows: seq<Route>, x: U16)
    ensures x in RowIds(rows) <==> exists i :: 0 <= i < |rows| && x in WireIds(rows[i])
  {
    if rows != [] {
      var n := |rows| - 1;
      RowIdsMeans(rows[..n], x);
      if x in RowIds(rows[..n]) {
        var i :| 0 <= i < n && x in WireIds(rows[..n][i]);
        assert x in WireIds(rows[i]);
      }
      if i :| 0 <= i < |rows| && x in WireIds(rows[i]) {
        if i < n {
          assert x in WireIds(rows[..n][i]);
        }
      }
    }
  }

  /** The udp half of one route has the id of another route. */
  predicate HalfMeets(r: Route, s: Route)
  {
    r.kind.Both? && s.routeId == r.routeId + BOTH_UDP_ROUTE_OFFSET
  }

  ghost predicate NoHalfMeets(rows: seq<Route>)
  {
    forall i, j :: 0 <= i < |rows| && 0 <= j < |rows| ==> !HalfMeets(rows[i], rows[j])
  }

  /** Ids fit a positive SMALLINT, as in the `routes` table. */
  ghost predicate SmallIds(rows: seq<Route>)
  {
    forall i :: 0 <= i < |rows| ==> 1 <= rows[i].routeId < 32768
  }

  lemma WireIdsMeet(r: Route, s: Route)
    requires 1 <= r.routeId < 32768 && 1 <= s.routeId < 32768 && r.routeId != s.routeId
    ensures WireIds(r) !! WireIds(s) <==> !HalfMeets(r, s) && !HalfMeets(s, r)
  {
    assert ToU16(r.routeId) == r.routeId && ToU16(s.routeId) == s.routeId;
    assert WrappingAdd(r.routeId, BOTH_UDP_ROUTE_OFFSET) == r.routeId + 10000;
    assert WrappingAdd(s.routeId, BOTH_UDP_ROUTE_OFFSET) == s.routeId + 10000;
    assert r.routeId in WireIds(r) && s.routeId in WireIds(s);
  }

  lemma LastMeets(rows: seq<Route>)
    requires rows != [] && SmallIds(rows) && DistinctIds(rows)
    ensures var n := |rows| - 1;
      RowIds(rows[..n]) !! WireIds(rows[n])
      <==> forall i :: 0 <= i < n ==> !HalfMeets(rows[i], rows[n]) && !HalfMeets(rows[n], rows[i])
  {
    var n := |rows| - 1;
    forall i | 0 <= i < n
      ensures WireIds(rows[i]) !! WireIds(rows[n]) <==> !HalfMeets(rows[i], rows[n]) && !HalfMeets(rows[n], rows[i])
      ensures WireIds(rows[i]) <= RowIds(rows[..n])
    {
      WireIdsMeet(rows[i], rows[n]);
      forall x | x in WireIds(rows[i])
        ensures x in RowIds(rows[..n])
      {
        RowIdsMeans(rows[..n], x);
        assert x in WireIds(rows[..n][i]);
      }
    }
    if forall i :: 0 <= i < n ==> WireIds(rows[i]) !! WireIds(rows[n]) {
      forall x | x in RowIds(rows[..n])
        ensures x !in WireIds(rows[n])
      {
        RowIdsMeans(rows[..n], x);
        var i :| 0 <= i < n && x in WireIds(rows[..n][i]);
        assert WireIds(rows[i]) !! WireIds(rows[n]);
      }
    }
  }

  lemma NoHalfMeetsStep(rows: seq<Route>)
    requires rows != []
    ensures var n := |rows| - 1;
      NoHalfMeets(rows)
      <==> NoHalfMeets(rows[..n]) && forall i :: 0 <= i < n ==> !HalfMeets(rows[i], rows[n]) && !HalfMeets(rows[n], rows[i])
  {
    var n := |rows| - 1;
    if NoHalfMeets(rows) {
      forall i, j | 0 <= i < n && 0 <= j < n
        ensures !HalfMeets(rows[..n][i], rows[..n][j])
      {
        assert !HalfMeets(rows[i], rows[j]);
      }
    }
    if NoHalfMeets(rows[..n]) && forall i :: 0 <= i < n ==> !HalfMeets(rows[i], rows[n]) && !HalfMeets(rows[n], rows[i]) {
      forall i, j | 0 <= i < |rows| && 0 <= j < |rows|
        ensures !HalfMeets(rows[i], rows[j])
      {
        if i < n && j < n {
          assert !HalfMeets(rows[..n][i], rows[..n][j]);
        }
      }
    }
  }

  lemma {:induction false} UniqueClaimsIff(rows: seq<Route>, subdomain: string, host: string)
    requires SmallIds(rows) && DistinctIds(rows)
    ensures Claims.UniqueIds(AllClaims(rows, subdomain, host)) <==> NoHalfMeets(rows)
  {
    if rows != [] {
      var n := |rows| - 1;
      UniqueClaimsIff(rows[..n], subdomain, host);
      UniqueConcat(AllClaims(rows[..n], subdomain, host), ClaimsOf(rows[n], subdomain, host));
      OneRoute(rows[n], subdomain, host);
      ClaimIdsAreRowIds(rows[..n], subdomain, host);
      LastMeets(rows);
      NoHalfMeetsStep(rows);
    }
  }

  lemma {:induction false} ClaimsCarryTheirKind(rows: seq<Route>, subdomain: string, host: string)
    requires PortsFit(rows)
    ensures forall i :: 0 <= i < |AllClaims(rows, subdomain, host)| ==>
      Claims.CarriesItsKind(AllClaims(rows, subdomain, host)[i]) && !AllClaims(rows, subdomain, host)[i].mode.Both?
  {
    if rows != [] {
      ClaimsCarryTheirKind(rows[..|rows| - 1], subdomain, host);
      var r := rows[|rows| - 1];
      assert r.publicPort.Some? <==> Dedicated(r);
    }
  }

  /** The node accepts the shape of a minted token exactly if no udp half of a `both` route takes
      the id of another route. */
  lemma TokenShapeIff(db: Db, t: int)
    requires Sound(db) && t in db.tunnels && SmallIds(db.routes[t])
    ensures Claims.WellShaped(TokenFor(db, t)) <==> NoHalfMeets(db.routes[t])
  {
    var rows, tunnel := db.routes[t], db.tunnels[t];
    assert RowsOk(tunnel, rows);
    UniqueClaimsIff(rows, tunnel.subdomain, tunnel.publicHost);
    ClaimsCarryTheirKind(rows, tunnel.subdomain, tunnel.publicHost);
  }

  /** In every run, the token of a tunnel whose routes were edited at most 2498 times has the right
      shape: unique ids without wrap-around, no `both`, a port or a host as each mode needs. */
  lemma MintedTokensAccepted(reserved: set<string>, events: seq<Event>, t: int)
    requires t in Run(reserved, events).tunnels && t in Run(reserved, events).routes
    requires Edits(events, t) <= 2498
    ensures Claims.WellShaped(TokenFor(Run(reserved, events), t))
  {
    var db := Run(reserved, events);
    RunIsSound(reserved, events);
    RunMaxId(reserved, events, t);
    MaxIdBounds(db.routes[t]);
    assert RowsOk(db.tunnels[t], db.routes[t]);
    TokenShapeIff(db, t);
  }

  // ------------------------------------------------------------------
  // Bindings
  // ------------------------------------------------------------------

  datatype Binding = Binding(routeId: U16, localPort: U16)

  function RouteMapOf(views: seq<View>): Claims.RouteMap
  {
    if views == [] then map[]
    else
      var v := views[|views| - 1];
      RouteMapOf(views[..|views| - 1])[v.routeId := (v.mode, v.localPort)]
  }

  function BindingsOf(views: seq<View>): (bs: seq<Binding>)
    ensures |bs| == |views|
  {
    seq(|views|, i requires 0 <= i < |views| => Binding(views[i].routeId, views[i].localPort))
  }

  /** The first loops of `connect_and_serve`. */
  method Bindings(views: seq<View>) returns (routes: Claims.RouteMap, bindings: seq<Binding>)
    ensures routes == RouteMapOf(views) && bindings == BindingsOf(views)
  {
    routes := map[];
    for i := 0 to |views|
      invariant routes == RouteMapOf(views[..i])
    {
      assert views[..i + 1][..i] == views[..i];
      routes := routes[views[i].routeId := (views[i].mode, views[i].localPort)];
    }
    assert views[..|views|] == views;
    bindings := [];
    for i := 0 to |views|
      invariant bindings == BindingsOf(views)[..i]
    {
      bindings := bindings + [Binding(views[i].routeId, views[i].localPort)];
    }
  }

  /** The node's check of a hello: every binding is for a granted route, else the first that is not. */
  method Authorize(claims: seq<RouteClaim>, bindings: seq<Binding>) returns (refused: Option<U16>)
    ensures refused == None <==> forall i :: 0 <= i < |bindings| ==> bindings[i].routeId in ClaimIds(claims)
    ensures refused.Some? ==> refused.value !in ClaimIds(claims)
  {
    var granted: map<U16, RouteClaim> := map[];
    for i := 0 to |claims|
      invariant granted.Keys == set j | 0 <= j < i :: claims[j].routeId
    {
      granted := granted[claims[i].routeId := claims[i]];
    }
    for i := 0 to |bindings|
      invariant forall j :: 0 <= j < i ==> bindings[j].routeId in ClaimIds(claims)
    {
      if bindings[i].routeId !in granted {
        return Some(bindings[i].routeId);
      }
    }
    return None;
  }

  lemma {:induction false} ViewsMatchClaims(rows: seq<Route>, subdomain: string, host: string)
    ensures var views, claims := AllViews(rows), AllClaims(rows, subdomain, host);
      |views| == |claims| && forall i :: 0 <= i < |views| ==>
        views[i].routeId == claims[i].routeId && views[i].mode == claims[i].mode
  {
    if rows != [] {
      ViewsMatchClaims(rows[..|rows| - 1], subdomain, host);
    }
  }

  /** Every binding of the agent's hello is granted by the token minted with its reservation. */
  lemma BindingsGranted(db: Db, t: int)
    requires t in db.tunnels && t in db.routes
    ensures var bindings := BindingsOf(AllViews(db.routes[t]));
      forall i :: 0 <= i < |bindings| ==> bindings[i].routeId in ClaimIds(TokenFor(db, t).routes)
  {
    ViewsMatchClaims(db.routes[t], db.tunnels[t].subdomain, db.tunnels[t].publicHost);
    var claims := TokenFor(db, t).routes;
    var bindings := BindingsOf(AllViews(db.routes[t]));
    forall i | 0 <= i < |bindings|
      ensures bindings[i].routeId in ClaimIds(claims)
    {
      assert bindings[i].routeId == claims[i].routeId;
    }
  }

  lemma {:induction false} RouteMapFinds(views: seq<View>, i: nat)
    requires i < |views| && forall j :: 0 <= j < |views| && j != i ==> views[j].routeId != views[i].routeId
    ensures views[i].routeId in RouteMapOf(views) && RouteMapOf(views)[views[i].routeId] == (views[i].mode, views[i].localPort)
  {
    var n := |views| - 1;
    if i < n {
      RouteMapFinds(views[..n], i);
    }
  }

  lemma {:induction false} ViewsOfRow(rows: seq<Route>, i: nat, v: View)
    requires i < |rows| && v in ViewsOf(rows[i])
    ensures v in AllViews(rows)
  {
    var n := |rows| - 1;
    if i < n {
      ViewsOfRow(rows[..n], i, v);
    }
  }

  /** A stream the node opens for any half of any route reaches, through the agent's map, the mode
      and local port of that route and of no other. */
  lemma StreamsReachTheirRoute(db: Db, t: int, i: nat, v: View)
    requires Sound(db) && t in db.tunnels && SmallIds(db.routes[t]) && NoHalfMeets(db.routes[t])
    requires i < |db.routes[t]| && v in ViewsOf(db.routes[t][i])
    ensures var routes := RouteMapOf(AllViews(db.routes[t]));
      v.routeId in routes && routes[v.routeId] == (v.mode, ToU16(db.routes[t][i].localPort))
  {
    var rows := db.routes[t];
    TokenShapeIff(db, t);
    ViewsMatchClaims(rows, db.tunnels[t].subdomain, db.tunnels[t].publicHost);
    ViewsOfRow(rows, i, v);
    var views, claims := AllViews(rows), TokenFor(db, t).routes;
    var k :| 0 <= k < |views| && views[k] == v;
    forall j | 0 <= j < |views| && j != k
      ensures views[j].routeId != views[k].routeId
    {
      assert claims[j].routeId != claims[k].routeId;
    }
    RouteMapFinds(views, k);
  }
}
