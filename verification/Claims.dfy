module Options {
  datatype Option<+T> = None | Some(value: T)
}

/** Route modes and the signed tunnel claims of `natforge-proto`. */
module Claims {
  import opened Bytes
  import opened Options

  datatype RouteMode = Http | Https | Tcp | Udp | Both
  {
    predicate IsHostRouted() {
      Http? || Https?
    }

    function AsStr(): string {
      match this
      case Http => "http"
      case Https => "https"
      case Tcp => "tcp"
      case Udp => "udp"
      case Both => "both"
    }
  }

  /** The agent's map from route ids to a mode and a local port. */
  type RouteMap = map<U16, (RouteMode, U16)>

  datatype RouteClaim = RouteClaim(routeId: U16, mode: RouteMode, host: Option<string>,
                                   publicPort: Option<int>, srvService: Option<string>)

  datatype TunnelClaims = TunnelClaims(v: int, sub: int, tunnelId: int, subdomain: string, purpose: string,
                                       routes: seq<RouteClaim>, customDomain: Option<string>)

  datatype ShapeError =
    | UnsupportedVersion
    | NotATunnelToken
    | DuplicateRouteId(id: U16)
    | NeedsHostAndNoPort(id: U16)
    | NeedsPortAndNoHost(id: U16)

  predicate CarriesItsKind(r: RouteClaim)
  {
    if r.mode.IsHostRouted() then r.host.Some? && r.publicPort.None?
    else r.publicPort.Some? && r.host.None?
  }

  ghost predicate UniqueIds(routes: seq<RouteClaim>)
  {
    forall i, j :: 0 <= i < j < |routes| ==> routes[i].routeId != routes[j].routeId
  }

  /** The structural contract of a tunnel token. */
  ghost predicate WellShaped(c: TunnelClaims)
  {
    && c.v == 1 && c.purpose == "tunnel"
    && UniqueIds(c.routes)
    && forall i :: 0 <= i < |c.routes| ==> CarriesItsKind(c.routes[i])
  }

  ghost predicate SeenBefore(routes: seq<RouteClaim>, i: nat)
    requires i < |routes|
  {
    exists j :: 0 <= j < i && routes[j].routeId == routes[i].routeId
  }

  /** What is wrong with route `i`, given the routes before it. */
  ghost function Fault(routes: seq<RouteClaim>, i: nat): Option<ShapeError>
    requires i < |routes|
  {
    var r := routes[i];
    if SeenBefore(routes, i) then Some(DuplicateRouteId(r.routeId))
    else if CarriesItsKind(r) then None
    else if r.mode.IsHostRouted() then Some(NeedsHostAndNoPort(r.routeId))
    else Some(NeedsPortAndNoHost(r.routeId))
  }

  /** `validate_shape`: accepts exactly the well-shaped claims, and otherwise reports the
      first route at fault. */
  method ValidateShape(c: TunnelClaims) returns (error: Option<ShapeError>)
    ensures error == None <==> WellShaped(c)
    ensures error == None <==>
      && c.v == 1 && c.purpose == "tunnel"
      && (forall i, j :: 0 <= i < j < |c.routes| ==> c.routes[i].routeId != c.routes[j].routeId)
      && forall i :: 0 <= i < |c.routes| ==>
           if c.routes[i].mode.Http? || c.routes[i].mode.Https? then c.routes[i].host.Some? && c.routes[i].publicPort.None?
           else c.routes[i].host.None? && c.routes[i].publicPort.Some?
    ensures c.v != 1 ==> error == Some(UnsupportedVersion)
    ensures c.v == 1 && c.purpose != "tunnel" ==> error == Some(NotATunnelToken)
    ensures c.v == 1 && c.purpose == "tunnel" && error.Some? ==>
      exists i :: 0 <= i < |c.routes| && Fault(c.routes, i) == error
                  && forall j :: 0 <= j < i ==> Fault(c.routes, j) == None
  {
    if c.v != 1 { return Some(UnsupportedVersion); }
    if c.purpose != "tunnel" { return Some(NotATunnelToken); }
    var seen: set<U16> := {};
    for i := 0 to |c.routes|
      invariant seen == set j | 0 <= j < i :: c.routes[j].routeId
      invariant forall j :: 0 <= j < i ==> Fault(c.routes, j) == None
    {
      var r := c.routes[i];
      if r.routeId in seen {
        assert SeenBefore(c.routes, i) && Fault(c.routes, i) == Some(DuplicateRouteId(r.routeId));
        return Some(DuplicateRouteId(r.routeId));
      }
      assert !SeenBefore(c.routes, i);
      seen := seen + {r.routeId};
      match r.mode {
        case Http | Https =>
          if r.host == None || r.publicPort != None {
            assert Fault(c.routes, i) == Some(NeedsHostAndNoPort(r.routeId));
            return Some(NeedsHostAndNoPort(r.routeId));
          }
        case Tcp | Udp | Both =>
          if r.publicPort == None || r.host != None {
            assert Fault(c.routes, i) == Some(NeedsPortAndNoHost(r.routeId));
            return Some(NeedsPortAndNoHost(r.routeId));
          }
      }
    }
    error := None;
    forall i | 0 <= i < |c.routes|
      ensures !SeenBefore(c.routes, i) && CarriesItsKind(c.routes[i])
    {
      assert Fault(c.routes, i) == None;
    }
    forall i, j | 0 <= i < j < |c.routes|
      ensures c.routes[i].routeId != c.routes[j].routeId
    {
      assert !SeenBefore(c.routes, j);
    }
  }
}
