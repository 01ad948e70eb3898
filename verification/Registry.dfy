/** The node's route registry: sessions register into and tear down six route maps, one lock
    section at a time, interleaved with each other and with stop calls. */
module Registry {
  import opened Bytes
  import opened Options
  import opened Claims
  import opened History

  type TunnelId = int

  type SessionId = nat

  /** A key of one of the six route maps; the constructor says which map. */
  datatype Key =
    | HttpHost(subdomain: string)
    | HttpsHost(subdomain: string)
    | TcpPort(port: int)
    | UdpPort(port: int)
    | CustomHttp(host: string)
    | CustomHttps(host: string)

  /** A route handle. `session` stands for the channel to the session's driver. */
  datatype Handle = Handle(tunnel: TunnelId, routeId: U16, session: SessionId)

  type Routes = map<Key, Handle>

  /** What a verified token grants, as `handle_agent` uses it. */
  datatype Plan = Plan(tunnel: TunnelId, subdomain: string, customDomain: Option<string>, routes: seq<RouteClaim>)

  // ------------------------------------------------------------------
  // The lock sections
  // ------------------------------------------------------------------

  function PortOf(r: RouteClaim): int
  {
    if r.publicPort.Some? then r.publicPort.value else 0
  }

  /** The keys one granted route is registered under, in order. */
  function KeysOfRoute(p: Plan, r: RouteClaim): (ks: seq<Key>)
  {
    match r.mode
    case Http => (if p.customDomain.Some? then [CustomHttp(p.customDomain.value)] else []) + [HttpHost(p.subdomain)]
    case Https => (if p.customDomain.Some? then [CustomHttps(p.customDomain.value)] else []) + [HttpsHost(p.subdomain)]
    case Tcp => [TcpPort(PortOf(r))]
    case Udp => [UdpPort(PortOf(r))]
    case Both => []
  }

  /** The registrations of a session, one lock section each: key and route id. */
  function Registrations(p: Plan, routes: seq<RouteClaim>): (rs: seq<(Key, U16)>)
  {
    if routes == [] then []
    else
      var r := routes[|routes| - 1];
      var ks := KeysOfRoute(p, r);
      Registrations(p, routes[..|routes| - 1]) + WithId(ks, r.routeId)
  }

  function WithId(ks: seq<Key>, id: U16): (rs: seq<(Key, U16)>)
  {
    seq(|ks|, i requires 0 <= i < |ks| => (ks[i], id))
  }

  function Steps(p: Plan): seq<(Key, U16)>
  {
    Registrations(p, p.routes)
  }

  /** The order in which `teardown` takes the locks; section 0 is the `tunnels` map. */
  const SECTIONS := 7

  function SectionOf(k: Key): (n: nat)
    ensures 1 <= n < SECTIONS
  {
    match k
    case HttpHost(_) => 1
    case HttpsHost(_) => 2
    case TcpPort(_) => 3
    case UdpPort(_) => 4
    case CustomHttp(_) => 5
    case CustomHttps(_) => 6
  }

  /** The arguments of `teardown`. */
  datatype Ticket = Ticket(tunnel: TunnelId, subdomain: string, ports: seq<int>, udpPorts: seq<int>,
                           customDomain: Option<string>)

  /** Section `n` of a teardown looks at this key. */
  predicate Covers(t: Ticket, n: nat, k: Key)
  {
    SectionOf(k) == n &&
    match k
    case HttpHost(s) => s == t.subdomain
    case HttpsHost(s) => s == t.subdomain
    case TcpPort(p) => p in t.ports
    case UdpPort(p) => p in t.udpPorts
    case CustomHttp(h) => t.customDomain == Some(h)
    case CustomHttps(h) => t.customDomain == Some(h)
  }

  /** One teardown section: remove the covered entries this tunnel still owns. */
  function RemoveOwned(routes: Routes, t: Ticket, n: nat): Routes
  {
    map k | k in routes && !(Covers(t, n, k) && routes[k].tunnel == t.tunnel) :: routes[k]
  }

  function PortsOf(routes: seq<RouteClaim>, mode: RouteMode): (ps: seq<int>)
  {
    if routes == [] then []
    else
      var r := routes[|routes| - 1];
      PortsOf(routes[..|routes| - 1], mode) + (if r.mode == mode then [PortOf(r)] else [])
  }

  /** The teardown arguments a session collects while it registers. */
  function TicketOf(p: Plan): Ticket
  {
    Ticket(p.tunnel, p.subdomain, PortsOf(p.routes, Tcp), PortsOf(p.routes, Udp), p.customDomain)
  }

  lemma {:induction false} PortsCollected(routes: seq<RouteClaim>, mode: RouteMode, i: nat)
    requires i < |routes| && routes[i].mode == mode
    ensures PortOf(routes[i]) in PortsOf(routes, mode)
  {
    var n := |routes| - 1;
    if i < n {
      PortsCollected(routes[..n], mode, i);
    }
  }

  lemma RouteKeyIsCovered(p: Plan, j: nat, k: Key)
    requires j < |p.routes| && k in KeysOfRoute(p, p.routes[j])
    ensures Covers(TicketOf(p), SectionOf(k), k)
  {
    if p.routes[j].mode == Tcp {
      PortsCollected(p.routes, Tcp, j);
    } else if p.routes[j].mode == Udp {
      PortsCollected(p.routes, Udp, j);
    }
  }

  /** Every key a session registers is covered by its own teardown. */
  lemma {:induction false} RegisteredIsCovered(p: Plan, n: nat, i: nat)
    requires n <= |p.routes| && i < |Registrations(p, p.routes[..n])|
    ensures var k := Registrations(p, p.routes[..n])[i].0; Covers(TicketOf(p), SectionOf(k), k)
  {
    assert p.routes[..n][..n - 1] == p.routes[..n - 1];
    var front := Registrations(p, p.routes[..n - 1]);
    if i < |front| {
      RegisteredIsCovered(p, n - 1, i);
    } else {
      var ks := KeysOfRoute(p, p.routes[n - 1]);
      RouteKeyIsCovered(p, n - 1, ks[i - |front|]);
    }
  }

  // ------------------------------------------------------------------
  // The sequential code
  // ------------------------------------------------------------------

  function InsertAll(routes: Routes, p: Plan, s: SessionId, rs: seq<(Key, U16)>): Routes
  {
    if rs == [] then routes
    else
      var (k, id) := rs[|rs| - 1];
      InsertAll(routes, p, s, rs[..|rs| - 1])[k := Handle(p.tunnel, id, s)]
  }

  lemma {:induction false} InsertAllAppend(routes: Routes, p: Plan, s: SessionId, a: seq<(Key, U16)>, b: seq<(Key, U16)>)
    ensures InsertAll(routes, p, s, a + b) == InsertAll(InsertAll(routes, p, s, a), p, s, b)
  {
    if b == [] {
      assert a + b == a;
    } else {
      var n := |b| - 1;
      assert (a + b)[..|a + b| - 1] == a + b[..n];
      InsertAllAppend(routes, p, s, a, b[..n]);
    }
  }

  function RemoveSections(routes: Routes, t: Ticket, n: nat): Routes
  {
    if n == 0 then routes else RemoveOwned(RemoveSections(routes, t, n - 1), t, n - 1)
  }

  class CoreState {
    var routes: Routes

    constructor ()
      ensures routes == map[]
    {
      routes := map[];
    }

    /** Step 5 of `handle_agent`, when nothing else runs: register every planned route and
        collect the ports for the teardown. */
    method RegisterRoutes(p: Plan, s: SessionId) returns (ticket: Ticket)
      modifies this
      ensures routes == InsertAll(old(routes), p, s, Steps(p))
      ensures ticket == TicketOf(p)
    {
      var ports, udpPorts := [], [];
      for i := 0 to |p.routes|
        invariant ports == PortsOf(p.routes[..i], Tcp) && udpPorts == PortsOf(p.routes[..i], Udp)
        invariant routes == InsertAll(old(routes), p, s, Registrations(p, p.routes[..i]))
      {
        var r := p.routes[i];
        assert p.routes[..i + 1][..i] == p.routes[..i];
        if r.mode == Tcp {
          ports := ports + [PortOf(r)];
        } else if r.mode == Udp {
          udpPorts := udpPorts + [PortOf(r)];
        }
        InsertAllAppend(old(routes), p, s, Registrations(p, p.routes[..i]), WithId(KeysOfRoute(p, r), r.routeId));
        RegisterRoute(p, r, s);
      }
      assert p.routes[..|p.routes|] == p.routes;
      ticket := Ticket(p.tunnel, p.subdomain, ports, udpPorts, p.customDomain);
    }

    /** The inserts of one route. */
    method RegisterRoute(p: Plan, r: RouteClaim, s: SessionId)
      modifies this
      ensures routes == InsertAll(old(routes), p, s, WithId(KeysOfRoute(p, r), r.routeId))
    {
      var ks := KeysOfRoute(p, r);
      ghost var rs := WithId(ks, r.routeId);
      for j := 0 to |ks|
        invariant routes == InsertAll(old(routes), p, s, rs[..j])
      {
        assert rs[..j + 1][..j] == rs[..j];
        routes := routes[ks[j] := Handle(p.tunnel, r.routeId, s)];
      }
      assert rs[..|ks|] == rs;
    }

    /** `teardown`, when nothing else runs: lock section by lock section, port by port. */
    method Teardown(t: Ticket)
      modifies this
      ensures routes == RemoveSections(old(routes), t, SECTIONS)
    {
      ghost var r0 := routes;
      assert RemoveOwned(r0, t, 0) == r0 == RemoveSections(r0, t, 1);
      RemoveIfOwned(HttpHost(t.subdomain), t, 1);
      assert routes == RemoveSections(r0, t, 2);
      RemoveIfOwned(HttpsHost(t.subdomain), t, 2);
      assert routes == RemoveSections(r0, t, 3);
      RemovePorts(t);
      assert routes == RemoveSections(r0, t, 4);
      RemoveUdpPorts(t);
      assert routes == RemoveSections(r0, t, 5);
      if t.customDomain.Some? {
        RemoveIfOwned(CustomHttp(t.customDomain.value), t, 5);
        assert routes == RemoveSections(r0, t, 6);
        RemoveIfOwned(CustomHttps(t.customDomain.value), t, 6);
      } else {
        assert RemoveOwned(routes, t, 5) == routes && RemoveOwned(routes, t, 6) == routes;
        assert routes == RemoveSections(r0, t, 6);
      }
    }

    /** The section of a map in which at most one key concerns the tunnel. */
    method RemoveIfOwned(k: Key, t: Ticket, n: nat)
      requires Covers(t, n, k) && n in {1, 2, 5, 6}
      modifies this
      ensures routes == RemoveOwned(old(routes), t, n)
    {
      if k in routes && routes[k].tunnel == t.tunnel {
        routes := routes - {k};
      }
    }

    method RemovePorts(t: Ticket)
      modifies this
      ensures routes == RemoveOwned(old(routes), t, 3)
    {
      for i := 0 to |t.ports|
        invariant routes == RemoveOwned(old(routes), t.(ports := t.ports[..i]), 3)
      {
        var k := TcpPort(t.ports[i]);
        if k in routes && routes[k].tunnel == t.tunnel {
          routes := routes - {k};
        }
        assert t.ports[..i + 1] == t.ports[..i] + [t.ports[i]];
      }
      assert t.ports[..|t.ports|] == t.ports;
    }

    method RemoveUdpPorts(t: Ticket)
      modifies this
      ensures routes == RemoveOwned(old(routes), t, 4)
    {
      for i := 0 to |t.udpPorts|
        invariant routes == RemoveOwned(old(routes), t.(udpPorts := t.udpPorts[..i]), 4)
      {
        var k := UdpPort(t.udpPorts[i]);
        if k in routes && routes[k].tunnel == t.tunnel {
          routes := routes - {k};
        }
        assert t.udpPorts[..i + 1] == t.udpPorts[..i] + [t.udpPorts[i]];
      }
      assert t.udpPorts[..|t.udpPorts|] == t.udpPorts;
    }
  }

  // ------------------------------------------------------------------
  // The interleaved machine
  // ------------------------------------------------------------------

  datatype Phase =
    | Arrived
    | Rejected
    | Registering(next: nat)
    | Running
    | TearingDown(next: nat)
    | Gone

  datatype Session = Session(plan: Plan, phase: Phase)

  /** A stop call carries the ticket it read from `tunnels`, and its next teardown section. */
  datatype StopCall = StopCall(ticket: Ticket, next: nat)

  datatype World = World(routes: Routes, tunnels: map<string, Ticket>, sessions: seq<Session>, stops: seq<StopCall>)

  datatype Action =
    | Arrive(plan: Plan)
    | PreCheck(s: SessionId)
    | FailBind(s: SessionId)
    | Register(s: SessionId)
    | End(s: SessionId)
    | TeardownSection(s: SessionId)
    | Stop(subdomain: string)
    | StopSection(i: nat)

  const EMPTY := World(map[], map[], [], [])

  /** Ownership pre-check: the subdomain is free or already this tunnel's. */
  predicate MayProceed(w: World, p: Plan)
  {
    && (HttpHost(p.subdomain) in w.routes ==> w.routes[HttpHost(p.subdomain)].tunnel == p.tunnel)
    && (HttpsHost(p.subdomain) in w.routes ==> w.routes[HttpsHost(p.subdomain)].tunnel == p.tunnel)
  }

  function SetPhase(w: World, s: SessionId, ph: Phase): World
    requires s < |w.sessions|
  {
    w.(sessions := w.sessions[s := w.sessions[s].(phase := ph)])
  }

  /** Section `n` of a teardown with ticket `t`; section 0 drops the `tunnels` entry of the
      subdomain whoever owns it. */
  function Section(w: World, t: Ticket, n: nat): World
  {
    if n == 0 then w.(tunnels := w.tunnels - {t.subdomain})
    else w.(routes := RemoveOwned(w.routes, t, n))
  }

  /** One atomic step. An action that is not enabled changes nothing. */
  function Step(w: World, a: Action): World
  {
    match a
    case Arrive(p) => w.(sessions := w.sessions + [Session(p, Arrived)])
    case PreCheck(s) =>
      if s >= |w.sessions| || w.sessions[s].phase != Arrived then w
      else SetPhase(w, s, if MayProceed(w, w.sessions[s].plan) then Registering(0) else Rejected)
    case FailBind(s) =>
      if s >= |w.sessions| || w.sessions[s].phase != Registering(0) then w else SetPhase(w, s, Rejected)
    case Register(s) =>
      if s >= |w.sessions| || !w.sessions[s].phase.Registering? then w else RegisterStep(w, s)
    case End(s) =>
      if s >= |w.sessions| || w.sessions[s].phase != Running then w else SetPhase(w, s, TearingDown(0))
    case TeardownSection(s) =>
      if s >= |w.sessions| || !w.sessions[s].phase.TearingDown? then w else TeardownStep(w, s)
    case Stop(sub) =>
      if sub !in w.tunnels then w else w.(stops := w.stops + [StopCall(w.tunnels[sub], 0)])
    case StopSection(i) =>
      if i >= |w.stops| || w.stops[i].next >= SECTIONS then w else StopStep(w, i)
  }

  /** Insert under the next key, or, when all are in, install the tunnel. */
  function RegisterStep(w: World, s: SessionId): World
    requires s < |w.sessions| && w.sessions[s].phase.Registering?
  {
    var p := w.sessions[s].plan;
    var n := w.sessions[s].phase.next;
    if n < |Steps(p)| then
      SetPhase(w, s, Registering(n + 1)).(routes := w.routes[Steps(p)[n].0 := Handle(p.tunnel, Steps(p)[n].1, s)])
    else
      SetPhase(w, s, Running).(tunnels := w.tunnels[p.subdomain := TicketOf(p)])
  }

  function TeardownStep(w: World, s: SessionId): World
    requires s < |w.sessions| && w.sessions[s].phase.TearingDown?
  {
    var n := w.sessions[s].phase.next;
    if n < SECTIONS then SetPhase(Section(w, TicketOf(w.sessions[s].plan), n), s, TearingDown(n + 1))
    else SetPhase(w, s, Gone)
  }

  function StopStep(w: World, i: nat): World
    requires i < |w.stops|
  {
    var c := w.stops[i];
    Section(w, c.ticket, c.next).(stops := w.stops[i := c.(next := c.next + 1)])
  }

  function Run(actions: seq<Action>): (w: World)
  {
    if actions == [] then EMPTY else Step(Run(actions[..|actions| - 1]), actions[|actions| - 1])
  }

  // ------------------------------------------------------------------
  // No leak
  // ------------------------------------------------------------------

  /** The session has inserted under `k` and has not yet passed its own teardown of that map. */
  predicate Holds(s: Session, k: Key)
  {
    match s.phase
    case Arrived => false
    case Rejected => false
    case Registering(n) => RegisteredBefore(s.plan, k, n)
    case Running => RegisteredBefore(s.plan, k, |Steps(s.plan)|)
    case TearingDown(n) => n <= SectionOf(k) && RegisteredBefore(s.plan, k, |Steps(s.plan)|)
    case Gone => false
  }

  predicate RegisteredBefore(p: Plan, k: Key, n: nat)
  {
    exists i :: 0 <= i < n && i < |Steps(p)| && Steps(p)[i].0 == k
  }

  /** Every entry is held by the very session whose handle it is. */
  ghost predicate Justified(w: World)
  {
    forall k :: k in w.routes ==>
      var h := w.routes[k];
      h.session < |w.sessions| && w.sessions[h.session].plan.tunnel == h.tunnel && Holds(w.sessions[h.session], k)
  }

  lemma HoldsIsCovered(s: Session, k: Key)
    requires Holds(s, k)
    ensures Covers(TicketOf(s.plan), SectionOf(k), k)
  {
    var n := match s.phase case Registering(n) => n case _ => |Steps(s.plan)|;
    var i :| 0 <= i < n && i < |Steps(s.plan)| && Steps(s.plan)[i].0 == k;
    assert s.plan.routes[..|s.plan.routes|] == s.plan.routes;
    RegisteredIsCovered(s.plan, |s.plan.routes|, i);
  }

  lemma RegisterKeepsJustified(w: World, s: SessionId)
    requires Justified(w) && s < |w.sessions| && w.sessions[s].phase.Registering?
    ensures Justified(RegisterStep(w, s))
  {
    var w' := RegisterStep(w, s);
    var p, n := w.sessions[s].plan, w.sessions[s].phase.next;
    forall k | k in w'.routes
      ensures var h := w'.routes[k];
        h.session < |w'.sessions| && w'.sessions[h.session].plan.tunnel == h.tunnel && Holds(w'.sessions[h.session], k)
    {
      if n < |Steps(p)| && k == Steps(p)[n].0 {
        assert RegisteredBefore(p, k, n + 1);
      }
    }
  }

  lemma TeardownKeepsJustified(w: World, s: SessionId)
    requires Justified(w) && s < |w.sessions| && w.sessions[s].phase.TearingDown?
    ensures Justified(TeardownStep(w, s))
  {
    var w' := TeardownStep(w, s);
    var n := w.sessions[s].phase.next;
    forall k | k in w'.routes
      ensures var h := w'.routes[k];
        h.session < |w'.sessions| && w'.sessions[h.session].plan.tunnel == h.tunnel && Holds(w'.sessions[h.session], k)
    {
      var h := w.routes[k];
      if h.session == s {
        HoldsIsCovered(w.sessions[s], k);
      }
    }
  }

  lemma QuietKeepsJustified(w: World, a: Action)
    requires Justified(w)
    requires !a.Register? && !a.TeardownSection?
    ensures Justified(Step(w, a))
  {
    var w' := Step(w, a);
    forall k | k in w'.routes
      ensures var h := w'.routes[k];
        h.session < |w'.sessions| && w'.sessions[h.session].plan.tunnel == h.tunnel && Holds(w'.sessions[h.session], k)
    {
      assert k in w.routes && w.routes[k] == w'.routes[k];
    }
  }

  lemma StepKeepsJustified(w: World, a: Action)
    requires Justified(w)
    ensures Justified(Step(w, a))
  {
    if a.Register? {
      if a.s < |w.sessions| && w.sessions[a.s].phase.Registering? {
        RegisterKeepsJustified(w, a.s);
      }
    } else if a.TeardownSection? {
      if a.s < |w.sessions| && w.sessions[a.s].phase.TearingDown? {
        TeardownKeepsJustified(w, a.s);
      }
    } else {
      QuietKeepsJustified(w, a);
    }
  }

  /** No leak: in every state any interleaving of any number of sessions and stop calls can
      reach, each entry is held by the session whose handle it is. */
  lemma {:induction false} NoLeak(actions: seq<Action>)
    ensures Justified(Run(actions))
  {
    if actions != [] {
      NoLeak(actions[..|actions| - 1]);
      StepKeepsJustified(Run(actions[..|actions| - 1]), actions[|actions| - 1]);
    }
  }

  /** So once every session of a tunnel is gone (or was never let in), nothing resolves to it. */
  lemma NothingLeft(actions: seq<Action>, t: TunnelId)
    requires var w := Run(actions);
      forall s :: 0 <= s < |w.sessions| && w.sessions[s].plan.tunnel == t ==>
        w.sessions[s].phase in {Arrived, Rejected, Gone}
    ensures var w := Run(actions); forall k :: k in w.routes ==> w.routes[k].tunnel != t
  {
    NoLeak(actions);
  }

  /** No teardown, of a session or of a stop call, touches another tunnel's entries. */
  lemma TeardownSparesOthers(w: World, a: Action, k: Key)
    requires k in w.routes
    requires a.TeardownSection? ==> a.s < |w.sessions| && w.sessions[a.s].plan.tunnel != w.routes[k].tunnel
    requires a.StopSection? ==> a.i < |w.stops| && w.stops[a.i].ticket.tunnel != w.routes[k].tunnel
    requires !a.Register?
    ensures k in Step(w, a).routes && Step(w, a).routes[k] == w.routes[k]
  {
  }

  // ------------------------------------------------------------------
  // When a key resolves to a session
  // ------------------------------------------------------------------

  predicate Resolves(w: World, k: Key, s: SessionId)
  {
    k in w.routes && w.routes[k].session == s
  }

  /** The step is the insert of session `o` under key `k`. */
  predicate Inserts(w: World, a: Action, k: Key, o: SessionId)
  {
    a.Register? && a.s == o && o < |w.sessions| && w.sessions[o].phase.Registering?
    && w.sessions[o].phase.next < |Steps(w.sessions[o].plan)| && Steps(w.sessions[o].plan)[w.sessions[o].phase.next].0 == k
  }

  /** The step is a section of a teardown or stop call with this tunnel's ticket that covers `k`. */
  predicate Passes(w: World, a: Action, k: Key, t: TunnelId)
  {
    match a
    case TeardownSection(o) =>
      o < |w.sessions| && w.sessions[o].phase.TearingDown? && w.sessions[o].plan.tunnel == t
      && Covers(TicketOf(w.sessions[o].plan), w.sessions[o].phase.next, k)
    case StopSection(i) =>
      i < |w.stops| && w.stops[i].ticket.tunnel == t && Covers(w.stops[i].ticket, w.stops[i].next, k)
    case _ => false
  }

  /** The step takes key `k` from session `s`: another session inserts under it, or a teardown or
      stop section of the tunnel of `s`, its own included, passes over it. */
  predicate Takes(w: World, a: Action, k: Key, s: SessionId)
  {
    s < |w.sessions|
    && ((a.Register? && a.s != s && Inserts(w, a, k, a.s)) || Passes(w, a, k, w.sessions[s].plan.tunnel))
  }

  /** A key that resolves to a session stops doing so at exactly the steps that take it. */
  lemma StopsResolvingIff(w: World, a: Action, k: Key, s: SessionId)
    requires Resolves(w, k, s) && s < |w.sessions| && w.routes[k].tunnel == w.sessions[s].plan.tunnel
    ensures !Resolves(Step(w, a), k, s) <==> Takes(w, a, k, s)
  {
  }

  /** It starts at exactly the session's own inserts. */
  lemma StartsResolvingIff(w: World, a: Action, k: Key, s: SessionId)
    requires !Resolves(w, k, s)
    ensures Resolves(Step(w, a), k, s) <==> Inserts(w, a, k, s)
  {
  }

  lemma InsertResolves(w: World, a: Action, k: Key, s: SessionId)
    requires Inserts(w, a, k, s)
    ensures Resolves(Step(w, a), k, s) && !Takes(w, a, k, s)
  {
  }

  /** Which steps of a run were inserts of `s` under `k`. */
  function Insertions(actions: seq<Action>, k: Key, s: SessionId): (marks: seq<bool>)
    ensures |marks| == |actions|
  {
    if actions == [] then []
    else
      var before := actions[..|actions| - 1];
      Insertions(before, k, s) + [Inserts(Run(before), actions[|actions| - 1], k, s)]
  }

  /** Which steps of a run took `k` from `s`. */
  function Takings(actions: seq<Action>, k: Key, s: SessionId): (marks: seq<bool>)
    ensures |marks| == |actions|
  {
    if actions == [] then []
    else
      var before := actions[..|actions| - 1];
      Takings(before, k, s) + [Takes(Run(before), actions[|actions| - 1], k, s)]
  }

  lemma ResolvesStep(w: World, a: Action, k: Key, s: SessionId)
    requires Justified(w)
    ensures Resolves(Step(w, a), k, s) <==> Inserts(w, a, k, s) || (Resolves(w, k, s) && !Takes(w, a, k, s))
  {
    if Inserts(w, a, k, s) {
      InsertResolves(w, a, k, s);
    } else if Resolves(w, k, s) {
      StopsResolvingIff(w, a, k, s);
    } else {
      StartsResolvingIff(w, a, k, s);
    }
  }

  /** Over every run of any number of sessions and stop calls: a key resolves to a session exactly
      if the session inserted under it and no step since has taken it. */
  lemma {:induction false} ResolvesIff(actions: seq<Action>, k: Key, s: SessionId)
    ensures Resolves(Run(actions), k, s) <==> Since(Insertions(actions, k, s), Takings(actions, k, s))
  {
    if actions != [] {
      var before, a := actions[..|actions| - 1], actions[|actions| - 1];
      ResolvesIff(before, k, s);
      NoLeak(before);
      ResolvesStep(Run(before), a, k, s);
      SinceStep(Insertions(before, k, s), Takings(before, k, s), Inserts(Run(before), a, k, s), Takes(Run(before), a, k, s));
    }
  }

  lemma {:induction false} HeldWasInserted(actions: seq<Action>, k: Key, s: SessionId)
    requires s < |Run(actions).sessions| && Holds(Run(actions).sessions[s], k)
    ensures exists j :: 0 <= j < |actions| && Insertions(actions, k, s)[j]
  {
    var n := |actions| - 1;
    var w, a := Run(actions[..n]), actions[n];
    if s < |w.sessions| && Holds(w.sessions[s], k) {
      HeldWasInserted(actions[..n], k, s);
      var j :| 0 <= j < n && Insertions(actions[..n], k, s)[j];
      assert Insertions(actions, k, s)[j];
    } else {
      HeldIsNew(w, a, k, s);
      assert Insertions(actions, k, s)[n];
    }
  }

  lemma HeldKeyIsStep(s: Session, k: Key) returns (i: nat)
    requires Holds(s, k)
    ensures i < |Steps(s.plan)| && Steps(s.plan)[i].0 == k
  {
    var n := match s.phase case Registering(n) => n case _ => |Steps(s.plan)|;
    i :| 0 <= i < n && i < |Steps(s.plan)| && Steps(s.plan)[i].0 == k;
  }

  lemma HeldIsNew(w: World, a: Action, k: Key, s: SessionId)
    requires s < |Step(w, a).sessions| && Holds(Step(w, a).sessions[s], k)
    requires s < |w.sessions| ==> !Holds(w.sessions[s], k)
    ensures Inserts(w, a, k, s)
  {
    if s < |w.sessions| {
      SessionStep(w, a, s);
      var p, ph := w.sessions[s].plan, w.sessions[s].phase;
      var i := HeldKeyIsStep(Step(w, a).sessions[s], k);
      if ph.Registering? && a == Register(s) && ph.next < |Steps(p)| {
        OneMoreStep(p, k, ph.next);
      }
    }
  }

  lemma OneMoreStep(p: Plan, k: Key, n: nat)
    requires n < |Steps(p)| && RegisteredBefore(p, k, n + 1) && !RegisteredBefore(p, k, n)
    ensures Steps(p)[n].0 == k
  {
    var i :| 0 <= i < n + 1 && i < |Steps(p)| && Steps(p)[i].0 == k;
    if i < n {
      assert RegisteredBefore(p, k, n);
    }
  }

  /** How a step moves one session on. */
  lemma SessionStep(w: World, a: Action, s: SessionId)
    requires s < |w.sessions|
    ensures s < |Step(w, a).sessions| && Step(w, a).sessions[s].plan == w.sessions[s].plan
    ensures var ph, ph' := w.sessions[s].phase, Step(w, a).sessions[s].phase;
      || ph' == ph
      || (ph == Arrived && ph' in {Registering(0), Rejected})
      || (ph == Registering(0) && ph' == Rejected)
      || (ph.Registering? && a == Register(s) && ph.next < |Steps(w.sessions[s].plan)| && ph' == Registering(ph.next + 1))
      || (ph.Registering? && ph.next >= |Steps(w.sessions[s].plan)| && ph' == Running)
      || (ph == Running && ph' == TearingDown(0))
      || (ph.TearingDown? && ph' in {TearingDown(ph.next + 1), Gone})
  {
  }

  /** A key that a session holds (it has inserted under it and not passed its own teardown) has a
      last insert. */
  lemma HeldHasLastInsert(actions: seq<Action>, k: Key, s: SessionId)
    requires s < |Run(actions).sessions| && Holds(Run(actions).sessions[s], k)
    ensures exists j :: LastOn(Insertions(actions, k, s), j)
  {
    HeldWasInserted(actions, k, s);
    var on := Insertions(actions, k, s);
    var i :| 0 <= i < |on| && on[i];
    LastOneExists(on, i);
  }

  /** So, from the session's last insert under it on, a key resolves to the session exactly if no
      step since has taken it. */
  lemma ResolvesSinceLastInsert(actions: seq<Action>, k: Key, s: SessionId, j: int)
    requires LastOn(Insertions(actions, k, s), j)
    ensures Resolves(Run(actions), k, s) <==> forall l :: j < l < |actions| ==> !Takings(actions, k, s)[l]
  {
    ResolvesIff(actions, k, s);
    SinceLast(Insertions(actions, k, s), Takings(actions, k, s), j);
  }

  // ------------------------------------------------------------------
  // Lookups are exact for a session nobody interferes with
  // ------------------------------------------------------------------

  /** No other session has the tunnel of `s` or registers one of its keys, and no stop call has
      been made against its tunnel. */
  ghost predicate Exclusive(w: World, s: SessionId)
    requires s < |w.sessions|
  {
    var p := w.sessions[s].plan;
    && (forall o :: 0 <= o < |w.sessions| && o != s ==>
          w.sessions[o].plan.tunnel != p.tunnel && DisjointKeys(w.sessions[o].plan, p))
    && forall i :: 0 <= i < |w.stops| ==> w.stops[i].ticket.tunnel != p.tunnel
  }

  ghost predicate DisjointKeys(p: Plan, q: Plan)
  {
    forall i, j :: 0 <= i < |Steps(p)| && 0 <= j < |Steps(q)| ==> Steps(p)[i].0 != Steps(q)[j].0
  }

  /** Sessions keep their plans and stop calls their tickets; neither ever disappears. */
  lemma StepFrame(w: World, a: Action)
    ensures var w' := Step(w, a);
      && |w.sessions| <= |w'.sessions| && |w.stops| <= |w'.stops|
      && (forall o :: 0 <= o < |w.sessions| ==> w'.sessions[o].plan == w.sessions[o].plan)
      && (forall i :: 0 <= i < |w.stops| ==> w'.stops[i].ticket == w.stops[i].ticket)
  {
  }

  /** What is exclusive after a step was exclusive before it. */
  lemma ExclusiveBefore(w: World, w': World, s: SessionId)
    requires |w.sessions| <= |w'.sessions| && |w.stops| <= |w'.stops|
    requires forall o :: 0 <= o < |w.sessions| ==> w'.sessions[o].plan == w.sessions[o].plan
    requires forall i :: 0 <= i < |w.stops| ==> w'.stops[i].ticket == w.stops[i].ticket
    requires s < |w.sessions| && Exclusive(w', s)
    ensures Exclusive(w, s)
  {
    forall o | 0 <= o < |w.sessions| && o != s
      ensures w.sessions[o].plan.tunnel != w.sessions[s].plan.tunnel
              && DisjointKeys(w.sessions[o].plan, w.sessions[s].plan)
    {
      assert w'.sessions[o].plan == w.sessions[o].plan;
    }
    forall i | 0 <= i < |w.stops|
      ensures w.stops[i].ticket.tunnel != w.sessions[s].plan.tunnel
    {
      assert w'.stops[i].ticket == w.stops[i].ticket;
    }
  }

  /** No step takes a key from an exclusive session that still holds it afterwards. */
  lemma NothingTakesHeld(w: World, a: Action, k: Key, s: SessionId)
    requires s < |w.sessions| && Exclusive(w, s) && Holds(w.sessions[s], k)
    requires s < |Step(w, a).sessions| && Holds(Step(w, a).sessions[s], k)
    ensures !Takes(w, a, k, s)
  {
    var i := HeldKeyIsStep(w.sessions[s], k);
    if a.Register? && a.s != s && a.s < |w.sessions| {
      assert DisjointKeys(w.sessions[a.s].plan, w.sessions[s].plan);
    }
  }

  /** Over every run: a key resolves to an exclusive session exactly while the session holds
      it, from its own insert until its own teardown of that map. */
  lemma {:induction false} LookupIsExact(actions: seq<Action>, s: SessionId, k: Key)
    requires s < |Run(actions).sessions| && Exclusive(Run(actions), s)
    ensures var w := Run(actions);
      Resolves(w, k, s) <==> Holds(w.sessions[s], k)
  {
    NoLeak(actions);
    if Holds(Run(actions).sessions[s], k) {
      HeldResolves(actions, s, k);
    }
  }

  lemma {:induction false} HeldResolves(actions: seq<Action>, s: SessionId, k: Key)
    requires s < |Run(actions).sessions| && Exclusive(Run(actions), s) && Holds(Run(actions).sessions[s], k)
    ensures Resolves(Run(actions), k, s)
  {
    var n := |actions| - 1;
    var w, a := Run(actions[..n]), actions[n];
    NoLeak(actions[..n]);
    ResolvesStep(w, a, k, s);
    if s < |w.sessions| && Holds(w.sessions[s], k) {
      StepFrame(w, a);
      ExclusiveBefore(w, Step(w, a), s);
      HeldResolves(actions[..n], s, k);
      NothingTakesHeld(w, a, k, s);
    } else {
      HeldIsNew(w, a, k, s);
    }
  }

  // ------------------------------------------------------------------
  // The sequential code is one schedule of the machine
  // ------------------------------------------------------------------

  function Burst(w: World, a: Action, n: nat): World
  {
    if n == 0 then w else Step(Burst(w, a, n - 1), a)
  }

  lemma RegisterOnce(w: World, s: SessionId, base: Routes, n: nat)
    requires s < |w.sessions| && w.sessions[s].phase == Registering(n) && n < |Steps(w.sessions[s].plan)|
    requires w.routes == InsertAll(base, w.sessions[s].plan, s, Steps(w.sessions[s].plan)[..n])
    ensures var p := w.sessions[s].plan;
      && RegisterStep(w, s).routes == InsertAll(base, p, s, Steps(p)[..n + 1])
      && RegisterStep(w, s).sessions == w.sessions[s := Session(p, Registering(n + 1))]
  {
    var steps := Steps(w.sessions[s].plan);
    assert steps[..n + 1][..n] == steps[..n];
  }

  lemma {:induction false} RegisterBurst(w: World, s: SessionId, n: nat)
    requires s < |w.sessions| && w.sessions[s].phase == Registering(0) && n <= |Steps(w.sessions[s].plan)|
    ensures var p := w.sessions[s].plan;
      && Burst(w, Register(s), n).routes == InsertAll(w.routes, p, s, Steps(p)[..n])
      && Burst(w, Register(s), n).sessions == w.sessions[s := Session(p, Registering(n))]
  {
    if n > 0 {
      RegisterBurst(w, s, n - 1);
      RegisterOnce(Burst(w, Register(s), n - 1), s, w.routes, n - 1);
    }
  }

  lemma TeardownOnce(w: World, s: SessionId, base: Routes, n: nat)
    requires s < |w.sessions| && w.sessions[s].phase == TearingDown(n) && n < SECTIONS
    requires w.routes == RemoveSections(base, TicketOf(w.sessions[s].plan), n)
    ensures var p := w.sessions[s].plan;
      && TeardownStep(w, s).routes == RemoveSections(base, TicketOf(p), n + 1)
      && TeardownStep(w, s).sessions == w.sessions[s := Session(p, TearingDown(n + 1))]
  {
    if n == 0 {
      assert RemoveOwned(base, TicketOf(w.sessions[s].plan), 0) == base;
    }
  }

  lemma {:induction false} TeardownBurst(w: World, s: SessionId, n: nat)
    requires s < |w.sessions| && w.sessions[s].phase == TearingDown(0) && n <= SECTIONS
    ensures var p := w.sessions[s].plan;
      && Burst(w, TeardownSection(s), n).routes == RemoveSections(w.routes, TicketOf(p), n)
      && Burst(w, TeardownSection(s), n).sessions == w.sessions[s := Session(p, TearingDown(n))]
  {
    if n > 0 {
      TeardownBurst(w, s, n - 1);
      TeardownOnce(Burst(w, TeardownSection(s), n - 1), s, w.routes, n - 1);
    }
  }

  // ------------------------------------------------------------------
  // What the ownership check does not protect
  // ------------------------------------------------------------------

  const HTTP_PLAN := Plan(1, "a", None, [RouteClaim(1, Http, Some("a.example.com"), None, None)])

  const FIRST: seq<Action> := [Arrive(HTTP_PLAN), PreCheck(0), Register(0), Register(0)]

  const SECOND: seq<Action> := [Arrive(HTTP_PLAN), PreCheck(1), Register(1), Register(1)]

  const OLD_ENDS: seq<Action> := [End(0), TeardownSection(0), TeardownSection(0)]

  lemma RunSnoc(actions: seq<Action>, a: Action)
    ensures Run(actions + [a]) == Step(Run(actions), a)
  {
    assert (actions + [a])[..|actions|] == actions;
  }

  lemma HttpPlanSteps()
    ensures Steps(HTTP_PLAN) == [(HttpHost("a"), 1)]
  {
    assert HTTP_PLAN.routes[..0] == [];
  }

  lemma FirstSession()
    ensures Run(FIRST) == World(map[HttpHost("a") := Handle(1, 1, 0)], map["a" := TicketOf(HTTP_PLAN)],
                                [Session(HTTP_PLAN, Running)], [])
  {
    HttpPlanSteps();
    var r := FIRST;
    assert r[..1] == [] + [Arrive(HTTP_PLAN)];
    RunSnoc([], Arrive(HTTP_PLAN));
    assert r[..2] == r[..1] + [PreCheck(0)];
    RunSnoc(r[..1], PreCheck(0));
    assert r[..3] == r[..2] + [Register(0)];
    RunSnoc(r[..2], Register(0));
    assert r == r[..3] + [Register(0)];
    RunSnoc(r[..3], Register(0));
  }

  lemma SecondAdmitted()
    ensures Run(FIRST + [Arrive(HTTP_PLAN)] + [PreCheck(1)]) ==
      World(map[HttpHost("a") := Handle(1, 1, 0)], map["a" := TicketOf(HTTP_PLAN)],
            [Session(HTTP_PLAN, Running), Session(HTTP_PLAN, Registering(0))], [])
  {
    FirstSession();
    RunSnoc(FIRST, Arrive(HTTP_PLAN));
    RunSnoc(FIRST + [Arrive(HTTP_PLAN)], PreCheck(1));
  }

  lemma SecondSession()
    ensures Run(FIRST + SECOND) ==
      World(map[HttpHost("a") := Handle(1, 1, 1)], map["a" := TicketOf(HTTP_PLAN)],
            [Session(HTTP_PLAN, Running), Session(HTTP_PLAN, Running)], [])
  {
    SecondAdmitted();
    HttpPlanSteps();
    var r := FIRST + [Arrive(HTTP_PLAN)] + [PreCheck(1)];
    assert FIRST + SECOND == r + [Register(1)] + [Register(1)];
    RunSnoc(r, Register(1));
    RunSnoc(r + [Register(1)], Register(1));
  }

  /** Ownership is checked by tunnel, not by session. When a reconnect overlaps the old session
      and the old one then ends and begins its teardown, the new session is running but no
      longer routed, and `tunnels` has forgotten it. */
  lemma ReconnectLosesRoutes()
    ensures var w := Run(FIRST + SECOND + OLD_ENDS);
      |w.sessions| == 2 && w.sessions[1].phase == Running && HttpHost("a") !in w.routes && "a" !in w.tunnels
  {
    var r := FIRST + SECOND + [End(0)];
    OldEnds();
    RunSnoc(r, TeardownSection(0));
    RunSnoc(r + [TeardownSection(0)], TeardownSection(0));
    assert FIRST + SECOND + OLD_ENDS == r + [TeardownSection(0)] + [TeardownSection(0)];
  }

  lemma OldEnds()
    ensures Run(FIRST + SECOND + [End(0)]) ==
      World(map[HttpHost("a") := Handle(1, 1, 1)], map["a" := TicketOf(HTTP_PLAN)],
            [Session(HTTP_PLAN, TearingDown(0)), Session(HTTP_PLAN, Running)], [])
  {
    SecondSession();
    RunSnoc(FIRST + SECOND, End(0));
  }
}
