/** Which keys a plan's routes are registered under, and so which lookups find a session: in terms of
    the routes the token grants. */
module RouteKeys {
  import opened Bytes
  import opened Options
  import opened Claims
  import opened Registry

  /** A lookup of `k` is for that route of the plan. */
  predicate Under(p: Plan, r: RouteClaim, k: Key)
  {
    match k
    case HttpHost(name) => r.mode.Http? && name == p.subdomain
    case HttpsHost(name) => r.mode.Https? && name == p.subdomain
    case TcpPort(n) => r.mode.Tcp? && (r.publicPort == Some(n) || (r.publicPort == None && n == 0))
    case UdpPort(n) => r.mode.Udp? && (r.publicPort == Some(n) || (r.publicPort == None && n == 0))
    case CustomHttp(host) => r.mode.Http? && p.customDomain == Some(host)
    case CustomHttps(host) => r.mode.Https? && p.customDomain == Some(host)
  }

  /** Route `j` is the last among `routes` that `k` is for. */
  ghost predicate LastUnder(p: Plan, routes: seq<RouteClaim>, k: Key, j: int)
  {
    0 <= j < |routes| && Under(p, routes[j], k) && forall l :: j < l < |routes| ==> !Under(p, routes[l], k)
  }

  lemma KeysAre(p: Plan, r: RouteClaim, k: Key)
    ensures k in KeysOfRoute(p, r) <==> Under(p, r, k)
  {
    match r.mode case Http => case Https => case Tcp => case Udp => case Both =>
  }

  lemma {:induction false} LastExists(p: Plan, routes: seq<RouteClaim>, k: Key, i: nat)
    requires i < |routes| && Under(p, routes[i], k)
    ensures exists j :: LastUnder(p, routes, k, j)
    decreases |routes| - i
  {
    if l :| i < l < |routes| && Under(p, routes[l], k) {
      LastExists(p, routes, k, l);
    } else {
      assert LastUnder(p, routes, k, i);
    }
  }

  // ------------------------------------------------------------------
  // The registrations of a plan
  // ------------------------------------------------------------------

  /** The last of the steps for `k` carries that id. */
  ghost predicate LastStep(steps: seq<(Key, U16)>, k: Key, id: U16)
  {
    exists i :: LastAt(steps, k, i) && steps[i].1 == id
  }

  ghost predicate LastAt(steps: seq<(Key, U16)>, k: Key, i: int)
  {
    0 <= i < |steps| && steps[i].0 == k && forall l :: i < l < |steps| ==> steps[l].0 != k
  }

  ghost predicate HasStep(steps: seq<(Key, U16)>, k: Key)
  {
    exists i :: 0 <= i < |steps| && steps[i].0 == k
  }

  lemma StepsJoin(a: seq<(Key, U16)>, b: seq<(Key, U16)>, k: Key, id: U16)
    ensures HasStep(a + b, k) <==> HasStep(a, k) || HasStep(b, k)
    ensures HasStep(b, k) && LastStep(b, k, id) ==> LastStep(a + b, k, id)
    ensures !HasStep(b, k) && LastStep(a, k, id) ==> LastStep(a + b, k, id)
  {
    var s := a + b;
    if i :| 0 <= i < |b| && b[i].0 == k {
      assert s[|a| + i].0 == k;
    }
    if i :| 0 <= i < |a| && a[i].0 == k {
      assert s[i].0 == k;
    }
    if HasStep(b, k) && LastStep(b, k, id) {
      var i :| LastAt(b, k, i) && b[i].1 == id;
      assert LastAt(s, k, |a| + i);
    }
    if !HasStep(b, k) && LastStep(a, k, id) {
      var i :| LastAt(a, k, i) && a[i].1 == id;
      assert LastAt(s, k, i);
    }
  }

  lemma OneRouteSteps(p: Plan, r: RouteClaim, k: Key)
    ensures var b := WithId(KeysOfRoute(p, r), r.routeId);
      (HasStep(b, k) <==> Under(p, r, k)) && (Under(p, r, k) ==> LastStep(b, k, r.routeId))
  {
    KeysAre(p, r, k);
    var ks := KeysOfRoute(p, r);
    var b := WithId(ks, r.routeId);
    if k in ks {
      var i :| 0 <= i < |ks| && ks[i] == k;
      assert b[i].0 == k;
      assert LastAt(b, k, i);
    }
  }

  lemma OneMoreRoute(p: Plan, front: seq<RouteClaim>, r: RouteClaim, k: Key)
    ensures (exists j :: 0 <= j < |front + [r]| && Under(p, (front + [r])[j], k))
      <==> (exists j :: 0 <= j < |front| && Under(p, front[j], k)) || Under(p, r, k)
  {
    var routes := front + [r];
    assert routes[|front|] == r;
    if j :| 0 <= j < |routes| && Under(p, routes[j], k) {
      assert j < |front| ==> Under(p, front[j], k);
    }
    if j :| 0 <= j < |front| && Under(p, front[j], k) {
      assert Under(p, routes[j], k);
    }
  }

  /** A key is registered exactly if some route is for it. */
  lemma {:induction false} RegisteredKeys(p: Plan, routes: seq<RouteClaim>, k: Key)
    ensures HasStep(Registrations(p, routes), k) <==> exists j :: 0 <= j < |routes| && Under(p, routes[j], k)
  {
    if routes != [] {
      var n := |routes| - 1;
      RegisteredKeys(p, routes[..n], k);
      OneRouteSteps(p, routes[n], k);
      StepsJoin(Registrations(p, routes[..n]), WithId(KeysOfRoute(p, routes[n]), routes[n].routeId), k, 0);
      assert routes[..n] + [routes[n]] == routes;
      OneMoreRoute(p, routes[..n], routes[n], k);
    }
  }

  /** ... and last of all with the id of the last such route. */
  lemma {:induction false} RegisteredLast(p: Plan, routes: seq<RouteClaim>, k: Key, j: int)
    requires LastUnder(p, routes, k, j)
    ensures LastStep(Registrations(p, routes), k, routes[j].routeId)
  {
    var n := |routes| - 1;
    var front, r := routes[..n], routes[n];
    OneRouteSteps(p, r, k);
    StepsJoin(Registrations(p, front), WithId(KeysOfRoute(p, r), r.routeId), k, routes[j].routeId);
    if j < n {
      assert LastUnder(p, front, k, j);
      RegisteredLast(p, front, k, j);
    }
  }

  lemma RegistrationsAre(p: Plan, routes: seq<RouteClaim>, k: Key)
    ensures HasStep(Registrations(p, routes), k) <==> exists j :: 0 <= j < |routes| && Under(p, routes[j], k)
    ensures forall j :: LastUnder(p, routes, k, j) ==> LastStep(Registrations(p, routes), k, routes[j].routeId)
  {
    RegisteredKeys(p, routes, k);
    forall j | LastUnder(p, routes, k, j)
      ensures LastStep(Registrations(p, routes), k, routes[j].routeId)
    {
      RegisteredLast(p, routes, k, j);
    }
  }

  lemma LastOfFront(steps: seq<(Key, U16)>, k: Key, id: U16)
    requires steps != [] && LastStep(steps, k, id)
    ensures steps[|steps| - 1].0 == k ==> id == steps[|steps| - 1].1
    ensures steps[|steps| - 1].0 != k ==> LastStep(steps[..|steps| - 1], k, id)
  {
    var n := |steps| - 1;
    var i :| LastAt(steps, k, i) && steps[i].1 == id;
    if steps[n].0 != k {
      assert LastAt(steps[..n], k, i);
    }
  }

  lemma {:induction false} InsertedLast(routes: Routes, p: Plan, s: SessionId, steps: seq<(Key, U16)>, k: Key, id: U16)
    requires LastStep(steps, k, id)
    ensures k in InsertAll(routes, p, s, steps) && InsertAll(routes, p, s, steps)[k] == Handle(p.tunnel, id, s)
  {
    LastOfFront(steps, k, id);
    if steps[|steps| - 1].0 != k {
      InsertedLast(routes, p, s, steps[..|steps| - 1], k, id);
    }
  }

  lemma {:induction false} OthersStay(routes: Routes, p: Plan, s: SessionId, steps: seq<(Key, U16)>, k: Key)
    requires !HasStep(steps, k)
    ensures var routes' := InsertAll(routes, p, s, steps);
      (k in routes' <==> k in routes) && (k in routes ==> routes'[k] == routes[k])
  {
    if steps != [] {
      var n := |steps| - 1;
      assert steps[n].0 != k;
      assert forall i :: 0 <= i < n ==> steps[..n][i].0 == steps[i].0;
      OthersStay(routes, p, s, steps[..n], k);
    }
  }

  lemma InsertedAre(routes: Routes, p: Plan, s: SessionId, steps: seq<(Key, U16)>, k: Key)
    ensures var routes' := InsertAll(routes, p, s, steps);
      && (!HasStep(steps, k) ==> (k in routes' <==> k in routes) && (k in routes ==> routes'[k] == routes[k]))
      && (forall id :: LastStep(steps, k, id) ==> k in routes' && routes'[k] == Handle(p.tunnel, id, s))
  {
    if !HasStep(steps, k) {
      OthersStay(routes, p, s, steps, k);
    }
    forall id | LastStep(steps, k, id)
      ensures k in InsertAll(routes, p, s, steps) && InsertAll(routes, p, s, steps)[k] == Handle(p.tunnel, id, s)
    {
      InsertedLast(routes, p, s, steps, k, id);
    }
  }

  /** Uninterrupted, the registration puts every key some route is for to a handle with the id of the
      last such route, and leaves all other keys alone. */
  lemma RegistersExactly(routes: Routes, p: Plan, s: SessionId, k: Key)
    ensures var routes' := InsertAll(routes, p, s, Steps(p));
      && (forall j :: LastUnder(p, p.routes, k, j) ==> k in routes' && routes'[k] == Handle(p.tunnel, p.routes[j].routeId, s))
      && ((forall j :: 0 <= j < |p.routes| ==> !Under(p, p.routes[j], k)) ==>
            (k in routes' <==> k in routes) && (k in routes ==> routes'[k] == routes[k]))
  {
    RegistrationsAre(p, p.routes, k);
    InsertedAre(routes, p, s, Steps(p), k);
  }

  // ------------------------------------------------------------------
  // Teardowns
  // ------------------------------------------------------------------

  /** A teardown of the plan looks under its names, its ports and its domain. */
  ghost predicate InReach(p: Plan, k: Key)
  {
    match k
    case HttpHost(name) => name == p.subdomain
    case HttpsHost(name) => name == p.subdomain
    case CustomHttp(host) => p.customDomain == Some(host)
    case CustomHttps(host) => p.customDomain == Some(host)
    case _ => exists j :: 0 <= j < |p.routes| && Under(p, p.routes[j], k)
  }

  /** A route of that mode on public port `n`, or on none, which counts as port 0. */
  predicate PortIs(r: RouteClaim, mode: RouteMode, n: int)
  {
    r.mode == mode && (r.publicPort == Some(n) || (r.publicPort == None && n == 0))
  }

  lemma {:induction false} PortsAre(routes: seq<RouteClaim>, mode: RouteMode, n: int)
    ensures n in PortsOf(routes, mode) <==> exists j :: 0 <= j < |routes| && PortIs(routes[j], mode, n)
  {
    if routes != [] {
      var m := |routes| - 1;
      PortsAre(routes[..m], mode, n);
      if j :| 0 <= j < m && PortIs(routes[..m][j], mode, n) {
        assert PortIs(routes[j], mode, n);
      }
      if j :| 0 <= j < |routes| && PortIs(routes[j], mode, n) {
        assert j < m ==> PortIs(routes[..m][j], mode, n);
      }
    }
  }

  lemma CoversReach(p: Plan, k: Key)
    ensures Covers(TicketOf(p), SectionOf(k), k) <==> InReach(p, k)
  {
    match k
    case TcpPort(n) =>
      PortsAre(p.routes, Tcp, n);
      assert forall j :: 0 <= j < |p.routes| ==> Under(p, p.routes[j], k) == PortIs(p.routes[j], Tcp, n);
    case UdpPort(n) =>
      PortsAre(p.routes, Udp, n);
      assert forall j :: 0 <= j < |p.routes| ==> Under(p, p.routes[j], k) == PortIs(p.routes[j], Udp, n);
    case _ =>
  }

  lemma {:induction false} SectionsRemove(routes: Routes, t: Ticket, n: nat, k: Key)
    ensures var routes' := RemoveSections(routes, t, n);
      && (k in routes' <==> k in routes && !(SectionOf(k) < n && Covers(t, SectionOf(k), k) && routes[k].tunnel == t.tunnel))
      && (k in routes' ==> routes'[k] == routes[k])
  {
    if n > 0 {
      SectionsRemove(routes, t, n - 1, k);
    }
  }

  /** Uninterrupted, the teardown of a session takes exactly the entries of its tunnel under the plan's
      names, ports and domain. */
  lemma TearsDownExactly(routes: Routes, p: Plan, k: Key)
    ensures var routes' := RemoveSections(routes, TicketOf(p), SECTIONS);
      && (k in routes' <==> k in routes && !(InReach(p, k) && routes[k].tunnel == p.tunnel))
      && (k in routes' ==> routes'[k] == routes[k])
  {
    SectionsRemove(routes, TicketOf(p), SECTIONS, k);
    CoversReach(p, k);
  }

  lemma StopOnce(w: World, i: nat, base: Routes, ticket: Ticket, n: nat)
    requires i < |w.stops| && w.stops[i] == StopCall(ticket, n) && n < SECTIONS
    requires w.routes == RemoveSections(base, ticket, n)
    ensures Step(w, StopSection(i)).routes == RemoveSections(base, ticket, n + 1)
    ensures |Step(w, StopSection(i)).stops| == |w.stops| && Step(w, StopSection(i)).stops[i] == StopCall(ticket, n + 1)
  {
    if n == 0 {
      assert RemoveOwned(base, ticket, 0) == base;
    }
  }

  lemma {:induction false} StopSections(w: World, i: nat, ticket: Ticket, n: nat)
    requires i < |w.stops| && w.stops[i] == StopCall(ticket, 0) && n <= SECTIONS
    ensures var w' := Burst(w, StopSection(i), n);
      && w'.routes == RemoveSections(w.routes, ticket, n)
      && |w'.stops| == |w.stops| && w'.stops[i] == StopCall(ticket, n)
  {
    if n > 0 {
      StopSections(w, i, ticket, n - 1);
      StopOnce(Burst(w, StopSection(i), n - 1), i, w.routes, ticket, n - 1);
    }
  }

  /** An uninterrupted stop call for a name tears down the session that installed it last, as its own
      teardown would; for a name nobody has it does nothing. */
  lemma StopsExactly(w: World, name: string, p: Plan)
    ensures name !in w.tunnels ==> Step(w, Stop(name)) == w
    ensures name in w.tunnels && w.tunnels[name] == TicketOf(p) ==>
      Burst(Step(w, Stop(name)), StopSection(|w.stops|), SECTIONS).routes == RemoveSections(w.routes, TicketOf(p), SECTIONS)
  {
    if name in w.tunnels {
      StopSections(Step(w, Stop(name)), |w.stops|, w.tunnels[name], SECTIONS);
    }
  }

  // ------------------------------------------------------------------
  // Lookups over runs
  // ------------------------------------------------------------------

  /** How many of its steps a session has done. */
  function Done(s: Session): nat
  {
    match s.phase
    case Arrived => 0
    case Rejected => 0
    case Registering(n) => if n <= |Steps(s.plan)| then n else |Steps(s.plan)|
    case _ => |Steps(s.plan)|
  }

  /** Each handle carries the id of the last step for its key that its session has done. */
  ghost predicate LatestIds(w: World)
  {
    forall k :: k in w.routes && w.routes[k].session < |w.sessions| ==> LatestId(w.sessions[w.routes[k].session], k, w.routes[k].routeId)
  }

  ghost predicate LatestId(s: Session, k: Key, id: U16)
  {
    LastStep(Steps(s.plan)[..Done(s)], k, id)
  }

  lemma StepDone(s: Session, k: Key, id: U16)
    requires s.phase.Registering? && s.phase.next < |Steps(s.plan)|
    ensures var s', step := s.(phase := Registering(s.phase.next + 1)), Steps(s.plan)[s.phase.next];
      && (step.0 == k ==> LatestId(s', k, step.1))
      && (step.0 != k && LatestId(s, k, id) ==> LatestId(s', k, id))
  {
    var n, steps := s.phase.next, Steps(s.plan);
    assert steps[..n + 1] == steps[..n] + [steps[n]];
    StepsJoin(steps[..n], [steps[n]], k, id);
    if steps[n].0 == k {
      assert LastAt(steps[..n + 1], k, n);
    }
  }

  lemma InsertIds(w: World, s: SessionId, k: Key)
    requires LatestIds(w) && s < |w.sessions| && w.sessions[s].phase.Registering?
    requires w.sessions[s].phase.next < |Steps(w.sessions[s].plan)|
    requires k in RegisterStep(w, s).routes && RegisterStep(w, s).routes[k].session < |w.sessions|
    ensures var w' := RegisterStep(w, s); LatestId(w'.sessions[w'.routes[k].session], k, w'.routes[k].routeId)
  {
    StepDone(w.sessions[s], k, RegisterStep(w, s).routes[k].routeId);
  }

  lemma RegisterIds(w: World, s: SessionId)
    requires LatestIds(w) && s < |w.sessions| && w.sessions[s].phase.Registering?
    ensures LatestIds(RegisterStep(w, s))
  {
    var w' := RegisterStep(w, s);
    forall k | k in w'.routes && w'.routes[k].session < |w'.sessions|
      ensures LatestId(w'.sessions[w'.routes[k].session], k, w'.routes[k].routeId)
    {
      if w.sessions[s].phase.next < |Steps(w.sessions[s].plan)| {
        InsertIds(w, s, k);
      } else {
        assert Done(w'.sessions[s]) == Done(w.sessions[s]);
      }
    }
  }

  /** A session that has inserted under a key stays as far as it is unless it registers. */
  lemma QuietDone(w: World, a: Action, s: SessionId, k: Key)
    requires s < |w.sessions| && !a.Register? && Holds(w.sessions[s], k)
    ensures s < |Step(w, a).sessions| && Step(w, a).sessions[s].plan == w.sessions[s].plan
    ensures Step(w, a).routes.Keys <= w.routes.Keys
    ensures k in Step(w, a).routes && w.routes[k].session == s ==> Done(Step(w, a).sessions[s]) == Done(w.sessions[s])
  {
    SessionStep(w, a, s);
  }

  lemma QuietId(w: World, a: Action, k: Key)
    requires Justified(w) && LatestIds(w) && !a.Register? && k in Step(w, a).routes
    ensures var w' := Step(w, a);
      w'.routes[k].session < |w'.sessions| && LatestId(w'.sessions[w'.routes[k].session], k, w'.routes[k].routeId)
  {
    QuietEntry(w, a, k);
    QuietDone(w, a, w.routes[k].session, k);
  }

  lemma QuietIds(w: World, a: Action)
    requires Justified(w) && LatestIds(w) && !a.Register?
    ensures LatestIds(Step(w, a))
  {
    var w' := Step(w, a);
    forall k | k in w'.routes && w'.routes[k].session < |w'.sessions|
      ensures LatestId(w'.sessions[w'.routes[k].session], k, w'.routes[k].routeId)
    {
      QuietId(w, a, k);
    }
  }

  lemma QuietEntry(w: World, a: Action, k: Key)
    requires Justified(w) && !a.Register? && k in Step(w, a).routes
    ensures k in w.routes && Step(w, a).routes[k] == w.routes[k] && w.routes[k].session < |w.sessions|
    ensures Holds(w.sessions[w.routes[k].session], k)
  {
  }

  lemma {:induction false} RunIds(actions: seq<Action>)
    ensures LatestIds(Run(actions))
  {
    if actions != [] {
      var before, a := actions[..|actions| - 1], actions[|actions| - 1];
      RunIds(before);
      NoLeak(before);
      if a.Register? {
        if a.s < |Run(before).sessions| && Run(before).sessions[a.s].phase.Registering? {
          RegisterIds(Run(before), a.s);
        }
      } else {
        QuietIds(Run(before), a);
      }
    }
  }

  lemma OneLastStep(steps: seq<(Key, U16)>, k: Key, id: U16, id': U16)
    requires LastStep(steps, k, id) && LastStep(steps, k, id')
    ensures id == id'
  {
    var i :| LastAt(steps, k, i) && steps[i].1 == id;
    var j :| LastAt(steps, k, j) && steps[j].1 == id';
    assert i == j;
  }

  lemma RegisteredIff(p: Plan, k: Key)
    ensures RegisteredBefore(p, k, |Steps(p)|) <==> exists j :: 0 <= j < |p.routes| && Under(p, p.routes[j], k)
  {
    RegistrationsAre(p, p.routes, k);
    if i :| 0 <= i < |Steps(p)| && Steps(p)[i].0 == k {
      assert HasStep(Steps(p), k);
    }
  }

  /** Over every run, for a running session that is alone on its tunnel and keys: a lookup finds it
      exactly if one of its routes is for that lookup (`Under`), and finds the last such route. */
  lemma FindsExactly(actions: seq<Action>, s: SessionId, k: Key)
    requires s < |Run(actions).sessions| && Exclusive(Run(actions), s) && Run(actions).sessions[s].phase == Running
    ensures var w := Run(actions); var p := w.sessions[s].plan;
      && (Resolves(w, k, s) <==> exists j :: 0 <= j < |p.routes| && Under(p, p.routes[j], k))
      && (forall j :: LastUnder(p, p.routes, k, j) ==> k in w.routes && w.routes[k] == Handle(p.tunnel, p.routes[j].routeId, s))
  {
    var w := Run(actions);
    var p := w.sessions[s].plan;
    LookupIsExact(actions, s, k);
    RegisteredIff(p, k);
    RunIds(actions);
    NoLeak(actions);
    RegistrationsAre(p, p.routes, k);
    forall j | LastUnder(p, p.routes, k, j)
      ensures k in w.routes && w.routes[k] == Handle(p.tunnel, p.routes[j].routeId, s)
    {
      assert Resolves(w, k, s);
      assert LatestId(w.sessions[s], k, w.routes[k].routeId);
      assert Steps(p)[..|Steps(p)|] == Steps(p);
      OneLastStep(Steps(p), k, w.routes[k].routeId, p.routes[j].routeId);
    }
  }

  // ------------------------------------------------------------------
  // The ownership check
  // ------------------------------------------------------------------

  /** Neither host entry of the name belongs to another tunnel. */
  predicate NameFree(w: World, name: string, t: TunnelId)
  {
    && (HttpHost(name) in w.routes ==> w.routes[HttpHost(name)].tunnel == t)
    && (HttpsHost(name) in w.routes ==> w.routes[HttpsHost(name)].tunnel == t)
  }

  /** The check lets a session in exactly if no other tunnel has its name. */
  lemma CheckDecides(w: World, s: SessionId)
    requires s < |w.sessions| && w.sessions[s].phase == Arrived
    ensures Step(w, PreCheck(s)).sessions[s].phase
         == if NameFree(w, w.sessions[s].plan.subdomain, w.sessions[s].plan.tunnel) then Registering(0) else Rejected
    ensures Step(w, PreCheck(s)).routes == w.routes
  {
  }

  /** The `n`-th action was the session's check, and found its name free. */
  ghost predicate CheckedAt(actions: seq<Action>, n: nat, s: SessionId, p: Plan)
    requires n < |actions|
  {
    actions[n] == PreCheck(s) && NameFree(Run(actions[..n]), p.subdomain, p.tunnel)
  }

  /** Over every run, a session was let in only after a moment at which no other tunnel had its name. */
  lemma {:induction false} AdmittedWhenFree(actions: seq<Action>, s: SessionId)
    requires s < |Run(actions).sessions| && Run(actions).sessions[s].phase !in {Arrived, Rejected}
    ensures exists n :: 0 <= n < |actions| && CheckedAt(actions, n, s, Run(actions).sessions[s].plan)
  {
    var m := |actions| - 1;
    var before, a := actions[..m], actions[m];
    var w := Run(before);
    assert s < |w.sessions|;
    SessionStep(w, a, s);
    if w.sessions[s].phase == Arrived {
      CheckDecides(w, s);
      assert CheckedAt(actions, m, s, Run(actions).sessions[s].plan);
    } else {
      AdmittedWhenFree(before, s);
      var n :| 0 <= n < m && CheckedAt(before, n, s, w.sessions[s].plan);
      assert actions[..n] == before[..n];
      assert CheckedAt(actions, n, s, Run(actions).sessions[s].plan);
    }
  }
}
