/** Over whole runs: who can change a tunnel, and what of it never changes. */
module Access {
  import opened Options
  import opened PortPool
  import opened RouteRows
  import RouteEdit
  import opened Tables
  import opened Allocator
  import opened Lifecycle
  import opened Failover
  import opened Handlers
  import opened Runs

  /** The tunnel's row, its routes and the ports it holds are as they were. */
  ghost predicate SameTunnel(db: Db, db': Db, t: TunnelId)
    requires t in db.tunnels && t in db.routes
  {
    && t in db'.tunnels && t in db'.routes
    && db'.tunnels[t] == db.tunnels[t] && db'.routes[t] == db.routes[t] && Own(db'.pool, t) == Own(db.pool, t)
  }

  lemma SetRoutesTouches(db: Db, t: TunnelId, node: NodeId, qs: seq<Request>, u: TunnelId)
    requires Sound(db) && t in db.tunnels && u in db.tunnels && u != t
    ensures SameTunnel(db, SetRoutes(db, t, node, qs).0, u)
  {
    if RouteEdit.Reconciled(db.pool, db.routes[t], node, t, qs).Work? {
      RouteEdit.ReconcileOthers(db.pool, db.routes[t], node, t, qs);
    }
  }

  lemma EditTouches(db: Db, user: int, admin: bool, t: TunnelId, qs: seq<Request>, u: TunnelId)
    requires Sound(db) && u in db.tunnels
    ensures SameTunnel(db, EditedRoutes(db, user, admin, t, qs).0, u) || (u == t && !Stranger(db, user, admin, t))
  {
    EditAnswers(db, user, admin, t, qs);
    if u != t && t in db.tunnels {
      SetRoutesTouches(db, t, db.tunnels[t].node, qs, u);
    }
  }

  lemma MoveTouches(db: Db, user: int, admin: bool, t: TunnelId, node: NodeId, u: TunnelId)
    requires Sound(db) && u in db.tunnels
    ensures SameTunnel(db, MovedTunnel(db, user, admin, t, node).0, u) || (u == t && !Stranger(db, user, admin, t))
  {
    MoveAnswers(db, user, admin, t, node);
  }

  /** In every reachable state, an edit or a move changes no tunnel but the one it names, and that one
      only for its owner or an admin. */
  lemma OnlyOwnersChange(reserved: set<string>, events: seq<Event>, e: Event, u: TunnelId)
    requires (e.command.Editing? || e.command.Moving?) && u in Run(reserved, events).tunnels
    ensures var db := Run(reserved, events);
      && db.routes.Keys == db.tunnels.Keys
      && (SameTunnel(db, Step(db, e), u)
          || (u == e.command.t && (e.command.admin || db.tunnels[u].owner == e.command.user)))
  {
    RunIsSound(reserved, events);
    match e.command
    case Editing(user, admin, t, qs) => EditTouches(Run(reserved, events), user, admin, t, qs, u);
    case Moving(user, admin, t, node) => MoveTouches(Run(reserved, events), user, admin, t, node, u);
  }

  // ------------------------------------------------------------------
  // What stays for life
  // ------------------------------------------------------------------

  predicate SameIdentity(a: Tunnel, b: Tunnel)
  {
    a.subdomain == b.subdomain && a.owner == b.owner && a.device == b.device && a.createdAt == b.createdAt
  }

  /** What was there is still the same, or gone; what is new has an id never used before. */
  ghost predicate KeepsIdentities(db: Db, db': Db)
  {
    && db.nextId <= db'.nextId
    && forall t :: t in db'.tunnels ==>
         if t in db.tunnels then SameIdentity(db.tunnels[t], db'.tunnels[t]) else t >= db.nextId
  }

  lemma ReserveIdentities(db: Db, r: Reservation, now: int)
    requires Sound(db)
    ensures KeepsIdentities(db, Reserve(db, r, now).0)
  {
    match ChooseName(db, r.names)
    case Named(name) => AddIdentities(db, r, name, now);
    case Unnamed(_) =>
  }

  lemma AddIdentities(db: Db, r: Reservation, name: string, now: int)
    requires Sound(db)
    ensures KeepsIdentities(db, AddTunnel(db, r, name, now).0)
  {
  }

  lemma RequestIdentities(db: Db, caller: Caller, ask: Ask, now: int)
    requires Sound(db)
    ensures KeepsIdentities(db, Requested(db, caller, ask, now).0)
  {
    if Turned(db, caller, ask) == None {
      ReserveIdentities(db, ReservationFor(db, caller, ask), now);
    }
  }

  lemma EditIdentities(db: Db, user: int, admin: bool, t: TunnelId, qs: seq<Request>)
    requires Sound(db)
    ensures KeepsIdentities(db, EditedRoutes(db, user, admin, t, qs).0)
  {
    if t in db.tunnels {
      SetRoutesIdentities(db, t, db.tunnels[t].node, qs);
    }
  }

  lemma SetRoutesIdentities(db: Db, t: TunnelId, node: NodeId, qs: seq<Request>)
    requires Sound(db) && t in db.tunnels
    ensures KeepsIdentities(db, SetRoutes(db, t, node, qs).0)
  {
  }

  lemma MoveIdentities(db: Db, user: int, admin: bool, t: TunnelId, node: NodeId)
    requires Sound(db)
    ensures KeepsIdentities(db, MovedTunnel(db, user, admin, t, node).0)
  {
    MoveAnswers(db, user, admin, t, node);
  }

  lemma {:induction false} SweepIds(db: Db, target: NodeId, pending: seq<TunnelId>)
    requires ReadyToSweep(db, target, pending)
    ensures Sweep(db, target, pending).0.nextId >= db.nextId
  {
    if pending != [] {
      ReadyPrefix(db, target, pending);
      SweepIds(db, target, pending[..|pending| - 1]);
    }
  }

  lemma SweepIdentities(db: Db, e: Event)
    requires Sound(db) && e.command.FailingOver?
    ensures KeepsIdentities(db, FailedOver(db, e.now, e.command))
  {
    if Sweepable(db, e.now, e.command) {
      FailoverExact(db, e.now, e.command.window, e.command.target.value, e.command.pending);
      SweepIds(db, e.command.target.value, e.command.pending);
      var db' := Sweep(db, e.command.target.value, e.command.pending).0;
      assert db'.tunnels.Keys == db.tunnels.Keys;
      forall t | t in db'.tunnels
        ensures SameIdentity(db.tunnels[t], db'.tunnels[t])
      {
        assert t !in e.command.pending ==> Untouched(db, db', t);
      }
    }
  }

  lemma SignalIdentities(db: Db, t: TunnelId, s: Signal, now: int)
    ensures KeepsIdentities(db, SignalTunnel(db, t, s, now))
  {
  }

  lemma StepIdentities(db: Db, e: Event)
    requires Sound(db)
    ensures KeepsIdentities(db, Step(db, e))
  {
    match e.command
    case Reserving(caller, ask) => RequestIdentities(db, caller, ask, e.now);
    case Editing(user, admin, t, qs) => EditIdentities(db, user, admin, t, qs);
    case Moving(user, admin, t, node) => MoveIdentities(db, user, admin, t, node);
    case FailingOver(_, _, _) => SweepIdentities(db, e);
    case Signalling(t, s) => SignalIdentities(db, t, s, e.now);
    case _ =>
  }

  /** In every run, a tunnel keeps its subdomain, owner, device and creation time for life, and its id
      is never given out again. */
  lemma {:induction false} IdentityStays(reserved: set<string>, events: seq<Event>, n: nat, t: TunnelId)
    requires n <= |events| && t in Run(reserved, events[..n]).tunnels
    ensures Run(reserved, events[..n]).nextId <= Run(reserved, events).nextId
    ensures t in Run(reserved, events).tunnels ==>
      SameIdentity(Run(reserved, events[..n]).tunnels[t], Run(reserved, events).tunnels[t])
    decreases |events|
  {
    if n < |events| {
      var before := events[..|events| - 1];
      assert before[..n] == events[..n];
      RunIsSound(reserved, before);
      RunIsSound(reserved, events[..n]);
      StepIdentities(Run(reserved, before), events[|events| - 1]);
      IdentityStays(reserved, before, n, t);
    } else {
      assert events[..n] == events;
    }
  }
}
