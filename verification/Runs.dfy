/** Whole runs of the control plane: any commands, in any order, from empty tables. */
module Runs {
  import opened Options
  import opened PortPool
  import opened RouteRows
  import opened RouteEdit
  import opened Policy
  import opened Tables
  import opened Allocator
  import opened Lifecycle
  import opened Failover
  import opened Handlers

  datatype Command =
    | Reserving(caller: Caller, ask: Ask)
    | Editing(user: int, admin: bool, t: TunnelId, qs: seq<Request>)
    | Moving(user: int, admin: bool, t: TunnelId, node: NodeId)
    | FailingOver(window: int, target: Option<NodeId>, pending: seq<TunnelId>)
    | Deleting(t: TunnelId)
    | SweepingAbandoned(grace: int)
    | SweepingIdle(window: int)
    | AddingDevice(device: int, owner: int)
    | DroppingDevice(device: int, owner: int)
    | DroppingUser(owner: int)
    | Registering(node: NodeId, details: Node, lo: int, hi: int)
    | DroppingNode(node: NodeId)
    | Signalling(t: TunnelId, signal: Signal)

  /** A command and the time it runs at. */
  datatype Event = Event(now: int, command: Command)

  /** Whether the sweep's inputs are answers the database could give. */
  ghost predicate Sweepable(db: Db, now: int, c: Command)
    requires c.FailingOver?
  {
    c.target.Some? && IsTarget(db, now, c.window, c.target) && IsPending(db, DeadNodes(db, now, c.window), c.pending)
  }

  ghost function FailedOver(db: Db, now: int, c: Command): Db
    requires c.FailingOver? && db.routes.Keys == db.tunnels.Keys
  {
    if Sweepable(db, now, c) then
      DeadAreNotTheTarget(db, now, c.window, c.target.value, c.pending);
      Sweep(db, c.target.value, c.pending).0
    else db
  }

  ghost function Step(db: Db, e: Event): Db
    requires db.routes.Keys == db.tunnels.Keys
  {
    match e.command
    case Reserving(caller, ask) => Requested(db, caller, ask, e.now).0
    case Editing(user, admin, t, qs) => EditedRoutes(db, user, admin, t, qs).0
    case Moving(user, admin, t, node) => MovedTunnel(db, user, admin, t, node).0
    case FailingOver(_, _, _) => FailedOver(db, e.now, e.command)
    case Deleting(t) => DeleteTunnels(db, {t})
    case SweepingAbandoned(grace) => DeleteTunnels(db, Abandoned(db, e.now, grace))
    case SweepingIdle(window) => Park(db, Idle(db, e.now, window))
    case AddingDevice(d, owner) => if d in db.devices then db else db.(devices := db.devices[d := owner])
    case DroppingDevice(d, owner) => DeleteDevice(db, d, owner)
    case DroppingUser(owner) => DeleteUser(db, owner)
    case Registering(node, details, lo, hi) => RegisterNode(db, node, details, lo, hi, e.now)
    case DroppingNode(node) => DeleteNode(db, node)
    case Signalling(t, signal) => SignalTunnel(db, t, signal, e.now)
  }

  /** The three commands that can lose the agreement, and when they do not, as the tables before them
      tell: a move or failover in which no tunnel that is to move and fits has a `both` route, and
      dropping a node that holds nothing. */
  ghost predicate Harmless(db: Db, e: Event)
    requires db.routes.Keys == db.tunnels.Keys
  {
    match e.command
    case Moving(user, admin, t, node) =>
      MayTouch(db, user, admin, t) && ActiveNode(db, Some(node)) && db.tunnels[t].node != node && MigrationFits(db, t, node)
      ==> NoBoth(db.routes[t])
    case FailingOver(_, target, pending) =>
      Sweepable(db, e.now, e.command) ==> NoBothFits(db, target.value, pending)
    case DroppingNode(node) => !HoldsOn(db, node)
    case _ => true
  }

  lemma FailedOverKeeps(db: Db, e: Event)
    requires Sound(db) && e.command.FailingOver?
    ensures Sound(FailedOver(db, e.now, e.command))
    ensures Agreement(db) ==> (Agreement(FailedOver(db, e.now, e.command)) <==> Harmless(db, e))
  {
    if Sweepable(db, e.now, e.command) {
      FailoverExact(db, e.now, e.command.window, e.command.target.value, e.command.pending);
    }
  }

  lemma MovedExactly(db: Db, e: Event)
    requires Sound(db) && e.command.Moving?
    ensures Sound(Step(db, e))
    ensures Agreement(db) ==> (Agreement(Step(db, e)) <==> Harmless(db, e))
  {
    var c := e.command;
    MovedTunnelKeeps(db, c.user, c.admin, c.t, c.node);
    if Agreement(db) && MayTouch(db, c.user, c.admin, c.t) && ActiveNode(db, Some(c.node)) {
      MigrateKeepsIff(db, c.t, c.node, db.nodes[c.node].publicHost);
    }
  }

  lemma AddingDeviceKeeps(db: Db, d: int, owner: int)
    requires Sound(db) && d !in db.devices
    ensures Sound(db.(devices := db.devices[d := owner]))
    ensures Agreement(db) ==> Agreement(db.(devices := db.devices[d := owner]))
  {
  }

  /** Every command keeps the tables sound, and keeps the agreement exactly if it is harmless. */
  lemma StepKeepsIff(db: Db, e: Event)
    requires Sound(db)
    ensures Sound(Step(db, e))
    ensures Agreement(db) ==> (Agreement(Step(db, e)) <==> Harmless(db, e))
  {
    match e.command
    case Reserving(caller, ask) => RequestedKeeps(db, caller, ask, e.now);
    case Editing(user, admin, t, qs) => EditedKeeps(db, user, admin, t, qs);
    case Moving(_, _, _, _) => MovedExactly(db, e);
    case FailingOver(_, _, _) => FailedOverKeeps(db, e);
    case Deleting(t) => DeleteKeeps(db, {t});
    case SweepingAbandoned(grace) => DeleteKeeps(db, Abandoned(db, e.now, grace));
    case SweepingIdle(window) => ParkKeeps(db, Idle(db, e.now, window));
    case AddingDevice(d, owner) => if d !in db.devices { AddingDeviceKeeps(db, d, owner); }
    case DroppingDevice(d, owner) => DeleteDeviceKeeps(db, d, owner);
    case DroppingUser(owner) => DeleteUserKeeps(db, owner);
    case Registering(node, details, lo, hi) => RegisterKeeps(db, node, details, lo, hi, e.now);
    case DroppingNode(node) => if Agreement(db) { DeleteNodeKeepsIff(db, node); } else { DroppedNodeSound(db, node); }
    case Signalling(t, signal) => SignalKeeps(db, t, signal, e.now);
  }

  lemma DroppedNodeSound(db: Db, node: NodeId)
    requires Sound(db)
    ensures Sound(DeleteNode(db, node))
  {
  }

  // ------------------------------------------------------------------
  // Runs
  // ------------------------------------------------------------------

  function Empty(reserved: set<string>): Db
  {
    Db(map[], map[], map[], map[], map[], reserved, 1)
  }

  /** The tables after a run. Every step is from sound tables, as `RunIsSound` shows. */
  ghost function Run(reserved: set<string>, events: seq<Event>): Db
  {
    if events == [] then Empty(reserved)
    else
      var db := Run(reserved, events[..|events| - 1]);
      if db.routes.Keys == db.tunnels.Keys then Step(db, events[|events| - 1]) else db
  }

  ghost predicate HarmlessRun(reserved: set<string>, events: seq<Event>)
  {
    events == [] ||
    (HarmlessRun(reserved, events[..|events| - 1])
     && var db := Run(reserved, events[..|events| - 1]);
        db.routes.Keys == db.tunnels.Keys && Harmless(db, events[|events| - 1]))
  }

  /** In every reachable state the tables are sound: signatures are those of the routes, subdomains
      and route sets are unique, each tunnel obeys the policy, no two services of a device want the
      same local socket, and every held pool row is held by an existing tunnel. */
  lemma {:induction false} RunIsSound(reserved: set<string>, events: seq<Event>)
    ensures Sound(Run(reserved, events))
  {
    if events != [] {
      RunIsSound(reserved, events[..|events| - 1]);
      StepKeepsIff(Run(reserved, events[..|events| - 1]), events[|events| - 1]);
    }
  }

  /** In every state reached by harmless commands, held pool rows and dedicated routes name each
      other one to one, and there are as many of the ones as of the others. */
  lemma {:induction false} RunAgrees(reserved: set<string>, events: seq<Event>)
    requires HarmlessRun(reserved, events)
    ensures Agreement(Run(reserved, events))
    ensures |HeldKeys(Run(reserved, events).pool)| == |DedicatedRoutes(Run(reserved, events))|
  {
    if events != [] {
      RunAgrees(reserved, events[..|events| - 1]);
      RunIsSound(reserved, events[..|events| - 1]);
      StepKeepsIff(Run(reserved, events[..|events| - 1]), events[|events| - 1]);
    }
    RunIsSound(reserved, events);
    HeldCount(Run(reserved, events));
  }

  // ------------------------------------------------------------------
  // Route ids
  // ------------------------------------------------------------------

  /** How often the routes of `t` were edited. */
  function Edits(events: seq<Event>, t: TunnelId): nat
  {
    if events == [] then 0
    else
      var c := events[|events| - 1].command;
      Edits(events[..|events| - 1], t) + (if c.Editing? && c.t == t then 1 else 0)
  }

  lemma MovedMaxId(rows: seq<Route>, rows': seq<Route>)
    requires SameButPorts(rows, rows') && forall i :: 0 <= i < |rows| ==> rows[i].routeId >= 1
    ensures MaxId(rows') <= MaxId(rows)
  {
    MaxIdBounds(rows);
    MaxIdNonNegative(rows);
    forall i | 0 <= i < |rows'|
      ensures rows'[i].routeId <= MaxId(rows)
    {
      assert rows'[i] == rows[i].(publicPort := rows'[i].publicPort);
    }
    MaxIdLeast(rows', MaxId(rows));
  }

  lemma MovedNear(rows: seq<Route>, rows': seq<Route>, k: nat)
    requires SameButPorts(rows, rows') && forall i :: 0 <= i < |rows| ==> rows[i].routeId >= 1
    ensures MaxId(rows') <= MaxId(rows)
    ensures Near(rows, k) ==> Near(rows', k)
  {
    MovedMaxId(rows, rows');
    if Near(rows, k) {
      PortsKeepNear(rows, rows', k);
    }
  }

  /** How far one command with that many edits of a tunnel (one or none) can raise the tunnel's
      largest route id, and how far it can take it from the id of a `both` route. */
  ghost predicate Raises(db: Db, db': Db, t: TunnelId, edits: nat, k: nat)
    requires t in db'.routes
  {
    if t in db.routes then
      && MaxId(db'.routes[t]) <= MaxId(db.routes[t]) + 6 * edits
      && (Near(db.routes[t], k) ==> Near(db'.routes[t], k + 4 * edits))
    else MaxId(db'.routes[t]) <= 6 && Near(db'.routes[t], 4)
  }

  lemma RequestedMaxId(db: Db, caller: Caller, ask: Ask, now: int, t: TunnelId, k: nat)
    requires Sound(db) && t in Requested(db, caller, ask, now).0.routes
    ensures Raises(db, Requested(db, caller, ask, now).0, t, 0, k)
  {
    var db' := Requested(db, caller, ask, now).0;
    if t !in db.routes {
      var r := ReservationFor(db, caller, ask);
      FreshRows(db.pool, r.node, db.nextId, r.wanted);
      AtMostSix(Wanted(r.wanted));
      MaxIdLeast(db'.routes[t], 6);
      FreshNear(db'.routes[t]);
    }
  }

  lemma EditedMaxId(db: Db, user: int, admin: bool, t: TunnelId, qs: seq<Request>, k: nat)
    requires Sound(db) && t in db.routes
    ensures Raises(db, EditedRoutes(db, user, admin, t, qs).0, t, 1, k)
    ensures forall u :: u in db.routes && u != t ==> Raises(db, EditedRoutes(db, user, admin, t, qs).0, u, 0, k)
  {
    if EditTurned(db, user, admin, t, qs) == None && SetRoutes(db, t, db.tunnels[t].node, qs).1 == None {
      SetRoutesExact(db, t, db.tunnels[t].node, qs);
      MaxIdNonNegative(db.routes[t]);
      if Near(db.routes[t], k) {
        ReconcileNear(db.routes[t], qs, SetRoutes(db, t, db.tunnels[t].node, qs).0.routes[t], k);
      }
    }
  }

  lemma MigratedMaxId(db: Db, user: int, admin: bool, m: TunnelId, node: NodeId, t: TunnelId, k: nat)
    requires Sound(db) && t in db.routes
    ensures t in MovedTunnel(db, user, admin, m, node).0.routes
    ensures Raises(db, MovedTunnel(db, user, admin, m, node).0, t, 0, k)
  {
    if MayTouch(db, user, admin, m) && ActiveNode(db, Some(node)) {
      MigrateRelocates(db, m, node, db.nodes[node].publicHost);
      assert RowsOk(db.tunnels[m], db.routes[m]);
      if t == m && Migrate(db, m, node, db.nodes[node].publicHost).1 == None {
        MovedNear(db.routes[m], Migrate(db, m, node, db.nodes[node].publicHost).0.routes[m], k);
      }
    }
  }

  lemma FailedOverRows(db: Db, e: Event, t: TunnelId)
    requires Sound(db) && e.command.FailingOver? && t in db.routes
    ensures var db' := FailedOver(db, e.now, e.command);
      t in db'.routes && (db'.routes[t] == db.routes[t] || SameButPorts(db.routes[t], db'.routes[t]))
  {
    if Sweepable(db, e.now, e.command) {
      FailoverExact(db, e.now, e.command.window, e.command.target.value, e.command.pending);
    }
  }

  lemma FailedOverMaxId(db: Db, e: Event, t: TunnelId, k: nat)
    requires Sound(db) && e.command.FailingOver? && t in db.routes
    ensures t in FailedOver(db, e.now, e.command).routes
    ensures Raises(db, FailedOver(db, e.now, e.command), t, 0, k)
  {
    FailedOverRows(db, e, t);
    assert RowsOk(db.tunnels[t], db.routes[t]);
    var rows' := FailedOver(db, e.now, e.command).routes[t];
    if rows' != db.routes[t] {
      MovedNear(db.routes[t], rows', k);
    }
  }

  lemma ParkedMaxId(db: Db, ts: set<TunnelId>, t: TunnelId, k: nat)
    requires Sound(db) && t in db.routes
    ensures t in Park(db, ts).routes && Raises(db, Park(db, ts), t, 0, k)
  {
    assert RowsOk(db.tunnels[t], db.routes[t]);
    MaxIdNonNegative(db.routes[t]);
  }

  /** The commands that neither add nor rewrite routes. */
  predicate LeavesRoutes(c: Command)
  {
    c.Deleting? || c.SweepingAbandoned? || c.AddingDevice? || c.DroppingDevice? || c.DroppingUser?
    || c.Registering? || c.DroppingNode? || c.Signalling?
  }

  lemma RoutesLeft(db: Db, e: Event, t: TunnelId)
    requires db.routes.Keys == db.tunnels.Keys && LeavesRoutes(e.command) && t in Step(db, e).routes
    ensures t in db.routes && Step(db, e).routes[t] == db.routes[t]
  {
  }

  lemma StepMaxId(db: Db, e: Event, t: TunnelId, k: nat)
    requires Sound(db) && t in Step(db, e).routes
    ensures Raises(db, Step(db, e), t, if e.command.Editing? && e.command.t == t then 1 else 0, k)
  {
    if LeavesRoutes(e.command) {
      RoutesLeft(db, e, t);
    } else if e.command.Reserving? || e.command.Editing? {
      AskedMaxId(db, e, t, k);
    } else {
      ChangesMaxId(db, e, t, k);
    }
  }

  lemma AskedMaxId(db: Db, e: Event, t: TunnelId, k: nat)
    requires Sound(db) && (e.command.Reserving? || e.command.Editing?) && t in Step(db, e).routes
    ensures Raises(db, Step(db, e), t, if e.command.Editing? && e.command.t == t then 1 else 0, k)
  {
    match e.command
    case Reserving(caller, ask) => RequestedMaxId(db, caller, ask, e.now, t, k);
    case Editing(user, admin, u, qs) => if u in db.routes { EditedMaxId(db, user, admin, u, qs, k); }
  }

  lemma ChangesMaxId(db: Db, e: Event, t: TunnelId, k: nat)
    requires Sound(db) && (e.command.Moving? || e.command.FailingOver? || e.command.SweepingIdle?) && t in Step(db, e).routes
    ensures Raises(db, Step(db, e), t, 0, k)
  {
    match e.command
    case Moving(user, admin, u, node) => MovedKeys(db, user, admin, u, node); MigratedMaxId(db, user, admin, u, node, t, k);
    case FailingOver(_, _, _) => FailedOverKeys(db, e); FailedOverMaxId(db, e, t, k);
    case SweepingIdle(window) => ParkedMaxId(db, Idle(db, e.now, window), t, k);
  }

  lemma MovedKeys(db: Db, user: int, admin: bool, m: TunnelId, node: NodeId)
    requires Sound(db)
    ensures MovedTunnel(db, user, admin, m, node).0.routes.Keys == db.routes.Keys
  {
  }

  lemma FailedOverKeys(db: Db, e: Event)
    requires Sound(db) && e.command.FailingOver?
    ensures FailedOver(db, e.now, e.command).routes.Keys == db.routes.Keys
  {
  }

  /** After k edits of a tunnel, in any run, all its route ids are between 1 and 6(k + 1), and none is
      more than 4(k + 1) above the id of a `both` route. */
  lemma {:induction false} RunMaxId(reserved: set<string>, events: seq<Event>, t: TunnelId)
    requires t in Run(reserved, events).routes
    ensures MaxId(Run(reserved, events).routes[t]) <= 6 * (Edits(events, t) + 1)
    ensures Near(Run(reserved, events).routes[t], 4 * (Edits(events, t) + 1))
  {
    if events != [] {
      var before := events[..|events| - 1];
      var db := Run(reserved, before);
      RunIsSound(reserved, before);
      StepMaxId(db, events[|events| - 1], t, 4 * (Edits(before, t) + 1));
      if t in db.routes {
        RunMaxId(reserved, before, t);
      }
    }
  }
}
