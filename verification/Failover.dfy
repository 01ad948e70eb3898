/** The failover sweep: move every tunnel of a dead node to one healthy node. */
module Failover {
  import opened Options
  import opened PortPool
  import opened RouteRows
  import opened Tables
  import opened Allocator
  import opened Lifecycle

  /** Active nodes not seen within the window. */
  function DeadNodes(db: Db, now: int, window: int): set<NodeId>
  {
    set n | n in db.nodes && db.nodes[n].active
            && (db.nodes[n].lastSeen == None || db.nodes[n].lastSeen.value < now - window)
  }

  function HealthyNodes(db: Db, now: int, window: int): set<NodeId>
  {
    set n | n in db.nodes && db.nodes[n].active && db.nodes[n].lastSeen.Some? && db.nodes[n].lastSeen.value >= now - window
  }

  /** An answer to the target query: an oldest healthy node, if there is a healthy one. */
  predicate IsTarget(db: Db, now: int, window: int, target: Option<NodeId>)
  {
    var healthy := HealthyNodes(db, now, window);
    if target == None then healthy == {}
    else target.value in healthy && forall n :: n in healthy ==> db.nodes[target.value].createdAt <= db.nodes[n].createdAt
  }

  ghost predicate NoDuplicates(ts: seq<TunnelId>)
  {
    forall i, j :: 0 <= i < j < |ts| ==> ts[i] != ts[j]
  }

  /** An answer to the query for the tunnels of dead nodes, in any order. */
  ghost predicate IsPending(db: Db, dead: set<NodeId>, pending: seq<TunnelId>)
  {
    && NoDuplicates(pending)
    && forall t :: t in pending <==> t in db.tunnels && db.tunnels[t].node in dead
  }

  /** `COALESCE(region, name, node_id)` */
  function RegionLabel(node: Node): string
  {
    match node.region case Some(r) => r case None => node.name
  }

  datatype Move = Move(subdomain: string, from: NodeId, to: NodeId)

  /** The failover of one tunnel whose row read `from`: migrate, then note where it came from. */
  function FailOver(db: Db, t: TunnelId, target: NodeId, host: string, from: string): (Db, Option<Denial>)
    requires t in db.tunnels && t in db.routes
  {
    var (moved, denial) := Migrate(db, t, target, host);
    if denial.Some? then (db, denial)
    else (moved.(tunnels := moved.tunnels[t := Moved(db.tunnels[t], target, host).(failoverFrom := Some(from))]), None)
  }

  ghost predicate ReadyToSweep(db: Db, target: NodeId, pending: seq<TunnelId>)
  {
    && db.routes.Keys == db.tunnels.Keys
    && target in db.nodes
    && forall t :: t in pending ==> t in db.tunnels && db.tunnels[t].node in db.nodes
  }

  lemma ReadyPrefix(db: Db, target: NodeId, pending: seq<TunnelId>)
    requires ReadyToSweep(db, target, pending) && pending != []
    ensures ReadyToSweep(db, target, pending[..|pending| - 1])
  {
    forall t | t in pending[..|pending| - 1]
      ensures t in pending
    {
    }
  }

  function FromLabel(db: Db, t: TunnelId): string
    requires t in db.tunnels && db.tunnels[t].node in db.nodes
  {
    RegionLabel(db.nodes[db.tunnels[t].node])
  }

  /** The sweep over `pending`, and the list of moves it reports. */
  ghost function Sweep(db: Db, target: NodeId, pending: seq<TunnelId>): (r: (Db, seq<Move>))
    requires ReadyToSweep(db, target, pending)
    ensures r.0.tunnels.Keys == db.tunnels.Keys && r.0.routes.Keys == db.routes.Keys
  {
    if pending == [] then (db, [])
    else
      var n := |pending| - 1;
      ReadyPrefix(db, target, pending);
      assert pending[n] in pending;
      var (swept, moves) := Sweep(db, target, pending[..n]);
      Turn(db, swept, moves, target, pending[n])
  }

  /** One turn: skip a tunnel already on the target, move it if it fits, leave it if not. */
  ghost function Turn(db: Db, swept: Db, moves: seq<Move>, target: NodeId, t: TunnelId): (r: (Db, seq<Move>))
    requires t in db.tunnels && db.tunnels[t].node in db.nodes && target in db.nodes
    requires t in swept.tunnels && t in swept.routes
    ensures r.0.tunnels.Keys == swept.tunnels.Keys && r.0.routes.Keys == swept.routes.Keys
  {
    var was := db.tunnels[t];
    if was.node == target then (swept, moves)
    else
      var (db', denial) := FailOver(swept, t, target, db.nodes[target].publicHost, FromLabel(db, t));
      if denial.Some? then (swept, moves) else (db', moves + [Move(was.subdomain, was.node, target)])
  }

  lemma SweepStep(db: Db, target: NodeId, pending: seq<TunnelId>, i: nat)
    requires ReadyToSweep(db, target, pending) && i < |pending|
    ensures ReadyToSweep(db, target, pending[..i]) && ReadyToSweep(db, target, pending[..i + 1])
    ensures pending[i] in db.tunnels && db.tunnels[pending[i]].node in db.nodes
    ensures var (swept, moves) := Sweep(db, target, pending[..i]);
      Sweep(db, target, pending[..i + 1]) == Turn(db, swept, moves, target, pending[i])
  {
    var t := pending[i];
    assert t in pending;
    assert pending[..i + 1][..i] == pending[..i];
    assert forall u :: u in pending[..i + 1] ==> u in pending;
    assert forall u :: u in pending[..i] ==> u in pending;
  }

  // ------------------------------------------------------------------
  // One tunnel
  // ------------------------------------------------------------------

  lemma FailOverEffect(db: Db, t: TunnelId, target: NodeId, host: string, from: string)
    requires Sound(db) && t in db.tunnels
    ensures var (db', denial) := FailOver(db, t, target, host, from);
      && Sound(db')
      && (denial.Some? ==> db' == db)
      && (denial == None ==> Relocated(db, db', t, Moved(db.tunnels[t], target, host).(failoverFrom := Some(from))))
  {
    MigrateRelocates(db, t, target, host);
    var (moved, denial) := Migrate(db, t, target, host);
    if denial == None {
      Marked(db, moved, t, Moved(db.tunnels[t], target, host), from);
      UpdateKeeps(moved, t, Moved(db.tunnels[t], target, host).(failoverFrom := Some(from)));
    }
  }

  lemma Marked(db: Db, moved: Db, t: TunnelId, tunnel: Tunnel, from: string)
    requires Relocated(db, moved, t, tunnel)
    ensures var tunnel' := tunnel.(failoverFrom := Some(from));
      Relocated(db, moved.(tunnels := moved.tunnels[t := tunnel']), t, tunnel')
  {
    var tunnel' := tunnel.(failoverFrom := Some(from));
    var db' := moved.(tunnels := moved.tunnels[t := tunnel']);
    assert TunnelAgrees(db', t) == TunnelAgrees(moved, t);
    assert db'.tunnels == db.tunnels[t := tunnel'];
  }

  // ------------------------------------------------------------------
  // The whole sweep
  // ------------------------------------------------------------------

  /** Tunnel `t` is exactly as it was. */
  ghost predicate Untouched(db: Db, db': Db, t: TunnelId)
    requires t in db.tunnels && t in db'.tunnels && t in db.routes && t in db'.routes
  {
    db'.tunnels[t] == db.tunnels[t] && db'.routes[t] == db.routes[t] && Own(db'.pool, t) == Own(db.pool, t)
  }

  /** The region of the node `t` was on, or the node's name if it has none. */
  function LeftRegion(db: Db, t: TunnelId): string
    requires t in db.tunnels && db.tunnels[t].node in db.nodes
  {
    var node := db.nodes[db.tunnels[t].node];
    if node.region.Some? then node.region.value else node.name
  }

  /** Tunnel `t` is on the target, under its old subdomain and the target's host, with its old region
      noted, its routes the same but for their ports, and it agrees with the pool unless it has a
      `both` route. */
  ghost predicate MovedTo(db: Db, db': Db, target: NodeId, t: TunnelId)
    requires t in db.tunnels && t in db'.tunnels && t in db.routes && t in db'.routes
    requires target in db.nodes && db.tunnels[t].node in db.nodes
  {
    && db.tunnels[t].node != target
    && MovedColumns(db.tunnels[t], db'.tunnels[t], target, db.nodes[target].publicHost, Some(LeftRegion(db, t)))
    && SameButPorts(db.routes[t], db'.routes[t])
    && (TunnelAgrees(db', t) <==> NoBoth(db.routes[t]))
  }

  function MoveOf(db: Db, target: NodeId, t: TunnelId): Move
    requires t in db.tunnels
  {
    Move(db.tunnels[t].subdomain, db.tunnels[t].node, target)
  }

  /** The moves of exactly those pending tunnels that are on the target in the end. */
  ghost function MovesSeen(db: Db, db': Db, target: NodeId, pending: seq<TunnelId>): seq<Move>
    requires forall t :: t in pending ==> t in db.tunnels && t in db'.tunnels
  {
    if pending == [] then []
    else
      var n := |pending| - 1;
      var t := pending[n];
      assert t in pending;
      assert forall u :: u in pending[..n] ==> u in pending;
      MovesSeen(db, db', target, pending[..n]) + (if db'.tunnels[t].node == target then [MoveOf(db, target, t)] else [])
  }

  lemma {:induction false} MovesSeenSame(db: Db, a: Db, b: Db, target: NodeId, pending: seq<TunnelId>)
    requires forall t :: t in pending ==> t in db.tunnels && t in a.tunnels && t in b.tunnels
    requires forall t :: t in pending ==> a.tunnels[t].node == b.tunnels[t].node
    ensures MovesSeen(db, a, target, pending) == MovesSeen(db, b, target, pending)
  {
    if pending != [] {
      var n := |pending| - 1;
      assert pending[n] in pending;
      assert forall t :: t in pending[..n] ==> t in pending;
      MovesSeenSame(db, a, b, target, pending[..n]);
    }
  }

  /** Every tunnel is either moved or untouched, and only pending ones are moved. */
  ghost predicate Outcome(db: Db, db': Db, target: NodeId, pending: seq<TunnelId>)
    requires ReadyToSweep(db, target, pending)
    requires db'.tunnels.Keys == db.tunnels.Keys && db'.routes.Keys == db.routes.Keys
  {
    && Sound(db')
    && db'.nodes == db.nodes && db'.devices == db.devices
    && (forall t :: t in db.tunnels && t !in pending ==> Untouched(db, db', t))
    && (forall t :: t in pending ==> Untouched(db, db', t) || MovedTo(db, db', target, t))
  }

  /** What one turn does to the tables. */
  ghost predicate TurnEffect(db: Db, swept: Db, db': Db, target: NodeId, t: TunnelId)
    requires t in db.tunnels && t in db.routes && target in db.nodes && db.tunnels[t].node in db.nodes
    requires t in swept.tunnels && t in swept.routes
  {
    && Sound(db')
    && db'.tunnels.Keys == swept.tunnels.Keys && db'.routes.Keys == swept.routes.Keys
    && db'.nodes == swept.nodes && db'.devices == swept.devices
    && (forall u :: u in swept.tunnels && u in swept.routes && u != t ==> Untouched(swept, db', u))
    && (Untouched(db, db', t) || MovedTo(db, db', target, t))
  }

  lemma RelocatedIsMoved(db: Db, swept: Db, db': Db, target: NodeId, t: TunnelId)
    requires t in db.tunnels && t in db.routes && target in db.nodes && db.tunnels[t].node in db.nodes
    requires db.tunnels[t].node != target
    requires t in swept.tunnels && t in swept.routes && Untouched(db, swept, t) && Sound(db')
    requires Relocated(swept, db', t, Moved(db.tunnels[t], target, db.nodes[target].publicHost).(failoverFrom := Some(FromLabel(db, t))))
    ensures TurnEffect(db, swept, db', target, t)
  {
    forall u | u in swept.tunnels && u in swept.routes && u != t
      ensures u in db'.tunnels && u in db'.routes && Untouched(swept, db', u)
    {
    }
    assert MovedTo(db, db', target, t);
  }

  lemma TurnHas(db: Db, swept: Db, moves: seq<Move>, target: NodeId, t: TunnelId)
    requires t in db.tunnels && t in db.routes && target in db.nodes && db.tunnels[t].node in db.nodes
    requires Sound(swept) && t in swept.tunnels && Untouched(db, swept, t)
    ensures TurnEffect(db, swept, Turn(db, swept, moves, target, t).0, target, t)
  {
    var (db', denial) := FailOver(swept, t, target, db.nodes[target].publicHost, FromLabel(db, t));
    FailOverEffect(swept, t, target, db.nodes[target].publicHost, FromLabel(db, t));
    if db.tunnels[t].node != target && denial == None {
      RelocatedIsMoved(db, swept, db', target, t);
    }
  }

  lemma OutcomeAfterTurn(db: Db, swept: Db, db': Db, target: NodeId, pending: seq<TunnelId>, u: TunnelId)
    requires ReadyToSweep(db, target, pending) && pending != []
    requires ReadyToSweep(db, target, pending[..|pending| - 1])
    requires swept.tunnels.Keys == db.tunnels.Keys && swept.routes.Keys == db.routes.Keys
    requires db'.tunnels.Keys == db.tunnels.Keys && db'.routes.Keys == db.routes.Keys
    requires u in db.tunnels && u != pending[|pending| - 1] && Untouched(swept, db', u)
    requires u !in pending[..|pending| - 1] ==> Untouched(db, swept, u)
    requires u in pending[..|pending| - 1] ==> Untouched(db, swept, u) || MovedTo(db, swept, target, u)
    ensures u !in pending ==> Untouched(db, db', u)
    ensures u in pending ==> Untouched(db, db', u) || MovedTo(db, db', target, u)
  {
    LastOnly(pending, u);
    if u in pending && MovedTo(db, swept, target, u) {
      assert TunnelAgrees(db', u) == TunnelAgrees(swept, u);
    }
  }

  lemma LastOnly(pending: seq<TunnelId>, u: TunnelId)
    requires pending != [] && u != pending[|pending| - 1]
    ensures u in pending[..|pending| - 1] <==> u in pending
  {
  }

  lemma LastIsNew(pending: seq<TunnelId>)
    requires pending != [] && NoDuplicates(pending)
    ensures pending[|pending| - 1] in pending && pending[|pending| - 1] !in pending[..|pending| - 1]
    ensures NoDuplicates(pending[..|pending| - 1])
  {
  }

  lemma {:induction false} SweepOutcome(db: Db, target: NodeId, pending: seq<TunnelId>)
    requires Sound(db) && ReadyToSweep(db, target, pending) && NoDuplicates(pending)
    ensures Outcome(db, Sweep(db, target, pending).0, target, pending)
  {
    if pending != [] {
      var n := |pending| - 1;
      ReadyPrefix(db, target, pending);
      LastIsNew(pending);
      SweepOutcome(db, target, pending[..n]);
      var (swept, moves) := Sweep(db, target, pending[..n]);
      TurnHas(db, swept, moves, target, pending[n]);
      TurnKeepsOutcome(db, swept, Turn(db, swept, moves, target, pending[n]).0, target, pending);
    }
  }

  lemma TurnKeepsOutcome(db: Db, swept: Db, db': Db, target: NodeId, pending: seq<TunnelId>)
    requires ReadyToSweep(db, target, pending) && pending != []
    requires ReadyToSweep(db, target, pending[..|pending| - 1])
    requires swept.tunnels.Keys == db.tunnels.Keys && swept.routes.Keys == db.routes.Keys
    requires Outcome(db, swept, target, pending[..|pending| - 1])
    requires pending[|pending| - 1] in db.tunnels && db.tunnels[pending[|pending| - 1]].node in db.nodes
    requires TurnEffect(db, swept, db', target, pending[|pending| - 1])
    ensures db'.tunnels.Keys == db.tunnels.Keys && db'.routes.Keys == db.routes.Keys
    ensures Outcome(db, db', target, pending)
  {
    var t := pending[|pending| - 1];
    forall u | u in db.tunnels && u != t
      ensures u !in pending ==> Untouched(db, db', u)
      ensures u in pending ==> Untouched(db, db', u) || MovedTo(db, db', target, u)
    {
      OutcomeAfterTurn(db, swept, db', target, pending, u);
    }
    assert t in pending;
  }

  /** No tunnel was on the target to begin with. */
  ghost predicate NoneOnTarget(db: Db, target: NodeId, pending: seq<TunnelId>)
  {
    forall t :: t in pending ==> t in db.tunnels && db.tunnels[t].node != target
  }

  lemma TurnReports(db: Db, swept: Db, moves: seq<Move>, target: NodeId, t: TunnelId)
    requires t in db.tunnels && db.tunnels[t].node in db.nodes && target in db.nodes && db.tunnels[t].node != target
    requires t in swept.tunnels && t in swept.routes && swept.tunnels[t] == db.tunnels[t]
    ensures var (db', moves') := Turn(db, swept, moves, target, t);
      && moves' == moves + (if db'.tunnels[t].node == target then [MoveOf(db, target, t)] else [])
      && (forall u :: u in swept.tunnels && u != t ==> db'.tunnels[u] == swept.tunnels[u])
  {
  }

  lemma TurnMoves(db: Db, swept: Db, moves: seq<Move>, target: NodeId, pending: seq<TunnelId>)
    requires pending != [] && NoDuplicates(pending)
    requires forall t :: t in pending ==> t in db.tunnels && t in swept.tunnels && t in swept.routes
    requires var t := pending[|pending| - 1];
      t in db.tunnels && db.tunnels[t].node in db.nodes && target in db.nodes && db.tunnels[t].node != target
      && t in swept.tunnels && t in swept.routes && swept.tunnels[t] == db.tunnels[t]
    requires forall t :: t in pending[..|pending| - 1] ==> t in db.tunnels && t in swept.tunnels
    requires moves == MovesSeen(db, swept, target, pending[..|pending| - 1])
    ensures var (db', moves') := Turn(db, swept, moves, target, pending[|pending| - 1]);
      moves' == MovesSeen(db, db', target, pending)
  {
    var n := |pending| - 1;
    var (db', moves') := Turn(db, swept, moves, target, pending[n]);
    TurnReports(db, swept, moves, target, pending[n]);
    LastIsNew(pending);
    MovesSeenSame(db, swept, db', target, pending[..n]);
  }

  /** The reported list is exactly the list of the tunnels that were moved. */
  lemma {:induction false} SweepReports(db: Db, target: NodeId, pending: seq<TunnelId>)
    requires Sound(db) && ReadyToSweep(db, target, pending) && NoDuplicates(pending) && NoneOnTarget(db, target, pending)
    ensures var (db', moves) := Sweep(db, target, pending); moves == MovesSeen(db, db', target, pending)
  {
    if pending != [] {
      var n := |pending| - 1;
      ReadyPrefix(db, target, pending);
      assert forall u :: u in pending[..n] ==> u in pending;
      assert pending[n] in pending && pending[n] !in pending[..n];
      SweepReports(db, target, pending[..n]);
      SweepOutcome(db, target, pending[..n]);
      var (swept, moves) := Sweep(db, target, pending[..n]);
      assert Untouched(db, swept, pending[n]);
      TurnMoves(db, swept, moves, target, pending);
    }
  }

  // ------------------------------------------------------------------
  // Enough ports
  // ------------------------------------------------------------------

  /** The ports that all pending tunnels need together. */
  ghost function TotalNeed(db: Db, pending: seq<TunnelId>): nat
    requires forall t :: t in pending ==> t in db.routes
  {
    if pending == [] then 0
    else
      var n := |pending| - 1;
      var t := pending[n];
      assert t in pending;
      assert forall u :: u in pending[..n] ==> u in pending;
      TotalNeed(db, pending[..n]) + MoveNeed(db.routes[t])
  }

  lemma TurnFits(db: Db, swept: Db, moves: seq<Move>, target: NodeId, t: TunnelId)
    requires t in db.tunnels && t in db.routes && target in db.nodes
    requires db.tunnels[t].node in db.nodes && db.tunnels[t].node != target
    requires Sound(swept) && t in swept.tunnels && Untouched(db, swept, t)
    ensures var (db', moves') := Turn(db, swept, moves, target, t); var free := |FreePorts(swept.pool, target)|;
      if Fits(db, target, free, t)
      then moves' == moves + [MoveOf(db, target, t)] && db'.tunnels[t].node == target
           && |FreePorts(db'.pool, target)| == free + |HeldOn(Own(db.pool, t), target)| - MoveNeed(db.routes[t])
      else db' == swept && moves' == moves
  {
    MigrateDeniedIff(swept, t, target, db.nodes[target].publicHost);
  }

  /** Tunnel `t` fits a target with that many free ports, once it gives back those it holds there. */
  predicate Fits(db: Db, target: NodeId, free: int, t: TunnelId)
    requires t in db.routes
  {
    MoveNeed(db.routes[t]) <= free + |HeldOn(Own(db.pool, t), target)|
  }

  /** The target's free ports after the tunnels of `pending` have had their turns, in order: each that
      fits gives back the ports it holds there and takes what it needs. */
  function Budget(db: Db, target: NodeId, pending: seq<TunnelId>): int
    requires forall t :: t in pending ==> t in db.routes
  {
    if pending == [] then |FreePorts(db.pool, target)|
    else
      var n := |pending| - 1;
      var t := pending[n];
      assert t in pending;
      assert forall u :: u in pending[..n] ==> u in pending;
      var free := Budget(db, target, pending[..n]);
      if Fits(db, target, free, t) then free + |HeldOn(Own(db.pool, t), target)| - MoveNeed(db.routes[t]) else free
  }

  /** The `i`-th pending tunnel fits what those before it leave. */
  predicate FitsAt(db: Db, target: NodeId, pending: seq<TunnelId>, i: nat)
    requires i < |pending| && forall t :: t in pending ==> t in db.routes
  {
    var t := pending[i];
    assert t in pending;
    assert forall u :: u in pending[..i] ==> u in pending;
    Fits(db, target, Budget(db, target, pending[..i]), t)
  }

  lemma FitsAtPrefix(db: Db, target: NodeId, pending: seq<TunnelId>, n: nat, i: nat)
    requires i < n <= |pending| && forall t :: t in pending ==> t in db.routes
    ensures forall t :: t in pending[..n] ==> t in db.routes
    ensures FitsAt(db, target, pending[..n], i) == FitsAt(db, target, pending, i)
  {
    assert forall t :: t in pending[..n] ==> t in pending;
    assert pending[..n][..i] == pending[..i];
  }

  /** The tunnels on the target are exactly those that fit, and the budget is what is left. */
  ghost predicate AsBudgeted(db: Db, db': Db, target: NodeId, pending: seq<TunnelId>)
    requires forall t :: t in pending ==> t in db.routes
  {
    && |FreePorts(db'.pool, target)| == Budget(db, target, pending)
    && forall i :: 0 <= i < |pending| ==> (OnTarget(db', target, pending[i]) <==> FitsAt(db, target, pending, i))
  }

  lemma TurnAsBudgeted(db: Db, swept: Db, db': Db, target: NodeId, pending: seq<TunnelId>)
    requires pending != [] && NoDuplicates(pending)
    requires forall t :: t in pending ==> t in db.routes
    requires forall t :: t in pending[..|pending| - 1] ==> t in db.routes
    requires AsBudgeted(db, swept, target, pending[..|pending| - 1])
    requires forall u :: u != pending[|pending| - 1] ==> (OnTarget(db', target, u) <==> OnTarget(swept, target, u))
    requires var n := |pending| - 1; var t := pending[n]; var free := Budget(db, target, pending[..n]);
      && t in db.routes
      && (OnTarget(db', target, t) <==> Fits(db, target, free, t))
      && |FreePorts(db'.pool, target)|
         == if Fits(db, target, free, t) then free + |HeldOn(Own(db.pool, t), target)| - MoveNeed(db.routes[t]) else free
    ensures AsBudgeted(db, db', target, pending)
  {
    var n := |pending| - 1;
    forall i | 0 <= i < n
      ensures OnTarget(db', target, pending[i]) <==> FitsAt(db, target, pending, i)
    {
      FitsAtPrefix(db, target, pending, n, i);
      assert pending[..n][i] == pending[i] && pending[i] != pending[n];
    }
  }

  lemma TurnOnTarget(db: Db, swept: Db, moves: seq<Move>, target: NodeId, t: TunnelId)
    requires t in db.tunnels && t in db.routes && target in db.nodes
    requires db.tunnels[t].node in db.nodes && db.tunnels[t].node != target
    requires Sound(swept) && t in swept.tunnels && Untouched(db, swept, t)
    ensures var db' := Turn(db, swept, moves, target, t).0; var free := |FreePorts(swept.pool, target)|;
      && (OnTarget(db', target, t) <==> Fits(db, target, free, t))
      && |FreePorts(db'.pool, target)|
         == (if Fits(db, target, free, t) then free + |HeldOn(Own(db.pool, t), target)| - MoveNeed(db.routes[t]) else free)
      && forall u :: u != t ==> (OnTarget(db', target, u) <==> OnTarget(swept, target, u))
  {
    TurnFits(db, swept, moves, target, t);
    TurnReports(db, swept, moves, target, t);
  }

  /** The tunnels the sweep moves are exactly those that fit. */
  lemma {:induction false} MovedIffFits(db: Db, target: NodeId, pending: seq<TunnelId>)
    requires Sound(db) && ReadyToSweep(db, target, pending) && NoDuplicates(pending) && NoneOnTarget(db, target, pending)
    requires forall t :: t in pending ==> t in db.routes
    ensures AsBudgeted(db, Sweep(db, target, pending).0, target, pending)
  {
    if pending != [] {
      var n := |pending| - 1;
      ReadyPrefix(db, target, pending);
      LastIsNew(pending);
      assert forall u :: u in pending[..n] ==> u in pending;
      MovedIffFits(db, target, pending[..n]);
      SweepOutcome(db, target, pending[..n]);
      var (swept, moves) := Sweep(db, target, pending[..n]);
      TurnOnTarget(db, swept, moves, target, pending[n]);
      TurnAsBudgeted(db, swept, Turn(db, swept, moves, target, pending[n]).0, target, pending);
    }
  }

  predicate OnTarget(db: Db, target: NodeId, t: TunnelId)
  {
    t in db.tunnels && db.tunnels[t].node == target
  }

  /** If the target's free ports cover the need of all pending tunnels, every one is moved. */
  lemma {:induction false} SweepMovesAll(db: Db, target: NodeId, pending: seq<TunnelId>)
    requires Sound(db) && ReadyToSweep(db, target, pending) && NoDuplicates(pending) && NoneOnTarget(db, target, pending)
    requires forall t :: t in pending ==> t in db.routes
    requires TotalNeed(db, pending) <= |FreePorts(db.pool, target)|
    ensures var (db', moves) := Sweep(db, target, pending);
      && |moves| == |pending|
      && |FreePorts(db'.pool, target)| >= |FreePorts(db.pool, target)| - TotalNeed(db, pending)
  {
    if pending != [] {
      var n := |pending| - 1;
      ReadyPrefix(db, target, pending);
      LastIsNew(pending);
      assert forall u :: u in pending[..n] ==> u in pending;
      SweepMovesAll(db, target, pending[..n]);
      SweepOutcome(db, target, pending[..n]);
      var (swept, moves) := Sweep(db, target, pending[..n]);
      assert Untouched(db, swept, pending[n]);
      TurnFits(db, swept, moves, target, pending[n]);
    }
  }

  // ------------------------------------------------------------------
  // Agreement
  // ------------------------------------------------------------------

  lemma SweepKeepsIfMoved(db: Db, target: NodeId, pending: seq<TunnelId>)
    requires Sound(db) && Agreement(db)
    requires ReadyToSweep(db, target, pending) && NoDuplicates(pending) && NoneOnTarget(db, target, pending)
    ensures var db' := Sweep(db, target, pending).0;
      Agreement(db') <==> forall t :: t in pending && db'.tunnels[t].node == target ==> NoBoth(db.routes[t])
  {
    SweepOutcome(db, target, pending);
    var db' := Sweep(db, target, pending).0;
    forall t | t in db.routes
      ensures t !in pending || db'.tunnels[t].node != target ==> TunnelAgrees(db', t)
      ensures t in pending && db'.tunnels[t].node == target ==> (TunnelAgrees(db', t) <==> NoBoth(db.routes[t]))
    {
      assert TunnelAgrees(db, t);
    }
    if Agreement(db') {
      forall t | t in pending && db'.tunnels[t].node == target
        ensures NoBoth(db.routes[t])
      {
        assert TunnelAgrees(db', t);
      }
    }
  }

  /** No pending tunnel that fits has a `both` route. */
  ghost predicate NoBothFits(db: Db, target: NodeId, pending: seq<TunnelId>)
    requires forall t :: t in pending ==> t in db.routes
  {
    forall i :: 0 <= i < |pending| && FitsAt(db, target, pending, i) ==>
      pending[i] in db.routes && NoBoth(db.routes[pending[i]])
  }

  /** The sweep keeps the agreement exactly if no pending tunnel that fits has a `both` route. */
  lemma SweepKeepsIff(db: Db, target: NodeId, pending: seq<TunnelId>)
    requires Sound(db) && Agreement(db)
    requires ReadyToSweep(db, target, pending) && NoDuplicates(pending) && NoneOnTarget(db, target, pending)
    requires forall t :: t in pending ==> t in db.routes
    ensures Agreement(Sweep(db, target, pending).0) <==> NoBothFits(db, target, pending)
  {
    var db' := Sweep(db, target, pending).0;
    SweepKeepsIfMoved(db, target, pending);
    MovedIffFits(db, target, pending);
    if NoBothFits(db, target, pending) {
      forall t | t in pending && db'.tunnels[t].node == target
        ensures NoBoth(db.routes[t])
      {
        var i :| 0 <= i < |pending| && pending[i] == t;
        assert OnTarget(db', target, pending[i]);
      }
    }
    if forall t :: t in pending && db'.tunnels[t].node == target ==> NoBoth(db.routes[t]) {
      forall i | 0 <= i < |pending| && FitsAt(db, target, pending, i)
        ensures pending[i] in db.routes && NoBoth(db.routes[pending[i]])
      {
        assert pending[i] in pending && OnTarget(db', target, pending[i]);
      }
    }
  }

  /** The report names a move for each tunnel that ends up on the target, and no other. */
  lemma {:induction false} MovesSeenMembers(db: Db, db': Db, target: NodeId, pending: seq<TunnelId>)
    requires forall t :: t in pending ==> t in db.tunnels && t in db'.tunnels
    ensures forall m :: m in MovesSeen(db, db', target, pending) <==>
      exists i :: 0 <= i < |pending| && Reported(db, db', target, pending[i], m)
  {
    if pending != [] {
      var n := |pending| - 1;
      assert pending[n] in pending;
      assert forall u :: u in pending[..n] ==> u in pending;
      MovesSeenMembers(db, db', target, pending[..n]);
      forall m
        ensures m in MovesSeen(db, db', target, pending) <==>
          exists i :: 0 <= i < |pending| && Reported(db, db', target, pending[i], m)
      {
        MoveSeenLast(db, db', target, pending, pending[..n], m);
      }
    }
  }

  lemma MoveSeenLast(db: Db, db': Db, target: NodeId, pending: seq<TunnelId>, front: seq<TunnelId>, m: Move)
    requires pending != [] && front == pending[..|pending| - 1]
    requires forall t :: t in pending ==> t in db.tunnels && t in db'.tunnels
    requires forall t :: t in front ==> t in db.tunnels && t in db'.tunnels
    requires m in MovesSeen(db, db', target, front) <==>
      exists i :: 0 <= i < |front| && Reported(db, db', target, front[i], m)
    ensures m in MovesSeen(db, db', target, pending) <==>
      exists i :: 0 <= i < |pending| && Reported(db, db', target, pending[i], m)
  {
    var n := |front|;
    var t := pending[n];
    assert t in pending;
    assert m in MovesSeen(db, db', target, pending)
      <==> m in MovesSeen(db, db', target, front) || Reported(db, db', target, t, m);
    ReportedLast(db, db', target, pending, front, m);
  }

  lemma ReportedLast(db: Db, db': Db, target: NodeId, pending: seq<TunnelId>, front: seq<TunnelId>, m: Move)
    requires pending != [] && front == pending[..|pending| - 1]
    ensures (exists i :: 0 <= i < |pending| && Reported(db, db', target, pending[i], m))
      <==> (exists i :: 0 <= i < |front| && Reported(db, db', target, front[i], m))
           || Reported(db, db', target, pending[|front|], m)
  {
    if i :| 0 <= i < |pending| && Reported(db, db', target, pending[i], m) {
      if i < |front| {
        assert Reported(db, db', target, front[i], m);
      }
    }
    if i :| 0 <= i < |front| && Reported(db, db', target, front[i], m) {
      assert Reported(db, db', target, pending[i], m);
    }
  }

  /** `m` tells of tunnel `t`, by the subdomain and node it had, and it is now on the target. */
  predicate Reported(db: Db, db': Db, target: NodeId, t: TunnelId, m: Move)
  {
    && t in db.tunnels && OnTarget(db', target, t)
    && m.subdomain == db.tunnels[t].subdomain && m.from == db.tunnels[t].node && m.to == target
  }

  /** The node is active and was not seen within the window. */
  predicate Silent(db: Db, now: int, window: int, node: NodeId)
  {
    && node in db.nodes && db.nodes[node].active
    && match db.nodes[node].lastSeen case Some(at) => now - at > window case None => true
  }

  /** The node is active and was seen within the window, and no such node is older. */
  ghost predicate OldestHealthy(db: Db, now: int, window: int, node: NodeId)
  {
    && node in db.nodes && SeenWithin(db.nodes[node], now, window)
    && forall n :: n in db.nodes && SeenWithin(db.nodes[n], now, window) ==> db.nodes[node].createdAt <= db.nodes[n].createdAt
  }

  predicate SeenWithin(node: Node, now: int, window: int)
  {
    node.active && node.lastSeen.Some? && now - node.lastSeen.value <= window
  }

  lemma DeadAreNotTheTarget(db: Db, now: int, window: int, target: NodeId, pending: seq<TunnelId>)
    requires db.routes.Keys == db.tunnels.Keys
    requires IsTarget(db, now, window, Some(target)) && IsPending(db, DeadNodes(db, now, window), pending)
    ensures ReadyToSweep(db, target, pending) && NoneOnTarget(db, target, pending)
  {
  }

  /** The target is an oldest healthy node, and pending are exactly the tunnels of silent nodes. */
  lemma AnswersMean(db: Db, now: int, window: int, target: NodeId, pending: seq<TunnelId>)
    requires IsTarget(db, now, window, Some(target)) && IsPending(db, DeadNodes(db, now, window), pending)
    ensures OldestHealthy(db, now, window, target)
    ensures forall t :: t in pending <==> t in db.tunnels && Silent(db, now, window, db.tunnels[t].node)
  {
  }

  /** What the sweep reports: a move for each tunnel that ends up on the target, and no other. */
  lemma ReportsExactly(db: Db, target: NodeId, pending: seq<TunnelId>)
    requires Sound(db) && ReadyToSweep(db, target, pending) && NoDuplicates(pending) && NoneOnTarget(db, target, pending)
    ensures var (db', moves) := Sweep(db, target, pending);
      forall m :: m in moves <==> exists i :: 0 <= i < |pending| && Reported(db, db', target, pending[i], m)
  {
    SweepReports(db, target, pending);
    MovesSeenMembers(db, Sweep(db, target, pending).0, target, pending);
  }

  /** The failover sweep over the tunnels of dead nodes, whatever order the tables list them in:
      tunnels of nodes that are not dead are untouched, every other is untouched or on the target
      under its old subdomain with its origin noted, the moved ones are exactly those that fit, and the
      report lists exactly the moves. */
  lemma FailoverExact(db: Db, now: int, window: int, target: NodeId, pending: seq<TunnelId>)
    requires Sound(db)
    requires IsTarget(db, now, window, Some(target)) && IsPending(db, DeadNodes(db, now, window), pending)
    ensures ReadyToSweep(db, target, pending)
    ensures forall t :: t in pending ==> t in db.routes
    ensures OldestHealthy(db, now, window, target)
    ensures forall t :: t in pending <==> t in db.tunnels && Silent(db, now, window, db.tunnels[t].node)
    ensures var (db', moves) := Sweep(db, target, pending);
      && Outcome(db, db', target, pending)
      && (forall m :: m in moves <==> exists i :: 0 <= i < |pending| && Reported(db, db', target, pending[i], m))
      && (TotalNeed(db, pending) <= |FreePorts(db.pool, target)| ==> |moves| == |pending|)
      && (forall i :: 0 <= i < |pending| ==> (OnTarget(db', target, pending[i]) <==> FitsAt(db, target, pending, i)))
      && (Agreement(db) ==> (Agreement(db') <==> NoBothFits(db, target, pending)))
  {
    DeadAreNotTheTarget(db, now, window, target, pending);
    SweepOutcome(db, target, pending);
    AnswersMean(db, now, window, target, pending);
    ReportsExactly(db, target, pending);
    MovedIffFits(db, target, pending);
    if TotalNeed(db, pending) <= |FreePorts(db.pool, target)| {
      SweepMovesAll(db, target, pending);
    }
    if Agreement(db) {
      SweepKeepsIff(db, target, pending);
    }
  }
}
