/** Any number of transactions on distinct tunnels at once, each claiming ports with
    `FOR UPDATE SKIP LOCKED`, in any interleaving of their statements. */
module PoolLocks {
  import opened Options
  import opened Sets
  import opened PortPool
  import opened RouteRows

  /** A transaction in flight. It has the pool rows it wrote locked, and works on its tunnel's
      routes; `loose` are the routes whose port it has freed and not claimed again. */
  datatype Tx = Tx(writes: map<PortKey, PoolRow>, rows: seq<Route>, loose: set<int>)

  /** The committed pool and routes, and the transactions in flight, one a tunnel. */
  datatype System = System(pool: Pool, rows: map<TunnelId, seq<Route>>, txs: map<TunnelId, Tx>)

  /** What a transaction reads: committed rows and its own writes. */
  function View(pool: Pool, writes: map<PortKey, PoolRow>): Pool
  {
    pool + writes
  }

  function LockedByOthers(s: System, t: TunnelId): set<PortKey>
  {
    set u, k | u in s.txs && u != t && k in s.txs[u].writes :: k
  }

  /** The ports a claim of `t` may pick from. */
  function Available(s: System, t: TunnelId, node: NodeId): set<int>
    requires t in s.txs
  {
    var view := View(s.pool, s.txs[t].writes);
    set k | k in view && k.0 == node && view[k].tunnel.None? && k !in LockedByOthers(s, t) :: k.1
  }

  function RowsOf(s: System, t: TunnelId): seq<Route>
  {
    if t in s.rows then s.rows[t] else []
  }

  // ------------------------------------------------------------------
  // Statements
  // ------------------------------------------------------------------

  datatype Action =
    | Begin(t: TunnelId)
    | InsertRoute(t: TunnelId, node: NodeId, rid: int, q: Request)
    | DropRoutes(t: TunnelId, rids: set<int>)
    | ReleaseAll(t: TunnelId)
    | Retake(t: TunnelId, node: NodeId, i: nat)
    | Commit(t: TunnelId)
    | Rollback(t: TunnelId)

  function Wrote(s: System, t: TunnelId, tx: Tx): System
  {
    s.(txs := s.txs[t := tx])
  }

  function Ended(s: System, t: TunnelId): System
  {
    s.(txs := s.txs - {t})
  }

  function Claiming(tx: Tx, t: TunnelId, k: PortKey, rid: int): map<PortKey, PoolRow>
  {
    tx.writes[k := PoolRow(Some(t), Some(rid))]
  }

  /** The writes of an `UPDATE` that frees the rows of `t` for the routes `rids`. */
  function Frees(view: Pool, t: TunnelId, rids: set<int>): map<PortKey, PoolRow>
  {
    map k | k in view && view[k].tunnel == Some(t) && view[k].route.Some? && view[k].route.value in rids :: FREE
  }

  function FreesAll(view: Pool, t: TunnelId): map<PortKey, PoolRow>
  {
    map k | k in view && view[k].tunnel == Some(t) :: FREE
  }

  function DedicatedIds(rows: seq<Route>): set<int>
  {
    set i | 0 <= i < |rows| && Dedicated(rows[i]) :: rows[i].routeId
  }

  /** One statement of one transaction; running out of ports or tripping an index rolls it back. */
  function Next(s: System, a: Action): System
  {
    if a.Begin? then (if a.t in s.txs then s else Wrote(s, a.t, Tx(map[], RowsOf(s, a.t), {})))
    else if a.t !in s.txs then s
    else
      var tx := s.txs[a.t];
      match a
      case Begin(_) => s
      case InsertRoute(t, node, rid, q) =>
        if !MayInsert(tx.rows, NewRoute(rid, q, None)) then Ended(s, t)
        else if q.mode.IsHostRouted() then Wrote(s, t, tx.(rows := tx.rows + [NewRoute(rid, q, None)]))
        else
          var free := Available(s, t, node);
          if free == {} then Ended(s, t)
          else
            var p := Least(free);
            Wrote(s, t, Tx(Claiming(tx, t, (node, p), rid), tx.rows + [NewRoute(rid, q, Some(p))], tx.loose))
      case DropRoutes(t, rids) =>
        Wrote(s, t, Tx(tx.writes + Frees(View(s.pool, tx.writes), t, rids), Drop(tx.rows, rids), tx.loose))
      case ReleaseAll(t) =>
        Wrote(s, t, Tx(tx.writes + FreesAll(View(s.pool, tx.writes), t), tx.rows, DedicatedIds(tx.rows)))
      case Retake(t, node, i) =>
        if i >= |tx.rows| || !Reclaims(tx.rows[i]) || tx.rows[i].routeId !in tx.loose then s
        else
          var free := Available(s, t, node);
          if free == {} then Ended(s, t)
          else
            var p, rid := Least(free), tx.rows[i].routeId;
            Wrote(s, t, Tx(Claiming(tx, t, (node, p), rid), tx.rows[i := tx.rows[i].(publicPort := Some(p))], tx.loose - {rid}))
      case Commit(t) =>
        Ended(s.(pool := View(s.pool, tx.writes), rows := s.rows[t := tx.rows]), t)
      case Rollback(t) => Ended(s, t)
  }

  // ------------------------------------------------------------------
  // Invariant
  // ------------------------------------------------------------------

  /** `t` has written only rows that are committed free or its own, and left them free or its own. */
  ghost predicate WritesOwn(pool: Pool, t: TunnelId, writes: map<PortKey, PoolRow>)
  {
    forall k :: k in writes ==>
      && k in pool
      && (pool[k].tunnel == None || pool[k].tunnel == Some(t))
      && (writes[k].tunnel == None || writes[k].tunnel == Some(t))
  }

  ghost predicate TxOk(pool: Pool, t: TunnelId, tx: Tx)
  {
    && WritesOwn(pool, t, tx.writes)
    && DistinctIds(tx.rows)
    && Agrees(Own(View(pool, tx.writes), t), tx.rows, tx.loose)
  }

  /** No two transactions have written, and so locked, the same pool row. */
  ghost predicate LocksDisjoint(s: System)
  {
    forall t, u :: t in s.txs && u in s.txs && t != u ==> s.txs[t].writes.Keys !! s.txs[u].writes.Keys
  }

  ghost predicate Consistent(s: System)
  {
    && LocksDisjoint(s)
    && (forall t :: t in s.txs ==> TxOk(s.pool, t, s.txs[t]))
    && (forall t :: DistinctIds(RowsOf(s, t)) && Agrees(Own(s.pool, t), RowsOf(s, t), {}))
  }

  /** What the source's transactions do beyond the statements: routes are dropped only while none
      is loose, inserted only then, and a transaction commits with none loose. */
  ghost predicate Disciplined(s: System, a: Action)
  {
    (a.Commit? || a.DropRoutes? || a.InsertRoute?) && a.t in s.txs ==> s.txs[a.t].loose == {}
  }

  // ------------------------------------------------------------------
  // Each statement
  // ------------------------------------------------------------------

  lemma TxChanges(s: System, t: TunnelId, tx: Tx)
    requires Consistent(s) && TxOk(s.pool, t, tx)
    requires forall u :: u in s.txs && u != t ==> tx.writes.Keys !! s.txs[u].writes.Keys
    ensures Consistent(Wrote(s, t, tx))
  {
    var s' := Wrote(s, t, tx);
    forall u
      ensures DistinctIds(RowsOf(s', u)) && Agrees(Own(s'.pool, u), RowsOf(s', u), {})
    {
      assert RowsOf(s', u) == RowsOf(s, u);
    }
  }

  lemma TxEnds(s: System, t: TunnelId)
    requires Consistent(s)
    ensures Consistent(Ended(s, t))
  {
    var s' := Ended(s, t);
    forall u
      ensures DistinctIds(RowsOf(s', u)) && Agrees(Own(s'.pool, u), RowsOf(s', u), {})
    {
      assert RowsOf(s', u) == RowsOf(s, u);
    }
  }

  lemma BeginKeeps(s: System, t: TunnelId)
    requires Consistent(s) && t !in s.txs
    ensures Consistent(Next(s, Begin(t)))
  {
    assert View(s.pool, map[]) == s.pool;
    assert DistinctIds(RowsOf(s, t)) && Agrees(Own(s.pool, t), RowsOf(s, t), {});
    TxChanges(s, t, Tx(map[], RowsOf(s, t), {}));
  }

  lemma AvailableMeans(s: System, t: TunnelId, node: NodeId, p: int)
    requires Consistent(s) && t in s.txs && p in Available(s, t, node)
    ensures (node, p) in s.pool && View(s.pool, s.txs[t].writes)[(node, p)].tunnel == None
    ensures s.pool[(node, p)].tunnel == None || s.pool[(node, p)].tunnel == Some(t)
    ensures forall u :: u in s.txs && u != t ==> (node, p) !in s.txs[u].writes
  {
    var k := (node, p);
    assert TxOk(s.pool, t, s.txs[t]);
    forall u | u in s.txs && u != t
      ensures k !in s.txs[u].writes
    {
      assert k in s.txs[u].writes ==> k in LockedByOthers(s, t);
    }
  }

  lemma ViewOfClaim(pool: Pool, tx: Tx, t: TunnelId, k: PortKey, rid: int)
    requires k in pool && k !in Own(View(pool, tx.writes), t)
    ensures Own(View(pool, Claiming(tx, t, k, rid)), t) == Own(View(pool, tx.writes), t)[k := Some(rid)]
  {
  }

  lemma ClaimWrites(s: System, t: TunnelId, node: NodeId, p: int, rid: int)
    requires Consistent(s) && t in s.txs && p in Available(s, t, node)
    ensures var tx, k := s.txs[t], (node, p); var writes := Claiming(tx, t, k, rid);
      && k !in Own(View(s.pool, tx.writes), t)
      && Own(View(s.pool, writes), t) == Own(View(s.pool, tx.writes), t)[k := Some(rid)]
      && WritesOwn(s.pool, t, writes)
      && forall u :: u in s.txs && u != t ==> writes.Keys !! s.txs[u].writes.Keys
  {
    AvailableMeans(s, t, node, p);
    assert TxOk(s.pool, t, s.txs[t]);
    ViewOfClaim(s.pool, s.txs[t], t, (node, p), rid);
  }

  lemma DistinctAppend(rows: seq<Route>, r: Route)
    requires DistinctIds(rows) && forall i :: 0 <= i < |rows| ==> rows[i].routeId != r.routeId
    ensures DistinctIds(rows + [r])
  {
  }

  lemma InsertKeeps(s: System, t: TunnelId, node: NodeId, rid: int, q: Request)
    requires Consistent(s) && t in s.txs && s.txs[t].loose == {}
    ensures Consistent(Next(s, InsertRoute(t, node, rid, q)))
  {
    var tx := s.txs[t];
    assert TxOk(s.pool, t, tx);
    TxEnds(s, t);
    if MayInsert(tx.rows, NewRoute(rid, q, None)) {
      if q.mode.IsHostRouted() {
        AgreesAddHost(Own(View(s.pool, tx.writes), t), tx.rows, NewRoute(rid, q, None));
        DistinctAppend(tx.rows, NewRoute(rid, q, None));
        TxChanges(s, t, tx.(rows := tx.rows + [NewRoute(rid, q, None)]));
      } else if Available(s, t, node) != {} {
        InsertClaims(s, t, node, rid, q, Least(Available(s, t, node)));
      }
    }
  }

  lemma InsertClaims(s: System, t: TunnelId, node: NodeId, rid: int, q: Request, p: int)
    requires Consistent(s) && t in s.txs && s.txs[t].loose == {} && p in Available(s, t, node)
    requires MayInsert(s.txs[t].rows, NewRoute(rid, q, None)) && !q.mode.IsHostRouted()
    ensures var tx := s.txs[t];
      Consistent(Wrote(s, t, Tx(Claiming(tx, t, (node, p), rid), tx.rows + [NewRoute(rid, q, Some(p))], tx.loose)))
  {
    var tx := s.txs[t];
    assert TxOk(s.pool, t, tx);
    ClaimWrites(s, t, node, p, rid);
    AgreesAdd(Own(View(s.pool, tx.writes), t), tx.rows, (node, p), NewRoute(rid, q, Some(p)));
    DistinctAppend(tx.rows, NewRoute(rid, q, Some(p)));
    TxChanges(s, t, Tx(Claiming(tx, t, (node, p), rid), tx.rows + [NewRoute(rid, q, Some(p))], tx.loose));
  }

  lemma RetakeKeeps(s: System, t: TunnelId, node: NodeId, i: nat, p: int)
    requires Consistent(s) && t in s.txs && p in Available(s, t, node)
    requires i < |s.txs[t].rows| && Reclaims(s.txs[t].rows[i]) && s.txs[t].rows[i].routeId in s.txs[t].loose
    ensures var tx := s.txs[t]; var rid := tx.rows[i].routeId;
      Consistent(Wrote(s, t, Tx(Claiming(tx, t, (node, p), rid), tx.rows[i := tx.rows[i].(publicPort := Some(p))],
                                tx.loose - {rid})))
  {
    var tx := s.txs[t];
    var rid := tx.rows[i].routeId;
    var rows' := tx.rows[i := tx.rows[i].(publicPort := Some(p))];
    assert TxOk(s.pool, t, tx);
    ClaimWrites(s, t, node, p, rid);
    AgreesReclaim(Own(View(s.pool, tx.writes), t), tx.rows, tx.loose, i, (node, p));
    assert DistinctIds(rows');
    TxChanges(s, t, Tx(Claiming(tx, t, (node, p), rid), rows', tx.loose - {rid}));
  }

  lemma MergeAssoc(pool: Pool, a: map<PortKey, PoolRow>, b: map<PortKey, PoolRow>)
    ensures View(pool, a + b) == View(View(pool, a), b)
  {
  }

  lemma FreesView(view: Pool, t: TunnelId, rids: set<int>)
    ensures View(view, Frees(view, t, rids)) == FreeRoutes(view, t, rids)
  {
  }

  lemma FreesAllView(view: Pool, t: TunnelId)
    ensures View(view, FreesAll(view, t)) == FreeTunnels(view, {t})
  {
  }

  /** Freeing writes only rows that `t` held, so rows that are in no other's writes. */
  lemma FreeingWrites(s: System, t: TunnelId, more: map<PortKey, PoolRow>)
    requires Consistent(s) && t in s.txs
    requires forall k :: k in more ==>
      more[k] == FREE && k in View(s.pool, s.txs[t].writes) && View(s.pool, s.txs[t].writes)[k].tunnel == Some(t)
    ensures WritesOwn(s.pool, t, s.txs[t].writes + more)
    ensures forall u :: u in s.txs && u != t ==> (s.txs[t].writes + more).Keys !! s.txs[u].writes.Keys
  {
    assert TxOk(s.pool, t, s.txs[t]);
    forall u | u in s.txs && u != t
      ensures (s.txs[t].writes + more).Keys !! s.txs[u].writes.Keys
    {
      assert TxOk(s.pool, u, s.txs[u]);
    }
  }

  lemma DropDistinct(rows: seq<Route>, rids: set<int>)
    requires DistinctIds(rows)
    ensures DistinctIds(Drop(rows, rids))
    decreases |rows|
  {
    if rows != [] {
      var n := |rows| - 1;
      DropDistinct(rows[..n], rids);
      DropMembers(rows[..n], rids);
      var d := Drop(rows[..n], rids);
      forall i | 0 <= i < |d|
        ensures d[i].routeId != rows[n].routeId
      {
        assert d[i] in rows[..n];
        var j :| 0 <= j < n && rows[..n][j] == d[i];
      }
    }
  }

  lemma DropKeeps(s: System, t: TunnelId, rids: set<int>)
    requires Consistent(s) && t in s.txs && s.txs[t].loose == {}
    ensures Consistent(Next(s, DropRoutes(t, rids)))
  {
    var tx := s.txs[t];
    var view := View(s.pool, tx.writes);
    assert TxOk(s.pool, t, tx);
    MergeAssoc(s.pool, tx.writes, Frees(view, t, rids));
    FreesView(view, t, rids);
    FreeRoutesEffect(view, t, rids, t);
    AgreesDrop(Own(view, t), tx.rows, rids);
    DropDistinct(tx.rows, rids);
    FreeingWrites(s, t, Frees(view, t, rids));
    TxChanges(s, t, Tx(tx.writes + Frees(view, t, rids), Drop(tx.rows, rids), tx.loose));
  }

  lemma NothingOwed(rows: seq<Route>)
    ensures Agrees(map[], rows, DedicatedIds(rows))
  {
    assert Owed(rows, DedicatedIds(rows)) == {};
    assert Backing(map[]) == {};
  }

  lemma ReleaseKeeps(s: System, t: TunnelId)
    requires Consistent(s) && t in s.txs
    ensures Consistent(Next(s, ReleaseAll(t)))
  {
    var tx := s.txs[t];
    var view := View(s.pool, tx.writes);
    assert TxOk(s.pool, t, tx);
    MergeAssoc(s.pool, tx.writes, FreesAll(view, t));
    FreesAllView(view, t);
    FreeTunnelsEffect(view, {t}, t);
    NothingOwed(tx.rows);
    FreeingWrites(s, t, FreesAll(view, t));
    TxChanges(s, t, Tx(tx.writes + FreesAll(view, t), tx.rows, DedicatedIds(tx.rows)));
  }

  // ------------------------------------------------------------------
  // Commit
  // ------------------------------------------------------------------

  /** A commit changes what no other tunnel holds, in the committed pool. */
  lemma CommitSpares(pool: Pool, t: TunnelId, writes: map<PortKey, PoolRow>, u: TunnelId)
    requires WritesOwn(pool, t, writes) && u != t
    ensures Own(View(pool, writes), u) == Own(pool, u)
  {
    var pool' := View(pool, writes);
    forall k
      ensures k in Own(pool', u) <==> k in Own(pool, u)
      ensures k in Own(pool, u) ==> Own(pool', u)[k] == Own(pool, u)[k]
    {
      assert k in writes ==> k in pool;
    }
  }

  /** ... nor in the view of any other transaction. */
  lemma CommitSparesView(pool: Pool, t: TunnelId, writes: map<PortKey, PoolRow>, u: TunnelId, others: map<PortKey, PoolRow>)
    requires WritesOwn(pool, t, writes) && WritesOwn(pool, u, others) && u != t && writes.Keys !! others.Keys
    ensures WritesOwn(View(pool, writes), u, others)
    ensures Own(View(View(pool, writes), others), u) == Own(View(pool, others), u)
  {
    var a, b := View(View(pool, writes), others), View(pool, others);
    forall k
      ensures k in Own(a, u) <==> k in Own(b, u)
      ensures k in Own(b, u) ==> Own(a, u)[k] == Own(b, u)[k]
    {
      assert k in writes ==> k in pool && k !in others;
    }
  }

  lemma CommitKeeps(s: System, t: TunnelId)
    requires Consistent(s) && t in s.txs && s.txs[t].loose == {}
    ensures Consistent(Next(s, Commit(t)))
  {
    var s' := Next(s, Commit(t));
    assert TxOk(s.pool, t, s.txs[t]);
    forall u | u in s'.txs
      ensures TxOk(s'.pool, u, s'.txs[u])
    {
      assert TxOk(s.pool, u, s.txs[u]);
      CommitSparesView(s.pool, t, s.txs[t].writes, u, s.txs[u].writes);
    }
    forall u
      ensures DistinctIds(RowsOf(s', u)) && Agrees(Own(s'.pool, u), RowsOf(s', u), {})
    {
      if u != t {
        assert RowsOf(s', u) == RowsOf(s, u);
        CommitSpares(s.pool, t, s.txs[t].writes, u);
      } else {
        assert RowsOf(s', t) == s.txs[t].rows;
      }
    }
  }

  lemma LooseBreaks(held: Held, rows: seq<Route>, loose: set<int>)
    requires Agrees(held, rows, loose) && loose <= DedicatedIds(rows)
    ensures Agrees(held, rows, {}) <==> loose == {}
  {
    if loose != {} {
      var id := Pick(loose);
      var i :| 0 <= i < |rows| && Dedicated(rows[i]) && rows[i].routeId == id;
      assert LinkOf(rows[i]) in Owed(rows, {}) && LinkOf(rows[i]) !in Owed(rows, loose);
    }
  }

  /** Committing keeps the agreement exactly if no route is loose. */
  lemma CommitKeepsIff(s: System, t: TunnelId)
    requires Consistent(s) && t in s.txs && s.txs[t].loose <= DedicatedIds(s.txs[t].rows)
    ensures Consistent(Next(s, Commit(t))) <==> s.txs[t].loose == {}
  {
    var s' := Next(s, Commit(t));
    var tx := s.txs[t];
    if tx.loose == {} {
      CommitKeeps(s, t);
    } else {
      assert TxOk(s.pool, t, tx);
      LooseBreaks(Own(View(s.pool, tx.writes), t), tx.rows, tx.loose);
      assert RowsOf(s', t) == tx.rows && s'.pool == View(s.pool, tx.writes);
    }
  }

  // ------------------------------------------------------------------
  // A migration's statements
  // ------------------------------------------------------------------

  /** Release all ports, then claim one for each tcp and udp route among the first `n`. */
  function Migrating(s: System, t: TunnelId, node: NodeId, rows: seq<Route>, n: nat): System
    requires n <= |rows|
  {
    if n == 0 then Next(s, ReleaseAll(t))
    else
      var before := Migrating(s, t, node, rows, n - 1);
      if Reclaims(rows[n - 1]) then Next(before, Retake(t, node, n - 1)) else before
  }

  lemma RetakeLoosens(s: System, t: TunnelId, node: NodeId, i: nat)
    requires t in s.txs && i < |s.txs[t].rows| && t in Next(s, Retake(t, node, i)).txs
    requires Reclaims(s.txs[t].rows[i]) && s.txs[t].rows[i].routeId in s.txs[t].loose
    ensures var tx, tx' := s.txs[t], Next(s, Retake(t, node, i)).txs[t];
      && tx'.loose == tx.loose - {tx.rows[i].routeId}
      && |tx'.rows| == |tx.rows|
      && forall j :: 0 <= j < |tx.rows| ==> tx'.rows[j].routeId == tx.rows[j].routeId && tx'.rows[j].kind == tx.rows[j].kind
  {
  }

  /** What is loose once the first `n` routes have been claimed for again. */
  lemma {:induction false} MigratingLoose(s: System, t: TunnelId, node: NodeId, rows: seq<Route>, n: nat)
    requires t in s.txs && s.txs[t].rows == rows && DistinctIds(rows) && n <= |rows|
    requires t in Migrating(s, t, node, rows, n).txs
    ensures var tx := Migrating(s, t, node, rows, n).txs[t];
      && tx.loose == Loose(rows, n)
      && |tx.rows| == |rows|
      && forall j :: 0 <= j < |rows| ==> tx.rows[j].routeId == rows[j].routeId && tx.rows[j].kind == rows[j].kind
  {
    if n > 0 {
      var before := Migrating(s, t, node, rows, n - 1);
      if t in before.txs {
        MigratingLoose(s, t, node, rows, n - 1);
        LooseStep(rows, n - 1);
        if Reclaims(rows[n - 1]) {
          RetakeLoosens(before, t, node, n - 1);
        }
      }
    }
  }

  /** A migration that finds all its ports ends with no route loose, and so may commit, exactly if
      the tunnel has no `both` route. */
  lemma MigrationCommitsIff(s: System, t: TunnelId, node: NodeId)
    requires t in s.txs && DistinctIds(s.txs[t].rows)
    requires t in Migrating(s, t, node, s.txs[t].rows, |s.txs[t].rows|).txs
    ensures Migrating(s, t, node, s.txs[t].rows, |s.txs[t].rows|).txs[t].loose == {} <==> NoBoth(s.txs[t].rows)
  {
    var rows := s.txs[t].rows;
    MigratingLoose(s, t, node, rows, |rows|);
    if NoBoth(rows) {
      assert Loose(rows, |rows|) == {};
    } else {
      var i :| 0 <= i < |rows| && rows[i].kind.Both?;
      assert rows[i].routeId in Loose(rows, |rows|);
    }
  }

  // ------------------------------------------------------------------
  // Runs
  // ------------------------------------------------------------------

  lemma NextKeeps(s: System, a: Action)
    requires Consistent(s) && Disciplined(s, a)
    ensures Consistent(Next(s, a))
  {
    TxEnds(s, a.t);
    match a
    case Begin(t) => if t !in s.txs { BeginKeeps(s, t); }
    case InsertRoute(t, node, rid, q) => if t in s.txs { InsertKeeps(s, t, node, rid, q); }
    case DropRoutes(t, rids) => if t in s.txs { DropKeeps(s, t, rids); }
    case ReleaseAll(t) => if t in s.txs { ReleaseKeeps(s, t); }
    case Retake(t, node, i) =>
      if t in s.txs && i < |s.txs[t].rows| && Reclaims(s.txs[t].rows[i]) && s.txs[t].rows[i].routeId in s.txs[t].loose
         && Available(s, t, node) != {} {
        RetakeKeeps(s, t, node, i, Least(Available(s, t, node)));
      }
    case Commit(t) => if t in s.txs { CommitKeeps(s, t); }
    case Rollback(t) =>
  }

  function RunAll(s: System, actions: seq<Action>): System
  {
    if actions == [] then s else Next(RunAll(s, actions[..|actions| - 1]), actions[|actions| - 1])
  }

  ghost predicate DisciplinedRun(s: System, actions: seq<Action>)
  {
    forall i :: 0 <= i < |actions| ==> Disciplined(RunAll(s, actions[..i]), actions[i])
  }

  /** Whatever the interleaving and whichever transactions commit or roll back, in whatever order:
      no pool row is ever locked by two transactions, and the committed pool agrees with the
      committed routes at every moment. */
  lemma {:induction false} ConcurrentAgreement(s: System, actions: seq<Action>)
    requires Consistent(s) && DisciplinedRun(s, actions)
    ensures Consistent(RunAll(s, actions))
  {
    if actions != [] {
      var n := |actions| - 1;
      forall i | 0 <= i < n
        ensures Disciplined(RunAll(s, actions[..n][..i]), actions[..n][i])
      {
        assert actions[..n][..i] == actions[..i];
      }
      ConcurrentAgreement(s, actions[..n]);
      NextKeeps(RunAll(s, actions[..n]), actions[n]);
    }
  }

  /** In every such run, no pool row is ever in the writes of two transactions in flight: a port
      claimed in one is out of reach of every other until it ends. */
  lemma NoDoubleClaim(s: System, actions: seq<Action>, t: TunnelId, u: TunnelId, node: NodeId, p: int)
    requires Consistent(s) && DisciplinedRun(s, actions)
    requires t in RunAll(s, actions).txs && u in RunAll(s, actions).txs && t != u
    requires (node, p) in RunAll(s, actions).txs[t].writes
    ensures (node, p) !in RunAll(s, actions).txs[u].writes && p !in Available(RunAll(s, actions), u, node)
  {
    ConcurrentAgreement(s, actions);
    OutOfReach(RunAll(s, actions), t, u, node, p);
  }

  lemma OutOfReach(s: System, t: TunnelId, u: TunnelId, node: NodeId, p: int)
    requires Consistent(s) && t in s.txs && u in s.txs && t != u && (node, p) in s.txs[t].writes
    ensures (node, p) !in s.txs[u].writes && p !in Available(s, u, node)
  {
    assert (node, p) in LockedByOthers(s, u);
  }

  /** A claim finds no port exactly if every pool row of the node is locked by another transaction
      or held: by a commit the transaction has not undone, or by the transaction itself. */
  lemma ExhaustedIff(s: System, t: TunnelId, node: NodeId)
    requires Consistent(s) && t in s.txs
    ensures Available(s, t, node) == {} <==>
      forall k :: k in s.pool && k.0 == node ==>
        || (exists u :: u in s.txs && u != t && k in s.txs[u].writes)
        || (k in s.txs[t].writes && s.txs[t].writes[k].tunnel == Some(t))
        || (k !in s.txs[t].writes && s.pool[k].tunnel.Some?)
  {
    var view := View(s.pool, s.txs[t].writes);
    assert TxOk(s.pool, t, s.txs[t]);
    forall k | k in s.pool && k.0 == node && k !in LockedByOthers(s, t) && view[k].tunnel.None?
      ensures k.1 in Available(s, t, node)
    {
      assert k in view && k.0 == node;
    }
    if Available(s, t, node) != {} {
      var p := Pick(Available(s, t, node));
      AvailableMeans(s, t, node, p);
      assert (node, p) in s.pool;
    }
  }

  // ------------------------------------------------------------------
  // One transaction alone
  // ------------------------------------------------------------------

  /** With no other transaction in flight, a claim may pick from all free ports of the node. */
  lemma AloneAvailable(s: System, t: TunnelId, node: NodeId)
    requires s.txs.Keys == {t}
    ensures Available(s, t, node) == FreePorts(View(s.pool, s.txs[t].writes), node)
  {
    assert LockedByOthers(s, t) == {};
  }

  lemma ViewOfWrite(pool: Pool, writes: map<PortKey, PoolRow>, k: PortKey, row: PoolRow)
    ensures View(pool, writes[k := row]) == View(pool, writes)[k := row]
  {
  }

  /** ... and an insertion is the sequential one on what the transaction sees. */
  lemma AloneInserts(s: System, t: TunnelId, node: NodeId, rid: int, q: Request)
    requires s.txs.Keys == {t}
    ensures var tx := s.txs[t]; var s' := Next(s, InsertRoute(t, node, rid, q));
      match AddRoute(View(s.pool, tx.writes), tx.rows, node, t, rid, q)
      case Work(pool, rows) =>
        t in s'.txs && View(s'.pool, s'.txs[t].writes) == pool && s'.txs[t].rows == rows
      case _ => t !in s'.txs
  {
    AloneAvailable(s, t, node);
    var free := Available(s, t, node);
    if free != {} {
      ViewOfWrite(s.pool, s.txs[t].writes, (node, Least(free)), PoolRow(Some(t), Some(rid)));
    }
  }

  /** ... and so is a deletion of routes, the release of all ports and the claim of one again; a commit
      makes what the transaction sees the committed state, and a rollback changes none of that. */
  lemma AloneDrops(s: System, t: TunnelId, rids: set<int>)
    requires s.txs.Keys == {t}
    ensures var tx, s' := s.txs[t], Next(s, DropRoutes(t, rids));
      t in s'.txs && View(s'.pool, s'.txs[t].writes) == FreeRoutes(View(s.pool, tx.writes), t, rids)
      && s'.txs[t].rows == Drop(tx.rows, rids)
    ensures var tx, s' := s.txs[t], Next(s, ReleaseAll(t));
      t in s'.txs && View(s'.pool, s'.txs[t].writes) == FreeTunnels(View(s.pool, tx.writes), {t}) && s'.txs[t].rows == tx.rows
  {
    var view := View(s.pool, s.txs[t].writes);
    MergeAssoc(s.pool, s.txs[t].writes, Frees(view, t, rids));
    MergeAssoc(s.pool, s.txs[t].writes, FreesAll(view, t));
    FreesView(view, t, rids);
    FreesAllView(view, t);
  }

  lemma AloneRetakes(s: System, t: TunnelId, node: NodeId, i: nat)
    requires s.txs.Keys == {t} && i < |s.txs[t].rows| && Reclaims(s.txs[t].rows[i]) && s.txs[t].rows[i].routeId in s.txs[t].loose
    ensures var tx, s' := s.txs[t], Next(s, Retake(t, node, i));
      match Claim(View(s.pool, tx.writes), node, t, tx.rows[i].routeId)
      case Exhausted => t !in s'.txs
      case Claimed(pool, port) =>
        t in s'.txs && View(s'.pool, s'.txs[t].writes) == pool && s'.txs[t].rows == tx.rows[i := tx.rows[i].(publicPort := Some(port))]
  {
    AloneAvailable(s, t, node);
    var free := Available(s, t, node);
    if free != {} {
      ViewOfWrite(s.pool, s.txs[t].writes, (node, Least(free)), PoolRow(Some(t), Some(s.txs[t].rows[i].routeId)));
    }
  }

  lemma TransactionEnds(s: System, t: TunnelId)
    requires t in s.txs
    ensures Next(s, Commit(t)) == System(View(s.pool, s.txs[t].writes), s.rows[t := s.txs[t].rows], s.txs - {t})
    ensures Next(s, Rollback(t)) == System(s.pool, s.rows, s.txs - {t})
  {
  }
}
