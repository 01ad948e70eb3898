/** The routes of one tunnel: their rows, the policy on them, and their agreement with the
    pool rows the tunnel holds. */
module RouteRows {
  import opened Options
  import opened Claims
  import opened Signature
  import opened PortPool

  datatype Route = Route(routeId: int, kind: RouteMode, localPort: nat, publicPort: Option<int>,
                         caption: Option<string>, srv: Option<string>)

  datatype Request = Request(mode: RouteMode, localPort: nat, caption: Option<string>)

  predicate Dedicated(r: Route)
  {
    !r.kind.IsHostRouted()
  }

  function PairOf(r: Route): Pair
  {
    (r.kind, r.localPort)
  }

  function Pairs(rows: seq<Route>): (ps: seq<Pair>)
    ensures |ps| == |rows|
  {
    seq(|rows|, i requires 0 <= i < |rows| => PairOf(rows[i]))
  }

  function Wanted(qs: seq<Request>): (ps: seq<Pair>)
    ensures |ps| == |qs|
  {
    seq(|qs|, i requires 0 <= i < |qs| => (qs[i].mode, qs[i].localPort))
  }

  // ------------------------------------------------------------------
  // Agreement of held pool rows and route rows
  // ------------------------------------------------------------------

  /** A route id and the public port that belongs to it. */
  type Link = (Option<int>, Option<int>)

  function LinkOf(r: Route): Link
  {
    (Some(r.routeId), r.publicPort)
  }

  /** What the held pool rows say. */
  function Backing(held: Held): set<Link>
  {
    set k | k in held :: (held[k], Some(k.1))
  }

  /** What the dedicated routes say, leaving out the ids in `loose`. */
  function Owed(rows: seq<Route>, loose: set<int>): set<Link>
  {
    set i | 0 <= i < |rows| && Dedicated(rows[i]) && rows[i].routeId !in loose :: LinkOf(rows[i])
  }

  ghost predicate OneRowEach(held: Held)
  {
    forall k, l :: k in held && l in held && held[k] == held[l] ==> k == l
  }

  /** Held pool rows and dedicated routes name each other one to one, except that the routes
      with an id in `loose` are held by no row. */
  ghost predicate Agrees(held: Held, rows: seq<Route>, loose: set<int>)
  {
    OneRowEach(held) && Backing(held) == Owed(rows, loose)
  }

  ghost predicate DistinctIds(rows: seq<Route>)
  {
    forall i, j :: 0 <= i < j < |rows| ==> rows[i].routeId != rows[j].routeId
  }

  /** Ids grow along the table, as `ORDER BY route_id` reads it. */
  ghost predicate Ascending(rows: seq<Route>)
  {
    forall i, j :: 0 <= i < j < |rows| ==> rows[i].routeId < rows[j].routeId
  }

  /** Exactly the dedicated routes have a public port. */
  ghost predicate PortsFit(rows: seq<Route>)
  {
    forall i :: 0 <= i < |rows| ==> (rows[i].publicPort.Some? <==> Dedicated(rows[i]))
  }

  /** Row `i` is backed by pool row `k`. */
  ghost predicate Backed(held: Held, rows: seq<Route>, i: nat, k: PortKey)
  {
    i < |rows| && Dedicated(rows[i]) && k in held
    && held[k] == Some(rows[i].routeId) && rows[i].publicPort == Some(k.1)
  }

  ghost predicate BackedOnce(held: Held, rows: seq<Route>, i: nat)
  {
    exists k :: Backed(held, rows, i, k) && forall l :: Backed(held, rows, i, l) ==> l == k
  }

  ghost predicate BacksOne(held: Held, rows: seq<Route>, k: PortKey)
  {
    exists i: nat :: Backed(held, rows, i, k) && forall j: nat :: Backed(held, rows, j, k) ==> j == i
  }

  lemma AgreesForward(held: Held, rows: seq<Route>)
    requires DistinctIds(rows) && Agrees(held, rows, {})
    ensures forall k :: k in held ==> BacksOne(held, rows, k)
    ensures forall i :: 0 <= i < |rows| && Dedicated(rows[i]) ==> BackedOnce(held, rows, i)
  {
    forall k | k in held
      ensures BacksOne(held, rows, k)
    {
      assert (held[k], Some(k.1)) in Owed(rows, {});
      var i :| 0 <= i < |rows| && Dedicated(rows[i]) && LinkOf(rows[i]) == (held[k], Some(k.1));
      assert Backed(held, rows, i, k);
    }
    forall i | 0 <= i < |rows| && Dedicated(rows[i])
      ensures BackedOnce(held, rows, i)
    {
      assert LinkOf(rows[i]) in Backing(held);
      var k :| k in held && (held[k], Some(k.1)) == LinkOf(rows[i]);
      assert Backed(held, rows, i, k);
    }
  }

  lemma AgreesBackward(held: Held, rows: seq<Route>)
    requires DistinctIds(rows)
    requires forall k :: k in held ==> BacksOne(held, rows, k)
    requires forall i :: 0 <= i < |rows| && Dedicated(rows[i]) ==> BackedOnce(held, rows, i)
    ensures Agrees(held, rows, {})
  {
    forall k, l | k in held && l in held && held[k] == held[l]
      ensures k == l
    {
      var i: nat :| Backed(held, rows, i, k);
      var j: nat :| Backed(held, rows, j, l);
      assert i == j;
    }
    forall x | x in Backing(held)
      ensures x in Owed(rows, {})
    {
      var k :| k in held && x == (held[k], Some(k.1));
      var i: nat :| Backed(held, rows, i, k);
      assert LinkOf(rows[i]) == x;
    }
    forall x | x in Owed(rows, {})
      ensures x in Backing(held)
    {
      var i :| 0 <= i < |rows| && Dedicated(rows[i]) && LinkOf(rows[i]) == x;
      assert BackedOnce(held, rows, i);
      var k :| Backed(held, rows, i, k);
    }
  }

  /** The agreement in plain terms: each held pool row names exactly one dedicated route, whose
      public port is the row's port, and each dedicated route has exactly one held row. */
  lemma AgreesMeans(held: Held, rows: seq<Route>)
    requires DistinctIds(rows)
    ensures Agrees(held, rows, {}) <==>
      (forall k :: k in held ==> BacksOne(held, rows, k))
      && (forall i :: 0 <= i < |rows| && Dedicated(rows[i]) ==> BackedOnce(held, rows, i))
  {
    if Agrees(held, rows, {}) {
      AgreesForward(held, rows);
    }
    if (forall k :: k in held ==> BacksOne(held, rows, k))
       && (forall i :: 0 <= i < |rows| && Dedicated(rows[i]) ==> BackedOnce(held, rows, i)) {
      AgreesBackward(held, rows);
    }
  }

  lemma BackingAdd(held: Held, k: PortKey, id: Option<int>)
    requires k !in held
    ensures Backing(held[k := id]) == Backing(held) + {(id, Some(k.1))}
  {
    var held' := held[k := id];
    forall x | x in Backing(held)
      ensures x in Backing(held')
    {
      var l :| l in held && x == (held[l], Some(l.1));
      assert l in held' && held'[l] == held[l];
    }
    assert k in held';
  }

  lemma OwedAdd(rows: seq<Route>, r: Route, loose: set<int>)
    ensures Owed(rows + [r], loose)
         == Owed(rows, loose) + (if Dedicated(r) && r.routeId !in loose then {LinkOf(r)} else {})
  {
    var rows' := rows + [r];
    forall x | x in Owed(rows, loose)
      ensures x in Owed(rows', loose)
    {
      var i :| 0 <= i < |rows| && Dedicated(rows[i]) && rows[i].routeId !in loose && x == LinkOf(rows[i]);
      assert rows'[i] == rows[i];
    }
    assert rows'[|rows|] == r;
  }

  /** Every held row is for the id of some route. */
  lemma HeldIds(held: Held, rows: seq<Route>, loose: set<int>, k: PortKey) returns (i: nat)
    requires Agrees(held, rows, loose) && k in held
    ensures i < |rows| && Dedicated(rows[i]) && rows[i].routeId !in loose && held[k] == Some(rows[i].routeId)
  {
    assert (held[k], Some(k.1)) in Owed(rows, loose);
    i :| 0 <= i < |rows| && Dedicated(rows[i]) && rows[i].routeId !in loose && LinkOf(rows[i]) == (held[k], Some(k.1));
  }

  lemma OneRowAdd(held: Held, rows: seq<Route>, loose: set<int>, k: PortKey, id: int)
    requires Agrees(held, rows, loose)
    requires forall i :: 0 <= i < |rows| && rows[i].routeId !in loose ==> rows[i].routeId != id
    ensures OneRowEach(held[k := Some(id)])
  {
    forall l | l in held
      ensures held[l] != Some(id)
    {
      var i := HeldIds(held, rows, loose, l);
    }
  }

  /** A claimed port and its new route keep the agreement. */
  lemma AgreesAdd(held: Held, rows: seq<Route>, k: PortKey, r: Route)
    requires Agrees(held, rows, {}) && k !in held && Dedicated(r) && r.publicPort == Some(k.1)
    requires forall i :: 0 <= i < |rows| ==> rows[i].routeId != r.routeId
    ensures Agrees(held[k := Some(r.routeId)], rows + [r], {})
  {
    BackingAdd(held, k, Some(r.routeId));
    OwedAdd(rows, r, {});
    OneRowAdd(held, rows, {}, k, r.routeId);
  }

  /** A host-routed route holds nothing. */
  lemma AgreesAddHost(held: Held, rows: seq<Route>, r: Route)
    requires Agrees(held, rows, {}) && !Dedicated(r)
    ensures Agrees(held, rows + [r], {})
  {
    OwedAdd(rows, r, {});
  }

  // ------------------------------------------------------------------
  // Dropping rows
  // ------------------------------------------------------------------

  /** `DELETE FROM routes WHERE route_id = ANY(rids)` */
  function Drop(rows: seq<Route>, rids: set<int>): (kept: seq<Route>)
  {
    if rows == [] then []
    else
      var n := |rows| - 1;
      Drop(rows[..n], rids) + (if rows[n].routeId in rids then [] else [rows[n]])
  }

  lemma {:induction false} DropMembers(rows: seq<Route>, rids: set<int>)
    ensures forall r :: r in Drop(rows, rids) <==> r in rows && r.routeId !in rids
  {
    if rows != [] {
      var n := |rows| - 1;
      DropMembers(rows[..n], rids);
      assert rows == rows[..n] + [rows[n]];
    }
  }

  lemma {:induction false} DropAscending(rows: seq<Route>, rids: set<int>)
    requires Ascending(rows)
    ensures Ascending(Drop(rows, rids))
  {
    if rows != [] {
      var n := |rows| - 1;
      DropAscending(rows[..n], rids);
      DropMembers(rows[..n], rids);
      var d := Drop(rows[..n], rids);
      forall i | 0 <= i < |d|
        ensures d[i].routeId < rows[n].routeId
      {
        assert d[i] in rows[..n];
      }
    }
  }

  lemma BackingWithout(held: Held, rids: set<int>)
    ensures Backing(Without(held, rids)) == set x | x in Backing(held) && !(x.0.Some? && x.0.value in rids)
  {
    var held' := Without(held, rids);
    forall x | x in Backing(held) && !(x.0.Some? && x.0.value in rids)
      ensures x in Backing(held')
    {
      var k :| k in held && x == (held[k], Some(k.1));
      assert k in held';
    }
  }

  lemma OwedDrop(rows: seq<Route>, rids: set<int>)
    ensures Owed(Drop(rows, rids), {}) == set x | x in Owed(rows, {}) && !(x.0.Some? && x.0.value in rids)
  {
    var rows' := Drop(rows, rids);
    DropMembers(rows, rids);
    forall x | x in Owed(rows', {})
      ensures x in Owed(rows, {}) && !(x.0.Some? && x.0.value in rids)
    {
      var j :| 0 <= j < |rows'| && Dedicated(rows'[j]) && x == LinkOf(rows'[j]);
      assert rows'[j] in rows;
      var i :| 0 <= i < |rows| && rows[i] == rows'[j];
    }
    forall x | x in Owed(rows, {}) && !(x.0.Some? && x.0.value in rids)
      ensures x in Owed(rows', {})
    {
      var i :| 0 <= i < |rows| && Dedicated(rows[i]) && x == LinkOf(rows[i]);
      assert rows[i] in rows';
      var j :| 0 <= j < |rows'| && rows'[j] == rows[i];
    }
  }

  /** Freeing the pool rows of dropped routes keeps the agreement. */
  lemma AgreesDrop(held: Held, rows: seq<Route>, rids: set<int>)
    requires Agrees(held, rows, {})
    ensures Agrees(Without(held, rids), Drop(rows, rids), {})
  {
    BackingWithout(held, rids);
    OwedDrop(rows, rids);
  }

  // ------------------------------------------------------------------
  // Inserting rows
  // ------------------------------------------------------------------

  /** A tunnel's part of a transaction in progress, or why it must roll back. */
  datatype Work = Work(pool: Pool, rows: seq<Route>) | NoPort | Violation

  /** The unique indexes on `routes`: the id, and at most one http and one https row. */
  predicate MayInsert(rows: seq<Route>, r: Route)
  {
    forall i :: 0 <= i < |rows| ==>
      rows[i].routeId != r.routeId && (!Dedicated(r) ==> rows[i].kind != r.kind)
  }

  /** `INSERT INTO routes`. Ids only grow, so a row always goes to the end of the table. */
  function InsertRow(pool: Pool, rows: seq<Route>, r: Route): Work
  {
    if MayInsert(rows, r) then Work(pool, rows + [r]) else Violation
  }

  function NewRoute(rid: int, q: Request, port: Option<int>): Route
  {
    Route(rid, q.mode, q.localPort, port, q.caption, None)
  }

  /** Add one requested route, claiming a port first if its mode needs one. */
  function AddRoute(pool: Pool, rows: seq<Route>, node: NodeId, t: TunnelId, rid: int, q: Request): Work
  {
    if q.mode.IsHostRouted() then InsertRow(pool, rows, NewRoute(rid, q, None))
    else match Claim(pool, node, t, rid)
      case Exhausted => NoPort
      case Claimed(pool', port) => InsertRow(pool', rows, NewRoute(rid, q, Some(port)))
  }

  /** Add the requests in order under the ids after `base`. */
  function AddRoutes(pool: Pool, rows: seq<Route>, node: NodeId, t: TunnelId, base: int, qs: seq<Request>): (w: Work)
  {
    if qs == [] then Work(pool, rows)
    else
      var n := |qs| - 1;
      match AddRoutes(pool, rows, node, t, base, qs[..n])
      case Work(pool', rows') => AddRoute(pool', rows', node, t, base + 1 + n, qs[n])
      case other => other
  }

  /** An error on a prefix of the requests is the error of the whole list. */
  lemma {:induction false} ErrorSticks(pool: Pool, rows: seq<Route>, node: NodeId, t: TunnelId, base: int,
                                       qs: seq<Request>, n: nat)
    requires n <= |qs| && !AddRoutes(pool, rows, node, t, base, qs[..n]).Work?
    ensures AddRoutes(pool, rows, node, t, base, qs) == AddRoutes(pool, rows, node, t, base, qs[..n])
    decreases |qs|
  {
    if n < |qs| {
      var m := |qs| - 1;
      assert qs[..m][..n] == qs[..n];
      ErrorSticks(pool, rows, node, t, base, qs[..m], n);
    } else {
      assert qs[..n] == qs;
    }
  }

  /** A row that serves request `q` under the id `rid`. */
  ghost predicate Serves(r: Route, rid: int, q: Request)
  {
    && r.routeId == rid && r.kind == q.mode && r.localPort == q.localPort && r.caption == q.caption && r.srv == None
    && (r.publicPort.Some? <==> !q.mode.IsHostRouted())
  }

  /** The rows added are the requests, in order, under dense new ids. */
  ghost predicate Added(rows: seq<Route>, base: int, qs: seq<Request>, rows': seq<Route>)
  {
    && |rows'| == |rows| + |qs|
    && (forall i :: 0 <= i < |rows| ==> rows'[i] == rows[i])
    && (forall i :: 0 <= i < |qs| ==> Serves(rows'[|rows| + i], base + 1 + i, qs[i]))
  }

  lemma AddRouteServes(pool: Pool, rows: seq<Route>, node: NodeId, t: TunnelId, rid: int, q: Request)
    requires AddRoute(pool, rows, node, t, rid, q).Work?
    ensures var w := AddRoute(pool, rows, node, t, rid, q);
      && MayInsert(rows, NewRoute(rid, q, None))
      && |w.rows| == |rows| + 1
      && w.rows == rows + [w.rows[|rows|]]
      && Serves(w.rows[|rows|], rid, q)
  {
  }

  lemma AddedStep(rows: seq<Route>, base: int, qs: seq<Request>, mid: seq<Route>, r: Route)
    requires qs != [] && Added(rows, base, qs[..|qs| - 1], mid) && Serves(r, base + |qs|, qs[|qs| - 1])
    ensures Added(rows, base, qs, mid + [r])
  {
    var rows' := mid + [r];
    forall i | 0 <= i < |qs|
      ensures Serves(rows'[|rows| + i], base + 1 + i, qs[i])
    {
      if i < |qs| - 1 {
        assert qs[..|qs| - 1][i] == qs[i] && rows'[|rows| + i] == mid[|rows| + i];
      }
    }
  }

  lemma {:induction false} AddRoutesRows(pool: Pool, rows: seq<Route>, node: NodeId, t: TunnelId, base: int, qs: seq<Request>)
    requires AddRoutes(pool, rows, node, t, base, qs).Work?
    ensures Added(rows, base, qs, AddRoutes(pool, rows, node, t, base, qs).rows)
  {
    if qs != [] {
      var n := |qs| - 1;
      AddRoutesRows(pool, rows, node, t, base, qs[..n]);
      var w := AddRoutes(pool, rows, node, t, base, qs[..n]);
      AddRouteServes(w.pool, w.rows, node, t, base + 1 + n, qs[n]);
      AddedStep(rows, base, qs, w.rows, AddRoutes(pool, rows, node, t, base, qs).rows[|w.rows|]);
    }
  }

  /** Claims for one tunnel touch no other tunnel's rows. */
  lemma {:induction false} AddRoutesOthers(pool: Pool, rows: seq<Route>, node: NodeId, t: TunnelId, base: int, qs: seq<Request>)
    requires AddRoutes(pool, rows, node, t, base, qs).Work?
    ensures forall u :: u != t ==> Own(AddRoutes(pool, rows, node, t, base, qs).pool, u) == Own(pool, u)
  {
    if qs != [] {
      var n := |qs| - 1;
      AddRoutesOthers(pool, rows, node, t, base, qs[..n]);
      ClaimEffect(AddRoutes(pool, rows, node, t, base, qs[..n]).pool, node, t, base + 1 + n);
    }
  }

  lemma {:induction false} AddRoutesAgree(pool: Pool, rows: seq<Route>, node: NodeId, t: TunnelId, base: int, qs: seq<Request>)
    requires AddRoutes(pool, rows, node, t, base, qs).Work?
    requires Agrees(Own(pool, t), rows, {})
    requires forall i :: 0 <= i < |rows| ==> rows[i].routeId <= base
    ensures var w := AddRoutes(pool, rows, node, t, base, qs); Agrees(Own(w.pool, t), w.rows, {})
  {
    if qs != [] {
      var n := |qs| - 1;
      AddRoutesAgree(pool, rows, node, t, base, qs[..n]);
      AddRoutesRows(pool, rows, node, t, base, qs[..n]);
      var w := AddRoutes(pool, rows, node, t, base, qs[..n]);
      AddRouteAgrees(w.pool, w.rows, node, t, base + 1 + n, qs[n]);
    }
  }

  lemma AddRouteAgrees(pool: Pool, rows: seq<Route>, node: NodeId, t: TunnelId, rid: int, q: Request)
    requires AddRoute(pool, rows, node, t, rid, q).Work?
    requires Agrees(Own(pool, t), rows, {})
    ensures var w := AddRoute(pool, rows, node, t, rid, q); Agrees(Own(w.pool, t), w.rows, {})
  {
    if q.mode.IsHostRouted() {
      AgreesAddHost(Own(pool, t), rows, NewRoute(rid, q, None));
    } else {
      ClaimEffect(pool, node, t, rid);
      var c := Claim(pool, node, t, rid);
      AgreesAdd(Own(pool, t), rows, (node, c.port), NewRoute(rid, q, Some(c.port)));
    }
  }

  /** How many ports a list of requests needs. */
  function Need(qs: seq<Request>): (n: nat)
    ensures n <= |qs|
  {
    if qs == [] then 0
    else Need(qs[..|qs| - 1]) + (if qs[|qs| - 1].mode.IsHostRouted() then 0 else 1)
  }

  /** Adding takes exactly the needed number of ports from the node, and runs out exactly when
      the node has fewer. */
  lemma {:induction false} AddRoutesNeed(pool: Pool, rows: seq<Route>, node: NodeId, t: TunnelId, base: int, qs: seq<Request>)
    ensures var w := AddRoutes(pool, rows, node, t, base, qs); var free := |FreePorts(pool, node)|;
      && (w.Work? ==> |FreePorts(w.pool, node)| == free - Need(qs))
      && (w == NoPort ==> free < Need(qs))
      && (w.Work? ==> Need(qs) <= free)
  {
    if qs != [] {
      var n := |qs| - 1;
      AddRoutesNeed(pool, rows, node, t, base, qs[..n]);
      var w := AddRoutes(pool, rows, node, t, base, qs[..n]);
      if w.Work? {
        ClaimEffect(w.pool, node, t, base + 1 + n);
      }
    }
  }

  /** At most one of the rows and requests has each host-routed mode. */
  ghost predicate HostsDistinct(rows: seq<Route>, qs: seq<Request>)
  {
    && (forall i, j :: 0 <= i < |rows| && 0 <= j < |qs| && qs[j].mode.IsHostRouted() ==> rows[i].kind != qs[j].mode)
    && (forall i, j :: 0 <= i < j < |qs| && qs[j].mode.IsHostRouted() ==> qs[i].mode != qs[j].mode)
  }

  lemma NextMayInsert(rows: seq<Route>, base: int, qs: seq<Request>, mid: seq<Route>)
    requires qs != [] && Added(rows, base, qs[..|qs| - 1], mid) && HostsDistinct(rows, qs)
    requires forall i :: 0 <= i < |rows| ==> rows[i].routeId <= base
    ensures MayInsert(mid, NewRoute(base + |qs|, qs[|qs| - 1], None))
  {
    var n := |qs| - 1;
    forall i | 0 <= i < |mid|
      ensures mid[i].routeId < base + |qs| && (qs[n].mode.IsHostRouted() ==> mid[i].kind != qs[n].mode)
    {
      if i >= |rows| {
        var j := i - |rows|;
        assert Serves(mid[|rows| + j], base + 1 + j, qs[..n][j]) && qs[..n][j] == qs[j];
      }
    }
  }

  /** Fresh ids and distinct host kinds never violate an index, at any point of the insertion. */
  lemma {:induction false} AddRoutesNoViolation(pool: Pool, rows: seq<Route>, node: NodeId, t: TunnelId, base: int, qs: seq<Request>)
    requires forall i :: 0 <= i < |rows| ==> rows[i].routeId <= base
    requires HostsDistinct(rows, qs)
    ensures AddRoutes(pool, rows, node, t, base, qs) != Violation
  {
    if qs != [] {
      var n := |qs| - 1;
      AddRoutesNoViolation(pool, rows, node, t, base, qs[..n]);
      var w := AddRoutes(pool, rows, node, t, base, qs[..n]);
      if w.Work? {
        AddRoutesRows(pool, rows, node, t, base, qs[..n]);
        NextMayInsert(rows, base, qs, w.rows);
      }
    }
  }

  // ------------------------------------------------------------------
  // Moving to another node
  // ------------------------------------------------------------------

  /** The modes `migrate_tunnel` claims a new port for: not `both`. */
  predicate Reclaims(r: Route)
  {
    r.kind == Tcp || r.kind == Udp
  }

  /** Claim a port of `node` for each tcp/udp route among the first `n` rows, in id order. */
  function Reclaim(pool: Pool, rows: seq<Route>, node: NodeId, t: TunnelId, n: nat): (w: Work)
    requires n <= |rows|
    ensures w.Work? ==> |w.rows| == |rows|
  {
    if n == 0 then Work(pool, rows)
    else match Reclaim(pool, rows, node, t, n - 1)
      case Work(pool', rows') =>
        if !Reclaims(rows[n - 1]) then Work(pool', rows')
        else (match Claim(pool', node, t, rows[n - 1].routeId)
          case Exhausted => NoPort
          case Claimed(pool'', port) =>
            Work(pool'', rows'[n - 1 := rows'[n - 1].(publicPort := Some(port))]))
      case other => other
  }

  lemma {:induction false} ReclaimErrorSticks(pool: Pool, rows: seq<Route>, node: NodeId, t: TunnelId, n: nat, m: nat)
    requires n <= m <= |rows| && !Reclaim(pool, rows, node, t, n).Work?
    ensures Reclaim(pool, rows, node, t, m) == Reclaim(pool, rows, node, t, n)
    decreases m
  {
    if n < m {
      ReclaimErrorSticks(pool, rows, node, t, n, m - 1);
    }
  }

  /** The dedicated routes not yet given a port after `n` rows. */
  ghost function Loose(rows: seq<Route>, n: nat): set<int>
    requires n <= |rows|
  {
    set i | 0 <= i < |rows| && Dedicated(rows[i]) && (i >= n || !Reclaims(rows[i])) :: rows[i].routeId
  }

  /** Only public ports change. */
  ghost predicate SameButPorts(rows: seq<Route>, rows': seq<Route>)
  {
    && |rows| == |rows'|
    && (forall i :: 0 <= i < |rows| ==> rows'[i] == rows[i].(publicPort := rows'[i].publicPort))
    && (forall i :: 0 <= i < |rows| && !Reclaims(rows[i]) ==> rows'[i] == rows[i])
  }

  lemma {:induction false} ReclaimRows(pool: Pool, rows: seq<Route>, node: NodeId, t: TunnelId, n: nat)
    requires n <= |rows| && Reclaim(pool, rows, node, t, n).Work?
    ensures var w := Reclaim(pool, rows, node, t, n);
      && SameButPorts(rows, w.rows)
      && (forall i :: 0 <= i < n && Reclaims(rows[i]) ==> w.rows[i].publicPort.Some?)
      && (forall i :: n <= i < |rows| ==> w.rows[i] == rows[i])
  {
    if n > 0 {
      ReclaimRows(pool, rows, node, t, n - 1);
    }
  }

  lemma OwedReclaim(rows: seq<Route>, loose: set<int>, i: nat, port: int)
    requires DistinctIds(rows) && i < |rows| && Dedicated(rows[i]) && rows[i].routeId in loose
    ensures Owed(rows[i := rows[i].(publicPort := Some(port))], loose - {rows[i].routeId})
         == Owed(rows, loose) + {(Some(rows[i].routeId), Some(port))}
  {
    var rid := rows[i].routeId;
    var rows', loose' := rows[i := rows[i].(publicPort := Some(port))], loose - {rid};
    assert LinkOf(rows'[i]) == (Some(rid), Some(port));
    forall x | x in Owed(rows, loose)
      ensures x in Owed(rows', loose')
    {
      var j :| 0 <= j < |rows| && Dedicated(rows[j]) && rows[j].routeId !in loose && x == LinkOf(rows[j]);
      assert rows'[j] == rows[j];
    }
    forall x | x in Owed(rows', loose') && x != (Some(rid), Some(port))
      ensures x in Owed(rows, loose)
    {
      var j :| 0 <= j < |rows'| && Dedicated(rows'[j]) && rows'[j].routeId !in loose' && x == LinkOf(rows'[j]);
      assert j != i && rows'[j] == rows[j] && rows[j].routeId != rid;
    }
  }

  /** A new port for a loose route keeps the agreement and tightens the route. */
  lemma AgreesReclaim(held: Held, rows: seq<Route>, loose: set<int>, i: nat, k: PortKey)
    requires Agrees(held, rows, loose) && DistinctIds(rows) && k !in held
    requires i < |rows| && Dedicated(rows[i]) && rows[i].routeId in loose
    ensures Agrees(held[k := Some(rows[i].routeId)], rows[i := rows[i].(publicPort := Some(k.1))],
                   loose - {rows[i].routeId})
  {
    BackingAdd(held, k, Some(rows[i].routeId));
    OwedReclaim(rows, loose, i, k.1);
    OneRowAdd(held, rows, loose, k, rows[i].routeId);
  }

  lemma {:induction false} ReclaimAgrees(pool: Pool, rows: seq<Route>, node: NodeId, t: TunnelId, n: nat)
    requires n <= |rows| && DistinctIds(rows) && Own(pool, t) == map[]
    requires Reclaim(pool, rows, node, t, n).Work?
    ensures var w := Reclaim(pool, rows, node, t, n);
      && Agrees(Own(w.pool, t), w.rows, Loose(rows, n))
      && (forall u :: u != t ==> Own(w.pool, u) == Own(pool, u))
  {
    if n > 0 {
      var w := Reclaim(pool, rows, node, t, n - 1);
      ReclaimAgrees(pool, rows, node, t, n - 1);
      ReclaimRows(pool, rows, node, t, n - 1);
      LooseStep(rows, n - 1);
      if Reclaims(rows[n - 1]) {
        ClaimEffect(w.pool, node, t, rows[n - 1].routeId);
        var c := Claim(w.pool, node, t, rows[n - 1].routeId);
        AgreesReclaim(Own(w.pool, t), w.rows, Loose(rows, n - 1), n - 1, (node, c.port));
      }
    }
  }

  lemma LooseStep(rows: seq<Route>, n: nat)
    requires n < |rows| && DistinctIds(rows)
    ensures Loose(rows, n + 1) == if Reclaims(rows[n]) then Loose(rows, n) - {rows[n].routeId} else Loose(rows, n)
    ensures Reclaims(rows[n]) ==> rows[n].routeId in Loose(rows, n)
  {
  }

  /** How many ports a migration needs. */
  function MoveNeed(rows: seq<Route>): (n: nat)
  {
    if rows == [] then 0
    else MoveNeed(rows[..|rows| - 1]) + (if Reclaims(rows[|rows| - 1]) then 1 else 0)
  }

  lemma {:induction false} ReclaimNeed(pool: Pool, rows: seq<Route>, node: NodeId, t: TunnelId, n: nat)
    requires n <= |rows|
    ensures var w := Reclaim(pool, rows, node, t, n); var free := |FreePorts(pool, node)|;
      && w != Violation
      && (w.Work? ==> |FreePorts(w.pool, node)| == free - MoveNeed(rows[..n]) && MoveNeed(rows[..n]) <= free)
      && (w == NoPort ==> free < MoveNeed(rows[..n]))
  {
    if n > 0 {
      assert rows[..n][..n - 1] == rows[..n - 1];
      ReclaimNeed(pool, rows, node, t, n - 1);
      var w := Reclaim(pool, rows, node, t, n - 1);
      if w.Work? {
        ClaimEffect(w.pool, node, t, rows[n - 1].routeId);
      }
    }
  }

  ghost predicate NoBoth(rows: seq<Route>)
  {
    forall i :: 0 <= i < |rows| ==> rows[i].kind != Both
  }

  /** After a whole migration the tunnel agrees with the pool exactly if it has no `both` route:
      the port of a `both` route is freed and never claimed again. */
  lemma MoveAgreesIff(pool: Pool, rows: seq<Route>, node: NodeId, t: TunnelId)
    requires DistinctIds(rows) && Own(pool, t) == map[]
    requires Reclaim(pool, rows, node, t, |rows|).Work?
    ensures var w := Reclaim(pool, rows, node, t, |rows|);
      Agrees(Own(w.pool, t), w.rows, {}) <==> NoBoth(rows)
  {
    var w := Reclaim(pool, rows, node, t, |rows|);
    ReclaimAgrees(pool, rows, node, t, |rows|);
    ReclaimRows(pool, rows, node, t, |rows|);
    if NoBoth(rows) {
      assert Loose(rows, |rows|) == {};
    } else {
      var i :| 0 <= i < |rows| && rows[i].kind == Both;
      assert rows[i].routeId in Loose(rows, |rows|);
      assert w.rows[i] == rows[i] && LinkOf(w.rows[i]) in Owed(w.rows, {});
      assert LinkOf(rows[i]) !in Owed(w.rows, Loose(rows, |rows|));
    }
  }
}
