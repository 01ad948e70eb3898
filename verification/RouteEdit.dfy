/** Reconciling the routes of one tunnel with a requested set, inside one transaction. */
module RouteEdit {
  import opened Options
  import opened Claims
  import opened Signature
  import opened PortPool
  import opened RouteRows
  import opened Policy

  // ------------------------------------------------------------------
  // Specification
  // ------------------------------------------------------------------

  /** Whether some row already serves the request. */
  predicate Present(rows: seq<Route>, q: Request)
  {
    exists i :: 0 <= i < |rows| && PairOf(rows[i]) == (q.mode, q.localPort)
  }

  /** Whether some request still wants the row. */
  predicate StillWanted(r: Route, qs: seq<Request>)
  {
    exists i :: 0 <= i < |qs| && PairOf(r) == (qs[i].mode, qs[i].localPort)
  }

  /** The ids among the first `n` rows that no request wants. */
  function Stale(rows: seq<Route>, qs: seq<Request>, n: nat): set<int>
    requires n <= |rows|
  {
    set i | 0 <= i < n && !StillWanted(rows[i], qs) :: rows[i].routeId
  }

  /** The requests that no existing row serves, in order. */
  function News(rows: seq<Route>, qs: seq<Request>): (news: seq<Request>)
    ensures |news| <= |qs|
  {
    if qs == [] then []
    else
      var n := |qs| - 1;
      News(rows, qs[..n]) + (if Present(rows, qs[n]) then [] else [qs[n]])
  }

  /** The largest id in use, or 0. */
  function MaxId(rows: seq<Route>): int
  {
    if rows == [] then 0
    else if |rows| == 1 || MaxId(rows[..|rows| - 1]) < rows[|rows| - 1].routeId then rows[|rows| - 1].routeId
    else MaxId(rows[..|rows| - 1])
  }

  /** Drop what is stale, then add what is new under the ids after the largest old one. */
  function Reconciled(pool: Pool, rows: seq<Route>, node: NodeId, t: TunnelId, qs: seq<Request>): Work
  {
    var stale := Stale(rows, qs, |rows|);
    AddRoutes(FreeRoutes(pool, t, stale), Drop(rows, stale), node, t, MaxId(rows), News(rows, qs))
  }

  // ------------------------------------------------------------------
  // The transaction's loops
  // ------------------------------------------------------------------

  lemma FreeRoutesTwice(pool: Pool, t: TunnelId, a: set<int>, b: set<int>)
    ensures FreeRoutes(FreeRoutes(pool, t, a), t, b) == FreeRoutes(pool, t, a + b)
  {
  }

  lemma FreeNoRoutes(pool: Pool, t: TunnelId)
    ensures FreeRoutes(pool, t, {}) == pool
  {
  }

  lemma {:induction false} DropTwice(rows: seq<Route>, a: set<int>, b: set<int>)
    ensures Drop(Drop(rows, a), b) == Drop(rows, a + b)
  {
    if rows != [] {
      var n := |rows| - 1;
      DropTwice(rows[..n], a, b);
      var d := Drop(rows[..n], a);
      if rows[n].routeId in a {
        assert Drop(rows, a) == d;
      } else {
        assert (d + [rows[n]])[..|d|] == d;
      }
    }
  }

  lemma {:induction false} DropNothing(rows: seq<Route>)
    ensures Drop(rows, {}) == rows
  {
    if rows != [] {
      DropNothing(rows[..|rows| - 1]);
    }
  }

  lemma {:induction false} NewsPrefix(rows: seq<Route>, qs: seq<Request>, n: nat)
    requires n <= |qs|
    ensures var k := |News(rows, qs[..n])|; k <= |News(rows, qs)| && News(rows, qs)[..k] == News(rows, qs[..n])
    decreases |qs|
  {
    if n < |qs| {
      var m := |qs| - 1;
      assert qs[..m][..n] == qs[..n];
      NewsPrefix(rows, qs[..m], n);
    } else {
      assert qs[..n] == qs;
    }
  }

  /** The (kind, port) pairs of a request, as the signature takes them. */
  method CollectPairs(qs: seq<Request>) returns (pairs: seq<Pair>)
    ensures pairs == Wanted(qs)
  {
    pairs := [];
    for i := 0 to |qs|
      invariant pairs == Wanted(qs)[..i]
    {
      pairs := pairs + [(qs[i].mode, qs[i].localPort)];
    }
  }

  method DropStale(pool: Pool, rows: seq<Route>, t: TunnelId, qs: seq<Request>) returns (pool': Pool, rows': seq<Route>)
    ensures pool' == FreeRoutes(pool, t, Stale(rows, qs, |rows|))
    ensures rows' == Drop(rows, Stale(rows, qs, |rows|))
  {
    pool', rows' := pool, rows;
    FreeNoRoutes(pool, t);
    DropNothing(rows);
    assert Stale(rows, qs, 0) == {};
    for i := 0 to |rows|
      invariant pool' == FreeRoutes(pool, t, Stale(rows, qs, i))
      invariant rows' == Drop(rows, Stale(rows, qs, i))
    {
      var r := rows[i];
      var still := false;
      for j := 0 to |qs|
        invariant !still && forall k :: 0 <= k < j ==> PairOf(r) != (qs[k].mode, qs[k].localPort)
      {
        if qs[j].mode == r.kind && qs[j].localPort == r.localPort {
          still := true;
          break;
        }
      }
      assert still == StillWanted(r, qs);
      if still {
        assert Stale(rows, qs, i + 1) == Stale(rows, qs, i);
      } else {
        assert Stale(rows, qs, i + 1) == Stale(rows, qs, i) + {r.routeId};
        FreeRoutesTwice(pool, t, Stale(rows, qs, i), {r.routeId});
        DropTwice(rows, Stale(rows, qs, i), {r.routeId});
        pool' := FreeRoutes(pool', t, {r.routeId});
        rows' := Drop(rows', {r.routeId});
      }
    }
  }

  method FindMaxId(rows: seq<Route>) returns (m: int)
    ensures m == MaxId(rows)
  {
    var max: Option<int> := None;
    for i := 0 to |rows|
      invariant i == 0 <==> max == None
      invariant i > 0 ==> max == Some(MaxId(rows[..i]))
    {
      assert rows[..i + 1][..i] == rows[..i];
      var greater := match max case Some(m) => rows[i].routeId > m case None => true;
      if greater {
        max := Some(rows[i].routeId);
      }
    }
    assert rows[..|rows|] == rows;
    m := match max case Some(m) => m case None => 0;
  }

  lemma NextOne(pool: Pool, rows: seq<Route>, node: NodeId, t: TunnelId, base: int, qs: seq<Request>, q: Request)
    requires AddRoutes(pool, rows, node, t, base, qs).Work?
    ensures var w := AddRoutes(pool, rows, node, t, base, qs);
      AddRoutes(pool, rows, node, t, base, qs + [q]) == AddRoute(w.pool, w.rows, node, t, base + 1 + |qs|, q)
  {
    assert (qs + [q])[..|qs|] == qs;
  }

  /** One turn of an insertion loop: an error is the error of the whole list. */
  lemma TakeOne(pool: Pool, rows: seq<Route>, node: NodeId, t: TunnelId, base: int, qs: seq<Request>, m: nat)
    requires m < |qs| && AddRoutes(pool, rows, node, t, base, qs[..m]).Work?
    ensures var w := AddRoutes(pool, rows, node, t, base, qs[..m]);
      var step := AddRoute(w.pool, w.rows, node, t, base + 1 + m, qs[m]);
      && AddRoutes(pool, rows, node, t, base, qs[..m + 1]) == step
      && (!step.Work? ==> AddRoutes(pool, rows, node, t, base, qs) == step)
  {
    NextOne(pool, rows, node, t, base, qs[..m], qs[m]);
    assert qs[..m] + [qs[m]] == qs[..m + 1];
    if !AddRoutes(pool, rows, node, t, base, qs[..m + 1]).Work? {
      ErrorSticks(pool, rows, node, t, base, qs, m + 1);
    }
  }

  /** How far into the new requests the scan of all requests is. */
  lemma NewsAt(existing: seq<Route>, qs: seq<Request>, i: nat)
    requires i < |qs|
    ensures Present(existing, qs[i]) ==> NewsCount(existing, qs, i + 1) == NewsCount(existing, qs, i)
    ensures !Present(existing, qs[i]) ==>
      && NewsCount(existing, qs, i + 1) == NewsCount(existing, qs, i) + 1
      && NewsCount(existing, qs, i) < |News(existing, qs)|
      && News(existing, qs)[NewsCount(existing, qs, i)] == qs[i]
  {
    assert qs[..i + 1][..i] == qs[..i];
    NewsPrefix(existing, qs, i + 1);
    var m := |News(existing, qs[..i + 1])|;
    if !Present(existing, qs[i]) {
      assert News(existing, qs)[..m][m - 1] == qs[i];
    }
  }

  function NewsCount(existing: seq<Route>, qs: seq<Request>, n: nat): nat
    requires n <= |qs|
  {
    |News(existing, qs[..n])|
  }

  lemma AllNews(existing: seq<Route>, qs: seq<Request>)
    ensures NewsCount(existing, qs, 0) == 0 && NewsCount(existing, qs, |qs|) == |News(existing, qs)|
  {
    assert qs[..|qs|] == qs;
  }

  /** Insert the new request at hand. */
  method AddOne(w: Work, node: NodeId, t: TunnelId, rid: int, q: Request) returns (w': Work)
    requires w.Work?
    ensures w' == AddRoute(w.pool, w.rows, node, t, rid, q)
  {
    if q.mode.IsHostRouted() {
      return InsertRow(w.pool, w.rows, NewRoute(rid, q, None));
    }
    match Claim(w.pool, node, t, rid) {
      case Exhausted =>
        return NoPort;
      case Claimed(pool, port) =>
        return InsertRow(pool, w.rows, NewRoute(rid, q, Some(port)));
    }
  }

  method AddMissing(pool: Pool, rows: seq<Route>, existing: seq<Route>, node: NodeId, t: TunnelId, base: int,
                    qs: seq<Request>) returns (w: Work)
    ensures w == AddRoutes(pool, rows, node, t, base, News(existing, qs))
  {
    w := Work(pool, rows);
    var nextId := base;
    ghost var news, m := News(existing, qs), 0;
    AllNews(existing, qs);
    for i := 0 to |qs|
      invariant m == NewsCount(existing, qs, i) <= |news| && nextId == base + m
      invariant w.Work? && w == AddRoutes(pool, rows, node, t, base, news[..m])
    {
      NewsAt(existing, qs, i);
      if !Present(existing, qs[i]) {
        TakeOne(pool, rows, node, t, base, news, m);
        nextId, m := nextId + 1, m + 1;
        w := AddOne(w, node, t, nextId, qs[i]);
        if !w.Work? {
          return;
        }
      }
    }
    assert news[..|news|] == news;
  }

  /** Steps 1 and 2 of `set_service_routes`. */
  method Reconcile(pool: Pool, rows: seq<Route>, node: NodeId, t: TunnelId, qs: seq<Request>) returns (w: Work)
    ensures w == Reconciled(pool, rows, node, t, qs)
  {
    var pool1, rows1 := DropStale(pool, rows, t, qs);
    var base := FindMaxId(rows);
    w := AddMissing(pool1, rows1, rows, node, t, base, qs);
  }

  /** The insertion loop of `reserve_tunnel`. */
  method InsertAll(pool: Pool, node: NodeId, t: TunnelId, qs: seq<Request>) returns (w: Work)
    ensures w == AddRoutes(pool, [], node, t, 0, qs)
  {
    w := Work(pool, []);
    for i := 0 to |qs|
      invariant w.Work? && w == AddRoutes(pool, [], node, t, 0, qs[..i])
    {
      TakeOne(pool, [], node, t, 0, qs, i);
      w := AddOne(w, node, t, i + 1, qs[i]);
      if !w.Work? {
        return;
      }
    }
    assert qs[..|qs|] == qs;
  }

  /** The loop of `migrate_tunnel`. */
  method ClaimAgain(pool: Pool, rows: seq<Route>, node: NodeId, t: TunnelId) returns (w: Work)
    ensures w == Reclaim(pool, rows, node, t, |rows|)
  {
    var pool', rows' := pool, rows;
    for i := 0 to |rows|
      invariant Work(pool', rows') == Reclaim(pool, rows, node, t, i)
    {
      if rows[i].kind != Tcp && rows[i].kind != Udp {
        continue;
      }
      match Claim(pool', node, t, rows[i].routeId) {
        case Exhausted =>
          ReclaimErrorSticks(pool, rows, node, t, i + 1, |rows|);
          return NoPort;
        case Claimed(p, port) =>
          pool', rows' := p, rows'[i := rows'[i].(publicPort := Some(port))];
      }
    }
    return Work(pool', rows');
  }

  // ------------------------------------------------------------------
  // What reconciling achieves
  // ------------------------------------------------------------------

  lemma {:induction false} MaxIdBounds(rows: seq<Route>)
    ensures forall i :: 0 <= i < |rows| ==> rows[i].routeId <= MaxId(rows)
  {
    if |rows| > 1 {
      MaxIdBounds(rows[..|rows| - 1]);
    }
  }

  lemma {:induction false} MaxIdLeast(rows: seq<Route>, m: int)
    requires 0 <= m && forall i :: 0 <= i < |rows| ==> rows[i].routeId <= m
    ensures MaxId(rows) <= m
  {
    if |rows| > 1 {
      MaxIdLeast(rows[..|rows| - 1], m);
    }
  }

  lemma {:induction false} NewsMembers(rows: seq<Route>, qs: seq<Request>)
    ensures forall q :: q in News(rows, qs) <==> q in qs && !Present(rows, q)
  {
    if qs != [] {
      var n := |qs| - 1;
      NewsMembers(rows, qs[..n]);
      assert qs == qs[..n] + [qs[n]];
    }
  }

  /** No two requests are for the same pair, and no two for the same host-routed mode. */
  ghost predicate Distinct(qs: seq<Request>)
  {
    forall i, j :: 0 <= i < j < |qs| ==>
      (qs[i].mode, qs[i].localPort) != (qs[j].mode, qs[j].localPort)
      && (qs[j].mode.IsHostRouted() ==> qs[i].mode != qs[j].mode)
  }

  lemma PolicyDistinct(qs: seq<Request>)
    requires PolicyOk(Wanted(qs))
    ensures Distinct(qs)
  {
    PolicyNoRepeats(Wanted(qs));
    var ps := Wanted(qs);
    forall i, j | 0 <= i < j < |qs|
      ensures (qs[i].mode, qs[i].localPort) != (qs[j].mode, qs[j].localPort)
      ensures qs[j].mode.IsHostRouted() ==> qs[i].mode != qs[j].mode
    {
      assert ps[i] == (qs[i].mode, qs[i].localPort) && ps[j] == (qs[j].mode, qs[j].localPort);
      assert ps[i] != ps[j];
    }
  }

  lemma {:induction false} NewsDistinct(rows: seq<Route>, qs: seq<Request>)
    requires Distinct(qs)
    ensures Distinct(News(rows, qs))
  {
    if qs != [] {
      var n := |qs| - 1;
      NewsDistinct(rows, qs[..n]);
      NewsMembers(rows, qs[..n]);
      var news := News(rows, qs[..n]);
      forall i | 0 <= i < |news|
        ensures (news[i].mode, news[i].localPort) != (qs[n].mode, qs[n].localPort)
        ensures qs[n].mode.IsHostRouted() ==> news[i].mode != qs[n].mode
      {
        assert news[i] in qs[..n];
        var j :| 0 <= j < n && qs[j] == news[i];
      }
    }
  }

  lemma DropStaleMembers(rows: seq<Route>, qs: seq<Request>)
    requires DistinctIds(rows)
    ensures forall r :: r in Drop(rows, Stale(rows, qs, |rows|)) <==> r in rows && StillWanted(r, qs)
  {
    var stale := Stale(rows, qs, |rows|);
    DropMembers(rows, stale);
    forall r | r in rows
      ensures r.routeId in stale <==> !StillWanted(r, qs)
    {
      var i :| 0 <= i < |rows| && rows[i] == r;
    }
  }

  /** While dropped rows make room, no host-routed request meets a kept row of its mode. */
  lemma KeptAndNewHosts(rows: seq<Route>, qs: seq<Request>)
    requires DistinctIds(rows) && Distinct(qs)
    ensures HostsDistinct(Drop(rows, Stale(rows, qs, |rows|)), News(rows, qs))
  {
    var kept, news := Drop(rows, Stale(rows, qs, |rows|)), News(rows, qs);
    DropStaleMembers(rows, qs);
    NewsMembers(rows, qs);
    NewsDistinct(rows, qs);
    forall i, j | 0 <= i < |kept| && 0 <= j < |news| && news[j].mode.IsHostRouted()
      ensures kept[i].kind != news[j].mode
    {
      assert kept[i] in kept && news[j] in news;
      var a :| 0 <= a < |qs| && PairOf(kept[i]) == (qs[a].mode, qs[a].localPort);
      var b :| 0 <= b < |qs| && qs[b] == news[j];
      assert a != b;
      assert qs[a].mode != qs[b].mode;
    }
  }

  /** A policy-valid edit never trips a unique index, at any point of the transaction. */
  lemma ReconcileNeverViolates(pool: Pool, rows: seq<Route>, node: NodeId, t: TunnelId, qs: seq<Request>)
    requires DistinctIds(rows) && PolicyOk(Wanted(qs))
    ensures Reconciled(pool, rows, node, t, qs) != Violation
  {
    var stale := Stale(rows, qs, |rows|);
    PolicyDistinct(qs);
    KeptAndNewHosts(rows, qs);
    MaxIdBounds(rows);
    DropMembers(rows, stale);
    forall i | 0 <= i < |Drop(rows, stale)|
      ensures Drop(rows, stale)[i].routeId <= MaxId(rows)
    {
      assert Drop(rows, stale)[i] in rows;
    }
    AddRoutesNoViolation(FreeRoutes(pool, t, stale), Drop(rows, stale), node, t, MaxId(rows), News(rows, qs));
  }

  /** Exactly the requested pairs, each old row of them unchanged, each new row under an id above
      all the old ones, with a port exactly if its mode needs one. */
  ghost predicate Reconciles(rows: seq<Route>, qs: seq<Request>, rows': seq<Route>)
  {
    && Ascending(rows')
    && (forall r :: r in rows && StillWanted(r, qs) ==> r in rows')
    && (forall r :: r in rows' ==> StillWanted(r, qs))
    && (forall q :: q in qs ==> Present(rows', q))
    && (forall r :: r in rows' && r !in rows ==> exists q :: q in qs && !Present(rows, q) && Fresh(rows, r, |News(rows, qs)|, q))
  }

  /** A row added for `q`: its id is above every old one and at most `n` above the largest. */
  ghost predicate Fresh(rows: seq<Route>, r: Route, n: nat, q: Request)
  {
    MaxId(rows) < r.routeId <= MaxId(rows) + n && Serves(r, r.routeId, q)
  }

  lemma AddedMembers(kept: seq<Route>, base: int, news: seq<Request>, rows': seq<Route>, r: Route)
    requires Added(kept, base, news, rows') && r in rows'
    ensures r in kept || exists q :: q in news && base < r.routeId <= base + |news| && Serves(r, r.routeId, q)
  {
    var i :| 0 <= i < |rows'| && rows'[i] == r;
    if i >= |kept| {
      var j := i - |kept|;
      assert Serves(rows'[|kept| + j], base + 1 + j, news[j]);
      assert news[j] in news;
    }
  }

  lemma AddedKeeps(kept: seq<Route>, base: int, news: seq<Request>, rows': seq<Route>)
    requires Added(kept, base, news, rows')
    ensures forall r :: r in kept ==> r in rows'
    ensures forall q :: q in news ==> Present(rows', q)
  {
    forall r | r in kept
      ensures r in rows'
    {
      var i :| 0 <= i < |kept| && kept[i] == r;
      assert rows'[i] == r;
    }
    forall q | q in news
      ensures Present(rows', q)
    {
      var j :| 0 <= j < |news| && news[j] == q;
      assert Serves(rows'[|kept| + j], base + 1 + j, news[j]);
    }
  }

  lemma AddedAscending(kept: seq<Route>, base: int, news: seq<Request>, rows': seq<Route>)
    requires Added(kept, base, news, rows') && Ascending(kept)
    requires forall i :: 0 <= i < |kept| ==> kept[i].routeId <= base
    ensures Ascending(rows')
  {
    forall i | |kept| <= i < |rows'|
      ensures rows'[i].routeId == base + 1 + i - |kept|
    {
      var j := i - |kept|;
      assert Serves(rows'[|kept| + j], base + 1 + j, news[j]);
    }
  }

  lemma ReconcileExact(pool: Pool, rows: seq<Route>, node: NodeId, t: TunnelId, qs: seq<Request>)
    requires Ascending(rows) && Reconciled(pool, rows, node, t, qs).Work?
    ensures Reconciles(rows, qs, Reconciled(pool, rows, node, t, qs).rows)
  {
    var stale := Stale(rows, qs, |rows|);
    var kept, news, base := Drop(rows, stale), News(rows, qs), MaxId(rows);
    var rows' := Reconciled(pool, rows, node, t, qs).rows;
    AddRoutesRows(FreeRoutes(pool, t, stale), kept, node, t, base, news);
    DropStaleMembers(rows, qs);
    DropAscending(rows, stale);
    MaxIdBounds(rows);
    forall i | 0 <= i < |kept|
      ensures kept[i].routeId <= base
    {
      assert kept[i] in rows;
    }
    AddedAscending(kept, base, news, rows');
    AddedKeeps(kept, base, news, rows');
    NewsMembers(rows, qs);
    ReconcilePresent(rows, qs, rows', kept, news);
    forall r | r in rows'
      ensures StillWanted(r, qs)
      ensures r !in rows ==> exists q :: q in qs && !Present(rows, q) && Fresh(rows, r, |News(rows, qs)|, q)
    {
      ReconcileMember(rows, qs, rows', kept, news, r);
    }
  }

  lemma ReconcilePresent(rows: seq<Route>, qs: seq<Request>, rows': seq<Route>, kept: seq<Route>, news: seq<Request>)
    requires forall r :: r in kept <==> r in rows && StillWanted(r, qs)
    requires forall q :: q in news <==> q in qs && !Present(rows, q)
    requires forall r :: r in kept ==> r in rows'
    requires forall q :: q in news ==> Present(rows', q)
    ensures forall q :: q in qs ==> Present(rows', q)
  {
    forall q | q in qs
      ensures Present(rows', q)
    {
      if Present(rows, q) {
        var i :| 0 <= i < |rows| && PairOf(rows[i]) == (q.mode, q.localPort);
        var k :| 0 <= k < |qs| && qs[k] == q;
        assert StillWanted(rows[i], qs);
        assert rows[i] in kept;
        var j :| 0 <= j < |rows'| && rows'[j] == rows[i];
      }
    }
  }

  lemma ReconcileMember(rows: seq<Route>, qs: seq<Request>, rows': seq<Route>, kept: seq<Route>, news: seq<Request>,
                        r: Route)
    requires forall r :: r in kept <==> r in rows && StillWanted(r, qs)
    requires forall q :: q in news <==> q in qs && !Present(rows, q)
    requires news == News(rows, qs) && Added(kept, MaxId(rows), news, rows') && r in rows'
    ensures StillWanted(r, qs)
    ensures r !in rows ==> exists q :: q in qs && !Present(rows, q) && Fresh(rows, r, |News(rows, qs)|, q)
  {
    AddedMembers(kept, MaxId(rows), news, rows', r);
    if r !in kept {
      var q :| q in news && MaxId(rows) < r.routeId <= MaxId(rows) + |news| && Serves(r, r.routeId, q);
      assert Fresh(rows, r, |News(rows, qs)|, q);
      var k :| 0 <= k < |qs| && qs[k] == q;
      assert PairOf(r) == (qs[k].mode, qs[k].localPort);
    }
  }

  /** The pairs of the new rows are the requested pairs. */
  lemma ReconciledPairs(rows: seq<Route>, qs: seq<Request>, rows': seq<Route>)
    requires Reconciles(rows, qs, rows')
    ensures Elements(Pairs(rows')) == Elements(Wanted(qs))
  {
    var ps, ws := Pairs(rows'), Wanted(qs);
    forall p | p in ps
      ensures p in ws
    {
      var i :| 0 <= i < |ps| && ps[i] == p;
      assert rows'[i] in rows';
      var k :| 0 <= k < |qs| && PairOf(rows'[i]) == (qs[k].mode, qs[k].localPort);
      assert ws[k] == p;
    }
    forall p | p in ws
      ensures p in ps
    {
      var k :| 0 <= k < |ws| && ws[k] == p;
      assert qs[k] in qs;
      var i :| 0 <= i < |rows'| && PairOf(rows'[i]) == (qs[k].mode, qs[k].localPort);
      assert ps[i] == p;
    }
  }

  /** Kept and new rows are for different pairs. */
  lemma AddedNoRepeats(rows: seq<Route>, kept: seq<Route>, base: int, news: seq<Request>, rows': seq<Route>)
    requires NoRepeats(Pairs(rows)) && Ascending(kept) && Distinct(news)
    requires forall i :: 0 <= i < |kept| ==> kept[i] in rows
    requires forall i :: 0 <= i < |news| ==> !Present(rows, news[i])
    requires Added(kept, base, news, rows')
    ensures NoRepeats(Pairs(rows'))
  {
    forall i, j | 0 <= i < j < |rows'|
      ensures PairOf(rows'[i]) != PairOf(rows'[j])
    {
      if j < |kept| {
        KeptDiffer(rows, kept[i], kept[j]);
      } else {
        var b := j - |kept|;
        assert Serves(rows'[|kept| + b], base + 1 + b, news[b]);
        if i < |kept| {
          var k :| 0 <= k < |rows| && rows[k] == kept[i];
        } else {
          var a := i - |kept|;
          assert Serves(rows'[|kept| + a], base + 1 + a, news[a]);
        }
      }
    }
  }

  lemma KeptDiffer(rows: seq<Route>, r: Route, s: Route)
    requires NoRepeats(Pairs(rows)) && r in rows && s in rows && r != s
    ensures PairOf(r) != PairOf(s)
  {
    var i :| 0 <= i < |rows| && rows[i] == r;
    var j :| 0 <= j < |rows| && rows[j] == s;
    assert Pairs(rows)[i] == PairOf(r) && Pairs(rows)[j] == PairOf(s);
    if i < j {
      assert Pairs(rows)[i] != Pairs(rows)[j];
    } else {
      assert Pairs(rows)[j] != Pairs(rows)[i];
    }
  }

  lemma ReconciledNoRepeats(pool: Pool, rows: seq<Route>, node: NodeId, t: TunnelId, qs: seq<Request>)
    requires Ascending(rows) && NoRepeats(Pairs(rows)) && Distinct(qs)
    requires Reconciled(pool, rows, node, t, qs).Work?
    ensures NoRepeats(Pairs(Reconciled(pool, rows, node, t, qs).rows))
  {
    var stale := Stale(rows, qs, |rows|);
    var kept, news, base := Drop(rows, stale), News(rows, qs), MaxId(rows);
    AddRoutesRows(FreeRoutes(pool, t, stale), kept, node, t, base, news);
    DropMembers(rows, stale);
    DropAscending(rows, stale);
    NewsDistinct(rows, qs);
    NewsMembers(rows, qs);
    AddedNoRepeats(rows, kept, base, news, Reconciled(pool, rows, node, t, qs).rows);
  }

  /** After a successful edit the rows hold the requested pairs, each once: the signature of the
      request is the signature of the rows, and the policy holds of them. */
  lemma ReconciledSignature(pool: Pool, rows: seq<Route>, node: NodeId, t: TunnelId, qs: seq<Request>)
    requires Ascending(rows) && NoRepeats(Pairs(rows)) && PolicyOk(Wanted(qs))
    requires Reconciled(pool, rows, node, t, qs).Work?
    ensures var rows' := Reconciled(pool, rows, node, t, qs).rows;
      && multiset(Pairs(rows')) == multiset(Wanted(qs))
      && SignatureOf(Wanted(qs)) == SignatureOf(Pairs(rows'))
      && PolicyOk(Pairs(rows'))
  {
    var rows' := Reconciled(pool, rows, node, t, qs).rows;
    PolicyDistinct(qs);
    PolicyNoRepeats(Wanted(qs));
    ReconcileExact(pool, rows, node, t, qs);
    ReconciledPairs(rows, qs, rows');
    ReconciledNoRepeats(pool, rows, node, t, qs);
    SameElementsSameMultiset(Pairs(rows'), Wanted(qs));
    SignatureIff(Wanted(qs), Pairs(rows'));
    PolicyPermutes(Wanted(qs), Pairs(rows'));
  }

  /** The tunnel's pool rows keep agreeing with its routes. */
  lemma ReconcileAgrees(pool: Pool, rows: seq<Route>, node: NodeId, t: TunnelId, qs: seq<Request>)
    requires Agrees(Own(pool, t), rows, {})
    requires Reconciled(pool, rows, node, t, qs).Work?
    ensures var w := Reconciled(pool, rows, node, t, qs); Agrees(Own(w.pool, t), w.rows, {})
  {
    var stale := Stale(rows, qs, |rows|);
    AgreesDrop(Own(pool, t), rows, stale);
    FreeRoutesEffect(pool, t, stale, t);
    KeptBelow(rows, stale);
    AddRoutesAgree(FreeRoutes(pool, t, stale), Drop(rows, stale), node, t, MaxId(rows), News(rows, qs));
  }

  /** No other tunnel's pool rows change. */
  lemma ReconcileOthers(pool: Pool, rows: seq<Route>, node: NodeId, t: TunnelId, qs: seq<Request>)
    requires Reconciled(pool, rows, node, t, qs).Work?
    ensures forall u :: u != t ==> Own(Reconciled(pool, rows, node, t, qs).pool, u) == Own(pool, u)
  {
    var stale := Stale(rows, qs, |rows|);
    AddRoutesOthers(FreeRoutes(pool, t, stale), Drop(rows, stale), node, t, MaxId(rows), News(rows, qs));
    forall u | u != t
      ensures Own(FreeRoutes(pool, t, stale), u) == Own(pool, u)
    {
      FreeRoutesEffect(pool, t, stale, u);
    }
  }

  lemma KeptBelow(rows: seq<Route>, rids: set<int>)
    ensures forall i :: 0 <= i < |Drop(rows, rids)| ==> Drop(rows, rids)[i].routeId <= MaxId(rows)
  {
    MaxIdBounds(rows);
    DropMembers(rows, rids);
    forall i | 0 <= i < |Drop(rows, rids)|
      ensures Drop(rows, rids)[i].routeId <= MaxId(rows)
    {
      assert Drop(rows, rids)[i] in rows;
    }
  }

  /** An edit runs out of ports exactly when the node, after the dropped routes gave theirs back,
      has fewer free ports than the new routes need. */
  lemma ReconcileExhaustedIff(pool: Pool, rows: seq<Route>, node: NodeId, t: TunnelId, qs: seq<Request>)
    requires DistinctIds(rows) && PolicyOk(Wanted(qs))
    ensures Reconciled(pool, rows, node, t, qs) == NoPort
            <==> |FreePorts(FreeRoutes(pool, t, Stale(rows, qs, |rows|)), node)| < Need(News(rows, qs))
  {
    var stale := Stale(rows, qs, |rows|);
    ReconcileNeverViolates(pool, rows, node, t, qs);
    AddRoutesNeed(FreeRoutes(pool, t, stale), Drop(rows, stale), node, t, MaxId(rows), News(rows, qs));
  }

  lemma {:induction false} NothingNew(rows: seq<Route>, qs: seq<Request>)
    requires forall i :: 0 <= i < |qs| ==> Present(rows, qs[i])
    ensures News(rows, qs) == []
  {
    if qs != [] {
      NothingNew(rows, qs[..|qs| - 1]);
    }
  }

  /** A request for the pairs the rows already hold changes nothing at all. */
  lemma ReconcileIdentity(pool: Pool, rows: seq<Route>, node: NodeId, t: TunnelId, qs: seq<Request>)
    requires Elements(Pairs(rows)) == Elements(Wanted(qs))
    ensures Reconciled(pool, rows, node, t, qs) == Work(pool, rows)
  {
    forall i | 0 <= i < |qs|
      ensures Present(rows, qs[i])
    {
      assert Wanted(qs)[i] in Elements(Wanted(qs));
      assert Wanted(qs)[i] in Pairs(rows);
      var j :| 0 <= j < |rows| && Pairs(rows)[j] == Wanted(qs)[i];
    }
    NothingNew(rows, qs);
    forall i | 0 <= i < |rows|
      ensures StillWanted(rows[i], qs)
    {
      assert Pairs(rows)[i] in Elements(Pairs(rows));
      assert Pairs(rows)[i] in Wanted(qs);
      var j :| 0 <= j < |qs| && Wanted(qs)[j] == Pairs(rows)[i];
    }
    assert Stale(rows, qs, |rows|) == {};
    FreeNoRoutes(pool, t);
    DropNothing(rows);
  }

  /** Editing twice with the same request is editing once. */
  lemma ReconcileTwice(pool: Pool, rows: seq<Route>, node: NodeId, t: TunnelId, qs: seq<Request>, node': NodeId)
    requires Ascending(rows) && Reconciled(pool, rows, node, t, qs).Work?
    ensures var w := Reconciled(pool, rows, node, t, qs); Reconciled(w.pool, w.rows, node', t, qs) == w
  {
    var w := Reconciled(pool, rows, node, t, qs);
    ReconcileExact(pool, rows, node, t, qs);
    ReconciledPairs(rows, qs, w.rows);
    ReconcileIdentity(w.pool, w.rows, node', t, qs);
  }

  lemma NewIdsBelow(rows: seq<Route>, qs: seq<Request>, rows': seq<Route>)
    requires Reconciles(rows, qs, rows') && 0 <= MaxId(rows)
    ensures MaxId(rows') <= MaxId(rows) + |News(rows, qs)|
  {
    MaxIdBounds(rows);
    forall i | 0 <= i < |rows'|
      ensures rows'[i].routeId <= MaxId(rows) + |News(rows, qs)|
    {
      assert rows'[i] in rows';
      if rows'[i] !in rows {
        var q :| q in qs && !Present(rows, q) && Fresh(rows, rows'[i], |News(rows, qs)|, q);
      }
    }
    MaxIdLeast(rows', MaxId(rows) + |News(rows, qs)|);
  }

  /** Each edit raises the largest id by at most six. */
  lemma ReconcileMaxId(pool: Pool, rows: seq<Route>, node: NodeId, t: TunnelId, qs: seq<Request>)
    requires Ascending(rows) && PolicyOk(Wanted(qs)) && 0 <= MaxId(rows)
    requires Reconciled(pool, rows, node, t, qs).Work?
    ensures MaxId(Reconciled(pool, rows, node, t, qs).rows) <= MaxId(rows) + 6
  {
    AtMostSix(Wanted(qs));
    ReconcileExact(pool, rows, node, t, qs);
    NewIdsBelow(rows, qs, Reconciled(pool, rows, node, t, qs).rows);
  }

  /** No id is more than `k` above the id of a `both` route. */
  ghost predicate Near(rows: seq<Route>, k: nat)
  {
    forall i :: 0 <= i < |rows| && rows[i].kind.Both? ==> MaxId(rows) <= rows[i].routeId + k
  }

  lemma {:induction false} PresentIsNotNew(rows: seq<Route>, qs: seq<Request>, k: nat)
    requires k < |qs| && Present(rows, qs[k])
    ensures |News(rows, qs)| < |qs|
  {
    if k < |qs| - 1 {
      PresentIsNotNew(rows, qs[..|qs| - 1], k);
    }
  }

  lemma BothLeavesFour(rows: seq<Route>, qs: seq<Request>, rows': seq<Route>, r: Route)
    requires Reconciles(rows, qs, rows') && PolicyOk(Wanted(qs)) && 0 <= MaxId(rows)
    requires r in rows' && r.kind.Both?
    ensures MaxId(rows') <= (if r in rows then MaxId(rows) else r.routeId) + 4
  {
    NewIdsBelow(rows, qs, rows');
    AtMostSix(Wanted(qs));
    assert StillWanted(r, qs);
    var k :| 0 <= k < |qs| && PairOf(r) == (qs[k].mode, qs[k].localPort);
    assert Wanted(qs)[k].0 == Both;
    if r in rows {
      var i :| 0 <= i < |rows| && rows[i] == r;
      assert Present(rows, qs[k]);
      PresentIsNotNew(rows, qs, k);
    } else {
      var q :| q in qs && !Present(rows, q) && Fresh(rows, r, |News(rows, qs)|, q);
    }
  }

  /** Beside a `both` route an edit has room for four new routes, so each edit takes the ids at most
      four further from it. */
  lemma ReconcileNear(rows: seq<Route>, qs: seq<Request>, rows': seq<Route>, k: nat)
    requires Reconciles(rows, qs, rows') && PolicyOk(Wanted(qs)) && 0 <= MaxId(rows)
    requires Near(rows, k)
    ensures Near(rows', k + 4)
  {
    forall i | 0 <= i < |rows'| && rows'[i].kind.Both?
      ensures MaxId(rows') <= rows'[i].routeId + k + 4
    {
      var r := rows'[i];
      assert r in rows';
      BothLeavesFour(rows, qs, rows', r);
      if r in rows {
        var j :| 0 <= j < |rows| && rows[j] == r;
      }
    }
  }

  /** A new tunnel's ids count from 1, so at most four are above that of a `both` route. */
  lemma FreshNear(rows: seq<Route>)
    requires PolicyOk(Pairs(rows)) && forall i :: 0 <= i < |rows| ==> rows[i].routeId == i + 1
    ensures Near(rows, 4)
  {
    AtMostSix(Pairs(rows));
    MaxIdLeast(rows, |rows|);
    forall i | 0 <= i < |rows| && rows[i].kind.Both?
      ensures MaxId(rows) <= rows[i].routeId + 4
    {
      assert Pairs(rows)[i].0 == Both;
    }
  }

  /** Where only ports change, ids stay as near. */
  lemma PortsKeepNear(rows: seq<Route>, rows': seq<Route>, k: nat)
    requires SameButPorts(rows, rows') && MaxId(rows') <= MaxId(rows)
    requires Near(rows, k)
    ensures Near(rows', k)
  {
    forall i | 0 <= i < |rows'| && rows'[i].kind.Both?
      ensures MaxId(rows') <= rows'[i].routeId + k
    {
      assert rows'[i] == rows[i].(publicPort := rows'[i].publicPort);
    }
  }
}
