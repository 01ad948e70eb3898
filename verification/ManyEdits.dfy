/** A run of 2499 edits of one tunnel after which its token is refused: each keeps the `both` route
    and swaps the four others, until the newest udp route has the id of its udp half. The exact
    condition is `Tokens.TokenShapeIff`. */
module ManyEdits {
  import opened Options
  import opened Claims
  import opened Signature
  import opened PortPool
  import opened RouteRows
  import opened RouteEdit
  import opened Policy
  import opened Tables
  import opened Allocator
  import opened Lifecycle
  import opened Handlers
  import opened Runs
  import Tokens

  const BOTH_ROW := Route(1, Both, 1000, Some(7000), None, None)

  const SERVER := Node("a", None, "a.example", true, Some(0), 0)

  /** The tunnel keeps its `both` route; the local ports of the other four go back and forth. */
  function HttpRow(n: nat): Route
  {
    Route(4 * n + 2, Http, 4000 + n % 2, None, None, None)
  }

  function HttpsRow(n: nat): Route
  {
    Route(4 * n + 3, Https, 5000 + n % 2, None, None, None)
  }

  function TcpRow(n: nat): Route
  {
    Route(4 * n + 4, Tcp, 2000 + n % 2, Some(7001), None, None)
  }

  function UdpRow(n: nat): Route
  {
    Route(4 * n + 5, Udp, 3000 + n % 2, Some(7002), None, None)
  }

  function AskFor(r: Route): Request
  {
    Request(r.kind, r.localPort, None)
  }

  function Four(n: nat): seq<Request>
  {
    [AskFor(HttpRow(n)), AskFor(HttpsRow(n)), AskFor(TcpRow(n)), AskFor(UdpRow(n))]
  }

  function Asked(n: nat): seq<Request>
  {
    [AskFor(BOTH_ROW), AskFor(HttpRow(n)), AskFor(HttpsRow(n)), AskFor(TcpRow(n)), AskFor(UdpRow(n))]
  }

  function RowsAfter(n: nat): seq<Route>
  {
    [BOTH_ROW, HttpRow(n), HttpsRow(n), TcpRow(n), UdpRow(n)]
  }

  /** The pool while only the `both` route has its port, once the tcp route has one, and once the udp
      route has one too. */
  const BOTH_ONLY: Pool := map[("a", 7000) := PoolRow(Some(1), Some(1)), ("a", 7001) := FREE, ("a", 7002) := FREE]

  function WithTcp(n: nat): Pool
  {
    BOTH_ONLY[("a", 7001) := PoolRow(Some(1), Some(4 * n + 4))]
  }

  function PoolAfter(n: nat): Pool
  {
    WithTcp(n)[("a", 7002) := PoolRow(Some(1), Some(4 * n + 5))]
  }

  function TunnelAfter(n: nat): Tunnel
  {
    Tunnel("fox-0000", 7, None, SignatureOf(Wanted(Asked(n))), AwaitingAgent, "a.example", "a", 0, None, None, None, None)
  }

  /** The tables after `n` edits. */
  function After(n: nat): Db
  {
    Db(map[1 := TunnelAfter(n)], map[1 := RowsAfter(n)], PoolAfter(n), map["a" := SERVER], map[], {}, 2)
  }

  const ASK := Ask(Asked(0), Custom("fox-0000"), Some("a"), None, false)

  function Setup(): seq<Event>
  {
    [Event(0, Registering("a", SERVER, 7000, 7002)),
     Event(0, Reserving(Caller(7, false, 10, None), ASK))]
  }

  function Edit(n: nat): Event
  {
    Event(0, Editing(7, false, 1, Asked(n)))
  }

  function EditsOf(n: nat): seq<Event>
  {
    if n == 0 then Setup() else EditsOf(n - 1) + [Edit(n)]
  }

  // ------------------------------------------------------------------
  // Adding the four
  // ------------------------------------------------------------------

  lemma TcpClaim(n: nat)
    ensures Claim(BOTH_ONLY, "a", 1, 4 * n + 4) == Claimed(WithTcp(n), 7001)
  {
    assert ("a", 7001) in BOTH_ONLY && ("a", 7002) in BOTH_ONLY;
    assert FreePorts(BOTH_ONLY, "a") == {7001, 7002};
  }

  lemma UdpClaim(n: nat)
    ensures Claim(WithTcp(n), "a", 1, 4 * n + 5) == Claimed(PoolAfter(n), 7002)
  {
    assert ("a", 7002) in WithTcp(n) && WithTcp(n)[("a", 7002)].tunnel.None?;
    assert FreePorts(WithTcp(n), "a") == {7002};
  }

  lemma HostRowAdded(pool: Pool, rows: seq<Route>, rid: int, r: Route)
    requires r.routeId == rid && r.kind.IsHostRouted() && r.publicPort == None && r.caption == None && r.srv == None
    requires MayInsert(rows, r)
    ensures AddRoute(pool, rows, "a", 1, rid, AskFor(r)) == Work(pool, rows + [r])
  {
  }

  lemma PortRowAdded(pool: Pool, pool': Pool, rows: seq<Route>, rid: int, r: Route, port: int)
    requires r.routeId == rid && !r.kind.IsHostRouted() && r.publicPort == Some(port) && r.caption == None && r.srv == None
    requires MayInsert(rows, r) && Claim(pool, "a", 1, rid) == Claimed(pool', port)
    ensures AddRoute(pool, rows, "a", 1, rid, AskFor(r)) == Work(pool', rows + [r])
  {
  }

  lemma OneMore(pool: Pool, rows: seq<Route>, base: int, qs: seq<Request>, w: Work, q: Request)
    requires w.Work? && AddRoutes(pool, rows, "a", 1, base, qs) == w
    ensures AddRoutes(pool, rows, "a", 1, base, qs + [q]) == AddRoute(w.pool, w.rows, "a", 1, base + 1 + |qs|, q)
  {
    assert (qs + [q])[..|qs|] == qs;
  }

  lemma HostsAdded(pool: Pool, rows: seq<Route>, base: int, qs: seq<Request>, n: nat)
    requires AddRoutes(pool, rows, "a", 1, base, qs) == Work(BOTH_ONLY, [BOTH_ROW]) && base + |qs| == 4 * n + 1
    ensures AddRoutes(pool, rows, "a", 1, base, qs + [AskFor(HttpRow(n))] + [AskFor(HttpsRow(n))])
         == Work(BOTH_ONLY, [BOTH_ROW, HttpRow(n), HttpsRow(n)])
  {
    var one := [BOTH_ROW] + [HttpRow(n)];
    HostRowAdded(BOTH_ONLY, [BOTH_ROW], 4 * n + 2, HttpRow(n));
    OneMore(pool, rows, base, qs, Work(BOTH_ONLY, [BOTH_ROW]), AskFor(HttpRow(n)));
    HostRowAdded(BOTH_ONLY, one, 4 * n + 3, HttpsRow(n));
    OneMore(pool, rows, base, qs + [AskFor(HttpRow(n))], Work(BOTH_ONLY, one), AskFor(HttpsRow(n)));
    assert one + [HttpsRow(n)] == [BOTH_ROW, HttpRow(n), HttpsRow(n)];
  }

  lemma PortsAdded(pool: Pool, rows: seq<Route>, base: int, qs: seq<Request>, n: nat)
    requires AddRoutes(pool, rows, "a", 1, base, qs) == Work(BOTH_ONLY, [BOTH_ROW, HttpRow(n), HttpsRow(n)])
    requires base + |qs| == 4 * n + 3
    ensures AddRoutes(pool, rows, "a", 1, base, qs + [AskFor(TcpRow(n))] + [AskFor(UdpRow(n))]) == Work(PoolAfter(n), RowsAfter(n))
  {
    var hosts := [BOTH_ROW, HttpRow(n), HttpsRow(n)];
    var three := hosts + [TcpRow(n)];
    TcpClaim(n);
    UdpClaim(n);
    PortRowAdded(BOTH_ONLY, WithTcp(n), hosts, 4 * n + 4, TcpRow(n), 7001);
    OneMore(pool, rows, base, qs, Work(BOTH_ONLY, hosts), AskFor(TcpRow(n)));
    PortRowAdded(WithTcp(n), PoolAfter(n), three, 4 * n + 5, UdpRow(n), 7002);
    OneMore(pool, rows, base, qs + [AskFor(TcpRow(n))], Work(WithTcp(n), three), AskFor(UdpRow(n)));
    assert three + [UdpRow(n)] == RowsAfter(n);
  }

  lemma FourAdded(pool: Pool, rows: seq<Route>, base: int, qs: seq<Request>, n: nat)
    requires AddRoutes(pool, rows, "a", 1, base, qs) == Work(BOTH_ONLY, [BOTH_ROW]) && base + |qs| == 4 * n + 1
    ensures AddRoutes(pool, rows, "a", 1, base, qs + Four(n)) == Work(PoolAfter(n), RowsAfter(n))
  {
    HostsAdded(pool, rows, base, qs, n);
    var hosts := qs + [AskFor(HttpRow(n))] + [AskFor(HttpsRow(n))];
    PortsAdded(pool, rows, base, hosts, n);
    assert hosts + [AskFor(TcpRow(n))] + [AskFor(UdpRow(n))] == qs + Four(n);
  }

  // ------------------------------------------------------------------
  // One edit
  // ------------------------------------------------------------------

  lemma CountMore(ps: seq<Pair>, p: Pair, slot: Slot)
    ensures Count(ps + [p], slot) == Count(ps, slot) + (if Takes(p.0, slot) then 1 else 0)
  {
    assert (ps + [p])[..|ps|] == ps;
  }

  lemma AskedCounts(n: nat, slot: Slot)
    ensures Count(Wanted(Asked(n)), slot) <= Cap(slot)
  {
    var a: seq<Pair> := [PairOf(BOTH_ROW)];
    var b := a + [PairOf(HttpRow(n))];
    var c := b + [PairOf(HttpsRow(n))];
    var d := c + [PairOf(TcpRow(n))];
    assert a[..0] == [];
    CountMore(a, PairOf(HttpRow(n)), slot);
    CountMore(b, PairOf(HttpsRow(n)), slot);
    CountMore(c, PairOf(TcpRow(n)), slot);
    CountMore(d, PairOf(UdpRow(n)), slot);
    assert Wanted(Asked(n)) == d + [PairOf(UdpRow(n))];
  }

  lemma AskedPolicy(n: nat)
    ensures PolicyOk(Wanted(Asked(n)))
  {
    forall slot
      ensures Count(Wanted(Asked(n)), slot) <= Cap(slot)
    {
      AskedCounts(n, slot);
    }
  }

  function OldIds(n: nat): set<int>
  {
    {4 * n + 2, 4 * n + 3, 4 * n + 4, 4 * n + 5}
  }

  /** Of rows and requests one edit apart only the `both` route's are for the same pair. */
  lemma OnlyBothMatches(n: nat, i: nat, j: nat)
    requires i < 5 && j < 5
    ensures PairOf(RowsAfter(n)[i]) == (Asked(n + 1)[j].mode, Asked(n + 1)[j].localPort) <==> i == 0 && j == 0
  {
  }

  lemma StaleRows(n: nat)
    ensures Stale(RowsAfter(n), Asked(n + 1), 5) == OldIds(n)
  {
    var rows, qs := RowsAfter(n), Asked(n + 1);
    forall i | 0 <= i < 5
      ensures StillWanted(rows[i], qs) <==> i == 0
    {
      OnlyBothMatches(n, i, 0);
      forall j | 0 <= j < 5
        ensures PairOf(rows[i]) == (qs[j].mode, qs[j].localPort) <==> i == 0 && j == 0
      {
        OnlyBothMatches(n, i, j);
      }
    }
    assert rows[1].routeId in Stale(rows, qs, 5) && rows[2].routeId in Stale(rows, qs, 5);
    assert rows[3].routeId in Stale(rows, qs, 5) && rows[4].routeId in Stale(rows, qs, 5);
  }

  lemma DropMore(rows: seq<Route>, r: Route, ids: set<int>)
    ensures Drop(rows + [r], ids) == Drop(rows, ids) + (if r.routeId in ids then [] else [r])
  {
    assert (rows + [r])[..|rows|] == rows;
  }

  lemma KeptRow(n: nat)
    ensures Drop(RowsAfter(n), OldIds(n)) == [BOTH_ROW]
  {
    var a := [BOTH_ROW];
    var b := a + [HttpRow(n)];
    var c := b + [HttpsRow(n)];
    var d := c + [TcpRow(n)];
    DropMore([], BOTH_ROW, OldIds(n));
    assert [] + [BOTH_ROW] == a;
    DropMore(a, HttpRow(n), OldIds(n));
    DropMore(b, HttpsRow(n), OldIds(n));
    DropMore(c, TcpRow(n), OldIds(n));
    DropMore(d, UdpRow(n), OldIds(n));
    assert RowsAfter(n) == d + [UdpRow(n)];
  }

  lemma LargestId(n: nat)
    ensures MaxId(RowsAfter(n)) == 4 * n + 5
  {
    MaxIdBounds(RowsAfter(n));
    assert RowsAfter(n)[4].routeId == 4 * n + 5;
    MaxIdLeast(RowsAfter(n), 4 * n + 5);
  }

  lemma NewsMore(rows: seq<Route>, qs: seq<Request>, q: Request)
    ensures News(rows, qs + [q]) == News(rows, qs) + (if Present(rows, q) then [] else [q])
  {
    assert (qs + [q])[..|qs|] == qs;
  }

  lemma Presences(n: nat, j: nat)
    requires j < 5
    ensures Present(RowsAfter(n), Asked(n + 1)[j]) <==> j == 0
  {
    OnlyBothMatches(n, 0, j);
    forall i | 0 <= i < 5
      ensures PairOf(RowsAfter(n)[i]) == (Asked(n + 1)[j].mode, Asked(n + 1)[j].localPort) <==> i == 0 && j == 0
    {
      OnlyBothMatches(n, i, j);
    }
    if j == 0 {
      assert PairOf(RowsAfter(n)[0]) == (Asked(n + 1)[j].mode, Asked(n + 1)[j].localPort);
    }
  }

  lemma NewRequests(n: nat)
    ensures News(RowsAfter(n), Asked(n + 1)) == Four(n + 1)
  {
    var rows, qs := RowsAfter(n), Asked(n + 1);
    Presences(n, 0);
    Presences(n, 1);
    Presences(n, 2);
    Presences(n, 3);
    Presences(n, 4);
    NewsMore(rows, [], qs[0]);
    assert [] + [qs[0]] == [qs[0]];
    var b := [qs[0]] + [qs[1]];
    var c := b + [qs[2]];
    var d := c + [qs[3]];
    NewsMore(rows, [qs[0]], qs[1]);
    NewsMore(rows, b, qs[2]);
    NewsMore(rows, c, qs[3]);
    NewsMore(rows, d, qs[4]);
    assert qs == d + [qs[4]];
  }

  lemma FreedPorts(n: nat)
    ensures FreeRoutes(PoolAfter(n), 1, OldIds(n)) == BOTH_ONLY
  {
  }

  lemma EditReconciles(n: nat)
    ensures Reconciled(PoolAfter(n), RowsAfter(n), "a", 1, Asked(n + 1)) == Work(PoolAfter(n + 1), RowsAfter(n + 1))
  {
    StaleRows(n);
    KeptRow(n);
    LargestId(n);
    NewRequests(n);
    FreedPorts(n);
    FourAdded(BOTH_ONLY, [BOTH_ROW], 4 * n + 5, [], n + 1);
    assert [] + Four(n + 1) == Four(n + 1);
  }

  lemma EditCommits(n: nat)
    ensures SetRoutes(After(n), 1, "a", Asked(n + 1)).0 == After(n + 1)
  {
    EditReconciles(n);
    assert !SetTaken(After(n), 1, SignatureOf(Wanted(Asked(n + 1))));
  }

  lemma EditAdmitted(n: nat)
    ensures EditTurned(After(n), 7, false, 1, Asked(n + 1)) == None
  {
    AskedPolicy(n + 1);
  }

  lemma OneEdit(n: nat)
    ensures EditedRoutes(After(n), 7, false, 1, Asked(n + 1)).0 == After(n + 1)
  {
    EditAdmitted(n);
    EditCommits(n);
  }

  // ------------------------------------------------------------------
  // Setting up
  // ------------------------------------------------------------------

  const SEEDED: Pool := map[("a", 7000) := FREE, ("a", 7001) := FREE, ("a", 7002) := FREE]

  function Registered(): Db
  {
    Db(map[], map[], SEEDED, map["a" := SERVER], map[], {}, 1)
  }

  lemma NodeRegisters()
    ensures RegisterNode(Empty({}), "a", SERVER, 7000, 7002, 0) == Registered()
  {
    var ports := set p | 7000 <= p <= 7002 :: ("a", p);
    assert ports == {("a", 7000), ("a", 7001), ("a", 7002)};
    assert Seed(map[], "a", 7000, 7002) == SEEDED;
  }

  lemma FirstClaim()
    ensures Claim(SEEDED, "a", 1, 1) == Claimed(BOTH_ONLY, 7000)
  {
    assert ("a", 7000) in SEEDED && ("a", 7001) in SEEDED && ("a", 7002) in SEEDED;
    assert FreePorts(SEEDED, "a") == {7000, 7001, 7002};
  }

  lemma FirstRows()
    ensures AddRoutes(SEEDED, [], "a", 1, 0, Asked(0)) == Work(PoolAfter(0), RowsAfter(0))
  {
    FirstClaim();
    PortRowAdded(SEEDED, BOTH_ONLY, [], 1, BOTH_ROW, 7000);
    OneMore(SEEDED, [], 0, [], Work(SEEDED, []), AskFor(BOTH_ROW));
    assert [] + [AskFor(BOTH_ROW)] == [AskFor(BOTH_ROW)] && [] + [BOTH_ROW] == [BOTH_ROW];
    FourAdded(SEEDED, [], 0, [AskFor(BOTH_ROW)], 0);
    assert [AskFor(BOTH_ROW)] + Four(0) == Asked(0);
  }

  const FIRST := Reservation(7, "a", "a.example", Asked(0), Custom("fox-0000"), 10, true, None)

  lemma TunnelAdded()
    ensures AddTunnel(Registered(), FIRST, "fox-0000", 0).0 == After(0)
  {
    FirstRows();
  }

  lemma Reserved()
    ensures Reserve(Registered(), FIRST, 0) == AddTunnel(Registered(), FIRST, "fox-0000", 0)
  {
    NameFits(Registered());
    assert Matching(Registered(), 7, None, SignatureOf(Wanted(Asked(0)))) == {};
    assert OwnedBy(Registered(), 7) == {};
  }

  lemma TunnelReserved()
    ensures Requested(Registered(), Caller(7, false, 10, None), ASK, 0).0 == After(0)
  {
    AskedPolicy(0);
    assert Turned(Registered(), Caller(7, false, 10, None), ASK) == None;
    assert ReservationFor(Registered(), Caller(7, false, 10, None), ASK) == FIRST;
    Reserved();
    TunnelAdded();
  }

  lemma NameFits(db: Db)
    requires db.tunnels == map[] && db.reserved == {}
    ensures ChooseName(db, Custom("fox-0000")) == Named("fox-0000")
  {
    var s := "fox-0000";
    assert |s| == 8 && s[0] == 'f' && s[7] == '0';
    forall i | 0 <= i < |s|
      ensures Alnum(s[i]) || s[i] == '-'
    {
      if i < 3 {
        assert s[i] in "fox";
      } else if i > 3 {
        assert s[i] == '0';
      }
    }
  }

  // ------------------------------------------------------------------
  // The run
  // ------------------------------------------------------------------

  lemma RunSnoc(events: seq<Event>, e: Event)
    ensures var db := Run({}, events);
      db.routes.Keys == db.tunnels.Keys ==> Run({}, events + [e]) == Step(db, e)
  {
    assert (events + [e])[..|events|] == events;
  }

  lemma SetupRuns()
    ensures Run({}, Setup()) == After(0)
  {
    var a, b := Setup()[0], Setup()[1];
    RunSnoc([], a);
    assert [] + [a] == [a];
    NodeRegisters();
    assert Run({}, [a]) == Registered();
    RunSnoc([a], b);
    assert [a] + [b] == Setup();
    TunnelReserved();
  }

  lemma RunMore(events: seq<Event>, n: nat)
    requires Run({}, events) == After(n)
    ensures Run({}, events + [Edit(n + 1)]) == After(n + 1)
  {
    RunSnoc(events, Edit(n + 1));
    EditSteps(After(n), n);
  }

  lemma EditSteps(db: Db, n: nat)
    requires db == After(n)
    ensures db.routes.Keys == db.tunnels.Keys && Step(db, Edit(n + 1)) == After(n + 1)
  {
    OneEdit(n);
  }

  ghost predicate Reaches(events: seq<Event>, db: Db)
  {
    Run({}, events) == db
  }

  lemma ReachesMore(n: nat)
    requires Reaches(EditsOf(n), After(n))
    ensures Reaches(EditsOf(n + 1), After(n + 1))
  {
    RunMore(EditsOf(n), n);
  }

  lemma {:induction false} EditsReach(n: nat)
    ensures Reaches(EditsOf(n), After(n))
    decreases n
  {
    if n == 0 {
      SetupRuns();
    } else {
      EditsReach(n - 1);
      ReachesMore(n - 1);
    }
  }

  /** After `n` edits the tunnel still has its `both` route, and a udp route with the id 4n + 5. */
  lemma EditsRun(n: nat)
    ensures Run({}, EditsOf(n)) == After(n)
  {
    EditsReach(n);
  }

  lemma {:induction false} EditsCounted(n: nat)
    ensures Edits(EditsOf(n), 1) == n
  {
    if n == 0 {
      assert |Setup()[..1][..0]| == 0;
    } else {
      EditsCounted(n - 1);
      assert EditsOf(n)[..|EditsOf(n)| - 1] == EditsOf(n - 1);
    }
  }

  lemma RefusedAfter(db: Db, n: nat)
    requires db == After(n) && Sound(db) && 4 * n + 4 == Tokens.BOTH_UDP_ROUTE_OFFSET
    ensures !Claims.WellShaped(Tokens.TokenFor(db, 1))
  {
    assert db.routes[1] == RowsAfter(n);
    assert Tokens.HalfMeets(RowsAfter(n)[0], RowsAfter(n)[4]);
    Tokens.TokenShapeIff(db, 1);
  }

  /** The bound of `Tokens.MintedTokensAccepted` is sharp: after one edit more, the 2499th, the newest
      udp route of a reachable tunnel can have the id of the udp half of its `both` route. */
  lemma TokenRefused(n: nat)
    requires 4 * n + 4 == Tokens.BOTH_UDP_ROUTE_OFFSET
    ensures var db := Run({}, EditsOf(n));
      && Edits(EditsOf(n), 1) == n
      && Sound(db) && 1 in db.tunnels && 1 in db.routes
      && !Claims.WellShaped(Tokens.TokenFor(db, 1))
  {
    EditsRun(n);
    EditsCounted(n);
    RunIsSound({}, EditsOf(n));
    RefusedAfter(Run({}, EditsOf(n)), n);
  }
}
