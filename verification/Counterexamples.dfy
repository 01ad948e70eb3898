/** One small state of the tables in which three operations of the source fall short of what their
    comments promise. The exact conditions are `Lifecycle.MigrateKeepsIff`,
    `Lifecycle.DeleteNodeKeepsIff` and `Handlers.ReconnectIff`. */
module Counterexamples {
  import opened Options
  import opened Claims
  import opened Signature
  import opened PortPool
  import opened RouteRows
  import opened Policy
  import opened Tables
  import opened Allocator
  import opened Lifecycle
  import opened Handlers

  const ROUTE := Route(1, Both, 25565, Some(7000), None, None)

  const ROWS: seq<Route> := [ROUTE]

  function NodeAt(host: string): Node
  {
    Node(host, None, host, true, Some(0), 0)
  }

  /** Device 5 of user 7 exposes port 25565 over tcp and udp on node "a"; node "b" has a free port. */
  function Example(): Db
  {
    Db(map[1 := Tunnel("fox-0000", 7, Some(5), SignatureOf(Pairs(ROWS)), Online, "a.example", "a", 0, None, None, None, None)],
       map[1 := ROWS],
       map[("a", 7000) := PoolRow(Some(1), Some(1)), ("b", 8000) := FREE],
       map["a" := NodeAt("a.example"), "b" := NodeAt("b.example")],
       map[5 := 7], {}, 2)
  }

  lemma ExamplePolicy()
    ensures PolicyOk(Pairs(ROWS))
  {
    var ps := Pairs(ROWS);
    assert ps == [(Both, 25565)];
    assert ps[..0] == [];
    forall slot
      ensures Count(ps, slot) <= Cap(slot)
    {
      assert Count(ps[..0], slot) == 0;
    }
  }

  lemma ExampleSound()
    ensures Sound(Example())
  {
    var db := Example();
    ExamplePolicy();
    assert RowsOk(db.tunnels[1], ROWS);
    assert DeviceOk(db.devices, db.tunnels[1]);
  }

  lemma ExampleHolds()
    ensures Sound(Example()) && Agreement(Example())
  {
    var pool := Example().pool;
    ExampleSound();
    assert Own(pool, 1) == map[("a", 7000) := Some(1)];
    ExampleAgrees();
  }

  lemma ExampleAgrees()
    ensures Agrees(map[("a", 7000) := Some(1)], ROWS, {})
  {
    var held: Held := map[("a", 7000) := Some(1)];
    assert ("a", 7000) in held;
    assert LinkOf(ROWS[0]) == (Some(1), Some(7000));
    assert Backing(held) == {(Some(1), Some(7000))};
    assert Owed(ROWS, {}) == {(Some(1), Some(7000))};
  }

  /** Moving the tunnel to "b" succeeds, frees its port and claims none. */
  lemma MigrationLosesThePort()
    ensures var (db', denial) := Migrate(Example(), 1, "b", "b.example");
      denial == None && Sound(db') && !Agreement(db')
  {
    var db := Example();
    ExampleHolds();
    assert ROWS[..0] == [];
    assert MoveNeed(ROWS) == 0;
    MigrateDeniedIff(db, 1, "b", "b.example");
    MigrateRelocates(db, 1, "b", "b.example");
    assert ROWS[0].kind == Both && !NoBoth(ROWS);
    MigrateKeepsIff(db, 1, "b", "b.example");
  }

  /** Deleting "a" drops the pool row that the tunnel holds. */
  lemma NodeDeletionLosesThePort()
    ensures !Agreement(DeleteNode(Example(), "a"))
  {
    var db := Example();
    ExampleHolds();
    assert ("a", 7000) in HeldKeys(db.pool) && HoldsOn(db, "a");
    DeleteNodeKeepsIff(db, "a");
  }

  /** The device asks again for exactly its own route and is turned away. */
  lemma DeviceReconnectIsTurnedAway(names: Names, now: int)
    ensures var ask := Ask([Request(Both, 25565, None)], names, Some("a"), Some(5), false);
      Requested(Example(), Caller(7, false, 10, None), ask, now) == (Example(), Rejected(EndpointInUse))
  {
    var db, caller := Example(), Caller(7, false, 10, None);
    var ask := Ask([Request(Both, 25565, None)], names, Some("a"), Some(5), false);
    ExampleHolds();
    assert Wanted(ask.wanted) == Pairs(ROWS);
    assert IsDedicated(Wanted(ask.wanted)[0]);
    ReconnectIff(db, caller, ask, now, 1);
  }
}
