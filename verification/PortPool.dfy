/** The `port_pool` table: one row per (node, port), free iff its tunnel is NULL. */
module PortPool {
  import opened Options
  import opened Sets

  type NodeId = string

  type TunnelId = int

  type PortKey = (NodeId, int)

  datatype PoolRow = PoolRow(tunnel: Option<TunnelId>, route: Option<int>)

  type Pool = map<PortKey, PoolRow>

  const FREE := PoolRow(None, None)

  /** The ports of a node that no tunnel holds. */
  function FreePorts(pool: Pool, node: NodeId): set<int>
  {
    set k | k in pool && k.0 == node && pool[k].tunnel.None? :: k.1
  }

  lemma LeastExists(s: set<int>)
    requires s != {}
    ensures exists m :: m in s && forall x :: x in s ==> m <= x
  {
    var x := Pick(s);
    var t := s - {x};
    if t == {} {
      assert s == {x};
    } else {
      LeastExists(t);
      var m :| m in t && forall y :: y in t ==> m <= y;
      var least := if x <= m then x else m;
      assert forall y :: y in s ==> y == x || y in t;
      assert least in s && forall y :: y in s ==> least <= y;
    }
  }

  /** `ORDER BY port LIMIT 1` */
  function Least(s: set<int>): (m: int)
    requires s != {}
    ensures m in s && forall x :: x in s ==> m <= x
  {
    LeastExists(s);
    var m :| m in s && forall x :: x in s ==> m <= x;
    m
  }

  datatype Claimed = Claimed(pool: Pool, port: int) | Exhausted

  /** `CLAIM_PORT_SQL` in a pool nobody else has locked: the lowest free port of the node. */
  function Claim(pool: Pool, node: NodeId, t: TunnelId, rid: int): (c: Claimed)
  {
    var free := FreePorts(pool, node);
    if free == {} then Exhausted
    else
      var p := Least(free);
      Claimed(pool[(node, p) := PoolRow(Some(t), Some(rid))], p)
  }

  /** `UPDATE port_pool SET tunnel_id=NULL, route_id=NULL WHERE tunnel_id = ANY(ts)` */
  function FreeTunnels(pool: Pool, ts: set<TunnelId>): Pool
  {
    map k | k in pool :: if pool[k].tunnel.Some? && pool[k].tunnel.value in ts then FREE else pool[k]
  }

  /** `... WHERE tunnel_id = t AND route_id = ANY(rids)` */
  function FreeRoutes(pool: Pool, t: TunnelId, rids: set<int>): Pool
  {
    map k | k in pool ::
      if pool[k].tunnel == Some(t) && pool[k].route.Some? && pool[k].route.value in rids then FREE else pool[k]
  }

  /** `ON DELETE SET NULL`: the rows become free but keep a stale route id. */
  function Orphan(pool: Pool, ts: set<TunnelId>): Pool
  {
    map k | k in pool ::
      if pool[k].tunnel.Some? && pool[k].tunnel.value in ts then pool[k].(tunnel := None) else pool[k]
  }

  // ------------------------------------------------------------------
  // What a tunnel holds
  // ------------------------------------------------------------------

  /** The rows tunnel `t` holds, with the route id each is held for. */
  type Held = map<PortKey, Option<int>>

  function Own(pool: Pool, t: TunnelId): Held
  {
    map k | k in pool && pool[k].tunnel == Some(t) :: pool[k].route
  }

  lemma ClaimEffect(pool: Pool, node: NodeId, t: TunnelId, rid: int)
    ensures var c := Claim(pool, node, t, rid);
      && (c == Exhausted <==> FreePorts(pool, node) == {})
      && (c.Claimed? ==>
            && c.port in FreePorts(pool, node)
            && (node, c.port) !in Own(pool, t)
            && Own(c.pool, t) == Own(pool, t)[(node, c.port) := Some(rid)]
            && FreePorts(c.pool, node) == FreePorts(pool, node) - {c.port}
            && forall u :: u != t ==> Own(c.pool, u) == Own(pool, u))
  {
    var c := Claim(pool, node, t, rid);
    if c.Claimed? {
      var k := (node, c.port);
      assert k in pool && pool[k].tunnel == None;
      assert Own(c.pool, t) == Own(pool, t)[k := Some(rid)];
      forall u | u != t
        ensures Own(c.pool, u) == Own(pool, u)
      {
      }
      FreeAfterClaim(pool, node, t, rid, c.port);
    }
  }

  lemma FreeAfterClaim(pool: Pool, node: NodeId, t: TunnelId, rid: int, p: int)
    requires p in FreePorts(pool, node)
    ensures FreePorts(pool[(node, p) := PoolRow(Some(t), Some(rid))], node) == FreePorts(pool, node) - {p}
  {
    var pool' := pool[(node, p) := PoolRow(Some(t), Some(rid))];
    forall q
      ensures q in FreePorts(pool', node) <==> q in FreePorts(pool, node) - {p}
    {
      assert q in FreePorts(pool', node) <==> (node, q) in pool' && pool'[(node, q)].tunnel.None?;
      assert q in FreePorts(pool, node) <==> (node, q) in pool && pool[(node, q)].tunnel.None?;
    }
  }

  lemma FreeTunnelsEffect(pool: Pool, ts: set<TunnelId>, u: TunnelId)
    ensures Own(FreeTunnels(pool, ts), u) == if u in ts then map[] else Own(pool, u)
    ensures Own(Orphan(pool, ts), u) == if u in ts then map[] else Own(pool, u)
  {
  }

  function Without(held: Held, rids: set<int>): Held
  {
    map k | k in held && !(held[k].Some? && held[k].value in rids) :: held[k]
  }

  lemma FreeRoutesEffect(pool: Pool, t: TunnelId, rids: set<int>, u: TunnelId)
    ensures Own(FreeRoutes(pool, t, rids), u) == if u == t then Without(Own(pool, t), rids) else Own(pool, u)
  {
  }
}
