/** What a tunnel's routes may be, and when two routes of a device want the same local socket. */
module Policy {
  import opened Options
  import opened Claims
  import opened Signature

  datatype Slot = HttpSlot | HttpsSlot | TcpSlot | UdpSlot

  /** A `both` route takes one tcp and one udp slot. */
  predicate Takes(m: RouteMode, slot: Slot)
  {
    match slot
    case HttpSlot => m == Http
    case HttpsSlot => m == Https
    case TcpSlot => m == Tcp || m == Both
    case UdpSlot => m == Udp || m == Both
  }

  function Cap(slot: Slot): nat
  {
    if slot == HttpSlot || slot == HttpsSlot then 1 else 2
  }

  function Count(ps: seq<Pair>, slot: Slot): nat
  {
    if ps == [] then 0
    else Count(ps[..|ps| - 1], slot) + (if Takes(ps[|ps| - 1].0, slot) then 1 else 0)
  }

  predicate IsDedicated(p: Pair)
  {
    !p.0.IsHostRouted()
  }

  /** Each dedicated local port is used by at most one route. */
  ghost predicate PortsOnce(ps: seq<Pair>)
  {
    forall i, j :: 0 <= i < j < |ps| && IsDedicated(ps[i]) && IsDedicated(ps[j]) ==> ps[i].1 != ps[j].1
  }

  ghost predicate WithinCaps(ps: seq<Pair>)
  {
    forall slot :: Count(ps, slot) <= Cap(slot)
  }

  /** The per-tunnel route policy. */
  ghost predicate PolicyOk(ps: seq<Pair>)
  {
    PortsOnce(ps) && WithinCaps(ps)
  }

  datatype Refusal = PortTwice(port: nat) | TooMany

  /** `check_route_policy` */
  method CheckRoutePolicy(ps: seq<Pair>) returns (refusal: Option<Refusal>)
    ensures refusal == None <==> PolicyOk(ps)
    ensures refusal == Some(TooMany) <==> PortsOnce(ps) && !WithinCaps(ps)
    ensures refusal.Some? && refusal.value.PortTwice? ==>
      exists i, j :: 0 <= i < j < |ps| && IsDedicated(ps[i]) && IsDedicated(ps[j]) && ps[i].1 == ps[j].1 == refusal.value.port
  {
    var http, https, tcp, udp := 0, 0, 0, 0;
    var ports: set<nat> := {};
    for i := 0 to |ps|
      invariant http == Count(ps[..i], HttpSlot) && https == Count(ps[..i], HttpsSlot)
      invariant tcp == Count(ps[..i], TcpSlot) && udp == Count(ps[..i], UdpSlot)
      invariant ports == set j | 0 <= j < i && IsDedicated(ps[j]) :: ps[j].1
      invariant PortsOnce(ps[..i])
    {
      assert ps[..i + 1][..i] == ps[..i];
      if !ps[i].0.IsHostRouted() {
        if ps[i].1 in ports {
          return Some(PortTwice(ps[i].1));
        }
        ports := ports + {ps[i].1};
      }
      match ps[i].0
      case Http => http := http + 1;
      case Https => https := https + 1;
      case Tcp => tcp := tcp + 1;
      case Udp => udp := udp + 1;
      case Both => tcp := tcp + 1; udp := udp + 1;
    }
    assert ps[..|ps|] == ps;
    if http > 1 || https > 1 || tcp > 2 || udp > 2 {
      refusal := Some(TooMany);
    } else {
      refusal := None;
      forall slot
        ensures Count(ps, slot) <= Cap(slot)
      {
        match slot case HttpSlot => case HttpsSlot => case TcpSlot => case UdpSlot =>
      }
    }
  }

  // ------------------------------------------------------------------
  // The policy as a property of the set of pairs
  // ------------------------------------------------------------------

  ghost predicate NoRepeats(ps: seq<Pair>)
  {
    forall i, j :: 0 <= i < j < |ps| ==> ps[i] != ps[j]
  }

  function Elements(ps: seq<Pair>): set<Pair>
  {
    set p | p in ps
  }

  function Takers(s: set<Pair>, slot: Slot): set<Pair>
  {
    set p | p in s && Takes(p.0, slot)
  }

  lemma ElementsStep(ps: seq<Pair>)
    requires ps != []
    ensures var n := |ps| - 1; Elements(ps) == Elements(ps[..n]) + {ps[n]}
  {
    var n := |ps| - 1;
    forall p
      ensures p in ps <==> p in ps[..n] || p == ps[n]
    {
      assert ps == ps[..n] + [ps[n]];
    }
  }

  lemma TakersUnion(s: set<Pair>, p: Pair, slot: Slot)
    requires p !in s
    ensures |Takers(s + {p}, slot)| == |Takers(s, slot)| + (if Takes(p.0, slot) then 1 else 0)
  {
    if Takes(p.0, slot) {
      assert Takers(s + {p}, slot) == Takers(s, slot) + {p};
    } else {
      assert Takers(s + {p}, slot) == Takers(s, slot);
    }
  }

  lemma {:induction false} CountIsCardinality(ps: seq<Pair>, slot: Slot)
    requires NoRepeats(ps)
    ensures Count(ps, slot) == |Takers(Elements(ps), slot)|
  {
    if ps != [] {
      var n := |ps| - 1;
      CountIsCardinality(ps[..n], slot);
      ElementsStep(ps);
      assert ps[n] !in ps[..n];
      TakersUnion(Elements(ps[..n]), ps[n], slot);
    } else {
      assert Takers(Elements(ps), slot) == {};
    }
  }

  lemma {:induction false} CountAtLeast(ps: seq<Pair>, slot: Slot, i: nat, j: nat)
    requires i < j < |ps| && Takes(ps[i].0, slot) && Takes(ps[j].0, slot)
    ensures Count(ps, slot) >= 2
  {
    var n := |ps| - 1;
    if j < n {
      CountAtLeast(ps[..n], slot, i, j);
    } else {
      CountPositive(ps[..n], slot, i);
    }
  }

  lemma {:induction false} CountPositive(ps: seq<Pair>, slot: Slot, i: nat)
    requires i < |ps| && Takes(ps[i].0, slot)
    ensures Count(ps, slot) >= 1
  {
    var n := |ps| - 1;
    if i < n {
      CountPositive(ps[..n], slot, i);
    }
  }

  lemma PolicyNoRepeats(ps: seq<Pair>)
    requires PolicyOk(ps)
    ensures NoRepeats(ps)
    ensures forall i, j :: 0 <= i < j < |ps| && ps[j].0.IsHostRouted() ==> ps[i].0 != ps[j].0
  {
    forall i, j | 0 <= i < j < |ps| && ps[j].0.IsHostRouted()
      ensures ps[i].0 != ps[j].0
    {
      if ps[i].0 == ps[j].0 {
        var slot := if ps[j].0 == Http then HttpSlot else HttpsSlot;
        assert Count(ps, slot) <= Cap(slot);
        CountAtLeast(ps, slot, i, j);
      }
    }
  }

  /** A list with the same pairs, in any order, obeys the policy too. */
  lemma PolicyPermutes(a: seq<Pair>, b: seq<Pair>)
    requires PolicyOk(a) && NoRepeats(b) && Elements(a) == Elements(b)
    ensures PolicyOk(b)
  {
    PolicyNoRepeats(a);
    forall slot
      ensures Count(b, slot) <= Cap(slot)
    {
      CountIsCardinality(a, slot);
      CountIsCardinality(b, slot);
      assert Count(a, slot) <= Cap(slot);
    }
    forall i, j | 0 <= i < j < |b| && IsDedicated(b[i]) && IsDedicated(b[j])
      ensures b[i].1 != b[j].1
    {
      assert b[i] in Elements(a) && b[j] in Elements(a);
      var k :| 0 <= k < |a| && a[k] == b[i];
      var l :| 0 <= l < |a| && a[l] == b[j];
      assert k != l;
    }
  }

  lemma OccursOnce(ps: seq<Pair>, p: Pair)
    requires NoRepeats(ps)
    ensures multiset(ps)[p] == if p in ps then 1 else 0
  {
    if p in ps {
      var i :| 0 <= i < |ps| && ps[i] == p;
      assert ps == ps[..i] + [p] + ps[i + 1..];
      assert p !in ps[..i] && p !in ps[i + 1..];
      assert multiset(ps) == multiset(ps[..i]) + multiset{p} + multiset(ps[i + 1..]);
    }
  }

  lemma SameElementsSameMultiset(a: seq<Pair>, b: seq<Pair>)
    requires NoRepeats(a) && NoRepeats(b)
    ensures Elements(a) == Elements(b) <==> multiset(a) == multiset(b)
  {
    if Elements(a) == Elements(b) {
      forall p
        ensures multiset(a)[p] == multiset(b)[p]
      {
        OccursOnce(a, p);
        OccursOnce(b, p);
        assert p in a <==> p in Elements(a);
        assert p in b <==> p in Elements(b);
      }
    } else if multiset(a) == multiset(b) {
      forall p
        ensures p in Elements(a) <==> p in Elements(b)
      {
        assert p in a <==> p in multiset(a);
        assert p in b <==> p in multiset(b);
      }
    }
  }

  predicate HasBoth(ps: seq<Pair>)
  {
    exists i :: 0 <= i < |ps| && ps[i].0 == Both
  }

  lemma {:induction false} EveryRouteTakesASlot(ps: seq<Pair>)
    ensures |ps| + (if HasBoth(ps) then 1 else 0)
         <= Count(ps, HttpSlot) + Count(ps, HttpsSlot) + Count(ps, TcpSlot) + Count(ps, UdpSlot)
  {
    if ps != [] {
      var n := |ps| - 1;
      EveryRouteTakesASlot(ps[..n]);
      match ps[n].0 { case Http => case Https => case Tcp => case Udp => case Both => }
      if ps[n].0 != Both && HasBoth(ps) {
        var i :| 0 <= i < |ps| && ps[i].0 == Both;
        assert ps[..n][i].0 == Both;
      }
    }
  }

  /** The policy allows at most six routes, and at most five if one is a `both` route. */
  lemma AtMostSix(ps: seq<Pair>)
    requires PolicyOk(ps)
    ensures |ps| <= if HasBoth(ps) then 5 else 6
  {
    EveryRouteTakesASlot(ps);
    assert Count(ps, HttpSlot) <= Cap(HttpSlot) && Count(ps, HttpsSlot) <= Cap(HttpsSlot);
    assert Count(ps, TcpSlot) <= Cap(TcpSlot) && Count(ps, UdpSlot) <= Cap(UdpSlot);
  }

  // ------------------------------------------------------------------
  // Local endpoints of a device
  // ------------------------------------------------------------------

  /** The transports a route takes on its local port: bit 0 is tcp, bit 1 is udp. */
  function TransportBits(m: RouteMode): bv8
  {
    match m
    case Tcp => 1
    case Udp => 2
    case Both => 3
    case _ => 0
  }

  /** Two routes of a device want the same local socket. */
  predicate Clash(p: Pair, q: Pair)
  {
    p.1 == q.1 && exists slot :: slot in {TcpSlot, UdpSlot} && Takes(p.0, slot) && Takes(q.0, slot)
  }

  lemma BitsMeetIff(a: RouteMode, b: RouteMode)
    ensures TransportBits(a) & TransportBits(b) != 0
            <==> exists slot :: slot in {TcpSlot, UdpSlot} && Takes(a, slot) && Takes(b, slot)
  {
    assert TcpSlot in {TcpSlot, UdpSlot} && UdpSlot in {TcpSlot, UdpSlot};
    match (a, b) {
      case (Both, Both) => assert Takes(a, TcpSlot) && Takes(b, TcpSlot);
      case (Both, Tcp) => assert Takes(a, TcpSlot) && Takes(b, TcpSlot);
      case (Tcp, Both) => assert Takes(a, TcpSlot) && Takes(b, TcpSlot);
      case (Tcp, Tcp) => assert Takes(a, TcpSlot) && Takes(b, TcpSlot);
      case (Udp, Both) => assert Takes(a, UdpSlot) && Takes(b, UdpSlot);
      case (Both, Udp) => assert Takes(a, UdpSlot) && Takes(b, UdpSlot);
      case (Udp, Udp) => assert Takes(a, UdpSlot) && Takes(b, UdpSlot);
      case _ =>
    }
  }

  ghost predicate ClashesAny(taken: set<Pair>, q: Pair)
  {
    exists p :: p in taken && Clash(p, q)
  }

  /** The conflict scan of both handlers: the first wanted route that clashes with a taken one,
      whatever order the taken ones are listed in. */
  method FirstConflict(taken: set<Pair>, wanted: seq<Pair>) returns (conflict: Option<nat>)
    ensures conflict == None <==> forall i :: 0 <= i < |wanted| ==> !ClashesAny(taken, wanted[i])
    ensures conflict.Some? ==> conflict.value < |wanted| && ClashesAny(taken, wanted[conflict.value])
                               && forall i :: 0 <= i < conflict.value ==> !ClashesAny(taken, wanted[i])
  {
    for i := 0 to |wanted|
      invariant forall k :: 0 <= k < i ==> !ClashesAny(taken, wanted[k])
    {
      var rest := taken;
      while rest != {}
        invariant rest <= taken
        invariant forall p :: p in taken && p !in rest ==> !Clash(p, wanted[i])
        decreases rest
      {
        var p :| p in rest;
        BitsMeetIff(p.0, wanted[i].0);
        if p.1 == wanted[i].1 && TransportBits(p.0) & TransportBits(wanted[i].0) != 0 {
          assert Clash(p, wanted[i]);
          return Some(i);
        }
        rest := rest - {p};
      }
    }
    return None;
  }
}
