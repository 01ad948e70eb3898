/** Canonical route signatures: "kind:port" parts, sorted and joined by commas. */
module Signature {
  import opened Claims

  /** A requested or stored route, as the signature sees it. */
  type Pair = (RouteMode, nat)

  // ------------------------------------------------------------------
  // Decimal numbers
  // ------------------------------------------------------------------

  function Digit(n: nat): char
    requires n < 10
  {
    '0' + n as char
  }

  function Decimal(n: nat): (s: string)
    ensures s != [] && (|s| == 1 <==> n < 10)
  {
    if n < 10 then [Digit(n)] else Decimal(n / 10) + [Digit(n % 10)]
  }

  predicate IsDigit(c: char)
  {
    '0' <= c <= '9'
  }

  lemma {:induction false} DecimalDigits(n: nat)
    ensures forall i :: 0 <= i < |Decimal(n)| ==> IsDigit(Decimal(n)[i])
  {
    if n >= 10 {
      DecimalDigits(n / 10);
    }
  }

  lemma {:induction false} DecimalInjective(m: nat, n: nat)
    requires Decimal(m) == Decimal(n)
    ensures m == n
  {
    if m >= 10 {
      var a, b := Decimal(m / 10), Decimal(n / 10);
      assert Decimal(m)[..|a|] == a && Decimal(n)[..|b|] == b;
      assert Decimal(m)[|a|] == Digit(m % 10) && Decimal(n)[|b|] == Digit(n % 10);
      DecimalInjective(m / 10, n / 10);
    }
  }

  // ------------------------------------------------------------------
  // Parts
  // ------------------------------------------------------------------

  /** `format!("{}:{}", mode, port)` */
  function Part(p: Pair): (s: string)
    ensures s != []
  {
    p.0.AsStr() + ":" + Decimal(p.1)
  }

  lemma ModeNames(m: RouteMode)
    ensures ':' !in m.AsStr() && ',' !in m.AsStr() && |m.AsStr()| >= 3
  {
    match m
    case Http =>
    case Https =>
    case Tcp =>
    case Udp =>
    case Both =>
  }

  lemma ModeNamesDiffer(m: RouteMode, n: RouteMode)
    requires m.AsStr() == n.AsStr()
    ensures m == n
  {
    assert |m.AsStr()| == |n.AsStr()| && m.AsStr()[0] == n.AsStr()[0];
  }

  lemma FirstIsAt(a: string, x: string, c: char)
    requires c !in a
    ensures (a + [c] + x)[|a|] == c
    ensures forall i :: 0 <= i < |a| ==> (a + [c] + x)[i] != c
  {
    assert forall i :: 0 <= i < |a| ==> (a + [c] + x)[i] == a[i];
  }

  /** Two strings cut at their first `c` agree piece by piece. */
  lemma CutAt(a: string, x: string, b: string, y: string, c: char)
    requires a + [c] + x == b + [c] + y
    requires c !in a && c !in b
    ensures a == b && x == y
  {
    var s, t := a + [c] + x, b + [c] + y;
    FirstIsAt(a, x, c);
    FirstIsAt(b, y, c);
    assert s[..|a|] == a && t[..|b|] == b;
    assert s[|a| + 1..] == x && t[|b| + 1..] == y;
  }

  lemma PartInjective(p: Pair, q: Pair)
    requires Part(p) == Part(q)
    ensures p == q
  {
    ModeNames(p.0);
    ModeNames(q.0);
    CutAt(p.0.AsStr(), Decimal(p.1), q.0.AsStr(), Decimal(q.1), ':');
    ModeNamesDiffer(p.0, q.0);
    DecimalInjective(p.1, q.1);
  }

  lemma PartHasNoComma(p: Pair)
    ensures ',' !in Part(p)
  {
    ModeNames(p.0);
    DecimalDigits(p.1);
  }

  function Parts(ps: seq<Pair>): (r: seq<string>)
    ensures |r| == |ps|
  {
    if ps == [] then [] else Parts(ps[..|ps| - 1]) + [Part(ps[|ps| - 1])]
  }

  // ------------------------------------------------------------------
  // Sorting strings
  // ------------------------------------------------------------------

  /** Lexicographic order. */
  predicate Le(a: string, b: string)
  {
    a == [] || (b != [] && (a[0] < b[0] || (a[0] == b[0] && Le(a[1..], b[1..]))))
  }

  lemma {:induction false} LeTotal(a: string, b: string)
    ensures Le(a, b) || Le(b, a)
  {
    if a != [] && b != [] && a[0] == b[0] {
      LeTotal(a[1..], b[1..]);
    }
  }

  lemma {:induction false} LeAntisymmetric(a: string, b: string)
    requires Le(a, b) && Le(b, a)
    ensures a == b
  {
    if a != [] {
      LeAntisymmetric(a[1..], b[1..]);
      assert a == [a[0]] + a[1..] && b == [b[0]] + b[1..];
    }
  }

  lemma {:induction false} LeTransitive(a: string, b: string, c: string)
    requires Le(a, b) && Le(b, c)
    ensures Le(a, c)
  {
    if a != [] && a[0] == b[0] == c[0] {
      LeTransitive(a[1..], b[1..], c[1..]);
    }
  }

  ghost predicate Ordered(s: seq<string>)
  {
    forall i, j :: 0 <= i < j < |s| ==> Le(s[i], s[j])
  }

  function Insert(s: seq<string>, x: string): seq<string>
  {
    if s == [] || Le(x, s[0]) then [x] + s else [s[0]] + Insert(s[1..], x)
  }

  /** `parts.sort()` */
  function Sort(s: seq<string>): seq<string>
  {
    if s == [] then [] else Insert(Sort(s[1..]), s[0])
  }

  lemma {:induction false} InsertPermutes(s: seq<string>, x: string)
    ensures multiset(Insert(s, x)) == multiset(s) + multiset{x}
  {
    if s == [] || Le(x, s[0]) {
    } else {
      InsertPermutes(s[1..], x);
      assert s == [s[0]] + s[1..];
    }
  }

  lemma {:induction false} InsertOrders(s: seq<string>, x: string)
    requires Ordered(s)
    ensures Ordered(Insert(s, x))
  {
    if s == [] {
    } else if Le(x, s[0]) {
      forall j | 0 <= j < |s|
        ensures Le(x, s[j])
      {
        if j > 0 {
          LeTransitive(x, s[0], s[j]);
        }
      }
    } else {
      LeTotal(x, s[0]);
      InsertOrders(s[1..], x);
      var t := Insert(s[1..], x);
      InsertPermutes(s[1..], x);
      forall j | 0 <= j < |t|
        ensures Le(s[0], t[j])
      {
        assert t[j] in multiset(t);
        if t[j] != x {
          assert t[j] in multiset(s[1..]);
          var i :| 0 <= i < |s[1..]| && s[1..][i] == t[j];
          assert s[i + 1] == t[j];
        }
      }
    }
  }

  lemma {:induction false} SortSorts(s: seq<string>)
    ensures Ordered(Sort(s)) && multiset(Sort(s)) == multiset(s)
  {
    if s != [] {
      SortSorts(s[1..]);
      InsertOrders(Sort(s[1..]), s[0]);
      InsertPermutes(Sort(s[1..]), s[0]);
      assert s == [s[0]] + s[1..];
    }
  }

  /** A sorted list is determined by its elements. */
  lemma {:induction false} OrderedUnique(a: seq<string>, b: seq<string>)
    requires Ordered(a) && Ordered(b) && multiset(a) == multiset(b)
    ensures a == b
  {
    SameLength(a, b);
    if a != [] {
      assert a[0] in multiset(b) && b[0] in multiset(a);
      HeadLeast(a, b[0]);
      HeadLeast(b, a[0]);
      LeAntisymmetric(a[0], b[0]);
      TailMultiset(a);
      TailMultiset(b);
      OrderedUnique(a[1..], b[1..]);
    }
  }

  lemma SameLength(a: seq<string>, b: seq<string>)
    requires multiset(a) == multiset(b)
    ensures |a| == |b|
  {
    assert |multiset(a)| == |a| && |multiset(b)| == |b|;
  }

  lemma TailMultiset(a: seq<string>)
    requires a != []
    ensures multiset(a[1..]) == multiset(a) - multiset{a[0]} && a == [a[0]] + a[1..]
  {
    assert a == [a[0]] + a[1..];
  }

  lemma HeadLeast(a: seq<string>, x: string)
    requires Ordered(a) && x in multiset(a)
    ensures a != [] && Le(a[0], x)
  {
    var i :| 0 <= i < |a| && a[i] == x;
    LeTotal(x, x);
  }

  // ------------------------------------------------------------------
  // Joining
  // ------------------------------------------------------------------

  /** `parts.join(",")` */
  function Join(parts: seq<string>): string
  {
    if parts == [] then ""
    else if |parts| == 1 then parts[0]
    else parts[0] + "," + Join(parts[1..])
  }

  ghost predicate Atoms(parts: seq<string>)
  {
    forall i :: 0 <= i < |parts| ==> parts[i] != [] && ',' !in parts[i]
  }

  lemma CommaIff(parts: seq<string>)
    requires Atoms(parts)
    ensures ',' in Join(parts) <==> |parts| >= 2
  {
    if |parts| >= 2 {
      assert Join(parts)[|parts[0]|] == ',';
    }
  }

  lemma {:induction false} JoinInjective(a: seq<string>, b: seq<string>)
    requires Atoms(a) && Atoms(b) && Join(a) == Join(b)
    ensures a == b
  {
    CommaIff(a);
    CommaIff(b);
    if |a| >= 2 {
      CutAt(a[0], Join(a[1..]), b[0], Join(b[1..]), ',');
      JoinInjective(a[1..], b[1..]);
      assert a == [a[0]] + a[1..] && b == [b[0]] + b[1..];
    }
  }

  // ------------------------------------------------------------------
  // Signatures
  // ------------------------------------------------------------------

  function SignatureOf(ps: seq<Pair>): string
  {
    Join(Sort(Parts(ps)))
  }

  /** `route_signature`: format every route, sort, join. */
  method RouteSignature(ps: seq<Pair>) returns (sig: string)
    ensures sig == SignatureOf(ps)
  {
    var parts: seq<string> := [];
    for i := 0 to |ps|
      invariant parts == Parts(ps[..i])
    {
      assert ps[..i + 1][..i] == ps[..i];
      parts := parts + [Part(ps[i])];
    }
    assert ps[..|ps|] == ps;
    sig := Join(Sort(parts));
  }

  lemma {:induction false} PartsCount(ps: seq<Pair>, p: Pair)
    ensures multiset(Parts(ps))[Part(p)] == multiset(ps)[p]
  {
    if ps != [] {
      var n := |ps| - 1;
      PartsCount(ps[..n], p);
      assert ps == ps[..n] + [ps[n]];
      assert multiset(ps) == multiset(ps[..n]) + multiset{ps[n]};
      assert multiset(Parts(ps)) == multiset(Parts(ps[..n])) + multiset{Part(ps[n])};
      if Part(p) == Part(ps[n]) {
        PartInjective(p, ps[n]);
      }
    }
  }

  lemma {:induction false} PartsSource(ps: seq<Pair>, s: string)
    requires s in multiset(Parts(ps))
    ensures exists i :: 0 <= i < |ps| && Part(ps[i]) == s
  {
    var n := |ps| - 1;
    assert multiset(Parts(ps)) == multiset(Parts(ps[..n])) + multiset{Part(ps[n])};
    if s != Part(ps[n]) {
      PartsSource(ps[..n], s);
      var i :| 0 <= i < n && Part(ps[..n][i]) == s;
      assert Part(ps[i]) == s;
    }
  }

  lemma PartsFollowPairs(a: seq<Pair>, b: seq<Pair>)
    requires multiset(a) == multiset(b)
    ensures multiset(Parts(a)) == multiset(Parts(b))
  {
    forall s
      ensures multiset(Parts(a))[s] == multiset(Parts(b))[s]
    {
      if s in multiset(Parts(a)) {
        PartsSource(a, s);
        var i :| 0 <= i < |a| && Part(a[i]) == s;
        PartsCount(a, a[i]);
        PartsCount(b, a[i]);
      } else if s in multiset(Parts(b)) {
        PartsSource(b, s);
        var i :| 0 <= i < |b| && Part(b[i]) == s;
        PartsCount(a, b[i]);
        PartsCount(b, b[i]);
      }
    }
  }

  lemma PairsFollowParts(a: seq<Pair>, b: seq<Pair>)
    requires multiset(Parts(a)) == multiset(Parts(b))
    ensures multiset(a) == multiset(b)
  {
    forall p
      ensures multiset(a)[p] == multiset(b)[p]
    {
      PartsCount(a, p);
      PartsCount(b, p);
    }
  }

  lemma SortedAtoms(ps: seq<Pair>)
    ensures Atoms(Sort(Parts(ps)))
  {
    var s := Sort(Parts(ps));
    SortSorts(Parts(ps));
    forall i | 0 <= i < |s|
      ensures s[i] != [] && ',' !in s[i]
    {
      assert s[i] in multiset(s);
      PartsSource(ps, s[i]);
      var j :| 0 <= j < |ps| && Part(ps[j]) == s[i];
      PartHasNoComma(ps[j]);
    }
  }

  /** The signature is canonical: two route lists have the same one exactly when they hold the
      same (kind, port) pairs with the same multiplicities, in whatever order. */
  lemma SignatureIff(a: seq<Pair>, b: seq<Pair>)
    ensures SignatureOf(a) == SignatureOf(b) <==> multiset(a) == multiset(b)
  {
    SortSorts(Parts(a));
    SortSorts(Parts(b));
    if multiset(a) == multiset(b) {
      PartsFollowPairs(a, b);
      OrderedUnique(Sort(Parts(a)), Sort(Parts(b)));
    }
    if SignatureOf(a) == SignatureOf(b) {
      SortedAtoms(a);
      SortedAtoms(b);
      JoinInjective(Sort(Parts(a)), Sort(Parts(b)));
      PairsFollowParts(a, b);
    }
  }

  /** The empty signature, which marks a parked tunnel, belongs to the empty list alone. */
  lemma EmptySignatureIff(a: seq<Pair>)
    ensures SignatureOf(a) == "" <==> a == []
  {
    SignatureIff(a, []);
    if a != [] {
      assert a[0] in multiset(a);
    }
  }
}
