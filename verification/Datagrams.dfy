/** UDP datagram framing of `natforge-proto`, and the two relay loops that use it. */
module Datagrams {
  import opened Bytes

  /** What one `read_datagram` call sees. A stream that ends inside the length prefix is
      reported as a clean end; one that ends inside the payload is an error. */
  datatype Next = Datagram(data: seq<Byte>, rest: seq<Byte>) | EndOfStream | Broken

  function Frame(d: seq<Byte>): (s: seq<Byte>)
  {
    PutU16(|Clipped(d)|) + Clipped(d)
  }

  function FrameAll(ds: seq<seq<Byte>>): (s: seq<Byte>)
  {
    if ds == [] then [] else Frame(ds[0]) + FrameAll(ds[1..])
  }

  function ReadNext(s: seq<Byte>): (n: Next)
    ensures n.Datagram? ==> |n.rest| < |s|
  {
    if |s| < 2 then EndOfStream
    else
      var len := GetU16(s[0], s[1]);
      if |s| < 2 + len then Broken else Datagram(s[2..2 + len], s[2 + len..])
  }

  /** Everything a reader gets until the first call that is not `Ok(Some(_))`. */
  function ReadAll(s: seq<Byte>): (ds: seq<seq<Byte>>)
    decreases |s|
  {
    var n := ReadNext(s);
    if n.Datagram? then [n.data] + ReadAll(n.rest) else []
  }

  /** The bytes not consumed by whole datagrams when the reader stops. */
  function Leftover(s: seq<Byte>): (t: seq<Byte>)
    ensures !ReadNext(t).Datagram?
    decreases |s|
  {
    var n := ReadNext(s);
    if n.Datagram? then Leftover(n.rest) else s
  }

  /** A frame is the length, big-endian, and then the datagram. */
  lemma FrameBytes(d: seq<Byte>)
    requires |d| <= 65535
    ensures |Frame(d)| == 2 + |d| && Frame(d)[0] == |d| / 256 && Frame(d)[1] == |d| % 256 && Frame(d)[2..] == d
  {
    assert Clipped(d) == d;
  }

  /** `write_datagram` for each datagram of a flow, in the order they arrive. */
  method WriteAll(ds: seq<seq<Byte>>) returns (w: seq<Byte>)
    ensures w == FrameAll(ds)
  {
    w := [];
    for i := 0 to |ds|
      invariant w == FrameAll(ds[..i])
    {
      var len := Min(|ds[i]|, U16_MAX);
      FrameAllAppend(ds[..i], [ds[i]]);
      assert ds[..i + 1] == ds[..i] + [ds[i]];
      Assoc(w, PutU16(len), ds[i][..len]);
      w := w + PutU16(len);
      w := w + ds[i][..len];
    }
    assert ds[..|ds|] == ds;
  }

  /** `read_datagram` on a stream. */
  method ReadDatagram(r: ByteStream) returns (n: Next)
    modifies r
    ensures n == ReadNext(old(r.rest))
    ensures n.Datagram? ==> r.rest == n.rest
  {
    var ok, lb := r.ReadExact(2);
    if !ok { return EndOfStream; }
    var len := GetU16(lb[0], lb[1]);
    var buf;
    ghost var t := r.rest;
    ok, buf := r.ReadExact(len);
    if !ok { return Broken; }
    n := Datagram(buf, r.rest);
  }

  /** The relay loop `while let Ok(Some(d)) = read_datagram(..)`. */
  method DrainDatagrams(r: ByteStream) returns (ds: seq<seq<Byte>>, last: Next)
    modifies r
    ensures ds == ReadAll(old(r.rest))
    ensures last == ReadNext(Leftover(old(r.rest)))
  {
    ds, last := [], EndOfStream;
    while true
      invariant ds + ReadAll(r.rest) == ReadAll(old(r.rest))
      invariant Leftover(r.rest) == Leftover(old(r.rest))
      decreases |r.rest|
    {
      ghost var before := r.rest;
      var n := ReadDatagram(r);
      if !n.Datagram? {
        assert ReadAll(before) == [];
        last := n;
        return;
      }
      Assoc(ds, [n.data], ReadAll(n.rest));
      ds := ds + [n.data];
    }
  }

  lemma {:induction false} FrameAllAppend(a: seq<seq<Byte>>, b: seq<seq<Byte>>)
    ensures FrameAll(a + b) == FrameAll(a) + FrameAll(b)
  {
    if a == [] {
      assert a + b == b;
    } else {
      FrameAllAppend(a[1..], b);
      assert (a + b)[1..] == a[1..] + b;
      Assoc(Frame(a[0]), FrameAll(a[1..]), FrameAll(b));
    }
  }

  lemma FrameReadsBack(d: seq<Byte>, tail: seq<Byte>)
    ensures ReadNext(Frame(d) + tail) == Datagram(Clipped(d), tail)
  {
    var c := Clipped(d);
    var s := Frame(d) + tail;
    BigEndianInverse(|c|, 0, 0);
    Assoc(PutU16(|c|), c, tail);
    assert s[2..] == c + tail;
    assert s[2..2 + |c|] == (c + tail)[..|c|] == c;
    assert s[2 + |c|..] == (c + tail)[|c|..] == tail;
  }

  ghost predicate AllFit(ds: seq<seq<Byte>>)
  {
    forall i :: 0 <= i < |ds| ==> |ds[i]| <= U16_MAX
  }

  /** What holds of the datagrams read from the tail of a list holds with its head read too. */
  lemma OneMoreRead(ds: seq<seq<Byte>>, got: seq<seq<Byte>>, k: nat)
    requires ds != [] && got <= ds[1..] && |FrameAll(got)| <= k
    requires got == ds[1..] || k < |FrameAll(ds[1..][..|got| + 1])|
    ensures var all := [ds[0]] + got; var m := |Frame(ds[0])| + k;
      all <= ds && |FrameAll(all)| <= m && (all == ds || m < |FrameAll(ds[..|all| + 1])|)
  {
    var all := [ds[0]] + got;
    assert all[1..] == got;
    assert ds == [ds[0]] + ds[1..];
    if got != ds[1..] {
      assert ds[..|got| + 2][1..] == ds[1..][..|got| + 1];
    }
  }

  /** Boundaries survive the byte stream: reading any list of framed datagrams cut after
      `k` bytes returns exactly the datagrams whose frames lie within the cut. */
  lemma {:induction false} TruncatedList(ds: seq<seq<Byte>>, k: nat)
    requires AllFit(ds) && k <= |FrameAll(ds)|
    ensures var got := ReadAll(FrameAll(ds)[..k]);
      && got <= ds
      && |FrameAll(got)| <= k
      && (got == ds || k < |FrameAll(ds[..|got| + 1])|)
    decreases |ds|
  {
    var s := FrameAll(ds)[..k];
    if ds == [] {
    } else {
      var f := Frame(ds[0]);
      var more := FrameAll(ds[1..]);
      assert Clipped(ds[0]) == ds[0];
      if k < |f| {
        assert s == f[..k];
        CutFrame(ds[0], k);
        assert ReadAll(s) == [];
        assert ds[..1] == [ds[0]];
        FrameAllAppend([ds[0]], ds[1..]);
        assert FrameAll(ds[..1]) == f + FrameAll([]);
      } else {
        var t := more[..k - |f|];
        assert s == f + t;
        FrameReadsBack(ds[0], t);
        TruncatedList(ds[1..], k - |f|);
        assert ReadAll(s) == [ds[0]] + ReadAll(t);
        OneMoreRead(ds, ReadAll(t), k - |f|);
      }
    }
  }

  lemma CutFrame(d: seq<Byte>, k: nat)
    requires |d| <= U16_MAX && k < |Frame(d)|
    ensures !ReadNext(Frame(d)[..k]).Datagram?
  {
    assert Clipped(d) == d;
    BigEndianInverse(|d|, 0, 0);
    if k >= 2 {
      assert Frame(d)[..k][0] == PutU16(|d|)[0] && Frame(d)[..k][1] == PutU16(|d|)[1];
    }
  }

  /** No byte of a stream is lost or read twice: it is the frames of what was read, followed
      by what was left. */
  lemma {:induction false} StreamPartition(s: seq<Byte>)
    ensures s == FrameAll(ReadAll(s)) + Leftover(s)
    decreases |s|
  {
    var n := ReadNext(s);
    if n.Datagram? {
      StreamPartition(n.rest);
      Pair(s, 0);
      Split(s, 2);
      Drop(s, 2, |n.data|);
      Assoc(s[..2], n.data, n.rest);
      assert Clipped(n.data) == n.data;
      assert s == Frame(n.data) + n.rest;
      Assoc(Frame(n.data), FrameAll(ReadAll(n.rest)), Leftover(n.rest));
      assert ([n.data] + ReadAll(n.rest))[1..] == ReadAll(n.rest);
    }
  }

  /** How the reader of a cut stream of fitting datagrams ends: cleanly exactly if the cut leaves
      fewer than two bytes after the last whole frame, so on a frame boundary or inside a length
      prefix, and with an error otherwise. */
  lemma CutEnding(ds: seq<seq<Byte>>, k: nat)
    requires AllFit(ds) && k <= |FrameAll(ds)|
    ensures var cut := FrameAll(ds)[..k]; var got := ReadAll(cut);
      && got <= ds && |FrameAll(got)| <= k
      && ReadNext(Leftover(cut)) == (if k < |FrameAll(got)| + 2 then EndOfStream else Broken)
  {
    TruncatedList(ds, k);
    StreamPartition(FrameAll(ds)[..k]);
  }

  /** Uncut, the whole list comes back and the reader then sees a clean end of stream. */
  lemma {:induction false} ListRoundTrip(ds: seq<seq<Byte>>)
    requires AllFit(ds)
    ensures ReadAll(FrameAll(ds)) == ds && Leftover(FrameAll(ds)) == []
  {
    if ds != [] {
      assert Clipped(ds[0]) == ds[0];
      FrameReadsBack(ds[0], FrameAll(ds[1..]));
      ListRoundTrip(ds[1..]);
    }
  }

  /** The list comes back unchanged only if every datagram fits the length prefix. */
  lemma RoundTripIff(ds: seq<seq<Byte>>)
    ensures ReadAll(FrameAll(ds)) == ds <==> AllFit(ds)
  {
    if AllFit(ds) {
      ListRoundTrip(ds);
    } else {
      ReadsFit(FrameAll(ds));
    }
  }

  lemma {:induction false} ReadsFit(s: seq<Byte>)
    ensures AllFit(ReadAll(s))
    decreases |s|
  {
    var n := ReadNext(s);
    if n.Datagram? {
      ReadsFit(n.rest);
    }
  }
}
