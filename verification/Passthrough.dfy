/** The :443 passthrough path: peek the ClientHello, carry it in the preamble's replay field,
    splice the rest, and hand everything to the local service. */
module Passthrough {
  import opened Bytes
  import opened Claims
  import opened ClientHello
  import Preamble

  datatype Verdict = Route(name: seq<Byte>) | Close

  const READ_SIZE := 4096

  /** The peek cap is at least this large, whatever `max_header_bytes` is configured. */
  const MIN_CAP := 16384

  function Concat(chunks: seq<seq<Byte>>): (s: seq<Byte>)
  {
    if chunks == [] then [] else Concat(chunks[..|chunks| - 1]) + chunks[|chunks| - 1]
  }

  /** What socket reads return: between 1 byte and a full buffer. */
  ghost predicate Reads(chunks: seq<seq<Byte>>)
  {
    forall i :: 0 <= i < |chunks| ==> 1 <= |chunks[i]| <= READ_SIZE
  }

  lemma {:induction false} ConcatAppend(a: seq<seq<Byte>>, b: seq<seq<Byte>>)
    ensures Concat(a + b) == Concat(a) + Concat(b)
  {
    if b == [] {
      assert a + b == a;
    } else {
      var n := |b| - 1;
      assert (a + b)[..|a + b| - 1] == a + b[..n];
      ConcatAppend(a, b[..n]);
      Assoc(Concat(a), Concat(b[..n]), b[n]);
    }
  }

  lemma ConcatSplit(chunks: seq<seq<Byte>>, n: nat)
    requires n <= |chunks|
    ensures Concat(chunks) == Concat(chunks[..n]) + Concat(chunks[n..])
  {
    assert chunks == chunks[..n] + chunks[n..];
    ConcatAppend(chunks[..n], chunks[n..]);
  }

  /** The verdict on a whole byte stream, parsed in one go. */
  function OneShot(s: seq<Byte>): Verdict
  {
    match SniOf(s)
    case Found(name) => Route(name)
    case _ => Close
  }

  /** The first record of the stream fits the peek cap. */
  predicate FirstRecordFits(s: seq<Byte>, cap: nat)
  {
    |s| >= 5 ==> RecordEnd(s) <= cap
  }

  /** A verdict other than "need more" never changes as more bytes arrive. */
  lemma VerdictStable(b: seq<Byte>, more: seq<Byte>)
    requires SniOf(b) != NeedMore
    ensures SniOf(b + more) == SniOf(b)
  {
    if b[0] == 0x16 && b[1] == 0x03 {
      assert (b + more)[5..RecordEnd(b)] == b[5..RecordEnd(b)];
    }
  }

  /** Once the first record is complete, no further byte changes the verdict. */
  lemma CompleteRecordSettles(b: seq<Byte>, more: seq<Byte>)
    requires |b| >= 5 && |b| >= RecordEnd(b)
    ensures SniOf(b + more) == SniOf(b)
  {
    assert (b + more)[5..RecordEnd(b)] == b[5..RecordEnd(b)];
  }

  /** Some read ends at or past the cap but before the end of the first record. */
  ghost predicate ReadEndsInside(chunks: seq<seq<Byte>>, cap: nat)
  {
    |Concat(chunks)| >= 5 && exists k :: 0 <= k <= |chunks| && cap <= |Concat(chunks[..k])| < RecordEnd(Concat(chunks))
  }

  ghost predicate BelowCap(chunks: seq<seq<Byte>>, n: nat, cap: nat)
    requires n <= |chunks|
  {
    forall k :: 0 <= k <= n ==> |Concat(chunks[..k])| < cap
  }

  lemma PrefixShorter(chunks: seq<seq<Byte>>, m: nat, n: nat)
    requires m <= n <= |chunks|
    ensures |Concat(chunks[..m])| <= |Concat(chunks[..n])|
  {
    ConcatSplit(chunks[..n], m);
    assert chunks[..n][..m] == chunks[..m];
  }

  /** A name found after read `n + 1`: no read, before or after, ends inside. */
  lemma FoundSettles(chunks: seq<seq<Byte>>, n: nat, cap: nat)
    requires n < |chunks| && BelowCap(chunks, n, cap) && SniOf(Concat(chunks[..n + 1])).Found?
    ensures SniOf(Concat(chunks)) == SniOf(Concat(chunks[..n + 1]))
    ensures !ReadEndsInside(chunks, cap)
  {
    var buf := Concat(chunks[..n + 1]);
    ConcatSplit(chunks, n + 1);
    VerdictStable(buf, Concat(chunks[n + 1..]));
    assert Concat(chunks)[3] == buf[3] && Concat(chunks)[4] == buf[4];
    PastTheRecord(chunks, n, cap);
  }

  lemma PastTheRecord(chunks: seq<seq<Byte>>, n: nat, cap: nat)
    requires n < |chunks| && BelowCap(chunks, n, cap)
    requires |Concat(chunks)| >= 5 && |Concat(chunks[..n + 1])| >= RecordEnd(Concat(chunks))
    ensures !ReadEndsInside(chunks, cap)
  {
    forall k | n < k <= |chunks|
      ensures |Concat(chunks[..k])| >= RecordEnd(Concat(chunks))
    {
      PrefixShorter(chunks, n + 1, k);
    }
  }

  /** Giving up at the cap after read `n`: the one-shot parse finds no name either, or the read ends
      inside. */
  lemma CapSettles(chunks: seq<seq<Byte>>, n: nat, cap: nat)
    requires n <= |chunks| && cap >= MIN_CAP && |Concat(chunks[..n])| >= cap && SniOf(Concat(chunks[..n])) == NeedMore
    ensures OneShot(Concat(chunks)).Close? || ReadEndsInside(chunks, cap)
  {
    var buf, more := Concat(chunks[..n]), Concat(chunks[n..]);
    ConcatSplit(chunks, n);
    assert (buf + more)[3] == buf[3] && (buf + more)[4] == buf[4];
    if |buf| >= RecordEnd(buf) {
      CompleteRecordSettles(buf, more);
    } else {
      assert cap <= |Concat(chunks[..n])| < RecordEnd(Concat(chunks));
    }
  }

  lemma FitsLeavesNoneInside(chunks: seq<seq<Byte>>, cap: nat)
    ensures FirstRecordFits(Concat(chunks), cap) ==> !ReadEndsInside(chunks, cap)
  {
  }

  lemma OneMoreRead(chunks: seq<seq<Byte>>, n: nat)
    requires n < |chunks|
    ensures Concat(chunks[..n + 1]) == Concat(chunks[..n]) + chunks[n]
  {
    assert chunks[..n + 1][..n] == chunks[..n];
  }

  /** The peek loop of `serve_https`. `chunks` are the reads the socket delivers before it
      ends, fails or times out. The verdict is that of a one-shot parse exactly if that finds no
      name or no read ends between the cap and the end of the first record; in particular if the
      first record fits the cap. */
  method PeekSni(chunks: seq<seq<Byte>>, cap: nat) returns (verdict: Verdict, buf: seq<Byte>, used: nat)
    requires Reads(chunks) && cap >= MIN_CAP
    ensures used <= |chunks| && buf == Concat(chunks[..used])
    ensures verdict.Route? ==> SniOf(buf) == Found(verdict.name) && |buf| < cap + READ_SIZE
    ensures verdict == OneShot(Concat(chunks)) <==> OneShot(Concat(chunks)).Close? || !ReadEndsInside(chunks, cap)
    ensures FirstRecordFits(Concat(chunks), cap) ==> verdict == OneShot(Concat(chunks))
  {
    buf, used := [], 0;
    FitsLeavesNoneInside(chunks, cap);
    assert chunks[..0] == [];
    while used < |chunks|
      invariant used <= |chunks| && buf == Concat(chunks[..used])
      invariant SniOf(buf) == NeedMore && BelowCap(chunks, used, cap)
    {
      OneMoreRead(chunks, used);
      buf := buf + chunks[used];
      var v := ParseSni(buf);
      match v {
        case Found(name) =>
          FoundSettles(chunks, used, cap);
          used := used + 1;
          return Route(name), buf, used;
        case NeedMore =>
          used := used + 1;
          if |buf| >= cap {
            CapSettles(chunks, used, cap);
            return Close, buf, used;
          }
        case _ =>
          used := used + 1;
          ConcatSplit(chunks, used);
          VerdictStable(buf, Concat(chunks[used..]));
          return Close, buf, used;
      }
    }
    assert chunks[..used] == chunks;
    verdict := Close;
  }

  // ------------------------------------------------------------------
  // Splice and delivery
  // ------------------------------------------------------------------

  /** `splice_to_route`, client to agent: the preamble with the peeked bytes, then every read
      of the live connection; the byte counter counts the peeked bytes once. */
  method SpliceToRoute(routeId: U16, peer: Preamble.Peer, peeked: seq<Byte>, live: seq<seq<Byte>>)
    returns (outbound: seq<Byte>, bytesIn: nat)
    ensures outbound == Preamble.Layout(routeId, peer, peeked) + Concat(live)
    ensures bytesIn == |peeked| + |Concat(live)|
  {
    var preamble := Preamble.EncodePreamble(routeId, peer, peeked);
    outbound := preamble;
    var toAgent := 0;
    for i := 0 to |live|
      invariant outbound == preamble + Concat(live[..i])
      invariant toAgent == |Concat(live[..i])|
    {
      assert live[..i + 1][..i] == live[..i];
      Assoc(preamble, Concat(live[..i]), live[i]);
      outbound := outbound + live[i];
      toAgent := toAgent + |live[i]|;
    }
    assert live[..|live|] == live;
    bytesIn := toAgent + |peeked|;
  }

  datatype Delivery = Delivered(localPort: U16, bytes: seq<Byte>) | Relayed(localPort: U16) | Dropped

  /** What the agent does with one stream: the bytes the local service receives. */
  function DeliveryOf(stream: seq<Byte>, routes: RouteMap): Delivery
  {
    match Preamble.Decode(stream)
    case Bad(_) => Dropped
    case Good(p, rest) =>
      if p.routeId !in routes then Dropped
      else if routes[p.routeId].0 == Udp then Relayed(routes[p.routeId].1)
      else Delivered(routes[p.routeId].1, p.replay + rest)
  }

  /** `handle_stream` of the agent: read the preamble, replay, then copy what remains. */
  method HandleStream(r: ByteStream, routes: RouteMap) returns (d: Delivery)
    modifies r
    ensures d == DeliveryOf(old(r.rest), routes)
  {
    var p := Preamble.ReadPreamble(r);
    if p.Bad? { return Dropped; }
    if p.value.routeId !in routes { return Dropped; }
    var (mode, localPort) := routes[p.value.routeId];
    if mode == Udp { return Relayed(localPort); }
    var local := [];
    if p.value.replay != [] {
      local := p.value.replay;
    }
    assert local == p.value.replay;
    local := local + r.rest;
    d := Delivered(localPort, local);
  }

  /** The spliced stream reaches the local service unchanged exactly when the peeked bytes fit
      the replay field. */
  lemma SpliceExactIff(routeId: U16, peer: Preamble.Peer, peeked: seq<Byte>, live: seq<seq<Byte>>, routes: RouteMap)
    requires Preamble.ValidPeer(peer) && routeId in routes && routes[routeId].0 != Udp
    ensures DeliveryOf(Preamble.Layout(routeId, peer, peeked) + Concat(live), routes)
            == Delivered(routes[routeId].1, peeked + Concat(live))
       <==> |peeked| <= U16_MAX
  {
    Preamble.RoundTrip(routeId, peer, peeked, Concat(live));
    var c := Clipped(peeked);
    if |peeked| > U16_MAX {
      assert |c + Concat(live)| < |peeked + Concat(live)|;
    } else {
      assert c == peeked;
    }
  }

  /** Of a stream for a udp route the agent relays datagrams; a stream for a route it does not have, or one
      that ends inside its preamble, it drops. */
  lemma OtherDeliveries(routeId: U16, peer: Preamble.Peer, replay: seq<Byte>, more: seq<Byte>, routes: RouteMap, k: nat)
    requires Preamble.ValidPeer(peer)
    ensures routeId in routes && routes[routeId].0 == Udp ==>
      DeliveryOf(Preamble.Layout(routeId, peer, replay) + more, routes) == Relayed(routes[routeId].1)
    ensures routeId !in routes ==> DeliveryOf(Preamble.Layout(routeId, peer, replay) + more, routes) == Dropped
    ensures k < |Preamble.Layout(routeId, peer, replay)| ==>
      DeliveryOf(Preamble.Layout(routeId, peer, replay)[..k], routes) == Dropped
  {
    Preamble.RoundTrip(routeId, peer, replay, more);
    if k < |Preamble.Layout(routeId, peer, replay)| {
      Preamble.TruncationIsEof(routeId, peer, replay, k);
    }
  }

  /** HTTPS passthrough under any chunking: whatever reads deliver the client's stream, a
      routed connection hands the local service exactly that stream, and the tunnel's byte
      counter grows by its length, exactly when the peeked bytes fit the replay field. They
      always do for `max_header_bytes` up to 61440 (the default is 16384). */
  method PassThrough(chunks: seq<seq<Byte>>, maxHeaderBytes: nat, routeId: U16, peer: Preamble.Peer, routes: RouteMap)
    returns (verdict: Verdict, delivery: Delivery, bytesIn: nat, peeked: nat)
    requires Reads(chunks)
    requires Preamble.ValidPeer(peer) && routeId in routes && routes[routeId].0 != Udp
    ensures FirstRecordFits(Concat(chunks), if maxHeaderBytes < MIN_CAP then MIN_CAP else maxHeaderBytes)
            ==> verdict == OneShot(Concat(chunks))
    ensures verdict.Route? ==>
      && (delivery == Delivered(routes[routeId].1, Concat(chunks)) <==> peeked <= U16_MAX)
      && bytesIn == |Concat(chunks)|
      && (maxHeaderBytes <= 61440 ==> peeked <= U16_MAX)
    ensures verdict.Close? ==> delivery == Dropped && bytesIn == 0
  {
    var cap := if maxHeaderBytes < MIN_CAP then MIN_CAP else maxHeaderBytes;
    var buf, used;
    verdict, buf, used := PeekSni(chunks, cap);
    peeked := |buf|;
    if verdict.Close? {
      return verdict, Dropped, 0, peeked;
    }
    var outbound;
    outbound, bytesIn := SpliceToRoute(routeId, peer, buf, chunks[used..]);
    SpliceExactIff(routeId, peer, buf, chunks[used..], routes);
    ConcatSplit(chunks, used);
    var stream := new ByteStream(outbound);
    delivery := HandleStream(stream, routes);
  }

  // ------------------------------------------------------------------
  // Prefix replay into a TLS acceptor
  // ------------------------------------------------------------------

  /** A stream that first replays the bytes already read off `inner`. */
  class PrefixedStream {
    var prefix: seq<Byte>
    var pos: nat
    var inner: seq<Byte>

    ghost predicate Valid()
      reads this
    {
      pos <= |prefix|
    }

    /** Everything the reader has still to see. */
    ghost function Remaining(): seq<Byte>
      requires Valid()
      reads this
    {
      prefix[pos..] + inner
    }

    constructor (prefix: seq<Byte>, inner: seq<Byte>)
      ensures Valid() && Remaining() == prefix + inner
    {
      this.prefix := prefix;
      this.pos := 0;
      this.inner := inner;
    }

    /** `poll_read` with room for `room` bytes; the inner stream hands out `ready` bytes at most. */
    method PollRead(room: nat, ready: nat) returns (bytes: seq<Byte>)
      requires Valid()
      modifies this
      ensures Valid()
      ensures |bytes| <= room && bytes + Remaining() == old(Remaining())
      ensures room > 0 && ready > 0 && old(Remaining()) != [] ==> bytes != []
    {
      if pos < |prefix| {
        var remaining := prefix[pos..];
        var n := Min(|remaining|, room);
        bytes := remaining[..n];
        pos := pos + n;
        ReplayStep(remaining, n, inner);
        assert prefix[pos..] == remaining[n..];
      } else {
        var n := Min(Min(room, ready), |inner|);
        bytes := inner[..n];
        inner := inner[n..];
        assert prefix[pos..] == [];
        Split(old(inner), n);
      }
    }

    /** Any sequence of reads sees the prefix and then the inner stream, in order, with no
        byte lost or repeated. */
    method ReadMany(rooms: seq<nat>, readies: seq<nat>) returns (got: seq<Byte>)
      requires Valid() && |rooms| == |readies|
      modifies this
      ensures Valid() && got + Remaining() == old(Remaining())
    {
      got := [];
      for i := 0 to |rooms|
        invariant Valid() && got + Remaining() == old(Remaining())
      {
        ghost var before := Remaining();
        var b := PollRead(rooms[i], readies[i]);
        Assoc(got, b, Remaining());
        got := got + b;
      }
    }
  }

  lemma ReplayStep(a: seq<Byte>, n: nat, b: seq<Byte>)
    requires n <= |a|
    ensures a[..n] + (a[n..] + b) == a + b
  {
  }
}
