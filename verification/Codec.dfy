/** The per-stream preamble of `natforge-proto`. */
module Preamble {
  import opened Bytes

  /** `std::net::SocketAddr`. An IPv6 socket address also carries a flow label and a scope,
      which the wire format has no room for. */
  datatype SocketAddr =
    | V4(octets: seq<Byte>, port: U16)
    | V6(octets: seq<Byte>, port: U16, flow: nat, scope: nat)
  {
    ghost predicate Valid() {
      |octets| == (if V4? then 4 else 16)
    }
  }

  datatype Peer = NoPeer | Known(addr: SocketAddr)

  ghost predicate ValidPeer(p: Peer) {
    p.Known? ==> p.addr.Valid()
  }

  datatype WireError = UnexpectedEof | BadMagic | BadVersion | BadAddrKind

  datatype Preamble = Preamble(routeId: U16, peer: Peer, replay: seq<Byte>)

  /** The outcome of reading one preamble off `s`: the value and what is left, or an error. */
  datatype Decoded = Good(value: Preamble, rest: seq<Byte>) | Bad(error: WireError)

  /** b"NFS1" */
  const MAGIC: seq<Byte> := [0x4E, 0x46, 0x53, 0x31]

  const VERSION: Byte := 1

  function PeerBytes(p: Peer): (s: seq<Byte>)
  {
    match p
    case NoPeer => [0]
    case Known(V4(o, _)) => [4] + o
    case Known(V6(o, _, _, _)) => [6] + o
  }

  function PeerPort(p: Peer): U16
  {
    if p.Known? then p.addr.port else 0
  }

  function HeaderBytes(routeId: U16): (s: seq<Byte>)
  {
    MAGIC + [VERSION] + PutU16(routeId)
  }

  function TailBytes(port: U16, replay: seq<Byte>): (s: seq<Byte>)
    requires |replay| <= U16_MAX
  {
    PutU16(port) + PutU16(|replay|) + replay
  }

  /** The layout table of the protocol: header, address, port and replay. */
  function Layout(routeId: U16, peer: Peer, replay: seq<Byte>): (s: seq<Byte>)
  {
    HeaderBytes(routeId) + PeerBytes(peer) + TailBytes(PeerPort(peer), Clipped(replay))
  }

  function Encoded(v: Preamble): seq<Byte>
  {
    Layout(v.routeId, v.peer, v.replay)
  }

  /** `encode_preamble`: append the fields one by one. */
  method EncodePreamble(routeId: U16, peer: Peer, replay: seq<Byte>) returns (b: seq<Byte>)
    ensures b == Layout(routeId, peer, replay)
  {
    b := MAGIC;
    b := b + [VERSION];
    b := b + PutU16(routeId);
    match peer {
      case NoPeer => b := b + [0];
      case Known(V4(o, _)) => b := b + [4]; b := b + o;
      case Known(V6(o, _, _, _)) => b := b + [6]; b := b + o;
    }
    assert b == MAGIC + [VERSION] + PutU16(routeId) + PeerBytes(peer);
    var port := if peer.Known? then peer.addr.port else 0;
    b := b + PutU16(port);
    var rl := Min(|replay|, U16_MAX);
    b := b + PutU16(rl);
    b := b + replay[..rl];
  }

  /** The tail of a preamble after the address: port, replay length, replay. */
  function DecodeTail(routeId: U16, kind: Byte, octets: seq<Byte>, s: seq<Byte>): (d: Decoded)
    requires kind in {0, 4, 6}
  {
    if |s| < 2 then Bad(UnexpectedEof) else
    var port := GetU16(s[0], s[1]);
    if |s| < 4 then Bad(UnexpectedEof) else
    var n := GetU16(s[2], s[3]);
    if |s| < 4 + n then Bad(UnexpectedEof) else
    var peer := if kind == 0 then NoPeer
                else if kind == 4 then Known(V4(octets, port))
                else Known(V6(octets, port, 0, 0));
    Good(Preamble(routeId, peer, s[4..4 + n]), s[4 + n..])
  }

  /** What reading a preamble off the stream `s` gives. */
  function Decode(s: seq<Byte>): (d: Decoded)
  {
    if |s| < 7 then Bad(UnexpectedEof)
    else if s[0..4] != MAGIC then Bad(BadMagic)
    else if s[4] != VERSION then Bad(BadVersion)
    else if |s| < 8 then Bad(UnexpectedEof)
    else
      var kind := s[7];
      if kind !in {0, 4, 6} then Bad(BadAddrKind)
      else
        var n := AddrLen(kind);
        if |s| < 8 + n then Bad(UnexpectedEof)
        else DecodeTail(GetU16(s[5], s[6]), kind, s[8..8 + n], s[8 + n..])
  }

  function AddrLen(kind: Byte): nat
  {
    if kind == 4 then 4 else if kind == 6 then 16 else 0
  }

  /** A stream cut at its field boundaries decodes to the decoding of its tail. */
  lemma DecodeFields(hdr: seq<Byte>, kind: Byte, octets: seq<Byte>, t: seq<Byte>)
    requires |hdr| == 7 && hdr[0..4] == MAGIC && hdr[4] == VERSION
    requires kind in {0, 4, 6} && |octets| == AddrLen(kind)
    ensures Decode(hdr + [kind] + octets + t) == DecodeTail(GetU16(hdr[5], hdr[6]), kind, octets, t)
  {
    var s := hdr + [kind] + octets + t;
    assert s[0..4] == hdr[0..4];
    assert s[8..8 + |octets|] == octets;
    assert s[8 + |octets|..] == t;
  }

  /** Port, replay length and replay: the last three reads of `read_preamble`. */
  method ReadTail(r: ByteStream, routeId: U16, kind: Byte, octets: seq<Byte>) returns (d: Decoded)
    requires kind in {0, 4, 6}
    modifies r
    ensures d == DecodeTail(routeId, kind, octets, old(r.rest))
    ensures d.Good? ==> r.rest == d.rest
  {
    ghost var t := r.rest;
    var ok, p := r.ReadExact(2);
    if !ok { return Bad(UnexpectedEof); }
    var rl, replay;
    ok, rl := r.ReadExact(2);
    if !ok { return Bad(UnexpectedEof); }
    assert r.rest == t[4..];
    var len := GetU16(rl[0], rl[1]);
    ok, replay := r.ReadExact(len);
    if !ok { return Bad(UnexpectedEof); }
    assert replay == t[4..4 + len] && r.rest == t[4 + len..];
    var port := GetU16(p[0], p[1]);
    var peer := if kind == 0 then NoPeer
                else if kind == 4 then Known(V4(octets, port))
                else Known(V6(octets, port, 0, 0));
    d := Good(Preamble(routeId, peer, replay), r.rest);
  }

  /** `read_preamble`, consuming the stream field by field. */
  method ReadPreamble(r: ByteStream) returns (d: Decoded)
    modifies r
    ensures d == Decode(old(r.rest))
    ensures d.Good? ==> r.rest == d.rest
  {
    ghost var s := r.rest;
    var ok, hdr := r.ReadExact(7);
    if !ok { return Bad(UnexpectedEof); }
    assert hdr[0..4] == s[0..4];
    if hdr[0..4] != MAGIC { return Bad(BadMagic); }
    if hdr[4] != VERSION { return Bad(BadVersion); }
    var routeId := GetU16(hdr[5], hdr[6]);
    var kind;
    ok, kind := r.ReadExact(1);
    if !ok { return Bad(UnexpectedEof); }
    assert kind[0] == s[7] && r.rest == s[8..];
    var octets := [];
    if kind[0] == 4 {
      ok, octets := r.ReadExact(4);
      if !ok { return Bad(UnexpectedEof); }
    } else if kind[0] == 6 {
      ok, octets := r.ReadExact(16);
      if !ok { return Bad(UnexpectedEof); }
    } else if kind[0] != 0 {
      return Bad(BadAddrKind);
    }
    assert s == hdr + [kind[0]] + octets + r.rest;
    DecodeFields(hdr, kind[0], octets, r.rest);
    d := ReadTail(r, routeId, kind[0], octets);
  }

  /** The offsets of the layout table, in bytes: magic "NFS1", version 1, route id, address kind, address,
      port, replay length, replay; all integers big-endian. */
  lemma WireBytes(routeId: U16, peer: Peer, replay: seq<Byte>)
    requires ValidPeer(peer) && |replay| <= 65535
    ensures var s := Layout(routeId, peer, replay);
      var ip := if peer.Known? then peer.addr.octets else []; var port := if peer.Known? then peer.addr.port else 0;
      var l := |ip|;
      && |s| == 12 + l + |replay|
      && s[..5] == [0x4E, 0x46, 0x53, 0x31, 1] && s[5] == routeId / 256 && s[6] == routeId % 256
      && s[7] == (if !peer.Known? then 0 else if peer.addr.V4? then 4 else 6)
      && s[8..8 + l] == ip
      && s[8 + l] == port / 256 && s[9 + l] == port % 256
      && s[10 + l] == |replay| / 256 && s[11 + l] == |replay| % 256
      && s[12 + l..] == replay
  {
    var hdr, pb, t := HeaderBytes(routeId), PeerBytes(peer), TailBytes(PeerPort(peer), Clipped(replay));
    var s := Layout(routeId, peer, replay);
    assert Clipped(replay) == replay;
    assert s[..7] == hdr && s[7..7 + |pb|] == pb && s[7 + |pb|..] == t;
    assert s[..7][..5] == s[..5] && hdr[..5] == [0x4E, 0x46, 0x53, 0x31, 1];
    assert s[5] == s[..7][5] && s[6] == s[..7][6] && s[7] == pb[0];
    assert pb[1..] == s[8..7 + |pb|];
    TailAt(PeerPort(peer), replay);
    assert s[12 + |pb| - 1..] == t[4..];
  }

  lemma TailAt(port: U16, replay: seq<Byte>)
    requires |replay| <= U16_MAX
    ensures var t := TailBytes(port, replay);
      t[0] == port / 256 && t[1] == port % 256 && t[2] == |replay| / 256 && t[3] == |replay| % 256 && t[4..] == replay
  {
  }

  /** Which stream is refused for what: the wrong magic, the wrong version or an unknown kind of address,
      each as soon as its bytes are there; any other stream that does not decode is too short. */
  lemma ErrorsExactly(s: seq<Byte>)
    ensures Decode(s) == Bad(BadMagic) <==> |s| >= 7 && s[..4] != [0x4E, 0x46, 0x53, 0x31]
    ensures Decode(s) == Bad(BadVersion) <==> |s| >= 7 && s[..4] == [0x4E, 0x46, 0x53, 0x31] && s[4] != 1
    ensures Decode(s) == Bad(BadAddrKind) <==>
      |s| >= 8 && s[..5] == [0x4E, 0x46, 0x53, 0x31, 1] && s[7] != 0 && s[7] != 4 && s[7] != 6
  {
    if |s| >= 7 {
      assert s[0..4] == s[..4];
      assert s[..5] == s[..4] + [s[4]];
    }
  }

  /** The peer as the wire carries it: flow label and scope of an IPv6 address are dropped. */
  function OnWire(p: Peer): Peer
  {
    match p
    case Known(V6(o, port, _, _)) => Known(V6(o, port, 0, 0))
    case _ => p
  }

  /** The fields after the address read back, whatever follows them. */
  lemma TailRoundTrip(port: U16, replay: seq<Byte>, tail: seq<Byte>)
    requires |replay| <= U16_MAX
    ensures var t := TailBytes(port, replay) + tail;
      |t| >= 4 + |replay| && GetU16(t[0], t[1]) == port && GetU16(t[2], t[3]) == |replay|
      && t[4..4 + |replay|] == replay && t[4 + |replay|..] == tail
  {
    BigEndianInverse(port, 0, 0);
    BigEndianInverse(|replay|, 0, 0);
    var t := TailBytes(port, replay) + tail;
    assert t[..4] == PutU16(port) + PutU16(|replay|);
    assert t[4..4 + |replay|] == replay;
  }

  /** Decoding an encoding with any bytes after it returns the (clipped) inputs and leaves
      exactly those bytes. */
  lemma RoundTrip(routeId: U16, peer: Peer, replay: seq<Byte>, tail: seq<Byte>)
    requires ValidPeer(peer)
    ensures Decode(Layout(routeId, peer, replay) + tail)
         == Good(Preamble(routeId, OnWire(peer), Clipped(replay)), tail)
  {
    var c := Clipped(replay);
    var hdr := HeaderBytes(routeId);
    var pb := PeerBytes(peer);
    var t := TailBytes(PeerPort(peer), c) + tail;
    assert pb == [pb[0]] + pb[1..];
    AppendAssoc(hdr, [pb[0]], pb[1..], TailBytes(PeerPort(peer), c), tail);
    DecodeFields(hdr, pb[0], pb[1..], t);
    BigEndianInverse(routeId, 0, 0);
    TailRoundTrip(PeerPort(peer), c, tail);
  }

  lemma AppendAssoc(a: seq<Byte>, b: seq<Byte>, c: seq<Byte>, d: seq<Byte>, e: seq<Byte>)
    ensures a + (b + c) + d + e == a + b + c + (d + e)
  {
  }

  /** The round trip is lossless exactly for a replay of at most 65535 bytes and a peer
      without an IPv6 flow label or scope. */
  lemma LosslessIff(routeId: U16, peer: Peer, replay: seq<Byte>, tail: seq<Byte>)
    requires ValidPeer(peer)
    ensures Decode(Layout(routeId, peer, replay) + tail) == Good(Preamble(routeId, peer, replay), tail)
       <==> |replay| <= U16_MAX && (peer.Known? && peer.addr.V6? ==> peer.addr.flow == 0 && peer.addr.scope == 0)
  {
    RoundTrip(routeId, peer, replay, tail);
    if |replay| > U16_MAX {
      assert |Clipped(replay)| == U16_MAX;
    } else {
      assert Clipped(replay) == replay;
    }
  }

  /** Every strict prefix of an encoding is an incomplete stream, never a shorter preamble. */
  lemma TruncationIsEof(routeId: U16, peer: Peer, replay: seq<Byte>, k: nat)
    requires ValidPeer(peer)
    requires k < |Layout(routeId, peer, replay)|
    ensures Decode(Layout(routeId, peer, replay)[..k]) == Bad(UnexpectedEof)
  {
    var hdr := HeaderBytes(routeId);
    var pb := PeerBytes(peer);
    var t := TailBytes(PeerPort(peer), Clipped(replay));
    var n := |pb|;
    if k < 7 {
    } else if k < 7 + n {
      assert Layout(routeId, peer, replay)[..k] == hdr + pb[..k - 7];
      HeadTruncated(hdr, pb[..k - 7], n);
    } else {
      assert Layout(routeId, peer, replay)[..k] == hdr + [pb[0]] + pb[1..] + t[..k - 7 - n];
      DecodeFields(hdr, pb[0], pb[1..], t[..k - 7 - n]);
      TailRoundTrip(PeerPort(peer), Clipped(replay), []);
      assert t + [] == t;
    }
  }

  lemma HeadTruncated(hdr: seq<Byte>, pb: seq<Byte>, n: nat)
    requires |hdr| == 7 && hdr[0..4] == MAGIC && hdr[4] == VERSION && |pb| < n
    requires |pb| > 0 ==> pb[0] in {0, 4, 6} && n == 1 + AddrLen(pb[0])
    ensures Decode(hdr + pb) == Bad(UnexpectedEof)
  {
    assert (hdr + pb)[0..4] == hdr[0..4];
  }

  /** The cut of a stream that decodes at its field boundaries. */
  lemma Cut(s: seq<Byte>)
    requires Decode(s).Good?
    ensures s[7] in {0, 4, 6} && |s| >= 10 + AddrLen(s[7])
    ensures s[..7] == HeaderBytes(GetU16(s[5], s[6]))
    ensures s == s[..7] + [s[7]] + s[8..8 + AddrLen(s[7])] + s[8 + AddrLen(s[7])..]
  {
    HeaderCut(s);
    FourPieces(s, 7, 8, 8 + AddrLen(s[7]));
    assert s[7..8] == [s[7]];
  }

  lemma HeaderCut(s: seq<Byte>)
    requires |s| >= 7 && s[0..4] == MAGIC && s[4] == VERSION
    ensures s[..7] == HeaderBytes(GetU16(s[5], s[6]))
  {
    var h := s[..7];
    FourPieces(h, 4, 5, 7);
    Pair(s, 5);
    assert h[..4] == s[0..4] && h[4..5] == [s[4]] && h[5..7] == s[5..7] && h[7..] == [];
  }

  lemma TailCut(t: seq<Byte>, n: nat)
    requires |t| >= 4 + n && GetU16(t[2], t[3]) == n
    ensures n <= U16_MAX
    ensures t == TailBytes(GetU16(t[0], t[1]), t[4..4 + n]) + t[4 + n..]
  {
    Pair(t, 0);
    Pair(t, 2);
    Split(t, 2);
    Drop(t, 2, 2);
    Drop(t, 4, n);
    Assoc(t[..2], t[2..4], t[4..]);
    Assoc(t[..2] + t[2..4], t[4..4 + n], t[4 + n..]);
  }

  /** A stream that decodes is the encoding of its value followed by the rest, except for one
      freedom of the format: a preamble without a peer may carry any port bytes. */
  lemma CanonicalIff(s: seq<Byte>)
    requires Decode(s).Good?
    ensures s == Encoded(Decode(s).value) + Decode(s).rest <==> (s[7] != 0 || (s[8] == 0 && s[9] == 0))
  {
    Cut(s);
    var n := AddrLen(s[7]);
    var t := s[8 + n..];
    var v, rest := Decode(s).value, Decode(s).rest;
    TailCut(t, |v.replay|);
    CanonicalFields(s[..7], s[7], s[8..8 + n], t, v, rest);
    assert t[0] == s[8 + n] && t[1] == s[9 + n];
  }

  lemma CanonicalFields(hdr: seq<Byte>, kind: Byte, octets: seq<Byte>, t: seq<Byte>, v: Preamble, rest: seq<Byte>)
    requires |hdr| == 7 && hdr == HeaderBytes(v.routeId) && |t| >= 2 && |v.replay| <= U16_MAX
    requires kind in {0, 4, 6} && |octets| == AddrLen(kind) && [kind] + octets == PeerBytes(v.peer)
    requires t == TailBytes(GetU16(t[0], t[1]), v.replay) + rest
    requires v.peer.Known? ==> PeerPort(v.peer) == GetU16(t[0], t[1])
    ensures hdr + [kind] + octets + t == Encoded(v) + rest <==> (kind != 0 || (t[0] == 0 && t[1] == 0))
  {
    var port := GetU16(t[0], t[1]);
    assert Clipped(v.replay) == v.replay;
    assert kind == ([kind] + octets)[0] == PeerBytes(v.peer)[0];
    Assoc(hdr, [kind], octets);
    var head := hdr + PeerBytes(v.peer);
    Assoc(head, TailBytes(PeerPort(v.peer), v.replay), rest);
    PortDecides(head, port, PeerPort(v.peer), v.replay, rest);
  }

  lemma PortDecides(head: seq<Byte>, a: U16, b: U16, replay: seq<Byte>, rest: seq<Byte>)
    requires |replay| <= U16_MAX
    ensures head + (TailBytes(a, replay) + rest) == head + (TailBytes(b, replay) + rest) <==> a == b
  {
    TailRoundTrip(a, replay, rest);
    TailRoundTrip(b, replay, rest);
    var x, y := TailBytes(a, replay) + rest, TailBytes(b, replay) + rest;
    assert (head + x)[|head|..] == x && (head + y)[|head|..] == y;
  }
}
