/** Serialisation of a ClientHello, and the proof that the SNI extractor inverts it. */
module HelloFormat {
  import opened Bytes
  import opened ClientHello
  import Utf8

  datatype Extension = Extension(kind: U16, data: seq<Byte>)

  /** A ClientHello. `random` is the legacy version and the random together. */
  datatype Hello = Hello(minor: Byte, random: seq<Byte>, sessionId: seq<Byte>, ciphers: seq<Byte>,
                         compression: seq<Byte>, extensions: seq<Extension>)

  function PutExtension(e: Extension): seq<Byte>
    requires |e.data| <= U16_MAX
  {
    PutU16(e.kind) + PutU16(|e.data|) + e.data
  }

  ghost predicate AllFit(es: seq<Extension>)
  {
    forall i :: 0 <= i < |es| ==> |es[i].data| <= U16_MAX
  }

  function PutExtensions(es: seq<Extension>): seq<Byte>
    requires AllFit(es)
  {
    if es == [] then [] else PutExtension(es[0]) + PutExtensions(es[1..])
  }

  /** A vector behind a length prefix of `w` bytes. */
  function PutVector(w: nat, v: seq<Byte>): seq<Byte>
    requires (w == 1 && |v| < 256) || (w == 2 && |v| <= U16_MAX)
  {
    (if w == 1 then [|v|] else PutU16(|v|)) + v
  }

  ghost predicate Fits(h: Hello)
  {
    && |h.random| == 34
    && |h.sessionId| < 256 && |h.ciphers| <= U16_MAX && |h.compression| < 256
    && AllFit(h.extensions) && |PutExtensions(h.extensions)| <= U16_MAX
    && 4 + |Body(h)| <= U16_MAX
  }

  function Vectors(h: Hello): seq<Byte>
    requires |h.sessionId| < 256 && |h.ciphers| <= U16_MAX && |h.compression| < 256
  {
    PutVector(1, h.sessionId) + PutVector(2, h.ciphers) + PutVector(1, h.compression)
  }

  function Body(h: Hello): seq<Byte>
    requires |h.sessionId| < 256 && |h.ciphers| <= U16_MAX && |h.compression| < 256
    requires AllFit(h.extensions) && |PutExtensions(h.extensions)| <= U16_MAX
  {
    h.random + Vectors(h) + PutVector(2, PutExtensions(h.extensions))
  }

  function PutU24(n: nat): seq<Byte>
    requires n < 16777216
  {
    [n / 65536, n / 256 % 256, n % 256]
  }

  /** A ClientHello body as one handshake message in one record. */
  function RecordOf(minor: Byte, body: seq<Byte>): seq<Byte>
    requires 4 + |body| <= U16_MAX
  {
    [0x16, 0x03, minor] + PutU16(4 + |body|) + ([0x01] + PutU24(|body|) + body)
  }

  function Record(h: Hello): seq<Byte>
    requires Fits(h)
  {
    RecordOf(h.minor, Body(h))
  }

  /** The payload of a server_name extension whose first entry is the host name `name`;
      `others` are further entries. */
  function ServerNameData(name: seq<Byte>, others: seq<Byte>): seq<Byte>
    requires 3 + |name| + |others| <= U16_MAX
  {
    PutU16(3 + |name| + |others|) + [0x00] + PutVector(2, name) + others
  }

  /** What a hello asks for: the host name of its first server_name extension. */
  function Requested(es: seq<Extension>): Sni
  {
    if es == [] then NoSni
    else if es[0].kind == 0 then HostName(es[0].data)
    else Requested(es[1..])
  }

  /** An extension at the front of a buffer is seen with its kind, length and data. */
  lemma ExtensionFront(e: Extension, more: seq<Byte>)
    requires |e.data| <= U16_MAX
    ensures var s := PutExtension(e) + more;
      |s| >= 4 + |e.data| && GetU16(s[0], s[1]) == e.kind && GetU16(s[2], s[3]) == |e.data|
      && s[4..4 + |e.data|] == e.data && s[4 + |e.data|..] == more
  {
    BigEndianInverse(e.kind, 0, 0);
    BigEndianInverse(|e.data|, 0, 0);
    var s := PutExtension(e) + more;
    assert s[..4] == PutU16(e.kind) + PutU16(|e.data|);
  }

  /** The extension loop finds the first server_name of any list, whatever follows the block. */
  lemma {:induction false} ScanFindsFirst(es: seq<Extension>, junk: seq<Byte>)
    requires AllFit(es)
    ensures FirstServerName(PutExtensions(es) + junk, |PutExtensions(es)|) == Requested(es)
  {
    if es != [] {
      var more := PutExtensions(es[1..]) + junk;
      Assoc(PutExtension(es[0]), PutExtensions(es[1..]), junk);
      ExtensionFront(es[0], more);
      ScanFindsFirst(es[1..], junk);
    }
  }

  /** A vector between `a` and `b` is skipped to the start of `b`. */
  lemma PastPutVector(a: seq<Byte>, w: nat, v: seq<Byte>, b: seq<Byte>)
    requires (w == 1 && |v| < 256) || (w == 2 && |v| <= U16_MAX)
    ensures PastVector(a + PutVector(w, v) + b, |a|, w) == Past(|a + PutVector(w, v)|)
    ensures LenAt(a + PutVector(w, v) + b, |a|, w) == |v|
  {
    var s := a + PutVector(w, v) + b;
    assert s[|a|] == PutVector(w, v)[0];
    if w == 2 {
      BigEndianInverse(|v|, 0, 0);
      assert s[|a| + 1] == PutVector(w, v)[1];
    }
  }

  lemma OffsetOfExtensions(random: seq<Byte>, a: seq<Byte>, b: seq<Byte>, c: seq<Byte>, ext: seq<Byte>)
    requires |random| == 34 && |a| < 256 && |b| <= U16_MAX && |c| < 256
    ensures var v := PutVector(1, a) + PutVector(2, b) + PutVector(1, c);
      ExtensionsOffset(random + v + ext) == Past(34 + |v|)
  {
    var x, y, z := PutVector(1, a), PutVector(2, b), PutVector(1, c);
    var s := random + (x + y + z) + ext;
    Assoc(random, x + y, z);
    Assoc(random, x, y);
    PastPutVector(random + x + y, 1, c, ext);
    Assoc(random + x + y, z, ext);
    PastPutVector(random + x, 2, b, z + ext);
    Assoc(random + x, y, z + ext);
    PastPutVector(random, 1, a, y + (z + ext));
  }

  lemma ExtensionsReadBack(front: seq<Byte>, es: seq<Extension>)
    requires AllFit(es) && |PutExtensions(es)| <= U16_MAX
    ensures Extensions(front + PutVector(2, PutExtensions(es)), |front|) == Requested(es)
  {
    var e := PutExtensions(es);
    var body := front + PutVector(2, e);
    PastPutVector(front, 2, e, []);
    assert body + [] == body && e + [] == e;
    Assoc(front, PutU16(|e|), e);
    Middle(front + PutU16(|e|), e, []);
    assert body[|front| + 2..] == e;
    ScanFindsFirst(es, []);
  }

  lemma BodyRoundTrip(h: Hello)
    requires Fits(h)
    ensures Random(Body(h)) == Requested(h.extensions)
  {
    var e := PutExtensions(h.extensions);
    var body := Body(h);
    OffsetOfExtensions(h.random, h.sessionId, h.ciphers, h.compression, PutVector(2, e));
    ExtensionsReadBack(h.random + Vectors(h), h.extensions);
  }

  /** The parser finds the body of a single record, whatever follows it. */
  lemma RecordUnwraps(minor: Byte, body: seq<Byte>, tail: seq<Byte>)
    requires 4 + |body| <= U16_MAX
    ensures SniOf(RecordOf(minor, body) + tail) == Random(body)
  {
    var hs := [0x01] + PutU24(|body|) + body;
    var b := RecordOf(minor, body) + tail;
    var front := [0x16, 0x03, minor] + PutU16(4 + |body|);
    BigEndianInverse(4 + |body|, 0, 0);
    assert b[3] == front[3] && b[4] == front[4];
    Assoc(front, hs, tail);
    assert b[5..5 + |hs|] == hs;
    assert hs[4..] == body;
  }

  /** Parsing a single-record hello, with any bytes after it, gives the host name of its first
      server_name extension: for every session id, cipher list, compression list and
      extension list. */
  lemma ParsesRequested(h: Hello, tail: seq<Byte>)
    requires Fits(h)
    ensures SniOf(Record(h) + tail) == Requested(h.extensions)
  {
    RecordUnwraps(h.minor, Body(h), tail);
    BodyRoundTrip(h);
  }

  /** A hello that ends after its compression methods, without an extensions block, asks for no name. */
  lemma NoExtensionsBlock(minor: Byte, random: seq<Byte>, sessionId: seq<Byte>, ciphers: seq<Byte>,
                          compression: seq<Byte>, tail: seq<Byte>)
    requires |random| == 34 && |sessionId| < 256 && |ciphers| <= U16_MAX && |compression| < 256
    requires 4 + 34 + 4 + |sessionId| + |ciphers| + |compression| <= U16_MAX
    ensures var body := random + (PutVector(1, sessionId) + PutVector(2, ciphers) + PutVector(1, compression));
      SniOf(RecordOf(minor, body) + tail) == NoSni
  {
    var v := PutVector(1, sessionId) + PutVector(2, ciphers) + PutVector(1, compression);
    OffsetOfExtensions(random, sessionId, ciphers, compression, []);
    assert random + v + [] == random + v;
    RecordUnwraps(minor, random + v, tail);
  }

  lemma HostNameReadsBack(name: seq<Byte>, others: seq<Byte>)
    requires 3 + |name| + |others| <= U16_MAX && Utf8.Valid(name)
    ensures HostName(ServerNameData(name, others)) == Found(name)
  {
    BigEndianInverse(|name|, 0, 0);
    NameBetween(PutU16(3 + |name| + |others|), PutU16(|name|), name, others);
  }

  lemma NameBetween(a: seq<Byte>, n: seq<Byte>, name: seq<Byte>, others: seq<Byte>)
    requires |a| == 2 && |n| == 2 && GetU16(n[0], n[1]) == |name| && Utf8.Valid(name)
    ensures HostName(a + [0x00] + (n + name) + others) == Found(name)
  {
    NameInside(a, n, name, others);
  }

  lemma NameInside(a: seq<Byte>, n: seq<Byte>, name: seq<Byte>, others: seq<Byte>)
    requires |a| == 2 && |n| == 2
    ensures var ext := a + [0x00] + (n + name) + others;
      |ext| == 5 + |name| + |others| && ext[2] == 0x00 && ext[3] == n[0] && ext[4] == n[1] && ext[5..5 + |name|] == name
  {
    var front := a + [0x00] + n;
    Assoc(a + [0x00], n, name);
    Middle(front, name, others);
    var ext := front + name + others;
    assert ext[2] == front[2] && ext[3] == front[3] && ext[4] == front[4];
  }

  /** In particular: a server_name behind any other extensions is found, letter by letter. */
  lemma FindsHostName(h: Hello, before: seq<Extension>, name: seq<Byte>, others: seq<Byte>,
                      after: seq<Extension>, tail: seq<Byte>)
    requires 3 + |name| + |others| <= U16_MAX && Utf8.Valid(name)
    requires forall i :: 0 <= i < |before| ==> before[i].kind != 0
    requires h.extensions == before + [Extension(0, ServerNameData(name, others))] + after
    requires Fits(h)
    ensures SniOf(Record(h) + tail) == Found(name)
  {
    ParsesRequested(h, tail);
    RequestedSkips(before, [Extension(0, ServerNameData(name, others))] + after);
    Assoc(before, [Extension(0, ServerNameData(name, others))], after);
    HostNameReadsBack(name, others);
  }

  /** So every ASCII host name comes back. */
  lemma FindsAsciiName(h: Hello, before: seq<Extension>, name: seq<Byte>, others: seq<Byte>,
                       after: seq<Extension>, tail: seq<Byte>)
    requires 3 + |name| + |others| <= U16_MAX && forall i :: 0 <= i < |name| ==> name[i] < 0x80
    requires forall i :: 0 <= i < |before| ==> before[i].kind != 0
    requires h.extensions == before + [Extension(0, ServerNameData(name, others))] + after
    requires Fits(h)
    ensures SniOf(Record(h) + tail) == Found(name)
  {
    Utf8.AsciiIsValid(name);
    FindsHostName(h, before, name, others, after, tail);
  }

  lemma {:induction false} RequestedSkips(before: seq<Extension>, es: seq<Extension>)
    requires forall i :: 0 <= i < |before| ==> before[i].kind != 0
    ensures Requested(before + es) == Requested(es)
  {
    if before == [] {
      assert before + es == es;
    } else {
      assert (before + es)[1..] == before[1..] + es;
      RequestedSkips(before[1..], es);
    }
  }

  /** Every strict prefix of a hello makes the parser wait, so nothing is decided early. */
  lemma PrefixNeedsMore(h: Hello, k: nat)
    requires Fits(h) && k < |Record(h)|
    ensures SniOf(Record(h)[..k]) == NeedMore
  {
    var b := Record(h)[..k];
    BigEndianInverse(4 + |Body(h)|, 0, 0);
    if k >= 5 {
      assert b[..5] == [0x16, 0x03, h.minor] + PutU16(4 + |Body(h)|);
      assert b[3] == b[..5][3] && b[4] == b[..5][4];
    }
  }

  /** Conversely, a name is only ever found in a server_name extension: what the loop has
      skipped before it is a list of other extensions, read whole. */
  lemma {:induction false} FoundIsServerName(s: seq<Byte>, left: int)
    returns (before: seq<Extension>, data: seq<Byte>, rest: seq<Byte>)
    requires left <= |s| && FirstServerName(s, left).Found?
    ensures AllFit(before) && |data| <= U16_MAX
    ensures forall i :: 0 <= i < |before| ==> before[i].kind != 0
    ensures s == PutExtensions(before) + PutExtension(Extension(0, data)) + rest
    ensures HostName(data) == FirstServerName(s, left)
    ensures |data| >= 5 && data[2] == 0
    ensures var n := GetU16(data[3], data[4]); 5 + n <= |data| && FirstServerName(s, left).name == data[5..5 + n]
    ensures Utf8.Valid(FirstServerName(s, left).name)
    decreases |s|
  {
    var e, tail, more := Peel(s, left);
    if e.kind == 0 {
      before, data, rest := [], e.data, tail;
      NothingBefore(PutExtension(e), rest);
    } else {
      before, data, rest := FoundIsServerName(tail, more);
      ConsExtension(e, before, PutExtension(Extension(0, data)), rest);
      before := [e] + before;
    }
  }

  /** One turn of a search that finds something: the extension it looked at, and what follows. */
  lemma Peel(s: seq<Byte>, left: int) returns (e: Extension, tail: seq<Byte>, more: int)
    requires left <= |s| && FirstServerName(s, left).Found?
    ensures |e.data| <= U16_MAX && s == PutExtension(e) + tail && |tail| < |s| && more <= |tail|
    ensures FirstServerName(s, left) == if e.kind == 0 then HostName(e.data) else FirstServerName(tail, more)
  {
    var kind, len := GetU16(s[0], s[1]), GetU16(s[2], s[3]);
    e, tail, more := Extension(kind, s[4..4 + len]), s[4 + len..], left - 4 - len;
    ExtensionCut(s, kind, e.data);
  }

  lemma NothingBefore(d: seq<Byte>, rest: seq<Byte>)
    ensures PutExtensions([]) + d + rest == d + rest
  {
    assert PutExtensions([]) + d == d;
  }

  lemma ConsExtension(e: Extension, before: seq<Extension>, d: seq<Byte>, rest: seq<Byte>)
    requires |e.data| <= U16_MAX && AllFit(before)
    ensures AllFit([e] + before)
    ensures PutExtension(e) + (PutExtensions(before) + d + rest) == PutExtensions([e] + before) + d + rest
  {
    var x := PutExtension(e);
    var y := PutExtensions(before);
    assert ([e] + before)[1..] == before;
    assert PutExtensions([e] + before) == x + y;
    Assoc(x, y + d, rest);
    Assoc(x, y, d);
  }

  lemma ExtensionCut(s: seq<Byte>, kind: U16, data: seq<Byte>)
    requires |s| >= 4 && |s| >= 4 + GetU16(s[2], s[3])
    requires kind == GetU16(s[0], s[1]) && data == s[4..4 + GetU16(s[2], s[3])]
    ensures |data| <= U16_MAX && s == PutExtension(Extension(kind, data)) + s[4 + |data|..]
  {
    Pair(s, 0);
    Pair(s, 2);
    FourPieces(s, 2, 4, 4 + |data|);
  }
}
