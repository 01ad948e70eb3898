/** The TLS ClientHello SNI extractor of the :443 router. Formats: TLS records (section 5.1
    of RFC 8446), ClientHello (section 4.1.2 of RFC 8446), server_name (section 3 of
    RFC 6066). */
module ClientHello {
  import opened Bytes
  import Utf8

  datatype Sni = Found(name: seq<Byte>) | NeedMore | NoSni | NotTls

  // ------------------------------------------------------------------
  // The grammar, field by field
  // ------------------------------------------------------------------

  function SniOf(b: seq<Byte>): (v: Sni)
  {
    if |b| < 5 then NeedMore
    else if b[0] != 0x16 || b[1] != 0x03 then NotTls
    else if |b| < RecordEnd(b) then NeedMore
    else Handshake(b[5..RecordEnd(b)])
  }

  /** Where the first record ends. */
  function RecordEnd(b: seq<Byte>): nat
    requires |b| >= 5
  {
    5 + GetU16(b[3], b[4])
  }

  function Handshake(hs: seq<Byte>): Sni
  {
    if |hs| < 4 || hs[0] != 0x01 then NoSni else Random(hs[4..])
  }

  /** The offset just past the vector at `p` whose length prefix is `w` bytes wide (1 or 2),
      if that prefix is there. The vector itself may run past the end. */
  function PastVector(body: seq<Byte>, p: nat, w: nat): (q: Offset)
    requires 1 <= w <= 2
  {
    if p + w > |body| then Missing else Past(p + w + LenAt(body, p, w))
  }

  datatype Offset = Missing | Past(q: nat)

  function LenAt(body: seq<Byte>, p: nat, w: nat): nat
    requires 1 <= w <= 2 && p + w <= |body|
  {
    if w == 1 then body[p] else GetU16(body[p], body[p + 1])
  }

  /** Version and random (34 bytes), then session_id, cipher_suites, compression_methods. */
  function Random(body: seq<Byte>): Sni
  {
    if |body| < 34 then NeedMore
    else match ExtensionsOffset(body)
      case Missing => NeedMore
      case Past(p) => Extensions(body, p)
  }

  function ExtensionsOffset(body: seq<Byte>): Offset
  {
    match PastVector(body, 34, 1)
    case Missing => Missing
    case Past(p) =>
      match PastVector(body, p, 2)
      case Missing => Missing
      case Past(q) => PastVector(body, q, 1)
  }

  function Extensions(body: seq<Byte>, p: nat): Sni
  {
    if p + 2 > |body| then NoSni
    else if p + 2 + LenAt(body, p, 2) > |body| then NeedMore
    else FirstServerName(body[p + 2..], LenAt(body, p, 2))
  }

  /** The extension list, of which `left` bytes remain in the announced block. */
  function FirstServerName(s: seq<Byte>, left: int): Sni
    requires left <= |s|
    decreases |s|
  {
    if left < 4 then NoSni
    else
      var len := GetU16(s[2], s[3]);
      if |s| < 4 + len then NeedMore
      else if GetU16(s[0], s[1]) == 0 then HostName(s[4..4 + len])
      else FirstServerName(s[4 + len..], left - 4 - len)
  }

  function HostName(ext: seq<Byte>): Sni
  {
    if |ext| < 5 || ext[2] != 0x00 then NoSni
    else
      var n := GetU16(ext[3], ext[4]);
      if 5 + n > |ext| then NoSni
      else if Utf8.Valid(ext[5..5 + n]) then Found(ext[5..5 + n]) else NoSni
  }

  /** What is not a TLS handshake record is known by its first two bytes, once five are there; only a
      complete record that holds a ClientHello can give a name. */
  lemma NotTlsIff(b: seq<Byte>)
    ensures SniOf(b) == NotTls <==> |b| >= 5 && (b[0] != 22 || b[1] != 3)
    ensures SniOf(b).Found? ==> |b| >= 9 && b[0] == 22 && b[1] == 3 && |b| >= 5 + GetU16(b[3], b[4]) && b[5] == 1
  {
    if |b| >= 5 && b[0] == 22 && b[1] == 3 && |b| >= RecordEnd(b) {
      var hs := b[5..RecordEnd(b)];
      if |hs| >= 38 && hs[0] == 1 && ExtensionsOffset(hs[4..]).Past? {
        var body, p := hs[4..], ExtensionsOffset(hs[4..]).q;
        if p + 2 <= |body| && p + 2 + LenAt(body, p, 2) <= |body| {
          ScanIsTls(body[p + 2..], LenAt(body, p, 2));
        }
      }
    }
  }

  lemma {:induction false} ScanIsTls(s: seq<Byte>, left: int)
    requires left <= |s|
    ensures FirstServerName(s, left) != NotTls
    decreases |s|
  {
    if left >= 4 && |s| >= 4 + GetU16(s[2], s[3]) && GetU16(s[0], s[1]) != 0 {
      ScanIsTls(s[4 + GetU16(s[2], s[3])..], left - 4 - GetU16(s[2], s[3]));
    }
  }

  // ------------------------------------------------------------------
  // The parser: one offset into the handshake body, advanced in place
  // ------------------------------------------------------------------

  method ParseSni(b: seq<Byte>) returns (v: Sni)
    ensures v == SniOf(b)
  {
    if |b| < 5 { return NeedMore; }
    if b[0] != 0x16 || b[1] != 0x03 { return NotTls; }
    var recLen: int := GetU16(b[3], b[4]);
    if |b| < 5 + recLen { return NeedMore; }
    var hs := b[5..5 + recLen];
    if |hs| < 4 || hs[0] != 0x01 { return NoSni; }
    v := ParseBody(hs[4..]);
  }

  method ParseBody(body: seq<Byte>) returns (v: Sni)
    ensures v == Random(body)
  {
    var p := 0;
    if p + 34 > |body| { return NeedMore; }
    p := p + 34;
    if p + 1 > |body| { return NeedMore; }
    p := p + 1 + body[p];
    if p + 2 > |body| { return NeedMore; }
    p := p + 2 + GetU16(body[p], body[p + 1]);
    if p + 1 > |body| { return NeedMore; }
    p := p + 1 + body[p];
    if p + 2 > |body| { return NoSni; }
    var extTotal := GetU16(body[p], body[p + 1]);
    p := p + 2;
    if p + extTotal > |body| { return NeedMore; }
    v := ScanExtensions(body, p, p + extTotal);
  }

  method ScanExtensions(body: seq<Byte>, start: nat, extEnd: nat) returns (v: Sni)
    requires start <= extEnd <= |body|
    ensures v == FirstServerName(body[start..], extEnd - start)
  {
    var p := start;
    while p + 4 <= extEnd
      invariant start <= p <= |body|
      invariant FirstServerName(body[start..], extEnd - start) == FirstServerName(body[p..], extEnd - p)
      decreases |body| - p
    {
      var etype := GetU16(body[p], body[p + 1]);
      var elen := GetU16(body[p + 2], body[p + 3]);
      ghost var s := body[p..];
      p := p + 4;
      if p + elen > |body| { return NeedMore; }
      if etype == 0x0000 {
        var ext := body[p..p + elen];
        assert ext == s[4..4 + elen];
        if |ext| < 5 || ext[2] != 0x00 { return NoSni; }
        var nameLen := GetU16(ext[3], ext[4]);
        if 5 + nameLen > |ext| { return NoSni; }
        var name := ext[5..5 + nameLen];
        return if Utf8.Valid(name) then Found(name) else NoSni;
      }
      p := p + elen;
      assert s[4 + elen..] == body[p..];
    }
    v := NoSni;
  }
}
