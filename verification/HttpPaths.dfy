/** The two ways an HTTP head reaches the header rewriting: peeked on the plain-HTTP port until its
    Host header is there, or read from a terminated TLS stream. */
module HttpPaths {
  import opened Bytes
  import opened Options
  import opened ClientHello
  import opened Passthrough
  import opened Forwarded
  import Utf8

  // ------------------------------------------------------------------
  // Cutting and trimming
  // ------------------------------------------------------------------

  const LF: Byte := 10

  const COLON: Byte := 58

  const DOT: Byte := 46

  /** `t` is made of bytes of `s`, and is no longer. */
  predicate PartOf(t: seq<Byte>, s: seq<Byte>)
  {
    |t| <= |s| && forall b :: b in t ==> b in s
  }

  /** The index of the first `b`, or the length if there is none. */
  function FirstOf(s: seq<Byte>, b: Byte): (i: nat)
    ensures i <= |s|
  {
    if s == [] || s[0] == b then 0 else 1 + FirstOf(s[1..], b)
  }

  lemma {:induction false} NoneBeforeFirst(s: seq<Byte>, b: Byte)
    ensures b !in s[..FirstOf(s, b)]
  {
    if s != [] && s[0] != b {
      NoneBeforeFirst(s[1..], b);
      assert s[..FirstOf(s, b)] == [s[0]] + s[1..][..FirstOf(s[1..], b)];
    }
  }

  /** The White_Space characters of Unicode, in UTF-8. */
  predicate IsSpace(c: seq<Byte>)
  {
    || (|c| == 1 && (9 <= c[0] <= 13 || c[0] == 32))
    || c == [0xC2, 0x85] || c == [0xC2, 0xA0]
    || (|c| == 3 && c[..2] == [0xE2, 0x80] && (0x80 <= c[2] <= 0x8A || c[2] in {0xA8, 0xA9, 0xAF}))
    || c == [0xE1, 0x9A, 0x80] || c == [0xE2, 0x81, 0x9F] || c == [0xE3, 0x80, 0x80]
  }

  function LeadingSpace(s: seq<Byte>): (n: nat)
    ensures n <= |s|
  {
    if |s| >= 1 && IsSpace(s[..1]) then 1
    else if |s| >= 2 && IsSpace(s[..2]) then 2
    else if |s| >= 3 && IsSpace(s[..3]) then 3
    else 0
  }

  function TrailingSpace(s: seq<Byte>): (n: nat)
    ensures n <= |s|
  {
    if |s| >= 1 && IsSpace(s[|s| - 1..]) then 1
    else if |s| >= 2 && IsSpace(s[|s| - 2..]) then 2
    else if |s| >= 3 && IsSpace(s[|s| - 3..]) then 3
    else 0
  }

  function TrimStart(s: seq<Byte>): (t: seq<Byte>)
    ensures |t| <= |s|
    decreases |s|
  {
    var n := LeadingSpace(s);
    if n == 0 then s else TrimStart(s[n..])
  }

  function TrimEnd(s: seq<Byte>): (t: seq<Byte>)
    ensures |t| <= |s|
    decreases |s|
  {
    var n := TrailingSpace(s);
    if n == 0 then s else TrimEnd(s[..|s| - n])
  }

  /** `str::trim` */
  function Trim(s: seq<Byte>): (t: seq<Byte>)
    ensures |t| <= |s|
  {
    TrimEnd(TrimStart(s))
  }

  /** `trim_end_matches('.')` */
  function TrimDots(s: seq<Byte>): (t: seq<Byte>)
    ensures |t| <= |s|
  {
    if s != [] && s[|s| - 1] == DOT then TrimDots(s[..|s| - 1]) else s
  }

  /** Trimming leaves a piece of what was there. */
  lemma {:induction false} TrimStartCuts(s: seq<Byte>)
    ensures PartOf(TrimStart(s), s)
    decreases |s|
  {
    if LeadingSpace(s) != 0 {
      TrimStartCuts(s[LeadingSpace(s)..]);
    }
  }

  lemma {:induction false} TrimEndCuts(s: seq<Byte>)
    ensures PartOf(TrimEnd(s), s)
    decreases |s|
  {
    if TrailingSpace(s) != 0 {
      TrimEndCuts(s[..|s| - TrailingSpace(s)]);
    }
  }

  lemma TrimCuts(s: seq<Byte>)
    ensures PartOf(Trim(s), s)
  {
    TrimStartCuts(s);
    TrimEndCuts(TrimStart(s));
  }

  lemma {:induction false} TrimDotsCuts(s: seq<Byte>)
    ensures PartOf(TrimDots(s), s)
  {
    if s != [] && s[|s| - 1] == DOT {
      TrimDotsCuts(s[..|s| - 1]);
    }
  }

  function LowerAll(s: seq<Byte>): (t: seq<Byte>)
    ensures |t| == |s|
  {
    seq(|s|, i requires 0 <= i < |s| => Lower(s[i]))
  }

  // ------------------------------------------------------------------
  // The Host header
  // ------------------------------------------------------------------

  function WithoutCr(line: seq<Byte>): (l: seq<Byte>)
    ensures |l| <= |line|
  {
    if line != [] && line[|line| - 1] == 13 then line[..|line| - 1] else line
  }

  predicate IsHostLine(line: seq<Byte>)
  {
    |line| >= 5 && LowerAll(line[..5]) == Ascii("host:")
  }

  function ValueOf(line: seq<Byte>): (v: Option<seq<Byte>>)
    requires IsHostLine(line)
    ensures v.Some? ==> |v.value| + 5 <= |line|
  {
    if Utf8.Valid(line[5..]) && Trim(line[5..]) != [] then Some(Trim(line[5..])) else None
  }

  /** The value of the first Host line, terminated or not. */
  function HostValue(s: seq<Byte>): (v: Option<seq<Byte>>)
    decreases |s|
  {
    var i := FirstOf(s, LF);
    var line := WithoutCr(s[..i]);
    if IsHostLine(line) then ValueOf(line)
    else if i == |s| then None
    else HostValue(s[i + 1..])
  }

  /** `parse_host` */
  method ParseHost(buf: seq<Byte>) returns (host: Option<seq<Byte>>)
    ensures host == HostValue(buf)
  {
    var rest := buf;
    while true
      invariant HostValue(rest) == HostValue(buf)
      decreases |rest|
    {
      var i := FirstOf(rest, LF);
      var line := WithoutCr(rest[..i]);
      if IsHostLine(line) {
        host := HostOfLine(line);
        return;
      }
      if i == |rest| {
        return None;
      }
      rest := rest[i + 1..];
    }
  }

  method HostOfLine(line: seq<Byte>) returns (host: Option<seq<Byte>>)
    requires IsHostLine(line)
    ensures host == ValueOf(line)
  {
    var val := line[5..];
    if !Utf8.Valid(val) {
      return None;
    }
    val := Trim(val);
    return if val == [] then None else Some(val);
  }

  /** A host is shorter than what it was found in, and has no line feed. */
  lemma {:induction false} HostIsInside(s: seq<Byte>)
    requires HostValue(s).Some?
    ensures |HostValue(s).value| + 5 <= |s| && LF !in HostValue(s).value
    decreases |s|
  {
    var i := FirstOf(s, LF);
    var line := WithoutCr(s[..i]);
    if IsHostLine(line) {
      NoneBeforeFirst(s, LF);
      TrimCuts(line[5..]);
    } else {
      HostIsInside(s[i + 1..]);
    }
  }

  /** The name that is looked up: the host without its port and trailing dots, in lower case. */
  function Hostname(host: seq<Byte>): seq<Byte>
  {
    LowerAll(TrimDots(Trim(host[..FirstOf(host, COLON)])))
  }

  lemma HostnameShorter(host: seq<Byte>)
    ensures |Hostname(host)| <= |host|
  {
  }

  lemma HostnameFits(host: seq<Byte>)
    requires LF !in host
    ensures |Hostname(host)| <= |host| && NoLf(Hostname(host))
  {
    var cut := host[..FirstOf(host, COLON)];
    var part := TrimDots(Trim(cut));
    TrimCuts(cut);
    TrimDotsCuts(Trim(cut));
    assert forall b :: b in part ==> b in cut;
    forall j | 0 <= j < |part|
      ensures Lower(part[j]) != LF
    {
      assert part[j] in part;
    }
  }

  // ------------------------------------------------------------------
  // The peek loop of the plain-HTTP port
  // ------------------------------------------------------------------

  const ACME_PREFIX: string := "/.well-known/acme-challenge/"

  /** The second space-separated field of a line. */
  function SecondField(line: seq<Byte>): Option<seq<Byte>>
  {
    var i := FirstOf(line, 32);
    if i == |line| then None
    else
      var rest := line[i + 1..];
      Some(rest[..FirstOf(rest, 32)])
  }

  predicate IsChallengePath(path: seq<Byte>)
  {
    && |path| >= |ACME_PREFIX|
    && (forall i :: 0 <= i < |ACME_PREFIX| ==> path[i] == ACME_PREFIX[i] as int)
    && Utf8.Valid(path[|ACME_PREFIX|..])
  }

  /** `acme_challenge_token` finds a token: the request line is complete and asks for a challenge. */
  predicate IsChallenge(buf: seq<Byte>)
  {
    var i := FirstCrlf(buf);
    i < |buf| &&
    var path := SecondField(buf[..i]);
    path.Some? && IsChallengePath(path.value)
  }

  datatype Peeked = Host(name: seq<Byte>) | Challenge | BadRequest | HungUp

  ghost predicate Complete(buf: seq<Byte>)
  {
    exists j: nat :: OccursAt(buf, BLANK, j)
  }

  /** What the bytes so far decide: a challenge, a host, or, if the head is complete or too long
      without either, a refusal. */
  ghost function Decision(buf: seq<Byte>, maxHeaderBytes: nat): Option<Peeked>
  {
    if IsChallenge(buf) then Some(Challenge)
    else match HostValue(buf)
      case Some(host) => Some(Host(Hostname(host)))
      case None => if Complete(buf) || |buf| >= maxHeaderBytes then Some(BadRequest) else None
  }

  method Decide(buf: seq<Byte>, maxHeaderBytes: nat) returns (d: Option<Peeked>)
    ensures d == Decision(buf, maxHeaderBytes)
    ensures d == None ==> |buf| < maxHeaderBytes
    ensures d.Some? ==> d.value != HungUp
  {
    if IsChallenge(buf) {
      return Some(Challenge);
    }
    var host := ParseHost(buf);
    if host.Some? {
      return Some(Host(Hostname(host.value)));
    }
    var end := FindSubsequence(buf, BLANK);
    if end.Some? || |buf| >= maxHeaderBytes {
      return Some(BadRequest);
    }
    return None;
  }

  /** Nothing was decided after any of the first `n` reads. */
  ghost predicate Undecided(chunks: seq<seq<Byte>>, n: nat, maxHeaderBytes: nat)
    requires n <= |chunks|
  {
    n == 0 || (Undecided(chunks, n - 1, maxHeaderBytes) && Decision(Concat(chunks[..n]), maxHeaderBytes) == None)
  }

  /** The `n`-th read was the first to decide, and decided `r`. */
  ghost predicate Decides(chunks: seq<seq<Byte>>, n: nat, maxHeaderBytes: nat, r: Peeked)
    requires n <= |chunks|
  {
    n > 0 && Undecided(chunks, n - 1, maxHeaderBytes) && Decision(Concat(chunks[..n]), maxHeaderBytes) == Some(r)
  }

  /** One turn of the peek loop. */
  method ReadOne(chunks: seq<seq<Byte>>, n: nat, buf: seq<Byte>, maxHeaderBytes: nat)
    returns (buf': seq<Byte>, d: Option<Peeked>)
    requires n < |chunks| && buf == Concat(chunks[..n]) && Undecided(chunks, n, maxHeaderBytes)
    ensures buf' == buf + chunks[n] == Concat(chunks[..n + 1])
    ensures d == None ==> Undecided(chunks, n + 1, maxHeaderBytes) && |buf'| < maxHeaderBytes
    ensures d.Some? ==> Decides(chunks, n + 1, maxHeaderBytes, d.value) && d.value != HungUp
  {
    OneMoreRead(chunks, n);
    buf' := buf + chunks[n];
    d := Decide(buf', maxHeaderBytes);
  }

  /** The peek loop of `serve_http`: read until the bytes decide or the client hangs up. */
  method PeekHost(chunks: seq<seq<Byte>>, maxHeaderBytes: nat) returns (r: Peeked, buf: seq<Byte>, used: nat)
    requires HeadReads(chunks)
    ensures used <= |chunks| && buf == Concat(chunks[..used])
    ensures |buf| <= maxHeaderBytes + HEAD_READ
    ensures r != HungUp ==> Decides(chunks, used, maxHeaderBytes, r)
    ensures r == HungUp ==> used == |chunks| && Undecided(chunks, used, maxHeaderBytes)
  {
    buf, used := [], 0;
    assert chunks[..0] == [];
    while used < |chunks|
      invariant used <= |chunks| && buf == Concat(chunks[..used])
      invariant used == 0 ==> buf == []
      invariant used > 0 ==> |buf| < maxHeaderBytes
      invariant Undecided(chunks, used, maxHeaderBytes)
    {
      var d;
      buf, d := ReadOne(chunks, used, buf, maxHeaderBytes);
      used := used + 1;
      if d.Some? {
        r := d.value;
        return;
      }
    }
    r := HungUp;
  }

  /** Read the rest of the head, rewrite it, and say how the replay relates to what was read. */
  method ReadAndRewrite(head: seq<Byte>, chunks: seq<seq<Byte>>, ip: seq<Byte>, scheme: seq<Byte>, host: seq<Byte>,
                        maxHeaderBytes: nat) returns (replay: seq<Byte>, read: seq<Byte>, used: nat)
    requires HeadReads(chunks) && |head| <= maxHeaderBytes + HEAD_READ && |scheme| <= 5
    requires maxHeaderBytes <= 16384 ==> |host| < MIN_CAP + READ_SIZE
    ensures used <= |chunks| && read == head + Concat(chunks[..used])
    ensures NoCrlf(ip) && NoCrlf(scheme) ==> Replays(read, ip, scheme, host, replay)
    ensures maxHeaderBytes <= 16384 && |ip| <= 45 ==> Clipped(replay) == replay
  {
    replay, read, used := WithForwardedHeaders(head, chunks, ip, scheme, host, maxHeaderBytes);
    if NoCrlf(ip) && NoCrlf(scheme) {
      AllRewrites(read, ip, scheme, host, replay);
    }
  }

  /** The replay of a plain-HTTP connection: peek, then rewrite with the name that was looked up. With
      the default head limit it always fits the preamble. */
  method HttpReplay(chunks: seq<seq<Byte>>, ip: seq<Byte>, maxHeaderBytes: nat)
    returns (r: Peeked, replay: seq<Byte>, read: seq<Byte>, peeked: nat, used: nat)
    requires HeadReads(chunks) && NoCrlf(ip)
    ensures peeked <= used <= |chunks| && read == Concat(chunks[..used])
    ensures r != HungUp ==> Decides(chunks, peeked, maxHeaderBytes, r)
    ensures r.Host? ==> NoCrlf(r.name) && Replays(read, ip, Ascii("http"), r.name, replay)
    ensures r.Host? && maxHeaderBytes <= 16384 && |ip| <= 45 ==> Clipped(replay) == replay
    ensures !r.Host? ==> replay == []
  {
    r, read, used := PeekHost(chunks, maxHeaderBytes);
    peeked, replay := used, [];
    if r.Host? {
      DecidedHostFits(read, maxHeaderBytes, r);
      replay, read, used := RewriteRest(chunks, read, used, ip, r.name, maxHeaderBytes);
    }
  }

  method RewriteRest(chunks: seq<seq<Byte>>, head: seq<Byte>, peeked: nat, ip: seq<Byte>, name: seq<Byte>,
                     maxHeaderBytes: nat) returns (replay: seq<Byte>, read: seq<Byte>, used: nat)
    requires HeadReads(chunks) && NoCrlf(ip)
    requires peeked <= |chunks| && head == Concat(chunks[..peeked])
    requires |name| <= |head| <= maxHeaderBytes + HEAD_READ
    ensures peeked <= used <= |chunks| && read == Concat(chunks[..used])
    ensures Replays(read, ip, Ascii("http"), name, replay)
    ensures maxHeaderBytes <= 16384 && |ip| <= 45 ==> Clipped(replay) == replay
  {
    AsciiSchemes();
    replay, read, used := ReadAndRewrite(head, chunks[peeked..], ip, Ascii("http"), name, maxHeaderBytes);
    SplitReads(chunks, peeked, used);
    used := peeked + used;
  }

  lemma DecidedHostFits(buf: seq<Byte>, maxHeaderBytes: nat, r: Peeked)
    requires Decision(buf, maxHeaderBytes) == Some(r) && r.Host?
    ensures |r.name| <= |buf| && NoCrlf(r.name)
  {
    HostIsInside(buf);
    HostnameFits(HostValue(buf).value);
    NoLfNoCrlf(r.name);
  }

  lemma AsciiSchemes()
    ensures |Ascii("http")| == 4 && |Ascii("https")| == 5 && NoCrlf(Ascii("http")) && NoCrlf(Ascii("https"))
  {
  }

  lemma SplitReads(chunks: seq<seq<Byte>>, used: nat, more: nat)
    requires used + more <= |chunks|
    ensures Concat(chunks[..used]) + Concat(chunks[used..][..more]) == Concat(chunks[..used + more])
  {
    ConcatAppend(chunks[..used], chunks[used..][..more]);
    assert chunks[..used] + chunks[used..][..more] == chunks[..used + more];
  }

  /** What is replayed for a head read so far: its rewriting, as intended exactly if the host holds no
      CRLF, if it is complete and UTF-8, and otherwise what was read. */
  ghost predicate Replays(read: seq<Byte>, ip: seq<Byte>, scheme: seq<Byte>, host: seq<Byte>, out: seq<Byte>)
  {
    && (forall end: nat :: IsFirst(read, BLANK, end) ==>
          if Utf8.Valid(read[..end]) then
            && out == Join(NewLines(read[..end], ip, scheme, host)) + BLANK + read[end + 4..]
            && (Rewrites(read, end, ip, scheme, host, out) <==> NoCrlf(host))
          else out == read)
    && ((forall end: nat :: !IsFirst(read, BLANK, end)) ==> out == read)
  }

  lemma AllRewrites(read: seq<Byte>, ip: seq<Byte>, scheme: seq<Byte>, host: seq<Byte>, out: seq<Byte>)
    requires NoCrlf(ip) && NoCrlf(scheme)
    requires forall end: nat :: IsFirst(read, BLANK, end) ==>
      out == if Utf8.Valid(read[..end]) then Join(NewLines(read[..end], ip, scheme, host)) + BLANK + read[end + 4..] else read
    requires (forall end: nat :: !IsFirst(read, BLANK, end)) ==> out == read
    ensures Replays(read, ip, scheme, host, out)
  {
    forall end: nat | IsFirst(read, BLANK, end) && Utf8.Valid(read[..end])
      ensures Rewrites(read, end, ip, scheme, host, out) <==> NoCrlf(host)
    {
      RewritesIff(read, end, ip, scheme, host, out);
    }
  }

  // ------------------------------------------------------------------
  // The terminated-TLS path
  // ------------------------------------------------------------------

  lemma {:induction false} ScannedNameFits(s: seq<Byte>, left: int)
    requires left <= |s| && FirstServerName(s, left).Found?
    ensures |FirstServerName(s, left).name| <= |s|
    decreases |s|
  {
    var len := GetU16(s[2], s[3]);
    if GetU16(s[0], s[1]) != 0 {
      ScannedNameFits(s[4 + len..], left - 4 - len);
    }
  }

  /** A server name is no longer than the bytes it was found in. */
  lemma NameFits(b: seq<Byte>)
    requires SniOf(b).Found?
    ensures |SniOf(b).name| <= |b|
  {
    var body := b[5..RecordEnd(b)][4..];
    var p := ExtensionsOffset(body).q;
    ScannedNameFits(body[p + 2..], LenAt(body, p, 2));
  }

  /** The replay of a terminated connection: look up the server name of the hello, then read the
      head from the decrypted stream and rewrite it. A server name, unlike a Host header, may hold a
      CRLF; the rewriting is as intended exactly if it does not. */
  method HttpsReplay(hello: seq<seq<Byte>>, plain: seq<seq<Byte>>, ip: seq<Byte>, maxHeaderBytes: nat)
    returns (verdict: Verdict, replay: seq<Byte>, read: seq<Byte>, used: nat)
    requires Reads(hello) && HeadReads(plain) && NoCrlf(ip)
    ensures used <= |plain| && read == Concat(plain[..used])
    ensures verdict.Route? ==> Replays(read, ip, Ascii("https"), Hostname(verdict.name), replay)
    ensures verdict.Route? && maxHeaderBytes <= 16384 && |ip| <= 45 ==> Clipped(replay) == replay
    ensures verdict.Close? ==> replay == []
  {
    var cap := if maxHeaderBytes < MIN_CAP then MIN_CAP else maxHeaderBytes;
    var buf, peeked;
    verdict, buf, peeked := PeekSni(hello, cap);
    replay, read, used := [], [], 0;
    assert plain[..0] == [];
    if verdict.Route? {
      NameFits(buf);
      HostnameShorter(verdict.name);
      AsciiSchemes();
      replay, read, used := ReadAndRewrite([], plain, ip, Ascii("https"), Hostname(verdict.name), maxHeaderBytes);
    }
  }
}
