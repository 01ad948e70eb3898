/** Rewriting of the first HTTP request head with `X-Forwarded-*` lines. */
module Forwarded {
  import opened Bytes
  import opened Options
  import opened Passthrough
  import Utf8

  const CRLF: seq<Byte> := [13, 10]

  const BLANK: seq<Byte> := [13, 10, 13, 10]

  /** The bytes of an ASCII string. */
  function Ascii(s: string): (b: seq<Byte>)
  {
    seq(|s|, i requires 0 <= i < |s| => (s[i] as int) % 256)
  }

  // ------------------------------------------------------------------
  // Searching
  // ------------------------------------------------------------------

  ghost predicate OccursAt(h: seq<Byte>, needle: seq<Byte>, i: nat)
  {
    i + |needle| <= |h| && h[i..i + |needle|] == needle
  }

  ghost predicate IsFirst(h: seq<Byte>, needle: seq<Byte>, i: nat)
  {
    OccursAt(h, needle, i) && forall j :: 0 <= j < i ==> !OccursAt(h, needle, j)
  }

  /** `find_subsequence`: the first window equal to the needle. */
  method FindSubsequence(h: seq<Byte>, needle: seq<Byte>) returns (r: Option<nat>)
    requires needle != []
    ensures r.Some? ==> IsFirst(h, needle, r.value)
    ensures r.None? ==> forall j: nat :: !OccursAt(h, needle, j)
  {
    var index := 0;
    while index + |needle| <= |h|
      invariant forall j :: 0 <= j < index ==> !OccursAt(h, needle, j)
    {
      if h[index..index + |needle|] == needle {
        return Some(index);
      }
      index := index + 1;
    }
    r := None;
  }

  // ------------------------------------------------------------------
  // Lines
  // ------------------------------------------------------------------

  /** The index of the first CRLF, or the length if there is none. */
  function FirstCrlf(s: seq<Byte>): (i: nat)
    ensures i <= |s|
    ensures i < |s| ==> i + 2 <= |s| && s[i] == 13 && s[i + 1] == 10
  {
    if |s| < 2 then |s|
    else if s[0] == 13 && s[1] == 10 then 0
    else 1 + FirstCrlf(s[1..])
  }

  /** `text.split("\r\n")` */
  function Lines(s: seq<Byte>): (ls: seq<seq<Byte>>)
    ensures ls != []
    decreases |s|
  {
    var i := FirstCrlf(s);
    if i == |s| then [s] else [s[..i]] + Lines(s[i + 2..])
  }

  function Join(ls: seq<seq<Byte>>): (s: seq<Byte>)
    requires ls != []
  {
    if |ls| == 1 then ls[0] else ls[0] + CRLF + Join(ls[1..])
  }

  ghost predicate NoCrlf(s: seq<Byte>)
  {
    forall i :: 0 <= i < |s| - 1 ==> !(s[i] == 13 && s[i + 1] == 10)
  }

  /** No line feed. */
  ghost predicate NoLf(s: seq<Byte>)
  {
    forall i :: 0 <= i < |s| ==> s[i] != 10
  }

  ghost predicate AllNoCrlf(ls: seq<seq<Byte>>)
  {
    forall i :: 0 <= i < |ls| ==> NoCrlf(ls[i])
  }

  /** Only the first line may be empty. */
  ghost predicate RestNonEmpty(ls: seq<seq<Byte>>)
  {
    forall i :: 1 <= i < |ls| ==> ls[i] != []
  }

  lemma {:induction false} FirstCrlfIsFirst(s: seq<Byte>)
    ensures NoCrlf(s[..FirstCrlf(s)])
  {
    if |s| >= 2 && !(s[0] == 13 && s[1] == 10) {
      FirstCrlfIsFirst(s[1..]);
      var t := s[1..][..FirstCrlf(s[1..])];
      assert s[..FirstCrlf(s)] == [s[0]] + t;
    }
  }

  /** The first CRLF of `l + CRLF + t` is the one after a line without CRLF. */
  lemma {:induction false} FirstCrlfAfter(l: seq<Byte>, t: seq<Byte>)
    requires NoCrlf(l)
    ensures FirstCrlf(l + CRLF + t) == |l|
  {
    var s := l + CRLF + t;
    if l == [] {
      assert s[0] == 13 && s[1] == 10;
    } else {
      assert s[1..] == l[1..] + CRLF + t;
      FirstCrlfAfter(l[1..], t);
    }
  }

  lemma {:induction false} FirstCrlfNone(l: seq<Byte>)
    requires NoCrlf(l)
    ensures FirstCrlf(l) == |l|
  {
    if |l| >= 2 {
      FirstCrlfNone(l[1..]);
    }
  }

  /** Splitting undoes joining. */
  lemma {:induction false} LinesOfJoin(ls: seq<seq<Byte>>)
    requires ls != [] && AllNoCrlf(ls)
    ensures Lines(Join(ls)) == ls
  {
    if |ls| == 1 {
      FirstCrlfNone(ls[0]);
    } else {
      var t := Join(ls[1..]);
      var s := ls[0] + CRLF + t;
      FirstCrlfAfter(ls[0], t);
      assert s[..|ls[0]|] == ls[0] && s[|ls[0]| + 2..] == t;
      LinesOfJoin(ls[1..]);
    }
  }

  /** Joining undoes splitting. */
  lemma {:induction false} JoinOfLines(s: seq<Byte>)
    ensures Join(Lines(s)) == s && AllNoCrlf(Lines(s))
    decreases |s|
  {
    var i := FirstCrlf(s);
    FirstCrlfIsFirst(s);
    if i == |s| {
      assert s[..i] == s;
    } else {
      JoinOfLines(s[i + 2..]);
      JoinCons(s[..i], Lines(s[i + 2..]));
      CutAtCrlf(s, i);
    }
  }

  lemma JoinCons(l: seq<Byte>, ls: seq<seq<Byte>>)
    requires ls != []
    ensures Join([l] + ls) == l + CRLF + Join(ls)
  {
    assert ([l] + ls)[1..] == ls;
  }

  lemma CutAtCrlf(s: seq<Byte>, i: nat)
    requires i + 2 <= |s| && s[i] == 13 && s[i + 1] == 10
    ensures s == s[..i] + CRLF + s[i + 2..]
  {
    FourPieces(s, i, i + 2, i + 2);
    assert s[i..i + 2] == CRLF;
  }

  // ------------------------------------------------------------------
  // The first blank line
  // ------------------------------------------------------------------

  /** Followed by a blank line, `s` contains no earlier one. */
  ghost predicate NoEarlyBlank(s: seq<Byte>)
  {
    forall j :: 0 <= j < |s| ==> !OccursAt(s + BLANK, BLANK, j)
  }

  lemma NoEarlyBlankSuffix(a: seq<Byte>, b: seq<Byte>)
    requires NoEarlyBlank(a + b)
    ensures NoEarlyBlank(b)
  {
    forall j | 0 <= j < |b|
      ensures !OccursAt(b + BLANK, BLANK, j)
    {
      if OccursAt(b + BLANK, BLANK, j) {
        Assoc(a, b, BLANK);
        assert (a + (b + BLANK))[|a| + j..|a| + j + 4] == (b + BLANK)[j..j + 4];
        assert OccursAt(a + b + BLANK, BLANK, |a| + j);
      }
    }
  }

  /** In a head that ends at its first blank line, no line but the first is empty. */
  lemma {:induction false} HeadLinesNonEmpty(s: seq<Byte>)
    requires NoEarlyBlank(s)
    ensures RestNonEmpty(Lines(s))
    decreases |s|
  {
    var i := FirstCrlf(s);
    if i < |s| {
      var t := s[i + 2..];
      assert s == s[..i + 2] + t;
      NoEarlyBlankSuffix(s[..i + 2], t);
      HeadLinesNonEmpty(t);
      if Lines(t)[0] == [] {
        EmptyLineIsBlank(s, i);
      }
      assert Lines(s)[1..] == Lines(t);
    }
  }

  lemma EmptyLineIsBlank(s: seq<Byte>, i: nat)
    requires i == FirstCrlf(s) < |s| && Lines(s[i + 2..])[0] == []
    ensures OccursAt(s + BLANK, BLANK, i)
  {
    EmptyFirstLine(s[i + 2..]);
    assert |s| == i + 2 || (s[i + 2] == s[i + 2..][0] && s[i + 3] == s[i + 2..][1]);
    BlankByBytes(s + BLANK, i);
  }

  lemma EmptyFirstLine(t: seq<Byte>)
    requires Lines(t)[0] == []
    ensures t == [] || (|t| >= 2 && t[0] == 13 && t[1] == 10)
  {
  }

  lemma BlankByBytes(h: seq<Byte>, i: nat)
    requires i + 4 <= |h| && h[i] == 13 && h[i + 1] == 10 && h[i + 2] == 13 && h[i + 3] == 10
    ensures OccursAt(h, BLANK, i)
  {
    assert h[i..i + 4] == [h[i], h[i + 1], h[i + 2], h[i + 3]];
  }

  /** A line without CRLF followed by CRLF holds no CRLF before its end. */
  lemma NoCrlfInside(l: seq<Byte>, t: seq<Byte>, j: nat)
    requires NoCrlf(l) && j < |l|
    ensures var s := l + CRLF + t; !(s[j] == 13 && s[j + 1] == 10)
  {
    var s := l + CRLF + t;
    if j + 1 == |l| {
      assert s[j + 1] == CRLF[0];
    }
  }

  /** Non-empty lines joined and followed by a blank line contain no earlier blank line. */
  lemma {:induction false} JoinNoEarlyBlank(ls: seq<seq<Byte>>)
    requires ls != [] && AllNoCrlf(ls) && RestNonEmpty(ls)
    ensures NoEarlyBlank(Join(ls))
  {
    var s := Join(ls) + BLANK;
    var l := ls[0];
    if |ls| == 1 {
      assert s == l + CRLF + CRLF;
      forall j | 0 <= j < |l|
        ensures !OccursAt(s, BLANK, j)
      {
        NoCrlfInside(l, CRLF, j);
        BlankStartsWithCrlf(s, j);
      }
    } else {
      var t := Join(ls[1..]);
      Assoc(l + CRLF, t, BLANK);
      JoinNoEarlyBlank(ls[1..]);
      forall j | 0 <= j < |Join(ls)|
        ensures !OccursAt(s, BLANK, j)
      {
        BlankStartsWithCrlf(s, j);
        if j < |l| {
          NoCrlfInside(l, t + BLANK, j);
        } else if j == |l| {
          FirstBytesOfLine(ls[1..]);
          assert s[|l| + 2] == (t + BLANK)[0] && s[|l| + 3] == (t + BLANK)[1];
        } else if j == |l| + 1 {
          assert s[j] == CRLF[1];
        } else {
          var k := j - |l| - 2;
          if OccursAt(s, BLANK, j) {
            assert s[j..j + 4] == (t + BLANK)[k..k + 4];
            assert OccursAt(t + BLANK, BLANK, k);
          }
        }
      }
    }
  }

  lemma BlankStartsWithCrlf(s: seq<Byte>, j: nat)
    ensures OccursAt(s, BLANK, j) ==>
      j + 4 <= |s| && s[j] == 13 && s[j + 1] == 10 && s[j + 2] == 13 && s[j + 3] == 10
  {
    if OccursAt(s, BLANK, j) {
      assert s[j..j + 4][0] == BLANK[0] && s[j..j + 4][1] == BLANK[1];
      assert s[j..j + 4][2] == BLANK[2] && s[j..j + 4][3] == BLANK[3];
    }
  }

  lemma FirstBytesOfLine(ls: seq<seq<Byte>>)
    requires ls != [] && NoCrlf(ls[0]) && ls[0] != []
    ensures var s := Join(ls) + BLANK; !(s[0] == 13 && s[1] == 10)
  {
    var s := Join(ls) + BLANK;
    if |ls| == 1 {
      assert s == ls[0] + CRLF + CRLF;
      NoCrlfInside(ls[0], CRLF, 0);
    } else {
      Assoc(ls[0] + CRLF, Join(ls[1..]), BLANK);
      NoCrlfInside(ls[0], Join(ls[1..]) + BLANK, 0);
    }
  }

  // ------------------------------------------------------------------
  // The rewrite
  // ------------------------------------------------------------------

  const FORWARDED_PREFIX: string := "x-forwarded-"

  function Lower(b: Byte): Byte
  {
    if 65 <= b <= 90 then b + 32 else b
  }

  /** `line.to_ascii_lowercase().starts_with("x-forwarded-")` */
  predicate IsForwarded(line: seq<Byte>)
  {
    |line| >= |FORWARDED_PREFIX| &&
    forall i :: 0 <= i < |FORWARDED_PREFIX| ==> Lower(line[i]) == FORWARDED_PREFIX[i] as int
  }

  /** The lines that are not `X-Forwarded-*`, in order. */
  function Kept(ls: seq<seq<Byte>>): (k: seq<seq<Byte>>)
  {
    if ls == [] then []
    else if IsForwarded(ls[0]) then Kept(ls[1..])
    else [ls[0]] + Kept(ls[1..])
  }

  function ForLine(ip: seq<Byte>): seq<Byte>
  {
    Ascii("X-Forwarded-For: ") + ip
  }

  function ProtoLine(scheme: seq<Byte>): seq<Byte>
  {
    Ascii("X-Forwarded-Proto: ") + scheme
  }

  function HostLine(host: seq<Byte>): seq<Byte>
  {
    Ascii("X-Forwarded-Host: ") + host
  }

  function ForwardedLines(ip: seq<Byte>, scheme: seq<Byte>, host: seq<Byte>): (ls: seq<seq<Byte>>)
    ensures |ls| == 3
  {
    [ForLine(ip), ProtoLine(scheme), HostLine(host)]
  }

  /** Every line followed by CRLF. */
  function Terminated(ls: seq<seq<Byte>>): (s: seq<Byte>)
  {
    if ls == [] then [] else ls[0] + CRLF + Terminated(ls[1..])
  }

  lemma {:induction false} TerminatedAppend(a: seq<seq<Byte>>, b: seq<seq<Byte>>)
    ensures Terminated(a + b) == Terminated(a) + Terminated(b)
  {
    if a == [] {
      assert a + b == b;
    } else {
      assert (a + b)[1..] == a[1..] + b;
      TerminatedAppend(a[1..], b);
      Assoc(a[0] + CRLF, Terminated(a[1..]), Terminated(b));
    }
  }

  lemma {:induction false} TerminatedIsJoin(ls: seq<seq<Byte>>)
    requires ls != []
    ensures Terminated(ls) == Join(ls) + CRLF
  {
    if |ls| > 1 {
      TerminatedIsJoin(ls[1..]);
      Assoc(ls[0] + CRLF, Join(ls[1..]), CRLF);
    }
  }

  lemma {:induction false} KeptAppend(a: seq<seq<Byte>>, b: seq<seq<Byte>>)
    ensures Kept(a + b) == Kept(a) + Kept(b)
  {
    if a == [] {
      assert a + b == b;
    } else {
      assert (a + b)[1..] == a[1..] + b;
      KeptAppend(a[1..], b);
    }
  }

  /** The head block after rewriting, as lines. */
  function NewLines(text: seq<Byte>, ip: seq<Byte>, scheme: seq<Byte>, host: seq<Byte>): (ls: seq<seq<Byte>>)
    ensures ls != []
  {
    Kept(Lines(text)) + ForwardedLines(ip, scheme, host)
  }

  /** The rewriting of a head whose blank line starts at `end`: drop the client's
      `X-Forwarded-*` lines, append ours, keep the bytes after the blank line. */
  method RewriteHead(head: seq<Byte>, end: nat, ip: seq<Byte>, scheme: seq<Byte>, host: seq<Byte>)
    returns (out: seq<Byte>)
    requires OccursAt(head, BLANK, end)
    ensures out == Join(NewLines(head[..end], ip, scheme, host)) + BLANK + head[end + 4..]
  {
    var lines := Lines(head[..end]);
    out := [];
    for i := 0 to |lines|
      invariant out == Terminated(Kept(lines[..i]))
    {
      assert lines[..i + 1] == lines[..i] + [lines[i]];
      KeptAppend(lines[..i], [lines[i]]);
      if !IsForwarded(lines[i]) {
        assert Kept([lines[i]]) == [lines[i]];
        TerminatedAppend(Kept(lines[..i]), [lines[i]]);
        TerminatedOne(out, lines[i]);
        out := out + lines[i];
        out := out + CRLF;
      } else {
        assert Kept([lines[i]]) == [] && Kept(lines[..i]) + [] == Kept(lines[..i]);
      }
    }
    assert lines[..|lines|] == lines;
    ghost var kept := Kept(lines);
    var fwd := ForwardedLines(ip, scheme, host);
    assert kept + fwd[..0] == kept;
    for j := 0 to 3
      invariant out == Terminated(kept + fwd[..j])
    {
      assert kept + fwd[..j + 1] == kept + fwd[..j] + [fwd[j]];
      TerminatedAppend(kept + fwd[..j], [fwd[j]]);
      TerminatedOne(out, fwd[j]);
      out := out + fwd[j] + CRLF;
    }
    assert fwd[..3] == fwd;
    TerminatedIsJoin(kept + fwd);
    out := out + CRLF;
    assert Join(kept + fwd) + CRLF + CRLF == Join(kept + fwd) + BLANK;
    out := out + head[end + 4..];
  }

  lemma TerminatedOne(out: seq<Byte>, l: seq<Byte>)
    ensures out + Terminated([l]) == out + l + CRLF
  {
    assert Terminated([l]) == l + CRLF;
    Assoc(out, l, CRLF);
  }

  lemma {:induction false} KeptShape(ls: seq<seq<Byte>>)
    requires AllNoCrlf(ls)
    ensures AllNoCrlf(Kept(ls))
    ensures forall i :: 0 <= i < |Kept(ls)| ==> !IsForwarded(Kept(ls)[i])
    ensures RestNonEmpty(ls) ==> RestNonEmpty(Kept(ls))
    ensures (forall i :: 0 <= i < |ls| ==> ls[i] != []) ==> forall i :: 0 <= i < |Kept(ls)| ==> Kept(ls)[i] != []
  {
    if ls != [] {
      KeptShape(ls[1..]);
      if RestNonEmpty(ls) {
        forall i | 0 <= i < |ls[1..]|
          ensures ls[1..][i] != []
        {
          assert ls[1..][i] == ls[i + 1];
        }
      }
    }
  }

  lemma NoLfNoCrlf(a: seq<Byte>)
    requires NoLf(a)
    ensures NoCrlf(a)
  {
  }

  /** An ASCII header name that starts with `x-forwarded-` in any case. */
  predicate HeaderName(name: string)
  {
    && |name| >= |FORWARDED_PREFIX|
    && (forall i :: 0 <= i < |name| ==> name[i] != '\n' && name[i] as int < 128)
    && name[|name| - 1] == ' '
    && forall i :: 0 <= i < |FORWARDED_PREFIX| ==> Lower((name[i] as int) % 256) == FORWARDED_PREFIX[i] as int
  }

  lemma LineShape(name: string, value: seq<Byte>)
    requires HeaderName(name)
    ensures (NoCrlf(Ascii(name) + value) <==> NoCrlf(value)) && IsForwarded(Ascii(name) + value)
  {
    AsciiName(name);
    AfterName(Ascii(name), value);
  }

  lemma AsciiName(name: string)
    requires HeaderName(name)
    ensures |Ascii(name)| == |name| && NoLf(Ascii(name)) && Ascii(name)[|name| - 1] == 32
  {
  }

  /** A CRLF after a name that ends in a space is one of the value. */
  lemma AfterName(name: seq<Byte>, value: seq<Byte>)
    requires NoLf(name) && name != [] && name[|name| - 1] == 32
    ensures NoCrlf(name + value) <==> NoCrlf(value)
  {
    var line := name + value;
    if NoCrlf(line) {
      forall i | 0 <= i < |value| - 1
        ensures !(value[i] == 13 && value[i + 1] == 10)
      {
        assert value[i] == line[|name| + i] && value[i + 1] == line[|name| + i + 1];
      }
    }
  }

  lemma ForName()
    ensures HeaderName("X-Forwarded-For: ")
  {
  }

  lemma ForLineShape(v: seq<Byte>)
    ensures (NoCrlf(ForLine(v)) <==> NoCrlf(v)) && IsForwarded(ForLine(v))
  {
    ForName();
    LineShape("X-Forwarded-For: ", v);
  }

  lemma ProtoName()
    ensures HeaderName("X-Forwarded-Proto: ")
  {
  }

  lemma ProtoLineShape(v: seq<Byte>)
    ensures (NoCrlf(ProtoLine(v)) <==> NoCrlf(v)) && IsForwarded(ProtoLine(v))
  {
    ProtoName();
    LineShape("X-Forwarded-Proto: ", v);
  }

  lemma HostName()
    ensures HeaderName("X-Forwarded-Host: ")
  {
  }

  lemma HostLineShape(v: seq<Byte>)
    ensures (NoCrlf(HostLine(v)) <==> NoCrlf(v)) && IsForwarded(HostLine(v))
  {
    HostName();
    LineShape("X-Forwarded-Host: ", v);
  }

  /** Our three lines hold no CRLF when their values hold none. */
  lemma ForwardedLinesShape(ip: seq<Byte>, scheme: seq<Byte>, host: seq<Byte>)
    requires NoCrlf(ip) && NoCrlf(scheme) && NoCrlf(host)
    ensures var f := ForwardedLines(ip, scheme, host);
      AllNoCrlf(f) && (forall i :: 0 <= i < 3 ==> f[i] != [] && IsForwarded(f[i]))
  {
    ForLineShape(ip);
    ProtoLineShape(scheme);
    HostLineShape(host);
  }

  /** The rewritten head parses as intended: its first blank line ends a block whose lines are
      the original ones minus every `X-Forwarded-*`, in order, followed by exactly ours, and
      the bytes after the blank line are unchanged. */
  lemma RewrittenBlock(head: seq<Byte>, end: nat, ip: seq<Byte>, scheme: seq<Byte>, host: seq<Byte>, out: seq<Byte>)
    requires IsFirst(head, BLANK, end)
    requires NoCrlf(ip) && NoCrlf(scheme) && NoCrlf(host)
    requires out == Join(NewLines(head[..end], ip, scheme, host)) + BLANK + head[end + 4..]
    ensures var e := |Join(NewLines(head[..end], ip, scheme, host))|;
      && IsFirst(out, BLANK, e)
      && Lines(out[..e]) == Kept(Lines(head[..end])) + ForwardedLines(ip, scheme, host)
      && out[e + 4..] == head[end + 4..]
  {
    var text := head[..end];
    var ls := NewLines(text, ip, scheme, host);
    NewLinesShape(head, end, ip, scheme, host);
    LinesOfJoin(ls);
    JoinNoEarlyBlank(ls);
    var j := Join(ls);
    Middle(j, BLANK, head[end + 4..]);
    assert out[..|j|] == j;
    forall k | 0 <= k < |j|
      ensures !OccursAt(out, BLANK, k)
    {
      Within(j + BLANK, out, k);
    }
  }

  /** `out` is `head`, whose blank line is at `end`, with its forwarding lines replaced by ours. */
  ghost predicate Rewrites(head: seq<Byte>, end: nat, ip: seq<Byte>, scheme: seq<Byte>, host: seq<Byte>, out: seq<Byte>)
    requires end + 4 <= |head|
  {
    exists e: nat ::
      && IsFirst(out, BLANK, e)
      && Lines(out[..e]) == Kept(Lines(head[..end])) + OurLines(ip, scheme, host)
      && out[e + 4..] == head[end + 4..]
  }

  /** The client's address, the scheme it came by and the host it asked for, each under its name. */
  function OurLines(ip: seq<Byte>, scheme: seq<Byte>, host: seq<Byte>): seq<seq<Byte>>
  {
    [Ascii("X-Forwarded-For: ") + ip, Ascii("X-Forwarded-Proto: ") + scheme, Ascii("X-Forwarded-Host: ") + host]
  }

  /** The rewriting is as intended exactly if the host holds no CRLF; a bare line feed breaks nothing. */
  lemma RewritesIff(head: seq<Byte>, end: nat, ip: seq<Byte>, scheme: seq<Byte>, host: seq<Byte>, out: seq<Byte>)
    requires IsFirst(head, BLANK, end)
    requires NoCrlf(ip) && NoCrlf(scheme)
    requires out == Join(NewLines(head[..end], ip, scheme, host)) + BLANK + head[end + 4..]
    ensures Rewrites(head, end, ip, scheme, host, out) <==> NoCrlf(host)
  {
    if NoCrlf(host) {
      RewrittenBlock(head, end, ip, scheme, host, out);
      assert IsFirst(out, BLANK, |Join(NewLines(head[..end], ip, scheme, host))|);
    }
    if Rewrites(head, end, ip, scheme, host, out) {
      var e: nat :| IsFirst(out, BLANK, e)
        && Lines(out[..e]) == Kept(Lines(head[..end])) + ForwardedLines(ip, scheme, host)
        && out[e + 4..] == head[end + 4..];
      HostSplits(out[..e], Kept(Lines(head[..end])), ip, scheme, host);
    }
  }

  /** A host with a CRLF is never a line of its own. */
  lemma HostSplits(text: seq<Byte>, kept: seq<seq<Byte>>, ip: seq<Byte>, scheme: seq<Byte>, host: seq<Byte>)
    requires Lines(text) == kept + ForwardedLines(ip, scheme, host)
    ensures NoCrlf(host)
  {
    JoinOfLines(text);
    assert Lines(text)[|kept| + 2] == HostLine(host);
    HostLineShape(host);
  }

  lemma Within(a: seq<Byte>, h: seq<Byte>, k: nat)
    requires a <= h && k + 4 <= |a|
    ensures OccursAt(a, BLANK, k) <==> OccursAt(h, BLANK, k)
  {
    assert a[k..k + 4] == h[k..k + 4];
  }

  lemma NewLinesShape(head: seq<Byte>, end: nat, ip: seq<Byte>, scheme: seq<Byte>, host: seq<Byte>)
    requires IsFirst(head, BLANK, end)
    requires NoCrlf(ip) && NoCrlf(scheme) && NoCrlf(host)
    ensures var ls := NewLines(head[..end], ip, scheme, host); AllNoCrlf(ls) && RestNonEmpty(ls)
  {
    var text := head[..end];
    assert head[..end + 4] == text + BLANK;
    forall k | 0 <= k < |text|
      ensures !OccursAt(text + BLANK, BLANK, k)
    {
      Within(text + BLANK, head, k);
    }
    HeadLinesNonEmpty(text);
    JoinOfLines(text);
    KeptShape(Lines(text));
    ForwardedLinesShape(ip, scheme, host);
  }

  /** Rewriting settles: no client-supplied `X-Forwarded-*` line survives, and rewriting the
      result again with the same values changes nothing. */
  lemma RewriteSettles(text: seq<Byte>, ip: seq<Byte>, scheme: seq<Byte>, host: seq<Byte>)
    requires NoCrlf(ip) && NoCrlf(scheme) && NoCrlf(host)
    ensures var ls := NewLines(text, ip, scheme, host);
      Kept(ls) == Kept(Lines(text)) && NewLines(Join(ls), ip, scheme, host) == ls
  {
    var kept, fwd := Kept(Lines(text)), ForwardedLines(ip, scheme, host);
    JoinOfLines(text);
    KeptShape(Lines(text));
    ForwardedLinesShape(ip, scheme, host);
    KeptAppend(kept, fwd);
    KeptSame(kept);
    KeptNone(fwd);
    LinesOfJoin(kept + fwd);
  }

  lemma {:induction false} KeptSame(ls: seq<seq<Byte>>)
    requires forall i :: 0 <= i < |ls| ==> !IsForwarded(ls[i])
    ensures Kept(ls) == ls
  {
    if ls != [] {
      KeptSame(ls[1..]);
    }
  }

  lemma {:induction false} KeptNone(ls: seq<seq<Byte>>)
    requires forall i :: 0 <= i < |ls| ==> IsForwarded(ls[i])
    ensures Kept(ls) == []
  {
    if ls != [] {
      KeptNone(ls[1..]);
    }
  }

  // ------------------------------------------------------------------
  // Reading the rest of the head, and the size of what is replayed
  // ------------------------------------------------------------------

  const HEAD_READ := 2048

  ghost predicate HeadReads(chunks: seq<seq<Byte>>)
  {
    forall i :: 0 <= i < |chunks| ==> 1 <= |chunks[i]| <= HEAD_READ
  }

  /** The read loop of `with_forwarded_headers`: until the head is complete or too long, or the
      stream ends. */
  method ReadHead(head: seq<Byte>, chunks: seq<seq<Byte>>, maxBytes: nat)
    returns (read: seq<Byte>, used: nat, end: Option<nat>)
    requires HeadReads(chunks)
    ensures used <= |chunks| && read == head + Concat(chunks[..used])
    ensures used > 0 ==> |read| < maxBytes + HEAD_READ && forall j: nat :: !OccursAt(head, BLANK, j)
    ensures end.Some? ==> IsFirst(read, BLANK, end.value)
    ensures end.None? ==> (forall j: nat :: !OccursAt(read, BLANK, j)) && (|read| >= maxBytes || used == |chunks|)
  {
    read, used := head, 0;
    assert chunks[..0] == [] && head + [] == head;
    end := FindSubsequence(read, BLANK);
    while end.None? && |read| < maxBytes && used < |chunks|
      invariant used <= |chunks| && read == head + Concat(chunks[..used])
      invariant used > 0 ==> |read| < maxBytes + HEAD_READ && forall j: nat :: !OccursAt(head, BLANK, j)
      invariant end.Some? ==> IsFirst(read, BLANK, end.value)
      invariant end.None? ==> forall j: nat :: !OccursAt(read, BLANK, j)
      invariant used == 0 ==> read == head
    {
      assert chunks[..used + 1][..used] == chunks[..used];
      Assoc(head, Concat(chunks[..used]), chunks[used]);
      read := read + chunks[used];
      used := used + 1;
      end := FindSubsequence(read, BLANK);
    }
  }

  lemma FirstIsUnique(h: seq<Byte>, i: nat, j: nat)
    requires IsFirst(h, BLANK, i) && IsFirst(h, BLANK, j)
    ensures i == j
  {
  }

  /** `with_forwarded_headers`: read on until the head is complete or too long, then rewrite
      it; a head without a blank line or that is not UTF-8 is replayed as it is. */
  method WithForwardedHeaders(head: seq<Byte>, chunks: seq<seq<Byte>>, ip: seq<Byte>, scheme: seq<Byte>,
                              host: seq<Byte>, maxBytes: nat)
    returns (out: seq<Byte>, read: seq<Byte>, used: nat)
    requires HeadReads(chunks)
    ensures used <= |chunks| && read == head + Concat(chunks[..used])
    ensures used > 0 ==> |read| < maxBytes + HEAD_READ
    ensures forall end: nat :: IsFirst(read, BLANK, end) ==>
      out == if Utf8.Valid(read[..end]) then Join(NewLines(read[..end], ip, scheme, host)) + BLANK + read[end + 4..]
             else read
    ensures (forall end: nat :: !IsFirst(read, BLANK, end)) ==> out == read && (|read| >= maxBytes || used == |chunks|)
    ensures (exists end: nat :: IsFirst(head, BLANK, end)) ==> used == 0
    ensures |out| <= |read| + |ip| + |scheme| + |host| + 60
    // With the default head limit, no replay built here is ever clipped by the preamble.
    ensures (maxBytes <= 16384 && |head| <= maxBytes + HEAD_READ && |ip| <= 45 && |scheme| <= 5
             && |host| < MIN_CAP + READ_SIZE) ==> Clipped(out) == out
  {
    var end;
    read, used, end := ReadHead(head, chunks, maxBytes);
    if end.None? {
      return read, read, used;
    }
    forall e: nat | IsFirst(read, BLANK, e)
      ensures e == end.value
    {
      FirstIsUnique(read, e, end.value);
    }
    if !Utf8.Valid(read[..end.value]) {
      return read, read, used;
    }
    out := RewriteHead(read, end.value, ip, scheme, host);
    SizeBound(read, end.value, ip, scheme, host);
  }

  lemma {:induction false} KeptNotLonger(ls: seq<seq<Byte>>)
    ensures |Terminated(Kept(ls))| <= |Terminated(ls)|
  {
    if ls != [] {
      KeptNotLonger(ls[1..]);
      if !IsForwarded(ls[0]) {
        assert Kept(ls)[1..] == Kept(ls[1..]);
      }
    }
  }

  lemma SizeBound(head: seq<Byte>, end: nat, ip: seq<Byte>, scheme: seq<Byte>, host: seq<Byte>)
    requires OccursAt(head, BLANK, end)
    ensures |Join(NewLines(head[..end], ip, scheme, host)) + BLANK + head[end + 4..]|
         <= |head| + |ip| + |scheme| + |host| + 60
  {
    var ls, fwd := Lines(head[..end]), ForwardedLines(ip, scheme, host);
    JoinOfLines(head[..end]);
    TerminatedIsJoin(ls);
    KeptNotLonger(ls);
    TerminatedAppend(Kept(ls), fwd);
    TerminatedIsJoin(Kept(ls) + fwd);
    ThreeLines(ip, scheme, host);
  }

  lemma ThreeLines(ip: seq<Byte>, scheme: seq<Byte>, host: seq<Byte>)
    ensures |Terminated(ForwardedLines(ip, scheme, host))| == |ip| + |scheme| + |host| + 60
  {
    var f := ForwardedLines(ip, scheme, host);
    assert |f[0]| == 17 + |ip| && |f[1]| == 19 + |scheme| && |f[2]| == 18 + |host|;
    assert f[1..][1..] == [f[2]] && f[1..][0] == f[1];
    assert Terminated([f[2]]) == f[2] + CRLF + [];
  }
}
