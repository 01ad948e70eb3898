/** Which name the plain-HTTP port looks up: the Host header of a request, read back. */
module HostNames {
  import opened Bytes
  import opened Options
  import opened Passthrough
  import opened Forwarded
  import opened HttpPaths
  import Utf8

  /** A name in lower case, of visible ASCII without a colon, that does not end in a dot. */
  ghost predicate PlainName(name: seq<Byte>)
  {
    && name != [] && name[|name| - 1] != DOT
    && forall i :: 0 <= i < |name| ==> 33 <= name[i] <= 126 && name[i] != COLON && !(65 <= name[i] <= 90)
  }

  /** The name, written in whatever mix of cases. */
  ghost predicate Writes(written: seq<Byte>, name: seq<Byte>)
  {
    |written| == |name| && forall i :: 0 <= i < |name| ==> Lower(written[i]) == name[i]
  }

  ghost predicate AllDots(dots: seq<Byte>)
  {
    forall i :: 0 <= i < |dots| ==> dots[i] == DOT
  }

  lemma {:induction false} FirstAfter(s: seq<Byte>, b: Byte, more: seq<Byte>)
    requires b !in s
    ensures FirstOf(s, b) == |s| && FirstOf(s + [b] + more, b) == |s|
  {
    if s != [] {
      assert (s + [b] + more)[1..] == s[1..] + [b] + more;
      FirstAfter(s[1..], b, more);
    }
  }

  /** No white space begins or ends with a visible ASCII character. */
  lemma VisibleIsNoSpace(c: seq<Byte>)
    requires c != [] && (33 <= c[0] <= 126 || 33 <= c[|c| - 1] <= 126)
    ensures !IsSpace(c)
  {
    if |c| == 3 {
      assert c[..2][0] == c[0];
    }
  }

  lemma VisibleStart(s: seq<Byte>)
    requires s != [] && 33 <= s[0] <= 126
    ensures LeadingSpace(s) == 0
  {
    forall n | 1 <= n <= |s|
      ensures !IsSpace(s[..n])
    {
      assert s[..n][0] == s[0];
      VisibleIsNoSpace(s[..n]);
    }
  }

  lemma VisibleEnd(s: seq<Byte>)
    requires s != [] && 33 <= s[|s| - 1] <= 126
    ensures TrailingSpace(s) == 0
  {
    forall n | 0 <= n < |s|
      ensures !IsSpace(s[n..])
    {
      assert s[n..][|s| - n - 1] == s[|s| - 1];
      VisibleIsNoSpace(s[n..]);
    }
  }

  /** Visible ASCII at both ends: there is nothing to trim. */
  lemma NothingToTrim(s: seq<Byte>)
    requires s != [] && 33 <= s[0] <= 126 && 33 <= s[|s| - 1] <= 126
    ensures Trim(s) == s
  {
    VisibleStart(s);
    VisibleEnd(s);
  }

  lemma {:induction false} DotsGo(s: seq<Byte>, dots: seq<Byte>)
    requires s != [] && s[|s| - 1] != DOT && AllDots(dots)
    ensures TrimDots(s + dots) == s
  {
    if dots == [] {
      assert s + dots == s;
    } else {
      assert (s + dots)[..|s + dots| - 1] == s + dots[..|dots| - 1];
      DotsGo(s, dots[..|dots| - 1]);
    }
  }

  lemma LowerGivesBack(written: seq<Byte>, name: seq<Byte>)
    requires Writes(written, name)
    ensures LowerAll(written) == name
  {
  }

  /** Whatever its case, and with any trailing dots and any port, a plain name is looked up as it is. */
  lemma LooksUp(written: seq<Byte>, name: seq<Byte>, dots: seq<Byte>, port: seq<Byte>)
    requires PlainName(name) && Writes(written, name) && AllDots(dots)
    ensures Hostname(written + dots) == name && Hostname(written + dots + [COLON] + port) == name
  {
    var s := written + dots;
    WrittenIsVisible(written, name);
    FirstAfter(s, COLON, port);
    assert s[..|s|] == s && (s + [COLON] + port)[..|s|] == s;
    NothingToTrim(s);
    DotsGo(written, dots);
    LowerGivesBack(written, name);
  }

  /** In capitals, for one. */
  lemma CapitalsWrite(name: seq<Byte>)
    requires PlainName(name)
    ensures Writes(seq(|name|, i requires 0 <= i < |name| => if 97 <= name[i] <= 122 then name[i] - 32 else name[i]), name)
  {
  }

  lemma WrittenIsVisible(written: seq<Byte>, name: seq<Byte>)
    requires PlainName(name) && Writes(written, name)
    ensures written != [] && written[|written| - 1] != DOT
    ensures forall i :: 0 <= i < |written| ==> 33 <= written[i] <= 126 && written[i] != COLON
  {
    forall i | 0 <= i < |written|
      ensures 33 <= written[i] <= 126 && written[i] != COLON && (written[i] == DOT ==> name[i] == DOT)
    {
      assert Lower(written[i]) == name[i];
    }
  }

  // ------------------------------------------------------------------
  // The Host line
  // ------------------------------------------------------------------

  /** `host:`, in whatever mix of cases. */
  ghost predicate HostKey(key: seq<Byte>)
  {
    LowerAll(key) == Ascii("host:")
  }

  lemma HostLineAt(key: seq<Byte>, value: seq<Byte>)
    requires HostKey(key)
    ensures |key| == 5 && IsHostLine(key + [32] + value) && (key + [32] + value)[5..] == [32] + value
  {
    assert |Ascii("host:")| == 5;
    assert (key + [32] + value)[..5] == key;
  }

  lemma SpaceGoes(value: seq<Byte>)
    requires value != [] && 33 <= value[0] <= 126 && 33 <= value[|value| - 1] <= 126
    ensures Trim([32] + value) == value
  {
    var s := [32] + value;
    assert s[..1] == [32] && LeadingSpace(s) == 1 && s[1..] == value;
    NothingToTrim(value);
    VisibleStart(value);
  }

  ghost predicate Visible(value: seq<Byte>)
  {
    value != [] && forall i :: 0 <= i < |value| ==> 33 <= value[i] <= 126
  }

  /** A Host line gives its value. */
  lemma HostLineFound(key: seq<Byte>, value: seq<Byte>, rest: seq<Byte>)
    requires HostKey(key) && Visible(value)
    ensures HostValue(key + [32] + value + [13] + [LF] + rest) == Some(value)
  {
    var line := key + [32] + value;
    HostLineAt(key, value);
    KeyHasNoLf(key);
    FirstAfter(line + [13], LF, rest);
    var s := line + [13] + [LF] + rest;
    assert s[..|line| + 1] == line + [13];
    assert WithoutCr(line + [13]) == line;
    Utf8.AsciiIsValid([32] + value);
    SpaceGoes(value);
  }

  lemma KeyHasNoLf(key: seq<Byte>)
    requires HostKey(key)
    ensures LF !in key
  {
    forall i | 0 <= i < |key|
      ensures key[i] != LF
    {
      assert LowerAll(key)[i] == Ascii("host:")[i];
    }
  }

  /** Lines that are not Host lines, each ended by CRLF. */
  ghost predicate OtherLines(lines: seq<seq<Byte>>)
  {
    forall i :: 0 <= i < |lines| ==> LF !in lines[i] && !IsHostLine(lines[i])
  }

  /** The name in the first Host line of a request is the one looked up, whatever stands before and
      after it, in whatever case, with or without a port and a trailing dot. */
  lemma {:induction false} FindsHost(lines: seq<seq<Byte>>, key: seq<Byte>, value: seq<Byte>, rest: seq<Byte>)
    requires OtherLines(lines) && HostKey(key) && Visible(value)
    ensures HostValue(Terminated(lines) + (key + [32] + value + [13] + [LF] + rest)) == Some(value)
  {
    var tail := key + [32] + value + [13] + [LF] + rest;
    if lines == [] {
      assert Terminated(lines) + tail == tail;
      HostLineFound(key, value, rest);
    } else {
      var l := lines[0];
      FindsHost(lines[1..], key, value, rest);
      SkipLine(l, Terminated(lines[1..]) + tail);
      Assoc(l + CRLF, Terminated(lines[1..]), tail);
    }
  }

  lemma SkipLine(l: seq<Byte>, more: seq<Byte>)
    requires LF !in l && !IsHostLine(l)
    ensures HostValue(l + CRLF + more) == HostValue(more)
  {
    var s := l + CRLF + more;
    assert s == (l + [13]) + [LF] + more;
    FirstAfter(l + [13], LF, more);
    assert s[..|l| + 1] == l + [13] && s[|l| + 2..] == more;
    assert WithoutCr(l + [13]) == l;
  }

  /** So a client that names a plain host, with or without a port and trailing dots, reaches it. */
  lemma RequestLooksUp(lines: seq<seq<Byte>>, key: seq<Byte>, written: seq<Byte>, name: seq<Byte>, dots: seq<Byte>,
                       port: seq<Byte>, rest: seq<Byte>)
    requires OtherLines(lines) && HostKey(key) && PlainName(name) && Writes(written, name) && AllDots(dots)
    requires port == [] || (port[0] == COLON && Visible(port))
    ensures var found := HostValue(Terminated(lines) + (key + [32] + (written + dots + port) + [13] + [LF] + rest));
      found.Some? && Hostname(found.value) == name
  {
    AnyPort(written, name, dots, port);
    FindsHost(lines, key, written + dots + port, rest);
  }

  lemma VisibleJoin(a: seq<Byte>, b: seq<Byte>)
    requires Visible(a) && (b == [] || Visible(b))
    ensures Visible(a + b)
  {
  }

  lemma AnyPort(written: seq<Byte>, name: seq<Byte>, dots: seq<Byte>, port: seq<Byte>)
    requires PlainName(name) && Writes(written, name) && AllDots(dots)
    requires port == [] || (port[0] == COLON && Visible(port))
    ensures Visible(written + dots + port) && Hostname(written + dots + port) == name
  {
    WrittenIsVisible(written, name);
    VisibleJoin(written, dots);
    VisibleJoin(written + dots, port);
    if port == [] {
      LooksUp(written, name, dots, []);
      assert written + dots + port == written + dots;
    } else {
      LooksUp(written, name, dots, port[1..]);
      Assoc(written + dots, [COLON], port[1..]);
      assert [COLON] + port[1..] == port;
    }
  }

  // ------------------------------------------------------------------
  // Certificate challenges
  // ------------------------------------------------------------------

  /** A complete request line is for a certificate challenge exactly if its path starts with the
      challenge prefix and goes on in UTF-8. */
  lemma ChallengeIff(verb: seq<Byte>, path: seq<Byte>, version: seq<Byte>, rest: seq<Byte>)
    requires 32 !in verb && 32 !in path && NoCrlf(verb + [32] + path + [32] + version)
    ensures IsChallenge(verb + [32] + path + [32] + version + CRLF + rest)
      <==> Ascii(ACME_PREFIX) <= path && Utf8.Valid(path[|ACME_PREFIX|..])
  {
    var line := verb + [32] + path + [32] + version;
    FirstCrlfAfter(line, rest);
    assert (line + CRLF + rest)[..|line|] == line;
    FirstAfter(verb, 32, path + [32] + version);
    assert line == verb + [32] + (path + [32] + version);
    assert line[|verb| + 1..] == path + [32] + version;
    FirstAfter(path, 32, version);
    assert (path + [32] + version)[..|path|] == path;
    PrefixMeans(path);
  }

  lemma PrefixMeans(path: seq<Byte>)
    ensures IsChallengePath(path) <==> Ascii(ACME_PREFIX) <= path && Utf8.Valid(path[|ACME_PREFIX|..])
  {
    var prefix := Ascii(ACME_PREFIX);
    assert |prefix| == |ACME_PREFIX|;
    forall i | 0 <= i < |ACME_PREFIX|
      ensures prefix[i] == ACME_PREFIX[i] as int
    {
      assert ACME_PREFIX[i] in "/.well-knowacmhg";
    }
  }
}
