/** `std::str::from_utf8` as a predicate on bytes (table 3-7 of the Unicode standard). */
module Utf8 {
  import opened Bytes

  predicate Continuation(s: seq<Byte>, i: nat)
  {
    i < |s| && 0x80 <= s[i] <= 0xBF
  }

  /** The length of the well-formed code point at the front of `s`, or 0 if there is none. */
  function CodePoint(s: seq<Byte>): (n: nat)
    ensures n <= |s| && n <= 4
  {
    if s == [] then 0
    else
      var b := s[0];
      if b < 0x80 then 1
      else if 0xC2 <= b <= 0xDF then (if Continuation(s, 1) then 2 else 0)
      else if 0xE0 <= b <= 0xEF then
        if Continuation(s, 1) && Continuation(s, 2)
           && (b == 0xE0 ==> s[1] >= 0xA0) && (b == 0xED ==> s[1] <= 0x9F)
        then 3 else 0
      else if 0xF0 <= b <= 0xF4 then
        if Continuation(s, 1) && Continuation(s, 2) && Continuation(s, 3)
           && (b == 0xF0 ==> s[1] >= 0x90) && (b == 0xF4 ==> s[1] <= 0x8F)
        then 4 else 0
      else 0
  }

  predicate Valid(s: seq<Byte>)
    decreases |s|
  {
    s == [] || (CodePoint(s) > 0 && Valid(s[CodePoint(s)..]))
  }

  lemma {:induction false} AsciiIsValid(s: seq<Byte>)
    requires forall i :: 0 <= i < |s| ==> s[i] < 0x80
    ensures Valid(s)
  {
    if s != [] {
      assert CodePoint(s) == 1;
      AsciiIsValid(s[1..]);
    }
  }

  // ------------------------------------------------------------------
  // Valid is: an encoding of scalar values
  // ------------------------------------------------------------------

  /** A Unicode scalar value: a code point that is no surrogate. */
  predicate Scalar(c: int)
  {
    0 <= c <= 0x10FFFF && !(0xD800 <= c <= 0xDFFF)
  }

  /** UTF-8 (table 3-6 of the Unicode standard). */
  function Encode(c: int): seq<Byte>
    requires Scalar(c)
  {
    if c < 0x80 then [c]
    else if c < 0x800 then [0xC0 + c / 64, 0x80 + c % 64]
    else if c < 0x10000 then [0xE0 + c / 4096, 0x80 + c / 64 % 64, 0x80 + c % 64]
    else [0xF0 + c / 262144, 0x80 + c / 4096 % 64, 0x80 + c / 64 % 64, 0x80 + c % 64]
  }

  function EncodeAll(cs: seq<int>): seq<Byte>
    requires forall i :: 0 <= i < |cs| ==> Scalar(cs[i])
  {
    if cs == [] then [] else Encode(cs[0]) + EncodeAll(cs[1..])
  }

  lemma FrontEncodes(c: int, rest: seq<Byte>)
    requires Scalar(c)
    ensures CodePoint(Encode(c) + rest) == |Encode(c)|
  {
    var s := Encode(c) + rest;
    assert s[0] == Encode(c)[0];
    assert |Encode(c)| >= 2 ==> s[1] == Encode(c)[1];
    assert |Encode(c)| >= 3 ==> s[2] == Encode(c)[2];
    assert |Encode(c)| >= 4 ==> s[3] == Encode(c)[3];
  }

  function Minus(b: int, base: int): int
  {
    b - base
  }

  /** The value that the code point at the front stands for. */
  function Decode(s: seq<Byte>): int
    requires CodePoint(s) > 0
  {
    match CodePoint(s)
    case 1 => s[0]
    case 2 => 64 * Minus(s[0], 0xC0) + Minus(s[1], 0x80)
    case 3 => 4096 * Minus(s[0], 0xE0) + 64 * Minus(s[1], 0x80) + Minus(s[2], 0x80)
    case _ => 262144 * Minus(s[0], 0xF0) + 4096 * Minus(s[1], 0x80) + 64 * Minus(s[2], 0x80) + Minus(s[3], 0x80)
  }

  lemma Digits(a: int, b: int, c: int, d: int)
    requires 0 <= a && 0 <= b < 64 && 0 <= c < 64 && 0 <= d < 64
    ensures var n := 262144 * a + 4096 * b + 64 * c + d;
      n / 262144 == a && n / 4096 % 64 == b && n / 64 % 64 == c && n % 64 == d
  {
    var n := 262144 * a + 4096 * b + 64 * c + d;
    assert n / 64 == 4096 * a + 64 * b + c;
    assert n / 4096 == 64 * a + b;
  }

  lemma TwoDecode(s: seq<Byte>)
    requires CodePoint(s) == 2
    ensures Scalar(Decode(s)) && s[..2] == Encode(Decode(s))
  {
    Digits(0, 0, Minus(s[0], 0xC0), Minus(s[1], 0x80));
  }

  lemma ThreeDecode(s: seq<Byte>)
    requires CodePoint(s) == 3
    ensures Scalar(Decode(s)) && s[..3] == Encode(Decode(s))
  {
    Digits(0, Minus(s[0], 0xE0), Minus(s[1], 0x80), Minus(s[2], 0x80));
  }

  lemma FourDecode(s: seq<Byte>)
    requires CodePoint(s) == 4
    ensures Scalar(Decode(s)) && s[..4] == Encode(Decode(s))
  {
    Digits(Minus(s[0], 0xF0), Minus(s[1], 0x80), Minus(s[2], 0x80), Minus(s[3], 0x80));
  }

  lemma FrontDecodes(s: seq<Byte>)
    requires CodePoint(s) > 0
    ensures Scalar(Decode(s)) && s[..CodePoint(s)] == Encode(Decode(s))
  {
    match CodePoint(s) {
      case 1 =>
      case 2 => TwoDecode(s);
      case 3 => ThreeDecode(s);
      case _ => FourDecode(s);
    }
  }

  lemma {:induction false} EncodedIsValid(cs: seq<int>)
    requires forall i :: 0 <= i < |cs| ==> Scalar(cs[i])
    ensures Valid(EncodeAll(cs))
  {
    if cs != [] {
      FrontEncodes(cs[0], EncodeAll(cs[1..]));
      EncodedIsValid(cs[1..]);
      var s := EncodeAll(cs);
      assert s[|Encode(cs[0])|..] == EncodeAll(cs[1..]);
    }
  }

  lemma {:induction false} ValidIsEncoded(s: seq<Byte>) returns (cs: seq<int>)
    requires Valid(s)
    ensures forall i :: 0 <= i < |cs| ==> Scalar(cs[i])
    ensures EncodeAll(cs) == s
    decreases |s|
  {
    if s == [] {
      cs := [];
    } else {
      FrontDecodes(s);
      var more := ValidIsEncoded(s[CodePoint(s)..]);
      cs := [Decode(s)] + more;
      assert cs[1..] == more;
    }
  }

  /** Bytes are valid exactly if they are the encoding of some sequence of scalar values. */
  lemma ValidIff(s: seq<Byte>)
    ensures Valid(s) <==> exists cs :: (forall i :: 0 <= i < |cs| ==> Scalar(cs[i])) && EncodeAll(cs) == s
  {
    if Valid(s) {
      var cs := ValidIsEncoded(s);
      assert EncodeAll(cs) == s;
    }
    if cs :| (forall i :: 0 <= i < |cs| ==> Scalar(cs[i])) && EncodeAll(cs) == s {
      EncodedIsValid(cs);
    }
  }
}
