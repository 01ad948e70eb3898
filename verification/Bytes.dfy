/** Bytes, big-endian 16-bit integers, and the byte stream the wire readers consume. */
module Bytes {

  type Byte = b: int | 0 <= b < 256

  type U16 = n: int | 0 <= n < 65536

  const U16_MAX := 65535

  function Min(a: nat, b: nat): (m: nat)
  {
    if a <= b then a else b
  }

  /** The bytes that a u16 length field can announce. */
  function Clipped(s: seq<Byte>): seq<Byte>
  {
    s[..Min(|s|, U16_MAX)]
  }

  /** `n.to_be_bytes()` */
  function PutU16(n: U16): (s: seq<Byte>)
  {
    [n / 256, n % 256]
  }

  /** `u16::from_be_bytes([hi, lo])` */
  function GetU16(hi: Byte, lo: Byte): (n: U16)
  {
    256 * hi + lo
  }

  /** `GetU16` and `PutU16` are inverse to each other. */
  lemma BigEndianInverse(n: U16, hi: Byte, lo: Byte)
    ensures GetU16(PutU16(n)[0], PutU16(n)[1]) == n
    ensures PutU16(GetU16(hi, lo)) == [hi, lo]
  {
    var m: int := 256 * hi + lo;
    assert m / 256 == hi && m % 256 == lo;
  }

  lemma Assoc<T>(a: seq<T>, b: seq<T>, c: seq<T>)
    ensures a + (b + c) == a + b + c
  {
  }

  lemma Split<T>(s: seq<T>, n: nat)
    requires n <= |s|
    ensures s == s[..n] + s[n..]
  {
  }

  lemma Drop<T>(s: seq<T>, m: nat, n: nat)
    requires m + n <= |s|
    ensures s[m..] == s[m..m + n] + s[m + n..]
  {
  }

  lemma Middle<T>(a: seq<T>, b: seq<T>, c: seq<T>)
    ensures (a + b + c)[|a|..|a| + |b|] == b
    ensures (a + b + c)[|a| + |b|..] == c
  {
  }

  lemma FourPieces<T>(s: seq<T>, i: nat, j: nat, k: nat)
    requires i <= j <= k <= |s|
    ensures s == s[..i] + s[i..j] + s[j..k] + s[k..]
  {
    Split(s, i);
    Drop(s, i, j - i);
    Drop(s, j, k - j);
    Assoc(s[..i], s[i..j], s[j..]);
    Assoc(s[..i] + s[i..j], s[j..k], s[k..]);
  }

  lemma Pair(s: seq<Byte>, m: nat)
    requires m + 2 <= |s|
    ensures s[m..m + 2] == PutU16(GetU16(s[m], s[m + 1]))
  {
    var hi, lo := s[m], s[m + 1];
    BigEndianInverse(0, hi, lo);
    PairOf(s, m);
  }

  lemma PairOf<T>(s: seq<T>, m: nat)
    requires m + 2 <= |s|
    ensures s[m..m + 2] == [s[m], s[m + 1]]
  {
  }

  /** What is left of a reader (`AsyncRead`): the bytes not yet consumed. Chunk boundaries
      do not show, because every read below is a `read_exact`. */
  class ByteStream {
    var rest: seq<Byte>

    constructor (data: seq<Byte>)
      ensures rest == data
    {
      rest := data;
    }

    /** `read_exact`: all `n` bytes, or `UnexpectedEof` with the stream drained. */
    method ReadExact(n: nat) returns (ok: bool, bytes: seq<Byte>)
      modifies this
      ensures ok == (n <= |old(rest)|)
      ensures ok ==> bytes == old(rest)[..n] && rest == old(rest)[n..]
      ensures !ok ==> bytes == [] && rest == []
    {
      ok := n <= |rest|;
      if ok {
        bytes, rest := rest[..n], rest[n..];
      } else {
        bytes, rest := [], [];
      }
    }
  }
}
