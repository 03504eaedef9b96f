/**
 * UTF-8 (RFC 3629): str.encode("utf-8") for a string of Unicode scalar values, and the decoder
 * that undoes it. The cache key is computed over these bytes, so the round trip below is what
 * makes distinct questions reach the digest function as distinct inputs.
 */
module Utf8 {

  import opened Wrappers

  type Byte = b: int | 0 <= b < 256

  /** The one to four bytes of one scalar value. */
  function EncodeChar(c: char): (bs: seq<Byte>)
    ensures 1 <= |bs| <= 4
  {
    var n := c as int;
    if n < 0x80 then [n]
    else if n < 0x800 then [0xC0 + n / 0x40, 0x80 + n % 0x40]
    else if n < 0x10000 then [0xE0 + n / 0x1000, 0x80 + (n / 0x40) % 0x40, 0x80 + n % 0x40]
    else [0xF0 + n / 0x40000, 0x80 + (n / 0x1000) % 0x40, 0x80 + (n / 0x40) % 0x40, 0x80 + n % 0x40]
  }

  function Encode(s: string): seq<Byte> {
    if s == [] then [] else EncodeChar(s[0]) + Encode(s[1..])
  }

  predicate IsScalar(n: int) {
    0 <= n < 0xD800 || 0xE000 <= n < 0x110000
  }

  function Cont(b: Byte): int {
    b - 0x80
  }

  /** The scalar value that the bytes start with and the number of bytes it takes, when well formed. */
  function DecodeFirst(bs: seq<Byte>): Option<(char, nat)>
    requires |bs| > 0
  {
    var b0 := bs[0];
    var n :=
      if b0 < 0x80 then (b0, 1)
      else if 0xC0 <= b0 < 0xE0 && |bs| >= 2 then ((b0 - 0xC0) * 0x40 + Cont(bs[1]), 2)
      else if 0xE0 <= b0 < 0xF0 && |bs| >= 3 then ((b0 - 0xE0) * 0x1000 + Cont(bs[1]) * 0x40 + Cont(bs[2]), 3)
      else if 0xF0 <= b0 < 0xF8 && |bs| >= 4 then
        ((b0 - 0xF0) * 0x40000 + Cont(bs[1]) * 0x1000 + Cont(bs[2]) * 0x40 + Cont(bs[3]), 4)
      else (-1, 0);
    if n.1 > 0 && IsScalar(n.0) && forall i :: 1 <= i < n.1 ==> 0x80 <= bs[i] < 0xC0
    then Some((n.0 as char, n.1))
    else None
  }

  function Decode(bs: seq<Byte>): Option<string>
    decreases |bs|
  {
    if bs == [] then Some([])
    else match DecodeFirst(bs)
      case None => None
      case Some((c, len)) =>
        if len > |bs| then None
        else match Decode(bs[len..])
          case None => None
          case Some(rest) => Some([c] + rest)
  }

  lemma DecodeFirstOfEncodeChar(c: char, rest: seq<Byte>)
    ensures DecodeFirst(EncodeChar(c) + rest) == Some((c, |EncodeChar(c)|))
  {
    var n := c as int;
    if n < 0x80 {
    } else if n < 0x800 {
      DecodeTwoBytes(c, rest);
    } else if n < 0x10000 {
      DecodeThreeBytes(c, rest);
    } else {
      DecodeFourBytes(c, rest);
    }
  }

  lemma DecodeTwoBytes(c: char, rest: seq<Byte>)
    requires 0x80 <= c as int < 0x800
    ensures DecodeFirst(EncodeChar(c) + rest) == Some((c, 2))
  {
    var n := c as int;
    var bs := EncodeChar(c) + rest;
    assert bs[0] == 0xC0 + n / 0x40 && bs[1] == 0x80 + n % 0x40;
    assert (n / 0x40) * 0x40 + n % 0x40 == n;
  }

  lemma DecodeThreeBytes(c: char, rest: seq<Byte>)
    requires 0x800 <= c as int < 0x10000
    ensures DecodeFirst(EncodeChar(c) + rest) == Some((c, 3))
  {
    var n := c as int;
    var bs := EncodeChar(c) + rest;
    assert bs[0] == 0xE0 + n / 0x1000 && bs[1] == 0x80 + (n / 0x40) % 0x40 && bs[2] == 0x80 + n % 0x40;
    assert (n / 0x1000) * 0x40 + (n / 0x40) % 0x40 == n / 0x40;
    assert (n / 0x40) * 0x40 + n % 0x40 == n;
  }

  lemma DecodeFourBytes(c: char, rest: seq<Byte>)
    requires 0x10000 <= c as int
    ensures DecodeFirst(EncodeChar(c) + rest) == Some((c, 4))
  {
    var n := c as int;
    var bs := EncodeChar(c) + rest;
    assert bs[0] == 0xF0 + n / 0x40000 && bs[1] == 0x80 + (n / 0x1000) % 0x40;
    assert bs[2] == 0x80 + (n / 0x40) % 0x40 && bs[3] == 0x80 + n % 0x40;
    assert (n / 0x40000) * 0x40 + (n / 0x1000) % 0x40 == n / 0x1000;
    assert (n / 0x1000) * 0x40 + (n / 0x40) % 0x40 == n / 0x40;
    assert (n / 0x40) * 0x40 + n % 0x40 == n;
  }

  /** Decoding undoes encoding. */
  lemma {:induction false} DecodeEncode(s: string)
    ensures Decode(Encode(s)) == Some(s)
  {
    if s != [] {
      var e := EncodeChar(s[0]);
      DecodeFirstOfEncodeChar(s[0], Encode(s[1..]));
      assert (e + Encode(s[1..]))[|e|..] == Encode(s[1..]);
      DecodeEncode(s[1..]);
      assert [s[0]] + s[1..] == s;
    }
  }

  /** Hence distinct strings have distinct encodings. */
  lemma EncodeInjective(s: string, t: string)
    ensures Encode(s) == Encode(t) ==> s == t
  {
    DecodeEncode(s);
    DecodeEncode(t);
  }
}
