/** Decoding and encoding of UTF-8 as the Go library does it (section 3 of RFC 3629). */
module Utf8 {

  type Byte = b: int | 0 <= b < 256

  type Rune = r: int | 0 <= r < 0x11_0000

  const RUNE_ERROR: Rune := 0xFFFD

  /** A rune that is not half of a surrogate pair. */
  predicate Scalar(r: Rune) { !(0xD800 <= r < 0xE000) }

  predicate Tail(b: Byte) { 0x80 <= b < 0xC0 }

  /** The six bits a continuation byte carries. */
  function Bits(b: Byte): int { (b as int) - 0x80 }

  /** The second byte's range, which shuts out overlong forms, surrogates and what lies beyond. */
  predicate Second(b0: Byte, b1: Byte) {
    && Tail(b1)
    && (b0 == 0xE0 ==> b1 >= 0xA0) && (b0 == 0xED ==> b1 < 0xA0)
    && (b0 == 0xF0 ==> b1 >= 0x90) && (b0 == 0xF4 ==> b1 < 0x90)
  }

  /** The rune at the head of s and its length; a byte that starts none is an error of length 1. */
  function Decode(s: seq<Byte>): (d: (Rune, nat))
    requires |s| > 0
    ensures 1 <= d.1 <= |s| && Scalar(d.0)
  {
    var b0: int := s[0];
    if b0 < 0x80 then (b0, 1)
    else if 0xC2 <= b0 < 0xE0 && |s| > 1 && Tail(s[1]) then ((b0 - 0xC0) * 64 + Bits(s[1]), 2)
    else if 0xE0 <= b0 < 0xF0 && |s| > 2 && Second(b0, s[1]) && Tail(s[2]) then
      ((b0 - 0xE0) * 4096 + Bits(s[1]) * 64 + Bits(s[2]), 3)
    else if 0xF0 <= b0 < 0xF5 && |s| > 3 && Second(b0, s[1]) && Tail(s[2]) && Tail(s[3]) then
      ((b0 - 0xF0) * 262144 + Bits(s[1]) * 4096 + Bits(s[2]) * 64 + Bits(s[3]), 4)
    else (RUNE_ERROR, 1)
  }

  function Encode(r: Rune): (s: seq<Byte>)
    ensures 1 <= |s| <= 4
  {
    if r < 0x80 then [r]
    else if r < 0x800 then [0xC0 + r / 64, 0x80 + r % 64]
    else if !Scalar(r) then [0xEF, 0xBF, 0xBD]
    else if r < 0x1_0000 then [0xE0 + r / 4096, 0x80 + r / 64 % 64, 0x80 + r % 64]
    else [0xF0 + r / 262144, 0x80 + r / 4096 % 64, 0x80 + r / 64 % 64, 0x80 + r % 64]
  }

  lemma DecodeEncode(r: Rune, rest: seq<Byte>)
    requires Scalar(r)
    ensures Decode(Encode(r) + rest) == (r, |Encode(r)|)
  {
    var s := Encode(r) + rest;
    if r < 0x80 {
    } else if r < 0x800 {
      assert s[0] == 0xC0 + r / 64 && s[1] == 0x80 + r % 64;
    } else if r < 0x1_0000 {
      ThreeDigits(r);
      assert s[0] == 0xE0 + r / 4096 && s[1] == 0x80 + r / 64 % 64 && s[2] == 0x80 + r % 64;
    } else {
      FourDigits(r);
      assert s[0] == 0xF0 + r / 262144 && s[1] == 0x80 + r / 4096 % 64;
      assert s[2] == 0x80 + r / 64 % 64 && s[3] == 0x80 + r % 64;
    }
  }

  lemma ThreeDigits(r: int)
    requires 0 <= r < 0x1_0000
    ensures r == r / 4096 * 4096 + r / 64 % 64 * 64 + r % 64 && r / 64 / 64 == r / 4096
  {
  }

  lemma FourDigits(r: int)
    requires 0 <= r < 0x11_0000
    ensures r == r / 262144 * 262144 + r / 4096 % 64 * 4096 + r / 64 % 64 * 64 + r % 64
  {
  }

  function Text(rs: seq<Rune>): seq<Byte> {
    if |rs| == 0 then [] else Encode(rs[0]) + Text(rs[1..])
  }

  /** All the runes of a text; every byte that starts none reads as an error. */
  function Runes(s: seq<Byte>): seq<Rune> {
    if |s| == 0 then [] else [Decode(s).0] + Runes(s[Decode(s).1..])
  }

  lemma {:induction false} TextJoins(a: seq<Rune>, b: seq<Rune>)
    ensures Text(a + b) == Text(a) + Text(b)
  {
    hide Encode;
    if |a| == 0 {
      assert a + b == b;
    } else {
      TextJoins(a[1..], b);
      assert (a + b)[0] == a[0] && (a + b)[1..] == a[1..] + b;
      assert Encode(a[0]) + Text(a[1..]) + Text(b) == Encode(a[0]) + (Text(a[1..]) + Text(b));
    }
  }

  lemma {:induction false} RunesOfText(rs: seq<Rune>)
    requires forall r :: r in rs ==> Scalar(r)
    ensures Runes(Text(rs)) == rs
  {
    if |rs| > 0 {
      var rest := Text(rs[1..]);
      DecodeEncode(rs[0], rest);
      RunesOfText(rs[1..]);
      assert (Encode(rs[0]) + rest)[|Encode(rs[0])|..] == rest;
    }
  }
}
