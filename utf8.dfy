/**
 * UTF-8 as used by the token envelope: `TextEncoder.encode` on the issuing
 * side and a default `TextDecoder` (label "utf-8", not fatal, BOM not
 * ignored) on the decoding side. The decoder follows the WHATWG UTF-8
 * decoder: each ill-formed maximal subpart becomes one U+FFFD, and a leading
 * byte order mark is dropped.
 */
module Utf8 {
  import opened Common

  const Replacement: char := 0xFFFD as char
  const ByteOrderMark: char := 0xFEFF as char

  /** The UTF-8 bytes of one Unicode scalar value. */
  function EncodeChar(c: char): (r: seq<byte>)
    ensures 1 <= |r| <= 4
  {
    var n := c as int;
    if n < 0x80 then [n]
    else if n < 0x800 then [0xC0 + n / 64, 0x80 + n % 64]
    else if n < 0x10000 then [0xE0 + n / 4096, 0x80 + (n % 4096) / 64, 0x80 + n % 64]
    else [0xF0 + n / 262144, 0x80 + (n % 262144) / 4096, 0x80 + (n % 4096) / 64, 0x80 + n % 64]
  }

  /** `TextEncoder.encode`. */
  function Encode(s: string): (r: seq<byte>)
    ensures |s| <= |r| <= 4 * |s|
  {
    if |s| == 0 then [] else EncodeChar(s[0]) + Encode(s[1..])
  }

  predicate IsContinuation(b: byte) {
    0x80 <= b <= 0xBF
  }

  /**
   * The next decoded character and how many bytes it consumes. A lead byte
   * that cannot start a sequence, or a sequence cut short by a byte outside
   * its allowed range (or by the end of input), yields U+FFFD and consumes
   * only the bytes read before the offending one.
   */
  function NextChar(b: seq<byte>): (r: (char, nat))
    requires |b| > 0
    ensures 1 <= r.1 <= |b|
  {
    var b0 := b[0] as int;
    if b0 < 0x80 then (b0 as char, 1)
    else if b0 < 0xC2 || b0 > 0xF4 then (Replacement, 1)
    else
      var lo := if b0 == 0xE0 then 0xA0 else if b0 == 0xF0 then 0x90 else 0x80;
      var hi := if b0 == 0xED then 0x9F else if b0 == 0xF4 then 0x8F else 0xBF;
      if |b| < 2 || b[1] < lo || b[1] > hi then (Replacement, 1)
      else if b0 < 0xE0 then
        (((b0 - 0xC0) * 64 + (b[1] as int - 0x80)) as char, 2)
      else if |b| < 3 || !IsContinuation(b[2]) then (Replacement, 2)
      else if b0 < 0xF0 then
        (((b0 - 0xE0) * 4096 + (b[1] as int - 0x80) * 64 + (b[2] as int - 0x80)) as char, 3)
      else if |b| < 4 || !IsContinuation(b[3]) then (Replacement, 3)
      else
        (((b0 - 0xF0) * 262144 + (b[1] as int - 0x80) * 4096 + (b[2] as int - 0x80) * 64 + (b[3] as int - 0x80)) as char, 4)
  }

  function DecodeChars(b: seq<byte>): (r: string)
    ensures |r| <= |b|
    decreases |b|
  {
    if |b| == 0 then [] else
    var (c, n) := NextChar(b);
    [c] + DecodeChars(b[n..])
  }

  /** `new TextDecoder().decode`: a leading EF BB BF is consumed without output. */
  function Decode(b: seq<byte>): (r: string)
    ensures |r| <= |b|
    ensures |b| >= 3 && b[0] == 0xEF && b[1] == 0xBB && b[2] == 0xBF ==> |r| <= |b| - 3
  {
    if |b| >= 3 && b[0] == 0xEF && b[1] == 0xBB && b[2] == 0xBF then DecodeChars(b[3..])
    else DecodeChars(b)
  }

  lemma DecodeEncodedChar(c: char, rest: seq<byte>)
    ensures NextChar(EncodeChar(c) + rest) == (c, |EncodeChar(c)|)
  {
    var n := c as int;
    if n < 0x80 {
    } else if n < 0x800 {
      DecodeTwoBytes(c, rest);
    } else if n < 0x10000 {
      DecodeThreeBytes(c, rest);
    } else {
      DecodeFourBytes(c, rest);
    }
  }

  lemma DecodeTwoBytes(c: char, rest: seq<byte>)
    requires 0x80 <= c as int < 0x800
    ensures NextChar(EncodeChar(c) + rest) == (c, 2)
  {
    var n := c as int;
    var b := EncodeChar(c) + rest;
    var b0, b1 := n / 64, n % 64;
    assert b[0] == 0xC0 + b0 && b[1] == 0x80 + b1;
    assert 2 <= b0 < 32;
    assert n == b0 * 64 + b1;
  }

  lemma ThreeByteArithmetic(n: int)
    requires 0x800 <= n < 0x10000 && (n < 0xD800 || 0xE000 <= n)
    ensures var b0, b1, b2 := n / 4096, (n % 4096) / 64, n % 64;
      && n == b0 * 4096 + b1 * 64 + b2
      && 0 <= b0 < 16 && 0 <= b1 < 64 && 0 <= b2 < 64
      && (b0 == 0 ==> b1 >= 0x20)
      && (b0 == 13 ==> b1 < 0x20)
  {
    var r0 := n % 4096;
    assert n == (n / 4096) * 4096 + r0;
    assert r0 == (r0 / 64) * 64 + n % 64;
  }

  lemma DecodeThreeBytes(c: char, rest: seq<byte>)
    requires 0x800 <= c as int < 0x10000
    ensures NextChar(EncodeChar(c) + rest) == (c, 3)
  {
    var n := c as int;
    ThreeByteArithmetic(n);
    var b := EncodeChar(c) + rest;
    assert b[0] == 0xE0 + n / 4096 && b[1] == 0x80 + (n % 4096) / 64 && b[2] == 0x80 + n % 64;
  }

  lemma FourByteArithmetic(n: int)
    requires 0x10000 <= n < 0x110000
    ensures var b0, b1, b2, b3 := n / 262144, (n % 262144) / 4096, (n % 4096) / 64, n % 64;
      && n == b0 * 262144 + b1 * 4096 + b2 * 64 + b3
      && 0 <= b0 <= 4 && 0 <= b1 < 64 && 0 <= b2 < 64 && 0 <= b3 < 64
      && (b0 == 0 ==> b1 >= 0x10)
      && (b0 == 4 ==> b1 < 0x10)
  {
    var r0 := n % 262144;
    assert n == (n / 262144) * 262144 + r0;
    assert r0 == (r0 / 4096) * 4096 + n % 4096;
    assert n % 4096 == ((n % 4096) / 64) * 64 + n % 64;
  }

  lemma DecodeFourBytes(c: char, rest: seq<byte>)
    requires 0x10000 <= c as int
    ensures NextChar(EncodeChar(c) + rest) == (c, 4)
  {
    var n := c as int;
    FourByteArithmetic(n);
    var b := EncodeChar(c) + rest;
    assert b[0] == 0xF0 + n / 262144 && b[1] == 0x80 + (n % 262144) / 4096;
    assert b[2] == 0x80 + (n % 4096) / 64 && b[3] == 0x80 + n % 64;
  }

  lemma {:induction false} DecodeCharsEncode(s: string)
    ensures DecodeChars(Encode(s)) == s
  {
    if |s| > 0 {
      var e := EncodeChar(s[0]);
      var tail := Encode(s[1..]);
      DecodeEncodedChar(s[0], tail);
      assert (e + tail)[|e|..] == tail;
      DecodeCharsEncode(s[1..]);
    }
  }

  /**
   * Round trip: decoding what `TextEncoder` produced gives the string back,
   * unless it starts with U+FEFF, which the decoder takes for a byte order mark.
   */
  lemma DecodeEncode(s: string)
    requires |s| == 0 || s[0] != ByteOrderMark
    ensures Decode(Encode(s)) == s
  {
    DecodeCharsEncode(s);
    if |s| > 0 {
      var e := EncodeChar(s[0]);
      assert Encode(s)[..|e|] == e;
      if |e| >= 3 {
        assert Encode(s)[0] == e[0] && Encode(s)[1] == e[1] && Encode(s)[2] == e[2];
        LeadingBomBytes(s[0]);
      }
    }
  }

  /** A byte order mark in front of encoded text is dropped, and nothing else is. */
  lemma DecodeBomEncode(s: string)
    ensures Decode([0xEF, 0xBB, 0xBF] + Encode(s)) == s
  {
    assert ([0xEF, 0xBB, 0xBF] + Encode(s))[3..] == Encode(s);
    DecodeCharsEncode(s);
  }

  /** Only U+FEFF encodes to the bytes EF BB BF. */
  lemma LeadingBomBytes(c: char)
    requires |EncodeChar(c)| >= 3
    ensures EncodeChar(c)[0] == 0xEF && EncodeChar(c)[1] == 0xBB && EncodeChar(c)[2] == 0xBF
            ==> c == ByteOrderMark
  {
    var n := c as int;
    if n < 0x10000 {
      ThreeByteArithmetic(n);
    }
  }
}
