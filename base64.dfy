/**
 * Base64 with the standard alphabet and `=` padding (section 4 of RFC 4648).
 *
 * `Encode` is what Node's `Buffer.toString("base64")` produces; `Atob` is the
 * browser/Node `atob` global, which runs the WHATWG "forgiving-base64 decode":
 * ASCII whitespace is dropped, trailing padding is optional, a length that
 * leaves remainder 1 is refused, and leftover bits of a final partial group
 * are discarded.
 */
module Base64 {
  import opened Common

  /** The character of the standard alphabet for a 6-bit value. */
  function Digit(v: int): (c: char)
    requires 0 <= v < 64
  {
    if v < 26 then ('A' as int + v) as char
    else if v < 52 then ('a' as int + (v - 26)) as char
    else if v < 62 then ('0' as int + (v - 52)) as char
    else if v == 62 then '+'
    else '/'
  }

  predicate IsDigit(c: char) {
    ('A' <= c <= 'Z') || ('a' <= c <= 'z') || ('0' <= c <= '9') || c == '+' || c == '/'
  }

  /** The 6-bit value of an alphabet character. */
  function DigitValue(c: char): (v: int)
    requires IsDigit(c)
    ensures 0 <= v < 64 && Digit(v) == c
  {
    if 'A' <= c <= 'Z' then c as int - 'A' as int
    else if 'a' <= c <= 'z' then c as int - 'a' as int + 26
    else if '0' <= c <= '9' then c as int - '0' as int + 52
    else if c == '+' then 62
    else 63
  }

  lemma DigitRoundTrip(v: int)
    requires 0 <= v < 64
    ensures IsDigit(Digit(v)) && DigitValue(Digit(v)) == v
  {
  }

  /** Encoding with padding: every 3 bytes become 4 characters. */
  function Encode(b: seq<byte>): (r: string)
    ensures |r| % 4 == 0
    ensures |r| == 4 * ((|b| + 2) / 3)
  {
    if |b| == 0 then []
    else if |b| == 1 then
      [Digit(b[0] / 4), Digit((b[0] % 4) * 16), '=', '=']
    else if |b| == 2 then
      [Digit(b[0] / 4), Digit((b[0] % 4) * 16 + b[1] / 16), Digit((b[1] % 16) * 4), '=']
    else
      EncodeGroup(b[0], b[1], b[2]) + Encode(b[3..])
  }

  function EncodeGroup(b0: byte, b1: byte, b2: byte): (g: string)
    ensures |g| == 4
  {
    [Digit(b0 / 4), Digit((b0 % 4) * 16 + b1 / 16), Digit((b1 % 16) * 4 + b2 / 64), Digit(b2 % 64)]
  }

  /** The ASCII whitespace that forgiving-base64 decode removes. */
  predicate IsAsciiWhitespace(c: char) {
    c == ' ' || c == '\t' || c == '\n' || c == '\r' || c == 12 as char
  }

  function StripWhitespace(s: string): (r: string)
    ensures forall i :: 0 <= i < |r| ==> !IsAsciiWhitespace(r[i])
    ensures |r| <= |s|
  {
    if |s| == 0 then []
    else if IsAsciiWhitespace(s[0]) then StripWhitespace(s[1..])
    else [s[0]] + StripWhitespace(s[1..])
  }

  /** When the length is a multiple of 4, one or two trailing `=` are removed. */
  function StripPadding(s: string): (r: string)
  {
    if |s| % 4 == 0 && |s| >= 2 && s[|s| - 2] == '=' && s[|s| - 1] == '=' then s[..|s| - 2]
    else if |s| % 4 == 0 && |s| >= 1 && s[|s| - 1] == '=' then s[..|s| - 1]
    else s
  }

  /** Decodes unpadded alphabet characters; a 2- or 3-character tail yields 1 or 2 bytes. */
  function DecodeDigits(d: string): (r: seq<byte>)
    requires |d| % 4 != 1
    requires forall i :: 0 <= i < |d| ==> IsDigit(d[i])
    ensures |r| == |d| * 3 / 4
  {
    if |d| == 0 then []
    else if |d| == 2 then
      [DigitValue(d[0]) * 4 + DigitValue(d[1]) / 16]
    else if |d| == 3 then
      [DigitValue(d[0]) * 4 + DigitValue(d[1]) / 16,
       (DigitValue(d[1]) % 16) * 16 + DigitValue(d[2]) / 4]
    else
      [DigitValue(d[0]) * 4 + DigitValue(d[1]) / 16,
       (DigitValue(d[1]) % 16) * 16 + DigitValue(d[2]) / 4,
       (DigitValue(d[2]) % 4) * 64 + DigitValue(d[3])]
      + DecodeDigits(d[4..])
  }

  /** `atob`: `None` where `atob` throws `InvalidCharacterError`. */
  function Atob(s: string): (r: Option<seq<byte>>)
    ensures r.Some? ==> |r.value| == |StripPadding(StripWhitespace(s))| * 3 / 4
  {
    var d := StripPadding(StripWhitespace(s));
    if |d| % 4 == 1 then None
    else if exists i :: 0 <= i < |d| && !IsDigit(d[i]) then None
    else Some(DecodeDigits(d))
  }

  lemma {:induction false} StripWhitespaceKeeps(s: string, i: int)
    requires 0 <= i < |s| && !IsAsciiWhitespace(s[i])
    ensures s[i] in StripWhitespace(s)
  {
    if i > 0 {
      StripWhitespaceKeeps(s[1..], i - 1);
    }
  }

  /** `atob` accepts only alphabet characters, `=` and ASCII whitespace. */
  lemma AtobCharset(s: string)
    requires Atob(s).Some?
    ensures forall i :: 0 <= i < |s| ==> IsDigit(s[i]) || s[i] == '=' || IsAsciiWhitespace(s[i])
  {
    var t := StripWhitespace(s);
    var d := StripPadding(t);
    forall i | 0 <= i < |s| && !IsAsciiWhitespace(s[i]) && s[i] != '='
      ensures IsDigit(s[i])
    {
      StripWhitespaceKeeps(s, i);
      var j :| 0 <= j < |t| && t[j] == s[i];
      assert j < |d| && d[j] == t[j];
    }
  }

  lemma {:induction false} StripWhitespaceNone(s: string)
    requires forall i :: 0 <= i < |s| ==> !IsAsciiWhitespace(s[i])
    ensures StripWhitespace(s) == s
  {
    if |s| > 0 {
      StripWhitespaceNone(s[1..]);
    }
  }

  lemma GroupRoundTrip(b0: byte, b1: byte, b2: byte)
    ensures var g := EncodeGroup(b0, b1, b2);
      && DigitValue(g[0]) * 4 + DigitValue(g[1]) / 16 == b0
      && (DigitValue(g[1]) % 16) * 16 + DigitValue(g[2]) / 4 == b1
      && (DigitValue(g[2]) % 4) * 64 + DigitValue(g[3]) == b2
  {
    var g := EncodeGroup(b0, b1, b2);
    DigitRoundTrip(b0 / 4);
    DigitRoundTrip((b0 % 4) * 16 + b1 / 16);
    DigitRoundTrip((b1 % 16) * 4 + b2 / 64);
    DigitRoundTrip(b2 % 64);
    assert ((b0 % 4) * 16 + b1 / 16) / 16 == b0 % 4;
    assert ((b0 % 4) * 16 + b1 / 16) % 16 == b1 / 16;
    assert ((b1 % 16) * 4 + b2 / 64) / 4 == b1 % 16;
    assert ((b1 % 16) * 4 + b2 / 64) % 4 == b2 / 64;
  }

  /** Padding removal only touches the final group of an encoding. */
  lemma StripPaddingAfterGroup(g: string, x: string)
    requires |g| == 4 && g[3] != '=' && |x| % 4 == 0
    ensures StripPadding(g + x) == g + StripPadding(x)
  {
    if |x| >= 2 {
      assert (g + x)[..|g + x| - 2] == g + x[..|x| - 2];
      assert (g + x)[..|g + x| - 1] == g + x[..|x| - 1];
    }
  }

  lemma DecodeOneByteTail(b: seq<byte>)
    requires |b| == 1
    ensures var d := StripPadding(Encode(b));
      && |d| == 2 && IsDigit(d[0]) && IsDigit(d[1]) && DecodeDigits(d) == b
  {
    var v0, v1 := b[0] / 4, (b[0] % 4) * 16;
    DigitRoundTrip(v0);
    DigitRoundTrip(v1);
    var d := StripPadding(Encode(b));
    assert d == [Digit(v0), Digit(v1)];
    assert v1 / 16 == b[0] % 4;
  }

  lemma TwoByteArithmetic(b0: byte, b1: byte)
    ensures var v1, v2 := (b0 % 4) * 16 + b1 / 16, (b1 % 16) * 4;
      && 0 <= v1 < 64 && 0 <= v2 < 64
      && (b0 / 4) * 4 + v1 / 16 == b0
      && (v1 % 16) * 16 + v2 / 4 == b1
  {
  }

  lemma DecodeTwoByteTail(b: seq<byte>)
    requires |b| == 2
    ensures var d := StripPadding(Encode(b));
      && |d| == 3 && IsDigit(d[0]) && IsDigit(d[1]) && IsDigit(d[2]) && DecodeDigits(d) == b
  {
    var v0, v1, v2 := b[0] / 4, (b[0] % 4) * 16 + b[1] / 16, (b[1] % 16) * 4;
    TwoByteArithmetic(b[0], b[1]);
    DigitRoundTrip(v0);
    DigitRoundTrip(v1);
    DigitRoundTrip(v2);
    var e := Encode(b);
    assert e == [Digit(v0), Digit(v1), Digit(v2), '='];
    var d := StripPadding(e);
    assert d == e[..3];
    assert IsDigit(d[0]) && IsDigit(d[1]) && IsDigit(d[2]);
    assert DigitValue(d[0]) == v0 && DigitValue(d[1]) == v1 && DigitValue(d[2]) == v2;
    assert DecodeDigits(d) == [b[0], b[1]];
  }

  lemma DecodeDigitsAfterGroup(b0: byte, b1: byte, b2: byte, y: string)
    requires |y| % 4 != 1 && forall i :: 0 <= i < |y| ==> IsDigit(y[i])
    ensures var d := EncodeGroup(b0, b1, b2) + y;
      && |d| % 4 != 1 && (forall i :: 0 <= i < |d| ==> IsDigit(d[i]))
      && DecodeDigits(d) == [b0, b1, b2] + DecodeDigits(y)
  {
    var g := EncodeGroup(b0, b1, b2);
    EncodeGroupDigits(b0, b1, b2);
    GroupRoundTrip(b0, b1, b2);
    var d := g + y;
    assert d[4..] == y;
    assert d[..4] == g;
  }

  /** Groups of padded-stripped encoding form a valid digit string decoding to `b`. */
  ghost predicate DecodesBack(b: seq<byte>) {
    var d := StripPadding(Encode(b));
    && |d| % 4 != 1
    && (forall i :: 0 <= i < |d| ==> IsDigit(d[i]))
    && DecodeDigits(d) == b
  }

  /** Without padding, an encoding is its first group followed by the rest, unpadded. */
  lemma StripPaddingSplit(b: seq<byte>)
    requires |b| >= 3
    ensures StripPadding(Encode(b)) == EncodeGroup(b[0], b[1], b[2]) + StripPadding(Encode(b[3..]))
  {
    var g := EncodeGroup(b[0], b[1], b[2]);
    var x := Encode(b[3..]);
    assert Encode(b) == g + x;
    DigitRoundTrip((b[1] % 16) * 4 + b[2] / 64);
    DigitRoundTrip(b[2] % 64);
    StripPaddingAfterGroup(g, x);
  }

  lemma DecodeEncodedStep(b: seq<byte>)
    requires |b| >= 3 && DecodesBack(b[3..])
    ensures DecodesBack(b)
  {
    var y := StripPadding(Encode(b[3..]));
    StripPaddingSplit(b);
    DecodeDigitsAfterGroup(b[0], b[1], b[2], y);
    assert DecodeDigits(y) == b[3..];
    GroupPrefix(b);
  }

  lemma GroupPrefix(b: seq<byte>)
    requires |b| >= 3
    ensures b == [b[0], b[1], b[2]] + b[3..]
  {
  }

  lemma {:induction false} DecodeEncodedDigits(b: seq<byte>)
    ensures DecodesBack(b)
  {
    if |b| == 1 {
      DecodeOneByteTail(b);
    } else if |b| == 2 {
      DecodeTwoByteTail(b);
    } else if |b| >= 3 {
      DecodeEncodedDigits(b[3..]);
      DecodeEncodedStep(b);
    }
  }

  /** Round trip: `atob` recovers exactly the bytes that `Encode` was given. */
  lemma AtobEncode(b: seq<byte>)
    ensures Atob(Encode(b)) == Some(b)
  {
    var e := Encode(b);
    EncodeCharset(b);
    StripWhitespaceNone(e);
    DecodeEncodedDigits(b);
  }

  lemma EncodeGroupDigits(b0: byte, b1: byte, b2: byte)
    ensures forall i :: 0 <= i < 4 ==> IsDigit(EncodeGroup(b0, b1, b2)[i])
  {
    DigitRoundTrip(b0 / 4);
    DigitRoundTrip((b0 % 4) * 16 + b1 / 16);
    DigitRoundTrip((b1 % 16) * 4 + b2 / 64);
    DigitRoundTrip(b2 % 64);
  }

  /** An encoding consists of alphabet characters and `=` only. */
  lemma {:induction false} EncodeCharset(b: seq<byte>)
    ensures forall i :: 0 <= i < |Encode(b)| ==> IsDigit(Encode(b)[i]) || Encode(b)[i] == '='
  {
    if |b| == 1 {
      DigitRoundTrip(b[0] / 4);
      DigitRoundTrip((b[0] % 4) * 16);
    } else if |b| == 2 {
      DigitRoundTrip(b[0] / 4);
      DigitRoundTrip((b[0] % 4) * 16 + b[1] / 16);
      DigitRoundTrip((b[1] % 16) * 4);
    } else if |b| >= 3 {
      var g := EncodeGroup(b[0], b[1], b[2]);
      EncodeGroupDigits(b[0], b[1], b[2]);
      EncodeCharset(b[3..]);
      assert Encode(b) == g + Encode(b[3..]);
    }
  }
}
