/**
 * The JSON the token envelope is made of: `JSON.stringify` of a flat object
 * whose values are strings or integers, and `JSON.parse` of such an object.
 *
 * The writer follows `JSON.stringify`: members in insertion order, no
 * whitespace, `"` `\` and the control characters escaped (the five short
 * escapes, `\u00xx` with lower-case hex for the rest), every other character
 * written as itself. The reader follows `JSON.parse` for flat objects:
 * whitespace between tokens, any key order, duplicate keys (the last one
 * wins), all string escapes including surrogate pairs.
 */
module Json {
  import opened Common

  datatype Value = JString(str: string) | JInt(num: int)
  datatype Member = Member(key: string, value: Value)

  // ---------------------------------------------------------------- writer

  function HexLower(v: int): (c: char)
    requires 0 <= v < 16
  {
    if v < 10 then ('0' as int + v) as char else ('a' as int + (v - 10)) as char
  }

  /** How `JSON.stringify` writes one character inside a string literal. */
  function EscapeChar(c: char): (r: string)
    ensures 1 <= |r| <= 6
  {
    if c == '"' then "\\\""
    else if c == '\\' then "\\\\"
    else if c == 8 as char then "\\b"
    else if c == 12 as char then "\\f"
    else if c == '\n' then "\\n"
    else if c == '\r' then "\\r"
    else if c == '\t' then "\\t"
    else if (c as int) < 0x20 then "\\u00" + [HexLower(c as int / 16), HexLower(c as int % 16)]
    else [c]
  }

  function Escape(s: string): (r: string)
    ensures |s| <= |r| <= 6 * |s|
  {
    if |s| == 0 then [] else EscapeChar(s[0]) + Escape(s[1..])
  }

  /** A string literal: the escaped characters between double quotes. */
  function Quote(s: string): string {
    "\"" + Escape(s) + "\""
  }

  function DecimalDigit(v: int): (c: char)
    requires 0 <= v < 10
  {
    ('0' as int + v) as char
  }

  function NatToString(n: nat): (r: string)
    ensures |r| > 0
  {
    if n < 10 then [DecimalDigit(n)] else NatToString(n / 10) + [DecimalDigit(n % 10)]
  }

  /** How `JSON.stringify` writes an integral number. */
  function IntToString(n: int): string {
    if n < 0 then "-" + NatToString(-n) else NatToString(n)
  }

  function ValueToString(v: Value): string {
    match v
    case JString(s) => Quote(s)
    case JInt(n) => IntToString(n)
  }

  function MemberText(m: Member): string {
    Quote(m.key) + ":" + ValueToString(m.value)
  }

  /** The members of a non-empty object, comma-separated, and the closing brace. */
  function MembersText(ms: seq<Member>): (r: string)
    requires |ms| > 0
    ensures |r| > 0 && r[|r| - 1] == '}'
  {
    if |ms| == 1 then MemberText(ms[0]) + "}"
    else MemberText(ms[0]) + ("," + MembersText(ms[1..]))
  }

  /** `JSON.stringify` of an object with these members in this order. */
  function Stringify(ms: seq<Member>): (r: string)
    ensures |r| >= 2 && r[0] == '{' && r[|r| - 1] == '}'
  {
    if |ms| == 0 then "{}" else "{" + MembersText(ms)
  }

  // ---------------------------------------------------------------- reader

  predicate IsWhitespace(c: char) {
    c == ' ' || c == '\t' || c == '\n' || c == '\r'
  }

  function SkipWhitespace(s: string): (r: string)
    ensures |r| <= |s|
    ensures |r| > 0 ==> !IsWhitespace(r[0])
  {
    if |s| > 0 && IsWhitespace(s[0]) then SkipWhitespace(s[1..]) else s
  }

  predicate IsHex(c: char) {
    ('0' <= c <= '9') || ('a' <= c <= 'f') || ('A' <= c <= 'F')
  }

  function HexValue(c: char): (v: int)
    requires IsHex(c)
    ensures 0 <= v < 16
  {
    if '0' <= c <= '9' then c as int - '0' as int
    else if 'a' <= c <= 'f' then c as int - 'a' as int + 10
    else c as int - 'A' as int + 10
  }

  /** The code unit written as four hex digits at `s[i..i + 4]`. */
  function Hex4(s: string, i: nat): (r: Option<int>)
    requires i + 4 <= |s|
    ensures r.Some? ==> 0 <= r.value < 0x10000
  {
    if IsHex(s[i]) && IsHex(s[i + 1]) && IsHex(s[i + 2]) && IsHex(s[i + 3]) then
      Some(HexValue(s[i]) * 4096 + HexValue(s[i + 1]) * 256 + HexValue(s[i + 2]) * 16 + HexValue(s[i + 3]))
    else None
  }

  /**
   * An escape sequence starting at the backslash `s[0]`: the character it
   * denotes and its length. A `\u` high surrogate must be followed by a `\u`
   * low surrogate; the pair denotes one character.
   */
  function ParseEscape(s: string): (r: Option<(char, nat)>)
    requires |s| > 0 && s[0] == '\\'
    ensures r.Some? ==> 2 <= r.value.1 <= |s|
  {
    if |s| < 2 then None
    else if s[1] == '"' || s[1] == '\\' || s[1] == '/' then Some((s[1], 2))
    else if s[1] == 'b' then Some((8 as char, 2))
    else if s[1] == 'f' then Some((12 as char, 2))
    else if s[1] == 'n' then Some(('\n', 2))
    else if s[1] == 'r' then Some(('\r', 2))
    else if s[1] == 't' then Some(('\t', 2))
    else if s[1] != 'u' || |s| < 6 then None
    else match Hex4(s, 2)
      case None => None
      case Some(hi) =>
        if 0xDC00 <= hi < 0xE000 then None
        else if hi < 0xD800 || 0xE000 <= hi then Some((hi as char, 6))
        else if |s| < 12 || s[6] != '\\' || s[7] != 'u' then None
        else match Hex4(s, 8)
          case None => None
          case Some(lo) =>
            if 0xDC00 <= lo < 0xE000 then
              Some(((0x10000 + (hi - 0xD800) * 0x400 + (lo - 0xDC00)) as char, 12))
            else None
  }

  /** The rest of a string literal after its opening quote: its characters and what follows the closing quote. */
  function ParseStringBody(s: string): (r: Option<(string, string)>)
    ensures r.Some? ==> |r.value.1| < |s|
    decreases |s|
  {
    if |s| == 0 then None
    else if s[0] == '"' then Some(([], s[1..]))
    else if s[0] == '\\' then
      match ParseEscape(s)
      case None => None
      case Some((c, n)) =>
        match ParseStringBody(s[n..])
        case None => None
        case Some((t, rest)) => Some(([c] + t, rest))
    else if (s[0] as int) < 0x20 then None
    else
      match ParseStringBody(s[1..])
      case None => None
      case Some((t, rest)) => Some(([s[0]] + t, rest))
  }

  function ParseString(s: string): (r: Option<(string, string)>)
    ensures r.Some? ==> |r.value.1| < |s|
  {
    if |s| > 0 && s[0] == '"' then ParseStringBody(s[1..]) else None
  }

  predicate IsDecimalDigit(c: char) {
    '0' <= c <= '9'
  }

  /** The length of the longest prefix of decimal digits. */
  function DigitRun(s: string): (k: nat)
    ensures k <= |s|
  {
    if |s| > 0 && IsDecimalDigit(s[0]) then 1 + DigitRun(s[1..]) else 0
  }

  function DigitsValue(ds: string): (v: nat)
    requires forall i :: 0 <= i < |ds| ==> IsDecimalDigit(ds[i])
  {
    if |ds| == 0 then 0
    else
      var last := ds[|ds| - 1];
      assert IsDecimalDigit(last);
      DigitsValue(ds[..|ds| - 1]) * 10 + (last as int - '0' as int)
  }

  lemma {:induction false} DigitRunDigits(s: string, i: int)
    requires 0 <= i < DigitRun(s)
    ensures IsDecimalDigit(s[i])
  {
    if i > 0 {
      DigitRunDigits(s[1..], i - 1);
    }
  }

  /** A JSON integer without sign: `0` alone, or digits not starting with `0`. */
  function ParseNat(s: string): (r: Option<(nat, string)>)
    ensures r.Some? ==> |r.value.1| < |s|
  {
    if |s| == 0 || !IsDecimalDigit(s[0]) then None
    else if s[0] == '0' then Some((0, s[1..]))
    else
      var k := DigitRun(s);
      assert forall i :: 0 <= i < k ==> IsDecimalDigit(s[..k][i]) by {
        forall i | 0 <= i < k ensures IsDecimalDigit(s[..k][i]) { DigitRunDigits(s, i); }
      }
      Some((DigitsValue(s[..k]), s[k..]))
  }

  function ParseInt(s: string): (r: Option<(int, string)>)
    ensures r.Some? ==> |r.value.1| < |s|
  {
    if |s| > 0 && s[0] == '-' then
      match ParseNat(s[1..])
      case None => None
      case Some((v, rest)) => var n: int := v; Some((-n, rest))
    else ParseNat(s)
  }

  function ParseValue(s: string): (r: Option<(Value, string)>)
    ensures r.Some? ==> |r.value.1| < |s|
  {
    if |s| > 0 && s[0] == '"' then
      match ParseString(s)
      case None => None
      case Some((t, rest)) => Some((JString(t), rest))
    else
      match ParseInt(s)
      case None => None
      case Some((n, rest)) => Some((JInt(n), rest))
  }

  /** `"key" : value`, with whitespace allowed around the colon. */
  function ParseMember(s: string): (r: Option<(Member, string)>)
    ensures r.Some? ==> |r.value.1| < |s|
  {
    var key := ParseString(s);
    if key.None? then None
    else
      var r2 := SkipWhitespace(key.value.1);
      if |r2| == 0 || r2[0] != ':' then None
      else
        var value := ParseValue(SkipWhitespace(r2[1..]));
        if value.None? then None
        else Some((Member(key.value.0, value.value.0), value.value.1))
  }

  /** One or more members separated by commas, then the closing brace. */
  function ParseMembers(s: string): (r: Option<(seq<Member>, string)>)
    ensures r.Some? ==> |r.value.0| > 0 && |r.value.1| < |s|
    decreases |s|
  {
    var member := ParseMember(s);
    if member.None? then None
    else
      var r2 := SkipWhitespace(member.value.1);
      if |r2| > 0 && r2[0] == '}' then Some(([member.value.0], r2[1..]))
      else if |r2| > 0 && r2[0] == ',' then
        var more := ParseMembers(SkipWhitespace(r2[1..]));
        if more.None? then None
        else Some(([member.value.0] + more.value.0, more.value.1))
      else None
  }

  /** `JSON.parse` of a flat object; `None` where `JSON.parse` would throw or the text is not such an object. */
  function Parse(s: string): (r: Option<seq<Member>>)
    ensures r.Some? ==> |SkipWhitespace(s)| > 0 && SkipWhitespace(s)[0] == '{'
  {
    var t := SkipWhitespace(s);
    if |t| == 0 || t[0] != '{' then None
    else
      var u := SkipWhitespace(t[1..]);
      if |u| > 0 && u[0] == '}' then
        if SkipWhitespace(u[1..]) == [] then Some([]) else None
      else
        match ParseMembers(u)
        case None => None
        case Some((ms, rest)) => if SkipWhitespace(rest) == [] then Some(ms) else None
  }

  /** Property access on the parsed object: the value of the last member with this key. */
  function Lookup(ms: seq<Member>, key: string): (r: Option<Value>)
    ensures r.Some? <==> exists i :: 0 <= i < |ms| && ms[i].key == key
    ensures r.Some? ==> exists i :: 0 <= i < |ms| && ms[i] == Member(key, r.value)
                          && forall j :: i < j < |ms| ==> ms[j].key != key
  {
    if |ms| == 0 then None
    else if ms[|ms| - 1].key == key then Some(ms[|ms| - 1].value)
    else Lookup(ms[..|ms| - 1], key)
  }
}
