/** `JSON.parse` reads back exactly what `JSON.stringify` wrote. */
module JsonProofs {
  import opened Common
  import opened Json

  lemma HexLowerValue(v: int)
    requires 0 <= v < 16
    ensures IsHex(HexLower(v)) && HexValue(HexLower(v)) == v
  {
  }

  /** Parsing one escaped character prepends it to what the rest parses to. */
  lemma EscapeCharStep(c: char, t: string, u: string, rest: string)
    requires ParseStringBody(t) == Some((u, rest))
    ensures ParseStringBody(EscapeChar(c) + t) == Some(([c] + u, rest))
  {
    var s := EscapeChar(c) + t;
    var e := EscapeChar(c);
    assert s[|e|..] == t;
    if c == '"' || c == '\\' || c == 8 as char || c == 12 as char || c == '\n' || c == '\r' || c == '\t' {
      assert ParseEscape(s) == Some((c, 2));
    } else if (c as int) < 0x20 {
      HexLowerValue(c as int / 16);
      HexLowerValue(c as int % 16);
      assert s[..6] == e;
      assert Hex4(s, 2) == Some(c as int);
      assert ParseEscape(s) == Some((c, 6));
    } else {
      assert s[0] == c;
    }
  }

  lemma EscapeSplit(s: string, tail: string)
    requires |s| > 0
    ensures Escape(s) + tail == EscapeChar(s[0]) + (Escape(s[1..]) + tail)
  {
    assert Escape(s) == EscapeChar(s[0]) + Escape(s[1..]);
    Associative(EscapeChar(s[0]), Escape(s[1..]), tail);
  }

  lemma ConsSlice(s: string)
    requires |s| > 0
    ensures [s[0]] + s[1..] == s
  {
  }

  lemma {:induction false} EscapeRoundTrip(s: string, rest: string)
    ensures ParseStringBody(Escape(s) + ("\"" + rest)) == Some((s, rest))
  {
    if |s| == 0 {
      assert Escape(s) + ("\"" + rest) == "\"" + rest;
    } else {
      EscapeRoundTrip(s[1..], rest);
      EscapeCharStep(s[0], Escape(s[1..]) + ("\"" + rest), s[1..], rest);
      EscapeSplit(s, "\"" + rest);
      ConsSlice(s);
    }
  }

  /** A string literal is read back as the string it quotes. */
  lemma QuoteRoundTrip(s: string, rest: string)
    ensures ParseString(Quote(s) + rest) == Some((s, rest))
  {
    var tail := Escape(s) + ("\"" + rest);
    EscapeRoundTrip(s, rest);
    Associative("\"" + Escape(s), "\"", rest);
    Associative("\"", Escape(s), "\"" + rest);
    assert Quote(s) + rest == "\"" + tail;
    assert ("\"" + tail)[1..] == tail;
  }

  lemma {:induction false} NatToStringShape(n: nat)
    ensures forall i :: 0 <= i < |NatToString(n)| ==> IsDecimalDigit(NatToString(n)[i])
    ensures n == 0 <==> NatToString(n)[0] == '0'
    ensures DigitsValue(NatToString(n)) == n
  {
    if n >= 10 {
      NatToStringShape(n / 10);
      var p := NatToString(n / 10);
      assert NatToString(n)[..|NatToString(n)| - 1] == p;
      assert NatToString(n)[0] == p[0];
    }
  }

  lemma {:induction false} DigitRunPrefix(ds: string, rest: string)
    requires forall i :: 0 <= i < |ds| ==> IsDecimalDigit(ds[i])
    requires rest == [] || !IsDecimalDigit(rest[0])
    ensures DigitRun(ds + rest) == |ds|
  {
    if |ds| > 0 {
      assert (ds + rest)[1..] == ds[1..] + rest;
      DigitRunPrefix(ds[1..], rest);
    }
  }

  lemma NatRoundTrip(n: nat, rest: string)
    requires rest == [] || !IsDecimalDigit(rest[0])
    ensures ParseNat(NatToString(n) + rest) == Some((n, rest))
  {
    var ds := NatToString(n);
    var s := ds + rest;
    NatToStringShape(n);
    if n != 0 {
      DigitRunPrefix(ds, rest);
      assert s[..|ds|] == ds;
      assert s[|ds|..] == rest;
    } else {
      assert ds == "0";
    }
  }

  lemma ParseIntMinus(s: string, v: nat, rest: string)
    requires |s| > 0 && s[0] == '-' && ParseNat(s[1..]) == Some((v, rest))
    ensures ParseInt(s) == Some((-(v as int), rest))
  {
  }

  lemma ParseIntPlain(s: string, v: nat, rest: string)
    requires |s| > 0 && s[0] != '-' && ParseNat(s) == Some((v, rest))
    ensures ParseInt(s) == Some((v, rest))
  {
  }

  lemma NegativeRoundTrip(n: int, rest: string)
    requires n < 0 && (rest == [] || !IsDecimalDigit(rest[0]))
    ensures ParseInt(IntToString(n) + rest) == Some((n, rest))
  {
    var ds := NatToString(-n);
    var s := IntToString(n) + rest;
    assert s == "-" + (ds + rest);
    NatRoundTrip(-n, rest);
    ParseIntMinus(s, -n, rest);
  }

  lemma NonNegativeRoundTrip(n: nat, rest: string)
    requires rest == [] || !IsDecimalDigit(rest[0])
    ensures ParseInt(IntToString(n) + rest) == Some((n, rest))
  {
    NatRoundTrip(n, rest);
    NatToStringShape(n);
    ParseIntPlain(NatToString(n) + rest, n, rest);
  }

  /** An integer is read back as itself, provided no digit follows it. */
  lemma IntRoundTrip(n: int, rest: string)
    requires rest == [] || !IsDecimalDigit(rest[0])
    ensures ParseInt(IntToString(n) + rest) == Some((n, rest))
  {
    if n < 0 {
      NegativeRoundTrip(n, rest);
    } else {
      NonNegativeRoundTrip(n, rest);
    }
  }

  lemma ValueRoundTrip(v: Value, rest: string)
    requires |rest| > 0 && (rest[0] == ',' || rest[0] == '}')
    ensures ParseValue(ValueToString(v) + rest) == Some((v, rest))
  {
    match v
    case JString(s) =>
      QuoteRoundTrip(s, rest);
    case JInt(n) =>
      IntRoundTrip(n, rest);
      NatToStringShape(if n < 0 then -n else n);
  }

  /** `ParseMember` composed from its three parts, with no whitespace between them. */
  lemma ParseMemberParts(s: string, k: string, after: string, v: Value, rest: string)
    requires ParseString(s) == Some((k, after))
    requires |after| > 0 && after[0] == ':'
    requires |after| > 1 && !IsWhitespace(after[1])
    requires ParseValue(after[1..]) == Some((v, rest))
    ensures ParseMember(s) == Some((Member(k, v), rest))
  {
  }

  lemma ValueStringStart(v: Value)
    ensures |ValueToString(v)| > 0 && !IsWhitespace(ValueToString(v)[0])
  {
    match v
    case JString(_) =>
    case JInt(n) => NatToStringShape(if n < 0 then -n else n);
  }

  lemma MemberRoundTrip(m: Member, rest: string)
    requires |rest| > 0 && (rest[0] == ',' || rest[0] == '}')
    ensures ParseMember(MemberText(m) + rest) == Some((m, rest))
  {
    var t := ValueToString(m.value) + rest;
    var after := ":" + t;
    Associative(Quote(m.key) + ":", ValueToString(m.value), rest);
    Associative(Quote(m.key), ":", ValueToString(m.value) + rest);
    QuoteRoundTrip(m.key, after);
    assert after[1..] == t;
    ValueRoundTrip(m.value, rest);
    ValueStringStart(m.value);
    ParseMemberParts(Quote(m.key) + after, m.key, after, m.value, rest);
  }

  /** `ParseMembers` on a last member followed by the closing brace. */
  lemma ParseMembersLast(s: string, m: Member, r1: string)
    requires ParseMember(s) == Some((m, r1))
    requires |r1| > 0 && r1[0] == '}'
    ensures ParseMembers(s) == Some(([m], r1[1..]))
  {
  }

  /** `ParseMembers` on a member followed by a comma and further members. */
  lemma ParseMembersNext(s: string, m: Member, tail: string, ms: seq<Member>, rest: string)
    requires ParseMember(s) == Some((m, "," + tail))
    requires |tail| > 0 && !IsWhitespace(tail[0])
    requires ParseMembers(tail) == Some((ms, rest))
    ensures ParseMembers(s) == Some(([m] + ms, rest))
  {
    assert ("," + tail)[1..] == tail;
  }

  lemma MembersTextStart(ms: seq<Member>)
    requires |ms| > 0
    ensures |MembersText(ms)| > 0 && MembersText(ms)[0] == '"'
  {
  }

  lemma MembersRoundTripLast(ms: seq<Member>, rest: string)
    requires |ms| == 1
    ensures ParseMembers(MembersText(ms) + rest) == Some((ms, rest))
  {
    var s := MembersText(ms) + rest;
    assert s == MemberText(ms[0]) + ("}" + rest);
    MemberRoundTrip(ms[0], "}" + rest);
    ParseMembersLast(s, ms[0], "}" + rest);
    assert ("}" + rest)[1..] == rest;
    assert ms == [ms[0]];
  }

  /** The first member of a written list of two or more is read back, up to the comma. */
  lemma FirstMemberRoundTrip(ms: seq<Member>, rest: string)
    requires |ms| > 1
    ensures ParseMember(MembersText(ms) + rest) == Some((ms[0], "," + (MembersText(ms[1..]) + rest)))
  {
    Associative(MemberText(ms[0]), "," + MembersText(ms[1..]), rest);
    Associative(",", MembersText(ms[1..]), rest);
    MemberRoundTrip(ms[0], "," + (MembersText(ms[1..]) + rest));
  }

  lemma MembersRoundTripStep(ms: seq<Member>, rest: string)
    requires |ms| > 1
    requires ParseMembers(MembersText(ms[1..]) + rest) == Some((ms[1..], rest))
    ensures ParseMembers(MembersText(ms) + rest) == Some((ms, rest))
  {
    FirstMemberRoundTrip(ms, rest);
    MembersTextStart(ms[1..]);
    ParseMembersNext(MembersText(ms) + rest, ms[0], MembersText(ms[1..]) + rest, ms[1..], rest);
    assert [ms[0]] + ms[1..] == ms;
  }

  lemma {:induction false} MembersRoundTrip(ms: seq<Member>, rest: string)
    requires |ms| > 0
    ensures ParseMembers(MembersText(ms) + rest) == Some((ms, rest))
  {
    if |ms| == 1 {
      MembersRoundTripLast(ms, rest);
    } else {
      MembersRoundTrip(ms[1..], rest);
      MembersRoundTripStep(ms, rest);
    }
  }

  /** `Parse` of an object text with no surrounding whitespace. */
  lemma ParseObjectParts(s: string, ms: seq<Member>)
    requires |s| > 1 && s[0] == '{' && s[1] == '"'
    requires ParseMembers(s[1..]) == Some((ms, []))
    ensures Parse(s) == Some(ms)
  {
  }

  /** Round trip: `JSON.parse(JSON.stringify(o))` has the same members in the same order. */
  lemma ParseStringify(ms: seq<Member>)
    ensures Parse(Stringify(ms)) == Some(ms)
  {
    if |ms| > 0 {
      var s := Stringify(ms);
      MembersTextStart(ms);
      MembersRoundTrip(ms, []);
      assert s[1..] == MembersText(ms) + [];
      ParseObjectParts(s, ms);
    }
  }

  /** Property access finds the member that no later member with the same key overrides. */
  lemma {:induction false} LookupLast(ms: seq<Member>, i: int)
    requires 0 <= i < |ms|
    requires forall j :: i < j < |ms| ==> ms[j].key != ms[i].key
    ensures Lookup(ms, ms[i].key) == Some(ms[i].value)
  {
    if i < |ms| - 1 {
      LookupLast(ms[..|ms| - 1], i);
    }
  }
}
