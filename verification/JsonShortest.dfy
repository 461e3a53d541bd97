/**
 The rendering is as short as a JSON text can be: no text that parses to the same document is shorter, and
 no other text of one character is as short in lower-case hexadecimal.
 */
module JsonShortest {
  import opened Basics
  import opened Decimal
  import opened JsonText

  // ---------------------------------------------------------------- numbers

  lemma {:induction false} DigitsUnique(s: string)
    requires s != "" && AllDigits(s) && (s[0] == '0' ==> |s| == 1)
    ensures Digits(ToNat(s)) == s
    decreases |s|
  {
    var n := |s| - 1;
    if n == 0 {
      assert ToNat(s[..0]) == 0;
    } else {
      DigitsUnique(s[..n]);
      var m := ToNat(s[..n]);
      assert m != 0;
      assert ToNat(s) / 10 == m && ToNat(s) % 10 == s[n] as int - '0' as int;
      assert s == s[..n] + [s[n]];
    }
  }

  /** An integer has one token, but for a minus sign before zero. */
  lemma IntTokenUnique(t: string)
    requires IsIntToken(t)
    ensures if t == "-0" then FromInt(ToInt(t)) == "0" else FromInt(ToInt(t)) == t
  {
    if t[0] == '-' {
      DigitsUnique(t[1..]);
      assert t == "-" + t[1..];
      assert ToNat(t[1..]) == 0 ==> t[1..] == Digits(0) == "0";
    } else {
      DigitsUnique(t);
    }
  }

  // ---------------------------------------------------------------- strings

  /** No escape is shorter than the one written. */
  lemma EscapeShortest(s: string)
    requires ParseEscape(s).Some?
    ensures var (c, rest) := ParseEscape(s).value; |RenderRune(c, false)| + |rest| <= 1 + |s|
  {}

  lemma {:induction false} RunesShortest(s: string)
    requires ParseRunes(s).Some?
    ensures var (str, rest) := ParseRunes(s).value; |RenderRunes(str, false)| + 1 + |rest| <= |s|
    decreases |s|
  {
    if s[0] == '\\' {
      var (c, rest) := ParseEscape(s[1..]).value;
      EscapeShortest(s[1..]);
      RunesShortest(rest);
      RunesPrepend(c, ParseRunes(rest).value.0);
    } else if s[0] != '"' {
      RunesShortest(s[1..]);
      RunesPrepend(s[0], ParseRunes(s[1..]).value.0);
    }
  }

  lemma RunesPrepend(c: char, tail: string)
    ensures RenderRunes([c] + tail, false) == RenderRune(c, false) + RenderRunes(tail, false)
  {
    assert ([c] + tail)[1..] == tail;
  }

  predicate IsUpperHex(c: char) {
    'A' <= c <= 'F'
  }

  /** Escapes are written in lower case. */
  predicate LowerCase(t: string) {
    |t| > 1 ==> forall i | 0 <= i < |t| :: !IsUpperHex(t[i])
  }

  lemma LowerDigit(c: char)
    requires HexValue(c).Some? && !IsUpperHex(c)
    ensures HexDigit(HexValue(c).value) == c
  {
    var hex := "0123456789abcdef";
    assert hex[0] == '0' && hex[1] == '1' && hex[2] == '2' && hex[3] == '3' && hex[4] == '4' && hex[5] == '5';
    assert hex[6] == '6' && hex[7] == '7' && hex[8] == '8' && hex[9] == '9' && hex[10] == 'a' && hex[11] == 'b';
    assert hex[12] == 'c' && hex[13] == 'd' && hex[14] == 'e' && hex[15] == 'f';
  }

  lemma LastNibble(m: nat, d: nat)
    requires d < 16
    ensures (m * 16 + d) / 16 == m && (m * 16 + d) % 16 == d
  {}

  lemma Nibbles(a: nat, b: nat, c: nat, d: nat, n: nat)
    requires a < 16 && b < 16 && c < 16 && d < 16 && n == ((a * 16 + b) * 16 + c) * 16 + d
    ensures n / 16 / 16 / 16 == a && n / 16 / 16 % 16 == b && n / 16 % 16 == c && n % 16 == d
  {
    LastNibble((a * 16 + b) * 16 + c, d);
    LastNibble(a * 16 + b, c);
    LastNibble(a, b);
  }

  lemma HexOf(s: string)
    requires ParseHex4(s).Some?
    ensures HexValue(s[0]).Some? && HexValue(s[1]).Some? && HexValue(s[2]).Some? && HexValue(s[3]).Some?
    ensures var n := ParseHex4(s).value;
            && n / 16 / 16 / 16 == HexValue(s[0]).value && n / 16 / 16 % 16 == HexValue(s[1]).value
            && n / 16 % 16 == HexValue(s[2]).value && n % 16 == HexValue(s[3]).value
  {
    var a, b, c, d := HexValue(s[0]).value, HexValue(s[1]).value, HexValue(s[2]).value, HexValue(s[3]).value;
    Nibbles(a, b, c, d, ParseHex4(s).value);
  }

  lemma Hex4Unique(s: string)
    requires ParseHex4(s).Some? && forall i | 0 <= i < 4 :: !IsUpperHex(s[i])
    ensures Hex4(ParseHex4(s).value) == s[..4]
  {
    HexOf(s);
    LowerDigit(s[0]);
    LowerDigit(s[1]);
    LowerDigit(s[2]);
    LowerDigit(s[3]);
  }

  /** The text between the quotation marks of a string of one character. */
  predicate Spells(t: string, c: char) {
    ParseRunes(t + "\"") == Some(([c], ""))
  }

  lemma EndOfString(s: string)
    requires ParseRunes(s) == Some(("", ""))
    ensures s == "\""
  {
    assert s[0] == '"';
    assert s[1..] == "";
  }

  /** What stands for one character is that character or one escape. */
  lemma SpellsOne(t: string, c: char)
    requires Spells(t, c)
    ensures t == [c] || (t != "" && t[0] == '\\' && ParseEscape(t[1..] + "\"") == Some((c, "\"")))
  {
    var s := t + "\"";
    assert t != "";
    assert s[1..] == t[1..] + "\"";
    if s[0] == '\\' {
      var (d, rest) := ParseEscape(s[1..]).value;
      assert ([d] + ParseRunes(rest).value.0)[0] == [c][0] == c;
      assert ([d] + ParseRunes(rest).value.0)[1..] == [c][1..] == "";
      EndOfString(rest);
    } else {
      assert [s[0]] + ParseRunes(s[1..]).value.0 == [c];
      assert ([s[0]] + ParseRunes(s[1..]).value.0)[1..] == [c][1..] == "";
      EndOfString(s[1..]);
      assert |t| == 1;
    }
  }

  /**
   Of all ways to write a character in a JSON string the writer takes the shortest, and its hexadecimal
   digits are lower-case; that leaves exactly one way.
   */
  lemma ShortestSpelling(c: char, t: string)
    requires Spells(t, c)
    ensures |RenderRune(c, false)| <= |t|
    ensures |RenderRune(c, false)| == |t| && LowerCase(t) ==> RenderRune(c, false) == t
  {
    SpellsOne(t, c);
    if t != [c] {
      var s := t[1..] + "\"";
      EscapeShortest(s);
      if |RenderRune(c, false)| == |t| && LowerCase(t) {
        SameEscape(c, t);
      }
    } else {
      RawCharacter(c);
    }
  }

  lemma RawCharacter(c: char)
    requires Spells([c], c)
    ensures RenderRune(c, false) == [c]
  {
    var s := [c] + "\"";
    assert s[0] == c && s[1..] == "\"";
  }

  lemma SameEscape(c: char, t: string)
    requires t != "" && t[0] == '\\' && ParseEscape(t[1..] + "\"") == Some((c, "\""))
    requires |RenderRune(c, false)| == |t| && LowerCase(t)
    ensures RenderRune(c, false) == t
  {
    var s := t[1..] + "\"";
    if s[0] == 'u' {
      assert s[1..] == t[2..] + "\"";
      assert |t| >= 6;
      assert |t| == 6 && s[1..][4..] == "\"";
      assert forall i | 0 <= i < 4 :: s[1..][i] == t[i + 2];
      Hex4Unique(s[1..]);
      assert s[1..][..4] == t[2..];
      assert t == ['\\', 'u'] + t[2..];
    } else {
      assert s[1..] == "\"";
      assert |t| == 2 && t == ['\\', t[1]];
    }
  }

  /** The writer's own spelling is one of them. */
  lemma SpellingIsLower(c: char)
    ensures Spells(RenderRune(c, false), c) && LowerCase(RenderRune(c, false))
  {
    RuneRoundTrip(c, false, "\"");
    assert ParseRunes("\"") == Some(("", ""));
    assert [c] + "" == [c];
  }

  /** Of the characters JSON allows unescaped, Go's encoder escapes these five on top, and no others. */
  lemma HtmlEscapes(c: char)
    ensures c !in {'<', '>', '&', 0x2028 as char, 0x2029 as char} ==> RenderRune(c, true) == RenderRune(c, false)
    ensures c in {'<', '>', '&', 0x2028 as char, 0x2029 as char} ==>
            RenderRune(c, true) == "\\u" + Hex4(c as int)
  {}

  // ---------------------------------------------------------------- whole texts

  /** Wherever a value is read, its rendering would have taken no more room. */
  lemma {:induction false} ValueShortest(text: string)
    requires ParseValue(text).Some?
    ensures var (d, rest) := ParseValue(text).value; |Render(d, false)| + |rest| <= |text|
    decreases |text|, 1
  {
    var s := SkipSpace(text);
    if s[0] == '"' {
      RunesShortest(s[1..]);
    } else if s[0] == '[' {
      ArrayShortest(s[1..]);
    } else if s[0] == '{' {
      ObjectShortest(s[1..]);
    } else if s[0] == '-' || IsDigit(s[0]) {
      var n := NumberRun(s);
      if IsIntToken(s[..n]) {
        IntTokenUnique(s[..n]);
      }
    }
  }

  lemma {:induction false} ArrayShortest(text: string)
    requires ParseArray(text).Some?
    ensures var (d, rest) := ParseArray(text).value; |Render(d, false)| + |rest| <= |text| + 1
    decreases |text|, 3
  {
    var s := SkipSpace(text);
    if s[0] != ']' {
      ItemsShortest(s);
    }
  }

  lemma {:induction false} ObjectShortest(text: string)
    requires ParseObject(text).Some?
    ensures var (d, rest) := ParseObject(text).value; |Render(d, false)| + |rest| <= |text| + 1
    decreases |text|, 3
  {
    var s := SkipSpace(text);
    if s[0] != '}' {
      MembersShortest(s);
    }
  }

  lemma {:induction false} ItemsShortest(s: string)
    requires ParseItems(s).Some?
    ensures var (items, rest) := ParseItems(s).value; |RenderItems(items, false)| + 1 + |rest| <= |s|
    decreases |s|, 2
  {
    ValueShortest(s);
    var (d, rest) := ParseValue(s).value;
    var t := SkipSpace(rest);
    if t[0] == ',' {
      ItemsShortest(t[1..]);
      var more := ParseItems(t[1..]).value.0;
      assert ([d] + more)[1..] == more;
    }
  }

  lemma {:induction false} MembersShortest(s: string)
    requires ParseMembers(s).Some?
    ensures var (members, rest) := ParseMembers(s).value; |RenderMembers(members, false)| + 1 + |rest| <= |s|
    decreases |s|, 2
  {
    MemberShortest(s);
    var (m, rest) := ParseMember(s).value;
    var t := SkipSpace(rest);
    if t[0] == ',' {
      MembersShortest(t[1..]);
      var more := ParseMembers(t[1..]).value.0;
      assert ([m] + more)[1..] == more;
    }
  }

  lemma {:induction false} MemberShortest(text: string)
    requires ParseMember(text).Some?
    ensures var (m, rest) := ParseMember(text).value; |RenderMember(m, false)| + |rest| <= |text|
    decreases |text|, 1
  {
    var s := SkipSpace(text);
    RunesShortest(s[1..]);
    var rest := ParseRunes(s[1..]).value.1;
    ValueShortest(SkipSpace(rest)[1..]);
  }

  /** No text that parses to a document is shorter than its rendering. */
  lemma ShortestText(text: string, d: Doc)
    requires Parse(text) == Some(d)
    ensures |Render(d, false)| <= |text|
  {
    ValueShortest(text);
  }
}
