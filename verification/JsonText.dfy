/**
 JSON texts: an ordered syntax tree, its compact rendering, and a reference parser that follows
 sections 2 to 7 of RFC 8259. The parser is written from the grammar, not from the renderer.
 */
module JsonText {
  import opened Basics
  import opened Decimal

  /** A parsed text: members keep their order and may repeat a key; a float keeps its token. */
  datatype Doc =
    | Null
    | Bool(b: bool)
    | Int(n: int)
    | Float(token: string)
    | Str(s: string)
    | Arr(items: seq<Doc>)
    | Obj(members: seq<Member>)

  datatype Member = Member(key: string, value: Doc)

  // ---------------------------------------------------------------- numbers (section 6)

  predicate IsNumberChar(c: char) {
    IsDigit(c) || c == '+' || c == '-' || c == '.' || c == 'e' || c == 'E'
  }

  /** `"." 1*DIGIT`, or nothing. */
  predicate IsFraction(s: string) {
    s == "" || (s[0] == '.' && |s| > 1 && AllDigits(s[1..]))
  }

  /** `e` or `E`, an optional sign, and at least one digit; or nothing. */
  predicate IsExponent(s: string) {
    s == "" ||
    ((s[0] == 'e' || s[0] == 'E') && |s| > 1 &&
     var body := if s[1] == '+' || s[1] == '-' then s[2..] else s[1..];
     body != "" && AllDigits(body))
  }

  /** A grammatical number that has a fraction or an exponent. */
  predicate IsFloatToken(s: string) {
    exists i, j | 0 <= i <= j <= |s| :: IsFloatSplit(s, i, j)
  }

  predicate IsFloatSplit(s: string, i: int, j: int) {
    0 <= i <= j <= |s| && i < |s| && IsIntToken(s[..i]) && IsFraction(s[i..j]) && IsExponent(s[j..])
  }

  // ---------------------------------------------------------------- rendering

  function HexDigit(n: nat): char
    requires n < 16
  {
    "0123456789abcdef"[n]
  }

  /** The four lower-case hexadecimal digits of a code unit. */
  function Hex4(n: nat): (s: string)
    requires n < 0x10000
    ensures |s| == 4
  {
    var n1 := n / 16;
    var n2 := n1 / 16;
    [HexDigit(n2 / 16), HexDigit(n2 % 16), HexDigit(n1 % 16), HexDigit(n % 16)]
  }

  /** The characters Go's `json.Marshal` escapes on top of the ones section 7 demands. */
  predicate HtmlSensitive(c: char) {
    c == '<' || c == '>' || c == '&' || c as int == 0x2028 || c as int == 0x2029
  }

  /** The two-character escapes of section 7 that the writers use. */
  function ShortEscape(c: char): Option<char> {
    if c == '"' then Some('"')
    else if c == '\\' then Some('\\')
    else if c as int == 0x08 then Some('b')
    else if c as int == 0x0C then Some('f')
    else if c == '\n' then Some('n')
    else if c == '\r' then Some('r')
    else if c == '\t' then Some('t')
    else None
  }

  predicate NeedsUnicodeEscape(c: char, html: bool) {
    c as int < 0x20 || (html && HtmlSensitive(c))
  }

  function RenderRune(c: char, html: bool): string {
    if ShortEscape(c).Some? then ['\\', ShortEscape(c).value]
    else if NeedsUnicodeEscape(c, html) then ['\\', 'u'] + Hex4(c as int)
    else [c]
  }

  function RenderRunes(s: string, html: bool): string {
    if s == "" then "" else RenderRune(s[0], html) + RenderRunes(s[1..], html)
  }

  function RenderString(s: string, html: bool): string {
    "\"" + RenderRunes(s, html) + "\""
  }

  function Render(d: Doc, html: bool): string
    decreases d
  {
    match d
    case Null => "null"
    case Bool(b) => if b then "true" else "false"
    case Int(n) => FromInt(n)
    case Float(token) => token
    case Str(s) => RenderString(s, html)
    case Arr(items) => "[" + RenderItems(items, html) + "]"
    case Obj(members) => "{" + RenderMembers(members, html) + "}"
  }

  function RenderItems(items: seq<Doc>, html: bool): string
    decreases items
  {
    if items == [] then ""
    else Render(items[0], html) + (if |items| == 1 then "" else "," + RenderItems(items[1..], html))
  }

  function RenderMember(m: Member, html: bool): string
    decreases m
  {
    RenderString(m.key, html) + ":" + Render(m.value, html)
  }

  function RenderMembers(members: seq<Member>, html: bool): string
    decreases members
  {
    if members == [] then ""
    else RenderMember(members[0], html) +
         (if |members| == 1 then "" else "," + RenderMembers(members[1..], html))
  }

  /** Every float leaf holds a grammatical float token. */
  predicate WellFormed(d: Doc)
    decreases d
  {
    match d
    case Float(token) => IsFloatToken(token)
    case Arr(items) => forall i | 0 <= i < |items| :: WellFormed(items[i])
    case Obj(members) => forall i | 0 <= i < |members| :: WellFormed(members[i].value)
    case _ => true
  }

  // ---------------------------------------------------------------- reference parser

  predicate IsSpace(c: char) {
    c == ' ' || c == '\t' || c == '\n' || c == '\r'
  }

  function SkipSpace(s: string): (r: string)
    ensures |r| <= |s|
  {
    if s != "" && IsSpace(s[0]) then SkipSpace(s[1..]) else s
  }

  function HexValue(c: char): (r: Option<nat>)
    ensures r.Some? ==> r.value < 16
  {
    if '0' <= c <= '9' then Some(c as int - '0' as int)
    else if 'a' <= c <= 'f' then Some(c as int - 'a' as int + 10)
    else if 'A' <= c <= 'F' then Some(c as int - 'A' as int + 10)
    else None
  }

  function ParseHex4(s: string): (r: Option<nat>)
    ensures r.Some? ==> r.value < 0x10000 && |s| >= 4
  {
    if |s| < 4 then None
    else
      match (HexValue(s[0]), HexValue(s[1]), HexValue(s[2]), HexValue(s[3]))
      case (Some(a), Some(b), Some(c), Some(d)) => Some(((a * 16 + b) * 16 + c) * 16 + d)
      case _ => None
  }

  /** What follows a reverse solidus: the character it stands for, and the unread rest. */
  function ParseEscape(s: string): (r: Option<(char, string)>)
    ensures r.Some? ==> |r.value.1| < |s|
  {
    if s == "" then None
    else
      match s[0]
      case '"' => Some(('"', s[1..]))
      case '\\' => Some(('\\', s[1..]))
      case '/' => Some(('/', s[1..]))
      case 'b' => Some((0x08 as char, s[1..]))
      case 'f' => Some((0x0C as char, s[1..]))
      case 'n' => Some(('\n', s[1..]))
      case 'r' => Some(('\r', s[1..]))
      case 't' => Some(('\t', s[1..]))
      case 'u' => ParseUnicodeEscape(s[1..])
      case _ => None
  }

  /** A surrogate pair denotes one character; an unpaired surrogate becomes U+FFFD, as Go decodes it. */
  function ParseUnicodeEscape(s: string): (r: Option<(char, string)>)
    ensures r.Some? ==> |r.value.1| < |s|
  {
    match ParseHex4(s)
    case None => None
    case Some(n) =>
      if n < 0xD800 || 0xE000 <= n then Some((n as char, s[4..]))
      else if n < 0xDC00 && |s| >= 6 && s[4..6] == "\\u" then
        match ParseHex4(s[6..])
        case Some(low) =>
          if 0xDC00 <= low < 0xE000
          then Some((((n - 0xD800) * 0x400 + (low - 0xDC00) + 0x10000) as char, s[10..]))
          else Some((0xFFFD as char, s[4..]))
        case None => Some((0xFFFD as char, s[4..]))
      else Some((0xFFFD as char, s[4..]))
  }

  /** The text after an opening quotation mark: the string, and what follows its closing mark. */
  function ParseRunes(s: string): (r: Option<(string, string)>)
    ensures r.Some? ==> |r.value.1| < |s|
    decreases |s|
  {
    if s == "" then None
    else if s[0] == '"' then Some(("", s[1..]))
    else if s[0] == '\\' then
      match ParseEscape(s[1..])
      case None => None
      case Some((c, rest)) => PrependRune(c, ParseRunes(rest))
    else if s[0] as int < 0x20 then None
    else PrependRune(s[0], ParseRunes(s[1..]))
  }

  function PrependRune(c: char, r: Option<(string, string)>): Option<(string, string)> {
    match r
    case None => None
    case Some((tail, rest)) => Some(([c] + tail, rest))
  }

  /** The longest run of characters that can occur in a number. */
  function NumberRun(s: string): (n: nat)
    ensures n <= |s|
  {
    if s != "" && IsNumberChar(s[0]) then 1 + NumberRun(s[1..]) else 0
  }

  function ParseNumber(s: string): (r: Option<(Doc, string)>)
    ensures r.Some? ==> |r.value.1| < |s|
  {
    var n := NumberRun(s);
    var token := s[..n];
    if n == 0 then None
    else if IsIntToken(token) then Some((Int(ToInt(token)), s[n..]))
    else if IsFloatToken(token) then Some((Float(token), s[n..]))
    else None
  }

  function ParseLiteral(s: string): (r: Option<(Doc, string)>)
    ensures r.Some? ==> |r.value.1| < |s|
  {
    if "null" <= s then Some((Null, s[4..]))
    else if "true" <= s then Some((Bool(true), s[4..]))
    else if "false" <= s then Some((Bool(false), s[5..]))
    else None
  }

  function ParseValue(text: string): (r: Option<(Doc, string)>)
    ensures r.Some? ==> |r.value.1| < |text|
    decreases |text|, 1
  {
    var s := SkipSpace(text);
    if s == "" then None
    else if s[0] == '"' then
      match ParseRunes(s[1..])
      case None => None
      case Some((str, rest)) => Some((Str(str), rest))
    else if s[0] == '[' then ParseArray(s[1..])
    else if s[0] == '{' then ParseObject(s[1..])
    else if s[0] == '-' || IsDigit(s[0]) then ParseNumber(s)
    else ParseLiteral(s)
  }

  /** The text after an opening bracket. */
  function ParseArray(text: string): (r: Option<(Doc, string)>)
    ensures r.Some? ==> |r.value.1| <= |text|
    decreases |text|, 3
  {
    var s := SkipSpace(text);
    if s != "" && s[0] == ']' then Some((Arr([]), s[1..]))
    else
      match ParseItems(s)
      case None => None
      case Some((items, rest)) => Some((Arr(items), rest))
  }

  /** The text after an opening brace. */
  function ParseObject(text: string): (r: Option<(Doc, string)>)
    ensures r.Some? ==> |r.value.1| <= |text|
    decreases |text|, 3
  {
    var s := SkipSpace(text);
    if s != "" && s[0] == '}' then Some((Obj([]), s[1..]))
    else
      match ParseMembers(s)
      case None => None
      case Some((members, rest)) => Some((Obj(members), rest))
  }

  /** One or more comma-separated values and the closing bracket. */
  function ParseItems(s: string): (r: Option<(seq<Doc>, string)>)
    ensures r.Some? ==> |r.value.1| < |s|
    decreases |s|, 2
  {
    match ParseValue(s)
    case None => None
    case Some((d, rest)) =>
      var t := SkipSpace(rest);
      if t == "" then None
      else if t[0] == ']' then Some(([d], t[1..]))
      else if t[0] == ',' then
        (match ParseItems(t[1..])
         case None => None
         case Some((more, end)) => Some(([d] + more, end)))
      else None
  }

  /** One or more comma-separated members and the closing brace. */
  function ParseMembers(s: string): (r: Option<(seq<Member>, string)>)
    ensures r.Some? ==> |r.value.1| < |s|
    decreases |s|, 2
  {
    match ParseMember(s)
    case None => None
    case Some((m, rest)) =>
      var t := SkipSpace(rest);
      if t == "" then None
      else if t[0] == '}' then Some(([m], t[1..]))
      else if t[0] == ',' then
        (match ParseMembers(t[1..])
         case None => None
         case Some((more, end)) => Some(([m] + more, end)))
      else None
  }

  function ParseMember(text: string): (r: Option<(Member, string)>)
    ensures r.Some? ==> |r.value.1| < |text|
    decreases |text|, 1
  {
    var s := SkipSpace(text);
    if s == "" || s[0] != '"' then None
    else
      match ParseRunes(s[1..])
      case None => None
      case Some((key, rest)) =>
        match ParseMemberValue(rest)
        case None => None
        case Some((d, end)) => Some((Member(key, d), end))
  }

  /** The text after a member's key: a colon and a value. */
  function ParseMemberValue(text: string): (r: Option<(Doc, string)>)
    ensures r.Some? ==> |r.value.1| < |text|
    decreases |text|, 2
  {
    var s := SkipSpace(text);
    if s == "" || s[0] != ':' then None else ParseValue(s[1..])
  }

  /** A whole text: one value, with nothing but white space after it. */
  function Parse(text: string): Option<Doc> {
    match ParseValue(text)
    case None => None
    case Some((d, rest)) => if SkipSpace(rest) == "" then Some(d) else None
  }

  // ---------------------------------------------------------------- the parser inverts the renderer

  /** What may follow a value without being read as part of a number. */
  predicate EndsNumber(rest: string) {
    rest == "" || !IsNumberChar(rest[0])
  }

  lemma HexDigitValue(n: nat)
    requires n < 16
    ensures HexValue(HexDigit(n)) == Some(n)
  {}

  lemma Hex4RoundTrip(n: nat, rest: string)
    requires n < 0x10000
    ensures ParseHex4(Hex4(n) + rest) == Some(n)
  {
    var n1 := n / 16;
    var n2 := n1 / 16;
    HexDigitValue(n2 / 16);
    HexDigitValue(n2 % 16);
    HexDigitValue(n1 % 16);
    HexDigitValue(n % 16);
  }

  lemma ShortEscapeRoundTrip(c: char, rest: string)
    requires ShortEscape(c).Some?
    ensures ParseEscape([ShortEscape(c).value] + rest) == Some((c, rest))
  {
    var s := [ShortEscape(c).value] + rest;
    assert s[1..] == rest;
  }

  lemma UnicodeEscapeRoundTrip(c: char, rest: string)
    requires c as int < 0x10000
    ensures ParseEscape(['u'] + (Hex4(c as int) + rest)) == Some((c, rest))
  {
    var h := Hex4(c as int) + rest;
    var s := ['u'] + h;
    assert s[1..] == h;
    Hex4RoundTrip(c as int, rest);
    assert h[4..] == rest;
  }

  lemma RuneRoundTrip(c: char, html: bool, rest: string)
    ensures ParseRunes(RenderRune(c, html) + rest) == PrependRune(c, ParseRunes(rest))
  {
    var s := RenderRune(c, html) + rest;
    if ShortEscape(c).Some? {
      assert s[1..] == [ShortEscape(c).value] + rest;
      ShortEscapeRoundTrip(c, rest);
    } else if NeedsUnicodeEscape(c, html) {
      assert s[1..] == ['u'] + (Hex4(c as int) + rest);
      UnicodeEscapeRoundTrip(c, rest);
    } else {
      assert s[1..] == rest;
    }
  }

  lemma {:induction false} StringRoundTrip(str: string, html: bool, tail: string)
    requires tail != "" && tail[0] == '"'
    ensures ParseRunes(RenderRunes(str, html) + tail) == Some((str, tail[1..]))
  {
    if str == "" {
      assert RenderRunes(str, html) + tail == tail;
    } else {
      var more := RenderRunes(str[1..], html) + tail;
      assert RenderRunes(str, html) + tail == RenderRune(str[0], html) + more;
      RuneRoundTrip(str[0], html, more);
      StringRoundTrip(str[1..], html, tail);
      assert [str[0]] + str[1..] == str;
    }
  }

  lemma {:induction false} NumberRunStops(token: string, rest: string)
    requires forall i | 0 <= i < |token| :: IsNumberChar(token[i])
    requires EndsNumber(rest)
    ensures NumberRun(token + rest) == |token|
  {
    if token == "" {
      assert token + rest == rest;
    } else {
      NumberRunStops(token[1..], rest);
      assert (token + rest)[1..] == token[1..] + rest;
    }
  }

  lemma IntTokenChars(s: string)
    requires IsIntToken(s)
    ensures s != "" && (s[0] == '-' || IsDigit(s[0]))
    ensures forall i | 0 <= i < |s| :: IsDigit(s[i]) || s[i] == '-'
  {
    assert forall i | 1 <= i < |s| :: s[i] == s[1..][i - 1];
  }

  lemma FractionChars(s: string)
    requires IsFraction(s)
    ensures forall i | 0 <= i < |s| :: IsNumberChar(s[i])
  {
    assert forall i | 1 <= i < |s| :: s[i] == s[1..][i - 1];
  }

  lemma ExponentChars(s: string)
    requires IsExponent(s)
    ensures forall i | 0 <= i < |s| :: IsNumberChar(s[i])
  {
    assert forall i | 1 <= i < |s| :: s[i] == s[1..][i - 1];
    assert forall i | 2 <= i < |s| :: s[i] == s[2..][i - 2];
  }

  lemma FloatTokenShape(token: string)
    requires IsFloatToken(token)
    ensures token != "" && (token[0] == '-' || IsDigit(token[0]))
    ensures forall i | 0 <= i < |token| :: IsNumberChar(token[i])
    ensures !IsIntToken(token)
  {
    var i, j :| IsFloatSplit(token, i, j);
    FloatSplitShape(token, i, j);
  }

  lemma FloatSplitShape(token: string, i: int, j: int)
    requires IsFloatSplit(token, i, j)
    ensures token[0] == '-' || IsDigit(token[0])
    ensures forall i | 0 <= i < |token| :: IsNumberChar(token[i])
    ensures !IsIntToken(token)
  {
    var whole, fraction, exponent := token[..i], token[i..j], token[j..];
    IntTokenChars(whole);
    FractionChars(fraction);
    ExponentChars(exponent);
    assert token == whole + fraction + exponent;
    assert token[i] == if i < j then fraction[0] else exponent[0];
    if IsIntToken(token) {
      IntTokenChars(token);
    }
  }

  lemma IntTokenShape(n: int)
    ensures var t := FromInt(n); t != "" && (t[0] == '-' || IsDigit(t[0]))
    ensures forall i | 0 <= i < |FromInt(n)| :: IsNumberChar(FromInt(n)[i])
  {}

  lemma NumberRoundTrip(d: Doc, html: bool, rest: string)
    requires (d.Int? || d.Float?) && WellFormed(d) && EndsNumber(rest)
    ensures ParseNumber(Render(d, html) + rest) == Some((d, rest))
  {
    var token := Render(d, html);
    if d.Int? {
      IntTokenShape(d.n);
      IntRoundTrip(d.n);
    } else {
      FloatTokenShape(d.token);
    }
    NumberRunStops(token, rest);
    var s := token + rest;
    assert s[..|token|] == token && s[|token|..] == rest;
  }

  lemma LiteralRoundTrip(d: Doc, html: bool, rest: string)
    requires d.Null? || d.Bool?
    ensures ParseLiteral(Render(d, html) + rest) == Some((d, rest))
  {
    var s := Render(d, html) + rest;
    assert s[|Render(d, html)|..] == rest;
    assert s[0] == Render(d, html)[0];
  }

  lemma Cons(c: char, s: string)
    ensures ([c] + s)[0] == c && ([c] + s)[1..] == s
  {}

  lemma ItemsText(items: seq<Doc>, html: bool, tail: string)
    requires |items| > 1
    ensures RenderItems(items, html) + tail
         == Render(items[0], html) + ([','] + (RenderItems(items[1..], html) + tail))
  {}

  lemma MembersText(members: seq<Member>, html: bool, tail: string)
    requires |members| > 1
    ensures RenderMembers(members, html) + tail
         == RenderMember(members[0], html) + ([','] + (RenderMembers(members[1..], html) + tail))
  {}

  lemma MemberText(m: Member, html: bool, rest: string)
    ensures var s := RenderMember(m, html) + rest;
            s[0] == '"' &&
            s[1..] == RenderRunes(m.key, html) + (['"'] + ([':'] + (Render(m.value, html) + rest)))
  {}

  /** The first character of a rendered value is neither white space nor punctuation that closes one. */
  lemma RenderStart(d: Doc, html: bool)
    requires WellFormed(d)
    ensures Render(d, html) != ""
    ensures var c := Render(d, html)[0]; !IsSpace(c) && c != ']'
  {
    match d {
      case Int(n) => IntTokenShape(n);
      case Float(token) => FloatTokenShape(token);
      case _ =>
    }
  }

  /**
   Unique decodability: reading back a rendered value, whatever follows it, gives exactly that value
   and exactly that remainder.
   */
  lemma {:induction false} RoundTrip(d: Doc, html: bool, rest: string)
    requires WellFormed(d) && EndsNumber(rest)
    ensures ParseValue(Render(d, html) + rest) == Some((d, rest))
    decreases d, 0
  {
    match d {
      case Str(str) => StringValueRoundTrip(str, html, rest);
      case Arr(items) => ArrayValueRoundTrip(items, html, rest);
      case Obj(members) => ObjectValueRoundTrip(members, html, rest);
      case _ => ScalarRoundTrip(d, html, rest);
    }
  }

  lemma ScalarRoundTrip(d: Doc, html: bool, rest: string)
    requires d.Null? || d.Bool? || d.Int? || d.Float?
    requires WellFormed(d) && EndsNumber(rest)
    ensures ParseValue(Render(d, html) + rest) == Some((d, rest))
  {
    var s := Render(d, html) + rest;
    RenderStart(d, html);
    assert s[0] == Render(d, html)[0];
    assert SkipSpace(s) == s;
    if d.Null? || d.Bool? {
      LiteralRoundTrip(d, html, rest);
    } else {
      if d.Int? { IntTokenShape(d.n); } else { FloatTokenShape(d.token); }
      NumberRoundTrip(d, html, rest);
    }
  }

  lemma StringValueRoundTrip(str: string, html: bool, rest: string)
    ensures ParseValue(Render(Str(str), html) + rest) == Some((Str(str), rest))
  {
    var s := Render(Str(str), html) + rest;
    var tail := ['"'] + rest;
    assert s[0] == '"' && s[1..] == RenderRunes(str, html) + tail;
    StringRoundTrip(str, html, tail);
    assert tail[1..] == rest;
  }

  lemma {:induction false} ArrayValueRoundTrip(items: seq<Doc>, html: bool, rest: string)
    requires forall i | 0 <= i < |items| :: WellFormed(items[i])
    ensures ParseValue(Render(Arr(items), html) + rest) == Some((Arr(items), rest))
    decreases items, 2
  {
    var s := Render(Arr(items), html) + rest;
    var tail := [']'] + rest;
    assert s[0] == '[' && s[1..] == RenderItems(items, html) + tail;
    ArrayRoundTrip(items, html, tail);
    assert tail[1..] == rest;
  }

  lemma {:induction false} ObjectValueRoundTrip(members: seq<Member>, html: bool, rest: string)
    requires forall i | 0 <= i < |members| :: WellFormed(members[i].value)
    ensures ParseValue(Render(Obj(members), html) + rest) == Some((Obj(members), rest))
    decreases members, 2
  {
    var s := Render(Obj(members), html) + rest;
    var tail := ['}'] + rest;
    assert s[0] == '{' && s[1..] == RenderMembers(members, html) + tail;
    ObjectRoundTrip(members, html, tail);
    assert tail[1..] == rest;
  }

  lemma {:induction false} ArrayRoundTrip(items: seq<Doc>, html: bool, tail: string)
    requires forall i | 0 <= i < |items| :: WellFormed(items[i])
    requires tail != "" && tail[0] == ']'
    ensures ParseArray(RenderItems(items, html) + tail) == Some((Arr(items), tail[1..]))
    decreases items, 1
  {
    var s := RenderItems(items, html) + tail;
    if items == [] {
      assert s == tail;
    } else {
      RenderStart(items[0], html);
      assert s[0] == Render(items[0], html)[0];
      ItemsRoundTrip(items, html, tail);
    }
  }

  lemma {:induction false} ItemsRoundTrip(items: seq<Doc>, html: bool, tail: string)
    requires items != [] && forall i | 0 <= i < |items| :: WellFormed(items[i])
    requires tail != "" && tail[0] == ']'
    ensures ParseItems(RenderItems(items, html) + tail) == Some((items, tail[1..]))
    decreases items, 0
  {
    if |items| == 1 {
      RoundTrip(items[0], html, tail);
      assert RenderItems(items, html) == Render(items[0], html);
      assert [items[0]] == items;
    } else {
      var more := RenderItems(items[1..], html) + tail;
      ItemsText(items, html, tail);
      Cons(',', more);
      RoundTrip(items[0], html, [','] + more);
      ItemsRoundTrip(items[1..], html, tail);
      assert [items[0]] + items[1..] == items;
    }
  }

  lemma {:induction false} ObjectRoundTrip(members: seq<Member>, html: bool, tail: string)
    requires forall i | 0 <= i < |members| :: WellFormed(members[i].value)
    requires tail != "" && tail[0] == '}'
    ensures ParseObject(RenderMembers(members, html) + tail) == Some((Obj(members), tail[1..]))
    decreases members, 1
  {
    var s := RenderMembers(members, html) + tail;
    if members == [] {
      assert s == tail;
    } else {
      assert s[0] == RenderMember(members[0], html)[0] == '"';
      MembersRoundTrip(members, html, tail);
    }
  }

  lemma {:induction false} MembersRoundTrip(members: seq<Member>, html: bool, tail: string)
    requires members != [] && forall i | 0 <= i < |members| :: WellFormed(members[i].value)
    requires tail != "" && tail[0] == '}'
    ensures ParseMembers(RenderMembers(members, html) + tail) == Some((members, tail[1..]))
    decreases members, 0
  {
    if |members| == 1 {
      MemberRoundTrip(members[0], html, tail);
      assert RenderMembers(members, html) == RenderMember(members[0], html);
      assert [members[0]] == members;
    } else {
      var more := RenderMembers(members[1..], html) + tail;
      MembersText(members, html, tail);
      Cons(',', more);
      MemberRoundTrip(members[0], html, [','] + more);
      MembersRoundTrip(members[1..], html, tail);
      assert [members[0]] + members[1..] == members;
    }
  }

  lemma {:induction false} MemberRoundTrip(m: Member, html: bool, rest: string)
    requires WellFormed(m.value) && EndsNumber(rest)
    ensures ParseMember(RenderMember(m, html) + rest) == Some((m, rest))
    decreases m
  {
    var value := [':'] + (Render(m.value, html) + rest);
    MemberText(m, html, rest);
    Cons('"', value);
    StringRoundTrip(m.key, html, ['"'] + value);
    MemberValueRoundTrip(m.value, html, rest);
  }

  lemma {:induction false} MemberValueRoundTrip(d: Doc, html: bool, rest: string)
    requires WellFormed(d) && EndsNumber(rest)
    ensures ParseMemberValue([':'] + (Render(d, html) + rest)) == Some((d, rest))
    decreases d, 1
  {
    Cons(':', Render(d, html) + rest);
    RoundTrip(d, html, rest);
  }

  /** A rendered text parses, as a whole, to the document it renders. */
  lemma ParseRender(d: Doc, html: bool)
    requires WellFormed(d)
    ensures Parse(Render(d, html)) == Some(d)
  {
    RoundTrip(d, html, "");
    assert Render(d, html) + "" == Render(d, html);
  }

  // ---------------------------------------------------------------- whatever parses is well formed

  lemma {:induction false} ParsedValue(text: string)
    ensures ParseValue(text).Some? ==> WellFormed(ParseValue(text).value.0)
    decreases |text|, 1
  {
    var s := SkipSpace(text);
    if s != "" && s[0] == '[' {
      ParsedArray(s[1..]);
    } else if s != "" && s[0] == '{' {
      ParsedObject(s[1..]);
    }
  }

  lemma {:induction false} ParsedArray(text: string)
    ensures ParseArray(text).Some? ==> WellFormed(ParseArray(text).value.0)
    decreases |text|, 3
  {
    ParsedItems(SkipSpace(text));
  }

  lemma {:induction false} ParsedObject(text: string)
    ensures ParseObject(text).Some? ==> WellFormed(ParseObject(text).value.0)
    decreases |text|, 3
  {
    ParsedMembers(SkipSpace(text));
  }

  lemma {:induction false} ParsedItems(s: string)
    ensures ParseItems(s).Some? ==> WellFormed(Arr(ParseItems(s).value.0))
    decreases |s|, 2
  {
    ParsedValue(s);
    if ParseValue(s).Some? {
      var t := SkipSpace(ParseValue(s).value.1);
      if t != "" && t[0] == ',' {
        ParsedItems(t[1..]);
      }
    }
  }

  lemma {:induction false} ParsedMembers(s: string)
    ensures ParseMembers(s).Some? ==> WellFormed(Obj(ParseMembers(s).value.0))
    decreases |s|, 2
  {
    ParsedMember(s);
    if ParseMember(s).Some? {
      var t := SkipSpace(ParseMember(s).value.1);
      if t != "" && t[0] == ',' {
        ParsedMembers(t[1..]);
      }
    }
  }

  lemma {:induction false} ParsedMember(text: string)
    ensures ParseMember(text).Some? ==> WellFormed(ParseMember(text).value.0.value)
    decreases |text|, 1
  {
    var s := SkipSpace(text);
    if s != "" && s[0] == '"' && ParseRunes(s[1..]).Some? {
      ParsedMemberValue(ParseRunes(s[1..]).value.1);
    }
  }

  lemma {:induction false} ParsedMemberValue(text: string)
    ensures ParseMemberValue(text).Some? ==> WellFormed(ParseMemberValue(text).value.0)
    decreases |text|, 2
  {
    var s := SkipSpace(text);
    if s != "" && s[0] == ':' {
      ParsedValue(s[1..]);
    }
  }

  /** Every float in a parsed payload, whatever its white space and escapes, is a grammatical token. */
  lemma ParseWellFormed(text: string)
    ensures Parse(text).Some? ==> WellFormed(Parse(text).value)
  {
    ParsedValue(text);
  }
}
