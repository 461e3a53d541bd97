/** The string helpers of Go's standard library that the intent service and the router publication rely on. */
module GoText {

  /** `unicode.IsSpace`. */
  predicate IsSpace(c: char) {
    var n := c as int;
    9 <= n <= 13 || n == 0x20 || n == 0x85 || n == 0xA0 || n == 0x1680 || 0x2000 <= n <= 0x200A ||
    n == 0x2028 || n == 0x2029 || n == 0x202F || n == 0x205F || n == 0x3000
  }

  function TrimLeft(s: string): string {
    if s != "" && IsSpace(s[0]) then TrimLeft(s[1..]) else s
  }

  function TrimRight(s: string): string {
    if s != "" && IsSpace(s[|s| - 1]) then TrimRight(s[..|s| - 1]) else s
  }

  /** `strings.TrimSpace`. */
  function TrimSpace(s: string): string {
    TrimRight(TrimLeft(s))
  }

  predicate Blank(s: string) {
    TrimSpace(s) == ""
  }

  /** A string whose ends are not spaces is its own trimming. */
  lemma TrimSpaceIdentity(s: string)
    requires s != "" && !IsSpace(s[0]) && !IsSpace(s[|s| - 1])
    ensures TrimSpace(s) == s && !Blank(s)
  {}

  /** Trimming never eats past a first character that is not a space. */
  lemma {:induction false} StartsNotBlank(s: string)
    requires s != "" && !IsSpace(s[0])
    ensures !Blank(s)
    decreases |s|
  {
    if |s| > 1 && IsSpace(s[|s| - 1]) {
      StartsNotBlank(s[..|s| - 1]);
    }
  }

  predicate AllSpace(s: string) {
    forall i | 0 <= i < |s| :: IsSpace(s[i])
  }

  lemma {:induction false} TrimLeftMeans(s: string) returns (left: string)
    ensures s == left + TrimLeft(s) && AllSpace(left)
    ensures TrimLeft(s) == "" || !IsSpace(TrimLeft(s)[0])
  {
    if s != "" && IsSpace(s[0]) {
      var rest := TrimLeftMeans(s[1..]);
      left := [s[0]] + rest;
    } else {
      left := "";
    }
  }

  lemma {:induction false} TrimRightMeans(s: string) returns (right: string)
    ensures s == TrimRight(s) + right && AllSpace(right)
    ensures TrimRight(s) == "" || !IsSpace(TrimRight(s)[|TrimRight(s)| - 1])
    decreases |s|
  {
    if s != "" && IsSpace(s[|s| - 1]) {
      var rest := TrimRightMeans(s[..|s| - 1]);
      right := rest + [s[|s| - 1]];
    } else {
      right := "";
    }
  }

  /** Trimming takes all the spaces at both ends and nothing else. */
  lemma TrimSpaceMeans(s: string) returns (left: string, right: string)
    ensures s == left + TrimSpace(s) + right && AllSpace(left) && AllSpace(right)
    ensures var t := TrimSpace(s); t == "" || (!IsSpace(t[0]) && !IsSpace(t[|t| - 1]))
  {
    left := TrimLeftMeans(s);
    right := TrimRightMeans(TrimLeft(s));
  }

  /** A string is blank exactly when it is all spaces. */
  lemma BlankIff(s: string)
    ensures Blank(s) <==> AllSpace(s)
  {
    var left, right := TrimSpaceMeans(s);
    var t := TrimSpace(s);
    if t == "" {
      assert s == left + right;
    } else {
      assert s[|left|] == t[0];
    }
  }

  function LowerRune(c: char): char {
    if 'A' <= c <= 'Z' then (c as int + 32) as char else c
  }

  /** `strings.ToLower` on the ASCII digests it is applied to. */
  function Lower(s: string): string {
    seq(|s|, i requires 0 <= i < |s| => LowerRune(s[i]))
  }

  /** Two characters that are the same, or one letter in both cases. */
  predicate SameLetter(a: char, b: char) {
    || a == b
    || ('A' <= a <= 'Z' && 'a' <= b <= 'z' && a as int - 'A' as int == b as int - 'a' as int)
    || ('A' <= b <= 'Z' && 'a' <= a <= 'z' && b as int - 'A' as int == a as int - 'a' as int)
  }

  /** Folding compares letter by letter without regard to case. */
  lemma EqualFoldMeans(a: string, b: string)
    ensures EqualFold(a, b) <==> |a| == |b| && forall i | 0 <= i < |a| :: SameLetter(a[i], b[i])
  {
    if |a| == |b| {
      forall i | 0 <= i < |a| ensures Lower(a)[i] == Lower(b)[i] <==> SameLetter(a[i], b[i]) {
      }
    }
  }

  /** `strings.EqualFold` where one side is a hexadecimal digest. */
  predicate EqualFold(a: string, b: string) {
    Lower(a) == Lower(b)
  }

  predicate IsHex(c: char) {
    '0' <= c <= '9' || 'a' <= c <= 'f' || 'A' <= c <= 'F'
  }

  const HEX_DIGITS := "0123456789abcdefABCDEF"

  lemma HexDigitsListed()
    ensures |HEX_DIGITS| == 22
    ensures forall i | 0 <= i < 10 :: HEX_DIGITS[i] as int == '0' as int + i
    ensures forall i | 10 <= i < 16 :: HEX_DIGITS[i] as int == 'a' as int + i - 10
    ensures forall i | 16 <= i < 22 :: HEX_DIGITS[i] as int == 'A' as int + i - 16
  {}

  lemma HexIff(c: char)
    ensures IsHex(c) <==> c in HEX_DIGITS
  {
    HexDigitsListed();
    if '0' <= c <= '9' {
      assert HEX_DIGITS[c as int - '0' as int] == c;
    } else if 'a' <= c <= 'f' {
      assert HEX_DIGITS[c as int - 'a' as int + 10] == c;
    } else if 'A' <= c <= 'F' {
      assert HEX_DIGITS[c as int - 'A' as int + 16] == c;
    }
  }

  /** `validSHA256`. */
  predicate IsSha256(s: string) {
    |s| == 64 && forall i | 0 <= i < |s| :: IsHex(s[i])
  }

  /** `strings.TrimPrefix`. */
  function TrimPrefix(s: string, prefix: string): string {
    if prefix <= s then s[|prefix|..] else s
  }

  /** A prefix is taken off once; a text without it stays as it is. */
  lemma TrimPrefixMeans(prefix: string, rest: string)
    ensures TrimPrefix(prefix + rest, prefix) == rest
    ensures !(prefix <= rest) ==> TrimPrefix(rest, prefix) == rest
  {
    assert prefix <= prefix + rest && (prefix + rest)[|prefix|..] == rest;
  }

  /** `strings.Split` on a one-character separator. */
  function Split(s: string, sep: char): (parts: seq<string>)
    ensures parts != []
  {
    if s == "" then [""]
    else
      var rest := Split(s[1..], sep);
      if s[0] == sep then [""] + rest else [[s[0]] + rest[0]] + rest[1..]
  }

  function Join(parts: seq<string>, sep: char): string
    requires parts != []
  {
    if |parts| == 1 then parts[0] else parts[0] + [sep] + Join(parts[1..], sep)
  }

  /** The parts are what the separators leave: none of them holds one, and joining them gives the text back. */
  lemma {:induction false} SplitJoin(s: string, sep: char)
    ensures forall i | 0 <= i < |Split(s, sep)| :: sep !in Split(s, sep)[i]
    ensures Join(Split(s, sep), sep) == s
  {
    if s != "" {
      SplitJoin(s[1..], sep);
      var rest := Split(s[1..], sep);
      if s[0] == sep {
        assert ([""] + rest)[1..] == rest;
      } else {
        var parts := [[s[0]] + rest[0]] + rest[1..];
        assert parts[1..] == rest[1..];
        assert forall i | 1 <= i < |parts| :: parts[i] == rest[i];
      }
      assert s == [s[0]] + s[1..];
    }
  }
}
