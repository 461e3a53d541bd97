/**
 UTF-8 as section 3 of RFC 3629 defines it, and the two orders a writer can sort keys by.
 A Dafny `char` is a Unicode scalar value, which is what Go yields when it ranges over a valid string.
 */
module Utf8 {
  import opened Basics

  function EncodeRune(c: char): (bytes: seq<Byte>)
    ensures 1 <= |bytes| <= 4
  {
    var n := c as int;
    var n1 := n / 0x40;
    var n2 := n1 / 0x40;
    if n < 0x80 then [n]
    else if n < 0x800 then [0xC0 + n1, 0x80 + n % 0x40]
    else if n < 0x10000 then [0xE0 + n2, 0x80 + n1 % 0x40, 0x80 + n % 0x40]
    else [0xF0 + n2 / 0x40, 0x80 + n2 % 0x40, 0x80 + n1 % 0x40, 0x80 + n % 0x40]
  }

  function Encode(s: string): seq<Byte> {
    if s == "" then [] else EncodeRune(s[0]) + Encode(s[1..])
  }

  lemma Associative(x: seq<Byte>, y: seq<Byte>, z: seq<Byte>)
    ensures (x + y) + z == x + (y + z)
  {}

  lemma {:induction false} EncodeConcat(a: string, b: string)
    ensures Encode(a + b) == Encode(a) + Encode(b)
  {
    if a == "" {
      assert a + b == b;
    } else {
      var rest := a[1..];
      EncodeConcat(rest, b);
      assert (a + b)[0] == a[0] && (a + b)[1..] == rest + b;
      Associative(EncodeRune(a[0]), Encode(rest), Encode(b));
    }
  }

  /** The order of Go's string comparison, and so of `sort.Strings`. */
  predicate BytesLess(a: seq<Byte>, b: seq<Byte>) {
    b != [] && (a == [] || a[0] < b[0] || (a[0] == b[0] && BytesLess(a[1..], b[1..])))
  }

  /** Lexicographic order by code point. */
  predicate TextLess(a: string, b: string) {
    b != "" && (a == "" || a[0] < b[0] || (a[0] == b[0] && TextLess(a[1..], b[1..])))
  }

  /** One six-bit digit of two numbers, compared after the digits above it. */
  lemma SixBitOrder(m: nat, n: nat)
    requires m < n
    ensures m / 0x40 < n / 0x40 || (m / 0x40 == n / 0x40 && m % 0x40 < n % 0x40)
  {}

  /** The first byte tells how many bytes the rune takes. */
  lemma LeadByte(c: char)
    ensures var e := EncodeRune(c);
            |e| == if e[0] < 0x80 then 1 else if e[0] < 0xE0 then 2 else if e[0] < 0xF0 then 3 else 4
  {}

  /** Code points with encodings of the same length first differ at their highest differing digit. */
  lemma SameLengthOrder(c: char, d: char) returns (i: nat)
    requires c < d && |EncodeRune(c)| == |EncodeRune(d)|
    ensures i < |EncodeRune(c)|
    ensures EncodeRune(c)[..i] == EncodeRune(d)[..i] && EncodeRune(c)[i] < EncodeRune(d)[i]
  {
    var m, n := c as int, d as int;
    var m1, n1 := m / 0x40, n / 0x40;
    var m2, n2 := m1 / 0x40, n1 / 0x40;
    SixBitOrder(m, n);
    if |EncodeRune(c)| == 1 {
      i := 0;
    } else if m1 == n1 {
      i := |EncodeRune(c)| - 1;
    } else {
      SixBitOrder(m1, n1);
      if m2 == n2 {
        i := |EncodeRune(c)| - 2;
      } else {
        SixBitOrder(m2, n2);
        i := if |EncodeRune(c)| == 4 && m2 / 0x40 == n2 / 0x40 then 1 else 0;
      }
    }
  }

  /** A smaller code point has, at the first byte that differs, the smaller byte, and is never a prefix. */
  lemma RuneOrder(c: char, d: char) returns (i: nat)
    requires c < d
    ensures i < |EncodeRune(c)| && i < |EncodeRune(d)|
    ensures EncodeRune(c)[..i] == EncodeRune(d)[..i] && EncodeRune(c)[i] < EncodeRune(d)[i]
  {
    if |EncodeRune(c)| == |EncodeRune(d)| {
      i := SameLengthOrder(c, d);
    } else {
      LeadByte(c);
      LeadByte(d);
      i := 0;
    }
  }

  lemma {:induction false} BytesLessAfterPrefix(p: seq<Byte>, a: seq<Byte>, b: seq<Byte>)
    ensures BytesLess(p + a, p + b) == BytesLess(a, b)
  {
    if p == [] {
      assert p + a == a && p + b == b;
    } else {
      BytesLessAfterPrefix(p[1..], a, b);
      assert (p + a)[1..] == p[1..] + a && (p + b)[1..] == p[1..] + b;
    }
  }

  /** A smaller first code point decides the byte order, whatever follows on either side. */
  lemma RuneDecides(c: char, d: char, a: seq<Byte>, b: seq<Byte>)
    requires c < d
    ensures BytesLess(EncodeRune(c) + a, EncodeRune(d) + b)
    ensures !BytesLess(EncodeRune(d) + b, EncodeRune(c) + a)
  {
    var i := RuneOrder(c, d);
    var p := EncodeRune(c)[..i];
    var x, y := EncodeRune(c)[i..] + a, EncodeRune(d)[i..] + b;
    assert EncodeRune(c) + a == p + x && EncodeRune(d) + b == p + y;
    BytesLessAfterPrefix(p, x, y);
    BytesLessAfterPrefix(p, y, x);
  }

  /** Section 1 of RFC 3629: the byte-wise order of UTF-8 strings is the order of their code points. */
  lemma {:induction false} ByteOrderIsCodePointOrder(a: string, b: string)
    ensures BytesLess(Encode(a), Encode(b)) == TextLess(a, b)
  {
    if a != "" && b != "" {
      if a[0] == b[0] {
        ByteOrderIsCodePointOrder(a[1..], b[1..]);
        BytesLessAfterPrefix(EncodeRune(a[0]), Encode(a[1..]), Encode(b[1..]));
      } else if a[0] < b[0] {
        RuneDecides(a[0], b[0], Encode(a[1..]), Encode(b[1..]));
      } else {
        RuneDecides(b[0], a[0], Encode(b[1..]), Encode(a[1..]));
      }
    }
  }

  lemma {:induction false} TextLessTotal(a: string, b: string)
    ensures TextLess(a, b) || a == b || TextLess(b, a)
    ensures !(TextLess(a, b) && TextLess(b, a)) && !TextLess(a, a)
  {
    if a != "" {
      TextLessTotal(a[1..], if b == "" then a[1..] else b[1..]);
    }
  }

  lemma {:induction false} TextLessTransitive(a: string, b: string, c: string)
    requires TextLess(a, b) && TextLess(b, c)
    ensures TextLess(a, c)
  {
    if a != "" && a[0] == b[0] == c[0] {
      TextLessTransitive(a[1..], b[1..], c[1..]);
    }
  }

  /** Distinct strings have distinct encodings, so bytes identify the text. */
  lemma EncodeInjective(a: string, b: string)
    requires Encode(a) == Encode(b)
    ensures a == b
  {
    TextLessTotal(a, b);
    TextLessTotal(a, a);
    ByteOrderIsCodePointOrder(a, b);
    ByteOrderIsCodePointOrder(b, a);
    ByteOrderIsCodePointOrder(a, a);
  }

  // ---------------------------------------------------------------- reading it back

  /** A byte of the form 10xxxxxx. */
  predicate IsTail(b: Byte) {
    0x80 <= b < 0xC0
  }

  /** What a byte holds beside its marker bits. */
  function Bits(b: Byte, marker: int): int {
    b as int - marker
  }

  predicate IsScalar(n: int) {
    0 <= n < 0xD800 || 0xE000 <= n < 0x110000
  }

  /** The first character of a text by the table of section 3 of RFC 3629, and how many bytes it takes. */
  function DecodeRune(bytes: seq<Byte>): Option<(char, nat)> {
    if bytes == [] then None
    else if bytes[0] < 0x80 then Some((bytes[0] as char, 1))
    else if 0xC0 <= bytes[0] < 0xE0 && |bytes| >= 2 && IsTail(bytes[1]) then
      Scalar(Bits(bytes[0], 0xC0) * 0x40 + Bits(bytes[1], 0x80), 0x80, 2)
    else if 0xE0 <= bytes[0] < 0xF0 && |bytes| >= 3 && IsTail(bytes[1]) && IsTail(bytes[2]) then
      Scalar(Bits(bytes[0], 0xE0) * 0x1000 + Bits(bytes[1], 0x80) * 0x40 + Bits(bytes[2], 0x80), 0x800, 3)
    else if 0xF0 <= bytes[0] < 0xF8 && |bytes| >= 4 && IsTail(bytes[1]) && IsTail(bytes[2]) && IsTail(bytes[3]) then
      Scalar(Bits(bytes[0], 0xF0) * 0x40000 + Bits(bytes[1], 0x80) * 0x1000 + Bits(bytes[2], 0x80) * 0x40 + Bits(bytes[3], 0x80), 0x10000, 4)
    else None
  }

  /** Overlong forms and surrogates are no characters. */
  function Scalar(n: int, least: int, length: nat): Option<(char, nat)> {
    if least <= n && IsScalar(n) then Some((n as char, length)) else None
  }

  function Decode(bytes: seq<Byte>): Option<string>
    decreases |bytes|
  {
    if bytes == [] then Some("")
    else
      match DecodeRune(bytes)
      case None => None
      case Some((c, n)) =>
        if n == 0 || n > |bytes| then None
        else
          match Decode(bytes[n..])
          case None => None
          case Some(rest) => Some([c] + rest)
  }

  lemma TwoDigits(n: nat)
    ensures n == n / 0x40 * 0x40 + n % 0x40 && 0 <= n % 0x40 < 0x40
  {}

  lemma RuneDecodes(c: char, rest: seq<Byte>)
    ensures DecodeRune(EncodeRune(c) + rest) == Some((c, |EncodeRune(c)|))
  {
    var n := c as int;
    TwoDigits(n);
    TwoDigits(n / 0x40);
    TwoDigits(n / 0x40 / 0x40);
    var bytes := EncodeRune(c) + rest;
    assert forall i | 0 <= i < |EncodeRune(c)| :: bytes[i] == EncodeRune(c)[i];
  }

  /** A decoder written from the table of RFC 3629 reads every encoded text back. */
  lemma {:induction false} DecodeEncode(s: string)
    ensures Decode(Encode(s)) == Some(s)
  {
    if s != "" {
      RuneDecodes(s[0], Encode(s[1..]));
      DecodeEncode(s[1..]);
      assert Encode(s)[|EncodeRune(s[0])|..] == Encode(s[1..]);
      assert s == [s[0]] + s[1..];
    }
  }
}
