/** Decimal notation of integers: `big.Int.String`, `big.Int.SetString` and the `%d` verb. */
module Decimal {

  predicate IsDigit(c: char) {
    '0' <= c <= '9'
  }

  predicate AllDigits(s: string) {
    forall i | 0 <= i < |s| :: IsDigit(s[i])
  }

  function Digit(n: nat): (c: char)
    requires n < 10
    ensures IsDigit(c) && c as int - '0' as int == n
  {
    (n + '0' as int) as char
  }

  /** The digits of a natural number, without leading zeros. */
  function Digits(n: nat): (s: string)
    ensures |s| >= 1 && AllDigits(s)
    ensures (s[0] == '0' <==> n == 0) && (n == 0 ==> |s| == 1)
  {
    if n < 10 then [Digit(n)]
    else Digits(n / 10) + [Digit(n % 10)]
  }

  /** The number a run of digits denotes. */
  function ToNat(s: string): nat
    requires AllDigits(s)
  {
    if s == "" then 0
    else ToNat(s[..|s| - 1]) * 10 + (s[|s| - 1] as int - '0' as int)
  }

  lemma {:induction false} DigitsRoundTrip(n: nat)
    ensures ToNat(Digits(n)) == n
  {
    if n < 10 {
      assert Digits(n)[..0] == "";
    } else {
      DigitsRoundTrip(n / 10);
      assert Digits(n)[..|Digits(n)| - 1] == Digits(n / 10);
    }
  }

  function FromInt(n: int): (s: string) {
    if n < 0 then "-" + Digits(-n) else Digits(n)
  }

  /** The integer grammar of section 6 of RFC 8259: an optional minus, then no superfluous leading zero. */
  predicate IsIntToken(s: string) {
    var body := if s != "" && s[0] == '-' then s[1..] else s;
    body != "" && AllDigits(body) && (body[0] == '0' ==> |body| == 1)
  }

  function ToInt(s: string): int
    requires IsIntToken(s)
  {
    if s[0] == '-' then -(ToNat(s[1..]) as int) else ToNat(s)
  }

  /** Printing an integer gives a grammatical token that reads back as the same integer. */
  lemma IntRoundTrip(n: int)
    ensures IsIntToken(FromInt(n)) && ToInt(FromInt(n)) == n
  {
    if n < 0 {
      DigitsRoundTrip(-n);
      assert FromInt(n)[1..] == Digits(-n);
    } else {
      DigitsRoundTrip(n);
    }
  }
}
