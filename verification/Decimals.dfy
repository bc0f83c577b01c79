/** Numbers as `to_string` prints them, which is how they get into keys. */
module Decimals {

  function DigitChar(d: nat): char
    requires d < 10
  {
    "0123456789"[d]
  }

  /** The decimal digits of a number, as `to_string` prints them. */
  function Decimal(n: nat): (s: string)
    ensures s != []
  {
    if n < 10 then [DigitChar(n)] else Decimal(n / 10) + [DigitChar(n % 10)]
  }

  lemma {:induction false} DecimalHasNoColon(n: nat)
    ensures ':' !in Decimal(n)
  {
    if n >= 10 {
      DecimalHasNoColon(n / 10);
    }
  }

  lemma {:induction false} DecimalIsInjective(m: nat, n: nat)
    requires Decimal(m) == Decimal(n)
    ensures m == n
    decreases m
  {
    var s, t := Decimal(m), Decimal(n);
    if m < 10 && n < 10 {
      DigitsAreDistinct(m, n);
    } else if m >= 10 && n >= 10 {
      assert s[..|s| - 1] == Decimal(m / 10) && t[..|t| - 1] == Decimal(n / 10);
      assert s[|s| - 1] == t[|t| - 1];
      DigitsAreDistinct(m % 10, n % 10);
      DecimalIsInjective(m / 10, n / 10);
    }
  }

  lemma DigitsAreDistinct(c: nat, d: nat)
    requires c < 10 && d < 10
    ensures DigitChar(c) == DigitChar(d) <==> c == d
  {}
}
