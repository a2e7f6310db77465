/** Unsigned decimal numerals over the ASCII digits '0'..'9': their value, and
    the canonical numeral of a natural number. */
module Decimal {

  predicate IsDigit(c: char) {
    '0' <= c <= '9'
  }

  predicate AllDigits(s: string) {
    forall i :: 0 <= i < |s| ==> IsDigit(s[i])
  }

  /** A non-empty run of digits, as captured by `\d+`. */
  predicate DigitString(s: string) {
    |s| > 0 && AllDigits(s)
  }

  /** The numeral has no superfluous leading zero. */
  predicate Canonical(s: string) {
    DigitString(s) && (s[0] != '0' || |s| == 1)
  }

  function DigitValue(c: char): (d: nat)
    requires IsDigit(c)
    ensures d <= 9
  {
    c as int - '0' as int
  }

  function DigitChar(d: nat): (c: char)
    requires d <= 9
    ensures IsDigit(c) && DigitValue(c) == d
  {
    ('0' as int + d) as char
  }

  function Pow10(k: nat): (p: nat)
    ensures p >= 1
  {
    if k == 0 then 1 else 10 * Pow10(k - 1)
  }

  /** The value of a digit string, most significant digit first. */
  function DecimalValue(s: string): (n: nat)
    requires AllDigits(s)
    ensures n < Pow10(|s|)
    decreases |s|
  {
    if |s| == 0 then 0 else 10 * DecimalValue(s[..|s| - 1]) + DigitValue(s[|s| - 1])
  }

  /** The canonical numeral of `n`. */
  function ToDecimal(n: nat): (s: string)
    ensures Canonical(s)
    ensures s[0] == '0' <==> n == 0
  {
    if n < 10 then [DigitChar(n)] else ToDecimal(n / 10) + [DigitChar(n % 10)]
  }

  /** Reading back the numeral of `n` yields `n`. */
  lemma {:induction false} DecimalRoundTrip(n: nat)
    ensures DecimalValue(ToDecimal(n)) == n
  {
    if n >= 10 {
      var t := ToDecimal(n / 10);
      var s := t + [DigitChar(n % 10)];
      assert s[..|s| - 1] == t;
      DecimalRoundTrip(n / 10);
    }
  }

  /** A numeral that starts with a non-zero digit denotes a positive number. */
  lemma {:induction false} LeadingNonZeroIsPositive(s: string)
    requires DigitString(s) && s[0] != '0'
    ensures DecimalValue(s) >= 1
    decreases |s|
  {
    if |s| > 1 {
      var t := s[..|s| - 1];
      assert t[0] == s[0];
      LeadingNonZeroIsPositive(t);
    }
  }

  /** Every canonical numeral is the numeral of its own value. */
  lemma {:induction false} CanonicalRoundTrip(s: string)
    requires Canonical(s)
    ensures ToDecimal(DecimalValue(s)) == s
    decreases |s|
  {
    if |s| == 1 {
      assert s == [DigitChar(DigitValue(s[0]))];
    } else {
      var t := s[..|s| - 1];
      assert t[0] == s[0];
      LeadingNonZeroIsPositive(t);
      var v := DecimalValue(s);
      var d := DigitValue(s[|s| - 1]);
      assert v == 10 * DecimalValue(t) + d;
      assert v / 10 == DecimalValue(t) && v % 10 == d;
      CanonicalRoundTrip(t);
      assert [DigitChar(d)] == [s[|s| - 1]];
      assert s == t + [s[|s| - 1]];
    }
  }
}
