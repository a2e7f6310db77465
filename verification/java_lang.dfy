/** The two JDK behaviours the parser relies on: the exceptions it can raise,
    and `Integer.parseInt` / `Integer.toString` over 32-bit `int`. */
module JavaLang {
  import opened Wrappers
  import opened Decimal

  /** An exception that escapes `createWarning`. */
  datatype Exception =
    | IndexOutOfBounds(group: int)       // Matcher.group(i) with i outside 0..groupCount()
    | NumberFormat(input: Option<string>) // Integer.parseInt on null or a non-numeral

  const MinInt: int := -0x8000_0000
  const MaxInt: int := 0x7fff_ffff

  predicate InIntRange(x: int) {
    MinInt <= x <= MaxInt
  }

  /** An optional '-' or '+' followed by at least one digit. */
  predicate SignedDigits(t: string) {
    DigitString(t) || (|t| > 1 && (t[0] == '-' || t[0] == '+') && DigitString(t[1..]))
  }

  /** `Integer.parseInt(s)` in radix 10: null, the empty string, a lone sign,
      any non-digit and any value outside the `int` range raise
      NumberFormatException. */
  function ParseInt(s: Option<string>): (r: Result<int, Exception>)
    ensures r.Failure? ==> r.error == NumberFormat(s)
    ensures r.Success? ==> s.Some? && SignedDigits(s.value) && InIntRange(r.value)
    ensures s.Some? && DigitString(s.value) ==>
              (r.Success? <==> DecimalValue(s.value) <= MaxInt)
              && (r.Success? ==> r.value == DecimalValue(s.value))
    ensures s.Some? && |s.value| > 1 && s.value[0] == '-' && DigitString(s.value[1..]) ==>
              (r.Success? <==> DecimalValue(s.value[1..]) <= -MinInt)
              && (r.Success? ==> r.value == -(DecimalValue(s.value[1..]) as int))
    ensures s.Some? && |s.value| > 1 && s.value[0] == '+' && DigitString(s.value[1..]) ==>
              (r.Success? <==> DecimalValue(s.value[1..]) <= MaxInt)
              && (r.Success? ==> r.value == DecimalValue(s.value[1..]))
  {
    match s
    case None => Failure(NumberFormat(s))
    case Some(t) =>
      var signed := |t| > 0 && (t[0] == '-' || t[0] == '+');
      var digits := if signed then t[1..] else t;
      if !DigitString(digits) then
        Failure(NumberFormat(s))
      else
        var magnitude: int := DecimalValue(digits);
        var value := if signed && t[0] == '-' then -magnitude else magnitude;
        if InIntRange(value) then Success(value) else Failure(NumberFormat(s))
  }

  /** `Integer.toString(x)`: a '-' for negative values, then the canonical numeral. */
  function IntToString(x: int): (t: string)
    requires InIntRange(x)
    ensures SignedDigits(t)
    ensures x >= 0 <==> Canonical(t)
  {
    if x < 0 then "-" + ToDecimal(-x) else ToDecimal(x)
  }

  /** `Integer.parseInt(Integer.toString(x)) == x` for every `int`. */
  lemma ParseIntToStringRoundTrip(x: int)
    requires InIntRange(x)
    ensures ParseInt(Some(IntToString(x))) == Success(x)
  {
    if x < 0 {
      var t := IntToString(x);
      assert t[1..] == ToDecimal(-x);
      DecimalRoundTrip(-x);
    } else {
      DecimalRoundTrip(x);
    }
  }

  /** A canonical numeral that parses is the printed form of its value. */
  lemma ToStringParseIntRoundTrip(t: string)
    requires Canonical(t) && ParseInt(Some(t)).Success?
    ensures IntToString(ParseInt(Some(t)).value) == t
  {
    CanonicalRoundTrip(t);
  }
}
