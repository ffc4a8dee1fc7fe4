/**
 * Decimal numerals as the Java runtime reads and writes them: `Long.toString`
 * (used when the response appends the row count, and by `String.format("%d", i)`
 * when the parameter names are formatted) and `Integer.parseInt` behind
 * `StringValue.toInt(default)` (used for `skip` and `take`).
 */
module Numerals {
  import opened Wrappers

  const MinInt: int := -0x8000_0000
  const MaxInt: int := 0x7fff_ffff

  predicate InInt32(n: int) { MinInt <= n <= MaxInt }

  predicate IsDigit(c: char) { '0' <= c <= '9' }

  /** A non-empty run of ASCII decimal digits. */
  predicate IsDigits(s: string) {
    |s| > 0 && forall i :: 0 <= i < |s| ==> IsDigit(s[i])
  }

  function DigitChar(d: nat): (c: char)
    requires d < 10
    ensures IsDigit(c) && c as int - '0' as int == d
  {
    ('0' as int + d) as char
  }

  /** The value of a run of digits, most significant first. */
  function DigitsValue(s: string): nat
    requires forall i :: 0 <= i < |s| ==> IsDigit(s[i])
  {
    if |s| == 0 then 0
    else
      var last := s[|s| - 1];
      assert IsDigit(last);
      DigitsValue(s[..|s| - 1]) * 10 + (last as int - '0' as int)
  }

  /** Decimal text of a natural number, without leading zeros. */
  function NatToString(n: nat): (s: string)
    ensures IsDigits(s)
    ensures |s| > 1 ==> s[0] != '0'
  {
    if n < 10 then [DigitChar(n)] else NatToString(n / 10) + [DigitChar(n % 10)]
  }

  /** Decimal text of an integer, with a leading '-' when it is negative (`Long.toString`). */
  function IntToString(n: int): (s: string)
    ensures |s| > 0
    ensures forall i :: 0 <= i < |s| ==> IsDigit(s[i]) || (i == 0 && s[i] == '-')
    ensures (s[0] == '-') <==> n < 0
  {
    if n < 0 then "-" + NatToString(-n) else NatToString(n)
  }

  /**
   * The integer a numeral denotes, without a range limit: an optional '+' or '-'
   * followed by at least one digit, and nothing else.
   */
  function ParseInteger(s: string): (r: Option<int>)
    ensures r.Some? <==> IsDigits(s) || (|s| > 1 && (s[0] == '-' || s[0] == '+') && IsDigits(s[1..]))
    ensures |s| > 0 && s[0] == '-' && r.Some? ==> r.value <= 0
    ensures |s| > 0 && s[0] != '-' && r.Some? ==> r.value >= 0
  {
    if |s| > 0 && (s[0] == '-' || s[0] == '+') then
      if IsDigits(s[1..]) then
        var m: int := DigitsValue(s[1..]);
        Some(if s[0] == '-' then -m else m)
      else None
    else if IsDigits(s) then Some(DigitsValue(s))
    else None
  }

  /** `Integer.parseInt`: a numeral whose value fits in 32 bits; `None` stands for NumberFormatException. */
  function ParseInt(s: string): (r: Option<int>)
    ensures r.Some? ==> InInt32(r.value) && ParseInteger(s) == r
    ensures r.None? ==> ParseInteger(s).None? || !InInt32(ParseInteger(s).value)
  {
    match ParseInteger(s)
    case Some(n) => if InInt32(n) then Some(n) else None
    case None => None
  }

  /**
   * `StringValue.toInt(default)`: an absent parameter, or one that does not parse as a
   * 32-bit numeral, yields `default`.
   */
  function ToIntOr(v: Option<string>, default: int): (r: int)
    ensures v.None? ==> r == default
    ensures v.Some? && ParseInt(v.value).None? ==> r == default
    ensures v.Some? && ParseInt(v.value).Some? ==> r == ParseInt(v.value).value
    ensures InInt32(default) ==> InInt32(r)
  {
    match v
    case None => default
    case Some(s) => ParseInt(s).GetOr(default)
  }

  lemma {:induction false} DigitsValueOfNatToString(n: nat)
    ensures DigitsValue(NatToString(n)) == n
  {
    var s := NatToString(n);
    if n >= 10 {
      DigitsValueOfNatToString(n / 10);
      assert s[..|s| - 1] == NatToString(n / 10);
    }
  }

  /** Reading back what `IntToString` wrote gives the same integer. */
  lemma ParseIntegerOfIntToString(n: int)
    ensures ParseInteger(IntToString(n)) == Some(n)
  {
    if n < 0 {
      var s := IntToString(n);
      assert s[1..] == NatToString(-n);
      DigitsValueOfNatToString(-n);
    } else {
      DigitsValueOfNatToString(n);
    }
  }

  /** Distinct integers have distinct decimal texts. */
  lemma IntToStringInjective(m: int, n: int)
    requires IntToString(m) == IntToString(n)
    ensures m == n
  {
    ParseIntegerOfIntToString(m);
    ParseIntegerOfIntToString(n);
  }

  /** A parameter written as the decimal text of a 32-bit integer is read back as that integer. */
  lemma ToIntOrOfNumeral(n: int, default: int)
    requires InInt32(n)
    ensures ToIntOr(Some(IntToString(n)), default) == n
  {
    ParseIntegerOfIntToString(n);
  }

  /** A numeral beyond the 32-bit range is not an int: the default is used. */
  lemma ToIntOrOfOverflow(n: int, default: int)
    requires !InInt32(n)
    ensures ToIntOr(Some(IntToString(n)), default) == default
  {
    ParseIntegerOfIntToString(n);
  }

  /**
   * A parameter holding a character that is not a digit, other than one leading sign,
   * is non-numeric and yields the default.
   */
  lemma ToIntOrOfNonNumeric(s: string, i: nat, default: int)
    requires i < |s| && !IsDigit(s[i])
    requires i > 0 || (s[0] != '-' && s[0] != '+') || |s| == 1
    ensures ToIntOr(Some(s), default) == default
  {
    if |s| > 0 && (s[0] == '-' || s[0] == '+') {
      if i > 0 {
        assert !IsDigit(s[1..][i - 1]);
      }
    }
  }
}
