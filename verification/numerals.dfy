/**
 * JavaScript's `String(n)` and `Number(s)` on integers, the two conversions the
 * front end uses to put gobo ids, spin durations and the reverse flag into a
 * URL and to read them back.
 */
module Numerals {

  predicate IsDigit(c: char) {
    '0' <= c <= '9'
  }

  predicate AllDigits(s: string) {
    forall i :: 0 <= i < |s| ==> IsDigit(s[i])
  }

  function DigitChar(d: nat): (c: char)
    requires d < 10
    ensures IsDigit(c) && c as int - '0' as int == d
  {
    ('0' as int + d) as char
  }

  function DigitValue(c: char): (d: nat)
    requires IsDigit(c)
    ensures d < 10 && DigitChar(d) == c
  {
    c as int - '0' as int
  }

  /** The number a string of decimal digits denotes; the empty string denotes 0. */
  function DigitsValue(s: string): nat
    requires AllDigits(s)
  {
    if |s| == 0 then 0 else DigitsValue(s[..|s| - 1]) * 10 + DigitValue(s[|s| - 1])
  }

  /** Decimal digits of `n`, most significant first, without leading zeros. */
  function NatToString(n: nat): (s: string)
    ensures |s| > 0 && AllDigits(s)
    ensures s[0] == '0' <==> n == 0
    ensures n == 0 ==> s == "0"
    decreases n
  {
    if n < 10 then [DigitChar(n)] else NatToString(n / 10) + [DigitChar(n % 10)]
  }

  /** `String(n)` for an integer `n` of moderate size. */
  function IntToString(n: int): (s: string)
    ensures |s| > 0
    ensures s[0] == '-' <==> n < 0
    ensures n >= 0 ==> AllDigits(s)
  {
    if n < 0 then "-" + NatToString(-n) else NatToString(n)
  }

  /** The value of `Number(s)`: an integer, or NaN. */
  datatype JsNumber = Finite(n: int) | NaN

  /**
   * `Number(s)` for the strings this front end produces: the empty string is 0,
   * an optional sign followed by decimal digits is that integer, anything else NaN.
   */
  function ToNumber(s: string): (v: JsNumber)
    ensures AllDigits(s) ==> v == Finite(DigitsValue(s))
    ensures |s| > 0 && !IsDigit(s[0]) && s[0] != '-' && s[0] != '+' ==> v == NaN
  {
    if |s| > 0 && (s[0] == '-' || s[0] == '+') then
      if |s| > 1 && AllDigits(s[1..]) then
        Finite(if s[0] == '-' then -(DigitsValue(s[1..]) as int) else DigitsValue(s[1..]))
      else
        NaN
    else if AllDigits(s) then
      Finite(DigitsValue(s))
    else
      NaN
  }

  /** `Boolean(v)` for a number: false exactly for 0 and NaN. */
  predicate Truthy(v: JsNumber) {
    v.Finite? && v.n != 0
  }

  /** Reading back the decimal digits of a natural number gives the number. */
  lemma {:induction false} DigitsRoundTrip(n: nat)
    ensures DigitsValue(NatToString(n)) == n
    decreases n
  {
    if n >= 10 {
      var prefix := NatToString(n / 10);
      var s := prefix + [DigitChar(n % 10)];
      assert s[..|s| - 1] == prefix;
      DigitsRoundTrip(n / 10);
    }
  }

  /** `Number(String(n)) === n` for every integer `n`. */
  lemma NumberOfString(n: int)
    ensures ToNumber(IntToString(n)) == Finite(n)
  {
    if n < 0 {
      var s := IntToString(n);
      assert s[1..] == NatToString(-n);
      DigitsRoundTrip(-n);
    } else {
      DigitsRoundTrip(n);
    }
  }

  /** Distinct integers have distinct decimal strings. */
  lemma IntToStringInjective(m: int, n: int)
    ensures IntToString(m) == IntToString(n) ==> m == n
  {
    NumberOfString(m);
    NumberOfString(n);
  }
}
