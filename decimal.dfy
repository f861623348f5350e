/**
  Decimal rendering of non-negative integers, as JavaScript's template
  literals (`${n}`) and `String(n).padStart(2, '0')` produce it for the
  integral values this application formats, together with the parser that
  inverts the rendering.
 */
module Decimal {
  import opened Wrappers

  predicate IsDigit(c: char) {
    '0' <= c <= '9'
  }

  predicate AllDigits(s: string) {
    forall i :: 0 <= i < |s| ==> IsDigit(s[i])
  }

  function DigitChar(d: nat): (c: char)
    requires d < 10
    ensures IsDigit(c) && DigitValue(c) == d
  {
    (48 + d) as char
  }

  function DigitValue(c: char): (d: nat)
    requires IsDigit(c)
    ensures d < 10
  {
    c as int - '0' as int
  }

  /** `${n}` for a non-negative integer: the shortest decimal numeral. */
  function DecimalString(n: nat): (s: string)
    ensures |s| >= 1 && AllDigits(s)
    ensures |s| == 1 <==> n < 10
    decreases n
  {
    if n < 10 then [DigitChar(n)] else DecimalString(n / 10) + [DigitChar(n % 10)]
  }

  /** The value of a string of decimal digits (0 for the empty string). */
  function DigitsValue(s: string): nat
    requires AllDigits(s)
    decreases |s|
  {
    if s == [] then 0 else DigitsValue(s[..|s| - 1]) * 10 + DigitValue(s[|s| - 1])
  }

  /** Reads back a non-empty run of decimal digits; anything else is rejected. */
  function ParseNat(s: string): (r: Option<nat>)
    ensures r.Some? <==> |s| >= 1 && AllDigits(s)
  {
    if |s| >= 1 && AllDigits(s) then Some(DigitsValue(s)) else None
  }

  /** `String(n).padStart(2, '0')`: a leading zero is added only to one-digit numerals. */
  function Pad2(n: nat): (s: string)
  {
    var d := DecimalString(n);
    if |d| < 2 then "0" + d else d
  }

  lemma {:induction false} DecimalRoundTrip(n: nat)
    ensures DigitsValue(DecimalString(n)) == n
    decreases n
  {
    if n >= 10 {
      var s := DecimalString(n);
      assert s[..|s| - 1] == DecimalString(n / 10);
      DecimalRoundTrip(n / 10);
    }
  }

  lemma ParseDecimalString(n: nat)
    ensures ParseNat(DecimalString(n)) == Some(n)
  {
    DecimalRoundTrip(n);
  }

  /** padStart(2, '0') always yields two or more digits, exactly two below 100, and reads back as n. */
  lemma Pad2RoundTrip(n: nat)
    ensures |Pad2(n)| >= 2 && AllDigits(Pad2(n))
    ensures n < 100 ==> |Pad2(n)| == 2
    ensures ParseNat(Pad2(n)) == Some(n)
  {
    var d := DecimalString(n);
    if n < 10 {
      var p := "0" + d;
      assert p[..|p| - 1] == "0";
      assert DigitsValue("0") == 0 by { assert "0"[..0] == ""; }
      assert DigitsValue(p) == d[0] as int - '0' as int;
      assert DigitValue(d[0]) == n;
    } else {
      DecimalRoundTrip(n);
      if n < 100 {
        assert DecimalString(n / 10) == [DigitChar(n / 10)];
      }
    }
  }
}
