/** Decimal rendering of non-negative integers, as Python's `str.format`
    prints an `int`, the zero-padding rule of the image renamer, and the
    parser that inverts both. */
module Decimal {

  predicate IsDigit(c: char) {
    '0' <= c <= '9'
  }

  predicate AllDigits(s: string) {
    forall k :: 0 <= k < |s| ==> IsDigit(s[k])
  }

  function DigitChar(d: nat): (c: char)
    requires d < 10
    ensures IsDigit(c)
  {
    (48 + d) as char
  }

  function DigitValue(c: char): (d: nat)
    requires IsDigit(c)
    ensures d < 10
  {
    (c as int - 48) as nat
  }

  /** `"{}".format(n)` for an `int` `n >= 0`: shortest decimal, no sign, no leading zero. */
  function DecimalString(n: nat): (s: string)
    ensures 1 <= |s| && AllDigits(s)
    ensures |s| > 1 ==> s[0] != '0'
  {
    if n < 10 then [DigitChar(n)]
    else DecimalString(n / 10) + [DigitChar(n % 10)]
  }

  /** The value of a string of decimal digits; leading zeros are allowed. */
  function ParseDecimal(s: string): nat
    requires AllDigits(s)
  {
    if |s| == 0 then 0
    else 10 * ParseDecimal(s[..|s| - 1]) + DigitValue(s[|s| - 1])
  }

  /** Rendering then parsing gives the number back. */
  lemma {:induction false} ParseDecimalString(n: nat)
    ensures ParseDecimal(DecimalString(n)) == n
  {
    var s := DecimalString(n);
    if n >= 10 {
      ParseDecimalString(n / 10);
      assert s[..|s| - 1] == DecimalString(n / 10);
    }
  }

  /** Distinct numbers render to distinct strings. */
  lemma DecimalStringInjective(m: nat, n: nat)
    requires m != n
    ensures DecimalString(m) != DecimalString(n)
  {
    ParseDecimalString(m);
    ParseDecimalString(n);
  }

  /** The rendering has one digit below 10, two below 100 and three below 1000. */
  lemma DecimalStringLength(n: nat)
    ensures n < 10 ==> |DecimalString(n)| == 1
    ensures 10 <= n < 100 ==> |DecimalString(n)| == 2
    ensures 100 <= n < 1000 ==> |DecimalString(n)| == 3
  {
    if 10 <= n < 100 {
      assert n / 10 < 10;
      assert DecimalString(n) == DecimalString(n / 10) + [DigitChar(n % 10)];
    } else if 100 <= n < 1000 {
      var m := n / 10;
      assert 10 <= m < 100;
      assert m / 10 < 10;
      assert DecimalString(m) == DecimalString(m / 10) + [DigitChar(m % 10)];
      assert DecimalString(n) == DecimalString(m) + [DigitChar(n % 10)];
    }
  }

  /** A leading zero does not change the value. */
  lemma {:induction false} ParseLeadingZero(s: string)
    requires AllDigits(s)
    ensures AllDigits("0" + s) && ParseDecimal("0" + s) == ParseDecimal(s)
    decreases |s|
  {
    var z := "0" + s;
    if |s| > 0 {
      assert z[..|z| - 1] == "0" + s[..|s| - 1];
      ParseLeadingZero(s[..|s| - 1]);
    }
  }

  /** The file-number rule of the image renamer: `00` before one-digit
      numbers (`<= 9`), `0` before two-digit numbers (`<= 99`), nothing
      before larger ones. */
  function PadNumber(n: nat): string {
    if n <= 9 then "00" + DecimalString(n)
    else if n <= 99 then "0" + DecimalString(n)
    else DecimalString(n)
  }

  /** Every number below 1000 pads to exactly three digits; larger numbers keep
      their own width. */
  lemma PadNumberShape(n: nat)
    ensures AllDigits(PadNumber(n))
    ensures n < 1000 ==> |PadNumber(n)| == 3
    ensures n >= 1000 ==> PadNumber(n) == DecimalString(n) && |PadNumber(n)| > 3
  {
    DecimalStringLength(n);
    if n >= 1000 {
      var s := DecimalString(n);
      assert s == DecimalString(n / 10) + [DigitChar(n % 10)];
      DecimalStringLength(n / 10);
      if n / 10 >= 1000 {
        PadNumberShape(n / 10);
      }
    }
  }

  /** Parsing the padded string gives the number back, whatever its width. */
  lemma ParsePadNumber(n: nat)
    ensures AllDigits(PadNumber(n)) && ParseDecimal(PadNumber(n)) == n
  {
    ParseDecimalString(n);
    var d := DecimalString(n);
    if n <= 9 {
      ParseLeadingZero(d);
      ParseLeadingZero("0" + d);
      assert "0" + ("0" + d) == "00" + d;
    } else if n <= 99 {
      ParseLeadingZero(d);
    }
  }

  /** Distinct file numbers give distinct padded strings. */
  lemma PadNumberInjective(m: nat, n: nat)
    requires m != n
    ensures PadNumber(m) != PadNumber(n)
  {
    ParsePadNumber(m);
    ParsePadNumber(n);
  }

  /** The widths the renamer promises for one-, two- and three-digit numbers. */
  lemma PadNumberExamples()
    ensures PadNumber(7) == "007"
    ensures PadNumber(42) == "042"
    ensures PadNumber(412) == "412"
  {
    assert DecimalString(7) == "7";
    assert DecimalString(4) == "4";
    assert DecimalString(42) == DecimalString(4) + "2";
    assert DecimalString(41) == DecimalString(4) + "1";
    assert DecimalString(412) == DecimalString(41) + "2";
  }
}
