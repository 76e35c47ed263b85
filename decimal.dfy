/**
 * Decimal text of integers as JavaScript's template literals and
 * Number.prototype.toString print them, Number() read back on such text,
 * and String.prototype.padStart.
 */
module Decimal {

  predicate IsDigit(c: char) {
    '0' <= c <= '9'
  }

  predicate IsDigits(s: string) {
    forall i | 0 <= i < |s| :: IsDigit(s[i])
  }

  function DigitChar(d: nat): (c: char)
    requires d < 10
    ensures IsDigit(c) && (c as int) - ('0' as int) == d
  {
    ('0' as int + d) as char
  }

  function DigitValue(c: char): nat
    requires IsDigit(c)
  {
    (c as int) - ('0' as int)
  }

  /** The number a string of decimal digits denotes, most significant digit first. */
  function DigitsValue(s: string): nat
    requires IsDigits(s)
  {
    if |s| == 0 then 0 else 10 * DigitsValue(s[..|s| - 1]) + DigitValue(s[|s| - 1])
  }

  /** `${n}` for a non-negative integer: its digits, with no leading zero. */
  function NatToDecimal(n: nat): (s: string)
    ensures |s| >= 1 && IsDigits(s)
    ensures |s| == 1 <==> n < 10
    ensures |s| > 1 ==> s[0] != '0'
  {
    if n < 10 then [DigitChar(n)] else NatToDecimal(n / 10) + [DigitChar(n % 10)]
  }

  /** `${n}` for any integer: a minus sign before the digits of a negative one. */
  function IntToDecimal(n: int): (s: string)
    ensures |s| >= 1
    ensures s[0] == '-' <==> n < 0
    ensures n >= 0 ==> s == NatToDecimal(n)
    ensures n < 0 ==> s[1..] == NatToDecimal(-n)
  {
    if n < 0 then "-" + NatToDecimal(-n) else NatToDecimal(n)
  }

  /** Reading the digits back (Number(`${n}`)) gives the number that was printed. */
  lemma {:induction false} NatToDecimalRoundTrip(n: nat)
    ensures DigitsValue(NatToDecimal(n)) == n
  {
    var s := NatToDecimal(n);
    if n >= 10 {
      NatToDecimalRoundTrip(n / 10);
      assert s[..|s| - 1] == NatToDecimal(n / 10);
    }
  }

  /** Printing is one-to-one: two numbers with the same text are equal. */
  lemma NatToDecimalInjective(m: nat, n: nat)
    requires NatToDecimal(m) == NatToDecimal(n)
    ensures m == n
  {
    NatToDecimalRoundTrip(m);
    NatToDecimalRoundTrip(n);
  }

  /** s.padStart(width, fill) for a one-character fill string. */
  function PadStart(s: string, width: nat, fill: char): (r: string)
    ensures |r| == if |s| >= width then |s| else width
    ensures r[|r| - |s|..] == s
    ensures forall i | 0 <= i < |r| - |s| :: r[i] == fill
  {
    if |s| >= width then s else seq(width - |s|, _ => fill) + s
  }

  /**
   * Padding a number below one hundred to width two with "0" gives exactly
   * two digits that read back as the number.
   */
  lemma TwoDigits(n: nat)
    requires n < 100
    ensures var r := PadStart(NatToDecimal(n), 2, '0');
            |r| == 2 && IsDigits(r) && DigitsValue(r) == n
  {
    var s := NatToDecimal(n);
    var r := PadStart(s, 2, '0');
    NatToDecimalRoundTrip(n);
    if n < 10 {
      assert r == ['0'] + s;
      assert r[..1] == ['0'];
      assert DigitsValue(['0']) == 0;
    } else {
      NatToDecimalRoundTrip(n / 10);
      assert |s| == 2;
    }
  }
}
