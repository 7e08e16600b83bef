/**
 * Decimal text of integers, as PHP writes an `int` inside a string
 * (`"remote_manga_list_{$page}"`, a query parameter, `(string) $n`), and the
 * digit-string value used to read such text back.
 */
module Decimal {

  predicate IsDigit(c: char) {
    '0' <= c <= '9'
  }

  predicate AllDigits(s: string) {
    forall i :: 0 <= i < |s| ==> IsDigit(s[i])
  }

  function DigitChar(d: nat): (c: char)
    requires d < 10
  {
    (('0' as int) + d) as char
  }

  function DigitValue(c: char): (d: nat)
    requires IsDigit(c)
  {
    (c as int) - ('0' as int)
  }

  /** The decimal digits of `n`, most significant first, without leading zeros. */
  function NatToDecimal(n: nat): (s: string)
    ensures |s| >= 1 && AllDigits(s)
    ensures s[0] == '0' <==> n == 0
    decreases n
  {
    if n < 10 then [DigitChar(n)] else NatToDecimal(n / 10) + [DigitChar(n % 10)]
  }

  /** The number a non-empty string of digits denotes. */
  function DigitsValue(s: string): nat
    requires AllDigits(s)
  {
    if s == [] then 0 else DigitsValue(s[..|s| - 1]) * 10 + DigitValue(s[|s| - 1])
  }

  /** PHP's string conversion of an `int`: a minus sign for negative values. */
  function IntToDecimal(i: int): (s: string)
  {
    if i < 0 then "-" + NatToDecimal(-i) else NatToDecimal(i)
  }

  /** Reading the digits back gives the number: decimal text is a faithful encoding. */
  lemma {:induction false} DigitsValueOfNatToDecimal(n: nat)
    ensures DigitsValue(NatToDecimal(n)) == n
    decreases n
  {
    if n >= 10 {
      var p := NatToDecimal(n / 10);
      var s := p + [DigitChar(n % 10)];
      assert s[..|s| - 1] == p;
      DigitsValueOfNatToDecimal(n / 10);
    }
  }

  /** Conversely, digits without a leading zero are the decimal text of their value. */
  lemma {:induction false} NatToDecimalOfDigitsValue(d: string)
    requires |d| >= 1 && AllDigits(d) && (d == "0" || d[0] != '0')
    ensures NatToDecimal(DigitsValue(d)) == d
    decreases |d|
  {
    var v := DigitValue(d[|d| - 1]);
    if |d| == 1 {
      assert d[..0] == [];
      assert d == [DigitChar(v)];
    } else {
      var p := d[..|d| - 1];
      assert p[0] == d[0];
      NatToDecimalOfDigitsValue(p);
      var n := DigitsValue(p) * 10 + v;
      assert DigitsValue(p) != 0;
      assert n / 10 == DigitsValue(p) && n % 10 == v;
      assert d == p + [DigitChar(v)];
    }
  }

  /** Different integers never print the same. */
  lemma IntToDecimalInjective(a: int, b: int)
    ensures IntToDecimal(a) == IntToDecimal(b) ==> a == b
  {
    if IntToDecimal(a) == IntToDecimal(b) {
      var sa, sb := IntToDecimal(a), IntToDecimal(b);
      if a < 0 && b < 0 {
        assert sa[1..] == NatToDecimal(-a) && sb[1..] == NatToDecimal(-b);
        DigitsValueOfNatToDecimal(-a);
        DigitsValueOfNatToDecimal(-b);
      } else if a >= 0 && b >= 0 {
        DigitsValueOfNatToDecimal(a);
        DigitsValueOfNatToDecimal(b);
      }
    }
  }
}
