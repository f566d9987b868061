/** Decimal rendering of a Java `long`, as string concatenation performs it
    (`String.valueOf(long)`): an optional minus sign followed by the digits of
    the magnitude, without leading zeros. A parser is given as its inverse. */
module Decimal {

  predicate IsDigit(c: char) { '0' <= c <= '9' }

  predicate AllDigits(s: string) { forall i :: 0 <= i < |s| ==> IsDigit(s[i]) }

  function DigitChar(d: nat): (c: char)
    requires d < 10
    ensures IsDigit(c) && (c as int) - ('0' as int) == d
  {
    (('0' as int) + d) as char
  }

  function DigitValue(c: char): (d: nat)
    requires IsDigit(c)
    ensures d < 10 && DigitChar(d) == c
  {
    (c as int) - ('0' as int)
  }

  /** The digits of `n`, most significant first. */
  function NatToDecimal(n: nat): (s: string)
    ensures 1 <= |s| && AllDigits(s)
    ensures s[0] == '0' <==> n == 0
    ensures n < 10 <==> |s| == 1
  {
    if n < 10 then [DigitChar(n)] else NatToDecimal(n / 10) + [DigitChar(n % 10)]
  }

  /** `Long.toString(n)`. */
  function LongToString(n: int): (s: string)
    ensures 1 <= |s|
    ensures s[0] == '-' <==> n < 0
    ensures n < 0 ==> 2 <= |s| && AllDigits(s[1..]) && s[1] != '0'
    ensures 0 <= n ==> AllDigits(s) && (s[0] == '0' <==> n == 0)
  {
    if n < 0 then "-" + NatToDecimal(-n) else NatToDecimal(n)
  }

  function ParseNat(s: string): (n: nat)
    requires AllDigits(s)
  {
    if s == [] then 0 else 10 * ParseNat(s[..|s| - 1]) + DigitValue(s[|s| - 1])
  }

  /** Reads back a string produced by `LongToString`. */
  function ParseLong(s: string): (n: int)
    requires |s| >= 1
    requires AllDigits(s) || (s[0] == '-' && AllDigits(s[1..]))
  {
    if s[0] == '-' then 0 - ParseNat(s[1..]) else ParseNat(s)
  }

  lemma {:induction false} NatRoundTrip(n: nat)
    ensures ParseNat(NatToDecimal(n)) == n
  {
    var s := NatToDecimal(n);
    if n >= 10 {
      NatRoundTrip(n / 10);
      assert s[..|s| - 1] == NatToDecimal(n / 10);
      assert s[|s| - 1] == DigitChar(n % 10);
    }
  }

  function Pow10(k: nat): (p: nat)
    ensures 1 <= p
    ensures 1 <= k ==> 10 <= p
  {
    if k == 0 then 1 else 10 * Pow10(k - 1)
  }

  /** A natural number has at most `k` digits exactly when it is below 10^k. */
  lemma {:induction false} DecimalWidth(n: nat, k: nat)
    requires 1 <= k
    ensures |NatToDecimal(n)| <= k <==> n < Pow10(k)
  {
    if n >= 10 && k > 1 {
      DecimalWidth(n / 10, k - 1);
      assert n == 10 * (n / 10) + n % 10;
      assert n / 10 < Pow10(k - 1) <==> n < 10 * Pow10(k - 1);
    } else if n >= 10 {
      assert Pow10(1) == 10;
    }
  }

  /** The non-negative longs whose rendering has four characters are exactly
      1000..9999. */
  lemma FourDigitLongs(n: int)
    ensures 0 <= n && |LongToString(n)| == 4 <==> 1000 <= n <= 9999
  {
    if 0 <= n {
      DecimalWidth(n, 4);
      DecimalWidth(n, 3);
      assert Pow10(3) == 1000 && Pow10(4) == 10000;
    }
  }

  /** Parsing undoes rendering, for every long. */
  lemma LongRoundTrip(n: int)
    ensures ParseLong(LongToString(n)) == n
  {
    var s := LongToString(n);
    if n < 0 {
      assert s[1..] == NatToDecimal(-n);
      NatRoundTrip(-n);
    } else {
      NatRoundTrip(n);
    }
  }

  /** Distinct longs render as distinct strings. */
  lemma LongToStringInjective(a: int, b: int)
    ensures LongToString(a) == LongToString(b) ==> a == b
  {
    LongRoundTrip(a);
    LongRoundTrip(b);
  }
}
