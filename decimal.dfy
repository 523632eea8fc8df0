/** Decimal rendering of integers, as JavaScript's number-to-string
    conversion produces it for integral values of magnitude below 10^21 (no
    leading zeros, a leading '-' for negatives), and the parse that inverts
    it. From 10^21 on JavaScript switches to exponent notation, which is not
    modelled; every year a `Date` can hold lies within -275760..275760. */
module Decimal {
  import opened JsValues

  predicate IsDigit(c: char) {
    '0' <= c <= '9'
  }

  predicate AllDigits(s: string) {
    forall i :: 0 <= i < |s| ==> IsDigit(s[i])
  }

  function DigitChar(d: nat): (c: char)
    requires d < 10
    ensures IsDigit(c) && c as int - '0' as int == d
  {
    ('0' as int + d) as char
  }

  function DigitValue(c: char): (d: nat)
    requires IsDigit(c)
    ensures d < 10 && DigitChar(d) == c
  {
    c as int - '0' as int
  }

  function Pow10(k: nat): (p: nat)
    ensures p >= 1
  {
    if k == 0 then 1 else 10 * Pow10(k - 1)
  }

  /** The decimal digits of `n`, most significant first, without leading
      zeros. */
  function NatToString(n: nat): (s: string)
    ensures |s| >= 1 && AllDigits(s)
    ensures s[0] == '0' <==> n == 0
  {
    if n < 10 then [DigitChar(n)] else NatToString(n / 10) + [DigitChar(n % 10)]
  }

  /** The value of a string of digits, most significant first. */
  function ParseNat(s: string): (v: nat)
    requires AllDigits(s)
    ensures v < Pow10(|s|)
  {
    if s == [] then 0 else 10 * ParseNat(s[..|s| - 1]) + DigitValue(s[|s| - 1])
  }

  /** `String(i)` for an integral number `i` with |i| < 10^21. */
  function IntToString(i: int): (s: string)
    ensures |s| >= 1
    ensures s[0] == '-' <==> i < 0
    ensures i < 0 ==> |s| >= 2 && AllDigits(s[1..]) && s[1] != '0'
    ensures i >= 0 ==> AllDigits(s) && (s[0] == '0' <==> i == 0)
  {
    if i < 0 then "-" + NatToString(-i) else NatToString(i)
  }

  /** Parsing the rendering of `n` gives back `n`. */
  lemma {:induction false} ParseNatToString(n: nat)
    ensures ParseNat(NatToString(n)) == n
  {
    if n >= 10 {
      var s := NatToString(n);
      assert s[..|s| - 1] == NatToString(n / 10);
      ParseNatToString(n / 10);
    }
  }

  /** The rendering has exactly k digits when 10^(k-1) <= n < 10^k. */
  lemma {:induction false} NatToStringLength(n: nat, k: nat)
    requires k >= 1 && Pow10(k - 1) <= n < Pow10(k)
    ensures |NatToString(n)| == k
  {
    if k > 1 {
      assert n >= 10;
      NatToStringLength(n / 10, k - 1);
    }
  }

  /** The value of an optionally '-'-signed string of digits, or None when
      the string has any other shape. */
  function ParseInt(s: string): (r: Option<int>) {
    if |s| >= 2 && s[0] == '-' && AllDigits(s[1..]) then Some(0 - ParseNat(s[1..]) as int)
    else if |s| >= 1 && AllDigits(s) then Some(ParseNat(s) as int)
    else None
  }

  /** Parsing the rendering of `i` gives back `i`, the sign included. */
  lemma ParseIntToString(i: int)
    ensures ParseInt(IntToString(i)) == Some(i)
  {
    var s := IntToString(i);
    if i < 0 {
      var digits := NatToString(-i);
      assert s[1..] == digits;
      assert AllDigits(s[1..]);
      ParseNatToString(-i);
    } else {
      assert IsDigit(s[0]);
      ParseNatToString(i);
    }
  }

  /** Rendering is one-to-one on integers. */
  lemma IntToStringInjective(i: int, j: int)
    requires IntToString(i) == IntToString(j)
    ensures i == j
  {
    ParseIntToString(i);
    ParseIntToString(j);
  }
}
