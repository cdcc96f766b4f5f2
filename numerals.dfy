/** Digits and decimal numerals, shared by the C side (`%d`, `atoi`) and the
    JavaScript side (`Number.prototype.toString`, `parseInt`) of the protocol. */
module Numerals {

  /** The value of `c` read as a digit of radix up to 36: '0'..'9' are 0..9,
      letters of either case are 10..35, every other character is 36 (a digit
      of no radix). */
  function CharDigit(c: char): (d: nat)
    ensures d <= 36
    ensures ('0' <= c <= '9') <==> d < 10
  {
    if '0' <= c <= '9' then c as int - '0' as int
    else if 'a' <= c <= 'z' then c as int - 'a' as int + 10
    else if 'A' <= c <= 'Z' then c as int - 'A' as int + 10
    else 36
  }

  predicate IsDigitIn(c: char, radix: nat)
  {
    CharDigit(c) < radix
  }

  predicate AllDigitsIn(s: string, radix: nat)
  {
    forall i :: 0 <= i < |s| ==> IsDigitIn(s[i], radix)
  }

  /** The length of the longest prefix of `s` made of digits of `radix`. */
  function LeadingDigits(s: string, radix: nat): (k: nat)
    ensures k <= |s|
    ensures AllDigitsIn(s[..k], radix)
    ensures k < |s| ==> !IsDigitIn(s[k], radix)
  {
    if |s| == 0 || !IsDigitIn(s[0], radix) then 0
    else
      var k := 1 + LeadingDigits(s[1..], radix);
      assert forall i :: 1 <= i < k ==> s[..k][i] == s[1..][..k - 1][i - 1];
      k
  }

  /** The number that a string of digits denotes, most significant digit first. */
  function ValueOf(s: string, radix: nat): nat
    requires AllDigitsIn(s, radix)
  {
    if |s| == 0 then 0
    else ValueOf(s[..|s| - 1], radix) * radix + CharDigit(s[|s| - 1])
  }

  function DigitChar(d: nat): (c: char)
    requires d < 10
    ensures CharDigit(c) == d
  {
    ('0' as int + d) as char
  }

  /** The decimal numeral of `n`, without leading zeros. */
  function NatToDecimal(n: nat): (s: string)
    decreases n
  {
    if n < 10 then [DigitChar(n)] else NatToDecimal(n / 10) + [DigitChar(n % 10)]
  }

  /** `%d` in C and `toString()` of an integral JavaScript number: a minus
      sign for negative values, then the decimal numeral of the magnitude. */
  function IntToDecimal(n: int): (s: string)
  {
    if n < 0 then "-" + NatToDecimal(-n) else NatToDecimal(n)
  }

  /** The numeral is made of decimal digits only and denotes `n`. */
  lemma {:induction false} NatToDecimalValue(n: nat)
    ensures |NatToDecimal(n)| >= 1
    ensures AllDigitsIn(NatToDecimal(n), 10)
    ensures ValueOf(NatToDecimal(n), 10) == n
    decreases n
  {
    if n >= 10 {
      NatToDecimalValue(n / 10);
      var s := NatToDecimal(n);
      assert s[..|s| - 1] == NatToDecimal(n / 10);
    }
  }

  /** A numeral is no longer than its magnitude needs: below `10^k` it has at
      most `k` digits (zero still takes one). */
  lemma {:induction false} NatToDecimalLength(n: nat, k: nat)
    requires k >= 1 && n < Pow10(k)
    ensures |NatToDecimal(n)| <= k
    decreases k
  {
    if n >= 10 {
      assert n / 10 < Pow10(k - 1);
      NatToDecimalLength(n / 10, k - 1);
    }
  }

  function Pow10(k: nat): (p: nat)
    ensures p >= 1
  {
    if k == 0 then 1 else 10 * Pow10(k - 1)
  }

  /** The shape of a rendered integer: an optional leading '-', then at least
      one digit, and nothing else; the sign is there exactly for negatives. */
  lemma IntToDecimalShape(n: int)
    ensures var s := IntToDecimal(n);
      && |s| >= 1
      && (s[0] == '-' <==> n < 0)
      && AllDigitsIn(if n < 0 then s[1..] else s, 10)
      && |if n < 0 then s[1..] else s| >= 1
      && IsDigitIn(s[|s| - 1], 10)
  {
    var m: nat := if n < 0 then -n else n;
    NatToDecimalValue(m);
    var s := IntToDecimal(n);
    if n < 0 {
      assert s[1..] == NatToDecimal(m);
    } else {
      assert IsDigitIn(s[0], 10);
    }
  }
}
