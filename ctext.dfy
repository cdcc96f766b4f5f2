/** The C library's text-to-number conversion used by the trackers' `main`:
    `atoi` as section 7.22.1.2 of ISO C11 defines it, that is `strtol` in base
    10 with the result converted to `int`. */
module CText {
  import opened Numerals
  import opened Strings

  /** `isspace` in the "C" locale: space, '\t', '\n', '\v', '\f', '\r'. */
  predicate IsCSpace(c: char)
  {
    c == ' ' || '\t' <= c <= '\r'
  }

  /** Leading white space is skipped, then an optional sign, then the longest
      run of decimal digits is the magnitude; no digits at all gives 0. */
  function Atoi(s: string): (n: int)
    ensures n < 0 ==> var t := DropWhile(s, IsCSpace); |t| > 0 && t[0] == '-'
  {
    var t := DropWhile(s, IsCSpace);
    if |t| > 0 && t[0] == '-' then -(DecimalPrefix(t[1..]) as int)
    else if |t| > 0 && t[0] == '+' then DecimalPrefix(t[1..])
    else DecimalPrefix(t)
  }

  /** The value of the longest prefix of decimal digits (0 if there is none). */
  function DecimalPrefix(u: string): nat
  {
    ValueOf(u[..LeadingDigits(u, 10)], 10)
  }

  lemma DecimalPrefixOfNumeral(m: nat)
    ensures DecimalPrefix(NatToDecimal(m)) == m
  {
    var u := NatToDecimal(m);
    NatToDecimalValue(m);
    assert LeadingDigits(u, 10) == |u|;
    assert u[..|u|] == u;
  }

  /** `atoi` reads back every integer that `%d` (or JavaScript's `toString`)
      renders. */
  lemma AtoiOfDecimal(n: int)
    ensures Atoi(IntToDecimal(n)) == n
  {
    var s := IntToDecimal(n);
    IntToDecimalShape(n);
    assert !IsCSpace(s[0]);
    assert DropWhile(s, IsCSpace) == s;
    if n < 0 {
      assert s[1..] == NatToDecimal(-n);
      DecimalPrefixOfNumeral(-n);
    } else {
      DecimalPrefixOfNumeral(n);
    }
  }

  /** Text that does not start with white space, a sign or a digit converts to
      0: a non-numeric argument silently becomes a zero coordinate. */
  lemma AtoiNonNumeric(s: string)
    requires |s| > 0 && !IsCSpace(s[0]) && s[0] != '-' && s[0] != '+'
    requires !IsDigitIn(s[0], 10)
    ensures Atoi(s) == 0
  {
    assert DropWhile(s, IsCSpace) == s;
    assert LeadingDigits(s, 10) == 0;
  }
}
