/** The JavaScript string and number operations the host uses on the
    tracker's output: `String.prototype.trim` and the global `parseInt` with
    no radix argument (sections 22.1.3.32 and 19.2.5 of ECMA-262). */
module JsText {
  import opened Numerals
  import opened Strings

  /** A JavaScript number as far as integral values go; `NaN` is what
      `parseInt` returns when it finds no digits. */
  datatype JsNum = NaN | Num(value: int)

  /** The characters `trim` and `parseInt` strip: the WhiteSpace and
      LineTerminator characters of ECMA-262. */
  predicate IsJsSpace(c: char)
  {
    var k := c as int;
    (9 <= k <= 13) || k == 0x20 || k == 0xA0 || k == 0x1680 ||
    (0x2000 <= k <= 0x200A) || k == 0x2028 || k == 0x2029 || k == 0x202F ||
    k == 0x205F || k == 0x3000 || k == 0xFEFF
  }

  /** `trim`: the text with its leading and trailing white space removed. */
  function Trim(s: string): (r: string)
    ensures |r| <= |s|
    ensures |r| > 0 ==> !IsJsSpace(r[0]) && !IsJsSpace(r[|r| - 1])
    ensures (forall i :: 0 <= i < |s| ==> IsJsSpace(s[i])) <==> r == ""
  {
    DropLastWhile(DropWhile(s, IsJsSpace), IsJsSpace)
  }

  /** Leading white space is skipped, then an optional sign; a "0x" or "0X"
      prefix selects radix 16, otherwise the radix is 10; the longest run of
      digits of that radix is the magnitude, and no digits at all is NaN. */
  function ParseInt(s: string): (n: JsNum)
    ensures n.Num? && n.value < 0 ==> var t := DropWhile(s, IsJsSpace); |t| > 0 && t[0] == '-'
    ensures (forall i :: 0 <= i < |s| ==> IsJsSpace(s[i])) ==> n == NaN
  {
    var t := DropWhile(s, IsJsSpace);
    if |t| > 0 && t[0] == '-' then Negate(Magnitude(t[1..]))
    else if |t| > 0 && t[0] == '+' then Magnitude(t[1..])
    else Magnitude(t)
  }

  function Negate(n: JsNum): JsNum
  {
    match n
    case NaN => NaN
    case Num(v) => Num(-v)
  }

  /** The unsigned part of `parseInt`: radix selection and the digit run. */
  function Magnitude(u: string): JsNum
  {
    var hex := |u| >= 2 && u[0] == '0' && (u[1] == 'x' || u[1] == 'X');
    var radix := if hex then 16 else 10;
    var digits := if hex then u[2..] else u;
    var k := LeadingDigits(digits, radix);
    if k == 0 then NaN else Num(ValueOf(digits[..k], radix))
  }

  lemma MagnitudeOfNumeral(m: nat)
    ensures Magnitude(NatToDecimal(m)) == Num(m)
  {
    var u := NatToDecimal(m);
    NatToDecimalValue(m);
    assert |u| >= 2 ==> IsDigitIn(u[1], 10);
    assert LeadingDigits(u, 10) == |u|;
    assert u[..|u|] == u;
  }

  /** `parseInt` reads back every integer that `%d` renders. */
  lemma ParseIntOfDecimal(n: int)
    ensures ParseInt(IntToDecimal(n)) == Num(n)
  {
    var s := IntToDecimal(n);
    IntToDecimalShape(n);
    assert !IsJsSpace(s[0]);
    assert DropWhile(s, IsJsSpace) == s;
    if n < 0 {
      assert s[1..] == NatToDecimal(-n);
      MagnitudeOfNumeral(-n);
    } else {
      MagnitudeOfNumeral(n);
    }
  }

  /** Text that does not start with white space, a sign or a digit is NaN. */
  lemma ParseIntNonNumeric(s: string)
    requires |s| == 0 || (!IsJsSpace(s[0]) && s[0] != '-' && s[0] != '+' && !IsDigitIn(s[0], 10))
    ensures ParseInt(s) == NaN
  {
    assert DropWhile(s, IsJsSpace) == s;
    assert |s| > 0 ==> LeadingDigits(s, 10) == 0;
  }

  /** A stream of lines whose first character and whose last character before
      the final newline are not white space trims to the lines joined by
      newlines: only the final newline goes. */
  lemma TrimLines(lines: seq<string>)
    requires |lines| >= 1
    requires |lines[0]| > 0 && !IsJsSpace(lines[0][0])
    requires var last := lines[|lines| - 1]; |last| > 0 && !IsJsSpace(last[|last| - 1])
    ensures Trim(Unlines(lines)) == Join(lines, '\n')
  {
    UnlinesJoin(lines);
    var j := Join(lines, '\n');
    JoinStart(lines, '\n');
    JoinEnd(lines, '\n');
    assert DropWhile(j + "\n", IsJsSpace) == j + "\n";
    assert (j + "\n")[..|j|] == j;
    assert DropLastWhile(j + "\n", IsJsSpace) == DropLastWhile(j, IsJsSpace);
  }

  /** A join of pieces starts with the first piece's first character. */
  lemma {:induction false} JoinStart(parts: seq<string>, sep: char)
    requires |parts| >= 1 && |parts[0]| > 0
    ensures |Join(parts, sep)| > 0 && Join(parts, sep)[0] == parts[0][0]
    decreases |parts|
  {
    if |parts| > 1 {
      JoinStart(parts[..|parts| - 1], sep);
    }
  }

  /** A join of pieces ends with the last piece's last character. */
  lemma JoinEnd(parts: seq<string>, sep: char)
    requires |parts| >= 1 && |parts[|parts| - 1]| > 0
    ensures var j := Join(parts, sep); var last := parts[|parts| - 1];
      |j| > 0 && j[|j| - 1] == last[|last| - 1]
  {
  }
}
