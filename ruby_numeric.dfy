/**
 * The three pieces of Ruby's core library that the middleware relies on:
 * `String#to_f` (lenient parse of a decimal prefix), `Float#round` (to the
 * nearest integer, ties away from zero) and `Integer#to_s` (decimal text).
 * Ruby floats are modelled by exact `real` arithmetic.
 */
module RubyNumeric {

  predicate IsDigit(c: char) { '0' <= c <= '9' }

  predicate AllDigits(s: string) {
    forall i :: 0 <= i < |s| ==> IsDigit(s[i])
  }

  function DigitValue(c: char): (d: nat)
    requires IsDigit(c)
    ensures d < 10
  {
    c as int - '0' as int
  }

  function DigitChar(d: nat): (c: char)
    requires d < 10
    ensures IsDigit(c) && DigitValue(c) == d
  {
    (d + '0' as int) as char
  }

  /** Length of the longest prefix of `s` made of decimal digits. */
  function DigitRun(s: string): (k: nat)
    ensures k <= |s|
    ensures AllDigits(s[..k])
    ensures k == |s| || !IsDigit(s[k])
  {
    if |s| > 0 && IsDigit(s[0]) then 1 + DigitRun(s[1..]) else 0
  }

  /** The natural number written by a string of digits (most significant first). */
  function NatValue(ds: string): nat
    requires AllDigits(ds)
  {
    if ds == [] then 0 else 10 * NatValue(ds[..|ds| - 1]) + DigitValue(ds[|ds| - 1])
  }

  /** The value of the digits after a decimal point: "25" is 0.25. */
  function FracValue(ds: string): (f: real)
    requires AllDigits(ds)
    ensures 0.0 <= f < 1.0
  {
    if ds == [] then 0.0 else (DigitValue(ds[0]) as real + FracValue(ds[1..])) / 10.0
  }

  // ---------------------------------------------------------------------
  // String#to_f
  // ---------------------------------------------------------------------

  /** True when the text begins with a minus sign. */
  predicate HasMinus(s: string) { |s| > 0 && s[0] == '-' }

  /** The text after one optional leading sign. */
  function Unsigned(s: string): (u: string)
    ensures |u| <= |s|
  {
    if |s| > 0 && (s[0] == '-' || s[0] == '+') then s[1..] else s
  }

  /** The fraction introduced by a '.' followed by at least one digit, or 0. */
  function FractionPart(s: string): (f: real)
    ensures 0.0 <= f < 1.0
  {
    if |s| >= 2 && s[0] == '.' && IsDigit(s[1]) then FracValue(s[1..][..DigitRun(s[1..])]) else 0.0
  }

  /** The number read from an unsigned text: its leading digits and any fraction after them. */
  function Magnitude(body: string): (m: real)
    ensures m >= 0.0
  {
    var k := DigitRun(body);
    if k == 0 then 0.0 else NatValue(body[..k]) as real + FractionPart(body[k..])
  }

  /**
   * Ruby's `String#to_f` on the grammar `[+-]?digits(.digits)?`: the longest
   * such prefix is read and the rest is ignored; text without a numeric
   * prefix reads as 0. It is total: it never fails.
   */
  function ToF(s: string): (r: real)
    ensures HasMinus(s) ==> r <= 0.0
    ensures !HasMinus(s) ==> r >= 0.0
  {
    if HasMinus(s) then -Magnitude(Unsigned(s)) else Magnitude(Unsigned(s))
  }

  // ---------------------------------------------------------------------
  // Integer#to_s
  // ---------------------------------------------------------------------

  /** Decimal text of a natural number, without leading zeros. */
  function NatToString(n: nat): (s: string)
    ensures |s| > 0 && AllDigits(s)
    ensures |s| > 1 ==> s[0] != '0'
  {
    if n < 10 then [DigitChar(n)] else NatToString(n / 10) + [DigitChar(n % 10)]
  }

  /** `Integer#to_s`: a minus sign before the digits of a negative number. */
  function IntToString(i: int): (s: string)
    ensures |s| > 0
    ensures (s[0] == '-') == (i < 0)
  {
    if i < 0 then "-" + NatToString(-i) else NatToString(i)
  }

  lemma {:induction false} NatValueOfNatToString(n: nat)
    ensures NatValue(NatToString(n)) == n
  {
    if n >= 10 {
      var s := NatToString(n);
      assert s[..|s| - 1] == NatToString(n / 10);
      NatValueOfNatToString(n / 10);
    }
  }

  /** The optional sign in front of a decimal literal. */
  datatype Sign = NoSign | Plus | Minus

  /** A decimal literal of the `to_f` grammar: sign, whole digits, digits after the point. */
  datatype Decimal = Decimal(sign: Sign, whole: string, fraction: string)

  ghost predicate ValidDecimal(d: Decimal) {
    d.whole != [] && AllDigits(d.whole) && AllDigits(d.fraction)
  }

  /** The exact number a valid decimal literal denotes. */
  function DecimalValue(d: Decimal): real
    requires ValidDecimal(d)
  {
    var magnitude := NatValue(d.whole) as real + FracValue(d.fraction);
    if d.sign == Minus then -magnitude else magnitude
  }

  function SignText(sign: Sign): string {
    match sign
    case NoSign => ""
    case Plus => "+"
    case Minus => "-"
  }

  /** The unsigned text of a literal: its whole digits, then '.' and its fraction digits if any. */
  function UnsignedText(d: Decimal): string {
    d.whole + (if d.fraction == [] then "" else "." + d.fraction)
  }

  /** The text of a decimal literal; no '.' when there are no fraction digits. */
  function Format(d: Decimal): string {
    SignText(d.sign) + UnsignedText(d)
  }

  lemma {:induction false} DigitRunOfDigitsThen(ds: string, rest: string)
    requires AllDigits(ds)
    requires rest == [] || !IsDigit(rest[0])
    ensures DigitRun(ds + rest) == |ds|
  {
    if ds != [] {
      assert (ds + rest)[1..] == ds[1..] + rest;
      DigitRunOfDigitsThen(ds[1..], rest);
    } else {
      assert ds + rest == rest;
    }
  }

  lemma MagnitudeOfDigitsThen(digits: string, tail: string)
    requires digits != [] && AllDigits(digits)
    requires tail == [] || !IsDigit(tail[0])
    ensures Magnitude(digits + tail) == NatValue(digits) as real + FractionPart(tail)
  {
    var body := digits + tail;
    DigitRunOfDigitsThen(digits, tail);
    assert body[..|digits|] == digits;
    assert body[|digits|..] == tail;
  }

  lemma FractionPartOfDigitsThen(fraction: string, rest: string)
    requires fraction != [] && AllDigits(fraction)
    requires rest == [] || !IsDigit(rest[0])
    ensures FractionPart("." + fraction + rest) == FracValue(fraction)
  {
    var tail := "." + fraction + rest;
    assert tail[1..] == fraction + rest;
    DigitRunOfDigitsThen(fraction, rest);
    assert tail[1..][..|fraction|] == fraction;
  }

  lemma MagnitudeOfUnsignedText(d: Decimal, rest: string)
    requires ValidDecimal(d)
    requires rest == [] || !IsDigit(rest[0])
    requires d.fraction == [] ==> |rest| < 2 || rest[0] != '.' || !IsDigit(rest[1])
    ensures Magnitude(UnsignedText(d) + rest) == NatValue(d.whole) as real + FracValue(d.fraction)
  {
    if d.fraction == [] {
      assert UnsignedText(d) + rest == d.whole + rest;
      MagnitudeOfDigitsThen(d.whole, rest);
      assert FractionPart(rest) == 0.0;
    } else {
      var tail := "." + d.fraction + rest;
      assert UnsignedText(d) + rest == d.whole + tail;
      MagnitudeOfDigitsThen(d.whole, tail);
      FractionPartOfDigitsThen(d.fraction, rest);
    }
  }

  /** A sign before a text that starts with a digit is read as that sign of its magnitude. */
  lemma ToFOfSignedText(sign: Sign, body: string)
    requires |body| > 0 && IsDigit(body[0])
    ensures ToF(SignText(sign) + body) == if sign == Minus then -Magnitude(body) else Magnitude(body)
  {
    var s := SignText(sign) + body;
    match sign
    case NoSign =>
      assert s == body;
    case Plus =>
      assert s[1..] == body;
    case Minus =>
      assert s[1..] == body;
  }

  /**
   * `to_f` reads back the value of any decimal literal `[+-]?digits(.digits)?`,
   * leading zeros included, whatever text follows it, provided that text
   * cannot be taken as more of the number.
   */
  lemma ToFOfFormat(d: Decimal, rest: string)
    requires ValidDecimal(d)
    requires rest == [] || !IsDigit(rest[0])
    requires d.fraction == [] ==> |rest| < 2 || rest[0] != '.' || !IsDigit(rest[1])
    ensures ToF(Format(d) + rest) == DecimalValue(d)
  {
    var body := UnsignedText(d) + rest;
    assert Format(d) + rest == SignText(d.sign) + body;
    assert body[0] == d.whole[0];
    ToFOfSignedText(d.sign, body);
    MagnitudeOfUnsignedText(d, rest);
  }

  /** `to_f` inverts `Integer#to_s`. */
  lemma ToFOfIntToString(i: int)
    ensures ToF(IntToString(i)) == i as real
  {
    var n: nat := if i < 0 then -i else i;
    var d := Decimal(if i < 0 then Minus else NoSign, NatToString(n), "");
    assert Format(d) + "" == IntToString(i);
    NatValueOfNatToString(n);
    ToFOfFormat(d, "");
  }

  /**
   * A text without a numeric prefix (neither a digit first, nor a sign then a
   * digit), such as a malformed header, reads as 0.
   */
  lemma ToFWithoutNumericPrefix(s: string)
    requires !(|s| > 0 && IsDigit(s[0]))
    requires !(|s| > 1 && (s[0] == '-' || s[0] == '+') && IsDigit(s[1]))
    ensures ToF(s) == 0.0
  {
    var body := Unsigned(s);
    if |body| > 0 {
      assert body[0] == s[|s| - |body|];
    }
  }

  lemma ToFWithoutNumericPrefixExamples()
    ensures ToF("n/a-1") == 0.0 && ToF("abc1") == 0.0 && ToF("-x1") == 0.0
    ensures ToF("0x10") == 0.0 && ToF("") == 0.0
  {
    ToFWithoutNumericPrefix("n/a-1");
    ToFWithoutNumericPrefix("abc1");
    ToFWithoutNumericPrefix("-x1");
    ToFWithoutNumericPrefix("");
    ToFHex();
  }

  lemma ToFHex()
    ensures ToF("0x10") == 0.0
  {
    var d := Decimal(NoSign, "0", "");
    assert Format(d) + "x10" == "0x10";
    ToFOfFormat(d, "x10");
  }

  /** The header value used throughout the middleware's own tests. */
  lemma ToFOfSampleRuntime()
    ensures ToF("0.13243546") == 0.13243546
  {
    var d := Decimal(NoSign, "0", "13243546");
    SampleRuntimeDigits();
    SampleRuntimeText();
    SampleRuntimeValue();
    ToFOfFormat(d, "");
  }

  lemma SampleRuntimeText()
    ensures Format(Decimal(NoSign, "0", "13243546")) + "" == "0.13243546"
  {
    assert UnsignedText(Decimal(NoSign, "0", "13243546")) == "0" + "." + "13243546";
  }

  lemma SampleRuntimeDigits()
    ensures ValidDecimal(Decimal(NoSign, "0", "13243546"))
  {
    var ds := "13243546";
    assert forall i | 0 <= i < |ds| :: ds[i] in "0123456789";
  }

  lemma SampleRuntimeValue()
    ensures DecimalValue(Decimal(NoSign, "0", "13243546")) == 0.13243546
  {
    SampleRuntimeDigits();
    assert NatValue("0") == 0;
    SampleRuntimeFraction();
  }

  lemma SampleRuntimeFraction()
    ensures FracValue("13243546") == 0.13243546
  {
    SampleRuntimeFractionTail();
    assert "13243546"[1..] == "3243546";
    assert "3243546"[1..] == "243546";
    assert "243546"[1..] == "43546";
  }

  lemma SampleRuntimeFractionTail()
    ensures FracValue("43546") == 0.43546
  {
    assert "43546"[1..] == "3546";
    assert "3546"[1..] == "546";
    assert "546"[1..] == "46";
    assert "46"[1..] == "6";
    assert "6"[1..] == "";
  }

  lemma ToFIgnoresTrailingText()
    ensures ToF("-1.5s") == -1.5
    ensures ToF("12abc") == 12.0
    ensures ToF("5.") == 5.0 && ToF("1.x") == 1.0
  {
    ToFOfNegativeWithSuffix();
    ToFOfWholeWithSuffix();
    ToFOfBarePoint();
  }

  /** A '.' not followed by a digit ends the number. */
  lemma ToFOfBarePoint()
    ensures ToF("5.") == 5.0 && ToF("1.x") == 1.0
  {
    var five := Decimal(NoSign, "5", "");
    assert Format(five) + "." == "5.";
    ToFOfFormat(five, ".");
    var one := Decimal(NoSign, "1", "");
    assert Format(one) + ".x" == "1.x";
    ToFOfFormat(one, ".x");
  }

  lemma ToFOfNegativeWithSuffix()
    ensures ToF("-1.5s") == -1.5
  {
    var d := Decimal(Minus, "1", "5");
    assert Format(d) + "s" == "-1.5s";
    assert NatValue("1") == 1 && FracValue("5") == 0.5;
    ToFOfFormat(d, "s");
  }

  lemma ToFOfWholeWithSuffix()
    ensures ToF("12abc") == 12.0
  {
    var e := Decimal(NoSign, "12", "");
    assert Format(e) + "abc" == "12abc";
    assert NatValue("12") == 12 by {
      assert "12"[..1] == "1";
    }
    ToFOfFormat(e, "abc");
  }

  lemma ToFReadsLeadingZerosAndPlus()
    ensures ToF("+007.5") == 7.5
  {
    var d := Decimal(Plus, "007", "5");
    assert Format(d) + "" == "+007.5";
    assert NatValue("007") == 7 by {
      assert "007"[..2] == "00";
      assert "00"[..1] == "0";
    }
    assert FracValue("5") == 0.5;
    ToFOfFormat(d, "");
  }

  // ---------------------------------------------------------------------
  // Float#round
  // ---------------------------------------------------------------------

  /**
   * `Float#round` with no digits argument: the nearest integer, a tie going
   * away from zero (2.5 becomes 3, -2.5 becomes -3).
   */
  function Round(x: real): (n: int)
    ensures x >= 0.0 ==> x - 0.5 < n as real <= x + 0.5
    ensures x < 0.0 ==> x - 0.5 <= n as real < x + 0.5
  {
    if x >= 0.0 then (x + 0.5).Floor else -((0.5 - x).Floor)
  }

  /** Reference definition: `n` is a nearest integer to `x`, and on a tie the one farther from zero. */
  ghost predicate NearestAwayFromZero(x: real, n: int) {
    var d := n as real - x;
    (-0.5 < d < 0.5) || (d == 0.5 && x >= 0.0) || (d == -0.5 && x < 0.0)
  }

  lemma RoundIsNearestAwayFromZero(x: real, n: int)
    ensures NearestAwayFromZero(x, n) <==> n == Round(x)
  {
    var r := Round(x);
    if NearestAwayFromZero(x, n) {
      // two integers less than one apart are equal
      assert -1.0 < (n - r) as real < 1.0;
    }
  }

  lemma RoundIsNotTruncation()
    ensures Round(367.56454) == 368
    ensures Round(-367.56454) == -368
    ensures Round(132.43546) == 132
    ensures Round(2.5) == 3 && Round(-2.5) == -3
  {
  }
}
