/** Decimal text: the status code printed in the heartbeat's failure
    message, and the percentage strings the install command hands to
    bcdiv($p, '100', 4). A rate is kept as a whole number of
    ten-thousandths, so "0.1900" is 1900. */
module Numeric {
  import opened Wrappers
  import opened Text

  predicate IsDigit(c: char) { '0' <= c <= '9' }

  predicate AllDigits(s: string) { forall k :: 0 <= k < |s| ==> IsDigit(s[k]) }

  function DigitChar(d: nat): (c: char)
    requires d < 10
    ensures IsDigit(c)
  {
    ('0' as int + d) as char
  }

  /** The value of a string of decimal digits; the empty string is 0, as
      bcmath reads an empty digit run. */
  function DigitsValue(s: string): (r: nat)
    requires AllDigits(s)
  {
    if s == [] then 0 else DigitsValue(s[..|s| - 1]) * 10 + (s[|s| - 1] as int - '0' as int)
  }

  function Pow10(k: nat): (p: nat)
    ensures p >= 1
  {
    if k == 0 then 1 else 10 * Pow10(k - 1)
  }

  /** The decimal text of n, as PHP converts an int to a string: digits only,
      no leading zero, and reading it back gives n. */
  function NatToDecimal(n: nat): (r: string)
    ensures |r| >= 1 && AllDigits(r)
    ensures DigitsValue(r) == n
    ensures r[0] == '0' ==> r == "0"
  {
    if n < 10 then [DigitChar(n)]
    else
      var front := NatToDecimal(n / 10);
      var r := front + [DigitChar(n % 10)];
      assert r[..|r| - 1] == front;
      r
  }

  /** Different numbers print differently. */
  lemma NatToDecimalInjective(a: nat, b: nat)
    requires NatToDecimal(a) == NatToDecimal(b)
    ensures a == b
  {
  }

  /** A number as bcmath reads it: an optional sign, a run of digits before
      the point and a run after it (either run may be empty). */
  datatype Number = Number(negative: bool, whole: string, fraction: string)

  predicate WellFormed(n: Number) { AllDigits(n.whole) && AllDigits(n.fraction) }

  /** bcmath's number grammar (PHP 8): [+-]? digit* ('.' digit*)?; any other
      text is not well-formed and makes bcdiv() throw. */
  function ParseNumber(t: string): (r: Option<Number>)
    ensures r.Some? ==> WellFormed(r.value)
  {
    if t != [] && (t[0] == '+' || t[0] == '-') then ParseUnsigned(t[1..], t[0] == '-')
    else ParseUnsigned(t, false)
  }

  /** The part of a number after its sign. */
  function ParseUnsigned(body: string, negative: bool): (r: Option<Number>)
    ensures r.Some? ==> WellFormed(r.value) && r.value.negative == negative
  {
    var parts := Split(body, '.');
    if |parts| == 1 && AllDigits(parts[0]) then Some(Number(negative, parts[0], ""))
    else if |parts| == 2 && AllDigits(parts[0]) && AllDigits(parts[1]) then
      Some(Number(negative, parts[0], parts[1]))
    else None
  }

  function BodyText(n: Number): (r: string) {
    n.whole + (if n.fraction == [] then "" else "." + n.fraction)
  }

  /** The canonical text of a number: a minus sign when negative, the whole
      digits, and the point only when there is a fraction. */
  function NumberText(n: Number): (r: string) {
    (if n.negative then "-" else "") + BodyText(n)
  }

  lemma {:induction false} ParseBodyText(n: Number)
    requires WellFormed(n)
    ensures ParseUnsigned(BodyText(n), n.negative) == Some(n)
  {
    assert '.' !in n.whole;
    assert '.' !in n.fraction;
    if n.fraction == [] {
      assert BodyText(n) == n.whole;
      SplitFree(n.whole, '.');
    } else {
      assert BodyText(n) == n.whole + ['.'] + n.fraction;
      SplitPrefix(n.whole, n.fraction, '.');
      SplitFree(n.fraction, '.');
    }
  }

  /** Reading back the canonical text of a well-formed number gives it back. */
  lemma {:induction false} ParseNumberText(n: Number)
    requires WellFormed(n)
    ensures ParseNumber(NumberText(n)) == Some(n)
  {
    var t := NumberText(n);
    var body := BodyText(n);
    ParseBodyText(n);
    if n.negative {
      assert t == "-" + body;
      assert t[1..] == body;
    } else {
      assert t == body;
      if body != [] {
        assert body[0] == if n.whole != [] then n.whole[0] else '.';
      }
    }
  }

  /** A plain string of digits is read as that non-negative whole number. */
  lemma DigitsParse(d: string)
    requires AllDigits(d)
    ensures ParseNumber(d) == Some(Number(false, d, ""))
  {
    ParseBodyText(Number(false, d, ""));
    assert BodyText(Number(false, d, "")) == d;
    if d != [] {
      assert IsDigit(d[0]);
    }
  }

  lemma AllDigitsAppend(a: string, b: string)
    requires AllDigits(a) && AllDigits(b)
    ensures AllDigits(a + b)
  {
    assert forall k :: 0 <= k < |a + b| ==> (a + b)[k] == if k < |a| then a[k] else b[k - |a|];
  }

  function Abs(x: int): (r: nat) { if x < 0 then -x else x }

  /** The digits of a number read as one integer: the number is
      Mantissa(n) / 10^|n.fraction|. */
  function Mantissa(n: Number): (r: nat)
    requires WellFormed(n)
  {
    AllDigitsAppend(n.whole, n.fraction);
    DigitsValue(n.whole + n.fraction)
  }

  /** |n| / 100 in ten-thousandths, cut toward zero. */
  function Hundredths(n: Number): (r: nat)
    requires WellFormed(n)
  {
    var x: nat := Mantissa(n) * 100;
    var p: nat := Pow10(|n.fraction|);
    DivNat(x, p)
  }

  function DivNat(x: nat, p: nat): (q: nat)
    requires p >= 1
  {
    x / p
  }

  /** bcdiv($t, '100', 4) in ten-thousandths: the percentage divided by 100
      and cut to four decimals toward zero; None when bcmath rejects the
      text. */
  function RateFromPercent(t: string): (r: Option<int>)
    ensures r.Some? <==> ParseNumber(t).Some?
  {
    match ParseNumber(t)
    case None => None
    case Some(n) =>
      var magnitude: int := Hundredths(n);
      Some(if n.negative then -magnitude else magnitude)
  }

  /** The rate is the value times 100 truncated toward zero: with the value
      N / 10^k (N the mantissa, k the length of the fraction), |r| is the
      largest whole number with |r| * 10^k <= N * 100, and r is negative
      only for a negative number. */
  lemma RateTruncates(t: string)
    requires ParseNumber(t).Some?
    ensures var n := ParseNumber(t).value;
      var r := RateFromPercent(t).value;
      Abs(r) * Pow10(|n.fraction|) <= Mantissa(n) * 100 < (Abs(r) + 1) * Pow10(|n.fraction|)
      && (r < 0 ==> n.negative) && (n.negative ==> r <= 0)
  {
    var n := ParseNumber(t).value;
    var m := Hundredths(n);
    assert Abs(RateFromPercent(t).value) == m;
    DivBounds(Mantissa(n) * 100, Pow10(|n.fraction|));
    assert m == (Mantissa(n) * 100) / Pow10(|n.fraction|);
  }

  lemma DivBounds(x: nat, p: nat)
    requires p >= 1
    ensures (x / p) * p <= x < (x / p + 1) * p
  {
  }

  /** A whole-number percentage p becomes exactly p * 100 ten-thousandths
      (19 becomes 0.1900). */
  lemma IntegerPercent(d: string)
    requires AllDigits(d)
    ensures RateFromPercent(d) == Some(DigitsValue(d) * 100)
  {
    var n := Number(false, d, "");
    DigitsParse(d);
    assert d + "" == d;
    assert Mantissa(n) == DigitsValue(d);
    assert Pow10(0) == 1;
    assert DivNat(DigitsValue(d) * 100, 1) == DigitsValue(d) * 100;
  }

  /** The percentages the command's tests and defaults use. */
  lemma KnownRates()
    ensures RateFromPercent("19") == Some(1900)
    ensures RateFromPercent("7") == Some(700)
    ensures RateFromPercent("0") == Some(0)
  {
    IntegerPercent("19");
    IntegerPercent("7");
    IntegerPercent("0");
  }

  /** A fractional percentage keeps its fraction: 7.5 becomes 0.0750. */
  lemma FractionalRate()
    ensures RateFromPercent("7.5") == Some(750)
  {
    var n := Number(false, "7", "5");
    ParseNumberText(n);
    assert NumberText(n) == "7.5";
    assert n.whole + n.fraction == "75";
    assert "75"[..1] == "7";
    assert Mantissa(n) == 75;
  }

  /** Text that is not a number is rejected. */
  lemma MalformedRate()
    ensures RateFromPercent("abc") == None
  {
    SplitFree("abc", '.');
    assert !IsDigit("abc"[0]);
  }
}
