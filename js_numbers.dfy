/**
 * JavaScript numbers as the totals use them, without IEEE-754 rounding: a Number is a
 * real, an infinity or NaN. `Number.prototype.toFixed(2)` writes an amount as text and
 * `parseFloat` reads text back (section 19.2.4 of ECMA-262).
 */
module JsNumbers {
  import opened Wrappers
  import opened JsBuiltins

  datatype JsNumber = Finite(value: real) | Infinite(negative: bool) | NaN

  /** Addition of Numbers: NaN absorbs, opposite infinities give NaN. */
  function Add(a: JsNumber, b: JsNumber): (r: JsNumber)
    ensures a.Finite? && b.Finite? ==> r == Finite(a.value + b.value)
    ensures a.NaN? || b.NaN? ==> r.NaN?
    ensures r.Infinite? ==> a.Infinite? || b.Infinite?
  {
    match (a, b)
    case (Finite(x), Finite(y)) => Finite(x + y)
    case (NaN, _) => NaN
    case (_, NaN) => NaN
    case (Infinite(p), Infinite(q)) => if p == q then a else NaN
    case (Infinite(_), Finite(_)) => a
    case (Finite(_), Infinite(_)) => b
  }

  function DigitChar(d: nat): (c: char)
    requires d < 10
    ensures IsAsciiDigit(c)
  {
    ('0' as int + d) as char
  }

  function DigitValue(c: char): (d: nat)
    requires IsAsciiDigit(c)
    ensures d < 10 && DigitChar(d) == c
  {
    c as int - '0' as int
  }

  predicate AllDigits(s: string)
  {
    forall k :: 0 <= k < |s| ==> IsAsciiDigit(s[k])
  }

  /** The decimal digits of `n`, most significant first, with no leading zero. */
  function NatDigits(n: nat): (s: string)
    ensures 1 <= |s| && AllDigits(s)
    ensures |s| > 1 ==> s[0] != '0'
    decreases n
  {
    if n < 10 then [DigitChar(n)] else NatDigits(n / 10) + [DigitChar(n % 10)]
  }

  /** The value of a string of decimal digits, read most significant first. */
  function DigitsValue(s: string): nat
    requires AllDigits(s)
    decreases |s|
  {
    if s == [] then 0 else DigitsValue(s[..|s| - 1]) * 10 + DigitValue(s[|s| - 1])
  }

  /** Reading the digits of `n` gives back `n`. */
  lemma {:induction false} DigitsValueOfNatDigits(n: nat)
    ensures DigitsValue(NatDigits(n)) == n
    decreases n
  {
    if n >= 10 {
      DigitsValueOfNatDigits(n / 10);
      var s := NatDigits(n);
      assert s[..|s| - 1] == NatDigits(n / 10);
    } else {
      assert NatDigits(n)[..0] == [];
    }
  }

  function Pow10(k: nat): (p: nat)
    ensures p >= 1
  {
    if k == 0 then 1 else 10 * Pow10(k - 1)
  }

  /** The two-decimal text of the amount `n` hundredths: its units, a point, two digits. */
  function HundredthsText(n: nat): (s: string)
    ensures |s| >= 4 && AllDigits(s[..|s| - 3]) && s[|s| - 3] == '.' && AllDigits(s[|s| - 2..])
  {
    var units := NatDigits(n / 100);
    assert (units + ".")[..|units|] == units;
    var cents := n % 100;
    units + "." + [DigitChar(cents / 10), DigitChar(cents % 10)]
  }

  /** The number of hundredths `toFixed(2)` writes for |x|. */
  function Hundredths(x: real): (n: nat)
    requires x >= 0.0
    ensures x * 100.0 - 0.5 < n as real <= x * 100.0 + 0.5
  {
    (x * 100.0 + 0.5).Floor
  }

  function Abs(x: real): (r: real)
    ensures r >= 0.0 && (r == x || r == -x)
  {
    if x < 0.0 then -x else x
  }

  /** The text of `n` hundredths with two decimals, "-" in front when `negative`. */
  function Fixed2Text(n: nat, negative: bool): string
  {
    if negative then "-" + HundredthsText(n) else HundredthsText(n)
  }

  /** The value of `n` hundredths, negated when `negative`. */
  function Fixed2Value(n: nat, negative: bool): real
  {
    if negative then -(n as real / 100.0) else n as real / 100.0
  }

  /**
   * `x.toFixed(2)`: "-" for a negative amount, then the nearest number of hundredths of
   * |x| (a tie going up), written with two decimals.
   */
  function ToFixed2(x: real): (s: string)
    ensures s != [] && (s[0] == '-' || IsAsciiDigit(s[0]))
    ensures forall k :: 0 <= k < |s| ==> IsAsciiDigit(s[k]) || s[k] == '.' || s[k] == '-'
  {
    Fixed2Text(Hundredths(Abs(x)), x < 0.0)
  }

  /**
   * The value of `parseFloat(x.toFixed(2))`: the nearest multiple of 0.01, a tie going
   * away from zero.
   */
  function Round2(x: real): (r: real)
    ensures x - 0.005 <= r <= x + 0.005
    ensures x >= 0.0 ==> r >= 0.0
    ensures x <= 0.0 ==> r <= 0.0
  {
    Fixed2Value(Hundredths(Abs(x)), x < 0.0)
  }

  /** The value of a run of fraction digits: `d1 d2 ... dk` is d1/10 + d2/100 + ... */
  function FractionValue(digits: string): real
    requires AllDigits(digits)
  {
    DigitsValue(digits) as real / Pow10(|digits|) as real
  }

  /** The exponent part (`e` or `E`, an optional sign, digits) at index `m` of `u`, if there is one. */
  function ExponentAt(u: string, m: nat): Option<int>
    requires m <= |u|
  {
    if m < |u| && (u[m] == 'e' || u[m] == 'E') then
      var signed := m + 1 < |u| && (u[m + 1] == '+' || u[m + 1] == '-');
      var start := if signed then m + 2 else m + 1;
      var e := DigitRun(u, start);
      if e == 0 then None
      else
        var k := DigitsValue(u[start..start + e]);
        Some(if signed && u[m + 1] == '-' then -(k as int) else k as int)
    else None
  }

  /** `mantissa` times ten to the power `e`. */
  function Scale(mantissa: real, e: int): real
  {
    if e >= 0 then mantissa * Pow10(e) as real else mantissa / Pow10(-e) as real
  }

  /** The parts of a decimal literal: whole digits, fraction digits, and the exponent if one is written. */
  datatype DecimalLiteral = DecimalLiteral(whole: string, fraction: string, exponent: Option<int>)

  /**
   * The longest prefix of `u` that is an unsigned decimal literal (digits, an optional
   * point and fraction, an optional exponent), taken apart; `None` when no prefix is one.
   */
  function DecimalPrefix(u: string): (r: Option<DecimalLiteral>)
    ensures r.Some? ==> AllDigits(r.value.whole) && AllDigits(r.value.fraction)
  {
    var i := DigitRun(u, 0);
    var point := i < |u| && u[i] == '.';
    var f := if point then DigitRun(u, i + 1) else 0;
    if i == 0 && f == 0 then None
    else
      var fraction := if point then u[i + 1..i + 1 + f] else [];
      var m := if point then i + 1 + f else i;
      Some(DecimalLiteral(u[..i], fraction, ExponentAt(u, m)))
  }

  /** The value a decimal literal denotes. */
  function LiteralValue(l: DecimalLiteral): real
    requires AllDigits(l.whole) && AllDigits(l.fraction)
  {
    var mantissa := DigitsValue(l.whole) as real + FractionValue(l.fraction);
    match l.exponent
    case None => mantissa
    case Some(e) => Scale(mantissa, e)
  }

  /** The value of the longest prefix of `u` that is an unsigned decimal literal, if any. */
  function UnsignedDecimalPrefix(u: string): Option<real>
  {
    match DecimalPrefix(u)
    case None => None
    case Some(l) => Some(LiteralValue(l))
  }

  /** The text starts with "Infinity". */
  predicate StartsWithInfinity(u: string)
  {
    |u| >= 8 && u[..8] == "Infinity"
  }

  /** What `parseFloat` reads after the sign: "Infinity", or the longest decimal literal, or nothing. */
  function ParseUnsigned(u: string, negative: bool): JsNumber
  {
    if StartsWithInfinity(u) then Infinite(negative)
    else match UnsignedDecimalPrefix(u)
      case Some(v) => Finite(if negative then -v else v)
      case None => NaN
  }

  /**
   * `parseFloat(s)`: leading white space skipped, an optional sign, then "Infinity" or
   * the longest decimal literal; NaN when there is neither.
   */
  function ParseFloat(s: string): JsNumber
  {
    var t := TrimStart(s);
    if |t| > 0 && t[0] == '-' then ParseUnsigned(t[1..], true)
    else if |t| > 0 && t[0] == '+' then ParseUnsigned(t[1..], false)
    else ParseUnsigned(t, false)
  }

  /** `DigitRun` counts exactly a block of digits that ends the string or is followed by a non-digit. */
  lemma DigitRunIs(s: string, i: nat, k: nat)
    requires i + k <= |s|
    requires forall j :: i <= j < i + k ==> IsAsciiDigit(s[j])
    requires i + k == |s| || !IsAsciiDigit(s[i + k])
    ensures DigitRun(s, i) == k
  {
  }

  lemma TwoDigitsValue(c: nat)
    requires c < 100
    ensures DigitsValue([DigitChar(c / 10), DigitChar(c % 10)]) == c
  {
    var s := [DigitChar(c / 10), DigitChar(c % 10)];
    assert s[..1][..0] == [];
    assert DigitsValue(s[..1]) == c / 10;
  }

  /** The layout of a text made of digits, a point and digits. */
  predicate PointLayout(u: string, i: nat)
  {
    0 < i < |u| && u[i] == '.' && DigitRun(u, 0) == i && DigitRun(u, i + 1) == |u| - i - 1
  }

  lemma PointLiteralWhole(u: string, i: nat)
    requires PointLayout(u, i)
    ensures DecimalPrefix(u).Some? && DecimalPrefix(u).value.whole == u[..i]
  {
  }

  lemma PointLiteralFraction(u: string, i: nat)
    requires PointLayout(u, i)
    ensures DecimalPrefix(u).Some? && DecimalPrefix(u).value.fraction == u[i + 1..]
  {
    assert u[i + 1..i + 1 + (|u| - i - 1)] == u[i + 1..];
  }

  lemma PointLiteralExponent(u: string, i: nat)
    requires PointLayout(u, i)
    ensures DecimalPrefix(u).Some? && DecimalPrefix(u).value.exponent == None
  {
  }

  /** Text made of digits, a point and digits is a literal with that whole part and that fraction. */
  lemma PointLiteral(u: string, i: nat)
    requires PointLayout(u, i)
    ensures DecimalPrefix(u) == Some(DecimalLiteral(u[..i], u[i + 1..], None))
  {
    PointLiteralWhole(u, i);
    PointLiteralFraction(u, i);
    PointLiteralExponent(u, i);
  }

  /** The two-decimal text of `n` hundredths reads back as `n / 100`. */
  lemma {:induction false} ParseHundredthsText(n: nat)
    ensures IsAsciiDigit(HundredthsText(n)[0])
    ensures UnsignedDecimalPrefix(HundredthsText(n)) == Some(n as real / 100.0)
  {
    var units := NatDigits(n / 100);
    var cents := n % 100;
    var tail := [DigitChar(cents / 10), DigitChar(cents % 10)];
    var u := HundredthsText(n);
    var i := |units|;
    assert u == units + "." + tail;
    DigitRunIs(u, 0, i);
    DigitRunIs(u, i + 1, 2);
    PointLiteral(u, i);
    assert u[..i] == units && u[i + 1..] == tail;
    var l := DecimalLiteral(units, tail, None);
    assert UnsignedDecimalPrefix(u) == Some(LiteralValue(l));
    DigitsValueOfNatDigits(n / 100);
    TwoDigitsValue(cents);
    assert Pow10(2) == 100;
    assert FractionValue(tail) == cents as real / 100.0;
    assert (n / 100) as real + cents as real / 100.0 == n as real / 100.0;
  }

  lemma DigitTextIsNotInfinity(u: string)
    requires u != [] && IsAsciiDigit(u[0])
    ensures !StartsWithInfinity(u)
  {
    if |u| >= 8 {
      assert u[..8][0] == u[0];
    }
  }

  /** Text starting with a digit parses as its leading decimal literal; a "-" in front negates it. */
  lemma ParseFloatOfDigitText(u: string, v: real)
    requires u != [] && IsAsciiDigit(u[0]) && UnsignedDecimalPrefix(u) == Some(v)
    ensures ParseFloat(u) == Finite(v)
    ensures ParseFloat("-" + u) == Finite(-v)
  {
    DigitTextIsNotInfinity(u);
    assert ParseUnsigned(u, false) == Finite(v);
    assert ParseUnsigned(u, true) == Finite(-v);
    TrimStartUnchanged(u);
    var t := "-" + u;
    assert t[0] == '-' && t[1..] == u;
    TrimStartUnchanged(t);
  }

  /** Text starting with a digit, with or without a "-" in front, parses as its leading literal, signed. */
  lemma ParseSignedDigitText(u: string, v: real, negative: bool)
    requires u != [] && IsAsciiDigit(u[0]) && UnsignedDecimalPrefix(u) == Some(v)
    ensures ParseFloat(if negative then "-" + u else u) == Finite(if negative then -v else v)
  {
    ParseFloatOfDigitText(u, v);
  }

  /** The two-decimal text of `n` hundredths, with or without a "-" in front, parses back as its value. */
  lemma ParseFixed2Text(n: nat, negative: bool)
    ensures ParseFloat(Fixed2Text(n, negative)) == Finite(Fixed2Value(n, negative))
  {
    ParseHundredthsText(n);
    ParseSignedDigitText(HundredthsText(n), n as real / 100.0, negative);
  }

  /** Reading back what `toFixed(2)` writes gives the amount rounded to hundredths. */
  lemma ParseFixedRoundTrip(x: real)
    ensures ParseFloat(ToFixed2(x)) == Finite(Round2(x))
  {
    ParseFixed2Text(Hundredths(Abs(x)), x < 0.0);
  }
}
