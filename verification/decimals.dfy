/**
 * Exact decimal arithmetic standing in for java.math.BigDecimal, and the "#0.00"
 * rendering of java.text.DecimalFormat used for money.
 *
 * A parsed numeral is kept as BigDecimal keeps it: an unscaled integer and a scale,
 * with value unscaled / 10^scale. Comparison is by value, never by scale. Once an
 * amount is validated the rest of the model works in whole cents (an unbounded int).
 */
module Decimals {
  import opened Wrappers

  /** value = unscaled / 10^scale */
  datatype Decimal = Decimal(unscaled: int, scale: nat)

  const Zero := Decimal(0, 0)

  function Pow10(n: nat): (p: nat)
    ensures p >= 1
  {
    if n == 0 then 1 else 10 * Pow10(n - 1)
  }

  lemma {:induction false} Pow10Add(m: nat, n: nat)
    ensures Pow10(m + n) == Pow10(m) * Pow10(n)
  {
    if n > 0 {
      Pow10Add(m, n - 1);
      assert Pow10(m + n) == 10 * Pow10(m + n - 1);
    }
  }

  /** Multiplying both sides by a positive factor keeps their order. */
  lemma ScaleOrder(x: int, y: int, p: int)
    requires p > 0
    ensures x < y <==> x * p < y * p
    ensures x == y <==> x * p == y * p
  {
    if x < y {
      assert y * p - x * p == (y - x) * p;
    } else if y < x {
      assert x * p - y * p == (x - y) * p;
    }
  }

  /**
   * Integer division rounding toward zero, which is how BigDecimal.toBigInteger
   * discards a fraction (unlike Dafny's Euclidean '/').
   */
  function TruncDiv(a: int, b: int): (q: int)
    requires b > 0
    ensures a >= 0 ==> 0 <= a - q * b < b
    ensures a < 0 ==> -b < a - q * b <= 0
  {
    if a >= 0 then a / b else -((-a) / b)
  }

  /** TruncDiv is exact precisely when b divides a (in the Euclidean sense of '%'). */
  lemma TruncDivExact(a: int, b: int)
    requires b > 0
    ensures TruncDiv(a, b) * b == a <==> a % b == 0
  {
    var t := TruncDiv(a, b);
    if t * b == a {
      MulDiv(t, b);
    }
    if a % b == 0 {
      var k := a / b;
      assert a == k * b;
      MulDiv(k, b);
      MulDiv(-k, b);
      assert -a == (-k) * b;
    }
  }

  lemma MulDiv(k: int, b: int)
    requires b > 0
    ensures (k * b) / b == k && (k * b) % b == 0
  {
    var q := (k * b) / b;
    var r := (k * b) % b;
    assert k * b == q * b + r;
    assert (k - q) * b == r;
    if k - q >= 1 {
      MulAtLeast(k - q, b);
    } else if k - q <= -1 {
      MulAtLeast(q - k, b);
    }
  }

  lemma MulAtLeast(m: int, b: int)
    requires m >= 1 && b > 0
    ensures m * b >= b
  {
  }

  /** BigDecimal.compareTo: -1, 0 or 1 as the VALUE of a is below, equal to or above that of b. */
  function CompareTo(a: Decimal, b: Decimal): (r: int)
    ensures r == -1 || r == 0 || r == 1
  {
    var x := a.unscaled * Pow10(b.scale);
    var y := b.unscaled * Pow10(a.scale);
    if x < y then -1 else if x == y then 0 else 1
  }

  /** The same value written with k more fraction digits ("1.00" for "1"). */
  function Rescale(d: Decimal, k: nat): (e: Decimal)
    ensures e.scale == d.scale + k
  {
    Decimal(d.unscaled * Pow10(k), d.scale + k)
  }

  /** compareTo looks at values only: adding trailing zeros to either side changes nothing. */
  lemma CompareToIgnoresScale(a: Decimal, b: Decimal, k: nat)
    ensures CompareTo(Rescale(a, k), b) == CompareTo(a, b)
    ensures CompareTo(b, Rescale(a, k)) == CompareTo(b, a)
  {
    var p := Pow10(k);
    var x := a.unscaled * Pow10(b.scale);
    var y := b.unscaled * Pow10(a.scale);
    calc {
      Rescale(a, k).unscaled * Pow10(b.scale);
      (a.unscaled * p) * Pow10(b.scale);
      { MulCommutesOut(a.unscaled, p, Pow10(b.scale)); }
      x * p;
    }
    calc {
      b.unscaled * Pow10(a.scale + k);
      { Pow10Add(a.scale, k); }
      b.unscaled * (Pow10(a.scale) * p);
      { MulAssociates(b.unscaled, Pow10(a.scale), p); }
      y * p;
    }
    ScaleOrder(x, y, p);
    ScaleOrder(y, x, p);
  }

  lemma MulCommutesOut(u: int, p: int, q: int)
    ensures (u * p) * q == (u * q) * p
  {
  }

  lemma MulAssociates(u: int, p: int, q: int)
    ensures u * (p * q) == (u * p) * q
  {
  }

  /** BigDecimal.multiply(BigDecimal.valueOf(100)): the unscaled value times 100, same scale. */
  function Times100(d: Decimal): Decimal
  {
    Decimal(d.unscaled * 100, d.scale)
  }

  /** The number a decimal stands for. */
  ghost function Value(d: Decimal): real
  {
    d.unscaled as real / Pow10(d.scale) as real
  }

  /** x / p against y / q, for positive p and q, is x * q against y * p. */
  lemma CrossMultiply(x: int, p: int, y: int, q: int)
    requires p > 0 && q > 0
    ensures x as real / p as real < y as real / q as real <==> x * q < y * p
    ensures x as real / p as real == y as real / q as real <==> x * q == y * p
  {
    var a := x as real / p as real;
    var b := y as real / q as real;
    var pq := (p * q) as real;
    assert a * pq == (x * q) as real;
    assert b * pq == (y * p) as real;
    assert a < b <==> a * pq < b * pq;
    assert a == b <==> a * pq == b * pq;
  }

  /** compareTo orders by value: its sign is the sign of the difference of the two numbers. */
  lemma CompareToMeansValueOrder(a: Decimal, b: Decimal)
    ensures CompareTo(a, b) < 0 <==> Value(a) < Value(b)
    ensures CompareTo(a, b) == 0 <==> Value(a) == Value(b)
    ensures CompareTo(a, b) > 0 <==> Value(a) > Value(b)
  {
    CrossMultiply(a.unscaled, Pow10(a.scale), b.unscaled, Pow10(b.scale));
  }

  /** multiply(100) is worth a hundred times the value it multiplies. */
  lemma Times100Value(d: Decimal)
    ensures Value(Times100(d)) == 100.0 * Value(d)
  {
    var p := Pow10(d.scale) as real;
    assert (d.unscaled * 100) as real == 100.0 * d.unscaled as real;
    assert (100.0 * d.unscaled as real) / p == 100.0 * (d.unscaled as real / p);
  }

  /** BigDecimal.toBigInteger: the integer part, the fraction discarded toward zero. */
  function ToBigInteger(d: Decimal): (n: int)
    ensures d.unscaled >= 0 ==> 0 <= d.unscaled - n * Pow10(d.scale) < Pow10(d.scale)
    ensures d.unscaled < 0 ==> -(Pow10(d.scale) as int) < d.unscaled - n * Pow10(d.scale) <= 0
  {
    TruncDiv(d.unscaled, Pow10(d.scale))
  }

  /** new BigDecimal(n.toString()) for an integer n. */
  function FromInteger(n: int): Decimal
  {
    Decimal(n, 0)
  }

  /** A balance of whole cents as a decimal value (cents / 100). */
  function FromCents(cents: int): Decimal
  {
    Decimal(cents, 2)
  }

  // ---------------------------------------------------------------------------
  // Digits

  predicate IsDigit(c: char)
  {
    '0' <= c <= '9'
  }

  predicate AllDigits(s: string)
  {
    forall i | 0 <= i < |s| :: IsDigit(s[i])
  }

  function DigitValue(c: char): (d: nat)
    requires IsDigit(c)
    ensures d < 10
  {
    (c as int) - ('0' as int)
  }

  function DigitChar(d: nat): (c: char)
    requires d < 10
    ensures IsDigit(c) && DigitValue(c) == d
  {
    ('0' as int + d) as char
  }

  /** The number a string of decimal digits denotes, most significant digit first. */
  function DigitsValue(s: string): nat
    requires AllDigits(s)
  {
    if s == [] then 0 else DigitsValue(s[..|s| - 1]) * 10 + DigitValue(s[|s| - 1])
  }

  /** The shortest decimal digit string of n: no leading zero unless n is 0. */
  function NatToDigits(n: nat): string
  {
    if n < 10 then [DigitChar(n)] else NatToDigits(n / 10) + [DigitChar(n % 10)]
  }

  /** The digits of n denote n, and only 0 is written with a leading zero. */
  lemma {:induction false} NatToDigitsValue(n: nat)
    ensures var s := NatToDigits(n);
      && |s| >= 1 && AllDigits(s)
      && DigitsValue(s) == n
      && (s[0] == '0' ==> s == "0")
  {
    if n >= 10 {
      var front := NatToDigits(n / 10);
      NatToDigitsValue(n / 10);
      var s := NatToDigits(n);
      assert s[..|s| - 1] == front;
      assert s[0] == front[0];
    }
  }

  lemma {:induction false} DigitsValueAppend(a: string, b: string)
    requires AllDigits(a) && AllDigits(b)
    ensures AllDigits(a + b)
    ensures DigitsValue(a + b) == DigitsValue(a) * Pow10(|b|) + DigitsValue(b)
    decreases |b|
  {
    if b == [] {
      assert a + b == a;
    } else {
      var front := b[..|b| - 1];
      var ab := a + b;
      assert ab[..|ab| - 1] == a + front;
      assert ab[|ab| - 1] == b[|b| - 1];
      DigitsValueAppend(a, front);
      var d := DigitValue(b[|b| - 1]);
      assert DigitsValue(ab) == DigitsValue(a + front) * 10 + d;
      assert DigitsValue(b) == DigitsValue(front) * 10 + d;
      assert Pow10(|b|) == Pow10(|front|) * 10;
      ShiftDigit(DigitsValue(a), Pow10(|front|), DigitsValue(front), d);
    }
  }

  /** Digits a followed by digits worth b over p: (a * p + b) / p == a + b / p. */
  lemma ShiftedValue(a: int, b: int, p: int)
    requires p > 0
    ensures (a * p + b) as real / p as real == a as real + b as real / p as real
  {
    var q := p as real;
    assert (a * p + b) as real == a as real * q + b as real;
    assert (a as real * q + b as real) / q == a as real * q / q + b as real / q;
  }

  /** One more digit on the right: (x * p + y) * 10 + d == x * (p * 10) + (y * 10 + d). */
  lemma ShiftDigit(x: int, p: int, y: int, d: int)
    ensures (x * p + y) * 10 + d == x * (p * 10) + (y * 10 + d)
  {
  }

  // ---------------------------------------------------------------------------
  // Parsing (the plain-numeral part of the grammar of new BigDecimal(String))

  /** The index of the first c in s, or -1. */
  function IndexOf(s: string, c: char): (i: int)
    ensures -1 <= i < |s|
    ensures i == -1 <==> c !in s
    ensures 0 <= i ==> s[i] == c
    ensures forall j | 0 <= j < i :: s[j] != c
  {
    if s == [] then -1
    else if s[0] == c then 0
    else
      var j := IndexOf(s[1..], c);
      assert s == [s[0]] + s[1..];
      if j == -1 then -1 else j + 1
  }

  /** The text after an optional leading sign. */
  function UnsignedPart(text: string): (body: string)
    ensures |body| <= |text|
  {
    if |text| > 0 && (text[0] == '+' || text[0] == '-') then text[1..] else text
  }

  /**
   * body reads as digits body[..k], then, when k < |body|, a '.' followed by zero or
   * more digits; at least one digit in all ("5." and ".5" are numerals, "." is not).
   */
  ghost predicate SplitsAsNumeral(body: string, k: int)
  {
    && 0 <= k <= |body|
    && AllDigits(body[..k])
    && (k == |body| || (body[k] == '.' && AllDigits(body[k + 1..])))
    && (k > 0 || k + 1 < |body|)
  }

  /** A plain decimal numeral: optional sign, digits, then optionally '.' and zero or more digits. */
  ghost predicate IsNumeral(text: string)
  {
    exists k :: SplitsAsNumeral(UnsignedPart(text), k)
  }

  /** Where the integer digits of body end: at its first '.', or at its end. */
  function PointPosition(body: string): (k: nat)
    ensures k <= |body|
    ensures k < |body| ==> body[k] == '.'
    ensures forall j | 0 <= j < k :: body[j] != '.'
  {
    var point := IndexOf(body, '.');
    if point < 0 then |body| else point
  }

  /** The fraction digits of a numeral body split at k: what follows the '.', if any. */
  function FractionPart(body: string, k: nat): string
    requires k <= |body|
  {
    if k < |body| then body[k + 1..] else []
  }

  /**
   * new BigDecimal(text) for a plain numeral: sign, integer digits and fraction digits.
   * The scale is the number of fraction digits, so "1.000" has scale 3.
   */
  function ParseDecimal(text: string): (r: Option<Decimal>)
  {
    match ParseUnsigned(UnsignedPart(text))
    case None => None
    case Some(d) =>
      if |text| > 0 && text[0] == '-' then Some(Decimal(-d.unscaled, d.scale)) else Some(d)
  }

  /** The numeral after its sign: digits, then optionally '.' and zero or more digits. */
  function ParseUnsigned(body: string): (r: Option<Decimal>)
    ensures r.Some? ==> r.value.unscaled >= 0
  {
    var k := PointPosition(body);
    var intPart := body[..k];
    var fracPart := FractionPart(body, k);
    if AllDigits(intPart) && AllDigits(fracPart) && |intPart| + |fracPart| > 0 then
      DigitsValueAppend(intPart, fracPart);
      Some(Decimal(DigitsValue(intPart + fracPart), |fracPart|))
    else
      None
  }

  /** Any way of reading body as a numeral splits it at its first '.'. */
  lemma NumeralSplitsAtPoint(body: string, k: int)
    requires SplitsAsNumeral(body, k)
    ensures k == PointPosition(body)
  {
    forall i | 0 <= i < k ensures body[i] != '.' {
      assert IsDigit(body[..k][i]);
    }
  }

  /** ParseDecimal accepts exactly the plain numerals. */
  lemma ParseDecimalAcceptsNumerals(text: string)
    ensures ParseDecimal(text).Some? <==> IsNumeral(text)
  {
    var body := UnsignedPart(text);
    var k := PointPosition(body);
    if ParseUnsigned(body).Some? {
      assert SplitsAsNumeral(body, k);
    }
    forall j | SplitsAsNumeral(body, j) ensures j == k {
      NumeralSplitsAtPoint(body, j);
    }
  }

  /** A leading '+' changes nothing, a leading '-' negates the unscaled value and keeps the scale. */
  lemma SignedParse(body: string)
    ensures ParseDecimal("+" + body) == ParseUnsigned(body)
    ensures ParseUnsigned(body).None? ==> ParseDecimal("-" + body).None?
    ensures ParseUnsigned(body).Some? ==>
      ParseDecimal("-" + body) == Some(Decimal(-ParseUnsigned(body).value.unscaled, ParseUnsigned(body).value.scale))
  {
    assert UnsignedPart("+" + body) == body by {
      assert ("+" + body)[1..] == body;
    }
    assert UnsignedPart("-" + body) == body by {
      assert ("-" + body)[1..] == body;
    }
  }

  /** Without a sign, the whole text is the unsigned numeral. */
  lemma UnsignedParse(text: string)
    requires |text| == 0 || (text[0] != '+' && text[0] != '-')
    ensures ParseDecimal(text) == ParseUnsigned(text)
  {
  }

  /** The number digits, a '.' and fraction digits denote: whole + fraction / 10^|fraction|. */
  ghost function NumeralValue(whole: string, frac: string): real
    requires AllDigits(whole) && AllDigits(frac)
  {
    DigitsValue(whole) as real + DigitsValue(frac) as real / Pow10(|frac|) as real
  }

  /**
   * The value of every unsigned numeral, including one with an empty integer part (".5")
   * or an empty fraction ("5."): the scale is the number of fraction digits.
   */
  lemma ParseUnsignedValue(body: string, k: nat)
    requires SplitsAsNumeral(body, k)
    ensures ParseUnsigned(body).Some?
    ensures ParseUnsigned(body).value.scale == |FractionPart(body, k)|
    ensures Value(ParseUnsigned(body).value) == NumeralValue(body[..k], FractionPart(body, k))
  {
    NumeralSplitsAtPoint(body, k);
    var frac := FractionPart(body, k);
    DigitsValueAppend(body[..k], frac);
    ShiftedValue(DigitsValue(body[..k]), DigitsValue(frac), Pow10(|frac|));
  }

  /** Negating the unscaled value negates the number. */
  lemma NegatedValue(d: Decimal)
    ensures Value(Decimal(-d.unscaled, d.scale)) == -Value(d)
  {
  }

  /**
   * The value of every numeral: a '-' negates the value of the unsigned part, a '+'
   * or no sign keeps it.
   */
  lemma ParseDecimalValue(text: string, k: nat)
    requires SplitsAsNumeral(UnsignedPart(text), k)
    ensures ParseDecimal(text).Some?
    ensures ParseDecimal(text).value.scale == |FractionPart(UnsignedPart(text), k)|
    ensures var v := NumeralValue(UnsignedPart(text)[..k], FractionPart(UnsignedPart(text), k));
      Value(ParseDecimal(text).value) == if |text| > 0 && text[0] == '-' then -v else v
  {
    ParseUnsignedValue(UnsignedPart(text), k);
    NegatedValue(ParseUnsigned(UnsignedPart(text)).value);
  }

  // ---------------------------------------------------------------------------
  // Rendering with the pattern "#0.00"

  /**
   * The shape DecimalFormat("#0.00") produces: an optional '-', at least one integer
   * digit without leading zeros or grouping, a '.', exactly two fraction digits.
   */
  ghost predicate IsHashZeroPointZeroZero(s: string)
  {
    var body := if |s| > 0 && s[0] == '-' then s[1..] else s;
    && |body| >= 4
    && body[|body| - 3] == '.'
    && AllDigits(body[..|body| - 3])
    && AllDigits(body[|body| - 2..])
    && (body[0] == '0' ==> |body| == 4)
  }

  /** DecimalFormat("#0.00").format of an amount of whole cents: exact, no rounding needed. */
  function FormatCents(cents: int): string
  {
    var m := if cents < 0 then -cents else cents;
    var body := NatToDigits(m / 100) + "." + [DigitChar(m % 100 / 10), DigitChar(m % 10)];
    if cents < 0 then "-" + body else body
  }

  /** The unsigned rendering of m cents: whole digits, a '.', two digits, no leading zero. */
  lemma CentsBodyShape(m: nat)
    ensures var body := NatToDigits(m / 100) + "." + [DigitChar(m % 100 / 10), DigitChar(m % 10)];
      IsHashZeroPointZeroZero(body) && body[0] != '-'
  {
    var whole := NatToDigits(m / 100);
    NatToDigitsValue(m / 100);
    var body := whole + "." + [DigitChar(m % 100 / 10), DigitChar(m % 10)];
    assert body[..|body| - 3] == whole;
    assert body[|body| - 2..] == [DigitChar(m % 100 / 10), DigitChar(m % 10)];
    assert body[0] == whole[0];
  }

  /** A '-' in front of an unsigned "#0.00" rendering keeps the shape. */
  lemma NegatedShape(body: string)
    requires IsHashZeroPointZeroZero(body) && body[0] != '-'
    ensures IsHashZeroPointZeroZero("-" + body)
  {
    assert ("-" + body)[1..] == body;
  }

  /** The rendering has the "#0.00" shape, with a leading '-' exactly for a negative amount. */
  lemma FormatCentsShape(cents: int)
    ensures IsHashZeroPointZeroZero(FormatCents(cents))
    ensures cents >= 0 <==> (|FormatCents(cents)| > 0 && FormatCents(cents)[0] != '-')
  {
    var m := if cents < 0 then -cents else cents;
    var body := NatToDigits(m / 100) + "." + [DigitChar(m % 100 / 10), DigitChar(m % 10)];
    CentsBodyShape(m);
    if cents < 0 {
      NegatedShape(body);
    }
  }

  /** A negative amount renders as '-' followed by the rendering of its magnitude. */
  lemma FormatCentsNegated(cents: int)
    requires cents > 0
    ensures FormatCents(-cents) == "-" + FormatCents(cents)
  {
  }

  /** After its sign, the rendering is the whole part, a '.', and the two cent digits. */
  lemma FormatCentsSplits(cents: int)
    ensures var m := if cents < 0 then -cents else cents;
      UnsignedPart(FormatCents(cents))
        == NatToDigits(m / 100) + "." + [DigitChar(m % 100 / 10), DigitChar(m % 10)]
    ensures |FormatCents(cents)| > 0 && FormatCents(cents)[0] == '-' <==> cents < 0
  {
    var m := if cents < 0 then -cents else cents;
    var whole := NatToDigits(m / 100);
    NatToDigitsValue(m / 100);
    var body := whole + "." + [DigitChar(m % 100 / 10), DigitChar(m % 10)];
    assert body[0] == whole[0];
    if cents < 0 {
      assert ("-" + body)[1..] == body;
    }
  }

  /** The whole-part digits of m cents followed by its two cent digits denote m. */
  lemma CentsDigitsValue(m: nat)
    ensures var digits := NatToDigits(m / 100) + [DigitChar(m % 100 / 10), DigitChar(m % 10)];
      AllDigits(digits) && DigitsValue(digits) == m
  {
    var whole := NatToDigits(m / 100);
    NatToDigitsValue(m / 100);
    var frac := [DigitChar(m % 100 / 10), DigitChar(m % 10)];
    DigitsValueAppend(whole, frac);
    TwoDigits(m);
    assert Pow10(|frac|) == 100;
  }

  /** The unsigned rendering of m cents reads back as m hundredths. */
  lemma CentsBodyValue(m: nat)
    ensures ParseUnsigned(NatToDigits(m / 100) + "." + [DigitChar(m % 100 / 10), DigitChar(m % 10)])
      == Some(Decimal(m, 2))
  {
    var whole := NatToDigits(m / 100);
    NatToDigitsValue(m / 100);
    var frac := [DigitChar(m % 100 / 10), DigitChar(m % 10)];
    ParsePointed(whole, frac);
    CentsDigitsValue(m);
  }

  /** Rendering is exact: reading the rendered text back gives the same value. */
  lemma FormatCentsRoundTrip(cents: int)
    ensures ParseDecimal(FormatCents(cents)) == Some(Decimal(cents, 2))
  {
    var m := if cents < 0 then -cents else cents;
    FormatCentsSplits(cents);
    CentsBodyValue(m);
  }

  /** Reading back digits, a '.', and digits. */
  lemma ParsePointed(whole: string, frac: string)
    requires |whole| >= 1 && AllDigits(whole) && AllDigits(frac)
    ensures AllDigits(whole + frac)
    ensures ParseUnsigned(whole + "." + frac) == Some(Decimal(DigitsValue(whole + frac), |frac|))
  {
    var body := whole + "." + frac;
    assert PointPosition(body) == |whole| by {
      assert body[|whole|] == '.';
      forall j | 0 <= j < |whole| ensures body[j] != '.' {
        assert body[j] == whole[j];
      }
    }
    assert body[..|whole|] == whole;
    assert body[|whole| + 1..] == frac;
    DigitsValueAppend(whole, frac);
  }

  lemma TwoDigits(m: nat)
    ensures DigitsValue([DigitChar(m % 100 / 10), DigitChar(m % 10)]) == m % 100
  {
    var frac := [DigitChar(m % 100 / 10), DigitChar(m % 10)];
    assert frac[..1] == [frac[0]];
    assert [frac[0]][..0] == [];
    assert DigitsValue([frac[0]]) == m % 100 / 10;
    assert DigitValue(frac[1]) == m % 10;
    assert DigitsValue(frac) == DigitsValue([frac[0]]) * 10 + DigitValue(frac[1]);
    assert m % 100 == (m % 100 / 10) * 10 + (m % 100) % 10;
    assert (m % 100) % 10 == m % 10 by {
      var r := m % 10;
      assert m % 100 == (m / 10 - 10 * (m / 100)) * 10 + r;
      DivModUnique(m % 100, 10, m / 10 - 10 * (m / 100), r);
    }
  }

  lemma DivModUnique(x: int, b: int, q: int, r: int)
    requires b > 0 && 0 <= r < b && x == q * b + r
    ensures x / b == q && x % b == r
  {
    var q' := x / b;
    var r' := x % b;
    assert (q - q') * b == r' - r;
    if q - q' >= 1 {
      MulAtLeast(q - q', b);
    } else if q - q' <= -1 {
      MulAtLeast(q' - q, b);
    }
  }
}
