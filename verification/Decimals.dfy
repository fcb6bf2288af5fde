/**
 * Decimal strings and ERC-20 integers (pkg/token/erc20.go). The conversions go
 * through the shopspring/decimal library, whose printing and parsing are written
 * out here: a decimal is a coefficient times a power of ten.
 */
module Decimals {
  import opened Arith
  import opened Wrappers

  const MIN_INT32: int := -0x8000_0000
  const MAX_INT32: int := 0x7FFF_FFFF

  // ----- digit strings

  predicate IsDigit(c: char) {
    '0' <= c <= '9'
  }

  predicate AllDigits(s: string) {
    forall i :: 0 <= i < |s| ==> IsDigit(s[i])
  }

  function DigitValue(c: char): (d: nat)
    requires IsDigit(c)
  {
    c as int - '0' as int
  }

  function DigitChar(d: nat): (c: char)
    requires d < 10
    ensures IsDigit(c) && DigitValue(c) == d
  {
    (d + '0' as int) as char
  }

  /** big.Int's decimal rendering of a natural number. */
  function PrintNat(n: nat): (s: string)
    ensures AllDigits(s) && |s| >= 1
  {
    if n < 10 then [DigitChar(n)] else PrintNat(n / 10) + [DigitChar(n % 10)]
  }

  function DigitsValue(s: string): (n: nat)
    requires AllDigits(s)
  {
    if |s| == 0 then 0 else DigitsValue(s[..|s| - 1]) * 10 + DigitValue(s[|s| - 1])
  }

  lemma {:induction false} PrintNatValue(n: nat)
    ensures DigitsValue(PrintNat(n)) == n
  {
    var s := PrintNat(n);
    if n < 10 {
      assert |s[..0]| == 0;
    } else {
      PrintNatValue(n / 10);
      assert s[..|s| - 1] == PrintNat(n / 10);
    }
  }

  // ----- the decimal type

  datatype Decimal = Decimal(coef: int, exp: int)

  /** big.Int's Quo: division that truncates toward zero. */
  function Quo(n: int, d: nat): (q: int)
    requires d > 0
  {
    if n < 0 then -((-n) / d) else n / d
  }

  /** The length of `s` once its trailing zeros are cut off. */
  function TrimmedLength(s: string): (n: nat)
    ensures n <= |s| && forall i :: n <= i < |s| ==> s[i] == '0'
  {
    if |s| > 0 && s[|s| - 1] == '0' then TrimmedLength(s[..|s| - 1]) else |s|
  }

  function WithSign(negative: bool, whole: string): (s: string) {
    if negative then ['-'] + whole else whole
  }

  /** Sign, integer part and, unless it is empty, the fraction after a point. */
  function Render(negative: bool, whole: string, fraction: string): (s: string) {
    var head := WithSign(negative, whole);
    if |fraction| == 0 then head else head + ['.'] + fraction
  }

  /** The digits, padded with leading zeros to at least one before the last `places`. */
  function Padded(digits: string, places: nat): (s: string)
    requires AllDigits(digits)
    ensures AllDigits(s) && |s| > places
    decreases places - |digits|
  {
    if |digits| > places then digits else Padded(['0'] + digits, places)
  }

  /** The digits with a point before the last `places`, the fraction's trailing zeros cut off. */
  function Pointed(negative: bool, digits: string, places: nat): (s: string)
    requires places <= |digits|
  {
    var fraction := digits[|digits| - places..];
    Render(negative, digits[..|digits| - places], fraction[..TrimmedLength(fraction)])
  }

  /** Decimal.String. */
  function ToString(d: Decimal): (s: string) {
    if d.exp >= 0 then
      Render(d.coef < 0, PrintNat(Abs(d.coef) * Pow(10, d.exp)), [])
    else
      Pointed(d.coef < 0, Padded(PrintNat(Abs(d.coef)), -d.exp), -d.exp)
  }

  // ----- parsing

  /** The first position at or after `from` holding one of `chars`, or -1. */
  function IndexOfAny(s: string, chars: set<char>, from: nat): (i: int)
    requires from <= |s|
    ensures i == -1 || from <= i < |s|
    ensures i >= 0 ==> s[i] in chars && forall j :: from <= j < i ==> s[j] !in chars
    ensures i == -1 ==> forall j :: from <= j < |s| ==> s[j] !in chars
    decreases |s| - from
  {
    if from == |s| then -1 else if s[from] in chars then from else IndexOfAny(s, chars, from + 1)
  }

  /** An optional sign and at least one digit. */
  function ParseInteger(s: string): (r: Option<int>) {
    var signed := |s| > 0 && (s[0] == '-' || s[0] == '+');
    var digits := if signed then s[1..] else s;
    if |digits| == 0 || !AllDigits(digits) then None
    else if signed && s[0] == '-' then Some(-(DigitsValue(digits) as int))
    else Some(DigitsValue(digits))
  }

  predicate FitsInt32(n: int) {
    MIN_INT32 <= n <= MAX_INT32
  }

  /** The mantissa: digits with at most one point, which counts the fraction's digits. */
  function ParseMantissa(s: string, exp: int): (r: Option<Decimal>) {
    var point := IndexOfAny(s, {'.'}, 0);
    if point < 0 then MantissaOf(s, 0, exp)
    else if IndexOfAny(s, {'.'}, point + 1) >= 0 then None
    else MantissaOf(s[..point] + s[point + 1..], |s| - point - 1, exp)
  }

  /** The digits, `places` of them after the point. */
  function MantissaOf(digits: string, places: nat, exp: int): (r: Option<Decimal>) {
    match ParseInteger(digits)
    case None => None
    case Some(coef) => if FitsInt32(exp - places) then Some(Decimal(coef, exp - places)) else None
  }

  /** decimal.NewFromString. */
  function Parse(s: string): (r: Option<Decimal>) {
    var e := IndexOfAny(s, {'e', 'E'}, 0);
    if e < 0 then ParseMantissa(s, 0)
    else
      match ParseInteger(s[e + 1..])
      case None => None
      case Some(exp) => if FitsInt32(exp) then ParseMantissa(s[..e], exp) else None
  }

  // ----- the conversions

  /** Exceeds: the product's exponent leaves int32 and the library panics. */
  datatype Amount = Units(n: int) | Invalid | Exceeds

  /** Decimal.BigInt: rescale to exponent zero. */
  function Rescale(coef: int, exp: int): (n: int) {
    if exp >= 0 then coef * Pow(10, exp) else Quo(coef, Pow(10, -exp))
  }

  function DecimalToBigInt(s: string, decimals: nat): (r: Amount) {
    match Parse(s)
    case None => Invalid
    case Some(d) =>
      if d.exp + decimals > MAX_INT32 then Exceeds else Units(Rescale(d.coef, d.exp + decimals))
  }

  function BigIntToDecimal(amount: int, decimals: nat): (s: string) {
    ToString(Decimal(amount, -(decimals as int)))
  }

  // ----- the round trip

  predicate Unmarked(s: string) {
    forall i :: 0 <= i < |s| ==> s[i] != '.' && s[i] != 'e' && s[i] != 'E'
  }

  lemma ParsePlain(s: string)
    requires Unmarked(s)
    ensures Parse(s) == MantissaOf(s, 0, 0)
  {
    assert IndexOfAny(s, {'e', 'E'}, 0) == -1;
    assert IndexOfAny(s, {'.'}, 0) == -1;
  }

  lemma {:induction false} PointFound(head: string, fraction: string, s: string)
    requires Unmarked(head) && Unmarked(fraction) && s == head + ['.'] + fraction
    ensures IndexOfAny(s, {'e', 'E'}, 0) == -1
    ensures IndexOfAny(s, {'.'}, 0) == |head| && IndexOfAny(s, {'.'}, |head| + 1) == -1
    ensures s[..|head|] == head && s[|head| + 1..] == fraction
  {
    var k := |head|;
    assert forall i :: 0 <= i < |s| ==> s[i] == if i < k then head[i] else if i == k then '.' else fraction[i - k - 1];
    assert s[k] == '.';
  }

  lemma ParsePointed(head: string, fraction: string, s: string)
    requires Unmarked(head) && Unmarked(fraction) && s == head + ['.'] + fraction
    ensures Parse(s) == MantissaOf(head + fraction, |fraction|, 0)
  {
    PointFound(head, fraction, s);
  }

  lemma {:induction false} DigitsUnmarked(negative: bool, digits: string)
    requires AllDigits(digits)
    ensures Unmarked(WithSign(negative, digits))
  {
  }

  lemma WithSignConcat(negative: bool, a: string, b: string)
    ensures WithSign(negative, a + b) == WithSign(negative, a) + b
  {
  }

  lemma {:induction false} SignedDigitsParse(negative: bool, digits: string)
    requires AllDigits(digits) && |digits| > 0
    ensures ParseInteger(WithSign(negative, digits)) == Some(Signed(negative, DigitsValue(digits)))
  {
    if negative {
      assert (['-'] + digits)[1..] == digits;
    }
  }

  function Signed(negative: bool, n: nat): (r: int) {
    if negative then -(n as int) else n
  }

  lemma {:induction false} SignedMantissa(negative: bool, digits: string, places: nat)
    requires AllDigits(digits) && |digits| > 0 && places <= MAX_INT32
    ensures MantissaOf(WithSign(negative, digits), places, 0)
            == Some(Decimal(Signed(negative, DigitsValue(digits)), -(places as int)))
  {
    SignedDigitsParse(negative, digits);
  }

  lemma {:induction false} RenderedWhole(negative: bool, whole: string)
    requires AllDigits(whole) && |whole| > 0
    ensures Parse(WithSign(negative, whole)) == Some(Decimal(Signed(negative, DigitsValue(whole)), 0))
  {
    DigitsUnmarked(negative, whole);
    ParsePlain(WithSign(negative, whole));
    SignedMantissa(negative, whole, 0);
  }

  lemma {:induction false} RenderedFraction(negative: bool, whole: string, fraction: string, digits: string)
    requires AllDigits(whole) && AllDigits(fraction) && AllDigits(digits) && |digits| > 0
    requires digits == whole + fraction && |fraction| <= MAX_INT32
    ensures Parse(WithSign(negative, whole) + ['.'] + fraction)
            == Some(Decimal(Signed(negative, DigitsValue(digits)), -|fraction|))
  {
    var head := WithSign(negative, whole);
    DigitsUnmarked(negative, whole);
    DigitsUnmarked(false, fraction);
    WithSignConcat(negative, whole, fraction);
    ParsePointed(head, fraction, head + ['.'] + fraction);
    SignedMantissa(negative, digits, |fraction|);
  }

  /** Cutting t trailing zeros off divides by ten to the t. */
  lemma {:induction false} TrimmedValue(digits: string, t: nat)
    requires AllDigits(digits) && t <= |digits| && forall i :: |digits| - t <= i < |digits| ==> digits[i] == '0'
    ensures DigitsValue(digits) == DigitsValue(digits[..|digits| - t]) * Pow(10, t)
  {
    if t == 0 {
      assert digits[..|digits|] == digits;
    } else {
      var rest := digits[..|digits| - 1];
      TrimmedValue(rest, t - 1);
      assert rest[..|rest| - (t - 1)] == digits[..|digits| - t];
      ShiftedProduct(DigitsValue(digits[..|digits| - t]), Pow(10, t - 1));
    }
  }

  lemma ShiftedProduct(x: int, p: int)
    ensures x * (10 * p) == (x * p) * 10
  {
  }

  lemma {:induction false} LeadingZero(digits: string)
    requires AllDigits(digits)
    ensures DigitsValue(['0'] + digits) == DigitsValue(digits)
  {
    var s := ['0'] + digits;
    if |digits| == 0 {
      assert |s[..0]| == 0;
    } else {
      LeadingZero(digits[..|digits| - 1]);
      assert s[..|s| - 1] == ['0'] + digits[..|digits| - 1];
    }
  }

  lemma {:induction false} PaddedValue(digits: string, places: nat)
    requires AllDigits(digits)
    ensures DigitsValue(Padded(digits, places)) == DigitsValue(digits)
    decreases places - |digits|
  {
    if |digits| <= places {
      LeadingZero(digits);
      PaddedValue(['0'] + digits, places);
    }
  }

  /** How many zeros String trims off the fraction. */
  function Trimmed(digits: string, places: nat): (t: nat)
    requires places <= |digits|
    ensures t <= places && forall i :: |digits| - t <= i < |digits| ==> digits[i] == '0'
  {
    var fraction := digits[|digits| - places..];
    assert forall i :: |digits| - places <= i < |digits| ==> digits[i] == fraction[i - (|digits| - places)];
    places - TrimmedLength(fraction)
  }

  /** The decimal that digits with a point parse to. */
  function PointedDecimal(negative: bool, digits: string, places: nat): (d: Decimal)
    requires AllDigits(digits) && places <= |digits|
    ensures -(places as int) <= d.exp <= 0
  {
    var t := Trimmed(digits, places);
    Decimal(Signed(negative, DigitsValue(digits[..|digits| - t])), t - places)
  }

  lemma {:induction false} SliceDigits(s: string, i: nat, j: nat)
    requires AllDigits(s) && i <= j <= |s|
    ensures AllDigits(s[i..j])
  {
  }

  lemma {:induction false} PrefixDigits(s: string, n: nat)
    requires AllDigits(s) && n <= |s|
    ensures AllDigits(s[..n])
  {
  }

  /** Without a fraction left, the text is the whole part. */
  lemma WholeForm(negative: bool, digits: string, places: nat, whole: string)
    requires places <= |digits| && Trimmed(digits, places) == places && whole == digits[..|digits| - places]
    ensures Pointed(negative, digits, places) == WithSign(negative, whole)
  {
  }

  lemma FractionForm(negative: bool, digits: string, places: nat, t: nat, whole: string, kept: string)
    requires places <= |digits| && t == Trimmed(digits, places) < places
    requires whole == digits[..|digits| - places] && kept == digits[|digits| - places..|digits| - t]
    ensures Pointed(negative, digits, places) == WithSign(negative, whole) + ['.'] + kept
  {
    var fraction := digits[|digits| - places..];
    assert fraction[..places - t] == kept;
  }

  lemma CutTwice(digits: string, m: nat, n: nat)
    requires m <= n <= |digits|
    ensures digits[..m] + digits[m..n] == digits[..n]
  {
  }

  /** The decimal of digits cut off after `n`, `places` of them behind the point. */
  lemma {:induction false} PointedDecimalForm(negative: bool, digits: string, places: nat, t: nat, prefix: string)
    requires AllDigits(digits) && places <= |digits| && t == Trimmed(digits, places)
    requires prefix == digits[..|digits| - t] && AllDigits(prefix)
    ensures PointedDecimal(negative, digits, places) == Decimal(Signed(negative, DigitsValue(prefix)), t - places)
  {
  }

  lemma {:induction false} FractionParses(
      negative: bool, text: string, whole: string, kept: string, prefix: string, d: Decimal)
    requires AllDigits(whole) && AllDigits(kept) && AllDigits(prefix) && |prefix| > 0 && |kept| <= MAX_INT32
    requires prefix == whole + kept && text == WithSign(negative, whole) + ['.'] + kept
    requires d == Decimal(Signed(negative, DigitsValue(prefix)), -|kept|)
    ensures Parse(text) == Some(d)
  {
    RenderedFraction(negative, whole, kept, prefix);
  }

  lemma {:induction false} PointedParses(negative: bool, digits: string, places: nat)
    requires AllDigits(digits) && places < |digits| && places <= MAX_INT32
    ensures Parse(Pointed(negative, digits, places)) == Some(PointedDecimal(negative, digits, places))
  {
    var t, n := Trimmed(digits, places), |digits|;
    var whole, kept, prefix := digits[..n - places], digits[n - places..n - t], digits[..n - t];
    PrefixDigits(digits, n - t);
    PointedDecimalForm(negative, digits, places, t, prefix);
    if t == places {
      WholeForm(negative, digits, places, whole);
      RenderedWhole(negative, whole);
    } else {
      PrefixDigits(digits, n - places);
      SliceDigits(digits, n - places, n - t);
      CutTwice(digits, n - places, n - t);
      FractionForm(negative, digits, places, t, whole, kept);
      FractionParses(negative, Pointed(negative, digits, places), whole, kept, prefix,
                     PointedDecimal(negative, digits, places));
    }
  }

  /** What is left after trimming is the amount divided by the power of ten trimmed. */
  lemma PointedAmount(negative: bool, digits: string, places: nat)
    requires AllDigits(digits) && places <= |digits|
    ensures var d := PointedDecimal(negative, digits, places);
            d.coef * Pow(10, d.exp + places) == Signed(negative, DigitsValue(digits))
  {
    var t := Trimmed(digits, places);
    TrimmedValue(digits, t);
    SignedProduct(negative, DigitsValue(digits[..|digits| - t]), Pow(10, t));
  }

  lemma SignedProduct(negative: bool, x: nat, y: nat)
    ensures Signed(negative, x) * y == Signed(negative, x * y)
  {
  }

  /** With no decimals the whole amount is printed, which is what the general form gives. */
  lemma PrintedForm(amount: int, decimals: nat)
    ensures BigIntToDecimal(amount, decimals)
            == Pointed(amount < 0, Padded(PrintNat(Abs(amount)), decimals), decimals)
  {
    if decimals == 0 {
      assert Abs(amount) * Pow(10, 0) == Abs(amount);
      var digits := PrintNat(Abs(amount));
      assert digits[..|digits| - 0] == digits;
    }
  }

  /** The decimal that a printed amount parses to. */
  function Printed(amount: int, decimals: nat): (d: Decimal)
    ensures -(decimals as int) <= d.exp <= 0
  {
    PointedDecimal(amount < 0, Padded(PrintNat(Abs(amount)), decimals), decimals)
  }

  lemma PrintedReads(amount: int, decimals: nat)
    requires decimals <= MAX_INT32
    ensures Parse(BigIntToDecimal(amount, decimals)) == Some(Printed(amount, decimals))
  {
    PrintedForm(amount, decimals);
    PointedParses(amount < 0, Padded(PrintNat(Abs(amount)), decimals), decimals);
  }

  lemma PaddedAmount(amount: int, decimals: nat)
    ensures Signed(amount < 0, DigitsValue(Padded(PrintNat(Abs(amount)), decimals))) == amount
  {
    PrintNatValue(Abs(amount));
    PaddedValue(PrintNat(Abs(amount)), decimals);
  }

  lemma PrintedAmount(amount: int, decimals: nat, d: Decimal)
    requires d == Printed(amount, decimals)
    ensures d.coef * Pow(10, d.exp + decimals) == amount
  {
    PaddedAmount(amount, decimals);
    PointedAmount(amount < 0, Padded(PrintNat(Abs(amount)), decimals), decimals);
  }

  lemma ParsedAmount(s: string, d: Decimal, decimals: nat)
    requires Parse(s) == Some(d) && d.exp + decimals <= MAX_INT32
    ensures DecimalToBigInt(s, decimals) == Units(Rescale(d.coef, d.exp + decimals))
  {
  }

  /** Printing an integer amount and parsing it back is the identity, for every amount and every uint8 decimals. */
  lemma RoundTrip(amount: int, decimals: nat)
    requires decimals <= 255
    ensures DecimalToBigInt(BigIntToDecimal(amount, decimals), decimals) == Units(amount)
  {
    var d := Printed(amount, decimals);
    PrintedReads(amount, decimals);
    PrintedAmount(amount, decimals, d);
    ParsedAmount(BigIntToDecimal(amount, decimals), d, decimals);
  }

  // ----- truncation

  /** The number a decimal denotes. */
  ghost function Value(d: Decimal): (v: real) {
    if d.exp >= 0 then (d.coef * Pow(10, d.exp)) as real else d.coef as real / Pow(10, -d.exp) as real
  }

  ghost function Power(n: nat): (p: real)
    ensures p > 0.0
  {
    Pow(10, n) as real
  }

  lemma PowerAdd(x: nat, y: nat)
    ensures Power(x + y) == Power(x) * Power(y)
  {
    PowAdd(10, x, y);
    RealProduct(Pow(10, x), Pow(10, y));
  }

  lemma RealProduct(x: int, y: int)
    ensures (x * y) as real == x as real * y as real
  {
  }

  lemma Cancel(a: real, x: real, y: real)
    requires x > 0.0 && y > 0.0
    ensures a / (x * y) * y == a / x
    ensures (a * y) / (x * y) == a / x
  {
    var q := a / (x * y);
    assert q * (x * y) == a;
    assert (q * y) * x == a;
    assert (a * y) / (x * y) == q * y by {
      assert (q * y) * (x * y) == a * y;
    }
  }

  lemma ShiftedWhole(d: Decimal, places: nat)
    requires d.exp >= 0
    ensures Value(Decimal(d.coef, d.exp + places)) == Value(d) * Power(places)
  {
    PowerAdd(d.exp, places);
    RealProduct(d.coef, Pow(10, d.exp));
    RealProduct(d.coef, Pow(10, d.exp + places));
  }

  lemma ShiftedAcross(d: Decimal, places: nat)
    requires d.exp < 0 <= d.exp + places
    ensures Value(Decimal(d.coef, d.exp + places)) == Value(d) * Power(places)
  {
    var c, x, y := d.coef as real, Power(d.exp + places), Power(-d.exp);
    PowerAdd(d.exp + places, -d.exp);
    RealProduct(d.coef, Pow(10, d.exp + places));
    Quotient(c, y);
    assert (c / y) * (x * y) == ((c / y) * y) * x;
  }

  lemma Quotient(a: real, x: real)
    requires x > 0.0
    ensures (a / x) * x == a
  {
  }

  /** Multiplying by ten to the `places` adds to the exponent. */
  lemma ShiftedValue(d: Decimal, places: nat)
    ensures Value(Decimal(d.coef, d.exp + places)) == Value(d) * Power(places)
  {
    if d.exp >= 0 {
      ShiftedWhole(d, places);
    } else if d.exp + places >= 0 {
      ShiftedAcross(d, places);
    } else {
      PowerAdd(-d.exp - places, places);
      Cancel(d.coef as real, Power(-d.exp - places), Power(places));
    }
  }

  lemma ProperFraction(y: real, d: real, r: real)
    requires d > 0.0 && 0.0 <= r < d && y * d == r
    ensures 0.0 <= y < 1.0
  {
  }

  lemma QuotientFloor(n: nat, d: nat)
    requires d > 0
    ensures (n as real / d as real).Floor == n / d
  {
    DivMod(n, d);
    var q, r, x := n / d, n % d, n as real / d as real;
    RealProduct(q, d);
    Quotient(n as real, d as real);
    assert (x - q as real) * d as real == x * d as real - q as real * d as real;
    ProperFraction(x - q as real, d as real, r as real);
  }

  ghost function TowardZero(x: real): (n: int) {
    if x >= 0.0 then x.Floor else -((-x).Floor)
  }

  lemma ValueSign(d: Decimal)
    ensures d.coef >= 0 <==> Value(d) >= 0.0
  {
    if d.exp >= 0 {
      RealProduct(d.coef, Pow(10, d.exp));
    }
  }

  /** BigInt keeps the integer part: the value rounded toward zero. */
  lemma RescaleTruncates(coef: int, exp: int)
    ensures var v := Value(Decimal(coef, exp));
            Rescale(coef, exp) == TowardZero(v)
  {
    ValueSign(Decimal(coef, exp));
    if exp < 0 {
      QuotientTruncates(coef, Pow(10, -exp));
    }
  }

  lemma QuotientTruncates(n: int, d: nat)
    requires d > 0
    ensures Quo(n, d) == TowardZero(n as real / d as real)
  {
    QuotientFloor(Abs(n), d);
    Quotient(n as real, d as real);
    Scaled(n as real / d as real, d as real, n as real);
    if n < 0 {
      assert (-n) as real / d as real == -(n as real / d as real);
    }
  }

  lemma {:induction false} ScaledBack(coef: int, t: nat, decimals: nat)
    requires t <= decimals
    ensures Value(Decimal(coef, t - decimals)) == InUnits(coef * Pow(10, t), decimals)
  {
    if t < decimals {
      ScaledFraction(coef, t, decimals - t);
    } else {
      ScaledWhole(coef, t);
    }
  }

  lemma {:induction false} UnitsProduct(coef: int, t: nat)
    ensures (coef * Pow(10, t)) as real == coef as real * Power(t)
  {
    RealProduct(coef, Pow(10, t));
  }

  lemma {:induction false} ScaledWhole(coef: int, t: nat)
    ensures coef * Pow(10, 0) == coef && coef as real == InUnits(coef * Pow(10, t), t)
  {
    UnitsProduct(coef, t);
    WholeQuotient(coef as real, Power(t));
  }

  lemma {:induction false} ScaledFraction(coef: int, t: nat, k: nat)
    ensures coef as real / Power(k) == InUnits(coef * Pow(10, t), k + t)
  {
    UnitsProduct(coef, t);
    PowerAdd(k, t);
    ExpandedFraction((coef * Pow(10, t)) as real, Power(k + t), coef as real, Power(k), Power(t));
  }

  lemma ExpandedFraction(num: real, den: real, a: real, x: real, y: real)
    requires x > 0.0 && y > 0.0 && num == a * y && den == x * y
    ensures den > 0.0 && num / den == a / x
  {
    Cancel(a, x, y);
  }

  lemma WholeQuotient(a: real, x: real)
    requires x > 0.0
    ensures (a * x) / x == a
  {
  }

  /** What is printed for an amount denotes the amount divided by ten to the decimals. */
  lemma PrintedValue(amount: int, decimals: nat)
    ensures Value(Printed(amount, decimals)) == InUnits(amount, decimals)
  {
    var d := Printed(amount, decimals);
    PrintedAmount(amount, decimals, d);
    ScaledBack(d.coef, d.exp + decimals, decimals);
  }

  ghost function RealAbs(x: real): (r: real) {
    if x < 0.0 then -x else x
  }

  ghost function InUnits(n: int, decimals: nat): (v: real) {
    n as real / Power(decimals)
  }

  /** w is v rounded toward zero to the given number of decimal places. */
  ghost predicate Truncates(v: real, w: real, decimals: nat) {
    && (exists n: int :: w == InUnits(n, decimals))
    && RealAbs(w) <= RealAbs(v)
    && (w == 0.0 || (w > 0.0 <==> v > 0.0))
    && RealAbs(v - w) < 1.0 / Power(decimals)
  }

  /**
   * Parsing a decimal string to an integer amount and printing that again denotes
   * the input rounded toward zero to `decimals` places, off by less than one unit.
   */
  lemma Truncation(s: string, decimals: nat) returns (d: Decimal, w: Decimal)
    requires decimals <= 255 && DecimalToBigInt(s, decimals).Units?
    ensures Parse(s) == Some(d)
    ensures Parse(BigIntToDecimal(DecimalToBigInt(s, decimals).n, decimals)) == Some(w)
    ensures Truncates(Value(d), Value(w), decimals)
  {
    d := Parse(s).value;
    var n := DecimalToBigInt(s, decimals).n;
    assert n == Rescale(d.coef, d.exp + decimals);
    w := Printed(n, decimals);
    PrintedReads(n, decimals);
    PrintedValue(n, decimals);
    TruncationOf(d, n, w, decimals);
  }

  lemma TruncationOf(d: Decimal, n: int, w: Decimal, decimals: nat)
    requires n == Rescale(d.coef, d.exp + decimals) && Value(w) == InUnits(n, decimals)
    ensures Truncates(Value(d), Value(w), decimals)
  {
    UnitsOfDecimal(d, decimals);
    UnitsTruncate(Value(d), Value(w), n, decimals);
  }

  lemma UnitsTruncate(v: real, w: real, n: int, decimals: nat)
    requires n == TruncatedUnits(v, decimals) && w == InUnits(n, decimals)
    ensures Truncates(v, w, decimals)
  {
    InUnitsScaled(n, decimals);
    UnitsClose(v, v * Power(decimals), w, n, Power(decimals));
  }

  ghost function TruncatedUnits(v: real, decimals: nat): (n: int) {
    TowardZero(v * Power(decimals))
  }

  /** The integer amount is the value in units, rounded toward zero. */
  lemma UnitsOfDecimal(d: Decimal, decimals: nat)
    ensures Rescale(d.coef, d.exp + decimals) == TruncatedUnits(Value(d), decimals)
  {
    ShiftedValue(d, decimals);
    RescaleTruncates(d.coef, d.exp + decimals);
  }

  /** In units of 1 / p: w is v rounded toward zero, so w lies between zero and v, less than one unit away. */
  lemma UnitsClose(v: real, x: real, w: real, n: int, p: real)
    requires p > 0.0 && x == v * p && w * p == n as real && n == TowardZero(x)
    ensures RealAbs(w) <= RealAbs(v) && (w == 0.0 || (w > 0.0 <==> v > 0.0))
    ensures RealAbs(v - w) < 1.0 / p
  {
    Scaled(v, p, x);
    Scaled(w, p, n as real);
    Scaled(v - w, p, x - n as real) by {
      assert (v - w) * p == v * p - w * p;
    }
    BelowUnit(v - w, p, x - n as real);
  }

  lemma Scaled(v: real, p: real, x: real)
    requires p > 0.0 && x == v * p
    ensures v > 0.0 <==> x > 0.0
    ensures v < 0.0 <==> x < 0.0
  {
  }

  lemma BelowUnit(y: real, p: real, z: real)
    requires p > 0.0 && z == y * p && -1.0 < z < 1.0
    ensures RealAbs(y) < 1.0 / p
  {
    Quotient(1.0, p);
    Scaled(1.0 / p - y, p, 1.0 - z) by {
      assert (1.0 / p - y) * p == (1.0 / p) * p - y * p;
    }
    Scaled(1.0 / p + y, p, 1.0 + z) by {
      assert (1.0 / p + y) * p == (1.0 / p) * p + y * p;
    }
  }

  lemma InUnitsScaled(n: int, decimals: nat)
    ensures InUnits(n, decimals) * Power(decimals) == n as real
  {
    Quotient(n as real, Power(decimals));
  }
}
