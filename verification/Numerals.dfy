/**
 * What decimal.NewFromString accepts and what it makes of it, as a grammar: an optional
 * sign and digits, at most one point among them, and an optional exponent.
 */
module Numerals {
  import opened Arith
  import opened Decimals
  import opened Wrappers

  /** The characters 0 to 9 have codes 48 to 57. */
  ghost predicate IsDecimalDigit(c: char, d: nat) {
    d < 10 && c as int == 48 + d
  }

  lemma DigitIs(c: char)
    ensures IsDigit(c) ==> IsDecimalDigit(c, DigitValue(c))
    ensures forall d: nat :: IsDecimalDigit(c, d) ==> IsDigit(c) && DigitValue(c) == d
  {
  }

  /** The digits are those of `n`, most significant first; leading zeros are allowed. */
  ghost predicate Reads(digits: string, n: nat)
    decreases |digits|
  {
    if |digits| == 0 then n == 0
    else Reads(digits[..|digits| - 1], n / 10) && IsDecimalDigit(digits[|digits| - 1], n % 10)
  }

  lemma {:induction false} ReadsIff(digits: string, n: nat)
    ensures Reads(digits, n) <==> AllDigits(digits) && DigitsValue(digits) == n
    decreases |digits|
  {
    if |digits| == 0 {
    } else {
      ReadsIff(digits[..|digits| - 1], n / 10);
      DigitIs(digits[|digits| - 1]);
      DigitsEnd(digits);
    }
  }

  lemma DigitsEnd(digits: string)
    requires |digits| > 0
    ensures AllDigits(digits) <==> AllDigits(digits[..|digits| - 1]) && IsDigit(digits[|digits| - 1])
  {
    var init := digits[..|digits| - 1];
    assert forall i :: 0 <= i < |init| ==> init[i] == digits[i];
  }

  ghost predicate IsSign(sign: string) {
    |sign| == 0 || (|sign| == 1 && (sign[0] == '+' || sign[0] == '-'))
  }

  ghost predicate IsMinus(sign: string) {
    |sign| == 1 && sign[0] == '-'
  }

  /** An optional sign and at least one digit. */
  ghost predicate IsInteger(s: string, sign: string, digits: string, n: int) {
    && IsSign(sign) && |digits| > 0 && s == sign + digits
    && Reads(digits, Abs(n)) && (if IsMinus(sign) then n <= 0 else n >= 0)
  }

  ghost predicate Integer(s: string, n: int) {
    exists sign, digits :: IsInteger(s, sign, digits, n)
  }

  lemma IntegerParsed(s: string, sign: string, digits: string, n: int)
    requires IsInteger(s, sign, digits, n)
    ensures ParseInteger(s) == Some(n) && Unmarked(s)
  {
    ReadsIff(digits, Abs(n));
    if |sign| == 0 {
      assert s == digits && IsDigit(s[0]);
    } else {
      assert s[0] == sign[0] && s[1..] == digits;
    }
  }

  lemma ParsedInteger(s: string, n: int)
    requires ParseInteger(s) == Some(n)
    ensures Integer(s, n)
  {
    var sign, digits := s[..0], s;
    if s[0] == '-' || s[0] == '+' {
      sign, digits := s[..1], s[1..];
    }
    ReadsIff(digits, Abs(n));
    assert IsInteger(s, sign, digits, n);
  }

  /** An integer in the above sense is what is parsed as one; it has no point and no exponent mark. */
  lemma IntegerIff(s: string, n: int)
    ensures ParseInteger(s) == Some(n) <==> Integer(s, n)
    ensures Integer(s, n) ==> Unmarked(s)
  {
    if Integer(s, n) {
      var sign, digits :| IsInteger(s, sign, digits, n);
      IntegerParsed(s, sign, digits, n);
    }
    if ParseInteger(s) == Some(n) {
      ParsedInteger(s, n);
    }
  }

  lemma UnmarkedParts(a: string, b: string)
    requires Unmarked(a + b)
    ensures Unmarked(a) && Unmarked(b)
  {
    assert forall i :: 0 <= i < |a| ==> a[i] == (a + b)[i];
    assert forall i :: 0 <= i < |b| ==> b[i] == (a + b)[|a| + i];
  }

  /** The mantissa's text: without its point it is `before` and `after`, and `after` stands behind the point. */
  ghost predicate MantissaText(text: string, before: string, after: string) {
    text == before + ['.'] + after || (text == before && |after| == 0)
  }

  /** An exponent, which may be absent and then is zero. */
  ghost predicate ExponentText(s: string, exp: int) {
    if |s| == 0 then exp == 0 else (s[0] == 'e' || s[0] == 'E') && Integer(s[1..], exp)
  }

  ghost predicate Is32Bit(n: int) {
    -2147483648 <= n <= 2147483647
  }

  /** A numeral: mantissa and exponent. The digits behind the point count the exponent down. */
  ghost predicate Spells(s: string, text: string, tail: string, before: string, after: string, coef: int, exp: int) {
    && s == text + tail && MantissaText(text, before, after) && Integer(before + after, coef)
    && ExponentText(tail, exp + |after|) && Is32Bit(exp + |after|) && Is32Bit(exp)
  }

  ghost predicate NoMark(text: string) {
    forall i :: 0 <= i < |text| ==> text[i] != 'e' && text[i] != 'E'
  }

  ghost predicate NoPoint(text: string) {
    forall i :: 0 <= i < |text| ==> text[i] != '.'
  }

  lemma NoMarkIn(text: string, before: string, after: string)
    requires Unmarked(before) && Unmarked(after) && MantissaText(text, before, after)
    ensures NoMark(text)
  {
  }

  lemma PlainMantissa(text: string, exp: int)
    requires NoPoint(text)
    ensures ParseMantissa(text, exp) == MantissaOf(text, 0, exp)
  {
  }

  lemma PointedMantissa(text: string, before: string, after: string, exp: int)
    requires Unmarked(before) && Unmarked(after) && text == before + ['.'] + after
    ensures ParseMantissa(text, exp) == MantissaOf(before + after, |after|, exp)
  {
    PointFound(before, after, text);
  }

  lemma MantissaParsed(text: string, before: string, after: string, coef: int, exp: int)
    requires MantissaText(text, before, after) && Integer(before + after, coef) && Is32Bit(exp - |after|)
    ensures ParseMantissa(text, exp) == Some(Decimal(coef, exp - |after|)) && NoMark(text)
  {
    IntegerIff(before + after, coef);
    UnmarkedParts(before, after);
    NoMarkIn(text, before, after);
    if text == before + ['.'] + after {
      PointedMantissa(text, before, after, exp);
    } else {
      assert before + after == before;
      PlainMantissa(text, exp);
    }
  }

  /** The first mark is the one that opens the exponent. */
  lemma MarkFound(s: string, text: string, tail: string)
    requires NoMark(text) && |tail| > 0 && (tail[0] == 'e' || tail[0] == 'E') && s == text + tail
    ensures IndexOfAny(s, {'e', 'E'}, 0) == |text| && s[..|text|] == text && s[|text| + 1..] == tail[1..]
  {
    assert forall i :: 0 <= i < |text| ==> s[i] == text[i];
    assert s[|text|] == tail[0];
  }

  lemma ParsedWithout(text: string)
    requires NoMark(text)
    ensures Parse(text) == ParseMantissa(text, 0)
  {
  }

  lemma ParsedWith(s: string, text: string, tail: string, exp: int)
    requires NoMark(text) && |tail| > 0 && ExponentText(tail, exp) && Is32Bit(exp) && s == text + tail
    ensures Parse(s) == ParseMantissa(text, exp)
  {
    IntegerIff(tail[1..], exp);
    MarkFound(s, text, tail);
  }

  lemma SpelledIsParsed(s: string, text: string, tail: string, before: string, after: string, coef: int, exp: int)
    requires Spells(s, text, tail, before, after, coef, exp)
    ensures Parse(s) == Some(Decimal(coef, exp))
  {
    MantissaParsed(text, before, after, coef, exp + |after|);
    JoinedParsed(s, text, tail, exp + |after|, Some(Decimal(coef, exp)));
  }

  lemma JoinedParsed(s: string, text: string, tail: string, exp: int, r: Option<Decimal>)
    requires NoMark(text) && ExponentText(tail, exp) && Is32Bit(exp) && s == text + tail && ParseMantissa(text, exp) == r
    ensures Parse(s) == r
  {
    if |tail| == 0 {
      assert s == text;
      ParsedWithout(s);
    } else {
      ParsedWith(s, text, tail, exp);
    }
  }

  lemma MantissaIs(digits: string, places: nat, exp: int, d: Decimal)
    requires MantissaOf(digits, places, exp) == Some(d)
    ensures Integer(digits, d.coef) && d.exp == exp - places && Is32Bit(d.exp)
  {
    IntegerIff(digits, d.coef);
  }

  lemma SplitAtPoint(text: string, point: nat, before: string, after: string)
    requires point < |text| && text[point] == '.' && before == text[..point] && after == text[point + 1..]
    ensures text == before + ['.'] + after && |after| == |text| - point - 1
  {
  }

  lemma NothingAfter(text: string, after: string)
    requires |after| == 0
    ensures text + after == text
  {
  }

  lemma ParsedMantissa(text: string, exp: int, d: Decimal) returns (before: string, after: string)
    requires ParseMantissa(text, exp) == Some(d)
    ensures MantissaText(text, before, after) && Integer(before + after, d.coef) && d.exp == exp - |after| && Is32Bit(d.exp)
  {
    var point := IndexOfAny(text, {'.'}, 0);
    if point < 0 {
      before, after := text, text[|text|..];
      NothingAfter(text, after);
    } else {
      before, after := text[..point], text[point + 1..];
      SplitAtPoint(text, point, before, after);
    }
    MantissaIs(before + after, |after|, exp, d);
  }

  lemma ParsedParts(s: string, d: Decimal) returns (text: string, tail: string, exp: int)
    requires Parse(s) == Some(d)
    ensures s == text + tail && ParseMantissa(text, exp) == Some(d) && ExponentText(tail, exp) && Is32Bit(exp)
  {
    var e := IndexOfAny(s, {'e', 'E'}, 0);
    if e < 0 {
      text, tail, exp := s, s[|s|..], 0;
    } else {
      text, tail, exp := s[..e], s[e..], ParseInteger(s[e + 1..]).value;
      assert tail[0] == s[e] && tail[1..] == s[e + 1..];
      IntegerIff(s[e + 1..], exp);
    }
    assert s == text + tail;
  }

  /** The string spells `coef` times ten to the `exp`. */
  ghost predicate Numeral(s: string, coef: int, exp: int) {
    exists text, tail, before, after :: Spells(s, text, tail, before, after, coef, exp)
  }

  lemma ParsedIsNumeral(s: string, d: Decimal)
    requires Parse(s) == Some(d)
    ensures Numeral(s, d.coef, d.exp)
  {
    var text, tail, exp := ParsedParts(s, d);
    PartsAreNumeral(s, text, tail, exp, d);
  }

  lemma PartsAreNumeral(s: string, text: string, tail: string, exp: int, d: Decimal)
    requires s == text + tail && ParseMantissa(text, exp) == Some(d) && ExponentText(tail, exp) && Is32Bit(exp)
    ensures Numeral(s, d.coef, d.exp)
  {
    MantissaSplits(text, exp, d);
    SplitIsNumeral(s, text, tail, exp, d);
  }

  ghost predicate Splits(text: string, before: string, after: string, exp: int, d: Decimal) {
    MantissaText(text, before, after) && Integer(before + after, d.coef) && d.exp == exp - |after| && Is32Bit(d.exp)
  }

  lemma MantissaSplits(text: string, exp: int, d: Decimal)
    requires ParseMantissa(text, exp) == Some(d)
    ensures exists before, after :: Splits(text, before, after, exp, d)
  {
    var before, after := ParsedMantissa(text, exp, d);
    assert Splits(text, before, after, exp, d);
  }

  lemma SplitIsNumeral(s: string, text: string, tail: string, exp: int, d: Decimal)
    requires s == text + tail && ExponentText(tail, exp) && Is32Bit(exp)
    requires exists before, after :: Splits(text, before, after, exp, d)
    ensures Numeral(s, d.coef, d.exp)
  {
    var before, after :| Splits(text, before, after, exp, d);
    assert Spells(s, text, tail, before, after, d.coef, d.exp);
  }

  lemma NumeralIsParsed(s: string, d: Decimal)
    requires Numeral(s, d.coef, d.exp)
    ensures Parse(s) == Some(d)
  {
    var text, tail, before, after :| Spells(s, text, tail, before, after, d.coef, d.exp);
    SpelledIsParsed(s, text, tail, before, after, d.coef, d.exp);
  }

  /** A string is accepted exactly when it is a numeral, and is read as what it spells. */
  lemma ParseIff(s: string, d: Decimal)
    ensures Parse(s) == Some(d) <==> Numeral(s, d.coef, d.exp)
  {
    if Parse(s) == Some(d) {
      ParsedIsNumeral(s, d);
    } else if Numeral(s, d.coef, d.exp) {
      NumeralIsParsed(s, d);
    }
  }

  /** The three answers of the conversion: not a numeral, an exponent that leaves 32 bits, or units. */
  lemma AmountIs(s: string, d: Decimal, decimals: nat)
    ensures (forall coef, exp :: !Numeral(s, coef, exp)) ==> DecimalToBigInt(s, decimals) == Invalid
    ensures Numeral(s, d.coef, d.exp) ==>
        DecimalToBigInt(s, decimals)
        == if d.exp + decimals > 2147483647 then Exceeds else Units(TruncatedUnits(Value(d), decimals))
  {
    if Parse(s).Some? {
      ParsedIsNumeral(s, Parse(s).value);
    }
    if Numeral(s, d.coef, d.exp) {
      NumeralIsParsed(s, d);
      UnitsOfDecimal(d, decimals);
    }
  }

  // ----- what is printed

  lemma {:induction false} TrimmedEnd(s: string)
    ensures TrimmedLength(s) > 0 ==> s[TrimmedLength(s) - 1] != '0'
    decreases |s|
  {
    if |s| > 0 && s[|s| - 1] == '0' {
      TrimmedEnd(s[..|s| - 1]);
    }
  }

  /** No zero in front unless it is the only digit. */
  ghost predicate NoLeadingZero(digits: string) {
    |digits| >= 1 && (digits[0] == '0' ==> |digits| == 1)
  }

  lemma {:induction false} PrintedLead(n: nat)
    ensures NoLeadingZero(PrintNat(n)) && (PrintNat(n)[0] == '0' ==> n == 0)
  {
    if n < 10 {
      DigitIs(DigitChar(n));
    } else {
      PrintedLead(n / 10);
    }
  }

  lemma {:induction false} PaddedLead(digits: string, places: nat)
    requires AllDigits(digits) && (|digits| > places ==> NoLeadingZero(digits))
    ensures |digits| > places ==> Padded(digits, places) == digits
    ensures |digits| <= places ==> |Padded(digits, places)| == places + 1
    decreases places - |digits|
  {
    if |digits| == places {
      assert Padded(['0'] + digits, places) == ['0'] + digits;
    } else if |digits| < places {
      PaddedLead(['0'] + digits, places);
    }
  }

  /** A sign if negative, an integer part without superfluous zeros, and a fraction unless it would end in zero. */
  ghost predicate Canonical(text: string, negative: bool, whole: string, fraction: string) {
    && AllDigits(whole) && AllDigits(fraction) && |whole| >= 1
    && text == (if negative then ['-'] + whole else whole) + (if |fraction| == 0 then [] else ['.'] + fraction)
    && (|fraction| > 0 ==> fraction[|fraction| - 1] != '0')
  }

  lemma PointedCanonical(negative: bool, digits: string, places: nat) returns (whole: string, fraction: string)
    requires AllDigits(digits) && places < |digits|
    ensures Canonical(Pointed(negative, digits, places), negative, whole, fraction)
    ensures whole == digits[..|digits| - places] && |fraction| <= places
  {
    whole := digits[..|digits| - places];
    var all := digits[|digits| - places..];
    fraction := all[..TrimmedLength(all)];
    TrimmedEnd(all);
    var head := WithSign(negative, whole);
    assert head + [] == head && head + ['.'] + fraction == head + (['.'] + fraction);
  }

  /** Amounts are printed in this one form, with at most `decimals` digits behind the point. */
  lemma PrintedCanonical(amount: int, decimals: nat) returns (whole: string, fraction: string)
    ensures Canonical(BigIntToDecimal(amount, decimals), amount < 0, whole, fraction)
    ensures |fraction| <= decimals && (whole[0] == '0' ==> |whole| == 1)
  {
    var digits := PrintNat(Abs(amount));
    PrintedLead(Abs(amount));
    PaddedLead(digits, decimals);
    PrintedForm(amount, decimals);
    whole, fraction := PointedCanonical(amount < 0, Padded(digits, decimals), decimals);
  }
}
