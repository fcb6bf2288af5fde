/** The ERC-20 view of ledger balances (pkg/token/erc20.go). */
module Erc20 {
  import opened Arith
  import opened Decimals
  import opened Numerals
  import opened Wrappers

  /** Decimals: a configured value outside uint8 reads as zero. */
  function EffectiveDecimals(configured: int): (d: nat)
    ensures d <= 255
  {
    if configured < 0 || configured > 255 then 0 else configured
  }

  /** TotalSupply and BalanceOf: a failed lookup or an unparsable string reads as zero. */
  function Reported(answer: Option<string>, configured: int): (n: int) {
    match answer
    case None => 0
    case Some(s) =>
      match DecimalToBigInt(s, EffectiveDecimals(configured))
      case Units(n) => n
      case _ => 0
  }

  /** A non-negative decimal whose exponent leaves room for the decimals. */
  predicate Readable(s: string) {
    Parse(s).Some? && Parse(s).value.coef >= 0 && Parse(s).value.exp + 255 <= MAX_INT32
  }

  function DecimalOf(s: string): (d: Decimal)
    requires Readable(s)
    ensures d.coef >= 0
  {
    Parse(s).value
  }

  function Sum(ns: seq<int>): (n: int) {
    if |ns| == 0 then 0 else ns[0] + Sum(ns[1..])
  }

  function ReportedAll(balances: seq<string>, configured: int): (ns: seq<int>) {
    seq(|balances|, i requires 0 <= i < |balances| => Reported(Some(balances[i]), configured))
  }

  /** What a list of decimals adds up to. */
  ghost function Total(ds: seq<Decimal>): (v: real) {
    if |ds| == 0 then 0.0 else Value(ds[0]) + Total(ds[1..])
  }

  function RescaledAll(ds: seq<Decimal>, decimals: nat): (ns: seq<int>) {
    seq(|ds|, i requires 0 <= i < |ds| => Rescale(ds[i].coef, ds[i].exp + decimals))
  }

  function DecimalsOf(balances: seq<string>): (ds: seq<Decimal>)
    requires forall i :: 0 <= i < |balances| ==> Readable(balances[i])
    ensures |ds| == |balances| && forall i :: 0 <= i < |ds| ==> ds[i].coef >= 0
  {
    seq(|balances|, i requires 0 <= i < |balances| => DecimalOf(balances[i]))
  }

  lemma ReportedIsRescaled(s: string, configured: int)
    requires Readable(s)
    ensures var d := DecimalOf(s); Reported(Some(s), configured) == Rescale(d.coef, d.exp + EffectiveDecimals(configured))
  {
  }

  lemma ReportedAllRescaled(balances: seq<string>, configured: int)
    requires forall i :: 0 <= i < |balances| ==> Readable(balances[i])
    ensures ReportedAll(balances, configured) == RescaledAll(DecimalsOf(balances), EffectiveDecimals(configured))
  {
    var ns, ms := ReportedAll(balances, configured), RescaledAll(DecimalsOf(balances), EffectiveDecimals(configured));
    forall i | 0 <= i < |balances| ensures ns[i] == ms[i] {
      ReportedIsRescaled(balances[i], configured);
    }
    assert ns == ms;
  }

  /** A numeral read with `configured` decimals is its value times ten to that power, rounded toward zero. */
  lemma ReportedExact(s: string, d: Decimal, configured: int)
    requires Numeral(s, d.coef, d.exp) && d.exp + 255 <= MAX_INT32
    ensures 0 <= configured <= 255 ==> Reported(Some(s), configured) == TruncatedUnits(Value(d), configured)
    ensures !(0 <= configured <= 255) ==> Reported(Some(s), configured) == TowardZero(Value(d))
  {
    ParseIff(s, d);
    ReportedUnits(s, d, configured);
    if 0 <= configured <= 255 {
      UnitsOfDecimal(d, configured);
    } else {
      RescaleTruncates(d.coef, d.exp);
    }
  }

  lemma ReportedUnits(s: string, d: Decimal, configured: int)
    requires Parse(s) == Some(d) && d.exp + 255 <= MAX_INT32
    ensures Reported(Some(s), configured) == Rescale(d.coef, if 0 <= configured <= 255 then d.exp + configured else d.exp)
  {
  }

  /** A failed lookup reads as zero, and so does a string that is not a numeral. */
  lemma ReportedZero(s: string, configured: int)
    requires forall coef, exp :: !Numeral(s, coef, exp)
    ensures Reported(None, configured) == 0 && Reported(Some(s), configured) == 0
  {
    if Parse(s).Some? {
      ParseIff(s, Parse(s).value);
      assert false;
    }
  }

  /** Five tokens of 18 decimals are 5 * 10^18 units; with decimals that do not fit they are 5. */
  lemma FiveTokens()
    ensures Reported(Some("5"), 18) == 5_000_000_000_000_000_000 && Reported(Some("5"), 256) == 5
  {
    FiveIsFive();
    assert Pow(10, 6) == 1_000_000;
    PowAdd(10, 6, 6);
    PowAdd(10, 6, 12);
  }

  lemma FiveIsFive()
    ensures Parse("5") == Some(Decimal(5, 0))
  {
    var s := "5";
    ReadsIff(s, 5);
    assert Reads(s[..0], 0);
    assert s[..0] + s == s && IsInteger(s, s[..0], s, 5);
    assert s + s[..0] == s;
    assert Spells(s, s, s[..0], s, s[..0], 5, 0);
    ParseIff(s, Decimal(5, 0));
  }

  /** A value in units, rounded down. */
  ghost function FloorUnits(v: real, decimals: nat): (n: int) {
    (v * Power(decimals)).Floor
  }

  /** For a non-negative decimal, rescaling is rounding down. */
  lemma RescaledIsFloor(d: Decimal, decimals: nat)
    requires d.coef >= 0
    ensures Rescale(d.coef, d.exp + decimals) == FloorUnits(Value(d), decimals)
  {
    UnitsOfDecimal(d, decimals);
    ValueSign(d);
    Scaled(Value(d), Power(decimals), Value(d) * Power(decimals));
  }

  lemma FloorsAdd(v: real, w: real, decimals: nat)
    ensures var sum := FloorUnits(v, decimals) + FloorUnits(w, decimals);
            sum <= FloorUnits(v + w, decimals) <= sum + 1
  {
    Distributes(v, w, Power(decimals));
  }

  lemma Distributes(x: real, y: real, p: real)
    ensures (x + y) * p == x * p + y * p
  {
  }

  /** Rounding n balances down one by one loses at most n - 1 units against rounding their sum down. */
  lemma {:induction false} RoundedSum(ds: seq<Decimal>, decimals: nat)
    requires ds != [] && forall i :: 0 <= i < |ds| ==> ds[i].coef >= 0
    ensures var sum := Sum(RescaledAll(ds, decimals)); sum <= FloorUnits(Total(ds), decimals) <= sum + |ds| - 1
  {
    RescaledIsFloor(ds[0], decimals);
    assert RescaledAll(ds, decimals)[1..] == RescaledAll(ds[1..], decimals);
    if |ds| == 1 {
      assert Total(ds[1..]) == 0.0;
    } else {
      RoundedSum(ds[1..], decimals);
      FloorsAdd(Value(ds[0]), Total(ds[1..]), decimals);
    }
  }

  lemma {:induction false} RescaledBound(ds: seq<Decimal>, supply: Decimal, decimals: nat, ns: seq<int>, total: int)
    requires ds != [] && supply.coef >= 0 && forall i :: 0 <= i < |ds| ==> ds[i].coef >= 0
    requires ns == RescaledAll(ds, decimals) && total == Rescale(supply.coef, supply.exp + decimals)
    ensures Total(ds) == Value(supply) ==> 0 <= total - Sum(ns) <= |ds| - 1
  {
    RoundedSum(ds, decimals);
    RescaledIsFloor(supply, decimals);
  }

  lemma ReportedBound(balances: seq<string>, supply: string, configured: int, ds: seq<Decimal>, d: Decimal)
    requires balances != [] && forall i :: 0 <= i < |balances| ==> Readable(balances[i])
    requires Readable(supply) && ds == DecimalsOf(balances) && d == DecimalOf(supply)
    ensures var gap := Reported(Some(supply), configured) - Sum(ReportedAll(balances, configured));
            Total(ds) == Value(d) ==> 0 <= gap <= |balances| - 1
  {
    ReportedAllRescaled(balances, configured);
    ReportedIsRescaled(supply, configured);
    RescaledBound(ds, d, EffectiveDecimals(configured),
                  ReportedAll(balances, configured), Reported(Some(supply), configured));
  }

  /**
   * If n balances add up to the supply, the reported balances add up to at most the
   * reported supply, and fall short of it by at most n - 1 units.
   */
  lemma ViewBound(balances: seq<string>, supply: string, configured: int)
    requires balances != [] && forall i :: 0 <= i < |balances| ==> Readable(balances[i])
    requires Readable(supply) && Total(DecimalsOf(balances)) == Value(DecimalOf(supply))
    ensures 0 <= Reported(Some(supply), configured) - Sum(ReportedAll(balances, configured)) <= |balances| - 1
  {
    ReportedBound(balances, supply, configured, DecimalsOf(balances), DecimalOf(supply));
  }

  /** TransferFrom prints the amount so that the ledger reads back exactly what was asked for. */
  lemma TransferAmountExact(amount: int, configured: int)
    ensures Reported(Some(BigIntToDecimal(amount, EffectiveDecimals(configured))), configured) == amount
  {
    RoundTrip(amount, EffectiveDecimals(configured));
  }
}
