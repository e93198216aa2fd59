/**
 Trade fees. A taker pays a platform fee and a creator fee, each rounded half up to 10^-8; a maker pays nothing.
 The rounding errors of many fills add up, and the properties bound by how much.
 */
module Fees {
  import opened Decimals

  const ONE_BPS := 0.0001

  datatype FeeBreakdown = FeeBreakdown(
    grossNotional: real, platformFee: real, creatorFee: real, totalFee: real, netProceeds: real, isMaker: bool)

  /** The constructor of the breakdown derives the total and the proceeds. */
  function Breakdown(gross: real, platformFee: real, creatorFee: real, isMaker: bool): FeeBreakdown {
    var total := platformFee + creatorFee;
    FeeBreakdown(gross, platformFee, creatorFee, total, gross - total, isMaker)
  }

  /** One fee in ticks of 10^-8. */
  function FeeTicks(gross: real, bps: int): int {
    RoundHalfUp(gross * bps as real * ONE_BPS * TICKS)
  }

  function ComputeFee(gross: real, platformBps: int, creatorBps: int, isMaker: bool): FeeBreakdown {
    if isMaker then Breakdown(gross, 0.0, 0.0, true)
    else Breakdown(gross, Value(FeeTicks(gross, platformBps)), Value(FeeTicks(gross, creatorBps)), false)
  }

  /** Nothing is lost or made in one fill, and makers pay nothing. */
  lemma ProceedsPlusFeeIsGross(gross: real, platformBps: int, creatorBps: int, isMaker: bool)
    ensures var f := ComputeFee(gross, platformBps, creatorBps, isMaker);
            && f.netProceeds + f.totalFee == f.grossNotional == gross
            && f.totalFee == f.platformFee + f.creatorFee
            && (isMaker ==> f.totalFee == 0.0 && f.netProceeds == gross)
  {
  }

  // -------------------------------------------------------------- many fills

  datatype Fill = Fill(gross: real, isMaker: bool)
  datatype Rates = Rates(platformBps: int, creatorBps: int)

  /** The fees charged for the first n fills. */
  function FeesOf(fs: seq<Fill>, n: nat, r: Rates): real
    requires n <= |fs|
  {
    if n == 0 then 0.0
    else FeesOf(fs, n - 1, r) + ComputeFee(fs[n - 1].gross, r.platformBps, r.creatorBps, fs[n - 1].isMaker).totalFee
  }

  /** Notional of the fills that take liquidity. */
  function TakerNotional(fs: seq<Fill>, n: nat): real
    requires n <= |fs|
  {
    if n == 0 then 0.0 else TakerNotional(fs, n - 1) + if fs[n - 1].isMaker then 0.0 else fs[n - 1].gross
  }

  function Takers(fs: seq<Fill>, n: nat): nat
    requires n <= |fs|
  {
    if n == 0 then 0 else Takers(fs, n - 1) + if fs[n - 1].isMaker then 0 else 1
  }

  /** What both fees would be without rounding. */
  function ExactFee(gross: real, r: Rates): real {
    gross * (r.platformBps + r.creatorBps) as real * ONE_BPS
  }

  predicate Within(x: real, y: real, ticks: int) {
    -Value(ticks) <= x - y <= Value(ticks)
  }

  /** Rounding moves one fee by at most half a tick. */
  lemma OneFeeError(gross: real, bps: int)
    ensures -0.5 / TICKS <= Value(FeeTicks(gross, bps)) - gross * bps as real * ONE_BPS <= 0.5 / TICKS
  {
  }

  /** Each of a taker's fees is its own rate of the notional, in basis points, to the nearest hundred-millionth. */
  lemma EachFeeIs(gross: real, platformBps: int, creatorBps: int)
    ensures var f := ComputeFee(gross, platformBps, creatorBps, false);
            && -0.000000005 <= f.platformFee - gross * platformBps as real / 10000.0 <= 0.000000005
            && -0.000000005 <= f.creatorFee - gross * creatorBps as real / 10000.0 <= 0.000000005
            && OnGrid(f.platformFee) && OnGrid(f.creatorFee)
  {
    OneFeeError(gross, platformBps);
    OneFeeError(gross, creatorBps);
  }

  lemma RatesAdd(gross: real, r: Rates)
    ensures gross * r.platformBps as real * ONE_BPS + gross * r.creatorBps as real * ONE_BPS == ExactFee(gross, r)
  {
    assert gross * r.platformBps as real + gross * r.creatorBps as real
        == gross * (r.platformBps as real + r.creatorBps as real);
  }

  /** A taker's fee is within one tick of the exact fee. */
  lemma TakerFeeError(gross: real, r: Rates)
    ensures Within(ComputeFee(gross, r.platformBps, r.creatorBps, false).totalFee, ExactFee(gross, r), 1)
  {
    OneFeeError(gross, r.platformBps);
    OneFeeError(gross, r.creatorBps);
    RatesAdd(gross, r);
  }

  lemma ExactFeesAdd(a: real, b: real, r: Rates)
    ensures ExactFee(a + b, r) == ExactFee(a, r) + ExactFee(b, r)
  {
    var k := (r.platformBps + r.creatorBps) as real;
    assert (a + b) * k == a * k + b * k;
  }

  /** The summed fees differ from the exact fee on the taker notional by at most one tick per taker fill. */
  lemma {:induction false} SummedFeesError(fs: seq<Fill>, n: nat, r: Rates)
    requires n <= |fs|
    ensures Within(FeesOf(fs, n, r), ExactFee(TakerNotional(fs, n), r), Takers(fs, n))
  {
    if n == 0 {
      assert ExactFee(0.0, r) == 0.0;
    } else {
      SummedFeesError(fs, n - 1, r);
      if !fs[n - 1].isMaker {
        TakerFeeError(fs[n - 1].gross, r);
        ExactFeesAdd(TakerNotional(fs, n - 1), fs[n - 1].gross, r);
      }
    }
  }

  /** Charging fill by fill differs from charging the summed notional once by at most one more tick. */
  lemma FillByFillError(fs: seq<Fill>, r: Rates)
    ensures Within(FeesOf(fs, |fs|, r),
                   ComputeFee(TakerNotional(fs, |fs|), r.platformBps, r.creatorBps, false).totalFee,
                   Takers(fs, |fs|) + 1)
  {
    SummedFeesError(fs, |fs|, r);
    TakerFeeError(TakerNotional(fs, |fs|), r);
  }

  /** The bound is reached: n fills of one tick at 50% and 50% are charged n ticks too much. */
  lemma {:induction false} BoundIsReached(n: nat)
    ensures var fs := seq(n, (_: int) => Fill(Value(1), false));
            FeesOf(fs, n, Rates(5000, 5000)) - ExactFee(TakerNotional(fs, n), Rates(5000, 5000)) == Value(n)
  {
    DustPrefix(seq(n, (_: int) => Fill(Value(1), false)), n);
  }

  lemma {:induction false} DustPrefix(fs: seq<Fill>, n: nat)
    requires n <= |fs| && forall i :: 0 <= i < |fs| ==> fs[i] == Fill(Value(1), false)
    ensures FeesOf(fs, n, Rates(5000, 5000)) == 2.0 * Value(n) && TakerNotional(fs, n) == Value(n)
    ensures ExactFee(TakerNotional(fs, n), Rates(5000, 5000)) == Value(n)
  {
    if n > 0 {
      DustPrefix(fs, n - 1);
      assert FeeTicks(Value(1), 5000) == 1;
    }
  }

  // ------------------------------------------------------- one fill in ticks

  lemma FeeOfTicks(ticks: int, bps: int)
    ensures FeeTicks(Value(ticks), bps) == RoundHalfUp((ticks * bps) as real / 10000.0)
  {
    assert Value(ticks) * bps as real * ONE_BPS * TICKS == ticks as real * bps as real / 10000.0;
    assert ticks as real * bps as real == (ticks * bps) as real;
  }

  /** Rounding half up in integers. */
  lemma HalfUpOfFraction(x: nat)
    ensures RoundHalfUp(x as real / 10000.0) == if x % 10000 >= 5000 then x / 10000 + 1 else x / 10000
  {
    var q := x / 10000;
    assert x as real == q as real * 10000.0 + (x % 10000) as real;
  }

  lemma SplitProduct(k: int, a: int, b: int, c: int)
    ensures k * (a + b + c) == k * a + k * b + k * c
  {
  }

  lemma PositiveProduct(k: nat, a: nat)
    ensures k * a >= 0 && (k > 0 && a > 0 ==> k * a > 0)
  {
  }

  lemma Complement(ticks: nat, p: nat, c: nat)
    requires p + c <= 10000
    ensures ticks * p + ticks * c <= ticks * 10000
    ensures ticks > 0 ==> (ticks * p + ticks * c == ticks * 10000 <==> p + c == 10000)
  {
    SplitProduct(ticks, p, c, 10000 - p - c);
    PositiveProduct(ticks, 10000 - p - c);
  }

  /** Two roundings exceed the whole exactly when both are ties. */
  lemma RoundedPartsExceed(x: nat, y: nat, whole: nat)
    requires x + y <= whole * 10000
    ensures RoundHalfUp(x as real / 10000.0) + RoundHalfUp(y as real / 10000.0) > whole
            <==> x + y == whole * 10000 && x % 10000 == 5000
  {
    HalfUpOfFraction(x);
    HalfUpOfFraction(y);
  }

  /**
   For a notional on the tick grid and rates of at most 100% together, the proceeds are negative exactly when the
   rates add up to 100% and both fees are ties that round up.
   */
  lemma NetIsNegativeExactly(ticks: nat, p: nat, c: nat)
    requires p + c <= 10000
    ensures var f := ComputeFee(Value(ticks), p, c, false);
            f.netProceeds < 0.0 <==> p + c == 10000 && (ticks * p) % 10000 == 5000
  {
    FeeOfTicks(ticks, p);
    FeeOfTicks(ticks, c);
    Complement(ticks, p, c);
    PositiveProduct(ticks, p);
    PositiveProduct(ticks, c);
    RoundedPartsExceed(ticks * p, ticks * c, ticks);
    NetInTicks(ticks, p, c);
  }

  lemma NetInTicks(ticks: nat, p: nat, c: nat)
    ensures ComputeFee(Value(ticks), p, c, false).netProceeds < 0.0
            <==> FeeTicks(Value(ticks), p) + FeeTicks(Value(ticks), c) > ticks
  {
    var paid := FeeTicks(Value(ticks), p) + FeeTicks(Value(ticks), c);
    assert ComputeFee(Value(ticks), p, c, false).netProceeds == Value(ticks - paid);
  }

  /** A larger trade never pays a smaller fee. */
  lemma FeesAreMonotone(gross: real, gross': real, p: nat, c: nat)
    requires gross <= gross'
    ensures ComputeFee(gross, p, c, false).totalFee <= ComputeFee(gross', p, c, false).totalFee
  {
    OneFeeIsMonotone(gross, gross', p);
    OneFeeIsMonotone(gross, gross', c);
  }

  /**
   The creator fee is taken from the gross notional, not from the platform fee: it stays within the platform fee on
   every trade exactly when its rate does, and a trade of 1 shows it.
   */
  lemma CreatorFeeWithinPlatformFeeExactly(p: int, c: int)
    ensures (forall gross | gross >= 0.0 :: CreatorFeeWithin(gross, p, c)) <==> c <= p
    ensures CreatorFeeWithin(1.0, p, c) <==> c <= p
  {
    FeeOfOne(p);
    FeeOfOne(c);
    if c <= p {
      forall gross | gross >= 0.0 ensures CreatorFeeWithin(gross, p, c) { HigherRateHigherFee(gross, c, p); }
    } else {
      assert !CreatorFeeWithin(1.0, p, c);
    }
  }

  predicate CreatorFeeWithin(gross: real, p: int, c: int) {
    ComputeFee(gross, p, c, false).creatorFee <= ComputeFee(gross, p, c, false).platformFee
  }

  lemma FeeOfOne(bps: int)
    ensures FeeTicks(1.0, bps) == bps * 10000
  {
    assert 1.0 * bps as real * ONE_BPS * TICKS == (bps * 10000) as real;
  }

  lemma HigherRateHigherFee(gross: real, bps: int, bps': int)
    requires gross >= 0.0 && bps <= bps'
    ensures FeeTicks(gross, bps) <= FeeTicks(gross, bps')
  {
    assert gross * (bps' as real - bps as real) >= 0.0;
    assert gross * bps' as real - gross * bps as real == gross * (bps' as real - bps as real);
    HalfUpMonotone(gross * bps as real * ONE_BPS * TICKS, gross * bps' as real * ONE_BPS * TICKS);
  }

  lemma OneFeeIsMonotone(gross: real, gross': real, bps: nat)
    requires gross <= gross'
    ensures FeeTicks(gross, bps) <= FeeTicks(gross', bps)
  {
    assert (gross' - gross) * bps as real >= 0.0;
    assert gross' * bps as real - gross * bps as real == (gross' - gross) * bps as real;
    HalfUpMonotone(gross * bps as real * ONE_BPS * TICKS, gross' * bps as real * ONE_BPS * TICKS);
  }
}
