/**
 The automated market maker's quotes: prices around a mid price and sizes skewed by the inventory, both rounded.
 */
module QuoteRules {
  import opened Wrappers
  import opened Decimals

  datatype Config = Config(
    enabled: bool, spreadBps: int, quoteSize: real, maxInventory: real,
    autoQuoteThinMarkets: bool, minSpreadThresholdBps: int)

  datatype Quote = Quote(
    bidPrice: real, bidQuantity: real, askPrice: real, askQuantity: real, mid: real, spreadBps: int)

  datatype Pause = LongLimit | ShortLimit

  const MIN_PRICE := 0.02
  const MAX_PRICE := 0.98

  function Min(a: real, b: real): real { if a <= b then a else b }
  function Max(a: real, b: real): real { if a >= b then a else b }
  function Abs(a: real): real { if a >= 0.0 then a else -a }

  // --------------------------------------------------------------- arithmetic

  lemma ScaleMonotone(a: real, b: real, k: real)
    requires a <= b && k >= 0.0
    ensures k * a <= k * b
  {
    assert k * (b - a) >= 0.0;
    assert k * (b - a) == k * b - k * a;
  }

  lemma DivideBack(a: real, d: real)
    requires d != 0.0
    ensures d * (a / d) == a
  {
  }

  /** A quotient in terms of products. */
  lemma QuotientIs(a: real, d: real, x: real)
    requires d > 0.0 && a == d * x
    ensures a / d == x
  {
  }

  lemma DivideMonotone(a: real, b: real, d: real)
    requires a <= b && d > 0.0
    ensures a / d <= b / d
  {
    DivideBack(a, d);
    DivideBack(b, d);
    CompareFactors(a / d, b / d, d);
  }

  lemma CompareFactors(a: real, b: real, d: real)
    requires d > 0.0 && d * a <= d * b
    ensures a <= b
  {
    if b < a { CancelFactor(b, a, d); }
  }

  lemma CancelFactor(a: real, b: real, d: real)
    requires d > 0.0 && a < b
    ensures d * a < d * b
  {
    assert d * (b - a) > 0.0;
    assert d * (b - a) == d * b - d * a;
  }

  /** An interval of length one around n rounds to n. */
  lemma RoundsTo(x: real, n: int)
    requires n as real - 0.5 < x < n as real + 0.5
    ensures RoundHalfEven(x) == n
  {
  }

  // ------------------------------------------------------------------- prices

  /** quantize(Decimal("0.0001")), ties to even. */
  function ToFourDigits(x: real): real {
    RoundHalfEven(x * 10000.0) as real / 10000.0
  }

  function HalfSpread(c: Config, mid: real): real {
    RoundHalfUp(mid * c.spreadBps as real / 20000.0 * 10000.0) as real / 10000.0
  }

  function BidPrice(c: Config, mid: real): real {
    Max(MIN_PRICE, ToFourDigits(mid - HalfSpread(c, mid)))
  }

  function AskPrice(c: Config, mid: real): real {
    Min(MAX_PRICE, ToFourDigits(mid + HalfSpread(c, mid)))
  }

  lemma FourDigitsMonotone(x: real, y: real)
    requires x <= y
    ensures ToFourDigits(x) <= ToFourDigits(y)
  {
    HalfEvenMonotone(x * 10000.0, y * 10000.0);
  }

  /** Where rounding passes the price limits; both limits are even multiples of 0.0001. */
  lemma RoundsPastLimits(x: real)
    ensures ToFourDigits(x) <= MAX_PRICE <==> x <= 0.98005
    ensures ToFourDigits(x) >= MIN_PRICE <==> x >= 0.01995
  {
    var n := RoundHalfEven(x * 10000.0);
    assert ToFourDigits(x) <= MAX_PRICE <==> n <= 9800;
    assert ToFourDigits(x) >= MIN_PRICE <==> n >= 200;
  }

  lemma HalfSpreadNonnegative(c: Config, mid: real)
    requires mid >= 0.0 && c.spreadBps >= 0
    ensures HalfSpread(c, mid) >= 0.0
  {
    ScaleMonotone(0.0, c.spreadBps as real, mid);
  }

  /** The quote is crossed exactly when both prices, before they are rounded, lie beyond the same price limit. */
  lemma QuoteIsUncrossedExactly(c: Config, mid: real)
    requires mid >= 0.0 && c.spreadBps >= 0
    ensures BidPrice(c, mid) <= AskPrice(c, mid)
            <==> mid - HalfSpread(c, mid) <= 0.98005 && mid + HalfSpread(c, mid) >= 0.01995
  {
    var half := HalfSpread(c, mid);
    HalfSpreadNonnegative(c, mid);
    FourDigitsMonotone(mid - half, mid + half);
    RoundsPastLimits(mid - half);
    RoundsPastLimits(mid + half);
  }

  /** A mid price within the limits always gives an uncrossed quote within the limits. */
  lemma QuoteStaysInLimits(c: Config, mid: real)
    requires MIN_PRICE <= mid <= MAX_PRICE && c.spreadBps >= 0
    ensures MIN_PRICE <= BidPrice(c, mid) <= AskPrice(c, mid) <= MAX_PRICE
  {
    HalfSpreadNonnegative(c, mid);
    QuoteIsUncrossedExactly(c, mid);
  }

  /** Outside the limits the quote can cross: with the default spread the bid at mid 0.01 is above the ask. */
  lemma OutsideLimitsQuoteCrosses(c: Config)
    requires c.spreadBps == 400
    ensures BidPrice(c, 0.01) > AskPrice(c, 0.01)
  {
    assert 0.01 * 400.0 / 20000.0 * 10000.0 == 2.0;
    assert HalfSpread(c, 0.01) == 0.0002;
    QuoteIsUncrossedExactly(c, 0.01);
  }

  lemma FourDigitsClose(x: real)
    ensures -0.00005 <= ToFourDigits(x) - x <= 0.00005
  {
  }

  lemma HalfSpreadClose(c: Config, mid: real)
    ensures -0.00005 <= HalfSpread(c, mid) - mid * c.spreadBps as real / 20000.0 <= 0.00005
  {
  }

  /** Half the spread is rounded to a multiple of 0.0001, up at a tie. */
  lemma HalfSpreadIs(c: Config, mid: real)
    requires mid * c.spreadBps as real >= 0.0
    ensures var n := HalfSpread(c, mid) * 10000.0;
            n.Floor as real == n && n - 0.5 <= mid * c.spreadBps as real / 2.0 < n + 0.5
  {
  }

  /** Unless a price limit cuts it off, each price is half the configured spread away from the mid, up to 0.0001. */
  lemma PricesFollowSpread(c: Config, mid: real)
    ensures var half := mid * c.spreadBps as real / 20000.0;
            && (BidPrice(c, mid) > MIN_PRICE ==> -0.0001 <= BidPrice(c, mid) - (mid - half) <= 0.0001)
            && (AskPrice(c, mid) < MAX_PRICE ==> -0.0001 <= AskPrice(c, mid) - (mid + half) <= 0.0001)
            && (mid - half > MIN_PRICE + 0.0001 ==> BidPrice(c, mid) > MIN_PRICE)
            && (mid + half < MAX_PRICE - 0.0001 ==> AskPrice(c, mid) < MAX_PRICE)
  {
    HalfSpreadClose(c, mid);
    FourDigitsClose(mid - HalfSpread(c, mid));
    FourDigitsClose(mid + HalfSpread(c, mid));
  }

  // -------------------------------------------------------------------- sizes

  /** A size scaled and rounded to a whole number: quantize(Decimal("1")). */
  function Scaled(size: real, factor: real): real {
    RoundHalfEven(size * factor) as real
  }

  /** The smaller size of the side that would add to the inventory, and the larger one of the other side. */
  function Shrink(size: real, skew: real): real {
    Scaled(size, 1.0 - skew * 0.8)
  }

  function Grow(size: real, skew: real): real {
    Scaled(size, 1.0 + skew * 0.3)
  }

  /** min(|net| / max_inventory, 1) */
  function Skew(c: Config, net: real): real
    requires c.maxInventory != 0.0
  {
    Min(Abs(net) / c.maxInventory, 1.0)
  }

  /** Quoted quantity to buy: smaller the longer the inventory, none at the long limit. */
  function BidSize(c: Config, net: real): real
    requires c.maxInventory != 0.0 || net == 0.0
  {
    if net >= c.maxInventory then 0.0
    else Max(1.0, if net > 0.0 then Shrink(c.quoteSize, Skew(c, net))
                  else if net < 0.0 then Grow(c.quoteSize, Skew(c, net))
                  else c.quoteSize)
  }

  /** Quoted quantity to sell: larger the longer the inventory, none at the short limit. */
  function AskSize(c: Config, net: real): real
    requires c.maxInventory != 0.0 || net == 0.0
  {
    if net < c.maxInventory && net <= -c.maxInventory then 0.0
    else Max(1.0, if net > 0.0 then Grow(c.quoteSize, Skew(c, net))
                  else if net < 0.0 then Shrink(c.quoteSize, Skew(c, net))
                  else c.quoteSize)
  }

  function PauseAt(c: Config, net: real): Option<Pause> {
    if net >= c.maxInventory then Some(LongLimit)
    else if net <= -c.maxInventory then Some(ShortLimit) else None
  }

  ghost predicate Sensible(c: Config) {
    c.maxInventory > 0.0 && c.quoteSize >= 0.0
  }

  lemma SkewIsSymmetric(c: Config, net: real)
    requires c.maxInventory != 0.0
    ensures Skew(c, -net) == Skew(c, net)
  {
    assert Abs(-net) == Abs(net);
  }

  /** Selling from a long inventory mirrors buying into a short one. */
  lemma AskMirrorsBid(c: Config, net: real)
    requires Sensible(c)
    ensures AskSize(c, net) == BidSize(c, -net)
  {
    SkewIsSymmetric(c, net);
  }

  lemma ShrinkValue(size: real, s: real)
    ensures size * (1.0 - s * 0.8) == size - 0.8 * (size * s)
  {
  }

  lemma GrowValue(size: real, s: real)
    ensures size * (1.0 + s * 0.3) == size + 0.3 * (size * s)
  {
  }

  lemma ScaledMonotone(size: real, k: real, k': real)
    requires size >= 0.0 && k <= k'
    ensures Scaled(size, k) <= Scaled(size, k')
  {
    ScaleMonotone(k, k', size);
    HalfEvenMonotone(size * k, size * k');
  }

  lemma ShrinkAntitone(size: real, s: real, s': real)
    requires size >= 0.0 && s <= s'
    ensures Shrink(size, s') <= Shrink(size, s)
  {
    ScaledMonotone(size, 1.0 - s' * 0.8, 1.0 - s * 0.8);
  }

  lemma GrowMonotone(size: real, s: real, s': real)
    requires size >= 0.0 && s <= s'
    ensures Grow(size, s) <= Grow(size, s')
  {
    ScaledMonotone(size, 1.0 + s * 0.3, 1.0 + s' * 0.3);
  }

  lemma SkewMonotone(c: Config, net: real, net': real)
    requires Sensible(c) && Abs(net) <= Abs(net')
    ensures 0.0 <= Skew(c, net) <= Skew(c, net') <= 1.0
  {
    DivideMonotone(0.0, Abs(net), c.maxInventory);
    DivideMonotone(Abs(net), Abs(net'), c.maxInventory);
  }

  lemma SkewIsPositive(c: Config, net: real)
    requires Sensible(c) && net != 0.0
    ensures 0.0 < Skew(c, net) <= 1.0
  {
    SkewMonotone(c, net, net);
    DivideBack(Abs(net), c.maxInventory);
  }

  /** The skew of a part of the limit. */
  lemma SkewOfPart(c: Config, s: real)
    requires Sensible(c) && 0.0 < s <= 1.0
    ensures var net := c.maxInventory * s;
            && 0.0 < net <= c.maxInventory && (s < 1.0 ==> net < c.maxInventory)
            && Skew(c, net) == s && Skew(c, -net) == s
  {
    var net := c.maxInventory * s;
    CancelFactor(0.0, s, c.maxInventory);
    ScaleMonotone(s, 1.0, c.maxInventory);
    if s < 1.0 { CancelFactor(s, 1.0, c.maxInventory); }
    QuotientIs(net, c.maxInventory, s);
    SkewIsSymmetric(c, net);
  }

  /** The bid at a part of the limit, long or short. */
  lemma BidAtPart(c: Config, s: real)
    requires Sensible(c) && 0.0 < s <= 1.0
    ensures s < 1.0 ==> BidSize(c, c.maxInventory * s) == Max(1.0, Shrink(c.quoteSize, s))
    ensures BidSize(c, -(c.maxInventory * s)) == Max(1.0, Grow(c.quoteSize, s))
  {
    SkewOfPart(c, s);
  }

  // --------------------------------------------------------------------- lean

  predicate Whole(x: real) {
    x.Floor as real == x
  }

  lemma FloorIs(x: real, n: int)
    requires n as real <= x < n as real + 1.0
    ensures x.Floor == n
  {
  }

  /** The multiples of a half. */
  lemma HalfMultiple(x: real)
    ensures Whole(2.0 * x) <==> x - x.Floor as real == 0.0 || x - x.Floor as real == 0.5
  {
    var k, f := x.Floor, x - x.Floor as real;
    if f < 0.5 {
      FloorIs(2.0 * x, 2 * k);
    } else {
      FloorIs(2.0 * x, 2 * k + 1);
    }
  }

  /** The quote sizes with which rounding never works against the skew: up to one, or a multiple of a half. */
  predicate SteadySize(size: real) {
    size <= 1.0 || Whole(2.0 * size)
  }

  /** What lies on one side of a multiple of a half rounds to that side. */
  lemma HalvesRoundOutward(x: real, half: real)
    requires Whole(2.0 * half)
    ensures x < half ==> RoundHalfEven(x) as real <= half
    ensures x > half ==> half <= RoundHalfEven(x) as real
  {
    HalfMultiple(half);
    var k, n := half.Floor, RoundHalfEven(x);
    if x < half { assert n <= k; }
    if x > half { assert half > k as real ==> n >= k + 1; }
  }

  lemma SkewMovesSize(size: real, s: real)
    requires size > 0.0 && 0.0 < s <= 1.0
    ensures size * (1.0 - s * 0.8) < size < size * (1.0 + s * 0.3)
    ensures size * (1.0 + s * 0.3) <= 1.3 * size
  {
    CancelFactor(0.0, s, size);
    ScaleMonotone(s, 1.0, size);
    ShrinkValue(size, s);
    GrowValue(size, s);
  }

  /** Sizes up to one never quote more than one. */
  lemma SmallSizesQuoteOne(size: real, s: real)
    requires 0.0 <= size <= 1.0 && 0.0 < s <= 1.0
    ensures Shrink(size, s) <= 1.0 && Grow(size, s) <= 1.0
  {
    ShrinkAntitone(size, 0.0, s);
    GrowMonotone(size, s, 1.0);
  }

  lemma HalvesKeepSides(size: real, s: real)
    requires size > 0.0 && Whole(2.0 * size) && 0.0 < s <= 1.0
    ensures Shrink(size, s) <= size <= Grow(size, s)
  {
    SkewMovesSize(size, s);
    HalvesRoundOutward(size * (1.0 - s * 0.8), size);
    HalvesRoundOutward(size * (1.0 + s * 0.3), size);
  }

  lemma SteadySizeKeepsSides(size: real, s: real)
    requires 0.0 <= size && SteadySize(size) && 0.0 < s <= 1.0
    ensures Max(1.0, Shrink(size, s)) <= Max(1.0, size) <= Max(1.0, Grow(size, s))
  {
    if size <= 1.0 { SmallSizesQuoteOne(size, s); } else { HalvesKeepSides(size, s); }
  }

  /** A position on either side of zero never quotes against the skew. */
  lemma SteadyAtZero(c: Config, net: real)
    requires Sensible(c) && SteadySize(c.quoteSize)
    ensures net >= 0.0 ==> BidSize(c, net) <= BidSize(c, 0.0)
    ensures net <= 0.0 ==> BidSize(c, 0.0) <= BidSize(c, net)
  {
    if net != 0.0 {
      SkewIsPositive(c, net);
      SteadySizeKeepsSides(c.quoteSize, Skew(c, net));
    }
  }

  lemma BidLeans(c: Config, net: real, net': real)
    requires Sensible(c) && SteadySize(c.quoteSize) && net <= net'
    ensures BidSize(c, net') <= BidSize(c, net)
  {
    if net' < c.maxInventory {
      if 0.0 < net {
        SkewMonotone(c, net, net');
        ShrinkAntitone(c.quoteSize, Skew(c, net), Skew(c, net'));
      } else if net' < 0.0 {
        SkewMonotone(c, net', net);
        GrowMonotone(c.quoteSize, Skew(c, net'), Skew(c, net));
      } else {
        SteadyAtZero(c, net);
        SteadyAtZero(c, net');
      }
    }
  }

  /** As the inventory gets longer the bid does not grow and the ask does not shrink. */
  ghost predicate Leans(c: Config, net: real, net': real)
    requires c.maxInventory != 0.0
  {
    net <= net' ==> BidSize(c, net') <= BidSize(c, net) && AskSize(c, net) <= AskSize(c, net')
  }

  /** The skew that changes the size by a given amount. */
  lemma SkewFor(size: real, v: real) returns (s: real)
    requires 0.0 < v < size
    ensures 0.0 < s < 1.0 && size * s == v
  {
    s := v / size;
    DivideBack(v, size);
    if s <= 0.0 { ScaleMonotone(s, 0.0, size); }
    if s >= 1.0 { ScaleMonotone(1.0, s, size); }
  }

  lemma UpperFractionRoundsUp(size: real) returns (s: real)
    requires size > 1.0 && size - size.Floor as real > 0.5
    ensures 0.0 < s < 1.0 && Shrink(size, s) > size
  {
    var v := (size - size.Floor as real - 0.5) / 1.6;
    s := SkewFor(size, v);
    ShrinkValue(size, s);
    RoundsTo(size - 0.8 * v, size.Floor + 1);
  }

  lemma LowerFractionRoundsDown(size: real) returns (s: real)
    requires size > 1.0 && 0.0 < size - size.Floor as real < 0.5
    ensures 0.0 < s < 1.0 && Grow(size, s) < size
  {
    var v := (0.5 - (size - size.Floor as real)) / 0.6;
    s := SkewFor(size, v);
    GrowValue(size, s);
    RoundsTo(size + 0.3 * v, size.Floor);
  }

  /** Just long of zero a size whose fraction is above a half rounds up, past itself. */
  lemma UpperFractionRaisesBid(c: Config)
    requires Sensible(c) && c.quoteSize > 1.0 && c.quoteSize - c.quoteSize.Floor as real > 0.5
    ensures exists net :: !Leans(c, 0.0, net)
  {
    var s := UpperFractionRoundsUp(c.quoteSize);
    BidAtPart(c, s);
    SkewOfPart(c, s);
    assert BidSize(c, c.maxInventory * s) > BidSize(c, 0.0);
    assert !Leans(c, 0.0, c.maxInventory * s);
  }

  /** Just short of zero a size whose fraction is below a half rounds down, past itself. */
  lemma LowerFractionCutsBid(c: Config)
    requires Sensible(c) && c.quoteSize > 1.0 && 0.0 < c.quoteSize - c.quoteSize.Floor as real < 0.5
    ensures exists net :: !Leans(c, net, 0.0)
  {
    var s := LowerFractionRoundsDown(c.quoteSize);
    BidAtPart(c, s);
    SkewOfPart(c, s);
    assert BidSize(c, -(c.maxInventory * s)) < BidSize(c, 0.0);
    assert !Leans(c, -(c.maxInventory * s), 0.0);
  }

  /** The sizes lean against the inventory everywhere exactly when the quote size is steady. */
  lemma LeansExactly(c: Config)
    requires Sensible(c)
    ensures (forall net, net' :: Leans(c, net, net')) <==> SteadySize(c.quoteSize)
  {
    if SteadySize(c.quoteSize) {
      forall net, net' ensures Leans(c, net, net') {
        if net <= net' { SizesLeanAgainstInventory(c, net, net'); }
      }
    } else {
      var f := c.quoteSize - c.quoteSize.Floor as real;
      HalfMultiple(c.quoteSize);
      if f > 0.5 { UpperFractionRaisesBid(c); } else { LowerFractionCutsBid(c); }
    }
  }

  /**
   For a steady quote size, the bid never grows and the ask never shrinks as the inventory gets longer; inside the
   limits both sides quote at least one, and at a limit the side that would worsen it quotes nothing.
   */
  lemma SizesLeanAgainstInventory(c: Config, net: real, net': real)
    requires Sensible(c) && SteadySize(c.quoteSize) && net <= net'
    ensures BidSize(c, net') <= BidSize(c, net) && AskSize(c, net) <= AskSize(c, net')
    ensures -c.maxInventory < net < c.maxInventory ==> BidSize(c, net) >= 1.0 && AskSize(c, net) >= 1.0
    ensures net >= c.maxInventory ==> BidSize(c, net) == 0.0 && AskSize(c, net) >= 1.0
    ensures net <= -c.maxInventory ==> AskSize(c, net) == 0.0 && BidSize(c, net) >= 1.0
  {
    BidLeans(c, net, net');
    AskMirrorsBid(c, net);
    AskMirrorsBid(c, net');
    BidLeans(c, -net', -net);
  }

  /** A witness: with a quote size of 2.6 a position of 1 raises the bid to 3. */
  lemma FractionalSizeCanLeanWrong()
    ensures var c := Config(true, 400, 2.6, 500.0, true, 1000);
            BidSize(c, 1.0) > BidSize(c, 0.0) && !SteadySize(c.quoteSize)
  {
    var c := Config(true, 400, 2.6, 500.0, true, 1000);
    assert Skew(c, 1.0) == 0.002;
    assert 2.6 * (1.0 - 0.002 * 0.8) == 2.59584;
  }

  /** At a limit the side that unwinds the inventory offers 30% more than the quote size, up to rounding. */
  lemma UnwindingSideGrows(c: Config, net: real)
    requires Sensible(c) && c.quoteSize >= 1.0 && net >= c.maxInventory
    ensures -0.5 <= AskSize(c, net) - 1.3 * c.quoteSize <= 0.5
    ensures AskSize(c, net) == BidSize(c, -net)
  {
    DivideMonotone(c.maxInventory, net, c.maxInventory);
    QuotientIs(c.maxInventory, c.maxInventory, 1.0);
    assert Skew(c, net) == 1.0;
    AskMirrorsBid(c, net);
    GrowValue(c.quoteSize, 1.0);
    assert Grow(c.quoteSize, 1.0) >= 1.0;
  }

  // ------------------------------------------------------------ whole quotes

  predicate Quotes(c: Config, organicSpreadBps: Option<int>) {
    && c.enabled
    && !(organicSpreadBps.Some? && organicSpreadBps.value <= c.minSpreadThresholdBps && !c.autoQuoteThinMarkets)
  }

  /** int(x * 10000): truncated toward zero. */
  function ToBasisPoints(x: real): int {
    if x >= 0.0 then (x * 10000.0).Floor else -((-x * 10000.0).Floor)
  }

  function QuotedSpreadBps(bid: real, ask: real, mid: real): int {
    if mid > 0.0 then ToBasisPoints((ask - bid) / mid) else 0
  }

  function MidOr(mid: Option<real>): real {
    if mid.Some? then mid.value else 0.5
  }

  function QuoteFor(c: Config, net: real, currentMid: Option<real>, organicSpreadBps: Option<int>)
    : Result<Option<Quote>>
  {
    if !Quotes(c, organicSpreadBps) then Success(None)
    else if net != 0.0 && c.maxInventory == 0.0 then Failure(Invalid)
    else
      var mid := MidOr(currentMid);
      var bid, ask := BidPrice(c, mid), AskPrice(c, mid);
      Success(Some(Quote(bid, BidSize(c, net), ask, AskSize(c, net), mid, QuotedSpreadBps(bid, ask, mid))))
  }

  /**
   No quote is made exactly when the service is off or the market's own spread is narrow enough not to need one; the
   skew of an open position fails without an inventory limit; a quote is for the given mid, or for one half.
   */
  lemma AnswersExactly(c: Config, net: real, currentMid: Option<real>, organicSpreadBps: Option<int>)
    ensures var r := QuoteFor(c, net, currentMid, organicSpreadBps);
            && (r == Success(None)
                <==> !c.enabled
                     || (organicSpreadBps != None && organicSpreadBps.value <= c.minSpreadThresholdBps
                         && !c.autoQuoteThinMarkets))
            && (r == Failure(Invalid) <==> r != Success(None) && net != 0.0 && c.maxInventory == 0.0)
            && (r.Success? && r.value.Some? ==>
                  var q := r.value.value;
                  && q.mid == (match currentMid case None => 0.5 case Some(mid) => mid)
                  && q.bidPrice == BidPrice(c, q.mid) && q.askPrice == AskPrice(c, q.mid)
                  && q.bidQuantity == BidSize(c, net) && q.askQuantity == AskSize(c, net))
  {
  }

  lemma BasisPointsOf(x: real)
    ensures x >= 0.0 ==> ToBasisPoints(x) as real <= x * 10000.0 < ToBasisPoints(x) as real + 1.0
    ensures x <= 0.0 ==> ToBasisPoints(x) as real - 1.0 < x * 10000.0 <= ToBasisPoints(x) as real
  {
  }

  lemma TimesQuotient(d: real, mid: real)
    requires mid > 0.0
    ensures mid * (d / mid * 10000.0) == d * 10000.0
  {
    DivideBack(d, mid);
  }

  lemma ScaleLower(low: real, v: real, k: real, total: real)
    requires k > 0.0 && k * v == total
    ensures low <= v ==> k * low <= total
    ensures low < v ==> k * low < total
  {
    if low < v { CancelFactor(low, v, k); }
  }

  lemma ScaleUpper(v: real, high: real, k: real, total: real)
    requires k > 0.0 && k * v == total
    ensures v <= high ==> total <= k * high
    ensures v < high ==> total < k * high
  {
    if v < high { CancelFactor(v, high, k); }
  }

  lemma QuotientSign(d: real, mid: real)
    requires mid > 0.0
    ensures d >= 0.0 ==> d / mid >= 0.0
    ensures d <= 0.0 ==> d / mid <= 0.0
  {
    QuotientIs(0.0, mid, 0.0);
    if d >= 0.0 { DivideMonotone(0.0, d, mid); }
    if d <= 0.0 { DivideMonotone(d, 0.0, mid); }
  }

  lemma QuotedSpreadIsCut(bid: real, ask: real, mid: real, x: real)
    requires mid > 0.0 && x == (ask - bid) / mid
    ensures mid * (x * 10000.0) == (ask - bid) * 10000.0
    ensures var bps := QuotedSpreadBps(bid, ask, mid) as real;
            && (bid <= ask ==> bps <= x * 10000.0 < bps + 1.0)
            && (ask <= bid ==> bps - 1.0 < x * 10000.0 <= bps)
  {
    TimesQuotient(ask - bid, mid);
    QuotientSign(ask - bid, mid);
    BasisPointsOf(x);
  }

  /** The reported spread is the quoted one in basis points of the mid, cut off toward zero. */
  lemma ReportedSpreadIs(bid: real, ask: real, mid: real)
    requires mid > 0.0
    ensures var bps := QuotedSpreadBps(bid, ask, mid) as real;
            && (bid <= ask ==> mid * bps <= (ask - bid) * 10000.0 < mid * (bps + 1.0))
            && (ask <= bid ==> mid * (bps - 1.0) < (ask - bid) * 10000.0 <= mid * bps)
  {
    var bps := QuotedSpreadBps(bid, ask, mid) as real;
    var x := (ask - bid) / mid;
    QuotedSpreadIsCut(bid, ask, mid, x);
    var d := (ask - bid) * 10000.0;
    if bid <= ask {
      ScaleLower(bps, x * 10000.0, mid, d);
      ScaleUpper(x * 10000.0, bps + 1.0, mid, d);
    }
    if ask <= bid {
      ScaleLower(bps - 1.0, x * 10000.0, mid, d);
      ScaleUpper(x * 10000.0, bps, mid, d);
    }
  }

  /** The pause note names the side that quotes nothing: the bid at the long limit, the ask at the short one. */
  lemma PauseNamesTheSilentSide(c: Config, net: real)
    requires c.maxInventory > 0.0
    ensures PauseAt(c, net) == Some(LongLimit) <==> net >= c.maxInventory
    ensures PauseAt(c, net) == Some(ShortLimit) <==> net <= -c.maxInventory
    ensures BidSize(c, net) == 0.0 <==> PauseAt(c, net) == Some(LongLimit)
    ensures AskSize(c, net) == 0.0 <==> PauseAt(c, net) == Some(ShortLimit)
  {
  }

  /** The quantity is the exact size rounded to whole units, to the even one at a tie, and at least one. */
  predicate IsWholeNear(quantity: real, exact: real) {
    if exact < 1.0 then quantity == 1.0
    else
      && Whole(quantity) && -0.5 <= quantity - exact <= 0.5
      && (quantity.Floor % 2 == 1 ==> -0.5 < quantity - exact < 0.5)
  }

  lemma RoundedAtLeastOne(x: real)
    ensures IsWholeNear(Max(1.0, RoundHalfEven(x) as real), x)
  {
  }

  /** The side that adds to the inventory quotes 80% less in proportion to the position, and at least one. */
  lemma ShrinkIs(size: real, part: real)
    ensures IsWholeNear(Max(1.0, Shrink(size, part)), size - 0.8 * (size * part))
  {
    ShrinkValue(size, part);
    RoundedAtLeastOne(size - 0.8 * (size * part));
  }

  /** The other side quotes 30% more in that proportion. */
  lemma GrowIs(size: real, part: real)
    ensures IsWholeNear(Max(1.0, Grow(size, part)), size + 0.3 * (size * part))
  {
    GrowValue(size, part);
    RoundedAtLeastOne(size + 0.3 * (size * part));
  }

  /** A quote around a mid inside the limits reports a spread that is not negative. */
  lemma ReportedSpreadIsNonnegative(c: Config, net: real, mid: real, organicSpreadBps: Option<int>)
    requires MIN_PRICE <= mid <= MAX_PRICE && c.spreadBps >= 0
    requires c.maxInventory != 0.0 && Quotes(c, organicSpreadBps)
    ensures var r := QuoteFor(c, net, Some(mid), organicSpreadBps);
            r.Success? && r.value.Some? && r.value.value.spreadBps >= 0
  {
    QuoteStaysInLimits(c, mid);
    DivideMonotone(0.0, AskPrice(c, mid) - BidPrice(c, mid), mid);
  }
}
