/**
 How far the market maker's inventory can run. Quotes are skewed by the position, fills move the position, and the
 question is which configurations keep it within one last quote of the limit, whatever is quoted and filled.
 */
module InventoryLimits {
  import opened Wrappers
  import opened Decimals
  import opened QuoteRules

  /** What the service remembers about one key. */
  datatype Position = Position(net: real, bought: real, sold: real, paused: Option<Pause>)

  /** A position and what is left of the quote that is out. */
  datatype Desk = Desk(position: Position, bidLeft: real, askLeft: real)

  datatype Action =
    | PostQuote(mid: Option<real>, organicSpreadBps: Option<int>)
    | Fill(buy: bool, quantity: real)

  const NO_POSITION := Position(0.0, 0.0, 0.0, None)
  const NEW_DESK := Desk(NO_POSITION, 0.0, 0.0)

  function Filled(p: Position, buy: bool, quantity: real): Position {
    if buy then p.(net := p.net + quantity, bought := p.bought + quantity)
    else p.(net := p.net - quantity, sold := p.sold + quantity)
  }

  /** A quote that was answered is out, and its pause note is kept; otherwise nothing is out. */
  function Posted(c: Config, p: Position, answer: Result<Option<Quote>>): Desk {
    if answer.Success? && answer.value.Some?
    then Desk(p.(paused := PauseAt(c, p.net)), answer.value.value.bidQuantity, answer.value.value.askQuantity)
    else Desk(p, 0.0, 0.0)
  }

  function Act(c: Config, d: Desk, a: Action): Desk {
    match a
    case PostQuote(mid, organic) => Posted(c, d.position, QuoteFor(c, d.position.net, mid, organic))
    case Fill(buy, quantity) =>
      Desk(Filled(d.position, buy, quantity),
           if buy then d.bidLeft - quantity else d.bidLeft,
           if buy then d.askLeft else d.askLeft - quantity)
  }

  function ActAll(c: Config, d: Desk, actions: seq<Action>): Desk
    decreases |actions|
  {
    if actions == [] then d else ActAll(c, Act(c, d, actions[0]), actions[1..])
  }

  /** A fill takes no more than what is left of the quote on its side. */
  ghost predicate Admissible(d: Desk, a: Action) {
    a.Fill? ==> 0.0 <= a.quantity <= if a.buy then d.bidLeft else d.askLeft
  }

  ghost predicate WithinQuotes(c: Config, d: Desk, actions: seq<Action>)
    decreases |actions|
  {
    actions == [] || (Admissible(d, actions[0]) && WithinQuotes(c, Act(c, d, actions[0]), actions[1..]))
  }

  /** The farthest the inventory should get: one last quote beyond the limit. */
  ghost function Bound(c: Config): real {
    c.maxInventory + Max(1.0, 0.2 * c.quoteSize + 0.5)
  }

  /** The configurations that keep the bound, by quote size. From 2.5 on it is 0.8 * quote_size <= max_inventory. */
  predicate SafeSize(c: Config) {
    SafeFor(c.quoteSize, c.maxInventory)
  }

  predicate SafeFor(q: real, m: real) {
    if q <= 1.0 then true
    else if 13.0 * q < 15.0 then q - 1.0 <= m
    else if q <= 1.5 then 0.3 * q <= m * (1.5 - 0.7 * q)
    else if q < 2.5 then 0.8 * q <= m * (1.5 - 0.2 * q)
    else 0.8 * q <= m
  }

  // ------------------------------------------------- one bid inside the bound

  lemma RoundsToAtMost(x: real, n: int)
    requires x < n as real + 0.5 || (x == n as real + 0.5 && n % 2 == 0)
    ensures RoundHalfEven(x) <= n
  {
  }

  /** The skew in terms of the position, without division. */
  lemma SkewTimesLimit(c: Config, net: real)
    requires Sensible(c) && net != 0.0
    ensures 0.0 < Skew(c, net) <= 1.0 && c.maxInventory * Skew(c, net) <= Abs(net)
    ensures Abs(net) < c.maxInventory ==> c.maxInventory * Skew(c, net) == Abs(net)
  {
    var m := c.maxInventory;
    SkewIsPositive(c, net);
    DivideBack(Abs(net), m);
    ScaleMonotone(Skew(c, net), Abs(net) / m, m);
    if Abs(net) < m {
      DivideMonotone(Abs(net), m, m);
      QuotientIs(m, m, 1.0);
    }
  }

  lemma ProductsCommute(q: real, m: real, s: real)
    ensures m * (q * s) == q * (m * s)
  {
  }

  lemma Distribute(k: real, a: real, b: real)
    ensures k * (a + b) == k * a + k * b && k * (a - b) == k * a - k * b
  {
  }

  /** A long bid from 2.5 up. */
  lemma LargeLongFits(net: real, m: real, q: real, s: real, bid: real)
    requires 0.0 < s <= 1.0 && m * s == net < m && 2.5 <= q && 0.8 * q <= m && bid <= q - 0.8 * (q * s) + 0.5
    ensures net + Max(1.0, bid) <= m + (0.2 * q + 0.5)
  {
    ScaleMonotone(s, 1.0, m - 0.8 * q);
    Distribute(s, m, 0.8 * q);
    assert s * (0.8 * q) == 0.8 * (q * s);
  }

  /** A short bid from 2.5 up. */
  lemma LargeShortFits(short: real, m: real, q: real, s: real, bid: real)
    requires 0.0 < s <= 1.0 && 0.0 < m && m * s <= short && 0.0 < short && 2.5 <= q && 0.8 * q <= m
    requires bid <= q + 0.3 * (q * s) + 0.5
    ensures -short + Max(1.0, bid) <= m + (0.2 * q + 0.5)
  {
    ScaleMonotone(0.0, s, m - 0.3 * q);
    Distribute(s, m, 0.3 * q);
    assert s * (0.3 * q) == 0.3 * (q * s);
  }

  /** While a long bid still rounds to two, there is room for one more unit than that below the limit. */
  lemma LongRoom(m: real, q: real, s: real)
    requires 0.0 < m && 0.0 < q && 0.8 * q <= m * (1.5 - 0.2 * q) && 1.5 <= q - 0.8 * (q * s)
    ensures 1.0 <= m - m * s
  {
    var a, b := q * m, q * (m * s);
    ScaleMonotone(0.8 * (q * s), q - 1.5, m);
    ProductsCommute(q, m, s);
    assert 0.8 * b <= a - 1.5 * m by {
      assert m * (0.8 * (q * s)) == 0.8 * (m * (q * s));
      Distribute(m, q, 1.5);
    }
    assert 0.8 * q <= 1.5 * m - 0.2 * a by { Distribute(m, 1.5, 0.2 * q); }
    Distribute(q, m, m * s);
    CompareFactors(1.0, m - m * s, q);
  }

  /** While a short bid rounds above t, limit and position together leave room for k. */
  lemma ShortRoom(m: real, q: real, s: real, short: real, t: real, k: real)
    requires 0.0 < m && 0.0 < q && m * s <= short && t <= q + 0.3 * (q * s) && 0.3 * (q * k) <= m * (t - 0.7 * q)
    ensures k <= m + short
  {
    var a, b := q * m, q * (m * s);
    ScaleMonotone(t - q, 0.3 * (q * s), m);
    ProductsCommute(q, m, s);
    assert m * t - a <= 0.3 * b by {
      assert m * (0.3 * (q * s)) == 0.3 * (m * (q * s));
      Distribute(m, t, q);
    }
    assert 0.3 * (q * k) <= m * t - 0.7 * a by { Distribute(m, t, 0.7 * q); }
    ScaleMonotone(m * s, short, q);
    Distribute(q, m, short);
    CompareFactors(k, m + short, q);
  }

  /** From 1.5 up to 2.5 a safe limit is at least one, and leaves room for the bids at zero and below. */
  lemma SafeLimitIsOne(m: real, q: real)
    requires 0.0 < m && 1.5 < q < 2.5 && 0.8 * q <= m * (1.5 - 0.2 * q)
    ensures 1.0 <= m && q - 1.0 <= m
    ensures 0.6 * q <= m * (2.5 - 0.7 * q)
  {
    ScaleMonotone(1.5 - 0.2 * q, 1.2, m);
    if q >= 2.0 { ScaleMonotone(1.5 - 0.2 * q, 1.1, m); }
    ThreeQuarters(m, q, m * (1.5 - 0.2 * q));
  }

  lemma ThreeQuarters(m: real, q: real, b: real)
    requires 0.0 < m && q < 2.5 && b == m * (1.5 - 0.2 * q)
    ensures 0.75 * b <= m * (2.5 - 0.7 * q)
  {
    ScaleMonotone(0.0, 1.375 - 0.55 * q, m);
    Distribute(m, 1.375, 0.55 * q);
    Distribute(m, 2.5, 0.7 * q);
    Distribute(m, 1.5, 0.2 * q);
    assert m * (0.55 * q) == 0.55 * (m * q) && m * (0.7 * q) == 0.7 * (m * q) && m * (0.2 * q) == 0.2 * (m * q);
  }

  /** The values a skewed size below 2.5 can round to. */
  lemma ShrinkLevels(q: real, s: real)
    requires 1.0 < q < 2.5 && 0.0 < s <= 1.0
    ensures Shrink(q, s) <= 2.0
    ensures Shrink(q, s) > 1.0 ==> q > 1.5 && 1.5 <= q - 0.8 * (q * s)
  {
    var x := q * (1.0 - s * 0.8);
    SkewMovesSize(q, s);
    ShrinkValue(q, s);
    if x < 1.5 { RoundsToAtMost(x, 1); } else { RoundsToAtMost(x, 2); }
  }

  lemma GrowLevels(q: real, s: real)
    requires 1.0 < q < 2.5 && 0.0 < s <= 1.0
    ensures Grow(q, s) <= 3.0
    ensures Grow(q, s) > 1.0 ==> 13.0 * q >= 15.0 && 1.5 <= q + 0.3 * (q * s)
    ensures Grow(q, s) > 2.0 ==> q > 1.5 && 2.5 <= q + 0.3 * (q * s)
  {
    var x := q * (1.0 + s * 0.3);
    SkewMovesSize(q, s);
    GrowValue(q, s);
    if x < 1.5 { RoundsToAtMost(x, 1); } else if x <= 2.5 { RoundsToAtMost(x, 2); } else { RoundsToAtMost(x, 3); }
  }

  lemma SmallLongFits(net: real, m: real, q: real, s: real, bid: real)
    requires 0.0 < m && 1.0 < q < 2.5 && m * s == net < m && SafeFor(q, m)
    requires bid <= 2.0 && (bid > 1.0 ==> q > 1.5 && 1.5 <= q - 0.8 * (q * s))
    ensures net + Max(1.0, bid) <= m + 1.0
  {
    if bid > 1.0 { LongRoom(m, q, s); }
  }

  lemma SmallShortFits(m: real, q: real, s: real, short: real, bid: real)
    requires 0.0 < m && 1.0 < q < 2.5 && m * s <= short && 0.0 < short && SafeFor(q, m)
    requires bid <= 3.0 && (bid > 1.0 ==> 13.0 * q >= 15.0 && 1.5 <= q + 0.3 * (q * s))
    requires bid > 2.0 ==> q > 1.5 && 2.5 <= q + 0.3 * (q * s)
    ensures -short + Max(1.0, bid) <= m + 1.0
  {
    if bid > 1.0 {
      if q > 1.5 { SafeLimitIsOne(m, q); } else { ShortRoom(m, q, s, short, 1.5, 1.0); }
      if bid > 2.0 { ShortRoom(m, q, s, short, 2.5, 2.0); }
    }
  }

  lemma ShrinkClose(q: real, s: real)
    ensures Shrink(q, s) <= q - 0.8 * (q * s) + 0.5
  {
    ShrinkValue(q, s);
  }

  lemma GrowClose(q: real, s: real)
    ensures Grow(q, s) <= q + 0.3 * (q * s) + 0.5
  {
    GrowValue(q, s);
  }

  /** What is known of a skewed bid for a long position, and for a short one. */
  ghost predicate LongBid(q: real, s: real, bid: real) {
    if q <= 1.0 then bid <= 1.0
    else if q < 2.5 then bid <= 2.0 && (bid > 1.0 ==> q > 1.5 && 1.5 <= q - 0.8 * (q * s))
    else bid <= q - 0.8 * (q * s) + 0.5
  }

  ghost predicate ShortBid(q: real, s: real, bid: real) {
    if q <= 1.0 then bid <= 1.0
    else if q < 2.5 then
      && bid <= 3.0 && (bid > 1.0 ==> 13.0 * q >= 15.0 && 1.5 <= q + 0.3 * (q * s))
      && (bid > 2.0 ==> q > 1.5 && 2.5 <= q + 0.3 * (q * s))
    else bid <= q + 0.3 * (q * s) + 0.5
  }

  lemma SkewedBids(q: real, s: real)
    requires 0.0 <= q && 0.0 < s <= 1.0
    ensures LongBid(q, s, Shrink(q, s)) && ShortBid(q, s, Grow(q, s))
  {
    if q <= 1.0 {
      SmallSizesQuoteOne(q, s);
    } else if q < 2.5 {
      ShrinkLevels(q, s);
      GrowLevels(q, s);
    } else {
      ShrinkClose(q, s);
      GrowClose(q, s);
    }
  }

  lemma LongFits(net: real, m: real, q: real, s: real, bid: real)
    requires 0.0 < m && 0.0 <= q && 0.0 < s <= 1.0 && m * s == net < m && SafeFor(q, m) && LongBid(q, s, bid)
    ensures net + Max(1.0, bid) <= m + Max(1.0, 0.2 * q + 0.5)
  {
    if 1.0 < q < 2.5 {
      SmallLongFits(net, m, q, s, bid);
    } else if q >= 2.5 {
      LargeLongFits(net, m, q, s, bid);
    }
  }

  lemma ShortFits(short: real, m: real, q: real, s: real, bid: real)
    requires 0.0 < m && 0.0 <= q && 0.0 < s <= 1.0 && m * s <= short && 0.0 < short
    requires SafeFor(q, m) && ShortBid(q, s, bid)
    ensures -short + Max(1.0, bid) <= m + Max(1.0, 0.2 * q + 0.5)
  {
    if 1.0 < q < 2.5 {
      SmallShortFits(m, q, s, short, bid);
    } else if q >= 2.5 {
      LargeShortFits(short, m, q, s, bid);
    }
  }

  lemma LongQuoteFits(net: real, m: real, q: real, s: real)
    requires 0.0 < m && 0.0 <= q && 0.0 < s <= 1.0 && m * s == net < m && SafeFor(q, m)
    ensures net + Max(1.0, Shrink(q, s)) <= m + Max(1.0, 0.2 * q + 0.5)
  {
    SkewedBids(q, s);
    LongFits(net, m, q, s, Shrink(q, s));
  }

  lemma ShortQuoteFits(short: real, m: real, q: real, s: real)
    requires 0.0 < m && 0.0 <= q && 0.0 < s <= 1.0 && m * s <= short && 0.0 < short && SafeFor(q, m)
    ensures -short + Max(1.0, Grow(q, s)) <= m + Max(1.0, 0.2 * q + 0.5)
  {
    SkewedBids(q, s);
    ShortFits(short, m, q, s, Grow(q, s));
  }

  lemma LongBidFits(c: Config, net: real)
    requires Sensible(c) && SafeSize(c) && 0.0 < net < c.maxInventory
    ensures net + Max(1.0, Shrink(c.quoteSize, Skew(c, net))) <= Bound(c)
  {
    SkewTimesLimit(c, net);
    LongQuoteFits(net, c.maxInventory, c.quoteSize, Skew(c, net));
  }

  lemma ShortBidFits(c: Config, net: real)
    requires Sensible(c) && SafeSize(c) && net < 0.0
    ensures net + Max(1.0, Grow(c.quoteSize, Skew(c, net))) <= Bound(c)
  {
    SkewTimesLimit(c, net);
    ShortQuoteFits(-net, c.maxInventory, c.quoteSize, Skew(c, net));
  }

  /** The bid at a flat position. */
  lemma FlatBidFits(c: Config)
    requires Sensible(c) && SafeSize(c)
    ensures Max(1.0, c.quoteSize) <= Bound(c)
  {
    var m, q := c.maxInventory, c.quoteSize;
    if 1.5 < q < 2.5 {
      SafeLimitIsOne(m, q);
    } else if 15.0 <= 13.0 * q <= 19.5 {
      FlatBidRoom(m, q);
    }
  }

  lemma FlatBidRoom(m: real, q: real)
    requires 0.0 < m && 15.0 <= 13.0 * q <= 19.5 && 0.3 * q <= m * (1.5 - 0.7 * q)
    ensures q - 1.0 <= m
  {
    LargerFactor(0.3 * q, m, 1.5 - 0.7 * q, 0.7);
  }

  lemma LargerFactor(a: real, m: real, k: real, k': real)
    requires 0.0 < m && k <= k' && a <= m * k
    ensures a <= m * k'
  {
    ScaleMonotone(k, k', m);
  }

  /** Filling the whole bid from inside the bound stays inside the bound. */
  lemma FullBidStaysBounded(c: Config, net: real)
    requires Sensible(c) && SafeSize(c) && net <= Bound(c)
    ensures 0.0 <= BidSize(c, net) && net + BidSize(c, net) <= Bound(c)
  {
    if net < c.maxInventory {
      if net > 0.0 {
        LongBidFits(c, net);
      } else if net < 0.0 {
        ShortBidFits(c, net);
      } else {
        FlatBidFits(c);
      }
    }
  }

  // --------------------------------------------------------------------- runs

  /** The position and the quote that is out together stay within the bound. */
  ghost predicate Contained(c: Config, d: Desk) {
    && 0.0 <= d.bidLeft && 0.0 <= d.askLeft
    && -Bound(c) <= d.position.net - d.askLeft && d.position.net + d.bidLeft <= Bound(c)
    && d.position.net == d.position.bought - d.position.sold
  }

  /** A quote changes no position; what is out afterwards are the sizes for the position, or nothing. */
  lemma PostedSizes(c: Config, d: Desk, a: Action)
    requires c.maxInventory != 0.0 && a.PostQuote?
    ensures var d' := Act(c, d, a);
            && d'.position == d.position.(paused := d'.position.paused)
            && d'.bidLeft == (if Quotes(c, a.organicSpreadBps) then BidSize(c, d.position.net) else 0.0)
            && d'.askLeft == (if Quotes(c, a.organicSpreadBps) then AskSize(c, d.position.net) else 0.0)
  {
  }

  lemma ActStaysContained(c: Config, d: Desk, a: Action)
    requires Sensible(c) && SafeSize(c) && Contained(c, d) && Admissible(d, a)
    ensures Contained(c, Act(c, d, a))
  {
    if a.PostQuote? {
      PostedSizes(c, d, a);
      FullBidStaysBounded(c, d.position.net);
      AskMirrorsBid(c, d.position.net);
      FullBidStaysBounded(c, -d.position.net);
    }
  }

  /**
   Over any run of quotes and fills, however long, the position stays within the bound at every moment, as long as
   nobody fills more than was quoted and the size is safe for the limit.
   */
  lemma {:induction false} InventoryStaysBounded(c: Config, d: Desk, actions: seq<Action>)
    requires Sensible(c) && SafeSize(c) && Contained(c, d) && WithinQuotes(c, d, actions)
    ensures Contained(c, ActAll(c, d, actions)) && Abs(ActAll(c, d, actions).position.net) <= Bound(c)
    decreases |actions|
  {
    if actions != [] {
      ActStaysContained(c, d, actions[0]);
      InventoryStaysBounded(c, Act(c, d, actions[0]), actions[1..]);
    }
  }

  lemma ProductsMonotone(a: real, a': real, b: real, b': real)
    requires 0.0 <= a <= a' && 0.0 <= b <= b'
    ensures a * b <= a' * b'
  {
    ScaleMonotone(b, b', a);
    ScaleMonotone(a, a', b');
  }

  /** A quote size of at most 5/4 of the limit is safe. */
  lemma RatioIsSafe(q: real, m: real)
    requires 0.0 <= q && 0.8 * q <= m
    ensures SafeFor(q, m)
  {
    if 1.0 < q <= 1.5 {
      ProductsMonotone(0.8 * q, m, 0.375, 1.5 - 0.7 * q);
    } else if 1.5 < q < 2.5 {
      ProductsMonotone(0.8 * q, m, 1.0, 1.5 - 0.2 * q);
    }
  }

  /** From a new desk, with 0.8 * quote_size <= max_inventory. */
  lemma InventoryBound(c: Config, actions: seq<Action>)
    requires Sensible(c) && 0.8 * c.quoteSize <= c.maxInventory && WithinQuotes(c, NEW_DESK, actions)
    ensures Abs(ActAll(c, NEW_DESK, actions).position.net) <= c.maxInventory + Max(1.0, 0.2 * c.quoteSize + 0.5)
  {
    RatioIsSafe(c.quoteSize, c.maxInventory);
    InventoryStaysBounded(c, NEW_DESK, actions);
  }

  // ------------------------------------------------------- the bound is exact

  lemma RoundsUpTie(x: real)
    requires 1.5 <= x < 2.5
    ensures RoundHalfEven(x) == 2
  {
  }

  lemma ShortOvershoots(m: real, q: real, s: real, v: real)
    requires 0.0 < m && 0.0 < q && 0.3 * q > m * (1.5 - 0.7 * q) && 0.3 * v == 1.5 - q && q * s == v
    ensures m + m * s < 1.0
  {
    var a, b := q * m, q * (m * s);
    ProductsCommute(q, m, s);
    assert 0.3 * b == 1.5 * m - a by {
      ProductsCommute(0.3, m, v);
      Distribute(m, 1.5, q);
    }
    assert 0.3 * q > 1.5 * m - 0.7 * a by { Distribute(m, 1.5, 0.7 * q); }
    Distribute(q, m, m * s);
    if m + m * s >= 1.0 { ScaleMonotone(1.0, m + m * s, q); }
  }

  lemma GrowsToTwo(q: real, s: real, v: real)
    requires q + 0.3 * v == 1.5 && q * s == v
    ensures Grow(q, s) == 2.0
  {
    GrowValue(q, s);
    RoundsUpTie(q + 0.3 * v);
  }

  /** Up to 1.5: a short position at which the grown bid rounds to two. */
  lemma UnsafeShort(m: real, q: real) returns (s: real)
    requires 0.0 < m && 15.0 <= 13.0 * q < 19.5 && 0.3 * q > m * (1.5 - 0.7 * q)
    ensures 0.0 < s <= 1.0 && m + m * s < 1.0 && Grow(q, s) == 2.0
  {
    var v := (1.5 - q) / 0.3;
    s := v / q;
    DivideBack(v, q);
    if s <= 0.0 { ScaleMonotone(s, 0.0, q); }
    if s > 1.0 { CancelFactor(1.0, s, q); }
    ShortOvershoots(m, q, s, v);
    GrowsToTwo(q, s, v);
  }

  /** At 1.5: any small short position grows the bid to two. */
  lemma UnsafeShortAtTie(m: real) returns (s: real)
    requires 0.0 < m < 1.0
    ensures 0.0 < s <= 1.0 && m + m * s < 1.0 && Grow(1.5, s) == 2.0
  {
    s := (1.0 - m) / 2.0;
    CancelFactor(m, 1.0, s);
    GrowValue(1.5, s);
    RoundsUpTie(1.5 + 0.3 * (1.5 * s));
  }

  lemma LongOvershoots(m: real, q: real, s: real, v: real)
    requires 0.0 < m && 1.5 < q < 2.5 && 0.8 * q > m * (1.5 - 0.2 * q) && 0.8 * v == q - 1.5 && q * s == v
    ensures m - m * s < 1.0
  {
    var a, b := q * m, q * (m * s);
    ProductsCommute(q, m, s);
    assert 0.8 * b == a - 1.5 * m by {
      ProductsCommute(0.8, m, v);
      Distribute(m, q, 1.5);
    }
    assert 0.8 * q > 1.5 * m - 0.2 * a by { Distribute(m, 1.5, 0.2 * q); }
    Distribute(q, m, m * s);
    if m - m * s >= 1.0 { ScaleMonotone(1.0, m - m * s, q); }
  }

  /** From 1.5 to 2.5: a long position at which the shrunk bid still rounds to two. */
  lemma UnsafeLong(m: real, q: real) returns (s: real)
    requires 0.0 < m && 1.5 < q < 2.5 && 0.8 * q > m * (1.5 - 0.2 * q)
    ensures 0.0 < s < 1.0 && m - m * s < 1.0 && m * s <= 1.0 && Shrink(q, s) == 2.0
  {
    var v := (q - 1.5) / 0.8;
    s := SkewFor(q, v);
    LongOvershoots(m, q, s, v);
    if s > 0.5 { CancelFactor(0.5, s, q); }
    ScaleMonotone(s, 0.5, m);
    ShrinksToTwo(q, s, v);
  }

  lemma ShrinksToTwo(q: real, s: real, v: real)
    requires q - 0.8 * v == 1.5 && q * s == v
    ensures Shrink(q, s) == 2.0
  {
    ShrinkValue(q, s);
    RoundsUpTie(q - 0.8 * v);
  }

  /** The largest whole number the size rounds to when it shrinks by almost nothing. */
  function JustBelow(q: real): int {
    -((0.5 - q).Floor)
  }

  lemma JustBelowBounds(q: real)
    ensures JustBelow(q) as real - 0.5 < q <= JustBelow(q) as real + 0.5
  {
  }

  lemma StepIsSmall(m: real, gap: real, e: real)
    requires 0.0 < m && 0.0 < gap && e <= gap / (2.0 * m)
    ensures m * e <= gap / 2.0 && 0.0 < gap / (2.0 * m)
  {
    var t := gap / (2.0 * m);
    DivideBack(gap, 2.0 * m);
    assert (2.0 * m) * t == gap;
    if t <= 0.0 { ScaleMonotone(t, 0.0, 2.0 * m); }
    ScaleMonotone(e, t, m);
    assert (2.0 * m) * t == 2.0 * (m * t);
  }

  lemma LargeOvershoots(m: real, q: real, s: real, n: real, g: real, v: real, e: real)
    requires 0.0 < m < 0.8 * q && 2.5 <= q && g == q - (n - 0.5) <= 1.0 && v == g / 0.8 - e && q * s == v
    requires m * e <= (0.8 * q - m) / 2.0
    ensures m * s + n > m + (0.2 * q + 0.5)
  {
    var d, gap := 0.8 * q - g, 0.8 * q - m;
    ProductsCommute(q, m, s);
    assert q * (m * s) == m * v;
    assert m * v == q * m - (m * (d / 0.8) + m * e) by {
      assert v == q - (d / 0.8 + e);
      Distribute(m, q, d / 0.8 + e);
      Distribute(m, d / 0.8, e);
    }
    assert m * (d / 0.8) == q * d - (d / 0.8) * gap by {
      Distribute(d / 0.8, 0.8 * q, m);
      assert (d / 0.8) * (0.8 * q) == q * d;
    }
    ScaleMonotone(1.0, d / 0.8, gap);
    assert q * (m * s) > q * m - q * d;
    Distribute(q, m, d);
    if m * s <= m - d { ScaleMonotone(m * s, m - d, q); }
  }

  lemma PartStaysSmall(m: real, q: real, s: real, v: real)
    requires 0.0 < s && m < 0.8 * q && q * s == v <= 1.25
    ensures m * s <= 1.0
  {
    ScaleMonotone(m, 0.8 * q, s);
    assert s * (0.8 * q) == 0.8 * (q * s);
  }

  /** From 2.5 up: a long position just before the bid rounds down, filled with one whole bid. */
  lemma UnsafeLarge(m: real, q: real) returns (s: real)
    requires 0.0 < m < 0.8 * q && 2.5 <= q
    ensures 0.0 < s < 1.0 && m * s <= 1.0 && Shrink(q, s) >= 1.0
    ensures m * s + Shrink(q, s) > m + (0.2 * q + 0.5)
  {
    var n := JustBelow(q) as real;
    JustBelowBounds(q);
    var g, gap := q - (n - 0.5), 0.8 * q - m;
    var e := Min(g / 1.6, gap / (2.0 * m));
    var v := g / 0.8 - e;
    StepIsSmall(m, gap, e);
    s := SkewFor(q, v);
    ShrinkValue(q, s);
    RoundsTo(q - 0.8 * v, JustBelow(q));
    PartStaysSmall(m, q, s, v);
    LargeOvershoots(m, q, s, n, g, v, e);
  }

  /** For every size that is not safe there is a position within the first quote from which a whole bid overshoots. */
  lemma UnsafePosition(c: Config) returns (net: real)
    requires Sensible(c) && !SafeSize(c)
    ensures Abs(net) <= Max(1.0, c.quoteSize) && net + BidSize(c, net) > Bound(c)
  {
    var m, q := c.maxInventory, c.quoteSize;
    if 13.0 * q < 15.0 {
      net := 0.0;
    } else if q < 1.5 {
      var s := UnsafeShort(m, q);
      net := UnsafeShortPosition(c, s);
    } else if q == 1.5 {
      var s := UnsafeShortAtTie(m);
      net := UnsafeShortPosition(c, s);
    } else if q < 2.5 {
      var s := UnsafeLong(m, q);
      net := UnsafeLongPosition(c, s);
    } else {
      var s := UnsafeLarge(m, q);
      net := UnsafeLongPosition(c, s);
    }
  }

  lemma UnsafeShortPosition(c: Config, s: real) returns (net: real)
    requires Sensible(c) && c.quoteSize < 2.5 && 0.0 < s <= 1.0
    requires c.maxInventory + c.maxInventory * s < 1.0 && Grow(c.quoteSize, s) == 2.0
    ensures Abs(net) <= 1.0 && net + BidSize(c, net) > Bound(c)
  {
    net := -(c.maxInventory * s);
    BidAtPart(c, s);
    CancelFactor(0.0, s, c.maxInventory);
  }

  lemma UnsafeLongPosition(c: Config, s: real) returns (net: real)
    requires Sensible(c) && 0.0 < s < 1.0 && c.maxInventory * s <= 1.0 && Shrink(c.quoteSize, s) >= 1.0
    requires c.maxInventory * s + Shrink(c.quoteSize, s) > Bound(c)
    ensures Abs(net) <= 1.0 && net + BidSize(c, net) > Bound(c)
  {
    net := c.maxInventory * s;
    BidAtPart(c, s);
    CancelFactor(0.0, s, c.maxInventory);
  }

  lemma RunUnfolds(c: Config, d: Desk, a: Action, rest: seq<Action>)
    ensures ActAll(c, d, [a] + rest) == ActAll(c, Act(c, d, a), rest)
    ensures WithinQuotes(c, d, [a] + rest) <==> Admissible(d, a) && WithinQuotes(c, Act(c, d, a), rest)
  {
    assert ([a] + rest)[1..] == rest;
  }

  /** What is asked of a run: if it fills no more than was quoted, the position ends within the bound. */
  ghost predicate KeepsBound(c: Config, run: seq<Action>) {
    WithinQuotes(c, NEW_DESK, run) ==> Abs(ActAll(c, NEW_DESK, run).position.net) <= Bound(c)
  }

  /** Quote, take the position, quote again, and fill the whole bid. */
  lemma Overshoots(c: Config, net: real)
    requires Sensible(c) && c.enabled && Abs(net) <= Max(1.0, c.quoteSize) && net + BidSize(c, net) > Bound(c)
    ensures exists run :: !KeepsBound(c, run)
  {
    var post, take, fill := PostQuote(None, None), Fill(net >= 0.0, Abs(net)), Fill(true, BidSize(c, net));
    var d1 := Act(c, NEW_DESK, post);
    var d2 := Act(c, d1, take);
    var d3 := Act(c, d2, post);
    PostedSizes(c, NEW_DESK, post);
    assert d2.position.net == net;
    PostedSizes(c, d2, post);
    RunUnfolds(c, NEW_DESK, post, [take] + ([post] + ([fill] + [])));
    RunUnfolds(c, d1, take, [post] + ([fill] + []));
    RunUnfolds(c, d2, post, [fill] + []);
    RunUnfolds(c, d3, fill, []);
    assert !KeepsBound(c, [post] + ([take] + ([post] + ([fill] + []))));
  }

  /**
   No run exceeds the bound exactly when the quote size is safe for the inventory limit. For sizes of 2.5 and more
   that is 0.8 * quote_size <= max_inventory.
   */
  lemma BoundHoldsExactly(c: Config)
    requires Sensible(c) && c.enabled
    ensures (forall run :: KeepsBound(c, run)) <==> SafeSize(c)
  {
    if SafeSize(c) {
      forall run ensures KeepsBound(c, run) {
        if WithinQuotes(c, NEW_DESK, run) { InventoryStaysBounded(c, NEW_DESK, run); }
      }
    } else {
      var net := UnsafePosition(c);
      Overshoots(c, net);
    }
  }
}
