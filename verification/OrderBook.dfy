/**
 Depth of the order book. The book is built by one pass that adds each resting order to the level of its
 price, then shows the five best prices; the quote is computed separately, straight from the orders.
 */
module OrderBook {
  import opened Wrappers
  import opened Sorting
  import opened MarketProtocol
  import opened TradingRules

  datatype Level = Level(quantity: int, count: nat)
  datatype DepthLevel = DepthLevel(price: int, level: Level)

  const DEPTH := 5

  /** Orders that make up one side of one outcome's book. */
  predicate Resting(o: Order, outcomeId: Id, side: Side) {
    o.outcomeId == outcomeId && o.side == side && (o.status == OrderOpen || o.status == PartiallyFilled)
  }

  function Add(l: Level, o: Order): Level {
    Level(l.quantity + o.remaining, l.count + 1)
  }

  /** The resting orders at one price, added up. */
  function LevelAt(os: seq<Order>, outcomeId: Id, side: Side, price: int): Level {
    if os == [] then Level(0, 0)
    else
      var o := os[|os| - 1];
      var before := LevelAt(os[..|os| - 1], outcomeId, side, price);
      if Resting(o, outcomeId, side) && o.price == price then Add(before, o) else before
  }

  function Prices(os: seq<Order>, outcomeId: Id, side: Side): set<int> {
    set i | 0 <= i < |os| && Resting(os[i], outcomeId, side) :: os[i].price
  }

  /** The quote's resting quantity: a sum over the side, whatever the prices. */
  function RestingTotal(os: seq<Order>, outcomeId: Id, side: Side): Level {
    if os == [] then Level(0, 0)
    else
      var before := RestingTotal(os[..|os| - 1], outcomeId, side);
      if Resting(os[|os| - 1], outcomeId, side) then Add(before, os[|os| - 1]) else before
  }

  /** max(bids) for the buy side, min(asks) for the sell side. */
  function BestPrice(os: seq<Order>, outcomeId: Id, side: Side): (r: Option<int>)
    ensures r.None? <==> Prices(os, outcomeId, side) == {}
    ensures r.Some? ==> r.value in Prices(os, outcomeId, side)
    ensures r.Some? ==>
              forall p :: p in Prices(os, outcomeId, side) ==> if side == Buy then p <= r.value else r.value <= p
  {
    if os == [] then None
    else
      var o := os[|os| - 1];
      var best := BestPrice(os[..|os| - 1], outcomeId, side);
      assert Prices(os, outcomeId, side)
             == Prices(os[..|os| - 1], outcomeId, side) + if Resting(o, outcomeId, side) then {o.price} else {} by {
        PricesOfPrefix(os, outcomeId, side);
      }
      if !Resting(o, outcomeId, side) then best
      else if best.None? || (if side == Buy then best.value < o.price else o.price < best.value) then Some(o.price)
      else best
  }

  lemma PricesOfPrefix(os: seq<Order>, outcomeId: Id, side: Side)
    requires os != []
    ensures var o := os[|os| - 1];
            Prices(os, outcomeId, side)
            == Prices(os[..|os| - 1], outcomeId, side) + if Resting(o, outcomeId, side) then {o.price} else {}
  {
    var prefix := os[..|os| - 1];
    forall p | p in Prices(os, outcomeId, side)
      ensures p in Prices(prefix, outcomeId, side) || (Resting(os[|os| - 1], outcomeId, side)
              && p == os[|os| - 1].price)
    {
      var i :| 0 <= i < |os| && Resting(os[i], outcomeId, side) && os[i].price == p;
      if i < |prefix| { assert prefix[i] == os[i]; }
    }
    forall p | p in Prices(prefix, outcomeId, side) ensures p in Prices(os, outcomeId, side) {
      var i :| 0 <= i < |prefix| && Resting(prefix[i], outcomeId, side) && prefix[i].price == p;
      assert os[i] == prefix[i];
    }
  }

  /** Every level of the side, best price first. */
  function FullDepth(os: seq<Order>, outcomeId: Id, side: Side): seq<DepthLevel> {
    Levels(os, outcomeId, side, SortedBy(Prices(os, outcomeId, side), side == Buy))
  }

  function Levels(os: seq<Order>, outcomeId: Id, side: Side, prices: seq<int>): seq<DepthLevel> {
    seq(|prices|, i requires 0 <= i < |prices| => DepthLevel(prices[i], LevelAt(os, outcomeId, side, prices[i])))
  }

  function Shown<T>(s: seq<T>): seq<T> {
    if |s| <= DEPTH then s else s[..DEPTH]
  }

  /** The levels that are not shown. */
  function Hidden<T>(s: seq<T>): seq<T> {
    if |s| <= DEPTH then [] else s[DEPTH..]
  }

  /** The dictionary pass of build_levels. */
  method Aggregate(orders: seq<Order>, outcomeId: Id, side: Side) returns (levels: map<int, Level>)
    ensures levels.Keys == Prices(orders, outcomeId, side)
    ensures forall p :: p in levels ==> levels[p] == LevelAt(orders, outcomeId, side, p)
  {
    levels := map[];
    for n := 0 to |orders|
      invariant levels.Keys == Prices(orders[..n], outcomeId, side)
      invariant forall p :: p in levels ==> levels[p] == LevelAt(orders[..n], outcomeId, side, p)
    {
      var o := orders[n];
      var seen := orders[..n + 1];
      assert seen[..n] == orders[..n] && seen[n] == o;
      PricesOfPrefix(seen, outcomeId, side);
      if Resting(o, outcomeId, side) {
        if o.price !in levels {
          NoLevelYet(orders[..n], outcomeId, side, o.price);
          levels := levels[o.price := Level(0, 0)];
        }
        levels := levels[o.price := Add(levels[o.price], o)];
      }
    }
    assert orders[..|orders|] == orders;
  }

  /** The list comprehension of build_levels over the prices to show. */
  method ReadLevels(levels: map<int, Level>, prices: seq<int>) returns (depth: seq<DepthLevel>)
    requires forall i :: 0 <= i < |prices| ==> prices[i] in levels
    ensures |depth| == |prices|
    ensures forall i :: 0 <= i < |prices| ==> depth[i] == DepthLevel(prices[i], levels[prices[i]])
  {
    depth := [];
    for i := 0 to |prices|
      invariant |depth| == i
      invariant forall j :: 0 <= j < i ==> depth[j] == DepthLevel(prices[j], levels[prices[j]])
    {
      depth := depth + [DepthLevel(prices[i], levels[prices[i]])];
    }
  }

  /** build_levels: the dictionary pass, the sort, and the first five levels. */
  method BuildLevels(orders: seq<Order>, outcomeId: Id, side: Side) returns (depth: seq<DepthLevel>)
    ensures depth == Shown(FullDepth(orders, outcomeId, side))
    ensures depth <= FullDepth(orders, outcomeId, side) && |depth| <= 5
    ensures |depth| < 5 ==> depth == FullDepth(orders, outcomeId, side)
  {
    var levels := Aggregate(orders, outcomeId, side);
    var prices := SortedBy(levels.Keys, side == Buy);
    assert forall i :: 0 <= i < |prices| ==> prices[i] in prices;
    depth := ReadLevels(levels, Shown(prices));
    ghost var full := FullDepth(orders, outcomeId, side);
    forall i | 0 <= i < |depth| ensures depth[i] == full[i] {
      assert prices[i] in levels;
    }
  }

  lemma {:induction false} NoLevelYet(os: seq<Order>, outcomeId: Id, side: Side, price: int)
    requires price !in Prices(os, outcomeId, side)
    ensures LevelAt(os, outcomeId, side, price) == Level(0, 0)
  {
    if os != [] {
      PricesOfPrefix(os, outcomeId, side);
      NoLevelYet(os[..|os| - 1], outcomeId, side, price);
    }
  }

  // -------------------------------------------------------------- properties

  ghost predicate BetterAt(depth: seq<DepthLevel>, side: Side, i: int, j: int) {
    0 <= i < j < |depth| ==> if side == Buy then depth[i].price > depth[j].price else depth[i].price < depth[j].price
  }

  /** Strictly falling bids, strictly rising asks. */
  ghost predicate InPriceOrder(depth: seq<DepthLevel>, side: Side) {
    forall i, j :: BetterAt(depth, side, i, j)
  }

  lemma DepthIsOrdered(os: seq<Order>, outcomeId: Id, side: Side)
    ensures var full := FullDepth(os, outcomeId, side);
            && InPriceOrder(full, side)
            && (forall p :: p in Prices(os, outcomeId, side) <==> exists i :: 0 <= i < |full| && full[i].price == p)
  {
    var prices := SortedBy(Prices(os, outcomeId, side), side == Buy);
    var full := FullDepth(os, outcomeId, side);
    assert |full| == |prices| && forall i :: 0 <= i < |prices| ==> full[i].price == prices[i];
    forall i, j ensures BetterAt(full, side, i, j) {
      assert if side == Buy then Above(prices, i, j) else Below(prices, i, j);
    }
    forall p ensures p in Prices(os, outcomeId, side) <==> exists i :: 0 <= i < |full| && full[i].price == p {
      assert p in prices <==> exists i :: 0 <= i < |prices| && prices[i] == p;
    }
  }

  lemma TopIsBest(os: seq<Order>, outcomeId: Id, side: Side)
    ensures var full := FullDepth(os, outcomeId, side);
            && (full == [] <==> BestPrice(os, outcomeId, side).None?)
            && (full != [] ==> BestPrice(os, outcomeId, side) == Some(full[0].price))
  {
    var full, best := FullDepth(os, outcomeId, side), BestPrice(os, outcomeId, side);
    DepthIsOrdered(os, outcomeId, side);
    if best.Some? {
      assert best.value in Prices(os, outcomeId, side);
      var i :| 0 <= i < |full| && full[i].price == best.value;
      assert BetterAt(full, side, 0, i);
      assert full[0].price in Prices(os, outcomeId, side);
    }
    if full != [] {
      assert full[0].price in Prices(os, outcomeId, side);
    }
  }

  /** The shown levels are the best ones in strict price order, and the top one is the quote's best price. */
  lemma BookAgreesWithQuote(os: seq<Order>, outcomeId: Id, side: Side)
    ensures var book := Shown(FullDepth(os, outcomeId, side));
            && book <= FullDepth(os, outcomeId, side)
            && |book| <= 5 && (|book| < 5 ==> book == FullDepth(os, outcomeId, side))
            && InPriceOrder(book, side)
            && (book == [] <==> BestPrice(os, outcomeId, side).None?)
            && (book != [] ==> BestPrice(os, outcomeId, side) == Some(book[0].price))
  {
    DepthIsOrdered(os, outcomeId, side);
    TopIsBest(os, outcomeId, side);
    var full := FullDepth(os, outcomeId, side);
    forall i, j ensures BetterAt(Shown(full), side, i, j) { assert BetterAt(full, side, i, j); }
  }

  /** Every level holds at least one order. */
  lemma LevelsAreOccupied(os: seq<Order>, outcomeId: Id, side: Side, i: nat)
    requires i < |FullDepth(os, outcomeId, side)|
    ensures FullDepth(os, outcomeId, side)[i].level.count > 0
  {
    DepthIsOrdered(os, outcomeId, side);
    LevelIsOccupied(os, outcomeId, side, FullDepth(os, outcomeId, side)[i].price);
  }

  lemma {:induction false} LevelIsOccupied(os: seq<Order>, outcomeId: Id, side: Side, price: int)
    requires price in Prices(os, outcomeId, side)
    ensures LevelAt(os, outcomeId, side, price).count > 0
  {
    PricesOfPrefix(os, outcomeId, side);
    if price in Prices(os[..|os| - 1], outcomeId, side) {
      LevelIsOccupied(os[..|os| - 1], outcomeId, side, price);
    }
  }

  function Sum(depth: seq<DepthLevel>): Level {
    if depth == [] then Level(0, 0)
    else
      var rest := Sum(depth[1..]);
      Level(depth[0].level.quantity + rest.quantity, depth[0].level.count + rest.count)
  }

  ghost predicate Together(total: Level, a: Level, b: Level) {
    total.quantity == a.quantity + b.quantity && total.count == a.count + b.count
  }

  ghost predicate Distinct(prices: seq<int>) {
    forall i, j :: 0 <= i < j < |prices| ==> prices[i] != prices[j]
  }

  /** One more order adds to the sum of the levels exactly when its price is one of theirs. */
  lemma {:induction false} SumWithOneMore(os: seq<Order>, outcomeId: Id, side: Side, prices: seq<int>)
    requires os != [] && Distinct(prices)
    ensures var o := os[|os| - 1];
            var before := Sum(Levels(os[..|os| - 1], outcomeId, side, prices));
            Sum(Levels(os, outcomeId, side, prices))
            == if Resting(o, outcomeId, side) && o.price in prices then Add(before, o) else before
  {
    if prices != [] {
      SumWithOneMore(os, outcomeId, side, prices[1..]);
      assert Levels(os, outcomeId, side, prices)[1..] == Levels(os, outcomeId, side, prices[1..]);
      assert Levels(os[..|os| - 1], outcomeId, side, prices)[1..]
          == Levels(os[..|os| - 1], outcomeId, side, prices[1..]);
      assert prices == [prices[0]] + prices[1..];
    }
  }

  lemma {:induction false} EmptySum(outcomeId: Id, side: Side, prices: seq<int>)
    ensures Sum(Levels([], outcomeId, side, prices)) == Level(0, 0)
  {
    if prices != [] {
      EmptySum(outcomeId, side, prices[1..]);
      assert Levels([], outcomeId, side, prices)[1..] == Levels([], outcomeId, side, prices[1..]);
    }
  }

  lemma {:induction false} LevelsCoverSide(os: seq<Order>, outcomeId: Id, side: Side, prices: seq<int>)
    requires Distinct(prices) && forall p :: p in Prices(os, outcomeId, side) ==> p in prices
    ensures Sum(Levels(os, outcomeId, side, prices)) == RestingTotal(os, outcomeId, side)
  {
    if os == [] {
      EmptySum(outcomeId, side, prices);
    } else {
      PricesOfPrefix(os, outcomeId, side);
      LevelsCoverSide(os[..|os| - 1], outcomeId, side, prices);
      SumWithOneMore(os, outcomeId, side, prices);
    }
  }

  lemma {:induction false} SumSplits(depth: seq<DepthLevel>, n: nat)
    requires n <= |depth|
    ensures Together(Sum(depth), Sum(depth[..n]), Sum(depth[n..]))
  {
    var front, back := depth[..n], depth[n..];
    if n == 0 {
      assert back == depth;
    } else {
      var rest := depth[1..];
      SumSplits(rest, n - 1);
      assert front[1..] == rest[..n - 1] && rest[n - 1..] == back;
    }
  }

  lemma SumShownAndHidden(depth: seq<DepthLevel>)
    ensures Together(Sum(depth), Sum(Shown(depth)), Sum(Hidden(depth)))
  {
    if |depth| > DEPTH { SumSplits(depth, DEPTH); }
  }

  lemma FullDepthCoversSide(os: seq<Order>, outcomeId: Id, side: Side)
    ensures Sum(FullDepth(os, outcomeId, side)) == RestingTotal(os, outcomeId, side)
    ensures |FullDepth(os, outcomeId, side)| == |Prices(os, outcomeId, side)|
  {
    var prices := SortedBy(Prices(os, outcomeId, side), side == Buy);
    forall i, j | 0 <= i < j < |prices| ensures prices[i] != prices[j] {
      assert if side == Buy then Above(prices, i, j) else Below(prices, i, j);
    }
    LevelsCoverSide(os, outcomeId, side, prices);
  }

  /**
   Nothing is lost in the aggregation: all levels together hold the quote's resting quantity and every resting
   order once. The shown book misses exactly the levels beyond the fifth, so with at most five prices it is the quote's.
   */
  lemma BookConservesQuantity(os: seq<Order>, outcomeId: Id, side: Side)
    ensures var full, total := FullDepth(os, outcomeId, side), RestingTotal(os, outcomeId, side);
            && Sum(full) == total
            && Together(total, Sum(Shown(full)), Sum(Hidden(full)))
            && (|Prices(os, outcomeId, side)| <= 5 ==> Sum(Shown(full)) == total)
  {
    FullDepthCoversSide(os, outcomeId, side);
    SumShownAndHidden(FullDepth(os, outcomeId, side));
  }
}
