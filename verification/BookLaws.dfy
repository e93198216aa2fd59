/**
 Which orders the book and the quote are about, in terms of status, outcome and side, and how placing and cancelling
 orders shows in them.
 */
module BookLaws {
  import opened Wrappers
  import opened Decimals
  import opened MarketProtocol
  import opened TradingRules
  import opened OrderBook
  import Solvency
  import TradingLaws

  /** An open or partly filled order of one outcome and side. */
  ghost predicate Quoted(o: Order, outcomeId: Id, side: Side) {
    o.outcomeId == outcomeId && o.side == side && (o.status == OrderOpen || o.status == PartiallyFilled)
  }

  /** The price stands in the full depth. */
  ghost predicate HasLevel(os: seq<Order>, outcomeId: Id, side: Side, price: int) {
    exists k :: 0 <= k < |FullDepth(os, outcomeId, side)| && FullDepth(os, outcomeId, side)[k].price == price
  }

  /** Every open or partly filled order has a level at its price, and the best price is no worse. */
  lemma QuotedOrdersHaveLevels(os: seq<Order>, outcomeId: Id, side: Side, i: nat)
    requires i < |os| && Quoted(os[i], outcomeId, side)
    ensures HasLevel(os, outcomeId, side, os[i].price)
    ensures BestPrice(os, outcomeId, side).Some?
    ensures var best := BestPrice(os, outcomeId, side).value;
            if side == Buy then os[i].price <= best else best <= os[i].price
  {
    DepthIsOrdered(os, outcomeId, side);
    assert os[i].price in Prices(os, outcomeId, side);
  }

  /** And every level, and the best price, is the price of such an order. */
  lemma LevelsAreQuoted(os: seq<Order>, outcomeId: Id, side: Side, price: int)
    requires HasLevel(os, outcomeId, side, price) || BestPrice(os, outcomeId, side) == Some(price)
    ensures exists i :: 0 <= i < |os| && Quoted(os[i], outcomeId, side) && os[i].price == price
  {
    DepthIsOrdered(os, outcomeId, side);
    assert price in Prices(os, outcomeId, side);
    var i :| 0 <= i < |os| && Resting(os[i], outcomeId, side) && os[i].price == price;
    assert Quoted(os[i], outcomeId, side);
  }

  /** What one order counts for in a total. */
  ghost function Part(o: Order, outcomeId: Id, side: Side): Level {
    if Quoted(o, outcomeId, side) then Level(o.remaining, 1) else Level(0, 0)
  }

  /** And in the level of one price. */
  ghost function PartAt(o: Order, outcomeId: Id, side: Side, price: int): Level {
    if o.price == price then Part(o, outcomeId, side) else Level(0, 0)
  }

  /** Appending an order adds its remaining quantity and one order when it is quoted, and nothing otherwise. */
  lemma AppendedOrderCounts(os: seq<Order>, o: Order, outcomeId: Id, side: Side, price: int)
    ensures Together(RestingTotal(os + [o], outcomeId, side), RestingTotal(os, outcomeId, side),
                     Part(o, outcomeId, side))
    ensures Together(LevelAt(os + [o], outcomeId, side, price), LevelAt(os, outcomeId, side, price),
                     PartAt(o, outcomeId, side, price))
  {
    assert (os + [o])[..|os|] == os;
  }

  /** An order that is not quoted leaves the book, the quote's price and its quantity as they were. */
  lemma UnquotedOrdersChangeNothing(os: seq<Order>, o: Order, outcomeId: Id, side: Side)
    requires !Quoted(o, outcomeId, side)
    ensures FullDepth(os + [o], outcomeId, side) == FullDepth(os, outcomeId, side)
    ensures BestPrice(os + [o], outcomeId, side) == BestPrice(os, outcomeId, side)
    ensures RestingTotal(os + [o], outcomeId, side) == RestingTotal(os, outcomeId, side)
  {
    var more := os + [o];
    assert more[..|os|] == os;
    PricesOfPrefix(more, outcomeId, side);
    assert Prices(more, outcomeId, side) == Prices(os, outcomeId, side);
  }

  /** Replacing an order changes the totals by the difference of the two. */
  lemma {:induction false} ReplacedOrderCounts(os: seq<Order>, i: nat, o: Order, outcomeId: Id, side: Side, price: int)
    requires i < |os|
    ensures var part, part' := Part(os[i], outcomeId, side), Part(o, outcomeId, side);
            var before, after := RestingTotal(os, outcomeId, side), RestingTotal(os[i := o], outcomeId, side);
            && after.quantity + part.quantity == before.quantity + part'.quantity
            && after.count + part.count == before.count + part'.count
    ensures var part, part' := PartAt(os[i], outcomeId, side, price), PartAt(o, outcomeId, side, price);
            var before, after := LevelAt(os, outcomeId, side, price), LevelAt(os[i := o], outcomeId, side, price);
            && after.quantity + part.quantity == before.quantity + part'.quantity
            && after.count + part.count == before.count + part'.count
  {
    var front := os[..|os| - 1];
    if i == |os| - 1 {
      assert os[i := o][..|os| - 1] == front;
    } else {
      ReplacedOrderCounts(front, i, o, outcomeId, side, price);
      assert os[i := o][..|os| - 1] == front[i := o];
    }
  }

  /**
   An order that was accepted is in the book: at its price, with its quantity and once, on its own side of its own
   outcome, and nowhere else.
   */
  lemma PlacedOrderIsInBook(x: Exchange, slug: Slug, actor: Id, p: OrderRequest, outcomeId: Id, side: Side, price: int)
    requires Solvency.ValidExchange(x) && Solvency.Placed(x, slug, actor, p)
    ensures var os, os' := x.trading.orders, PlaceOrder(x.board, x.trading, slug, actor, p).0.orders;
            && |os'| == |os| + 1
            && var o := os'[|os|];
               var own := outcomeId == p.outcomeId && side == p.side;
               && (own ==> HasLevel(os', outcomeId, side, o.price))
               && Together(RestingTotal(os', outcomeId, side), RestingTotal(os, outcomeId, side),
                           if own then Level(o.quantity, 1) else Level(0, 0))
               && Together(LevelAt(os', outcomeId, side, price), LevelAt(os, outcomeId, side, price),
                           if own && price == o.price then Level(o.quantity, 1) else Level(0, 0))
               && (!own ==> FullDepth(os', outcomeId, side) == FullDepth(os, outcomeId, side))
  {
    var os, os' := x.trading.orders, PlaceOrder(x.board, x.trading, slug, actor, p).0.orders;
    TradingLaws.PlacedOrderIs(x, slug, actor, p);
    var o := os'[|os|];
    assert os' == os + [o];
    AppendedOrderCounts(os, o, outcomeId, side, price);
    if outcomeId == p.outcomeId && side == p.side {
      QuotedOrdersHaveLevels(os', outcomeId, side, |os|);
    } else {
      UnquotedOrdersChangeNothing(os, o, outcomeId, side);
    }
  }

  /** Cancelling takes exactly the cancelled order out: what it had left and one order, where it was quoted. */
  lemma CancelledOrderLeavesBook(x: Exchange, slug: Slug, orderId: Id, actor: Id, isAdmin: bool, i: nat,
                                 outcomeId: Id, side: Side, price: int)
    requires Solvency.ValidExchange(x) && TradingLaws.IsOrderOf(x, slug, orderId, i)
    requires CancelOrder(x.board, x.trading, slug, orderId, actor, isAdmin).1.Success?
    ensures var os, os' := x.trading.orders, CancelOrder(x.board, x.trading, slug, orderId, actor, isAdmin).0.orders;
            && Together(RestingTotal(os, outcomeId, side), RestingTotal(os', outcomeId, side),
                        Part(os[i], outcomeId, side))
            && Together(LevelAt(os, outcomeId, side, price), LevelAt(os', outcomeId, side, price),
                        PartAt(os[i], outcomeId, side, price))
  {
    TradingLaws.CancelAnswersExactly(x, slug, orderId, actor, isAdmin);
    var o := x.trading.orders[i];
    ReplacedOrderCounts(x.trading.orders, i, o.(status := OrderCancelled), outcomeId, side, price);
  }
}
