/**
 What each call of the trading repository answers and changes, field by field, and what a finalization releases. The
 statements name statuses, amounts and accounts themselves and not the functions that the calls are specified by.
 */
module TradingLaws {
  import opened Wrappers
  import opened Decimals
  import opened MarketProtocol
  import opened MarketInvariants
  import opened TradingRules
  import opened Solvency

  // -------------------------------------------------------------- one order

  /** An order reserves collateral exactly while it waits, is open or is partly filled, for its owner and its rail. */
  lemma ShareIsCollateral(b: Board, t: Trading, o: Order, actor: Id, rail: Rail)
    ensures Share(b, t, o, actor, rail) ==
            if && o.id in t.owners && t.owners[o.id] == actor
               && o.status in {PendingAcceptance, OrderOpen, PartiallyFilled}
               && exists k :: k in b.records && b.records[k].market.id == o.marketId && b.records[k].market.rail == rail
            then Value(o.remaining) * (if o.side == Buy then Value(o.price) else 1.0 - Value(o.price))
            else 0.0
  {
  }

  /** What is left is reserved: the value of a tick count is the count times 10^-8. */
  lemma ValueOfTicks(ticks: int)
    ensures Value(ticks) * 100000000.0 == ticks as real
  {
  }

  /** A placed order is open and unfilled, as requested up to half a tick, for the actor, under an id of its own. */
  lemma PlacedOrderIs(x: Exchange, slug: Slug, actor: Id, p: OrderRequest)
    requires ValidExchange(x) && Placed(x, slug, actor, p)
    ensures var t, t', n := x.trading, PlaceOrder(x.board, x.trading, slug, actor, p).0, |x.trading.orders|;
            var market := x.board.records[slug].market;
            && |t'.orders| == n + 1 && t'.orders[..n] == t.orders
            && PlaceOrder(x.board, x.trading, slug, actor, p).1 == Success(t'.orders[n])
            && (forall i :: 0 <= i < n ==> t.orders[i].id != t'.orders[n].id)
            && t'.owners == t.owners[t'.orders[n].id := actor]
            && var o := t'.orders[n];
               && o.marketId == market.id && o.outcomeId == p.outcomeId && o.side == p.side && o.status == OrderOpen
               && o.remaining == o.quantity
               && -0.5 <= o.quantity as real - p.quantity * 100000000.0 <= 0.5
               && -0.5 <= o.price as real - p.price.value * 100000000.0 <= 0.5
  {
    forall i | 0 <= i < |x.trading.orders| ensures x.trading.orders[i].id != x.trading.nextOrderId {
      assert SoundAt(x, i);
    }
  }

  lemma TicksAreClose(x: real)
    ensures -0.5 <= ToTicks(x) as real - x * 100000000.0 <= 0.5
    ensures ToTicks(x) % 2 == 1 ==> -0.5 < ToTicks(x) as real - x * 100000000.0 < 0.5
  {
  }

  lemma CostIs(side: Side, quantity: real, price: real)
    ensures var cost := quantity * (if side == Buy then price else 1.0 - price);
            -0.5 <= ToTicks(Collateral(side, quantity, price)) as real - cost * 100000000.0 <= 0.5
  {
    TicksAreClose(Collateral(side, quantity, price));
  }

  lemma CostIsStored(x: Exchange, slug: Slug, actor: Id, p: OrderRequest)
    requires Placed(x, slug, actor, p)
    ensures var t', n := PlaceOrder(x.board, x.trading, slug, actor, p).0, |x.trading.orders|;
            |t'.orders| == n + 1 && t'.orders[n].maxTotalCost == ToTicks(Collateral(p.side, p.quantity, p.price.value))
  {
  }

  /** The cost recorded with the order is the raw cost up to half a tick. */
  lemma PlacedCostIs(x: Exchange, slug: Slug, actor: Id, p: OrderRequest)
    requires Placed(x, slug, actor, p)
    ensures |PlaceOrder(x.board, x.trading, slug, actor, p).0.orders| == |x.trading.orders| + 1
    ensures var stored := PlaceOrder(x.board, x.trading, slug, actor, p).0.orders[|x.trading.orders|].maxTotalCost;
            var cost := p.quantity * (if p.side == Buy then p.price.value else 1.0 - p.price.value);
            -0.5 <= stored as real - cost * 100000000.0 <= 0.5
  {
    CostIsStored(x, slug, actor, p);
    CostIs(p.side, p.quantity, p.price.value);
  }

  // --------------------------------------------------------------- accounts

  /**
   A request that is acceptable opens the account it draws on, USDC on chain and AUD elsewhere, with 1000 when there is
   none; no request changes any other balance, and no balance that was there.
   */
  lemma RequestsOpenAccounts(x: Exchange, slug: Slug, actor: Id, p: OrderRequest)
    ensures var t, t' := x.trading, PlaceOrder(x.board, x.trading, slug, actor, p).0;
            if slug in x.board.records && Acceptable(x.board.records[slug].market, p)
            then
              var rail := x.board.records[slug].market.rail;
              var a := Account(actor, if rail == Onchain then USDC else AUD, rail);
              t'.balances == t.balances[a := if a in t.balances then t.balances[a] else 1000.0]
            else t' == t
  {
    if slug in x.board.records {
      var a := RailAccount(actor, x.board.records[slug].market.rail);
      assert a in x.trading.balances ==> x.trading.balances[a := x.trading.balances[a]] == x.trading.balances;
    }
  }

  /** What is available is the balance of the rail's account, 1000 before its first use, less the reserve. */
  lemma AvailableIs(b: Board, t: Trading, actor: Id, rail: Rail)
    ensures var a := Account(actor, if rail == Onchain then USDC else AUD, rail);
            Available(b, t, actor, rail) + Reserved(b, t, actor, rail)
            == if a in t.balances then t.balances[a] else 1000.0
  {
  }

  /** Funding adds to one balance, which starts from nothing and not from the seed. */
  lemma FundingAdds(t: Trading, a: Account, amount: real, other: Account)
    ensures var t' := FundBalance(t, a, amount);
            && a in t'.balances && t'.balances[a] == amount + (if a in t.balances then t.balances[a] else 0.0)
            && (other != a ==> (other in t'.balances <==> other in t.balances)
                               && (other in t.balances ==> t'.balances[other] == t.balances[other]))
            && t'.orders == t.orders && t'.owners == t.owners
  {
  }

  /** Reading a portfolio opens the profile's USDC account with 1000 exactly when it has no account at all. */
  lemma PortfolioOpensOneAccount(t: Trading, profile: Id)
    ensures OpenPortfolio(t, profile)
            == if exists a :: a in t.balances && a.profile == profile then t
               else t.(balances := t.balances[Account(profile, USDC, Onchain) := 1000.0])
  {
    assert Account(profile, USDC, Onchain).profile == profile;
  }

  // ----------------------------------------------------------------- cancel

  /** The order with this id in the market listed under the slug. */
  ghost predicate IsOrderOf(x: Exchange, slug: Slug, orderId: Id, i: int) {
    && slug in x.board.records && 0 <= i < |x.trading.orders|
    && x.trading.orders[i].id == orderId && x.trading.orders[i].marketId == x.board.records[slug].market.id
  }

  /** The answer to cancelling the i-th order, and what it leaves behind. */
  ghost predicate CancelAnswer(t: Trading, i: nat, actor: Id, isAdmin: bool, t': Trading, r: Result<Order>)
    requires i < |t.orders|
  {
    var o := t.orders[i];
    var allowed := isAdmin || (o.id in t.owners && t.owners[o.id] == actor);
    && (r == Failure(Forbidden) <==> !allowed)
    && (r == Failure(Conflict) <==> allowed && (o.status == Filled || o.status == OrderCancelled))
    && (r == Success(o.(status := OrderCancelled))
        <==> allowed && (o.status == PendingAcceptance || o.status == OrderOpen || o.status == PartiallyFilled))
    && (r.Failure? ==> t' == t)
    && (r.Success? ==> t' == t.(orders := t.orders[i := o.(status := OrderCancelled)]))
  }

  /**
   What cancelling answers: NotFound without such an order, Forbidden to who neither owns it nor is an administrator,
   Conflict for an order that is filled or cancelled, and otherwise the order, cancelled and otherwise as it was.
   */
  lemma CancelAnswersExactly(x: Exchange, slug: Slug, orderId: Id, actor: Id, isAdmin: bool)
    requires ValidExchange(x)
    ensures var (t', r) := CancelOrder(x.board, x.trading, slug, orderId, actor, isAdmin);
            && (r == Failure(NotFound) <==> forall i :: !IsOrderOf(x, slug, orderId, i))
            && (r == Failure(NotFound) ==> t' == x.trading)
            && forall i :: IsOrderOf(x, slug, orderId, i) ==> CancelAnswer(x.trading, i, actor, isAdmin, t', r)
  {
    var (t', r) := CancelOrder(x.board, x.trading, slug, orderId, actor, isAdmin);
    if slug in x.board.records {
      var found := FindOrder(x.trading.orders, orderId, x.board.records[slug].market.id);
      if found.Some? {
        assert IsOrderOf(x, slug, orderId, found.value);
        assert CancelAnswer(x.trading, found.value, actor, isAdmin, t', r);
        forall i | IsOrderOf(x, slug, orderId, i) ensures i == found.value {
          assert OtherIds(x.trading.orders, i, found.value);
        }
      } else {
        forall i ensures !IsOrderOf(x, slug, orderId, i) {
        }
      }
    }
  }

  // ------------------------------------------------------------ finalization

  /** Collateral that the first n orders hold for an actor in one market. */
  ghost function HeldInMarket(t: Trading, n: nat, market: Id, actor: Id): real
    requires n <= |t.orders|
  {
    if n == 0 then 0.0
    else
      var o := t.orders[n - 1];
      HeldInMarket(t, n - 1, market, actor) +
      if && o.marketId == market && o.id in t.owners && t.owners[o.id] == actor
         && o.status in {PendingAcceptance, OrderOpen, PartiallyFilled}
      then Collateral(o.side, Value(o.remaining), Value(o.price)) else 0.0
  }

  lemma SettlingKeepsRails(b: Board, e: Event, id: Id, rail: Rail)
    requires ValidBoard(b) && e.SettleEvent? && Apply(b, e).Success?
    ensures OnRail(Step(b, e), id, rail) <==> OnRail(b, id, rail)
  {
    var b' := Step(b, e);
    assert b'.records[e.slug].market.id == b.records[e.slug].market.id
           && b'.records[e.slug].market.rail == b.records[e.slug].market.rail;
    if OnRail(b, id, rail) {
      var k :| k in b.records && b.records[k].market.id == id && b.records[k].market.rail == rail;
      assert k in b'.records && b'.records[k].market.id == id && b'.records[k].market.rail == rail;
    }
    if OnRail(b', id, rail) {
      var k :| k in b'.records && b'.records[k].market.id == id && b'.records[k].market.rail == rail;
      assert k in b.records && b.records[k].market.id == id && b.records[k].market.rail == rail;
    }
  }

  lemma {:induction false} ReserveAfterSettling(x: Exchange, e: Event, n: nat, who: Id, rail: Rail)
    requires ValidExchange(x) && e.SettleEvent? && Apply(x.board, e).Success? && n <= |x.trading.orders|
    ensures var x', market := MarketStep(x, e), x.board.records[e.slug].market;
            && n <= |x'.trading.orders|
            && ReservedBy(x.board, x.trading, n, who, rail)
               == ReservedBy(x'.board, x'.trading, n, who, rail)
                  + if rail == market.rail then HeldInMarket(x.trading, n, market.id, who) else 0.0
  {
    if n > 0 {
      ReserveAfterSettling(x, e, n - 1, who, rail);
      SettlingKeepsRails(x.board, e, x.trading.orders[n - 1].marketId, rail);
      OwnRail(x.board, e.slug, rail);
    }
  }

  /**
   Finalizing a market raises the available balance of each actor, on the market's rail, by exactly what the actor's
   active orders in that market held; it cancels those orders and leaves every other order and balance as it was.
   */
  lemma FinalizingReleasesExactly(x: Exchange, e: Event, who: Id, rail: Rail)
    requires ValidExchange(x) && e.SettleEvent? && Apply(x.board, e).Success?
    ensures var x', market := MarketStep(x, e), x.board.records[e.slug].market;
            && OrdersCancelled(x.trading.orders, x'.trading.orders, market.id)
            && x'.trading == x.trading.(orders := x'.trading.orders)
            && Available(x'.board, x'.trading, who, rail)
               == Available(x.board, x.trading, who, rail)
                  + if rail == market.rail then HeldInMarket(x.trading, |x.trading.orders|, market.id, who) else 0.0
  {
    ReserveAfterSettling(x, e, |x.trading.orders|, who, rail);
  }

  /** No other event on a market touches an order or a balance. */
  lemma OtherEventsReleaseNothing(x: Exchange, e: Event)
    requires !e.SettleEvent? || Apply(x.board, e).Failure?
    ensures MarketStep(x, e).trading == x.trading
  {
  }
}
