/** Collateral accounting over whole runs of the exchange. */
module Solvency {
  import opened Wrappers
  import opened Decimals
  import opened MarketProtocol
  import opened MarketInvariants
  import opened TradingRules

  // --------------------------------------------------------------- invariant

  ghost predicate SoundOrder(x: Exchange, o: Order) {
    && o.id < x.trading.nextOrderId && o.id in x.trading.owners
    && o.marketId < x.board.nextId
    && 0 <= o.remaining && 0.0 <= Value(o.price) <= 1.0
  }

  ghost predicate SoundAt(x: Exchange, i: int) {
    0 <= i < |x.trading.orders| ==> SoundOrder(x, x.trading.orders[i])
  }

  /** If the i-th order is active and belongs to the market listed under k, that market is not finalized. */
  ghost predicate NotSettled(x: Exchange, i: int, k: Slug) {
    0 <= i < |x.trading.orders| && k in x.board.records && ActiveOrder(x.trading.orders[i])
    && x.board.records[k].market.id == x.trading.orders[i].marketId
    ==> x.board.records[k].market.status != Settled
  }

  ghost predicate OtherIds(os: seq<Order>, i: int, j: int) {
    0 <= i < |os| && 0 <= j < |os| && i != j ==> os[i].id != os[j].id
  }

  ghost predicate ValidExchange(x: Exchange) {
    && ValidBoard(x.board)
    && (forall i :: SoundAt(x, i))
    && (forall i, j :: OtherIds(x.trading.orders, i, j))
    && (forall i, k :: NotSettled(x, i, k))
  }

  ghost predicate SolventFor(x: Exchange, actor: Id, rail: Rail) {
    Reserved(x.board, x.trading, actor, rail) <= Balance(x.trading, RailAccount(actor, rail), 0.0)
  }

  /** Every reserve is covered by the balance it is drawn on. */
  ghost predicate Solvent(x: Exchange) {
    forall actor: Id, rail: Rail :: SolventFor(x, actor, rail)
  }

  // -------------------------------------------------------------- collateral

  /** What a filled order loses when its outcome pays `value` per unit. */
  function Loss(side: Side, quantity: real, price: real, value: real): real {
    if side == Buy then quantity * (price - value) else quantity * (value - price)
  }

  /** The collateral is the worst loss the order can make: never exceeded, and reached when its side is wrong. */
  lemma CollateralIsWorstLoss(side: Side, quantity: real, price: real, value: real)
    requires quantity >= 0.0 && 0.0 <= value <= 1.0
    ensures Loss(side, quantity, price, value) <= Collateral(side, quantity, price)
    ensures Collateral(side, quantity, price) == Loss(side, quantity, price, if side == Buy then 0.0 else 1.0)
  {
    ProductNonnegative(quantity, value);
    ProductNonnegative(quantity, 1.0 - value);
    Distribute(quantity, price, value);
    Distribute(quantity, 1.0, price);
    Distribute(quantity, 1.0, value);
  }

  lemma Distribute(q: real, a: real, b: real)
    ensures q * (a - b) == q * a - q * b
  {
  }

  /** A buy and a sell of one quantity at one price hold together exactly what the winner is paid. */
  lemma PairFundsPayout(quantity: real, price: real)
    ensures Collateral(Buy, quantity, price) + Collateral(Sell, quantity, price) == quantity
  {
    Distribute(quantity, 1.0, price);
  }

  // --------------------------------------------------------- sums of reserves

  lemma ProductNonnegative(a: real, b: real)
    requires a >= 0.0 && b >= 0.0
    ensures a * b >= 0.0
  {
  }

  lemma HeldIsNonnegative(x: Exchange, o: Order)
    requires SoundOrder(x, o)
    ensures HeldBy(o) >= 0.0
  {
    assert Value(o.remaining) >= 0.0;
    ProductNonnegative(Value(o.remaining), Value(o.price));
    ProductNonnegative(Value(o.remaining), 1.0 - Value(o.price));
  }

  /** Reserves compare as their shares compare. */
  lemma {:induction false} ReserveMonotone(b: Board, t: Trading, b': Board, t': Trading, n: nat, actor: Id, rail: Rail)
    requires n <= |t.orders| && n <= |t'.orders|
    requires forall i ::
               0 <= i < n ==> Share(b, t, t.orders[i], actor, rail) <= Share(b', t', t'.orders[i], actor, rail)
    ensures ReservedBy(b, t, n, actor, rail) <= ReservedBy(b', t', n, actor, rail)
  {
    if n > 0 { ReserveMonotone(b, t, b', t', n - 1, actor, rail); }
  }

  lemma ReserveEqual(b: Board, t: Trading, b': Board, t': Trading, n: nat, actor: Id, rail: Rail)
    requires n <= |t.orders| && n <= |t'.orders|
    requires forall i ::
               0 <= i < n ==> Share(b, t, t.orders[i], actor, rail) == Share(b', t', t'.orders[i], actor, rail)
    ensures ReservedBy(b, t, n, actor, rail) == ReservedBy(b', t', n, actor, rail)
  {
    ReserveMonotone(b, t, b', t', n, actor, rail);
    ReserveMonotone(b', t', b, t, n, actor, rail);
  }

  /** Replacing one order changes the reserve by the difference of the two shares. */
  lemma {:induction false} ReserveUpdate(b: Board, t: Trading, i: nat, o: Order, n: nat, actor: Id, rail: Rail)
    requires i < n <= |t.orders|
    ensures ReservedBy(b, t.(orders := t.orders[i := o]), n, actor, rail)
            == ReservedBy(b, t, n, actor, rail) - Share(b, t, t.orders[i], actor, rail) + Share(b, t, o, actor, rail)
  {
    var t' := t.(orders := t.orders[i := o]);
    assert Share(b, t', o, actor, rail) == Share(b, t, o, actor, rail);
    if n - 1 == i {
      ReserveEqual(b, t, b, t', i, actor, rail);
    } else {
      ReserveUpdate(b, t, i, o, n - 1, actor, rail);
    }
  }

  // ------------------------------------------------------------ single calls

  ghost predicate Placed(x: Exchange, slug: Slug, actor: Id, p: OrderRequest) {
    PlaceOrder(x.board, x.trading, slug, actor, p).1.Success?
  }

  /** Collateral of the order as it is stored, on the account it is drawn on; zero everywhere else. */
  ghost function Taken(x: Exchange, slug: Slug, actor: Id, p: OrderRequest, who: Id, rail: Rail): real {
    if Placed(x, slug, actor, p) && who == actor && rail == x.board.records[slug].market.rail
    then Collateral(p.side, Value(ToTicks(p.quantity)), Value(ToTicks(p.price.value))) else 0.0
  }

  lemma PlacedWhen(x: Exchange, slug: Slug, actor: Id, p: OrderRequest)
    requires slug in x.board.records
    ensures var market, r := x.board.records[slug].market, PlaceOrder(x.board, x.trading, slug, actor, p).1;
            var payable :=
              Acceptable(market, p)
              && Collateral(p.side, p.quantity, p.price.value) <= Available(x.board, x.trading, actor, market.rail);
            && (r.Success? <==> payable && HasOutcome(market.outcomes, p.outcomeId))
            && (r == Failure(NotFound) <==> payable && !HasOutcome(market.outcomes, p.outcomeId))
            && (r.Failure? ==> r.error == NotFound || r.error == Conflict)
  {
    var rail := x.board.records[slug].market.rail;
    var seeded := SeedBalance(x.trading, RailAccount(actor, rail));
    ReserveEqual(x.board, x.trading, x.board, seeded, |x.trading.orders|, actor, rail);
  }

  /** A limit order to buy or sell at a price between 0 and 1, for a market that takes orders, within the balance. */
  ghost predicate Payable(market: Market, p: OrderRequest, available: real) {
    var price := if p.price.Some? then p.price.value else 0.0;
    && (market.status == PendingLiquidity || market.status == Open)
    && p.orderType == Limit && (p.side == Buy || p.side == Sell) && p.quantity > 0.0 && 0.0 < price < 1.0
    && p.quantity * (if p.side == Buy then price else 1.0 - price) <= available
  }

  lemma PayableWhen(market: Market, p: OrderRequest, available: real)
    ensures Payable(market, p, available)
            <==> Acceptable(market, p) && Collateral(p.side, p.quantity, p.price.value) <= available
  {
  }

  /**
   An order is accepted exactly when it is payable and its outcome is listed. A payable order for an outcome that is
   not, or any for a market that is not, is NotFound, and all else is a conflict.
   */
  lemma PlacedExactly(x: Exchange, slug: Slug, actor: Id, p: OrderRequest)
    ensures var r := PlaceOrder(x.board, x.trading, slug, actor, p).1;
            if slug !in x.board.records then r == Failure(NotFound)
            else
              var market := x.board.records[slug].market;
              var listed := exists i :: 0 <= i < |market.outcomes| && market.outcomes[i].id == p.outcomeId;
              var payable := Payable(market, p, Available(x.board, x.trading, actor, market.rail));
              && (r.Success? <==> payable && listed)
              && (r == Failure(NotFound) <==> payable && !listed)
              && (r == Failure(Conflict) <==> !payable)
  {
    if slug in x.board.records {
      var market := x.board.records[slug].market;
      PlacedWhen(x, slug, actor, p);
      PayableWhen(market, p, Available(x.board, x.trading, actor, market.rail));
    }
  }

  lemma PlaceKeepsOldShares(x: Exchange, slug: Slug, actor: Id, p: OrderRequest, who: Id, rail: Rail)
    requires ValidExchange(x)
    ensures var t' := PlaceOrder(x.board, x.trading, slug, actor, p).0;
            && |x.trading.orders| <= |t'.orders|
            && ReservedBy(x.board, t', |x.trading.orders|, who, rail) == Reserved(x.board, x.trading, who, rail)
  {
    var t, t' := x.trading, PlaceOrder(x.board, x.trading, slug, actor, p).0;
    forall i | 0 <= i < |t.orders|
      ensures Share(x.board, t, t.orders[i], who, rail) == Share(x.board, t', t'.orders[i], who, rail)
    {
      assert SoundAt(x, i);
    }
    ReserveEqual(x.board, t, x.board, t', |t.orders|, who, rail);
  }

  /**
   Placing an order lowers the available balance of its owner on its market's rail by the collateral of
   the order as stored, and changes no other available balance. A rejected request changes none.
   */
  lemma PlaceTakesItsCollateral(x: Exchange, slug: Slug, actor: Id, p: OrderRequest, who: Id, rail: Rail)
    requires ValidExchange(x)
    ensures var x' := Execute(x, PlaceCommand(slug, actor, p));
            && Available(x'.board, x'.trading, who, rail)
               == Available(x.board, x.trading, who, rail) - Taken(x, slug, actor, p, who, rail)
            && Reserved(x'.board, x'.trading, who, rail)
               == Reserved(x.board, x.trading, who, rail) + Taken(x, slug, actor, p, who, rail)
  {
    var t, t' := x.trading, PlaceOrder(x.board, x.trading, slug, actor, p).0;
    PlaceKeepsOldShares(x, slug, actor, p, who, rail);
    assert Balance(t', RailAccount(who, rail), SEED) == Balance(t, RailAccount(who, rail), SEED);
    if Placed(x, slug, actor, p) {
      PlacedShare(x, slug, actor, p, who, rail);
    } else {
      assert t'.orders == t.orders;
    }
  }

  /** The share of a new order. */
  lemma PlacedShare(x: Exchange, slug: Slug, actor: Id, p: OrderRequest, who: Id, rail: Rail)
    requires ValidExchange(x) && Placed(x, slug, actor, p)
    ensures var t' := PlaceOrder(x.board, x.trading, slug, actor, p).0;
            && |t'.orders| == |x.trading.orders| + 1
            && Share(x.board, t', t'.orders[|x.trading.orders|], who, rail)
               == if who == actor && rail == x.board.records[slug].market.rail
                  then Collateral(p.side, Value(ToTicks(p.quantity)), Value(ToTicks(p.price.value))) else 0.0
  {
    var market := x.board.records[slug].market;
    var t' := PlaceOrder(x.board, x.trading, slug, actor, p).0;
    assert t'.orders[|x.trading.orders|] == NewOrder(x.trading.nextOrderId, market.id, p);
    OwnRail(x.board, slug, rail);
  }

  /** A listed market trades on its own rail and on no other. */
  lemma OwnRail(b: Board, slug: Slug, rail: Rail)
    requires ValidBoard(b) && slug in b.records
    ensures OnRail(b, b.records[slug].market.id, rail) <==> rail == b.records[slug].market.rail
  {
    if OnRail(b, b.records[slug].market.id, rail) {
      var k :| k in b.records && b.records[k].market.id == b.records[slug].market.id
          && b.records[k].market.rail == rail;
      assert Apart(b, k, slug);
    }
  }

  /** Cancelling gives back exactly what the order held, to its owner and on its rail only. */
  lemma CancelGivesBack(x: Exchange, slug: Slug, orderId: Id, actor: Id, isAdmin: bool, who: Id, rail: Rail)
    requires ValidExchange(x)
    requires CancelOrder(x.board, x.trading, slug, orderId, actor, isAdmin).1.Success?
    ensures var x' := Execute(x, CancelCommand(slug, orderId, actor, isAdmin));
            var market := x.board.records[slug].market;
            var i := FindOrder(x.trading.orders, orderId, market.id);
            && i.Some? && orderId in x.trading.owners
            && Available(x'.board, x'.trading, who, rail)
               == Available(x.board, x.trading, who, rail)
                  + if who == x.trading.owners[orderId]
                      && rail == market.rail then HeldBy(x.trading.orders[i.value]) else 0.0
  {
    var b, t := x.board, x.trading;
    var market := b.records[slug].market;
    var i := FindOrder(t.orders, orderId, market.id).value;
    assert SoundAt(x, i);
    OwnRail(b, slug, rail);
    ReserveUpdate(b, t, i, t.orders[i].(status := OrderCancelled), |t.orders|, who, rail);
  }

  /** Placing an order and cancelling it at once restores every available balance. */
  lemma PlaceThenCancelRestores(x: Exchange, slug: Slug, actor: Id, p: OrderRequest, who: Id, rail: Rail)
    requires ValidExchange(x) && Placed(x, slug, actor, p)
    ensures var x' := Execute(x, PlaceCommand(slug, actor, p));
            var c := CancelCommand(slug, x.trading.nextOrderId, actor, false);
            && CancelOrder(x'.board, x'.trading, slug, x.trading.nextOrderId, actor, false).1.Success?
            && Available(Execute(x', c).board, Execute(x', c).trading, who, rail)
               == Available(x.board, x.trading, who, rail)
  {
    var id := x.trading.nextOrderId;
    var x' := Execute(x, PlaceCommand(slug, actor, p));
    PlaceTakesItsCollateral(x, slug, actor, p, who, rail);
    ExecuteKeepsValid(x, PlaceCommand(slug, actor, p));
    var n := |x.trading.orders|;
    var o := x'.trading.orders[n];
    assert o == NewOrder(id, x.board.records[slug].market.id, p);
    var i := FindOrder(x'.trading.orders, id, o.marketId);
    assert i.Some?;
    assert OtherIds(x'.trading.orders, i.value, n);
    assert i == Some(n);
    CancelGivesBack(x', slug, id, actor, false, who, rail);
  }

  // -------------------------------------------------------------- validity

  lemma ToTicksBounds(q: real, p: real)
    requires q > 0.0 && 0.0 < p < 1.0
    ensures ToTicks(q) >= 0 && 0.0 <= Value(ToTicks(p)) <= 1.0
  {
    HalfEvenFixesIntegers(0);
    HalfEvenFixesIntegers(100000000);
    ToTicksMonotone(0.0, q);
    ToTicksMonotone(0.0, p);
    ToTicksMonotone(p, 1.0);
  }

  lemma MarketStepKeepsValid(x: Exchange, e: Event)
    requires ValidExchange(x)
    ensures ValidExchange(MarketStep(x, e))
  {
    var x' := MarketStep(x, e);
    StepKeepsValid(x.board, e);
    forall i ensures SoundAt(x', i) {
      assert SoundAt(x, i);
      assert Value(0) == 0.0;
    }
    forall i, j ensures OtherIds(x'.trading.orders, i, j) {
      assert OtherIds(x.trading.orders, i, j);
    }
    forall i, k ensures NotSettled(x', i, k) {
      MarketStepNotSettled(x, e, i, k);
    }
  }

  lemma MarketStepNotSettled(x: Exchange, e: Event, i: int, k: Slug)
    requires ValidExchange(x)
    ensures NotSettled(MarketStep(x, e), i, k)
  {
    assert SoundAt(x, i) && NotSettled(x, i, k);
    if Apply(x.board, e).Success? && k == e.slug && 0 <= i < |x.trading.orders| {
      SettlesOnlyBySettling(x.board, e);
    }
  }

  /** Only finalization makes a market settled. */
  lemma SettlesOnlyBySettling(b: Board, e: Event)
    requires ValidBoard(b) && Apply(b, e).Success?
    ensures Apply(b, e).value.market.status == Settled ==>
              e.SettleEvent? || (e.slug in b.records && b.records[e.slug].market.status == Settled
                                 && b.records[e.slug].market.id == Apply(b, e).value.market.id)
  {
    if !e.PublishEvent? {
      assert ValidAt(b, e.slug);
      if e.ReviewEvent? {
        ReviewGuardedByInvariant(b.records[e.slug], e.disputeId, e.verdict, e.reviewNotes, e.now);
      }
    }
  }

  lemma ExecuteKeepsValid(x: Exchange, c: Command)
    requires ValidExchange(x)
    ensures ValidExchange(Execute(x, c))
  {
    match c
    case MarketCommand(e) => MarketStepKeepsValid(x, e);
    case PlaceCommand(slug, actor, p) =>
      if Placed(x, slug, actor, p) {
        PlacedIsSound(x, slug, actor, p);
      } else {
        SameOrdersKeepValid(x, Execute(x, c));
      }
    case CancelCommand(slug, id, actor, isAdmin) => CancelledIsSound(x, slug, id, actor, isAdmin);
    case FundCommand(_, _) => SameOrdersKeepValid(x, Execute(x, c));
    case PortfolioCommand(_) => SameOrdersKeepValid(x, Execute(x, c));
  }

  lemma SameOrdersKeepValid(x: Exchange, x': Exchange)
    requires ValidExchange(x) && x'.board == x.board && x'.trading.orders == x.trading.orders
    requires x'.trading.owners == x.trading.owners && x'.trading.nextOrderId == x.trading.nextOrderId
    ensures ValidExchange(x')
  {
    forall i ensures SoundAt(x', i) { assert SoundAt(x, i); }
    forall i, k ensures NotSettled(x', i, k) { assert NotSettled(x, i, k); }
  }

  lemma CancelledIsSound(x: Exchange, slug: Slug, orderId: Id, actor: Id, isAdmin: bool)
    requires ValidExchange(x)
    ensures ValidExchange(Execute(x, CancelCommand(slug, orderId, actor, isAdmin)))
  {
    var x' := Execute(x, CancelCommand(slug, orderId, actor, isAdmin));
    forall i ensures SoundAt(x', i) { assert SoundAt(x, i); }
    forall i, j ensures OtherIds(x'.trading.orders, i, j) { assert OtherIds(x.trading.orders, i, j); }
    forall i, k ensures NotSettled(x', i, k) { assert NotSettled(x, i, k); }
  }

  lemma PlacedIsSound(x: Exchange, slug: Slug, actor: Id, p: OrderRequest)
    requires ValidExchange(x) && Placed(x, slug, actor, p)
    ensures ValidExchange(Execute(x, PlaceCommand(slug, actor, p)))
  {
    var x' := Execute(x, PlaceCommand(slug, actor, p));
    ToTicksBounds(p.quantity, p.price.value);
    assert ValidAt(x.board, slug);
    forall i ensures SoundAt(x', i) { assert SoundAt(x, i); }
    forall i, j ensures OtherIds(x'.trading.orders, i, j) {
      assert OtherIds(x.trading.orders, i, j) && SoundAt(x, i) && SoundAt(x, j);
    }
    forall i, k ensures NotSettled(x', i, k) {
      assert NotSettled(x, i, k) && Apart(x.board, k, slug);
    }
  }

  lemma ExecuteAllKeepsValid(x: Exchange, cs: seq<Command>)
    requires ValidExchange(x)
    ensures ValidExchange(ExecuteAll(x, cs))
    decreases |cs|
  {
    if cs != [] {
      ExecuteKeepsValid(x, cs[0]);
      ExecuteAllKeepsValid(Execute(x, cs[0]), cs[1..]);
    }
  }

  /** In every reachable state a finalized market has no active order. */
  lemma SettledMarketsHaveNoActiveOrder(cs: seq<Command>, i: nat, slug: Slug)
    requires var x := ExecuteAll(START, cs);
             i < |x.trading.orders| && slug in x.board.records
             && x.board.records[slug].market.status == Settled
             && x.trading.orders[i].marketId == x.board.records[slug].market.id
    ensures !ActiveOrder(ExecuteAll(START, cs).trading.orders[i])
  {
    ExecuteAllKeepsValid(START, cs);
    assert NotSettled(ExecuteAll(START, cs), i, slug);
  }

  // ----------------------------------------------------------------- solvency

  /**
   create_market_order compares the raw amounts with the balance but reserves the rounded ones. An accepted
   order keeps the exchange solvent exactly when the balance also covers the collateral after rounding.
   */
  lemma PlaceKeepsSolventExactly(x: Exchange, slug: Slug, actor: Id, p: OrderRequest)
    requires ValidExchange(x) && Solvent(x) && Placed(x, slug, actor, p)
    ensures Solvent(Execute(x, PlaceCommand(slug, actor, p)))
            <==> Collateral(p.side, Value(ToTicks(p.quantity)), Value(ToTicks(p.price.value)))
                 <= Available(x.board, x.trading, actor, x.board.records[slug].market.rail)
  {
    var x' := Execute(x, PlaceCommand(slug, actor, p));
    var own := x.board.records[slug].market.rail;
    forall who: Id, rail: Rail
      ensures SolventFor(x', who, rail) <==>
              (who == actor && rail == own ==>
                Collateral(p.side, Value(ToTicks(p.quantity)), Value(ToTicks(p.price.value)))
                <= Available(x.board, x.trading, actor, own))
    {
      PlaceTakesItsCollateral(x, slug, actor, p, who, rail);
      assert SolventFor(x, who, rail);
    }
    assert Solvent(x') ==> SolventFor(x', actor, own);
  }

  /** A rejected request may open the actor's account, which cannot break solvency. */
  lemma RejectedKeepsSolvent(x: Exchange, slug: Slug, actor: Id, p: OrderRequest)
    requires ValidExchange(x) && Solvent(x) && !Placed(x, slug, actor, p)
    ensures Solvent(Execute(x, PlaceCommand(slug, actor, p)))
  {
    var x' := Execute(x, PlaceCommand(slug, actor, p));
    forall who: Id, rail: Rail ensures SolventFor(x', who, rail) {
      PlaceTakesItsCollateral(x, slug, actor, p, who, rail);
      assert SolventFor(x, who, rail);
    }
  }

  /** Amounts within the eight decimals that orders are stored with. */
  ghost predicate GridRequest(p: OrderRequest) {
    OnGrid(p.quantity) && (p.price.Some? ==> OnGrid(p.price.value))
  }

  lemma GridPlaceKeepsSolvent(x: Exchange, slug: Slug, actor: Id, p: OrderRequest)
    requires ValidExchange(x) && Solvent(x) && GridRequest(p)
    ensures Solvent(Execute(x, PlaceCommand(slug, actor, p)))
  {
    if Placed(x, slug, actor, p) {
      GridIsExact(p.quantity);
      GridIsExact(p.price.value);
      var rail := x.board.records[slug].market.rail;
      var seeded := SeedBalance(x.trading, RailAccount(actor, rail));
      ReserveEqual(x.board, x.trading, x.board, seeded, |x.trading.orders|, actor, rail);
      PlaceKeepsSolventExactly(x, slug, actor, p);
    } else {
      RejectedKeepsSolvent(x, slug, actor, p);
    }
  }

  /**
   Off the grid the guard is not enough: this accepted order reserves more than the balance it was checked
   against.
   */
  lemma RoundingCanOverdraw(x: Exchange, slug: Slug, actor: Id)
    requires ValidExchange(x) && Solvent(x) && slug in x.board.records
    requires x.board.records[slug].market.status == Open && x.board.records[slug].market.outcomes != []
    requires Available(x.board, x.trading, actor, x.board.records[slug].market.rail) == 1000.0
    ensures var outcomeId := x.board.records[slug].market.outcomes[0].id;
            var p := OrderRequest(outcomeId, Buy, Limit, 1000.0000005, Some(0.999999999));
            Placed(x, slug, actor, p) && !Solvent(Execute(x, PlaceCommand(slug, actor, p)))
  {
    var market := x.board.records[slug].market;
    var p := OrderRequest(market.outcomes[0].id, Buy, Limit, 1000.0000005, Some(0.999999999));
    var seeded := SeedBalance(x.trading, RailAccount(actor, market.rail));
    ReserveEqual(x.board, x.trading, x.board, seeded, |x.trading.orders|, actor, market.rail);
    assert Collateral(Buy, 1000.0000005, 0.999999999) <= 1000.0;
    assert HasOutcome(market.outcomes, p.outcomeId);
    assert Placed(x, slug, actor, p);
    assert ToTicks(1000.0000005) == 100000000050 by {
      assert 1000.0000005 * TICKS == 100000000050.0;
    }
    assert ToTicks(0.999999999) == 100000000 by {
      assert 0.999999999 * TICKS == 99999999.9;
    }
    assert Collateral(Buy, Value(100000000050), Value(100000000)) > 1000.0;
    PlaceKeepsSolventExactly(x, slug, actor, p);
  }

  /** Funding keeps the exchange solvent exactly when the available balance it touches stays nonnegative. */
  lemma FundKeepsSolventExactly(x: Exchange, a: Account, amount: real)
    requires Solvent(x)
    ensures Solvent(Execute(x, FundCommand(a, amount)))
            <==> (a == RailAccount(a.profile, a.rail) ==>
                    Reserved(x.board, x.trading, a.profile, a.rail) <= Balance(x.trading, a, 0.0) + amount)
  {
    var x' := Execute(x, FundCommand(a, amount));
    forall who: Id, rail: Rail
      ensures SolventFor(x', who, rail) <==>
              (a == RailAccount(who, rail) ==>
                 Reserved(x.board, x.trading, who, rail) <= Balance(x.trading, a, 0.0) + amount)
    {
      ReserveEqual(x.board, x.trading, x'.board, x'.trading, |x.trading.orders|, who, rail);
      assert SolventFor(x, who, rail);
    }
    assert Solvent(x') ==> SolventFor(x', a.profile, a.rail);
  }

  /** A call on a market never raises what an order reserves. */
  lemma MarketStepShare(x: Exchange, e: Event, i: nat, who: Id, rail: Rail)
    requires ValidExchange(x) && i < |x.trading.orders|
    ensures var x' := MarketStep(x, e);
            Share(x'.board, x'.trading, x'.trading.orders[i], who, rail)
            <= Share(x.board, x.trading, x.trading.orders[i], who, rail)
  {
    var x' := MarketStep(x, e);
    var o, o' := x.trading.orders[i], x'.trading.orders[i];
    assert SoundAt(x, i);
    HeldIsNonnegative(x, o);
    if Counts(x'.board, x'.trading, o', who, rail) {
      assert o' == o;
      var k :| k in x'.board.records && x'.board.records[k].market.id == o.marketId
               && x'.board.records[k].market.rail == rail;
      KeepsRail(x.board, e, k);
      assert OnRail(x.board, o.marketId, rail);
    }
  }

  lemma MarketStepKeepsSolvent(x: Exchange, e: Event)
    requires ValidExchange(x) && Solvent(x)
    ensures Solvent(MarketStep(x, e))
  {
    var x' := MarketStep(x, e);
    forall who: Id, rail: Rail ensures SolventFor(x', who, rail) {
      forall i | 0 <= i < |x.trading.orders|
        ensures Share(x'.board, x'.trading, x'.trading.orders[i], who, rail)
                <= Share(x.board, x.trading, x.trading.orders[i], who, rail)
      {
        MarketStepShare(x, e, i, who, rail);
      }
      ReserveMonotone(x'.board, x'.trading, x.board, x.trading, |x.trading.orders|, who, rail);
      assert SolventFor(x, who, rail);
    }
  }

  lemma KeepsRail(b: Board, e: Event, k: Slug)
    requires ValidBoard(b) && k in Step(b, e).records && Step(b, e).records[k].market.id < b.nextId
    ensures k in b.records && b.records[k].market.id == Step(b, e).records[k].market.id
            && b.records[k].market.rail == Step(b, e).records[k].market.rail
  {
    StepEvolves(b, e);
  }

  ghost predicate Fair(c: Command) {
    match c
    case PlaceCommand(_, _, p) => GridRequest(p)
    case FundCommand(_, amount) => amount >= 0.0
    case _ => true
  }

  lemma ExecuteKeepsSolvent(x: Exchange, c: Command)
    requires ValidExchange(x) && Solvent(x) && Fair(c)
    ensures Solvent(Execute(x, c))
  {
    var x' := Execute(x, c);
    match c
    case PlaceCommand(slug, actor, p) => GridPlaceKeepsSolvent(x, slug, actor, p);
    case FundCommand(a, amount) =>
      assert SolventFor(x, a.profile, a.rail);
      FundKeepsSolventExactly(x, a, amount);
    case MarketCommand(e) => MarketStepKeepsSolvent(x, e);
    case CancelCommand(slug, id, actor, isAdmin) =>
      forall who: Id, rail: Rail ensures SolventFor(x', who, rail) {
        assert SolventFor(x, who, rail);
        if CancelOrder(x.board, x.trading, slug, id, actor, isAdmin).1.Success? {
          CancelGivesBack(x, slug, id, actor, isAdmin, who, rail);
          var i := FindOrder(x.trading.orders, id, x.board.records[slug].market.id).value;
          assert SoundAt(x, i);
          HeldIsNonnegative(x, x.trading.orders[i]);
        }
      }
    case PortfolioCommand(profile) =>
      forall who: Id, rail: Rail ensures SolventFor(x', who, rail) {
        assert SolventFor(x, who, rail);
        ReserveEqual(x.board, x.trading, x'.board, x'.trading, |x.trading.orders|, who, rail);
      }
  }

  lemma {:induction false} RunKeepsSolvent(x: Exchange, cs: seq<Command>)
    requires ValidExchange(x) && Solvent(x)
    requires forall i :: 0 <= i < |cs| ==> Fair(cs[i])
    ensures Solvent(ExecuteAll(x, cs))
    decreases |cs|
  {
    if cs != [] {
      ExecuteKeepsValid(x, cs[0]);
      ExecuteKeepsSolvent(x, cs[0]);
      RunKeepsSolvent(Execute(x, cs[0]), cs[1..]);
    }
  }

  /**
   Whatever is placed, cancelled, funded, published, disputed and finalized, in any order: with eight-decimal
   amounts and nonnegative funding no actor's reserve ever exceeds the balance it is drawn on.
   */
  lemma SolventAlways(cs: seq<Command>, actor: Id, rail: Rail)
    requires forall i :: 0 <= i < |cs| ==> Fair(cs[i])
    ensures var x := ExecuteAll(START, cs);
            Reserved(x.board, x.trading, actor, rail) <= Balance(x.trading, RailAccount(actor, rail), 0.0)
  {
    RunKeepsSolvent(START, cs);
    assert SolventFor(ExecuteAll(START, cs), actor, rail);
  }
}
