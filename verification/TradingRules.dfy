/**
 Orders, collateral and balances of the in-memory exchange. An order reserves collateral against
 one balance of its owner; the reserve is not stored but summed over all orders each time.
 Amounts of a request are exact decimals (reals); amounts kept in an order are ticks of 10^-8.
 */
module TradingRules {
  import opened Wrappers
  import opened Decimals
  import opened MarketProtocol

  datatype Side = Buy | Sell | OtherSide(text: string)
  datatype OrderType = Limit | OtherType(text: string)
  datatype OrderStatus = PendingAcceptance | OrderOpen | PartiallyFilled | Filled | OrderCancelled

  datatype Order = Order(
    id: Id, marketId: Id, outcomeId: Id, side: Side, status: OrderStatus,
    quantity: int, price: int, remaining: int, maxTotalCost: int)

  datatype OrderRequest = OrderRequest(
    outcomeId: Id, side: Side, orderType: OrderType, quantity: real, price: Option<real>)

  datatype Asset = USDC | AUD | OtherAsset(code: string)
  datatype Account = Account(profile: Id, asset: Asset, rail: Rail)

  datatype Trading = Trading(orders: seq<Order>, owners: map<Id, Id>, balances: map<Account, real>, nextOrderId: Id)

  const SEED := 1000.0

  // -------------------------------------------------------------- collateral

  /** What an order must be able to pay in the worst case. */
  function Collateral(side: Side, quantity: real, price: real): real {
    if side == Buy then quantity * price else quantity * (1.0 - price)
  }

  function HeldBy(o: Order): real {
    Collateral(o.side, Value(o.remaining), Value(o.price))
  }

  predicate ActiveOrder(o: Order) {
    o.status == PendingAcceptance || o.status == OrderOpen || o.status == PartiallyFilled
  }

  /** The order's market exists and trades on the given rail. */
  predicate OnRail(b: Board, marketId: Id, rail: Rail) {
    exists k :: k in b.records && b.records[k].market.id == marketId && b.records[k].market.rail == rail
  }

  predicate Counts(b: Board, t: Trading, o: Order, actor: Id, rail: Rail) {
    o.id in t.owners && t.owners[o.id] == actor && ActiveOrder(o) && OnRail(b, o.marketId, rail)
  }

  function Share(b: Board, t: Trading, o: Order, actor: Id, rail: Rail): real {
    if Counts(b, t, o, actor, rail) then HeldBy(o) else 0.0
  }

  /** Collateral reserved by the first n orders. */
  function ReservedBy(b: Board, t: Trading, n: nat, actor: Id, rail: Rail): real
    requires n <= |t.orders|
  {
    if n == 0 then 0.0
    else ReservedBy(b, t, n - 1, actor, rail) + Share(b, t, t.orders[n - 1], actor, rail)
  }

  function Reserved(b: Board, t: Trading, actor: Id, rail: Rail): real {
    ReservedBy(b, t, |t.orders|, actor, rail)
  }

  /** The asset a rail's markets settle in. */
  function RailAsset(rail: Rail): Asset { if rail == Onchain then USDC else AUD }

  /** The account a rail's orders draw on. */
  function RailAccount(actor: Id, rail: Rail): Account {
    Account(actor, RailAsset(rail), rail)
  }

  function Balance(t: Trading, a: Account, default: real): real {
    if a in t.balances then t.balances[a] else default
  }

  /** Balance minus reserve; an account that was never used opens with the seed. */
  function Available(b: Board, t: Trading, actor: Id, rail: Rail): real {
    Balance(t, RailAccount(actor, rail), SEED) - Reserved(b, t, actor, rail)
  }

  // -------------------------------------------------------------- operations

  function SeedBalance(t: Trading, a: Account): Trading {
    if a in t.balances then t else t.(balances := t.balances[a := SEED])
  }

  /** What an order request must look like before any balance is looked at. */
  predicate Acceptable(market: Market, p: OrderRequest) {
    && (market.status == PendingLiquidity || market.status == Open)
    && p.orderType == Limit && (p.side == Buy || p.side == Sell)
    && p.quantity > 0.0 && p.price.Some? && 0.0 < p.price.value < 1.0
  }

  function NewOrder(id: Id, marketId: Id, p: OrderRequest): Order
    requires p.price.Some?
  {
    var cost := Collateral(p.side, p.quantity, p.price.value);
    Order(id, marketId, p.outcomeId, p.side, OrderOpen,
          ToTicks(p.quantity), ToTicks(p.price.value), ToTicks(p.quantity), ToTicks(cost))
  }

  function PlaceOrder(b: Board, t: Trading, slug: Slug, actor: Id, p: OrderRequest): (r: (Trading, Result<Order>)) {
    if slug !in b.records then (t, Failure(NotFound))
    else
      var market := b.records[slug].market;
      if !Acceptable(market, p) then (t, Failure(Conflict))
      else
        var seeded := SeedBalance(t, RailAccount(actor, market.rail));
        if Available(b, seeded, actor, market.rail) < Collateral(p.side, p.quantity, p.price.value)
        then (seeded, Failure(Conflict))
        else if !HasOutcome(market.outcomes, p.outcomeId) then (seeded, Failure(NotFound))
        else
          var o := NewOrder(t.nextOrderId, market.id, p);
          (seeded.(orders := t.orders + [o], owners := t.owners[o.id := actor], nextOrderId := t.nextOrderId + 1),
           Success(o))
  }

  /** Position of the first order with the given id in the given market. */
  function FindOrder(os: seq<Order>, id: Id, marketId: Id): (r: Option<nat>)
    ensures r.Some? ==> r.value < |os| && os[r.value].id == id && os[r.value].marketId == marketId
    ensures r.Some? ==> forall i :: 0 <= i < r.value ==> os[i].id != id || os[i].marketId != marketId
    ensures r.None? ==> forall i :: 0 <= i < |os| ==> os[i].id != id || os[i].marketId != marketId
  {
    if os == [] then None
    else if os[0].id == id && os[0].marketId == marketId then Some(0)
    else match FindOrder(os[1..], id, marketId)
         case None => None
         case Some(i) => Some(i + 1)
  }

  function CancelOrder(b: Board, t: Trading, slug: Slug, orderId: Id, actor: Id, isAdmin: bool)
    : (Trading, Result<Order>)
  {
    if slug !in b.records then (t, Failure(NotFound))
    else
      match FindOrder(t.orders, orderId, b.records[slug].market.id)
      case None => (t, Failure(NotFound))
      case Some(i) =>
        var o := t.orders[i];
        if !(o.id in t.owners && t.owners[o.id] == actor) && !isAdmin then (t, Failure(Forbidden))
        else if !(o.status in {OrderOpen, PartiallyFilled, PendingAcceptance}) then (t, Failure(Conflict))
        else
          var o' := o.(status := OrderCancelled);
          (t.(orders := t.orders[i := o']), Success(o'))
  }

  function FundBalance(t: Trading, a: Account, amount: real): Trading {
    t.(balances := t.balances[a := Balance(t, a, 0.0) + amount])
  }

  predicate HasAccount(t: Trading, profile: Id) {
    exists a :: a in t.balances && a.profile == profile
  }

  /** Reading a portfolio opens the default account of a profile that has none. */
  function OpenPortfolio(t: Trading, profile: Id): Trading {
    if HasAccount(t, profile) then t else SeedBalance(t, Account(profile, USDC, Onchain))
  }

  function CancelAll(os: seq<Order>, marketId: Id): seq<Order> {
    seq(|os|, i requires 0 <= i < |os| =>
      if os[i].marketId == marketId && ActiveOrder(os[i])
      then os[i].(status := OrderCancelled, remaining := 0) else os[i])
  }

  /** Every active order of the market is cancelled with nothing remaining, and nothing else about any order changes. */
  ghost predicate OrdersCancelled(os: seq<Order>, os': seq<Order>, marketId: Id) {
    && |os'| == |os|
    && (forall i :: 0 <= i < |os| && os[i].marketId != marketId ==> os'[i] == os[i])
    && (forall i :: 0 <= i < |os| && os[i].status in {Filled, OrderCancelled} ==> os'[i] == os[i])
    && (forall i ::
          0 <= i < |os| && os[i].marketId == marketId
          && os[i].status in {PendingAcceptance, OrderOpen, PartiallyFilled} ==>
            os'[i] == os[i].(status := OrderCancelled, remaining := 0))
  }

  // ---------------------------------------------------------------- exchange

  datatype Exchange = Exchange(board: Board, trading: Trading)

  datatype Command =
    | PlaceCommand(slug: Slug, actor: Id, request: OrderRequest)
    | CancelCommand(slug: Slug, orderId: Id, actor: Id, isAdmin: bool)
    | FundCommand(account: Account, amount: real)
    | PortfolioCommand(profile: Id)
    | MarketCommand(event: Event)

  /** Finalizing a market also cancels its active orders. */
  function MarketStep(x: Exchange, e: Event): Exchange {
    Exchange(Step(x.board, e),
             if e.SettleEvent? && Apply(x.board, e).Success?
             then x.trading.(orders := CancelAll(x.trading.orders, Apply(x.board, e).value.market.id))
             else x.trading)
  }

  function Execute(x: Exchange, c: Command): Exchange {
    match c
    case PlaceCommand(slug, actor, p) => x.(trading := PlaceOrder(x.board, x.trading, slug, actor, p).0)
    case CancelCommand(slug, id, actor, isAdmin) =>
      x.(trading := CancelOrder(x.board, x.trading, slug, id, actor, isAdmin).0)
    case FundCommand(a, amount) => x.(trading := FundBalance(x.trading, a, amount))
    case PortfolioCommand(profile) => x.(trading := OpenPortfolio(x.trading, profile))
    case MarketCommand(e) => MarketStep(x, e)
  }

  function ExecuteAll(x: Exchange, cs: seq<Command>): Exchange
    decreases |cs|
  {
    if cs == [] then x else ExecuteAll(Execute(x, cs[0]), cs[1..])
  }

  const START := Exchange(EMPTY, Trading([], map[], map[], 0))
}
