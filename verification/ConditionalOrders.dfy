/**
 Conditional orders. The service keeps a status per order and advances it one price tick at a time; the
 properties say what the status means in terms of the whole history of creations, cancellations and ticks.
 */
module ConditionalOrders {
  import opened Wrappers

  type Id = nat
  type Time = int

  datatype Side = Buy | Sell | OtherSide(text: string)
  datatype Kind = StopLoss | TakeProfit | TrailingStop | OtherKind(text: string)
  datatype Status = Pending | Triggered | Cancelled

  /** What the owner asked for. */
  datatype Terms = Terms(
    profile: Id, marketSlug: string, outcome: Id, side: Side, quantity: real, triggerPrice: real,
    limitPrice: Option<real>, kind: Kind, trailingOffsetBps: Option<int>)

  datatype State = State(terms: Terms, status: Status, triggeredAt: Option<Time>)

  /** An optional number as text: left out or empty, not a number, or a number. */
  datatype OptionalText = Absent | NotNumber | Number(value: real)

  /** A request, with None for a text that is not a number. */
  datatype Request = Request(
    profile: Id, marketSlug: string, outcome: Id, side: Side, quantity: Option<real>, triggerPrice: Option<real>,
    limitPrice: OptionalText, kind: Kind, trailingOffsetBps: Option<int>)

  predicate Acceptable(r: Request) {
    && !r.kind.OtherKind? && !r.side.OtherSide?
    && r.quantity.Some? && r.triggerPrice.Some? && !r.limitPrice.NotNumber?
  }

  function TermsOf(r: Request): Terms
    requires Acceptable(r)
  {
    Terms(r.profile, r.marketSlug, r.outcome, r.side, r.quantity.value, r.triggerPrice.value,
          if r.limitPrice.Absent? then None else Some(r.limitPrice.value), r.kind, r.trailingOffsetBps)
  }

  /** The price meets the condition of the order. */
  predicate Meets(t: Terms, price: real) {
    match t.kind
    case StopLoss => if t.side == Sell then price <= t.triggerPrice else t.side == Buy && price >= t.triggerPrice
    case TakeProfit => if t.side == Sell then price >= t.triggerPrice else t.side == Buy && price <= t.triggerPrice
    case TrailingStop => t.side == Sell && price <= t.triggerPrice
    case OtherKind(_) => false
  }

  // ---------------------------------------------------------------- one step

  predicate Fires(s: State, outcome: Id, price: real) {
    s.status == Pending && s.terms.outcome == outcome && Meets(s.terms, price)
  }

  function TickOne(s: State, outcome: Id, price: real, now: Time): State {
    if Fires(s, outcome, price) then s.(status := Triggered, triggeredAt := Some(now)) else s
  }

  function TickAll(ss: seq<State>, outcome: Id, price: real, now: Time): seq<State> {
    seq(|ss|, i requires 0 <= i < |ss| => TickOne(ss[i], outcome, price, now))
  }

  /** The orders among the first n that the tick triggers, in order of creation. */
  function FiredIds(ss: seq<State>, n: nat, outcome: Id, price: real): seq<Id>
    requires n <= |ss|
  {
    if n == 0 then []
    else if Fires(ss[n - 1], outcome, price) then FiredIds(ss, n - 1, outcome, price) + [n - 1]
    else FiredIds(ss, n - 1, outcome, price)
  }

  function CancelOne(s: State): State {
    if s.status == Pending then s.(status := Cancelled) else s
  }

  predicate MayCancel(ss: seq<State>, profile: Id, id: Id) {
    id < |ss| && ss[id].terms.profile == profile
  }

  datatype Event =
    | Create(request: Request)
    | Cancel(profile: Id, id: Id)
    | Tick(outcome: Id, price: real, now: Time)

  function Step(ss: seq<State>, e: Event): seq<State> {
    match e
    case Create(r) => if Acceptable(r) then ss + [State(TermsOf(r), Pending, None)] else ss
    case Cancel(profile, id) => if MayCancel(ss, profile, id) then ss[id := CancelOne(ss[id])] else ss
    case Tick(outcome, price, now) => TickAll(ss, outcome, price, now)
  }

  /** The orders after a history of events; an order's id is its place in the order of creation. */
  function After(es: seq<Event>): seq<State> {
    if es == [] then [] else Step(After(es[..|es| - 1]), es[|es| - 1])
  }

  // ----------------------------------------------------------- whole history

  /** Event c created order k. */
  predicate CreatedAt(es: seq<Event>, c: nat, k: Id) {
    c < |es| && es[c].Create? && Acceptable(es[c].request) && |After(es[..c])| == k
  }

  /** The terms that event c created an order with. */
  function TermsAt(es: seq<Event>, c: nat): Terms
    requires c < |es| && es[c].Create? && Acceptable(es[c].request)
  {
    TermsOf(es[c].request)
  }

  predicate TickMeets(e: Event, t: Terms) {
    e.Tick? && e.outcome == t.outcome && Meets(t, e.price)
  }

  predicate OwnerCancels(e: Event, t: Terms, k: Id) {
    e == Cancel(t.profile, k)
  }

  /** The event would decide a pending order: a tick that meets its terms or a cancellation by its owner. */
  predicate Decides(e: Event, t: Terms, k: Id) {
    TickMeets(e, t) || OwnerCancels(e, t, k)
  }

  /** The first deciding event after event c. */
  function FirstDecision(es: seq<Event>, c: nat, t: Terms, k: Id): (r: Option<nat>)
    ensures r.Some? ==> c < r.value < |es| && Decides(es[r.value], t, k)
    ensures forall i :: c < i < (if r.Some? then r.value else |es|) ==> !Decides(es[i], t, k)
  {
    if |es| <= c + 1 then None
    else
      var last := |es| - 1;
      var before := FirstDecision(es[..last], c, t, k);
      assert forall i :: 0 <= i < last ==> es[..last][i] == es[i];
      if before.Some? then before
      else if Decides(es[last], t, k) then Some(last) else None
  }

  /** What the history says about the order. */
  function Decided(es: seq<Event>, c: nat, t: Terms, k: Id): State {
    match FirstDecision(es, c, t, k)
    case None => State(t, Pending, None)
    case Some(j) => if TickMeets(es[j], t) then State(t, Triggered, Some(es[j].now)) else State(t, Cancelled, None)
  }

  /** A pending order is triggered or cancelled by the next event exactly when that event says so. */
  lemma PendingStep(ss: seq<State>, e: Event, k: Id)
    requires k < |ss| && ss[k].status == Pending
    ensures k < |Step(ss, e)|
    ensures Step(ss, e)[k] == if TickMeets(e, ss[k].terms) then ss[k].(status := Triggered, triggeredAt := Some(e.now))
                              else if OwnerCancels(e, ss[k].terms, k) then ss[k].(status := Cancelled) else ss[k]
  {
  }

  /** An order that was triggered or cancelled never changes again. */
  lemma ClosedStep(ss: seq<State>, e: Event, k: Id)
    requires k < |ss| && ss[k].status != Pending
    ensures k < |Step(ss, e)| && Step(ss, e)[k] == ss[k]
  {
  }

  /** The incremental status agrees with the whole history: only the first deciding event counts. */
  lemma {:induction false} StatusIsDecided(es: seq<Event>, c: nat, k: Id)
    requires CreatedAt(es, c, k)
    ensures k < |After(es)| && After(es)[k] == Decided(es, c, TermsAt(es, c), k)
  {
    var last := |es| - 1;
    var p := es[..last];
    if c < last {
      assert p[..c] == es[..c];
      StatusIsDecided(p, c, k);
      if After(p)[k].status == Pending {
        PendingStep(After(p), es[last], k);
      } else {
        ClosedStep(After(p), es[last], k);
      }
    }
  }

  /** Tick j meets the terms, and the owner did not cancel between the creation and it. */
  ghost predicate TriggersAt(es: seq<Event>, c: nat, j: int, t: Terms, k: Id) {
    c < j < |es| && TickMeets(es[j], t) && forall i :: c < i < j ==> !OwnerCancels(es[i], t, k)
  }

  /** Cancellation j is the owner's, and no tick between the creation and it met the terms. */
  ghost predicate CancelsAt(es: seq<Event>, c: nat, j: int, t: Terms, k: Id) {
    c < j < |es| && OwnerCancels(es[j], t, k) && forall i :: c < i < j ==> !TickMeets(es[i], t)
  }

  /**
   For any interleaving of creations, cancellations and ticks: an order is triggered exactly when some tick on
   its outcome, after its creation and before any cancellation by its owner, met its condition.
   */
  lemma TriggeredExactlyWhen(es: seq<Event>, c: nat, k: Id)
    requires CreatedAt(es, c, k)
    ensures k < |After(es)|
    ensures After(es)[k].status == Triggered <==> exists j :: TriggersAt(es, c, j, TermsAt(es, c), k)
  {
    StatusIsDecided(es, c, k);
    var first := FirstDecision(es, c, TermsAt(es, c), k);
    assert first.Some? && TickMeets(es[first.value], TermsAt(es, c))
        ==> TriggersAt(es, c, first.value, TermsAt(es, c), k);
  }

  /** It is cancelled exactly when its owner cancelled it before any tick met its condition. */
  lemma CancelledExactlyWhen(es: seq<Event>, c: nat, k: Id)
    requires CreatedAt(es, c, k)
    ensures k < |After(es)|
    ensures After(es)[k].status == Cancelled <==> exists j :: CancelsAt(es, c, j, TermsAt(es, c), k)
  {
    StatusIsDecided(es, c, k);
    var first := FirstDecision(es, c, TermsAt(es, c), k);
    assert first.Some? && !TickMeets(es[first.value], TermsAt(es, c))
        ==> CancelsAt(es, c, first.value, TermsAt(es, c), k);
  }

  // ------------------------------------------------------------------ ticks

  /** What the check_triggers call of event j returned. */
  function ReturnedAt(es: seq<Event>, j: nat): seq<Id>
    requires j < |es| && es[j].Tick?
  {
    var before := After(es[..j]);
    FiredIds(before, |before|, es[j].outcome, es[j].price)
  }

  lemma {:induction false} FiredIdsAreFired(ss: seq<State>, n: nat, outcome: Id, price: real, k: Id)
    requires n <= |ss|
    ensures k in FiredIds(ss, n, outcome, price) <==> k < n && Fires(ss[k], outcome, price)
  {
    if n > 0 { FiredIdsAreFired(ss, n - 1, outcome, price, k); }
  }

  /** A call returns an order exactly when its tick is the event that decides the order. */
  lemma ReturnedExactlyWhenDecided(es: seq<Event>, c: nat, k: Id, j: nat)
    requires CreatedAt(es, c, k) && j < |es| && es[j].Tick? && c != j
    ensures k in ReturnedAt(es, j) <==> FirstDecision(es, c, TermsAt(es, c), k) == Some(j)
  {
    var before := After(es[..j]);
    FiredIdsAreFired(before, |before|, es[j].outcome, es[j].price, k);
    if c < j {
      assert es[..j][..c] == es[..c];
      StatusIsDecided(es[..j], c, k);
      assert forall i :: 0 <= i < j ==> es[..j][i] == es[i];
    } else {
      EarlierIsShorter(es, j, c);
    }
  }

  /** Orders are only ever added. */
  lemma {:induction false} EarlierIsShorter(es: seq<Event>, i: nat, j: nat)
    requires i <= j <= |es|
    ensures |After(es[..i])| <= |After(es[..j])|
  {
    if i < j {
      EarlierIsShorter(es, i, j - 1);
      assert es[..j][..j - 1] == es[..j - 1];
    }
  }

  /** Every order stems from one creation. */
  lemma {:induction false} EveryOrderWasCreated(es: seq<Event>, k: Id) returns (c: nat)
    requires k < |After(es)|
    ensures CreatedAt(es, c, k)
  {
    var last := |es| - 1;
    var p := es[..last];
    if k < |After(p)| {
      c := EveryOrderWasCreated(p, k);
      assert p[..c] == es[..c];
    } else {
      c := last;
    }
  }

  ghost predicate InOrder(ids: seq<Id>, top: nat) {
    && (forall i :: 0 <= i < |ids| ==> ids[i] < top)
    && forall i, j :: 0 <= i < j < |ids| ==> ids[i] < ids[j]
  }

  /** A call returns the orders in the order of their creation. */
  lemma {:induction false} FiredInOrder(ss: seq<State>, n: nat, outcome: Id, price: real)
    requires n <= |ss|
    ensures InOrder(FiredIds(ss, n, outcome, price), n)
  {
    if n > 0 {
      FiredInOrder(ss, n - 1, outcome, price);
      LastInOrder(FiredIds(ss, n - 1, outcome, price), n - 1);
    }
  }

  lemma LastInOrder(ids: seq<Id>, top: nat)
    requires InOrder(ids, top)
    ensures InOrder(ids, top + 1) && InOrder(ids + [top], top + 1)
  {
  }

  /** No order is ever returned by two calls, so none is submitted twice. */
  lemma ReturnedAtMostOnce(es: seq<Event>, k: Id, i: nat, j: nat)
    requires i < |es| && es[i].Tick? && k in ReturnedAt(es, i)
    requires j < |es| && es[j].Tick? && k in ReturnedAt(es, j)
    ensures i == j
  {
    var before := After(es[..i]);
    FiredIdsAreFired(before, |before|, es[i].outcome, es[i].price, k);
    EarlierIsShorter(es, i, |es|);
    assert es[..|es|] == es;
    var c := EveryOrderWasCreated(es, k);
    ReturnedExactlyWhenDecided(es, c, k, i);
    ReturnedExactlyWhenDecided(es, c, k, j);
  }

  /** A triggered order was returned by exactly the call whose time it bears. */
  lemma TriggeredWasReturned(es: seq<Event>, c: nat, k: Id)
    requires CreatedAt(es, c, k)
    ensures k < |After(es)|
    ensures After(es)[k].status == Triggered
            <==> exists j ::
                   && 0 <= j < |es| && es[j].Tick? && k in ReturnedAt(es, j)
                   && After(es)[k].triggeredAt == Some(es[j].now)
  {
    StatusIsDecided(es, c, k);
    var first := FirstDecision(es, c, TermsAt(es, c), k);
    if After(es)[k].status == Triggered {
      ReturnedExactlyWhenDecided(es, c, k, first.value);
    } else {
      forall j | 0 <= j < |es| && es[j].Tick? ensures k !in ReturnedAt(es, j) {
        ReturnedExactlyWhenDecided(es, c, k, j);
      }
    }
  }

  // ------------------------------------------------------------- stop losses

  /** Lowest price of the outcome in the ticks after event c. */
  function RunningMinimum(es: seq<Event>, c: nat, outcome: Id): Option<real> {
    if |es| <= c + 1 then None
    else
      var e := es[|es| - 1];
      var before := RunningMinimum(es[..|es| - 1], c, outcome);
      if !e.Tick? || e.outcome != outcome then before
      else if before.Some? && before.value <= e.price then before else Some(e.price)
  }

  /** Highest price of the outcome in the ticks after event c. */
  function RunningMaximum(es: seq<Event>, c: nat, outcome: Id): Option<real> {
    if |es| <= c + 1 then None
    else
      var e := es[|es| - 1];
      var before := RunningMaximum(es[..|es| - 1], c, outcome);
      if !e.Tick? || e.outcome != outcome then before
      else if before.Some? && before.value >= e.price then before else Some(e.price)
  }

  /** Stops to sell wait for a low price, and so does buying at a profit. */
  predicate WaitsForLow(t: Terms) {
    || (t.side == Sell && (t.kind == StopLoss || t.kind == TrailingStop))
    || (t.side == Buy && t.kind == TakeProfit)
  }

  /** Selling at a profit waits for a high price, and so does a stop to buy. */
  predicate WaitsForHigh(t: Terms) {
    || (t.side == Sell && t.kind == TakeProfit)
    || (t.side == Buy && t.kind == StopLoss)
  }

  lemma {:induction false} MinimumReachesTrigger(es: seq<Event>, c: nat, t: Terms)
    requires WaitsForLow(t)
    ensures var low := RunningMinimum(es, c, t.outcome);
            low.Some? && low.value <= t.triggerPrice <==> exists j :: c < j < |es| && TickMeets(es[j], t)
  {
    if |es| > c + 1 {
      var last := |es| - 1;
      var p := es[..last];
      MinimumReachesTrigger(p, c, t);
      assert forall i :: 0 <= i < last ==> p[i] == es[i];
    }
  }

  lemma {:induction false} MaximumReachesTrigger(es: seq<Event>, c: nat, t: Terms)
    requires WaitsForHigh(t)
    ensures var high := RunningMaximum(es, c, t.outcome);
            high.Some? && high.value >= t.triggerPrice <==> exists j :: c < j < |es| && TickMeets(es[j], t)
  {
    if |es| > c + 1 {
      var last := |es| - 1;
      var p := es[..last];
      MaximumReachesTrigger(p, c, t);
      assert forall i :: 0 <= i < last ==> p[i] == es[i];
    }
  }

  /** Without a cancellation by the owner, an order is triggered exactly when some tick met its terms. */
  lemma UncancelledFollowsTicks(es: seq<Event>, c: nat, k: Id)
    requires CreatedAt(es, c, k) && forall i :: c < i < |es| ==> !OwnerCancels(es[i], TermsAt(es, c), k)
    ensures k < |After(es)|
    ensures After(es)[k].status == Triggered <==> exists j :: c < j < |es| && TickMeets(es[j], TermsAt(es, c))
  {
    TriggeredExactlyWhen(es, c, k);
    if j :| c < j < |es| && TickMeets(es[j], TermsAt(es, c)) {
      assert TriggersAt(es, c, j, TermsAt(es, c), k);
    }
  }

  /**
   A stop to sell, or an order to buy at a profit, that its owner never cancels is triggered exactly when the running
   minimum of its outcome reached the trigger. Trailing stops are no different: their offset plays no part.
   */
  lemma LowOrdersFollowMinimum(es: seq<Event>, c: nat, k: Id)
    requires CreatedAt(es, c, k) && WaitsForLow(TermsAt(es, c))
    requires forall i :: c < i < |es| ==> !OwnerCancels(es[i], TermsAt(es, c), k)
    ensures k < |After(es)|
    ensures var low := RunningMinimum(es, c, TermsAt(es, c).outcome);
            After(es)[k].status == Triggered <==> low.Some? && low.value <= TermsAt(es, c).triggerPrice
  {
    UncancelledFollowsTicks(es, c, k);
    MinimumReachesTrigger(es, c, TermsAt(es, c));
  }

  /**
   An order to sell at a profit, or a stop to buy, that its owner never cancels is triggered exactly when the running
   maximum of its outcome reached the trigger.
   */
  lemma HighOrdersFollowMaximum(es: seq<Event>, c: nat, k: Id)
    requires CreatedAt(es, c, k) && WaitsForHigh(TermsAt(es, c))
    requires forall i :: c < i < |es| ==> !OwnerCancels(es[i], TermsAt(es, c), k)
    ensures k < |After(es)|
    ensures var high := RunningMaximum(es, c, TermsAt(es, c).outcome);
            After(es)[k].status == Triggered <==> high.Some? && high.value >= TermsAt(es, c).triggerPrice
  {
    UncancelledFollowsTicks(es, c, k);
    MaximumReachesTrigger(es, c, TermsAt(es, c));
  }

  /**
   A creation is accepted exactly for the three kinds, the two sides and numbers where numbers are due; the new order
   is pending and has the terms that were asked for.
   */
  lemma CreationRecords(ss: seq<State>, r: Request)
    ensures var ss' := Step(ss, Create(r));
            if && (r.kind == StopLoss || r.kind == TakeProfit || r.kind == TrailingStop)
               && (r.side == Buy || r.side == Sell)
               && r.quantity.Some? && r.triggerPrice.Some? && r.limitPrice != NotNumber
            then
              && |ss'| == |ss| + 1 && ss'[..|ss|] == ss
              && ss'[|ss|].status == Pending && ss'[|ss|].triggeredAt == None
              && var t := ss'[|ss|].terms;
                 && t.profile == r.profile && t.marketSlug == r.marketSlug && t.outcome == r.outcome
                 && t.side == r.side && t.kind == r.kind && t.trailingOffsetBps == r.trailingOffsetBps
                 && Some(t.quantity) == r.quantity && Some(t.triggerPrice) == r.triggerPrice
                 && (t.limitPrice == None <==> r.limitPrice == Absent)
                 && (t.limitPrice.Some? ==> r.limitPrice == Number(t.limitPrice.value))
            else ss' == ss
  {
  }

  /** A trailing stop to buy is accepted and then never triggers, whatever the prices do. */
  lemma BuyTrailingStopNeverTriggers(es: seq<Event>, c: nat, k: Id)
    requires CreatedAt(es, c, k) && TermsAt(es, c).kind == TrailingStop && TermsAt(es, c).side == Buy
    ensures k < |After(es)| && After(es)[k].status != Triggered
  {
    StatusIsDecided(es, c, k);
  }

  // ----------------------------------------------------------------- service

  class ConditionalOrder {
    const terms: Terms
    var status: Status
    var triggeredAt: Option<Time>

    constructor (terms: Terms)
      ensures this.terms == terms && status == Pending && triggeredAt == None
    {
      this.terms, status, triggeredAt := terms, Pending, None;
    }

    ghost function View(): State
      reads this
    {
      State(terms, status, triggeredAt)
    }
  }

  /** Ids are drawn afresh and the dictionary keeps the order of insertion, so an order's id is its place. */
  class AdvancedOrderService {
    var orders: seq<ConditionalOrder>

    /** No two ids share an order object. */
    ghost predicate Valid()
      reads this
    {
      forall i, j :: 0 <= i < j < |orders| ==> orders[i] != orders[j]
    }

    ghost function States(): seq<State>
      reads this, orders
    {
      seq(|orders|, i requires 0 <= i < |orders| reads this, orders => orders[i].View())
    }

    constructor ()
      ensures Valid() && States() == []
    {
      orders := [];
    }

    method CreateConditionalOrder(request: Request) returns (r: Result<ConditionalOrder>)
      requires Valid()
      modifies this
      ensures Valid() && States() == Step(old(States()), Create(request))
      ensures Acceptable(request) <==> r.Success?
      ensures r.Failure? ==> r.error == Invalid && orders == old(orders)
      ensures r.Success? ==> fresh(r.value) && orders == old(orders) + [r.value]
    {
      if request.kind.OtherKind? { return Failure(Invalid); }
      if request.side.OtherSide? { return Failure(Invalid); }
      if request.quantity.None? || request.triggerPrice.None? { return Failure(Invalid); }
      var limitPrice: Option<real> := None;
      match request.limitPrice {
        case Absent =>
        case NotNumber => return Failure(Invalid);
        case Number(value) => limitPrice := Some(value);
      }
      var order := new ConditionalOrder(Terms(
        request.profile, request.marketSlug, request.outcome, request.side, request.quantity.value,
        request.triggerPrice.value, limitPrice, request.kind, request.trailingOffsetBps));
      orders := orders + [order];
      return Success(order);
    }

    method CancelOrder(profile: Id, id: Id) returns (r: Option<ConditionalOrder>)
      requires Valid()
      modifies orders
      ensures Valid() && States() == Step(old(States()), Cancel(profile, id))
      ensures r == if MayCancel(old(States()), profile, id) then Some(orders[id]) else None
    {
      if id >= |orders| || orders[id].terms.profile != profile { return None; }
      var order := orders[id];
      if order.status != Pending { return Some(order); }
      order.status := Cancelled;
      return Some(order);
    }

    method CheckTriggers(outcome: Id, price: real, now: Time) returns (triggered: seq<ConditionalOrder>)
      requires Valid()
      modifies orders
      ensures Valid() && States() == Step(old(States()), Tick(outcome, price, now))
      ensures var ids := FiredIds(old(States()), |old(States())|, outcome, price);
              |triggered| == |ids| && forall i :: 0 <= i < |ids| ==> ids[i] < |orders| && triggered[i] == orders[ids[i]]
    {
      ghost var before := States();
      ghost var ids: seq<Id> := [];
      triggered := [];
      for n := 0 to |orders|
        invariant ids == FiredIds(before, n, outcome, price)
        invariant |triggered| == |ids|
        invariant forall i :: 0 <= i < |ids| ==> ids[i] < |orders| && triggered[i] == orders[ids[i]]
        invariant forall i :: 0 <= i < n ==> orders[i].View() == TickOne(before[i], outcome, price, now)
        invariant forall i :: n <= i < |orders| ==> orders[i].View() == before[i]
      {
        var order := orders[n];
        assert order.View() == before[n];
        if order.status == Pending && order.terms.outcome == outcome {
          var shouldTrigger := false;
          if order.terms.kind == StopLoss {
            if order.terms.side == Sell && price <= order.terms.triggerPrice {
              shouldTrigger := true;
            } else if order.terms.side == Buy && price >= order.terms.triggerPrice {
              shouldTrigger := true;
            }
          } else if order.terms.kind == TakeProfit {
            if order.terms.side == Sell && price >= order.terms.triggerPrice {
              shouldTrigger := true;
            } else if order.terms.side == Buy && price <= order.terms.triggerPrice {
              shouldTrigger := true;
            }
          } else if order.terms.kind == TrailingStop {
            if order.terms.side == Sell && price <= order.terms.triggerPrice {
              shouldTrigger := true;
            }
          }
          if shouldTrigger {
            order.status := Triggered;
            order.triggeredAt := Some(now);
            triggered := triggered + [order];
            ids := ids + [n];
          }
        }
      }
    }
  }
}
