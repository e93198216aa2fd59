/**
 The automated market maker as an object: one inventory per market and outcome, quoted by QuoteRules and moved by
 fills. Each call on a key is one step of a run in InventoryLimits, where the properties of runs are proved.
 */
module MarketMaker {
  import opened Wrappers
  import opened QuoteRules
  import opened InventoryLimits

  datatype Key = Key(marketId: nat, outcomeId: nat)

  /** The quantities an answer puts out: none without a quote. */
  function Offered(answer: Result<Option<Quote>>): (real, real) {
    if answer.Success? && answer.value.Some?
    then (answer.value.value.bidQuantity, answer.value.value.askQuantity) else (0.0, 0.0)
  }

  class Inventory {
    var netPosition: real
    var totalBought: real
    var totalSold: real
    var pausedReason: Option<Pause>

    constructor ()
      ensures netPosition == totalBought == totalSold == 0.0 && pausedReason == None
    {
      netPosition, totalBought, totalSold, pausedReason := 0.0, 0.0, 0.0, None;
    }
  }

  class AmmService {
    const config: Config
    var inventories: map<Key, Inventory>

    /** Inventories are separate objects, and every position is what was bought less what was sold. */
    ghost predicate Valid()
      reads this, inventories.Values
    {
      && (forall k, l :: k in inventories && l in inventories && k != l ==> inventories[k] != inventories[l])
      && (forall k :: k in inventories ==>
            inventories[k].netPosition == inventories[k].totalBought - inventories[k].totalSold)
    }

    ghost function PositionOf(k: Key): Position
      reads this, inventories.Values
    {
      if k in inventories
      then Position(inventories[k].netPosition, inventories[k].totalBought, inventories[k].totalSold,
                    inventories[k].pausedReason)
      else NO_POSITION
    }

    constructor (config: Config)
      ensures Valid() && this.config == config && inventories == map[]
    {
      this.config := config;
      inventories := map[];
    }

    method GetInventory(key: Key) returns (inv: Inventory)
      requires Valid()
      modifies this
      ensures Valid() && key in inventories && inventories[key] == inv
      ensures fresh(inventories.Values - old(inventories.Values))
      ensures forall k :: PositionOf(k) == old(PositionOf(k))
    {
      if key !in inventories {
        var created := new Inventory();
        inventories := inventories[key := created];
      }
      inv := inventories[key];
    }

    /** Quantities for a position; a zero inventory limit makes the skew of an open position undefined. */
    method SizeQuotes(net: real) returns (bidQty: real, askQty: real)
      requires config.maxInventory != 0.0 || net == 0.0
      ensures bidQty == BidSize(config, net) && askQty == AskSize(config, net)
    {
      bidQty, askQty := config.quoteSize, config.quoteSize;
      if net > 0.0 {
        var skew := Min(net / config.maxInventory, 1.0);
        bidQty := Shrink(bidQty, skew);
        askQty := Grow(askQty, skew);
      } else if net < 0.0 {
        var skew := Min(Abs(net) / config.maxInventory, 1.0);
        askQty := Shrink(askQty, skew);
        bidQty := Grow(bidQty, skew);
      }
      bidQty := Max(1.0, bidQty);
      askQty := Max(1.0, askQty);
      if net >= config.maxInventory {
        bidQty := 0.0;
      } else if net <= -config.maxInventory {
        askQty := 0.0;
      }
    }

    method NotePause(key: Key, inv: Inventory)
      requires Valid() && key in inventories && inventories[key] == inv
      modifies inv`pausedReason
      ensures Valid() && PositionOf(key) == old(PositionOf(key)).(paused := PauseAt(config, inv.netPosition))
      ensures forall k :: k != key ==> PositionOf(k) == old(PositionOf(k))
    {
      inv.pausedReason := PauseAt(config, inv.netPosition);
    }

    /** The quote rules' answer; the position takes the step that posting a quote is in a run. */
    method ComputeQuotes(key: Key, currentMid: Option<real>, organicSpreadBps: Option<int>)
      returns (r: Result<Option<Quote>>)
      requires Valid()
      modifies this, inventories.Values
      ensures Valid()
      ensures forall k :: k != key ==> PositionOf(k) == old(PositionOf(k))
      ensures r == QuoteFor(config, old(PositionOf(key)).net, currentMid, organicSpreadBps)
      ensures var before := Desk(old(PositionOf(key)), 0.0, 0.0);
              Desk(PositionOf(key), Offered(r).0, Offered(r).1)
              == Act(config, before, PostQuote(currentMid, organicSpreadBps))
    {
      if !config.enabled { return Success(None); }
      var mid := MidOr(currentMid);
      if organicSpreadBps.Some? && organicSpreadBps.value <= config.minSpreadThresholdBps
         && !config.autoQuoteThinMarkets
      {
        return Success(None);
      }
      var inv := GetInventory(key);
      var net := inv.netPosition;
      assert net == PositionOf(key).net;
      if net != 0.0 && config.maxInventory == 0.0 { return Failure(Invalid); }
      var bidQty, askQty := SizeQuotes(net);
      NotePause(key, inv);
      var bidPrice, askPrice := BidPrice(config, mid), AskPrice(config, mid);
      r := Success(Some(Quote(bidPrice, bidQty, askPrice, askQty, mid, QuotedSpreadBps(bidPrice, askPrice, mid))));
    }

    /** The position takes the step that a fill is in a run, whatever is left of the quote. */
    method RecordFill(key: Key, buy: bool, quantity: real)
      requires Valid()
      modifies this, inventories.Values
      ensures Valid()
      ensures forall k :: k != key ==> PositionOf(k) == old(PositionOf(k))
      ensures forall bid: real, ask: real ::
                PositionOf(key) == Act(config, Desk(old(PositionOf(key)), bid, ask), Fill(buy, quantity)).position
      ensures PositionOf(key).net == old(PositionOf(key)).net + if buy then quantity else -quantity
      ensures PositionOf(key).bought == old(PositionOf(key)).bought + if buy then quantity else 0.0
      ensures PositionOf(key).sold == old(PositionOf(key)).sold + if buy then 0.0 else quantity
    {
      var inv := GetInventory(key);
      if buy {
        inv.netPosition := inv.netPosition + quantity;
        inv.totalBought := inv.totalBought + quantity;
      } else {
        inv.netPosition := inv.netPosition - quantity;
        inv.totalSold := inv.totalSold + quantity;
      }
    }
  }
}
