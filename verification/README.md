# Beyul: a verified model of markets, trading, settlement and pricing

Beyul is a prediction-market back end. This project models seven pieces of its state and arithmetic in Dafny and
proves what they keep over whole runs. `dafny verify dfyconfig.toml` checks everything.

- **Market resolution** (`MarketProtocol`, `MarketInvariants`, `Repositories`). Status changes, a settlement request,
  disputes, evidence, review, oracle reconciliation and finalization are separate calls that edit several dictionaries.
  `MarketProtocol` says what each call does to the record of one market and to the board of all markets;
  `MarketRepository` does the same by updating five dictionaries in place and is proved to follow it;
  `MarketInvariants` proves the properties of all runs, and `ProtocolLaws` says field by field what each call writes.
- **Trading** (`TradingRules`, `TradingLaws`, `Solvency`, `OrderBook`, `BookLaws`, `TradeHistory`, `Repositories`). Orders reserve collateral; the
  reserve is summed over all orders every time. The order book and the price chart are aggregations, built by loops
  over dictionaries, that are proved to agree with the raw orders and trades.
- **Ledger** (`Ledger`). The Postgres repository's settlement and funding as updates of table rows: a double-entry
  journal, the payout loop over signed positions, and the outcome update in two statements.
- **Market maker** (`QuoteRules`, `InventoryLimits`, `MarketMaker`). Quote prices and inventory-skewed sizes, the
  position that fills feed back, and exactly which configurations keep it bounded.
- **Rate limiting** (`RateLimit`). A pruned list of timestamps against the whole history of accepted hits.
- **Conditional orders** (`ConditionalOrders`). An incremental trigger loop against a reading of the whole history.
- **Rolling markets** (`Calendar`, `RollingWindows`, `WindowSlugs`, `RollingCycle`). Calendar, window grid, slug codec,
  and runs of the cycle against a table of which they read one page.
- **Fees** (`Fees`). Rounded fees and the error they accumulate over many fills.

`Wrappers`, `Decimals`, `Grid` and `Sorting` hold what the modules share. Code that updates objects is modelled by
classes and methods with loops, each proved against a specification function; the theorems are about those functions
and runs of them, and say what they write and answer in terms of statuses, fields and amounts. Decimals are exact reals with the program's explicit roundings; stored order and ledger amounts are
integers in units of 10^-8. Times, fresh ids and the oracle's answers are parameters or counters.

## Where the code and its words differ

- A *trailing stop* does not trail: its offset is stored and never used. To sell it is a stop-loss, to buy it never
  triggers (`LowOrdersFollowMinimum`, `BuyTrailingStopNeverTriggers`).
- `create_market_order` checks raw amounts and stores rounded ones, so off the eight-decimal grid the guard can pass an
  order that the balance does not cover (`PlaceKeepsSolventExactly`, `RoundingCanOverdraw`).
- The creator fee is described as a share of the platform fee; the code takes it from the gross notional, so it
  exceeds the platform fee whenever its rate does (`CreatorFeeWithinPlatformFeeExactly`).
- `retry_after_seconds` is rounded down, so a client that waits exactly that long can be rejected again
  (`ReportedTimeSufficesExactly`).
- An upheld dispute does not stop finalization (`UpheldDisputeDoesNotBlock`); a finalization that names no candidate
  leaves the candidate unconfirmed (`FinalizationConfirmsNamedCandidate`).
- Rolling windows of different runs agree only for intervals that divide the day (`RunsAgreeExactly`), although every
  interval from 1 to 60 minutes is accepted.
- Outside the mid prices 0.02 to 0.98 the market maker's bid can be above its ask (`QuoteIsUncrossedExactly`,
  `OutsideLimitsQuoteCrosses`), and unless the quote size is at most one or a multiple of a half a longer position can
  raise the bid (`LeansExactly`). The limit on inventory holds up to one quote exactly for the sizes that
  `BoundHoldsExactly` gives.
- The rolling cycle looks for existing markets on the newest page only, so a repeated run can fail on a market it did
  not see (`CycleIsIdleExactly`, `FullPageRefusesSecondRun`).
- Naming a candidate that is not the market's makes finalization fail in the Postgres repository and succeed in the
  memory repository (`SettlesExactly`, `FinalizationConfirmsNamedCandidate`).

## Model

| member | source | states |
|---|---|---|
| `MarketInvariants.ApplyKeepsCoherent` | services/api/app/repositories/memory.py:1041-1377 | Every call on a market keeps market, resolution, candidates, disputes and outcomes of that market consistent: the protocol's inductive invariant |
| `MarketInvariants.StepKeepsValid` | services/api/app/repositories/memory.py:832-1377 | One call on any market keeps the whole board valid: every record coherent, all ids distinct and drawn once, no dispute shared by two markets |
| `MarketInvariants.RunKeepsValid` | services/api/app/repositories/memory.py:832-1377 | The same for every run of calls in any order |
| `MarketInvariants.NewestDisputeDecides` | services/api/app/repositories/memory.py:1041-1180 | In every reachable state, while settlement is requested and not final, the statuses of market, resolution and candidate are one function of the newest dispute; every older dispute is closed |
| `MarketInvariants.ReviewableIsNewest` | services/api/app/repositories/memory.py:1138-1158 | A dispute that may still be edited is the newest one, and its market is disputed and pending |
| `MarketInvariants.ReviewGuardedByInvariant` | services/api/app/repositories/memory.py:1129-1180 | Although review never looks at the market's status, it succeeds exactly on the active newest dispute of a disputed market that is not final, changes that dispute alone, and leaves the market in the resolution phase with its outcomes untouched |
| `MarketInvariants.FinalizationGate` | services/api/app/repositories/memory.py:1300-1326 | In a coherent market, finalizing (for a listed winner) and raising a dispute succeed under one and the same condition: a resolution that is not final and no active newest dispute |
| `MarketInvariants.FinalizationConfirmsNamedCandidate` | services/api/app/repositories/memory.py:1336-1361 | Finalization confirms the market's candidate exactly when the call names it; any other call leaves the candidate as it was |
| `MarketInvariants.UpheldDisputeDoesNotBlock` | services/api/app/repositories/memory.py:1175-1180 | An upheld dispute does not stop finalization; the market settles with its candidate still rejected |
| `MarketInvariants.RunEvolves` | services/api/app/repositories/memory.py:984-1377 | Over any run phases only move forward, settled and cancelled are absorbing (outcomes, resolution and disputes of a settled market never change), dispute lists grow only at the front, closed disputes and submitted evidence stay, and a market never gets a second candidate |
| `MarketInvariants.StepEvolves` | services/api/app/repositories/memory.py:984-1377 | The same for one call; a slug can only lose its market to one published later |
| `MarketInvariants.RequestedAtMostOnce` | services/api/app/repositories/memory.py:1182-1257 | Over any run settlement is requested successfully at most once per market, and never again for a market that left trading |
| `MarketInvariants.SettledOneHot` | services/api/app/repositories/memory.py:1313-1326 | Once a listed winner is named, exactly the winner pays one and everything else pays zero |
| `MarketInvariants.OneHotSumsToOne` | services/api/app/repositories/memory.py:1313-1326 | With distinct outcome ids the settlement values of a decided market sum to one |
| `ProtocolLaws.CallsTouchOneMarket` | services/api/app/repositories/memory.py:832-1377 | A call for a market that is not listed is NotFound, a failing call changes nothing, and no call changes another market |
| `ProtocolLaws.PublishRecords` | services/api/app/repositories/memory.py:918-970 | A published market waits for liquidity, is undecided, and has a YES and a NO outcome under ids of their own; no other market changes |
| `ProtocolLaws.StatusMovesExactly` | services/api/app/repositories/memory.py:984-997 | The six moves an administrator may make, and no others: waiting to open, open to paused and back, any of the three to cancelled; only the status changes, and every other request is a conflict |
| `ProtocolLaws.RequestRecords` | services/api/app/repositories/memory.py:1182-1257 | A settlement request is accepted exactly for a market in trading whose oracle does not refuse; the new candidate, the pending resolution with its due time, and the market are given field by field, the oracle's entries overriding the defaults |
| `ProtocolLaws.DisputeRecords` | services/api/app/repositories/memory.py:1041-1088 | An accepted dispute is put before the others with its author, reason and resolution, open and without evidence; the resolution is disputed and exactly its candidate rejected by the author |
| `ProtocolLaws.EvidenceRecords` | services/api/app/repositories/memory.py:1090-1127 | Evidence is accepted exactly for the newest dispute while it is open or under review; afterwards that dispute's evidence is the old list and the new entry, and nothing else of the market differs |
| `ProtocolLaws.RunKeepsEvidenceBelow` | services/api/app/repositories/memory.py:1090-1127 | Over any run evidence ids come from the supply of ids, so the id of new evidence was never used |
| `ProtocolLaws.ReviewRecords` | services/api/app/repositories/memory.py:1129-1180 | A review is accepted exactly for the newest dispute while it is open or under review; each of the four verdicts gives the status of its name, and all but taking under review close it now; dismissing and withdrawing reopen the resolution and its candidate, the others leave both blocked |
| `ProtocolLaws.ReconcileRecords` | services/api/app/repositories/memory.py:1259-1298 | For a market in resolution reconciling succeeds exactly when the oracle answers, and replaces the payload of the resolution's candidate and nothing else |
| `ProtocolLaws.FinalizationRecords` | services/api/app/repositories/memory.py:1313-1377 | Finalization gives the winner status and value one and every other outcome the opposite, keeps ids and codes, dates the market, names the winner in the resolution and keeps the rest of it, and confirms the named candidate with its winner, reviewer and notes |
| `ProtocolLaws.FinalizationAnswers` | services/api/app/repositories/memory.py:1041-1326 | Finalizing and disputing fail with a conflict outside the resolution phase or while a dispute is open or under review, and finalizing then with NotFound for a winner that is not listed; otherwise they succeed |
| `Repositories.Commit` | services/api/app/repositories/memory.py:826-830 | Updating the five dictionaries at one market's keys and one dispute's evidence is exactly the step of the protocol and keeps the dictionaries in step with each other |
| `Repositories.MarketRepository.constructor` | services/api/app/repositories/memory.py:815-830 | A new repository stands for the empty board |
| `Repositories.MarketRepository.Publish` | services/api/app/repositories/memory.py:832-970 | Publishing adds a new undecided market with two outcomes and replaces whatever was listed under the slug |
| `Repositories.MarketRepository.UpdateMarketStatus` | services/api/app/repositories/memory.py:984-997 | Takes the protocol's step or fails with the protocol's error and changes nothing |
| `Repositories.MarketRepository.RequestSettlement` | services/api/app/repositories/memory.py:1182-1257 | Takes the protocol's step, whatever the oracle answers, or fails with its error |
| `Repositories.MarketRepository.CreateMarketDispute` | services/api/app/repositories/memory.py:1041-1088 | Takes the protocol's step on all five dictionaries or fails with its error; the dispute returned is the market's newest |
| `Repositories.MarketRepository.AddMarketDisputeEvidence` | services/api/app/repositories/memory.py:1090-1127 | After a success the dispute's evidence is the old list and the new entry with the given author and content under a fresh id, the evidence dictionary holds the same list under the dispute, and no other entry or dictionary changes; otherwise the protocol's error |
| `Repositories.EvidenceCommits` | services/api/app/repositories/memory.py:1115-1126 | The two writes of an evidence call are the protocol's step, keep both stores in step, and are the appended entry and nothing else |
| `Repositories.MarketRepository.ReviewMarketDispute` | services/api/app/repositories/memory.py:1129-1180 | Takes the protocol's step for every verdict or fails with its error |
| `Repositories.MarketRepository.ReconcileOracleResolution` | services/api/app/repositories/memory.py:1259-1298 | Replaces the payload of the active candidate alone, or fails with the protocol's error |
| `Repositories.MarketRepository.SettleMarket` | services/api/app/repositories/memory.py:1300-1377 | Finalization: takes the protocol's step; in the trading repository every pending, open or partly filled order of this market is cancelled with nothing remaining and no other order changes; a failure has the protocol's error and changes neither |
| `Repositories.MarketRepository.FindMarketById` | services/api/app/repositories/memory.py:1379-1383 | The scan finds the only market with the id, or none when there is none |
| `Repositories.RemarkCandidates` | services/api/app/repositories/memory.py:1079-1087 | The loop remarks exactly the candidates with the given id and keeps the list's order |
| `Repositories.ConfirmNamed` | services/api/app/repositories/memory.py:1337-1359 | The loop confirms exactly the named candidate |
| `Repositories.DecideOutcomes` | services/api/app/repositories/memory.py:1313-1326 | The loop reports a winner exactly when the outcomes it built are one-hot for it |
| `Repositories.TradingRepository.constructor` | services/api/app/repositories/memory.py:1387-1393 | A new trading repository is empty and becomes the one its market repository notifies |
| `Repositories.CheckRequest` | services/api/app/repositories/memory.py:1470-1481 | Passes exactly the well-formed limit requests for markets that take orders; every other request is a conflict |
| `Repositories.TradingRepository.ReservedBalance` | services/api/app/repositories/memory.py:1682-1689 | The scan over all orders, with a market lookup for each, is the reserve of the actor on the rail |
| `Repositories.TradingRepository.CreateMarketOrder` | services/api/app/repositories/memory.py:1463-1513 | Places the order or fails with the first error in the program's order; a request that reaches the balance check opens the account even when it fails |
| `Solvency.PlacedExactly` | services/api/app/repositories/memory.py:1463-1513 | An order is accepted exactly for a listed market that is open or waits for liquidity, a limit request to buy or sell a positive quantity at a price strictly between 0 and 1, a listed outcome, and an available balance that covers the raw cost; NotFound is answered exactly for an unlisted market or, when all else is fine, an unlisted outcome |
| `Repositories.TradingRepository.CancelMarketOrder` | services/api/app/repositories/memory.py:1515-1534 | Cancels the order with the id in this market, or fails for a missing order, a stranger, or an order that is not active |
| `Repositories.TradingRepository.FundBalance` | services/api/app/repositories/memory.py:1576-1584 | Adds the amount to the account; an account funded before its first use gets no seed |
| `Repositories.TradingRepository.OpenPortfolioAccounts` | services/api/app/repositories/memory.py:1549-1550 | Reading a portfolio writes only for a profile without any account |
| `Repositories.TradingRepository.CancelOrdersForMarket` | services/api/app/repositories/memory.py:1710-1720 | Every pending, open or partly filled order of the market keeps all fields but becomes cancelled with nothing remaining; orders of other markets and closed orders are unchanged |
| `Solvency.PlaceTakesItsCollateral` | services/api/app/repositories/memory.py:1463-1513 | Placing lowers the available balance of the owner on the market's rail by the collateral of the stored order and changes no other actor's or rail's; a rejected request changes none |
| `Solvency.CancelGivesBack` | services/api/app/repositories/memory.py:1515-1534 | Cancelling gives the owner exactly what the order held, on its rail, and nobody else anything |
| `Solvency.PlaceThenCancelRestores` | services/api/app/repositories/memory.py:1463-1534 | An order just placed can be cancelled by its owner, and then every available balance is what it was |
| `Solvency.SettledMarketsHaveNoActiveOrder` | services/api/app/repositories/memory.py:1300-1377 | In every reachable state of the exchange a settled market has no active order |
| `Solvency.CollateralIsWorstLoss` | services/api/app/repositories/memory.py:1700-1704 | The collateral is the worst loss the filled order can make: exceeded by no outcome value between 0 and 1 and reached when its side is wrong |
| `Solvency.PairFundsPayout` | services/api/app/repositories/memory.py:1700-1704 | A buy and a sell of one quantity at one price together hold exactly the winner's payout |
| `Solvency.PlaceKeepsSolventExactly` | services/api/app/repositories/memory.py:1482-1504 | The guard compares raw amounts but rounded ones are reserved: an accepted order keeps the exchange solvent exactly when the balance also covers the rounded collateral |
| `Solvency.GridPlaceKeepsSolvent` | services/api/app/repositories/memory.py:1482-1504 | With quantities and prices of eight decimals the guard is enough |
| `Solvency.RoundingCanOverdraw` | services/api/app/repositories/memory.py:1482-1504 | Off that grid it is not: a concrete order that is accepted and reserves more than the balance |
| `Solvency.FundKeepsSolventExactly` | services/api/app/repositories/memory.py:1576-1584 | Funding, of either sign, keeps the exchange solvent exactly when the account still covers its reserve |
| `Solvency.MarketStepKeepsSolvent` | services/api/app/repositories/memory.py:832-1377 | No call on a market, not even republishing a slug, can raise a reserve above its balance |
| `Solvency.SolventAlways` | services/api/app/repositories/memory.py:1463-1704 | Over all runs of placing, cancelling, funding, publishing, disputing and finalizing, with eight-decimal amounts and nonnegative funding, no actor's reserve on a rail exceeds the balance it is drawn on |
| `Solvency.ExecuteKeepsValid` | services/api/app/repositories/memory.py:1463-1720 | Every command keeps order ids distinct, amounts in range and settled markets free of active orders |
| `TradingLaws.PlacedOrderIs` | services/api/app/repositories/memory.py:1463-1513 | An accepted order is appended, open, with the requested outcome and side, the quantity, price and worst cost that are stored, all of it remaining, owned by the actor, under the next id; nothing else changes but the account that is opened |
| `TradingLaws.PlacedCostIs` | services/api/app/repositories/memory.py:1482-1500 | The stored cost is that of the raw request to the nearest 10^-8: quantity times price to buy, quantity times one less price to sell |
| `TradingLaws.TicksAreClose` | services/api/app/repositories/memory.py:1723-1726 | What is stored of an amount is its count of 10^-8 to the nearest whole, and to the even one at a tie |
| `TradingLaws.ShareIsCollateral` | services/api/app/repositories/memory.py:1682-1704 | An order adds to a reserve exactly what is remaining times its price, or times one less its price to sell, and only for its owner, on its market's rail, while pending, open or partly filled |
| `TradingLaws.RequestsOpenAccounts` | services/api/app/repositories/memory.py:1463-1698 | A well-formed request for a market that takes orders opens the account it draws on with 1000, in the asset of the rail, and no other; any other request opens none |
| `TradingLaws.AvailableIs` | services/api/app/repositories/memory.py:1691-1698 | What is available is the balance of the rail's account (USDC on chain, AUD elsewhere; 1000 before its first use) less the reserve |
| `TradingLaws.FundingAdds` | services/api/app/repositories/memory.py:1576-1584 | Funding adds the amount to one balance, which starts at nothing, and touches no other balance and no order |
| `TradingLaws.PortfolioOpensOneAccount` | services/api/app/repositories/memory.py:1549-1550 | Reading a portfolio opens the profile's USDC account with 1000 exactly when it has no account at all |
| `TradingLaws.CancelAnswersExactly` | services/api/app/repositories/memory.py:1515-1534 | NotFound without the order in this market, Forbidden to who neither owns it nor is an administrator, a conflict for a filled or cancelled order, and otherwise that order, cancelled and otherwise as it was; no other order changes |
| `TradingLaws.FinalizingReleasesExactly` | services/api/app/repositories/memory.py:1300-1377 | Finalizing a market raises each actor's available balance on its rail by exactly what the actor's active orders in that market held, and no other balance, order or rail changes |
| `TradingLaws.OtherEventsReleaseNothing` | services/api/app/repositories/memory.py:832-1377 | No other call on a market, and no failing one, touches an order or a balance |
| `OrderBook.Aggregate` | services/api/app/repositories/memory.py:1623-1636 | The dictionary pass holds, for each price of a resting order and no other, the quantity and number of the orders at it |
| `OrderBook.BuildLevels` | services/api/app/repositories/memory.py:1623-1645 | The side shown is the first five levels of the full per-price aggregation, or all of them when they are fewer |
| `OrderBook.BestPrice` | services/api/app/repositories/memory.py:1587-1596 | The quote's price is a price of some resting order and none is better; there is none exactly on an empty side |
| `OrderBook.DepthIsOrdered` | services/api/app/repositories/memory.py:1637-1645 | The full aggregation lists every price once, in strict price order |
| `OrderBook.BookAgreesWithQuote` | services/api/app/repositories/memory.py:1586-1650 | The shown levels are at most five and a prefix of all, in strict price order, and the top one is the quote's best price, computed separately |
| `OrderBook.LevelsAreOccupied` | services/api/app/repositories/memory.py:1629-1636 | No level is empty |
| `OrderBook.BookConservesQuantity` | services/api/app/repositories/memory.py:1597-1645 | All levels together hold the quote's resting quantity and each order once; what is not shown is what lies beyond the fifth price, so with at most five prices the book adds up to the quote |
| `BookLaws.QuotedOrdersHaveLevels` | services/api/app/repositories/memory.py:1587-1636 | Every open or partially filled order has a level at its price, and the best price is no worse than its own |
| `BookLaws.LevelsAreQuoted` | services/api/app/repositories/memory.py:1587-1636 | Every level, and the best price, is the price of some open or partially filled order of that outcome and side |
| `BookLaws.AppendedOrderCounts` | services/api/app/repositories/memory.py:1597-1636 | One more order adds its remaining quantity and one to the side's total and to the level of its price when it is open or partially filled and of that outcome and side, and nothing otherwise |
| `BookLaws.UnquotedOrdersChangeNothing` | services/api/app/repositories/memory.py:1587-1645 | An order of another outcome or side, or one that is pending, filled or cancelled, changes neither levels, best price nor total |
| `BookLaws.PlacedOrderIsInBook` | services/api/app/repositories/memory.py:1463-1650 | An order that was accepted is in the book at its price, with its quantity and once, on its own side of its own outcome and nowhere else |
| `BookLaws.CancelledOrderLeavesBook` | services/api/app/repositories/memory.py:1515-1650 | Cancelling takes exactly what the order had left, and one order, out of the total and out of the level of its price |
| `TradeHistory.SortByTimeIsStableSort` | services/api/app/repositories/memory.py:1659 | The sort keeps the trades, orders them by time and keeps ties in their order |
| `TradeHistory.GroupByStart` | services/api/app/repositories/memory.py:1658-1662 | The dictionary of groups holds, for each interval with a trade and no other, its trades in time order |
| `TradeHistory.BuildHistoryBuckets` | services/api/app/repositories/memory.py:1652-1680 | The two loops compute the chart |
| `TradeHistory.ChartPartitionsTrades` | services/api/app/repositories/memory.py:1658-1665 | The groups behind the chart, read in order, are exactly the input trades in time order |
| `TradeHistory.EachTradeInOneBucket` | services/api/app/repositories/memory.py:1660-1671 | Each trade's time lies in the span of exactly one bucket |
| `TradeHistory.ChartIsOnGrid` | services/api/app/repositories/memory.py:1660-1671 | Every bucket is one interval long and starts on a multiple of it; starts strictly increase and buckets do not overlap |
| `TradeHistory.ChartConservesVolume` | services/api/app/repositories/memory.py:1667-1677 | Volumes and trade counts of the buckets add up to those of the input |
| `TradeHistory.EachTradeCounts` | services/api/app/repositories/memory.py:1667-1677 | One more trade, wherever it falls, adds its quantity to the chart's volume and one to its count |
| `TradeHistory.CandleShape` | services/api/app/repositories/memory.py:1666-1677 | A candle opens with the first and closes with the last trade of its interval; high and low are prices of the interval that bound all of them |
| `TradeHistory.ChartLength` | services/api/app/repositories/memory.py:1423-1453 | When the lookback is a multiple of the interval there are at most lookback / interval + 1 buckets |
| `TradeHistory.SupportedRangesAreShort` | services/api/app/schemas/market.py:10-17 | For each of the six ranges: its span in seconds, the length of its candles, and the most candles a chart over it can have (13, 21, 31, 13, 25 and 29) |
| `Ledger.GetOrCreateLedgerAccount` | services/api/app/repositories/postgres.py:696-729 | Returns the account of the code and opens one only when there is none |
| `Ledger.SettlePosition` | services/api/app/repositories/postgres.py:2346-2427 | A position that does not hold the winner books nothing and loses its net cost; one that does is booked its quantity, in one new transaction of two entries between the holder's account and the market's, and realizes quantity less net cost; either way it ends flat |
| `Ledger.SettlePositions` | services/api/app/repositories/postgres.py:2341-2427 | The loop pays and closes the market's positions, in order, and no others |
| `Ledger.UpdateCandidate` | services/api/app/repositories/postgres.py:2271-2296 | Confirms the named candidate row, of whatever market, and no other |
| `Ledger.WriteResolution` | services/api/app/repositories/postgres.py:2258-2326 | Updates the market's resolution row, or inserts one; the insert is refused when the market has a row for another candidate or the candidate does not exist |
| `Ledger.WriteSettlement` | services/api/app/repositories/postgres.py:2238-2447 | The statements of a settlement, in order, leave the specified rows or fail |
| `Ledger.PostgresRepository.SettleMarket` | services/api/app/repositories/postgres.py:2200-2453 | Either fails with the first error of the program and leaves all tables alone, or the market is settled, each of its positions is closed at one for the winner and zero otherwise, its active orders alone are cancelled, its outcomes decided, and each account has moved by what its holder held in the winner |
| `Ledger.SettlesExactly` | services/api/app/repositories/postgres.py:2200-2326 | A settlement succeeds exactly for a market awaiting resolution or disputed, without an open dispute, with a listed winner and a configured asset, and a named candidate that is the one of the market's resolution (or an existing one when it has none) |
| `Ledger.SettlementAnswers` | services/api/app/repositories/postgres.py:2200-2326 | Why a settlement fails: NotFound for a market or winner that is not listed, a database error for a candidate the tables do not admit, a conflict for a wrong status, an open dispute or an asset that is not configured, in that order |
| `Ledger.SettlementRecordsWinner` | services/api/app/repositories/postgres.py:2258-2326 | The market's resolution names the winner and keeps or takes the candidate; no other resolution and no unnamed candidate changes |
| `Ledger.PostgresRepository.FundBalance` | services/api/app/repositories/postgres.py:2922-2976 | Either fails, for an unknown asset or an amount the entries table turns away, and leaves all tables alone, or books the funding |
| `Ledger.TransferMoves` | services/api/app/repositories/postgres.py:2373-2414 | A transaction adds to one balance what it takes from the other and touches no third account |
| `Ledger.OpenAccountKeepsBalances` | services/api/app/repositories/postgres.py:696-729 | Opening an account changes no balance |
| `Ledger.PayPositionsMoves` | services/api/app/repositories/postgres.py:2346-2414 | After any number of positions each user account, of a profile, asset and rail, has gained the quantities of that profile's positions on that rail in the market's winner, the market's account has lost the sum of all such quantities, no other account moved, and the journal is balanced |
| `Ledger.SettlementMovesMoney` | services/api/app/repositories/postgres.py:2341-2414 | One settlement, in USDC on chain and AUD elsewhere, takes from the market's account exactly the signed quantity held in the winning outcome, gives each holder exactly its own part of it, and leaves every other account alone |
| `Ledger.SettlementClosesPositions` | services/api/app/repositories/postgres.py:2416-2427 | Every position of the market ends flat with its profit raised by quantity (if it held the winner) less net cost, no other position changes, and total realized profit rises by the signed winning quantity less the total net cost |
| `Ledger.SettlementCancelsOrders` | services/api/app/repositories/postgres.py:2428-2447 | The market's pending, open and partly filled orders are cancelled with nothing remaining, no other order changes, and of the markets only this one's status does |
| `Ledger.SettlementIsSettled` | services/api/app/repositories/postgres.py:2225-2447 | All rows of a settlement at once in terms of the rows before: outcomes with ids and codes kept, positions, orders, market and every account's balance |
| `Ledger.FundsExactly` | services/api/app/repositories/postgres.py:2922-2976 | Funding succeeds exactly for a configured asset and an amount of at least half of 10^-8; what is stored is the amount to the nearest 10^-8, and only the journal changes |
| `Ledger.TwoPassIsOneLoop` | services/api/app/repositories/postgres.py:2238-2256 | The two UPDATE statements give a market's outcomes exactly what the memory repository's single loop gives them, for any ids |
| `Ledger.SettlementDecidesOutcomes` | services/api/app/repositories/postgres.py:2225-2256 | With distinct outcome ids the settlement values of the market sum to one and no other market's outcome changes |
| `Ledger.SettlementIsFinal` | services/api/app/repositories/postgres.py:2213-2447 | A settled market cannot be settled again, for any winner, and keeps no active order |
| `Ledger.FundingMovesMoney` | services/api/app/repositories/postgres.py:2928-2976 | Funding moves the stored amount from the treasury to the user and nothing else, in a balanced transaction |
| `Ledger.BooksAlwaysBalance` | services/api/app/repositories/postgres.py:2346-2414 | Over any run of settlements and fundings, between arbitrary changes to markets, positions and orders, every transaction has equal debits and credits and so has the journal, and all amounts are positive |
| `Ledger.EmptyJournalBalances` | services/api/app/repositories/postgres.py:2922-2976 | The same from an empty journal, positive amounts included |
| `QuoteRules.QuoteIsUncrossedExactly` | services/api/app/services/amm_service.py:107-112 | For a nonnegative mid and spread the bid is at most the ask exactly when mid less half spread is at most 0.98005 and mid plus half spread at least 0.01995 |
| `QuoteRules.QuoteStaysInLimits` | services/api/app/services/amm_service.py:107-112 | For a mid in [0.02, 0.98] and a nonnegative spread, 0.02 <= bid <= ask <= 0.98 after rounding |
| `QuoteRules.OutsideLimitsQuoteCrosses` | services/api/app/services/amm_service.py:107-112 | With the default spread of 400 basis points the bid at mid 0.01 is above the ask |
| `QuoteRules.PricesFollowSpread` | services/api/app/services/amm_service.py:107-112 | Unless a price limit cuts it off, each price is half the configured spread away from the mid, within 0.0001 |
| `QuoteRules.ReportedSpreadIsNonnegative` | services/api/app/services/amm_service.py:141-142 | For a mid inside the limits a quote is made and reports a nonnegative spread |
| `QuoteRules.AnswersExactly` | services/api/app/services/amm_service.py:93-151 | No quote exactly when the service is off, or the market's own spread is at most the threshold and thin markets are not always quoted; an error exactly for an open position without an inventory limit; otherwise a quote for the given mid, or for 0.5 |
| `QuoteRules.HalfSpreadIs` | services/api/app/services/amm_service.py:107-109 | Half the configured spread of the mid, rounded to a multiple of 0.0001 and up at a tie |
| `QuoteRules.ReportedSpreadIs` | services/api/app/services/amm_service.py:141-142 | The reported spread is ask less bid in basis points of the mid, cut off toward zero for either sign |
| `QuoteRules.PauseNamesTheSilentSide` | services/api/app/services/amm_service.py:131-139 | The pause note is the long limit exactly when the bid quotes nothing and the short limit exactly when the ask quotes nothing, which is when the position is at or past that limit |
| `QuoteRules.ShrinkIs` | services/api/app/services/amm_service.py:118-129 | The side that adds to the inventory offers 80% less in proportion to the skew, to the nearest unit (the even one at a tie) and at least one |
| `QuoteRules.GrowIs` | services/api/app/services/amm_service.py:118-129 | The other side offers 30% more in that proportion |
| `QuoteRules.BidAtPart` | services/api/app/services/amm_service.py:114-139 | At a part of either limit the skew is that part: the long side bids the shrunk size, the short side the grown one |
| `QuoteRules.AskMirrorsBid` | services/api/app/services/amm_service.py:114-139 | Selling from a long inventory mirrors buying into a short one |
| `QuoteRules.SizesLeanAgainstInventory` | services/api/app/services/amm_service.py:114-139 | For a quote size of at most one or a multiple of a half, the bid size is nonincreasing and the ask size nondecreasing in the position, both are at least one strictly inside the limits, and the side at its limit quotes nothing |
| `QuoteRules.LeansExactly` | services/api/app/services/amm_service.py:114-139 | The sizes lean against the position everywhere if and only if the quote size is at most one or a multiple of a half |
| `QuoteRules.FractionalSizeCanLeanWrong` | services/api/app/services/amm_service.py:118-129 | A witness: with a quote size of 2.6 a position of 1 raises the bid |
| `QuoteRules.UnwindingSideGrows` | services/api/app/services/amm_service.py:118-139 | At a limit the side that unwinds offers 1.3 times the quote size, rounded |
| `InventoryLimits.FullBidStaysBounded` | services/api/app/services/amm_service.py:114-139 | Filling a whole bid from inside the bound stays inside it, for every quote size that is safe for the limit |
| `InventoryLimits.InventoryStaysBounded` | services/api/app/services/amm_service.py:114-168 | Over any run of quotes and fills that never take more than was quoted, with a safe quote size, the position stays within the bound together with what is still quoted, and is what was bought less what was sold |
| `InventoryLimits.InventoryBound` | services/api/app/services/amm_service.py:114-168 | From a new key, with 0.8 quote_size <= max_inventory, the absolute position never exceeds max_inventory + max(1, 0.2 quote_size + 0.5) |
| `InventoryLimits.BoundHoldsExactly` | services/api/app/services/amm_service.py:114-168 | No run exceeds the bound if and only if the quote size is safe for the limit, decided for every size; from 2.5 on safe means 0.8 quote_size <= max_inventory |
| `InventoryLimits.UnsafePosition` | services/api/app/services/amm_service.py:114-139 | For every other configuration there is a position within the first quote from which one whole bid overshoots the bound |
| `MarketMaker.AmmService.GetInventory` | services/api/app/services/amm_service.py:72-78 | Returns the key's own inventory object, new and zero when there was none, and changes no key's position |
| `MarketMaker.AmmService.SizeQuotes` | services/api/app/services/amm_service.py:114-139 | The reassignments of both quantities end at the specified sizes |
| `MarketMaker.AmmService.ComputeQuotes` | services/api/app/services/amm_service.py:80-151 | Returns the specified quote or none; the quoted key takes the step that posting a quote is in the runs above, and no other key changes |
| `MarketMaker.AmmService.RecordFill` | services/api/app/services/amm_service.py:153-168 | A fill moves the position by its quantity, up for a buy, and adds it to one of the two totals; the key takes the step that a fill is in the runs above, and no other key changes |
| `RateLimit.SlidingWindow.Hit` | services/api/app/middleware/rate_limit.py:35-41 | The call prunes, then rejects or appends |
| `RateLimit.CallIsHit` | services/api/app/middleware/rate_limit.py:35-41 | The history of calls replays the object, call by call |
| `RateLimit.KeptIsRecentLog` | services/api/app/middleware/rate_limit.py:35-41 | For a clock that never runs backwards the pruned list always equals the whole accepted history filtered by the last call's cutoff |
| `RateLimit.NeverMoreThanLimit` | services/api/app/middleware/rate_limit.py:35-41 | Any interval of the window's length, open at its start, holds at most `limit` accepted hits over the whole run |
| `RateLimit.NeverMoreThanTwiceLimit` | services/api/app/middleware/rate_limit.py:35-41 | With both ends included an interval of the window's length holds at most twice the limit |
| `RateLimit.ClosedIntervalReachesTwiceLimit` | services/api/app/middleware/rate_limit.py:36-37 | And it can hold that many, for every limit: full bursts exactly a window apart are all accepted |
| `RateLimit.RejectionMeansFull` | services/api/app/middleware/rate_limit.py:38-40 | The list never holds more than `limit` entries, and exactly `limit` after a rejection |
| `RateLimit.AcceptedAfterWaiting` | services/api/app/middleware/rate_limit.py:35-41 | After a rejection, through any further rejected attempts, the next hit is accepted exactly when the oldest kept hit has left the window |
| `RateLimit.ReportedTimePlusOneSuffices` | services/api/app/middleware/rate_limit.py:84-101 | A client that waits retry_after_seconds plus one second, with no accepted hit in between, is accepted |
| `RateLimit.ReportedTimeSufficesExactly` | services/api/app/middleware/rate_limit.py:84-101 | Waiting exactly retry_after_seconds is enough if and only if no fraction of a second was cut off or at most one second was left |
| `RateLimit.NextCallIsAcceptedExactly` | services/api/app/middleware/rate_limit.py:23-26 | After n calls at one moment a client's next call is accepted exactly when n is below 20 for account paths, 50 for trading paths and 100 for all others, or a minute has passed |
| `RateLimit.ReportedTimeIsWhole` | services/api/app/middleware/rate_limit.py:85-101 | retry_after_seconds is the whole seconds until the oldest kept hit is a minute old, and at least one |
| `RateLimit.RateLimitMiddleware.Dispatch` | services/api/app/middleware/rate_limit.py:71-106 | Counts each client and limit apart, answers 429 with the remaining time exactly when the hit is rejected, and exempts health checks |
| `ConditionalOrders.AdvancedOrderService.CreateConditionalOrder` | services/api/app/services/advanced_order_service.py:47-85 | Adds a pending order, or rejects an unknown type or side and adds nothing |
| `ConditionalOrders.AdvancedOrderService.CancelOrder` | services/api/app/services/advanced_order_service.py:90-97 | Cancels a pending order of the owner; returns the order unchanged when it is closed, and nothing to a stranger |
| `ConditionalOrders.AdvancedOrderService.CheckTriggers` | services/api/app/services/advanced_order_service.py:99-127 | The loop triggers exactly the pending orders on the outcome whose condition is met and returns those, oldest first |
| `ConditionalOrders.StatusIsDecided` | services/api/app/services/advanced_order_service.py:90-127 | The status that the calls maintain step by step is the one read off the whole history: only the first deciding event counts |
| `ConditionalOrders.TriggeredExactlyWhen` | services/api/app/services/advanced_order_service.py:90-127 | For any interleaving of creations, cancellations and ticks an order is triggered exactly when some tick on its outcome, after its creation and before any cancellation by its owner, meets its condition |
| `ConditionalOrders.CancelledExactlyWhen` | services/api/app/services/advanced_order_service.py:90-127 | It is cancelled exactly when its owner cancelled it before any tick met its condition |
| `ConditionalOrders.ReturnedExactlyWhenDecided` | services/api/app/services/advanced_order_service.py:99-127 | A call returns an order exactly when its tick is the event that decides the order |
| `ConditionalOrders.FiredInOrder` | services/api/app/services/advanced_order_service.py:99-127 | The orders a call returns are in the order of their creation, each once |
| `ConditionalOrders.ReturnedAtMostOnce` | services/api/app/services/advanced_order_service.py:99-127 | No order is returned by two calls |
| `ConditionalOrders.TriggeredWasReturned` | services/api/app/services/advanced_order_service.py:121-127 | An order is triggered exactly when some call returned it and stamped it with its time |
| `ConditionalOrders.LowOrdersFollowMinimum` | services/api/app/services/advanced_order_service.py:106-119 | A stop-loss or trailing stop to sell, or a take-profit to buy, that its owner never cancels is triggered exactly when the running minimum of its outcome reached the trigger; the trailing offset plays no part |
| `ConditionalOrders.HighOrdersFollowMaximum` | services/api/app/services/advanced_order_service.py:106-119 | A take-profit to sell, or a stop-loss to buy, that its owner never cancels is triggered exactly when the running maximum of its outcome reached the trigger |
| `ConditionalOrders.CreationRecords` | services/api/app/services/advanced_order_service.py:47-85 | A creation is accepted exactly for the three types, two sides and numbers where numbers are due; the new order is pending, has the terms of the request field by field, and follows all others |
| `ConditionalOrders.BuyTrailingStopNeverTriggers` | services/api/app/services/advanced_order_service.py:117-119 | A trailing stop to buy never triggers |
| `RollingWindows.FirstWindowContainsNow` | services/api/app/services/rolling_market_service.py:29-32 | The first window of a run contains the current time |
| `RollingWindows.WindowsAreContiguous` | services/api/app/services/rolling_market_service.py:74-77 | The windows of a run follow each other without a gap or overlap |
| `RollingWindows.RunsAgreeExactly` | services/api/app/services/rolling_market_service.py:29-32 | The windows of any two runs with one interval are equal or disjoint exactly when the interval divides the 1440 minutes of a day |
| `RollingWindows.MidnightBreaksGrid` | services/api/app/services/rolling_market_service.py:29-32 | For every other interval two runs on either side of midnight give windows that overlap without being equal |
| `Calendar.DayNumberOfDate` | services/api/app/services/rolling_market_service.py:35-37 | Naming a day by year, month and day and counting days agree, leap years included: each day has the number it was named by |
| `Calendar.DateOfDayNumber` | services/api/app/services/rolling_market_service.py:253-259 | And every valid date is named by its number |
| `Calendar.DayNumberIs` | services/api/app/services/rolling_market_service.py:35-37 | The number of a date in closed form: 365 days a year, leap days by the Gregorian rule, and the lengths of the months as a table |
| `WindowSlugs.AssetGrows` | services/api/app/services/rolling_market_service.py:35-37 | The asset part takes the symbol character by character: slashes and hyphens vanish, capitals become small letters, everything else stays |
| `WindowSlugs.ParsesExactly` | services/api/app/services/rolling_market_service.py:20-20 | A text is recognized exactly when it is small letters and digits, a hyphen, digits, m-up-down-, twelve digits and at most one newline |
| `WindowSlugs.TextIsRolling` | services/api/app/services/rolling_market_service.py:253-259 | Every such text is parsed to the window its digits say, or to a time that does not exist |
| `WindowSlugs.WindowIsReadAs` | services/api/app/services/rolling_market_service.py:253-259 | The twelve digits are read as year, month, day, hour and minute of the start in base ten, the others as the length; a date, hour or minute that does not exist is an error |
| `WindowSlugs.SlugRoundTrip` | services/api/app/services/rolling_market_service.py:20-37 | Parsing a printed slug gives back the same window for symbols of letters and digits, and is refused for every other symbol |
| `WindowSlugs.SlugsAreDistinct` | services/api/app/services/rolling_market_service.py:35-37 | A slug determines asset, interval and start, whatever the symbols are |
| `WindowSlugs.StampRoundTrip` | services/api/app/services/rolling_market_service.py:253-259 | The twelve digits of a window's start are read back to the same minute |
| `RollingCycle.RollingMarkets.RunUpDownCycle` | services/api/app/services/rolling_market_service.py:57-94 | The creating half of the cycle on the markets table: refused as a conflict exactly for an interval outside 1 to 60 or a lookahead outside 1 to 24, the newest page as the known markets, each window skipped or created, opened on request, and the run stopped by an insert the table refuses |
| `RollingCycle.CycleIsSound` | services/api/app/services/rolling_market_service.py:74-94 | A run leaves every row in place, puts the markets it creates before them, each for one of its windows and with a slug the table did not hold, and opens all of them or none |
| `RollingCycle.CycleReportsEachWindow` | services/api/app/services/rolling_market_service.py:79-94 | A run that is not refused reports each window once, as created or skipped, and knows a market for each |
| `RollingCycle.CycleCoversItsWindows` | services/api/app/services/rolling_market_service.py:74-94 | It leaves a market for each of its windows in the table |
| `RollingCycle.NewRowsAre` | services/api/app/services/rolling_market_service.py:84-94 | The rows of created markets stand newest first; they are open exactly if the request asked for it and wait for liquidity otherwise |
| `RollingCycle.CurrentTimeHasMarket` | services/api/app/services/rolling_market_service.py:29-94 | After a run that is not refused the table holds a market whose window contains the time of the run, and one for each of the times one interval, two and so on up to the lookahead later |
| `RollingCycle.RefusedExactly` | services/api/app/services/rolling_market_service.py:71-88 | A run is refused exactly when one of its windows has a market in the table that is not among its newest fifty rows |
| `RollingCycle.CycleIsIdleExactly` | services/api/app/services/rolling_market_service.py:71-94 | A later run in the same interval skips everything exactly when the page still shows all its markets, and is refused otherwise |
| `RollingCycle.CycleIsIdempotent` | services/api/app/repositories/postgres.py:1706-1711 | That is so while the table and the new windows fit on one page of 50 |
| `RollingCycle.FullPageRefusesSecondRun` | services/api/app/repositories/postgres.py:1706-1711 | And not on a full page: a run over two windows pushes the first one's market off the page and its repetition is refused |
| `RollingCycle.RunsCreateOnce` | services/api/app/services/rolling_market_service.py:57-94 | Over any runs, with any times and requests and any other markets inserted in between, each slug is created at most once, only for windows some run visited, and stands once in the table |
| `RollingCycle.CreatedMarketsNeverOverlap` | services/api/app/services/rolling_market_service.py:57-94 | All windows with the slugs of two markets such runs created, of one asset and one interval that divides the day, are disjoint |
| `Fees.ProceedsPlusFeeIsGross` | services/api/app/services/fee_service.py:35-47 | For each fill net proceeds and total fee add up to the gross notional exactly, and makers pay nothing |
| `Fees.EachFeeIs` | services/api/app/services/fee_service.py:80-85 | Each of a taker's two fees is its own rate of the notional in basis points, to the nearest 10^-8, and written with eight decimals |
| `Fees.TakerFeeError` | services/api/app/services/fee_service.py:80-91 | A taker's total fee is within 10^-8 of the exact fee |
| `Fees.SummedFeesError` | services/api/app/services/fee_service.py:60-91 | The fees of n taker fills (and any maker fills) differ from the exact fee on their notional by at most n 10^-8 |
| `Fees.FillByFillError` | services/api/app/services/fee_service.py:60-91 | They differ from the fee on the summed notional by at most (n + 1) 10^-8 |
| `Fees.BoundIsReached` | services/api/app/services/fee_service.py:80-85 | The bound n 10^-8 is attained for every n |
| `Fees.NetIsNegativeExactly` | services/api/app/services/fee_service.py:80-91 | With rates of at most 100% together and a notional of eight decimals, net proceeds are negative exactly when the rates add up to 100% and both fees are ties that round up |
| `Fees.FeesAreMonotone` | services/api/app/services/fee_service.py:80-91 | A larger trade never pays a smaller fee |
| `Fees.CreatorFeeWithinPlatformFeeExactly` | services/api/app/services/fee_service.py:66-85 | The creator fee stays within the platform fee on every trade exactly when its rate is not higher; a trade of 1 is a witness |
| `Decimals.RoundHalfEven` | services/api/app/repositories/memory.py:1723-1726 | The default quantize: within half a unit, ties to the even neighbour |
| `Decimals.RoundHalfUp` | services/api/app/services/fee_service.py:80-85 | quantize with ROUND_HALF_UP: within half a unit, ties away from zero |
| `Decimals.GridIsExact` | services/api/app/repositories/memory.py:1723-1726 | An amount of eight decimals is stored exactly |

## Left out

- Repositories.MarketRepository.Publish: does not model the market request it converts (lookup, status check, answers, templates and reference data), because no other modelled call reads requests; a publication is a slug and a rail, and one under a used slug replaces the listed market as the code does.
- Oracle service: signing, ABI encoding and RPC; its answer is an arbitrary payload, a refusal, or absent. Nothing is claimed about settled assertions.
- Fields that no branch reads: titles, URLs, fee fields and most timestamps of markets, disputes and resolutions, and the requester's and winner's ids written as text into payloads.
- Random ids: uuid4 is a counter whose values are never reused; dictionaries keyed by such ids and walked in insertion order are lists in `ConditionalOrders`.
- Matching: the engine that produces trades, fills and positions is not part of this model; trades and positions are given.
- Quote display: last price and traded volume of a quote, recent trades, holders, and every response that only copies fields.
- Number text: normalized decimal strings are modelled by the numbers they denote, and texts that are no numbers, where the code parses them, as such; NaN and infinity, and the upper-casing of asset codes, are not modelled.
- Decimal context: the 28-digit precision of intermediate results and floating-point error of timestamps; arithmetic is exact.
- SQL: statements, sessions and locks. A failing call leaves all rows alone; overflow of numeric(20, 8) is not modelled, and account codes are values, not formatted text.
- Ledger.PostgresRepository.SettleMarket: does not model texts, URLs and payloads of the resolution and candidate rows; a position is identified by its place in the table.
- Ledger.PostgresRepository.FundBalance: returns the profile instead of its portfolio summary.
- Rate limiting: the client address and the path prefixes are inputs; sharing one process across workers is not modelled.
- AmmService: logging, the status report and the profit fields that no method updates.
- RollingCycle.RollingMarkets.RunUpDownCycle: does not model the settlement half of the cycle, which reads foreign price data, the backend switch, trimming and upper-casing of the symbol, dates beyond the year 9999, and letters and digits beyond ASCII.
- Fees: reading the rates of a market from the database.
- Community, post, profile, notification, mail, push, API-key and authentication code, the web application, the contracts and the deployment: input, output or simple record keeping.
