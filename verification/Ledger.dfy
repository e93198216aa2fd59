/**
 The settlement ledger of the Postgres repository: a double-entry journal, the payout loop over the positions of
 a market, and the outcome update in two statements. Tables are sequences and maps; a call works on copies of
 them, its session, and puts them back only when it commits. Amounts are ticks of 10^-8, numeric(20, 8).
 */
module Ledger {
  import opened Wrappers
  import opened Decimals
  import opened MarketProtocol
  import T = TradingRules
  import MarketInvariants

  // ----------------------------------------------------------------- journal

  /** The unique account_code of an account. */
  datatype Code =
    | MarketCode(market: Id, asset: T.Asset, rail: Rail)
    | UserCode(profile: Id, asset: T.Asset, rail: Rail)
    | TreasuryCode(asset: T.Asset, rail: Rail)

  datatype Direction = Debit | Credit
  datatype Entry = Entry(transactionId: Id, accountId: Id, direction: Direction, amount: int)

  datatype Kind = TradeSettlement | Adjustment
  datatype Transaction = Transaction(id: Id, kind: Kind, marketId: Option<Id>)

  datatype Books = Books(accounts: map<Code, Id>, transactions: seq<Transaction>, entries: seq<Entry>, nextId: Id)

  const NO_BOOKS := Books(map[], [], [], 0)

  /** Which entries a sum ranges over. */
  datatype Selection = All | OfAccount(accountId: Id) | InTransaction(transactionId: Id)

  predicate Selected(e: Entry, s: Selection) {
    match s
    case All => true
    case OfAccount(id) => e.accountId == id
    case InTransaction(id) => e.transactionId == id
  }

  function Sum(es: seq<Entry>, d: Direction, s: Selection): int {
    if es == [] then 0
    else Sum(es[..|es| - 1], d, s) + SumOne(es[|es| - 1], d, s)
  }

  function SumOne(e: Entry, d: Direction, s: Selection): int {
    if e.direction == d && Selected(e, s) then e.amount else 0
  }

  /** Debits less credits, as the account_balances view computes it. */
  function BalanceOf(b: Books, code: Code): int {
    if code in b.accounts
    then Sum(b.entries, Debit, OfAccount(b.accounts[code])) - Sum(b.entries, Credit, OfAccount(b.accounts[code]))
    else 0
  }

  function OpenAccount(b: Books, code: Code): Books {
    if code in b.accounts then b
    else b.(accounts := b.accounts[code := b.nextId], nextId := b.nextId + 1)
  }

  function UserEntry(b: Books, user: Code, delta: int): Entry
    requires user in b.accounts
  {
    Entry(b.nextId, b.accounts[user], if delta > 0 then Debit else Credit, if delta > 0 then delta else -delta)
  }

  function OtherEntry(b: Books, other: Code, delta: int): Entry
    requires other in b.accounts
  {
    Entry(b.nextId, b.accounts[other], if delta > 0 then Credit else Debit, if delta > 0 then delta else -delta)
  }

  /** One transaction that moves `delta` to the user's account from the other one, or back when it is negative. */
  function Transfer(b: Books, kind: Kind, market: Option<Id>, user: Code, other: Code, delta: int): Books
    requires user in b.accounts && other in b.accounts
  {
    b.(transactions := b.transactions + [Transaction(b.nextId, kind, market)],
       entries := b.entries + [UserEntry(b, user, delta), OtherEntry(b, other, delta)],
       nextId := b.nextId + 1)
  }

  ghost predicate DistinctAccounts(accounts: map<Code, Id>) {
    forall c, d :: c in accounts && d in accounts && c != d ==> accounts[c] != accounts[d]
  }

  ghost predicate AccountsBefore(accounts: map<Code, Id>, next: Id) {
    forall c :: c in accounts ==> accounts[c] < next
  }

  ghost predicate EntriesBefore(es: seq<Entry>, next: Id) {
    forall i :: 0 <= i < |es| ==> es[i].transactionId < next && es[i].accountId < next && es[i].amount > 0
  }

  /** Ids are used once, and every entry has a positive amount, as the table's check demands. */
  ghost predicate WellKept(b: Books) {
    DistinctAccounts(b.accounts) && AccountsBefore(b.accounts, b.nextId) && EntriesBefore(b.entries, b.nextId)
  }

  /** Debits equal credits in every transaction and in total. */
  ghost predicate Balanced(b: Books) {
    && Sum(b.entries, Debit, All) == Sum(b.entries, Credit, All)
    && (forall id: Id :: Sum(b.entries, Debit, InTransaction(id)) == Sum(b.entries, Credit, InTransaction(id)))
  }

  lemma SumAppendsPair(es: seq<Entry>, x: Entry, y: Entry, d: Direction, s: Selection)
    ensures Sum(es + [x, y], d, s) == Sum(es, d, s) + SumOne(x, d, s) + SumOne(y, d, s)
  {
    assert (es + [x, y])[..|es| + 1] == es + [x];
    assert (es + [x])[..|es|] == es;
  }

  lemma {:induction false} UnusedSumsToZero(es: seq<Entry>, d: Direction, next: Id)
    requires EntriesBefore(es, next)
    ensures Sum(es, d, OfAccount(next)) == 0
  {
    if es != [] { UnusedSumsToZero(es[..|es| - 1], d, next); }
  }

  /** Opening an account moves nothing. */
  lemma OpenAccountKeepsBalances(b: Books, code: Code)
    requires WellKept(b)
    ensures WellKept(OpenAccount(b, code)) && code in OpenAccount(b, code).accounts
    ensures Balanced(b) ==> Balanced(OpenAccount(b, code))
    ensures forall c: Code :: BalanceOf(OpenAccount(b, code), c) == BalanceOf(b, c)
  {
    UnusedSumsToZero(b.entries, Debit, b.nextId);
    UnusedSumsToZero(b.entries, Credit, b.nextId);
  }

  lemma TransferIsWellKept(b: Books, kind: Kind, market: Option<Id>, user: Code, other: Code, delta: int)
    requires WellKept(b) && user in b.accounts && other in b.accounts && delta != 0
    ensures WellKept(Transfer(b, kind, market, user, other, delta))
  {
  }

  /** Both entries of a transaction cancel in any selection that does not tell its accounts apart. */
  lemma PairCancels(b: Books, user: Code, other: Code, delta: int, s: Selection)
    requires user in b.accounts && other in b.accounts && !s.OfAccount?
    ensures var x, y := UserEntry(b, user, delta), OtherEntry(b, other, delta);
            SumOne(x, Debit, s) + SumOne(y, Debit, s) == SumOne(x, Credit, s) + SumOne(y, Credit, s)
  {
  }

  lemma TransferBalances(b: Books, kind: Kind, market: Option<Id>, user: Code, other: Code, delta: int)
    requires Balanced(b) && user in b.accounts && other in b.accounts
    ensures Balanced(Transfer(b, kind, market, user, other, delta))
  {
    var x, y := UserEntry(b, user, delta), OtherEntry(b, other, delta);
    var after := Transfer(b, kind, market, user, other, delta);
    SumAppendsPair(b.entries, x, y, Debit, All);
    SumAppendsPair(b.entries, x, y, Credit, All);
    PairCancels(b, user, other, delta, All);
    forall id: Id
      ensures Sum(after.entries, Debit, InTransaction(id)) == Sum(after.entries, Credit, InTransaction(id))
    {
      SumAppendsPair(b.entries, x, y, Debit, InTransaction(id));
      SumAppendsPair(b.entries, x, y, Credit, InTransaction(id));
      PairCancels(b, user, other, delta, InTransaction(id));
    }
  }

  /** A transfer adds to one balance what it takes from the other, and touches no third one. */
  lemma TransferMoves(b: Books, kind: Kind, market: Option<Id>, user: Code, other: Code, delta: int, c: Code)
    requires WellKept(b) && user in b.accounts && other in b.accounts && user != other
    ensures BalanceOf(Transfer(b, kind, market, user, other, delta), c)
            == BalanceOf(b, c) + if c == user then delta else if c == other then -delta else 0
  {
    if c in b.accounts {
      var s := OfAccount(b.accounts[c]);
      SumAppendsPair(b.entries, UserEntry(b, user, delta), OtherEntry(b, other, delta), Debit, s);
      SumAppendsPair(b.entries, UserEntry(b, user, delta), OtherEntry(b, other, delta), Credit, s);
    }
  }

  // --------------------------------------------------------------- positions

  datatype Position = Position(
    marketId: Id, outcomeId: Id, profile: Id, rail: Rail, quantity: int, averagePrice: Option<int>,
    netCost: int, realizedPnl: int, unrealizedPnl: int)

  /** What one settlement call closes: a market, the account it pays from, and the winner. */
  datatype Closing = Closing(market: Id, asset: T.Asset, rail: Rail, winner: Id)

  function Payout(p: Position, k: Closing): int {
    if p.marketId == k.market && p.outcomeId == k.winner then p.quantity else 0
  }

  function ClosePosition(p: Position, k: Closing): Position {
    if p.marketId != k.market then p
    else p.(quantity := 0, averagePrice := None, netCost := 0,
            realizedPnl := p.realizedPnl + (Payout(p, k) - p.netCost), unrealizedPnl := 0)
  }

  function ClosePositions(ps: seq<Position>, k: Closing): seq<Position> {
    seq(|ps|, i requires 0 <= i < |ps| => ClosePosition(ps[i], k))
  }

  function PayerCode(k: Closing): Code { MarketCode(k.market, k.asset, k.rail) }

  /** The holder's account bears the asset of the market's rail and the rail of the position. */
  function HolderCode(p: Position, k: Closing): Code { UserCode(p.profile, k.asset, p.rail) }

  function PayPosition(b: Books, p: Position, k: Closing): Books
    requires PayerCode(k) in b.accounts
  {
    if Payout(p, k) == 0 then b
    else Transfer(OpenAccount(b, HolderCode(p, k)), TradeSettlement, Some(k.market), HolderCode(p, k),
        PayerCode(k), Payout(p, k))
  }

  /** The books after the first n positions were visited. */
  function PayPositions(b: Books, ps: seq<Position>, n: nat, k: Closing): (r: Books)
    requires n <= |ps| && PayerCode(k) in b.accounts
    ensures PayerCode(k) in r.accounts
  {
    if n == 0 then b else PayPosition(PayPositions(b, ps, n - 1, k), ps[n - 1], k)
  }

  /** Signed quantity held in one outcome of a market, by anyone. */
  function HeldIn(ps: seq<Position>, n: nat, market: Id, outcome: Id): int
    requires n <= |ps|
  {
    if n == 0 then 0
    else
      var p := ps[n - 1];
      HeldIn(ps, n - 1, market, outcome) + if p.marketId == market && p.outcomeId == outcome then p.quantity else 0
  }

  /** The part of it that one profile holds on one rail. */
  function HeldBy(ps: seq<Position>, n: nat, market: Id, outcome: Id, profile: Id, rail: Rail): int
    requires n <= |ps|
  {
    if n == 0 then 0
    else
      var p := ps[n - 1];
      HeldBy(ps, n - 1, market, outcome, profile, rail)
      + if p.marketId == market && p.outcomeId == outcome && p.profile == profile && p.rail == rail
        then p.quantity else 0
  }

  /** What an account should gain when the first n positions are settled. */
  function Gain(ps: seq<Position>, n: nat, k: Closing, c: Code): int
    requires n <= |ps|
  {
    match c
    case UserCode(profile, asset, rail) =>
      if asset == k.asset then HeldBy(ps, n, k.market, k.winner, profile, rail) else 0
    case MarketCode(market, asset, rail) =>
      if market == k.market && asset == k.asset && rail == k.rail then -HeldIn(ps, n, k.market, k.winner) else 0
    case TreasuryCode(_, _) => 0
  }

  lemma PayPositionMoves(b: Books, p: Position, k: Closing, c: Code)
    requires WellKept(b) && Balanced(b) && PayerCode(k) in b.accounts
    ensures WellKept(PayPosition(b, p, k)) && Balanced(PayPosition(b, p, k))
    ensures BalanceOf(PayPosition(b, p, k), c)
            == BalanceOf(b, c) + (if c == HolderCode(p, k) then Payout(p, k) else 0)
                               - (if c == PayerCode(k) then Payout(p, k) else 0)
  {
    if Payout(p, k) != 0 {
      var withHolder := OpenAccount(b, HolderCode(p, k));
      OpenAccountKeepsBalances(b, HolderCode(p, k));
      TransferIsWellKept(withHolder, TradeSettlement, Some(k.market), HolderCode(p, k), PayerCode(k), Payout(p, k));
      TransferBalances(withHolder, TradeSettlement, Some(k.market), HolderCode(p, k), PayerCode(k), Payout(p, k));
      TransferMoves(withHolder, TradeSettlement, Some(k.market), HolderCode(p, k), PayerCode(k), Payout(p, k), c);
    }
  }

  /**
   The loop pays every holder exactly the signed quantity held in the winning outcome, takes exactly the sum from the
   market's account, touches no other account, and keeps every transaction balanced.
   */
  lemma {:induction false} PayPositionsMoves(b: Books, ps: seq<Position>, n: nat, k: Closing, c: Code)
    requires n <= |ps| && WellKept(b) && Balanced(b) && PayerCode(k) in b.accounts
    ensures WellKept(PayPositions(b, ps, n, k)) && Balanced(PayPositions(b, ps, n, k))
    ensures BalanceOf(PayPositions(b, ps, n, k), c) == BalanceOf(b, c) + Gain(ps, n, k, c)
  {
    if n > 0 {
      PayPositionsMoves(b, ps, n - 1, k, c);
      PayPositionMoves(PayPositions(b, ps, n - 1, k), ps[n - 1], k, c);
    }
  }

  function RealizedPnl(ps: seq<Position>, n: nat): int
    requires n <= |ps|
  {
    if n == 0 then 0 else RealizedPnl(ps, n - 1) + ps[n - 1].realizedPnl
  }

  function NetCost(ps: seq<Position>, n: nat, market: Id): int
    requires n <= |ps|
  {
    if n == 0 then 0 else NetCost(ps, n - 1, market) + if ps[n - 1].marketId == market then ps[n - 1].netCost else 0
  }

  /** Closing turns cost into profit without loss: realized profit rises by what was won less what was paid. */
  lemma {:induction false} ClosingRealizesProfit(ps: seq<Position>, n: nat, k: Closing)
    requires n <= |ps|
    ensures RealizedPnl(ClosePositions(ps, k), n)
            == RealizedPnl(ps, n) + HeldIn(ps, n, k.market, k.winner) - NetCost(ps, n, k.market)
  {
    if n > 0 { ClosingRealizesProfit(ps, n - 1, k); }
  }

  // ---------------------------------------------------------------- outcomes

  datatype OutcomeRow = OutcomeRow(marketId: Id, outcome: Outcome)

  /** First statement: every outcome of the market loses. */
  function EveryoneLoses(os: seq<OutcomeRow>, market: Id): seq<OutcomeRow> {
    seq(|os|, i requires 0 <= i < |os| =>
      if os[i].marketId == market
      then os[i].(outcome := os[i].outcome.(status := Losing, settlementValue := Some(0))) else os[i])
  }

  /** Second statement: the outcome with the winning id, of whatever market, wins. */
  function WinnerWins(os: seq<OutcomeRow>, winner: Id): seq<OutcomeRow> {
    seq(|os|, i requires 0 <= i < |os| =>
      if os[i].outcome.id == winner
      then os[i].(outcome := os[i].outcome.(status := Winning, settlementValue := Some(1))) else os[i])
  }

  function TwoPass(os: seq<OutcomeRow>, market: Id, winner: Id): seq<OutcomeRow> {
    WinnerWins(EveryoneLoses(os, market), winner)
  }

  /** The outcomes of one market, in table order. */
  function OutcomesOf(os: seq<OutcomeRow>, market: Id): seq<Outcome> {
    if os == [] then []
    else (if os[0].marketId == market then [os[0].outcome] else []) + OutcomesOf(os[1..], market)
  }

  /** Two statements over the whole table do to a market's outcomes what the other repository does in one loop. */
  lemma {:induction false} TwoPassIsOneLoop(os: seq<OutcomeRow>, market: Id, winner: Id)
    ensures OutcomesOf(TwoPass(os, market, winner), market) == SettledOutcomes(OutcomesOf(os, market), winner)
  {
    if os != [] {
      TwoPassIsOneLoop(os[1..], market, winner);
      assert TwoPass(os, market, winner)[1..] == TwoPass(os[1..], market, winner);
    }
  }

  ghost predicate DistinctRows(os: seq<OutcomeRow>) {
    forall i, j :: 0 <= i < j < |os| ==> os[i].outcome.id != os[j].outcome.id
  }

  predicate NoneHas(os: seq<Outcome>, id: Id) {
    forall i :: 0 <= i < |os| ==> os[i].id != id
  }

  lemma {:induction false} AbsentStaysAbsent(os: seq<OutcomeRow>, market: Id, id: Id)
    requires forall i :: 0 <= i < |os| ==> os[i].outcome.id != id
    ensures NoneHas(OutcomesOf(os, market), id)
  {
    if os != [] { AbsentStaysAbsent(os[1..], market, id); }
  }

  lemma {:induction false} OutcomesStayDistinct(os: seq<OutcomeRow>, market: Id)
    requires DistinctRows(os)
    ensures MarketInvariants.DistinctOutcomes(OutcomesOf(os, market))
  {
    if os != [] {
      OutcomesStayDistinct(os[1..], market);
      AbsentStaysAbsent(os[1..], market, os[0].outcome.id);
    }
  }

  // ------------------------------------------------------------------ tables

  datatype MarketRow = MarketRow(id: Id, rail: Rail, status: MarketStatus)
  datatype DisputeRow = DisputeRow(marketId: Id, status: DisputeStatus)

  /** A market has at most one resolution, so the table is keyed by market. */
  datatype ResolutionRow = ResolutionRow(candidateId: Option<Id>, winner: Option<Id>, resolvedBy: Option<Id>)
  datatype CandidateRow = CandidateRow(
    marketId: Id, proposedOutcome: Option<Id>, status: CandidateStatus, reviewedBy: Option<Id>)

  /** What a finalization decides. */
  datatype Decision = Decision(winner: Id, candidateId: Option<Id>, reviewer: Option<Id>)

  datatype Tables = Tables(
    markets: map<Slug, MarketRow>, outcomes: seq<OutcomeRow>, disputes: seq<DisputeRow>,
    resolutions: map<Id, ResolutionRow>, candidates: map<Id, CandidateRow>,
    positions: seq<Position>, orders: seq<T.Order>, assets: set<T.Asset>, books: Books)

  predicate OpenDisputeIn(ds: seq<DisputeRow>, market: Id) {
    exists i :: 0 <= i < |ds| && ds[i].marketId == market
        && (ds[i].status == DisputeOpen || ds[i].status == UnderReview)
  }

  predicate OutcomeIn(os: seq<OutcomeRow>, market: Id, id: Id) {
    exists i :: 0 <= i < |os| && os[i].marketId == market && os[i].outcome.id == id
  }

  /** The market's resolution row is the one to update: no candidate was named, or its own. */
  predicate Matches(rs: map<Id, ResolutionRow>, market: Id, candidate: Option<Id>) {
    market in rs && (candidate.None? || rs[market].candidateId == candidate)
  }

  /** An insert for lack of a matching row fails when the market has another one or the candidate does not exist. */
  predicate InsertRefused(rs: map<Id, ResolutionRow>, cs: map<Id, CandidateRow>, market: Id, candidate: Option<Id>) {
    !Matches(rs, market, candidate) && (market in rs || (candidate.Some? && candidate.value !in cs))
  }

  function DecideResolution(rs: map<Id, ResolutionRow>, market: Id, d: Decision): map<Id, ResolutionRow> {
    rs[market := if Matches(rs, market, d.candidateId)
                 then rs[market].(winner := Some(d.winner), resolvedBy := d.reviewer)
                 else ResolutionRow(d.candidateId, Some(d.winner), d.reviewer)]
  }

  function ConfirmNamed(cs: map<Id, CandidateRow>, d: Decision): map<Id, CandidateRow> {
    if d.candidateId.Some? && d.candidateId.value in cs
    then cs[d.candidateId.value := cs[d.candidateId.value].(
              proposedOutcome := Some(d.winner), status := Confirmed, reviewedBy := d.reviewer)]
    else cs
  }

  /** The checks that come before any row is written. */
  function MarketError(t: Tables, slug: Slug, winner: Id): Option<Error> {
    if slug !in t.markets then Some(NotFound)
    else if t.markets[slug].status !in {AwaitingResolution, Disputed} then Some(Conflict)
    else if OpenDisputeIn(t.disputes, t.markets[slug].id) then Some(Conflict)
    else if !OutcomeIn(t.outcomes, t.markets[slug].id, winner) then Some(NotFound)
    else None
  }

  function SettleError(t: Tables, slug: Slug, d: Decision): Option<Error> {
    if MarketError(t, slug, d.winner).Some? then MarketError(t, slug, d.winner)
    else if InsertRefused(t.resolutions, t.candidates, t.markets[slug].id, d.candidateId) then Some(Invalid)
    else if T.RailAsset(t.markets[slug].rail) !in t.assets then Some(Conflict)
    else None
  }

  function ClosingOf(m: MarketRow, winner: Id): Closing {
    Closing(m.id, T.RailAsset(m.rail), m.rail, winner)
  }

  function PaidBooks(b: Books, ps: seq<Position>, k: Closing): Books {
    PayPositions(OpenAccount(b, PayerCode(k)), ps, |ps|, k)
  }

  /** All rows after a settlement; a failing call rolls everything back. */
  function SettleTables(t: Tables, slug: Slug, d: Decision): Result<Tables> {
    if SettleError(t, slug, d).Some? then Failure(SettleError(t, slug, d).value)
    else
      var m := t.markets[slug];
      var k := ClosingOf(m, d.winner);
      Success(t.(markets := t.markets[slug := m.(status := Settled)],
                 outcomes := TwoPass(t.outcomes, m.id, d.winner),
                 resolutions := DecideResolution(t.resolutions, m.id, d),
                 candidates := ConfirmNamed(t.candidates, d),
                 positions := ClosePositions(t.positions, k),
                 orders := T.CancelAll(t.orders, m.id),
                 books := PaidBooks(t.books, t.positions, k)))
  }

  /** What numeric(20, 8) stores of an amount. */
  function StoredAmount(amount: real): int { RoundHalfUp(amount * TICKS) }

  function FundedBooks(b: Books, profile: Id, asset: T.Asset, rail: Rail, ticks: int): Books {
    var user, treasury := UserCode(profile, asset, rail), TreasuryCode(asset, rail);
    Transfer(OpenAccount(OpenAccount(b, user), treasury), Adjustment, None, user, treasury, ticks)
  }

  /** The amount check of the entries table turns away what does not round to a positive amount. */
  function FundTables(t: Tables, profile: Id, asset: T.Asset, rail: Rail, amount: real): Result<Tables> {
    if asset !in t.assets then Failure(Conflict)
    else if StoredAmount(amount) <= 0 then Failure(Invalid)
    else Success(t.(books := FundedBooks(t.books, profile, asset, rail, StoredAmount(amount))))
  }

  lemma PaidBooksMove(b: Books, ps: seq<Position>, k: Closing, c: Code)
    requires WellKept(b) && Balanced(b)
    ensures WellKept(PaidBooks(b, ps, k)) && Balanced(PaidBooks(b, ps, k))
    ensures BalanceOf(PaidBooks(b, ps, k), c) == BalanceOf(b, c) + Gain(ps, |ps|, k, c)
  {
    OpenAccountKeepsBalances(b, PayerCode(k));
    PayPositionsMoves(OpenAccount(b, PayerCode(k)), ps, |ps|, k, c);
  }

  /** The books after a settlement, account by account, in terms of the rows before it. */
  ghost predicate MoneyMoved(t: Tables, b: Books, m: MarketRow, winner: Id, c: Code) {
    BalanceOf(b, c) == BalanceOf(t.books, c) +
      match c
      case UserCode(profile, asset, rail) =>
        if asset == (if m.rail == Onchain then T.USDC else T.AUD)
        then HeldBy(t.positions, |t.positions|, m.id, winner, profile, rail) else 0
      case MarketCode(market, asset, rail) =>
        if market == m.id && asset == (if m.rail == Onchain then T.USDC else T.AUD) && rail == m.rail
        then -HeldIn(t.positions, |t.positions|, m.id, winner) else 0
      case TreasuryCode(_, _) => 0
  }

  /**
   Settlement takes from the market's account exactly the quantity held in the winning outcome, gives the account of
   each holder exactly the quantity it held, in the asset of the market's rail, and touches no other account.
   */
  lemma SettlementMovesMoney(t: Tables, slug: Slug, d: Decision, c: Code)
    requires WellKept(t.books) && Balanced(t.books) && SettleTables(t, slug, d).Success?
    ensures MoneyMoved(t, SettleTables(t, slug, d).value.books, t.markets[slug], d.winner, c)
  {
    PaidBooksMove(t.books, t.positions, ClosingOf(t.markets[slug], d.winner), c);
  }

  /** A position of the market ends flat and realizes what it won less what it cost; any other stays. */
  ghost predicate PositionsClosed(ps: seq<Position>, ps': seq<Position>, market: Id, winner: Id) {
    && |ps'| == |ps|
    && (forall i :: 0 <= i < |ps| && ps[i].marketId != market ==> ps'[i] == ps[i])
    && (forall i ::
          0 <= i < |ps| && ps[i].marketId == market ==>
            ps'[i] == ps[i].(quantity := 0, averagePrice := None, netCost := 0, unrealizedPnl := 0,
                             realizedPnl := ps[i].realizedPnl - ps[i].netCost
                                            + if ps[i].outcomeId == winner then ps[i].quantity else 0))
  }

  /** Positions of the market end flat; their profit absorbs exactly what was won less what they cost. */
  lemma SettlementClosesPositions(t: Tables, slug: Slug, d: Decision)
    requires SettleTables(t, slug, d).Success?
    ensures var m := t.markets[slug];
            var after := SettleTables(t, slug, d).value.positions;
            && PositionsClosed(t.positions, after, m.id, d.winner)
            && RealizedPnl(after, |after|) == RealizedPnl(t.positions, |t.positions|)
                 + HeldIn(t.positions, |t.positions|, m.id, d.winner)
                 - NetCost(t.positions, |t.positions|, m.id)
  {
    ClosingRealizesProfit(t.positions, |t.positions|, ClosingOf(t.markets[slug], d.winner));
  }

  /** What else a settlement changes: the market's status and its active orders, and no other market or order. */
  lemma SettlementCancelsOrders(t: Tables, slug: Slug, d: Decision)
    requires SettleTables(t, slug, d).Success?
    ensures var after := SettleTables(t, slug, d).value;
            && T.OrdersCancelled(t.orders, after.orders, t.markets[slug].id)
            && after.markets == t.markets[slug := t.markets[slug].(status := Settled)]
            && after.disputes == t.disputes && after.assets == t.assets
  {
  }

  /** The outcomes of the market are one-hot and sum to one; no other market's outcome is touched. */
  lemma SettlementDecidesOutcomes(t: Tables, slug: Slug, d: Decision)
    requires DistinctRows(t.outcomes) && SettleTables(t, slug, d).Success?
    ensures var m := t.markets[slug];
            var after := SettleTables(t, slug, d).value.outcomes;
            && OutcomesOf(after, m.id) == SettledOutcomes(OutcomesOf(t.outcomes, m.id), d.winner)
            && MarketInvariants.SettlementSum(OutcomesOf(after, m.id)) == 1
            && |after| == |t.outcomes|
            && forall i :: 0 <= i < |after| && after[i].marketId != m.id ==> after[i] == t.outcomes[i]
  {
    var m := t.markets[slug];
    TwoPassIsOneLoop(t.outcomes, m.id, d.winner);
    OutcomesStayDistinct(t.outcomes, m.id);
    var w :| 0 <= w < |t.outcomes| && t.outcomes[w].marketId == m.id && t.outcomes[w].outcome.id == d.winner;
    OutcomeIsListed(t.outcomes, m.id, w);
    OneLoopSumsToOne(OutcomesOf(t.outcomes, m.id), d.winner);
  }

  lemma OneLoopSumsToOne(os: seq<Outcome>, winner: Id)
    requires MarketInvariants.DistinctOutcomes(os) && HasOutcome(os, winner)
    ensures MarketInvariants.SettlementSum(SettledOutcomes(os, winner)) == 1
  {
    var w :| 0 <= w < |os| && os[w].id == winner;
    assert SettledOutcomes(os, winner)[w].id == winner;
    MarketInvariants.OneHotSumsToOne(SettledOutcomes(os, winner), winner);
  }

  lemma {:induction false} OutcomeIsListed(os: seq<OutcomeRow>, market: Id, i: nat)
    requires i < |os| && os[i].marketId == market
    ensures HasOutcome(OutcomesOf(os, market), os[i].outcome.id)
  {
    var rest := OutcomesOf(os[1..], market);
    if i == 0 {
      assert OutcomesOf(os, market)[0] == os[0].outcome;
    } else {
      OutcomeIsListed(os[1..], market, i - 1);
      var v :| 0 <= v < |rest| && rest[v].id == os[i].outcome.id;
      assert OutcomesOf(os, market)[if os[0].marketId == market then v + 1 else v] == rest[v];
    }
  }

  /**
   When a settlement succeeds. Naming a candidate that is not the one of the market's resolution makes it fail, unlike
   in the memory repository.
   */
  lemma SettlesExactly(t: Tables, slug: Slug, d: Decision)
    ensures SettleTables(t, slug, d).Success?
            <==> && slug in t.markets
                 && t.markets[slug].status in {AwaitingResolution, Disputed}
                 && (forall i :: 0 <= i < |t.disputes| && t.disputes[i].marketId == t.markets[slug].id ==>
                       t.disputes[i].status in {Upheld, Dismissed, Withdrawn})
                 && (exists i :: 0 <= i < |t.outcomes| && t.outcomes[i].marketId == t.markets[slug].id
                                 && t.outcomes[i].outcome.id == d.winner)
                 && (if t.markets[slug].rail == Onchain then T.USDC else T.AUD) in t.assets
                 && (d.candidateId.None?
                     || if t.markets[slug].id in t.resolutions
                        then t.resolutions[t.markets[slug].id].candidateId == d.candidateId
                        else d.candidateId.value in t.candidates)
  {
  }

  /**
   Why a settlement fails: NotFound for a market, or a winner, that is not listed; an error of the database for a
   candidate that the tables do not admit; and a conflict for everything else.
   */
  lemma SettlementAnswers(t: Tables, slug: Slug, d: Decision)
    ensures var r := SettleTables(t, slug, d);
            if slug !in t.markets then r == Failure(NotFound)
            else
              var m := t.markets[slug];
              var blocked := m.status !in {AwaitingResolution, Disputed}
                             || exists i :: 0 <= i < |t.disputes| && t.disputes[i].marketId == m.id
                                            && t.disputes[i].status in {DisputeOpen, UnderReview};
              var listed := exists i :: 0 <= i < |t.outcomes| && t.outcomes[i].marketId == m.id
                                        && t.outcomes[i].outcome.id == d.winner;
              && (r == Failure(NotFound) <==> !blocked && !listed)
              && (blocked ==> r == Failure(Conflict))
              && (r == Failure(Invalid) ==> !blocked && listed && d.candidateId.Some?)
              && (r == Failure(Conflict) && !blocked ==> (if m.rail == Onchain then T.USDC else T.AUD) !in t.assets)
              && (r.Failure? ==> r.error in {NotFound, Conflict, Invalid})
  {
    var m := t.markets;
    if slug in m {
      assert OpenDisputeIn(t.disputes, m[slug].id)
        <==> exists i :: 0 <= i < |t.disputes| && t.disputes[i].marketId == m[slug].id
                         && t.disputes[i].status in {DisputeOpen, UnderReview};
    }
  }

  /** The market's resolution names the winner; no other resolution, and no candidate that was not named, changes. */
  lemma SettlementRecordsWinner(t: Tables, slug: Slug, d: Decision, other: Id)
    requires SettleTables(t, slug, d).Success?
    ensures var after := SettleTables(t, slug, d).value;
            var m := t.markets[slug].id;
            && m in after.resolutions && after.resolutions[m].winner == Some(d.winner)
            && after.resolutions[m].resolvedBy == d.reviewer
            && (d.candidateId.Some? ==> after.resolutions[m].candidateId == d.candidateId)
            && (d.candidateId.None? && m in t.resolutions ==>
                  after.resolutions[m].candidateId == t.resolutions[m].candidateId)
            && (other != m ==> (other in after.resolutions <==> other in t.resolutions)
                               && (other in t.resolutions ==> after.resolutions[other] == t.resolutions[other]))
            && after.candidates.Keys == t.candidates.Keys
            && (other in t.candidates ==>
                  if d.candidateId == Some(other)
                  then after.candidates[other].status == Confirmed
                       && after.candidates[other].proposedOutcome == Some(d.winner)
                       && after.candidates[other].reviewedBy == d.reviewer
                       && after.candidates[other].marketId == t.candidates[other].marketId
                  else after.candidates[other] == t.candidates[other])
  {
  }

  /** A settled market cannot be settled again, whoever is named the winner, and keeps no active order. */
  lemma SettlementIsFinal(t: Tables, slug: Slug, d: Decision, another: Decision)
    requires SettleTables(t, slug, d).Success?
    ensures var after := SettleTables(t, slug, d).value;
            && SettleTables(after, slug, another) == Failure(Conflict)
            && forall i :: 0 <= i < |after.orders| && after.orders[i].marketId == t.markets[slug].id
                ==> !T.ActiveOrder(after.orders[i])
  {
  }

  /** Each row keeps its market, id and code; the winner is worth one, the market's other outcomes nothing. */
  ghost predicate RowsDecided(os: seq<OutcomeRow>, os': seq<OutcomeRow>, market: Id, winner: Id) {
    && |os'| == |os|
    && forall i :: 0 <= i < |os| ==>
         && os'[i].marketId == os[i].marketId
         && os'[i].outcome.id == os[i].outcome.id && os'[i].outcome.code == os[i].outcome.code
         && (os[i].outcome.id == winner ==>
               os'[i].outcome.status == Winning && os'[i].outcome.settlementValue == Some(1))
         && (os[i].outcome.id != winner && os[i].marketId == market ==>
               os'[i].outcome.status == Losing && os'[i].outcome.settlementValue == Some(0))
         && (os[i].outcome.id != winner && os[i].marketId != market ==> os'[i] == os[i])
  }

  /** The rows of a settlement in terms of the rows before it. */
  ghost predicate SettledRows(t: Tables, t': Tables, slug: Slug, winner: Id) {
    && slug in t.markets
    && t'.markets == t.markets[slug := t.markets[slug].(status := Settled)]
    && PositionsClosed(t.positions, t'.positions, t.markets[slug].id, winner)
    && T.OrdersCancelled(t.orders, t'.orders, t.markets[slug].id)
    && RowsDecided(t.outcomes, t'.outcomes, t.markets[slug].id, winner)
    && (WellKept(t.books) && Balanced(t.books) ==>
          forall c: Code :: MoneyMoved(t, t'.books, t.markets[slug], winner, c))
  }

  lemma SettlementIsSettled(t: Tables, slug: Slug, d: Decision)
    requires SettleTables(t, slug, d).Success?
    ensures SettledRows(t, SettleTables(t, slug, d).value, slug, d.winner)
  {
    SettlementClosesPositions(t, slug, d);
    SettlementCancelsOrders(t, slug, d);
    if WellKept(t.books) && Balanced(t.books) {
      forall c: Code ensures MoneyMoved(t, SettleTables(t, slug, d).value.books, t.markets[slug], d.winner, c) {
        SettlementMovesMoney(t, slug, d, c);
      }
    }
  }

  /** Funding succeeds exactly for a configured asset and an amount that rounds to a positive one, which it books. */
  lemma FundsExactly(t: Tables, profile: Id, asset: T.Asset, rail: Rail, amount: real)
    ensures FundTables(t, profile, asset, rail, amount).Success? <==> asset in t.assets && amount >= 0.000000005
    ensures FundTables(t, profile, asset, rail, amount) == Failure(Conflict) <==> asset !in t.assets
    ensures -0.5 <= StoredAmount(amount) as real - amount * 100000000.0 <= 0.5
    ensures FundTables(t, profile, asset, rail, amount).Success? ==>
              FundTables(t, profile, asset, rail, amount).value
              == t.(books := FundTables(t, profile, asset, rail, amount).value.books)
  {
  }

  /** Funding moves the stored amount from the treasury to the user, and nothing else. */
  lemma FundingMovesMoney(t: Tables, profile: Id, asset: T.Asset, rail: Rail, amount: real, c: Code)
    requires WellKept(t.books) && Balanced(t.books) && FundTables(t, profile, asset, rail, amount).Success?
    ensures var after := FundTables(t, profile, asset, rail, amount).value.books;
            && WellKept(after) && Balanced(after)
            && BalanceOf(after, c) == BalanceOf(t.books, c)
                 + if c == UserCode(profile, asset, rail) then StoredAmount(amount)
                   else if c == TreasuryCode(asset, rail) then -StoredAmount(amount) else 0
  {
    var user, treasury := UserCode(profile, asset, rail), TreasuryCode(asset, rail);
    var one := OpenAccount(t.books, user);
    var two := OpenAccount(one, treasury);
    OpenAccountKeepsBalances(t.books, user);
    OpenAccountKeepsBalances(one, treasury);
    TransferIsWellKept(two, Adjustment, None, user, treasury, StoredAmount(amount));
    TransferBalances(two, Adjustment, None, user, treasury, StoredAmount(amount));
    TransferMoves(two, Adjustment, None, user, treasury, StoredAmount(amount), c);
  }

  // -------------------------------------------------------------------- runs

  /** Calls on the repository, and whatever else changes the tables that are not the journal. */
  datatype Call =
    | SettleCall(slug: Slug, d: Decision)
    | FundCall(profile: Id, asset: T.Asset, rail: Rail, amount: real)
    | Elsewhere(markets: map<Slug, MarketRow>, outcomes: seq<OutcomeRow>, disputes: seq<DisputeRow>,
                resolutions: map<Id, ResolutionRow>, candidates: map<Id, CandidateRow>,
                positions: seq<Position>, orders: seq<T.Order>, assets: set<T.Asset>)

  function Perform(t: Tables, c: Call): Tables {
    match c
    case SettleCall(slug, d) =>
      if SettleTables(t, slug, d).Success? then SettleTables(t, slug, d).value else t
    case FundCall(profile, asset, rail, amount) =>
      if FundTables(t, profile, asset, rail, amount).Success?
          then FundTables(t, profile, asset, rail, amount).value else t
    case Elsewhere(markets, outcomes, disputes, resolutions, candidates, positions, orders, assets) =>
      Tables(markets, outcomes, disputes, resolutions, candidates, positions, orders, assets, t.books)
  }

  function PerformAll(t: Tables, cs: seq<Call>): Tables
    decreases |cs|
  {
    if cs == [] then t else PerformAll(Perform(t, cs[0]), cs[1..])
  }

  /**
   After any run of settlements and fundings, interleaved with any changes to markets, positions and orders,
   every transaction of the journal has equal debits and credits and so has the journal.
   */
  lemma {:induction false} BooksAlwaysBalance(t: Tables, cs: seq<Call>)
    requires WellKept(t.books) && Balanced(t.books)
    ensures WellKept(PerformAll(t, cs).books) && Balanced(PerformAll(t, cs).books)
    decreases |cs|
  {
    if cs != [] {
      var c := cs[0];
      if c.SettleCall? && SettleTables(t, c.slug, c.d).Success? {
        PaidBooksMove(t.books, t.positions, ClosingOf(t.markets[c.slug], c.d.winner), TreasuryCode(T.AUD, Onchain));
      } else if c.FundCall? && FundTables(t, c.profile, c.asset, c.rail, c.amount).Success? {
        FundingMovesMoney(t, c.profile, c.asset, c.rail, c.amount, TreasuryCode(T.AUD, Onchain));
      }
      BooksAlwaysBalance(Perform(t, c), cs[1..]);
    }
  }

  lemma EmptyJournalBalances(t: Tables, cs: seq<Call>)
    requires t.books == NO_BOOKS
    ensures WellKept(PerformAll(t, cs).books) && Balanced(PerformAll(t, cs).books)
  {
    BooksAlwaysBalance(t, cs);
  }

  // -------------------------------------------------------------- repository

  /** The existing account with this code, or a new one. */
  method GetOrCreateLedgerAccount(b: Books, code: Code) returns (after: Books, accountId: Id)
    ensures after == OpenAccount(b, code) && code in after.accounts && accountId == after.accounts[code]
  {
    after := b;
    if code !in after.accounts {
      after := after.(accounts := after.accounts[code := after.nextId], nextId := after.nextId + 1);
    }
    accountId := after.accounts[code];
  }

  method InsertTransaction(b: Books, kind: Kind, market: Option<Id>) returns (after: Books, transactionId: Id)
    ensures after == b.(transactions := b.transactions + [Transaction(b.nextId, kind, market)], nextId := b.nextId + 1)
    ensures transactionId == b.nextId
  {
    transactionId := b.nextId;
    after := b.(transactions := b.transactions + [Transaction(transactionId, kind, market)], nextId := b.nextId + 1);
  }

  /** One new transaction was booked: an amount into the user's account, or out of it when it is negative. */
  ghost predicate Booked(b: Books, after: Books, kind: Kind, market: Option<Id>, user: Code, other: Code, amount: int)
  {
    && user in after.accounts && other in after.accounts && after.nextId > b.nextId
    && var id := after.nextId - 1;
       && after.transactions == b.transactions + [Transaction(id, kind, market)]
       && after.entries == b.entries +
            if amount > 0
            then [Entry(id, after.accounts[user], Debit, amount), Entry(id, after.accounts[other], Credit, amount)]
            else [Entry(id, after.accounts[user], Credit, -amount), Entry(id, after.accounts[other], Debit, -amount)]
  }

  /**
   The body of the payout loop for one position of the market. A losing position books nothing and loses its cost; a
   winning one is paid its quantity.
   */
  method SettlePosition(b: Books, p: Position, k: Closing) returns (after: Books, closed: Position)
    requires PayerCode(k) in b.accounts && p.marketId == k.market
    ensures after == PayPosition(b, p, k) && closed == ClosePosition(p, k)
    ensures p.outcomeId != k.winner || p.quantity == 0 ==> after == b
    ensures p.outcomeId == k.winner && p.quantity != 0 ==>
              Booked(b, after, TradeSettlement, Some(k.market), UserCode(p.profile, k.asset, p.rail),
                     MarketCode(k.market, k.asset, k.rail), p.quantity)
    ensures PositionsClosed([p], [closed], k.market, k.winner)
  {
    var settlementValue := if p.outcomeId == k.winner then 1 else 0;
    var payout := p.quantity * settlementValue;
    after := b;
    if payout != 0 {
      var marketAccount := b.accounts[PayerCode(k)];
      var user, transaction;
      after, user := GetOrCreateLedgerAccount(after, HolderCode(p, k));
      after, transaction := InsertTransaction(after, TradeSettlement, Some(k.market));
      var entries;
      if payout > 0 {
        entries := [Entry(transaction, user, Debit, payout), Entry(transaction, marketAccount, Credit, payout)];
      } else {
        entries := [Entry(transaction, user, Credit, -payout), Entry(transaction, marketAccount, Debit, -payout)];
      }
      after := after.(entries := after.entries + entries);
    }
    closed := p.(quantity := 0, averagePrice := None, netCost := 0,
                 realizedPnl := p.realizedPnl + (payout - p.netCost), unrealizedPnl := 0);
  }

  /** The payout loop. */
  method SettlePositions(b: Books, ps: seq<Position>, k: Closing) returns (after: Books, closed: seq<Position>)
    requires PayerCode(k) in b.accounts
    ensures after == PayPositions(b, ps, |ps|, k) && closed == ClosePositions(ps, k)
  {
    after, closed := b, ps;
    for i := 0 to |ps|
      invariant after == PayPositions(b, ps, i, k)
      invariant |closed| == |ps|
      invariant forall j :: 0 <= j < i ==> closed[j] == ClosePosition(ps[j], k)
      invariant forall j :: i <= j < |ps| ==> closed[j] == ps[j]
    {
      if ps[i].marketId == k.market {
        var position;
        after, position := SettlePosition(after, ps[i], k);
        closed := closed[i := position];
      }
    }
  }

  method UpdateCandidate(candidates: map<Id, CandidateRow>, d: Decision) returns (after: map<Id, CandidateRow>)
    ensures after == ConfirmNamed(candidates, d)
  {
    after := candidates;
    if d.candidateId.Some? && d.candidateId.value in candidates {
      var row := candidates[d.candidateId.value];
      after := after[d.candidateId.value :=
                       row.(proposedOutcome := Some(d.winner), status := Confirmed, reviewedBy := d.reviewer)];
    }
  }

  /** Updates the matching row, or inserts one; constraints of the table may refuse the insert. */
  method WriteResolution(resolutions: map<Id, ResolutionRow>, candidates: map<Id, CandidateRow>, market: Id,
    d: Decision)
    returns (r: Result<map<Id, ResolutionRow>>)
    ensures r == if InsertRefused(resolutions, candidates, market, d.candidateId) then Failure(Invalid)
                 else Success(DecideResolution(resolutions, market, d))
  {
    if market in resolutions && (d.candidateId.None? || resolutions[market].candidateId == d.candidateId) {
      var row := resolutions[market].(winner := Some(d.winner), resolvedBy := d.reviewer);
      return Success(resolutions[market := row]);
    }
    if market in resolutions { return Failure(Invalid); }
    if d.candidateId.Some? && d.candidateId.value !in candidates { return Failure(Invalid); }
    return Success(resolutions[market := ResolutionRow(d.candidateId, Some(d.winner), d.reviewer)]);
  }

  /** The writes of settle_market, statement by statement, on the rows of a session. */
  method WriteSettlement(t: Tables, slug: Slug, d: Decision) returns (r: Result<Tables>)
    requires MarketError(t, slug, d.winner).None?
    ensures r == SettleTables(t, slug, d)
  {
    var m := t.markets[slug];
    var outcomes := EveryoneLoses(t.outcomes, m.id);
    outcomes := WinnerWins(outcomes, d.winner);
    var candidates := UpdateCandidate(t.candidates, d);
    var resolutions := WriteResolution(t.resolutions, t.candidates, m.id, d);
    if resolutions.Failure? { return Failure(resolutions.error); }
    var asset := T.RailAsset(m.rail);
    if asset !in t.assets { return Failure(Conflict); }
    var k := Closing(m.id, asset, m.rail, d.winner);
    var books, _ := GetOrCreateLedgerAccount(t.books, PayerCode(k));
    var positions;
    books, positions := SettlePositions(books, t.positions, k);
    var orders := T.CancelAll(t.orders, m.id);
    var markets := t.markets[slug := m.(status := Settled)];
    r := Success(Tables(markets, outcomes, t.disputes, resolutions.value, candidates, positions, orders, t.assets,
        books));
  }

  class PostgresRepository {
    var markets: map<Slug, MarketRow>
    var outcomes: seq<OutcomeRow>
    var disputes: seq<DisputeRow>
    var resolutions: map<Id, ResolutionRow>
    var candidates: map<Id, CandidateRow>
    var positions: seq<Position>
    var orders: seq<T.Order>
    var assets: set<T.Asset>
    var books: Books

    ghost function Rows(): Tables
      reads this
    {
      Tables(markets, outcomes, disputes, resolutions, candidates, positions, orders, assets, books)
    }

    method CheckMarket(slug: Slug, winner: Id) returns (error: Option<Error>)
      ensures error == MarketError(Rows(), slug, winner)
    {
      if slug !in markets { return Some(NotFound); }
      var m := markets[slug];
      if m.status !in {AwaitingResolution, Disputed} { return Some(Conflict); }
      if OpenDisputeIn(disputes, m.id) { return Some(Conflict); }
      if !OutcomeIn(outcomes, m.id, winner) { return Some(NotFound); }
      return None;
    }

    method SettleMarket(slug: Slug, d: Decision) returns (r: Result<Id>)
      modifies this
      ensures match SettleTables(old(Rows()), slug, d)
              case Failure(e) => r == Failure(e) && Rows() == old(Rows())
              case Success(t) => Rows() == t && r == Success(t.markets[slug].id)
      ensures r.Success? ==> SettledRows(old(Rows()), Rows(), slug, d.winner)
    {
      var error := CheckMarket(slug, d.winner);
      if error.Some? { return Failure(error.value); }
      var session := WriteSettlement(
        Tables(markets, outcomes, disputes, resolutions, candidates, positions, orders, assets, books), slug, d);
      if session.Failure? { return Failure(session.error); }
      SettlementIsSettled(Rows(), slug, d);
      Commit(session.value);
      r := Success(markets[slug].id);
    }

    /** The rows of a session become the rows of the database. */
    method Commit(t: Tables)
      modifies this
      ensures Rows() == t
    {
      markets, outcomes, disputes := t.markets, t.outcomes, t.disputes;
      resolutions, candidates := t.resolutions, t.candidates;
      positions, orders, assets, books := t.positions, t.orders, t.assets, t.books;
    }

    method FundBalance(profile: Id, asset: T.Asset, rail: Rail, amount: real) returns (r: Result<Id>)
      modifies this
      ensures match FundTables(old(Rows()), profile, asset, rail, amount)
              case Failure(e) => r == Failure(e) && Rows() == old(Rows())
              case Success(t) => r == Success(profile) && Rows() == t
      ensures r.Success? ==>
                Booked(old(books), books, Adjustment, None, UserCode(profile, asset, rail),
                       TreasuryCode(asset, rail), StoredAmount(amount))
    {
      if asset !in assets { return Failure(Conflict); }
      var journal, user := GetOrCreateLedgerAccount(books, UserCode(profile, asset, rail));
      var treasury, transaction;
      journal, treasury := GetOrCreateLedgerAccount(journal, TreasuryCode(asset, rail));
      journal, transaction := InsertTransaction(journal, Adjustment, None);
      var stored := StoredAmount(amount);
      if stored <= 0 { return Failure(Invalid); }
      journal := journal.(entries := journal.entries
        + [Entry(transaction, user, Debit, stored), Entry(transaction, treasury, Credit, stored)]);
      books := journal;
      r := Success(profile);
    }
  }
}
