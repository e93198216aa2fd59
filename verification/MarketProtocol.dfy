/**
 The market resolution protocol, market by market.

 Everything the repository keeps about one market is gathered in a `Record`;
 each operation is a function from a record to a record or to an error. The
 board is the dictionary of records by slug together with the supply of ids.
 Class MarketRepository keeps the same information in five dictionaries that it
 updates in place, and is proved to follow this module step by step.
 */
module MarketProtocol {
  import opened Wrappers

  type Id = nat
  type Slug = string
  type Time = int
  type Payload = map<string, string>

  datatype MarketStatus =
    | PendingLiquidity | Open | TradingPaused
    | AwaitingResolution | Disputed
    | Settled | Cancelled
    | OtherStatus(text: string)

  datatype Rail = Onchain | OtherRail(name: string)

  datatype OutcomeStatus = Active | Winning | Losing
  datatype Outcome = Outcome(id: Id, code: string, status: OutcomeStatus, settlementValue: Option<int>)

  datatype Market = Market(
    id: Id, rail: Rail, status: MarketStatus, outcomes: seq<Outcome>,
    resolutionDueAt: Option<Time>, settledAt: Option<Time>)

  datatype CandidateStatus = Proposed | Rejected | Confirmed
  datatype Candidate = Candidate(
    id: Id, proposedBy: Id, proposedOutcome: Option<Id>, status: CandidateStatus,
    reviewedBy: Option<Id>, payload: Payload)

  datatype ResolutionStatus = PendingOracle | ResolutionDisputed | Finalized
  datatype Resolution = Resolution(
    id: Id, winner: Option<Id>, candidateId: Option<Id>, status: ResolutionStatus,
    finalizesAt: Option<Time>)

  datatype DisputeStatus = DisputeOpen | UnderReview | Upheld | Dismissed | Withdrawn
  datatype Evidence = Evidence(id: Id, disputeId: Id, submittedBy: Id, content: string)
  datatype Dispute = Dispute(
    id: Id, resolutionId: Id, raisedBy: Id, status: DisputeStatus, reason: string,
    closedAt: Option<Time>, reviewNotes: Option<string>, evidence: seq<Evidence>)

  /** The statuses a review may set. */
  datatype Verdict = TakeUnderReview | Uphold | Dismiss | Withdraw

  /** What the oracle service answers: not configured, refused, or a payload. */
  datatype OracleReply = NoOracle | Refused | Answer(payload: Payload)

  datatype Record = Record(
    market: Market, resolution: Option<Resolution>,
    candidates: seq<Candidate>, disputes: seq<Dispute>)

  // ---------------------------------------------------------------- statuses

  predicate ActiveDispute(d: Dispute) {
    d.status == DisputeOpen || d.status == UnderReview
  }

  predicate AnyActive(ds: seq<Dispute>) {
    exists i :: 0 <= i < |ds| && ActiveDispute(ds[i])
  }

  /** The status changes an administrator may ask for. */
  predicate MayMove(old_: MarketStatus, new_: MarketStatus) {
    match old_
    case PendingLiquidity => new_ == Open || new_ == Cancelled
    case Open => new_ == TradingPaused || new_ == Cancelled
    case TradingPaused => new_ == Open || new_ == Cancelled
    case _ => false
  }

  /** Position of the first dispute with the given id. */
  function FindDispute(ds: seq<Dispute>, id: Id): (r: Option<nat>)
    ensures r.Some? ==> r.value < |ds| && ds[r.value].id == id
    ensures r.Some? ==> forall i :: 0 <= i < r.value ==> ds[i].id != id
    ensures r.None? ==> forall i :: 0 <= i < |ds| ==> ds[i].id != id
  {
    if ds == [] then None
    else if ds[0].id == id then Some(0)
    else match FindDispute(ds[1..], id)
         case None => None
         case Some(i) => Some(i + 1)
  }

  function VerdictStatus(v: Verdict): DisputeStatus {
    match v
    case TakeUnderReview => UnderReview
    case Uphold => Upheld
    case Dismiss => Dismissed
    case Withdraw => Withdrawn
  }

  // -------------------------------------------------------------- operations

  /** A published market: two outcomes, YES and NO, and nothing asked or decided. */
  function NewMarket(id: Id, rail: Rail): Market {
    Market(id, rail, PendingLiquidity,
           [Outcome(id + 1, "YES", Active, None), Outcome(id + 2, "NO", Active, None)],
           None, None)
  }

  function NewRecord(id: Id, rail: Rail): Record {
    Record(NewMarket(id, rail), None, [], [])
  }

  function UpdateStatus(r: Record, status: MarketStatus): Result<Record> {
    if !MayMove(r.market.status, status) then Failure(Conflict)
    else Success(r.(market := r.market.(status := status)))
  }

  function RequestSettlement(r: Record, requester: Id, notes: string, finalizesAt: Time,
                             oracle: OracleReply, candidateId: Id, resolutionId: Id): Result<Record>
  {
    if r.market.status in {Settled, Cancelled, AwaitingResolution, Disputed} then Failure(Conflict)
    else if oracle.Refused? then Failure(Conflict)
    else
      var answer := if oracle.Answer? then oracle.payload else map[];
      var candidate := Candidate(candidateId, requester, None, Proposed, None,
                                 map["status" := "pending_oracle", "notes" := notes] + answer);
      Success(Record(
        r.market.(status := AwaitingResolution, resolutionDueAt := Some(finalizesAt)),
        Some(Resolution(resolutionId, None, Some(candidateId), PendingOracle, Some(finalizesAt))),
        [candidate] + r.candidates,
        r.disputes))
  }

  function MarkCandidate(c: Candidate, id: Option<Id>, status: CandidateStatus, reviewer: Option<Id>): Candidate {
    if id == Some(c.id) then c.(status := status, reviewedBy := reviewer) else c
  }

  /** Every candidate with the given id takes the new status and reviewer. */
  function MarkCandidates(cs: seq<Candidate>, id: Option<Id>, status: CandidateStatus,
                          reviewer: Option<Id>): seq<Candidate>
  {
    seq(|cs|, i requires 0 <= i < |cs| => MarkCandidate(cs[i], id, status, reviewer))
  }

  function RaiseDispute(r: Record, actor: Id, reason: string, disputeId: Id): Result<Record> {
    if r.market.status !in {AwaitingResolution, Disputed} then Failure(Conflict)
    else if r.resolution.None? then Failure(Conflict)
    else if AnyActive(r.disputes) then Failure(Conflict)
    else
      var resolution := r.resolution.value;
      var dispute := Dispute(disputeId, resolution.id, actor, DisputeOpen, reason, None, None, []);
      Success(Record(
        r.market.(status := Disputed),
        Some(resolution.(status := ResolutionDisputed)),
        MarkCandidates(r.candidates, resolution.candidateId, Rejected, Some(actor)),
        [dispute] + r.disputes))
  }

  function AddEvidence(r: Record, disputeId: Id, actor: Id, content: string, evidenceId: Id): Result<Record> {
    match FindDispute(r.disputes, disputeId)
    case None => Failure(NotFound)
    case Some(i) =>
      if !ActiveDispute(r.disputes[i]) then Failure(Conflict)
      else
        var evidence := r.disputes[i].evidence + [Evidence(evidenceId, disputeId, actor, content)];
        Success(r.(disputes := r.disputes[i := r.disputes[i].(evidence := evidence)]))
  }

  function Review(r: Record, disputeId: Id, verdict: Verdict, notes: Option<string>, now: Time): Result<Record> {
    match FindDispute(r.disputes, disputeId)
    case None => Failure(NotFound)
    case Some(i) =>
      var d := r.disputes[i];
      if !ActiveDispute(d) then Failure(Conflict)
      else
        var d' := d.(status := VerdictStatus(verdict), reviewNotes := notes,
                     closedAt := if verdict.TakeUnderReview? then d.closedAt else Some(now));
        var accepted := verdict.Dismiss? || verdict.Withdraw?;
        var resolutionStatus := if accepted then PendingOracle else ResolutionDisputed;
        Success(Record(
          r.market.(status := if accepted then AwaitingResolution else Disputed),
          if r.resolution.Some? then Some(r.resolution.value.(status := resolutionStatus)) else None,
          if accepted
          then MarkCandidates(r.candidates, if r.resolution.Some? then r.resolution.value.candidateId else None,
                              Proposed, None)
          else r.candidates,
          r.disputes[i := d']))
  }

  predicate HasCandidate(cs: seq<Candidate>, id: Id) {
    exists i :: 0 <= i < |cs| && cs[i].id == id
  }

  function ReplacePayload(cs: seq<Candidate>, id: Id, payload: Payload): seq<Candidate> {
    seq(|cs|, i requires 0 <= i < |cs| => if cs[i].id == id then cs[i].(payload := payload) else cs[i])
  }

  function Reconcile(r: Record, oracle: OracleReply): Result<Record> {
    if r.resolution.None? || r.resolution.value.candidateId.None? then Failure(Conflict)
    else
      var id := r.resolution.value.candidateId.value;
      if !HasCandidate(r.candidates, id) || !oracle.Answer? then Failure(Conflict)
      else Success(r.(candidates := ReplacePayload(r.candidates, id, oracle.payload)))
  }

  function SettledOutcome(o: Outcome, winner: Id): Outcome {
    if o.id == winner then o.(status := Winning, settlementValue := Some(1))
    else o.(status := Losing, settlementValue := Some(0))
  }

  /** The outcome list once the market has paid out to `winner`. */
  function SettledOutcomes(os: seq<Outcome>, winner: Id): seq<Outcome> {
    seq(|os|, i requires 0 <= i < |os| => SettledOutcome(os[i], winner))
  }

  predicate HasOutcome(os: seq<Outcome>, id: Id) {
    exists i :: 0 <= i < |os| && os[i].id == id
  }

  function ConfirmCandidate(c: Candidate, id: Id, winner: Id, reviewer: Option<Id>, notes: string): Candidate {
    if c.id == id
    then c.(proposedOutcome := Some(winner), status := Confirmed, reviewedBy := reviewer,
            payload := c.payload + map["status" := "finalized", "notes" := notes])
    else c
  }

  function ConfirmCandidates(cs: seq<Candidate>, id: Id, winner: Id, reviewer: Option<Id>, notes: string)
    : seq<Candidate>
  {
    seq(|cs|, i requires 0 <= i < |cs| => ConfirmCandidate(cs[i], id, winner, reviewer, notes))
  }

  function Settle(r: Record, reviewer: Option<Id>, winner: Id, candidateId: Option<Id>, notes: string,
                  now: Time, resolutionId: Id): Result<Record>
  {
    if r.market.status !in {AwaitingResolution, Disputed} then Failure(Conflict)
    else if AnyActive(r.disputes) then Failure(Conflict)
    else if !HasOutcome(r.market.outcomes, winner) then Failure(NotFound)
    else
      var prior := r.resolution;
      Success(Record(
        r.market.(status := Settled, outcomes := SettledOutcomes(r.market.outcomes, winner), settledAt := Some(now)),
        Some(Resolution(
          if prior.Some? then prior.value.id else resolutionId,
          Some(winner),
          if candidateId.Some? then candidateId else if prior.Some? then prior.value.candidateId else None,
          Finalized,
          if prior.Some? then prior.value.finalizesAt else None)),
        if candidateId.Some? then ConfirmCandidates(r.candidates, candidateId.value, winner, reviewer, notes)
        else r.candidates,
        r.disputes))
  }

  // ------------------------------------------------------------------- board

  datatype Board = Board(records: map<Slug, Record>, nextId: Id)

  datatype Event =
    | PublishEvent(slug: Slug, rail: Rail)
    | StatusEvent(slug: Slug, status: MarketStatus)
    | RequestEvent(slug: Slug, requester: Id, notes: string, finalizesAt: Time, oracle: OracleReply)
    | DisputeEvent(slug: Slug, actor: Id, reason: string)
    | EvidenceEvent(slug: Slug, disputeId: Id, actor: Id, content: string)
    | ReviewEvent(slug: Slug, disputeId: Id, verdict: Verdict, reviewNotes: Option<string>, now: Time)
    | ReconcileEvent(slug: Slug, oracle: OracleReply)
    | SettleEvent(slug: Slug, reviewer: Option<Id>, winner: Id, candidateId: Option<Id>, notes: string, now: Time)

  /** What the operation named by the event does to the record of its market. */
  function ApplyTo(r: Record, e: Event, fresh_: Id): Result<Record>
    requires !e.PublishEvent?
  {
    match e
    case StatusEvent(_, status) => UpdateStatus(r, status)
    case RequestEvent(_, requester, notes, finalizesAt, oracle) =>
      RequestSettlement(r, requester, notes, finalizesAt, oracle, fresh_, fresh_ + 1)
    case DisputeEvent(_, actor, reason) => RaiseDispute(r, actor, reason, fresh_)
    case EvidenceEvent(_, disputeId, actor, content) => AddEvidence(r, disputeId, actor, content, fresh_)
    case ReviewEvent(_, disputeId, verdict, notes, now) => Review(r, disputeId, verdict, notes, now)
    case ReconcileEvent(_, oracle) => Reconcile(r, oracle)
    case SettleEvent(_, reviewer, winner, candidateId, notes, now) =>
      Settle(r, reviewer, winner, candidateId, notes, now, fresh_)
  }

  /** Result of one call; a failing call leaves the board alone. Ids are never reused. */
  function Apply(b: Board, e: Event): Result<Record> {
    if e.PublishEvent? then Success(NewRecord(b.nextId, e.rail))
    else if e.slug !in b.records then Failure(NotFound)
    else ApplyTo(b.records[e.slug], e, b.nextId)
  }

  function Step(b: Board, e: Event): Board {
    match Apply(b, e)
    case Failure(_) => b
    case Success(r) => Board(b.records[e.slug := r], b.nextId + 3)
  }

  function Run(b: Board, es: seq<Event>): Board
    decreases |es|
  {
    if es == [] then b else Run(Step(b, es[0]), es[1..])
  }

  const EMPTY := Board(map[], 0)
}
