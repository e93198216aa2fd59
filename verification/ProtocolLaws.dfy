/**
 What each call on a market answers and writes, field by field. The statements name statuses, ids and texts
 themselves and not the functions that the calls are specified by.
 */
module ProtocolLaws {
  import opened Wrappers
  import opened MarketProtocol
  import opened MarketInvariants

  /** A call for a market that is not listed is NotFound; no call changes another market, and a failing one nothing. */
  lemma CallsTouchOneMarket(b: Board, e: Event, other: Slug)
    ensures !e.PublishEvent? && e.slug !in b.records ==> Apply(b, e) == Failure(NotFound)
    ensures Apply(b, e).Failure? ==> Step(b, e) == b
    ensures other != e.slug ==>
              && (other in Step(b, e).records <==> other in b.records)
              && (other in b.records ==> Step(b, e).records[other] == b.records[other])
  {
  }

  /** A published market is undecided, waits for liquidity and has a YES and a NO outcome under ids of their own. */
  lemma PublishRecords(b: Board, slug: Slug, rail: Rail)
    ensures var b' := Step(b, PublishEvent(slug, rail));
            && slug in b'.records && b'.records == b.records[slug := b'.records[slug]] && b'.nextId > b.nextId
            && var r := b'.records[slug];
               && r.resolution == None && r.candidates == [] && r.disputes == []
               && r.market.rail == rail && r.market.status == PendingLiquidity
               && r.market.resolutionDueAt == None && r.market.settledAt == None
               && |r.market.outcomes| == 2
               && r.market.outcomes[0].code == "YES" && r.market.outcomes[1].code == "NO"
               && (forall i :: 0 <= i < 2 ==>
                     && r.market.outcomes[i].status == Active && r.market.outcomes[i].settlementValue == None
                     && b.nextId < r.market.outcomes[i].id < b'.nextId)
               && r.market.id == b.nextId && r.market.outcomes[0].id != r.market.outcomes[1].id
  {
  }

  /** An administrator may open or cancel what waits, pause or cancel what trades, and reopen or cancel what pauses. */
  lemma StatusMovesExactly(r: Record, slug: Slug, status: MarketStatus, fresh_: Id)
    ensures var a := ApplyTo(r, StatusEvent(slug, status), fresh_);
            && (a.Success? <==>
                  || (r.market.status == PendingLiquidity && status == Open)
                  || (r.market.status == Open && status == TradingPaused)
                  || (r.market.status == TradingPaused && status == Open)
                  || (InTrading(r.market.status) && status == Cancelled))
            && (a.Success? ==> a.value == r.(market := r.market.(status := status)))
            && (a.Failure? ==> a.error == Conflict)
  {
  }

  // ---------------------------------------------------------------- requests

  /** A candidate as a settlement request proposes it; the oracle's answer overrides the default entries. */
  ghost predicate ProposedBy(c: Candidate, id: Id, requester: Id, notes: string, oracle: OracleReply) {
    && c.id == id && c.proposedBy == requester && c.proposedOutcome == None
    && c.status == Proposed && c.reviewedBy == None
    && var answer: Payload := if oracle.Answer? then oracle.payload else map[];
       && c.payload.Keys == answer.Keys + {"status", "notes"}
       && (forall k :: k in answer ==> c.payload[k] == answer[k])
       && ("status" !in answer ==> c.payload["status"] == "pending_oracle")
       && ("notes" !in answer ==> c.payload["notes"] == notes)
  }

  /** A request is answered while the market is in trading and the oracle does not refuse; it writes four things. */
  lemma RequestRecords(r: Record, slug: Slug, requester: Id, notes: string, finalizesAt: Time, oracle: OracleReply,
                       fresh_: Id)
    requires Coherent(r)
    ensures var a := ApplyTo(r, RequestEvent(slug, requester, notes, finalizesAt, oracle), fresh_);
            && (a.Success? <==> InTrading(r.market.status) && !oracle.Refused?)
            && (a.Failure? ==> a.error == Conflict)
            && (a.Success? ==>
                  && a.value.market == r.market.(status := AwaitingResolution, resolutionDueAt := Some(finalizesAt))
                  && a.value.disputes == r.disputes
                  && |a.value.candidates| == |r.candidates| + 1 && a.value.candidates[1..] == r.candidates
                  && ProposedBy(a.value.candidates[0], fresh_, requester, notes, oracle)
                  && a.value.resolution.Some?
                  && a.value.resolution.value.candidateId == Some(fresh_)
                  && a.value.resolution.value.id > fresh_
                  && a.value.resolution.value.winner == None
                  && a.value.resolution.value.status == PendingOracle
                  && a.value.resolution.value.finalizesAt == Some(finalizesAt))
  {
  }

  // ---------------------------------------------------------------- disputes

  /** Every candidate is as before, but the one named takes the status and the reviewer. */
  ghost predicate CandidatesMarked(cs: seq<Candidate>, cs': seq<Candidate>, id: Option<Id>, status: CandidateStatus,
                                   reviewer: Option<Id>)
  {
    && |cs'| == |cs|
    && forall i :: 0 <= i < |cs| ==>
         cs'[i] == if id == Some(cs[i].id) then cs[i].(status := status, reviewedBy := reviewer) else cs[i]
  }

  /** A dispute is put before the others, and market, resolution and candidate change to match. */
  lemma DisputeRecords(r: Record, slug: Slug, actor: Id, reason: string, fresh_: Id)
    requires ApplyTo(r, DisputeEvent(slug, actor, reason), fresh_).Success?
    ensures r.resolution.Some?
    ensures var r' := ApplyTo(r, DisputeEvent(slug, actor, reason), fresh_).value;
            && r'.market == r.market.(status := Disputed)
            && r'.resolution == Some(r.resolution.value.(status := ResolutionDisputed))
            && CandidatesMarked(r.candidates, r'.candidates, r.resolution.value.candidateId, Rejected, Some(actor))
            && |r'.disputes| == |r.disputes| + 1 && r'.disputes[1..] == r.disputes
            && var d := r'.disputes[0];
               && d.id == fresh_ && d.resolutionId == r.resolution.value.id && d.raisedBy == actor
               && d.status == DisputeOpen && d.reason == reason
               && d.closedAt == None && d.reviewNotes == None && d.evidence == []
  {
  }

  /** Whether the newest dispute is the named one and still open or under review. */
  ghost predicate NewestIsEditable(r: Record, disputeId: Id) {
    r.disputes != [] && r.disputes[0].id == disputeId && r.disputes[0].status in {DisputeOpen, UnderReview}
  }

  /**
   Evidence is accepted exactly for the newest dispute while it is open or under review. It is added after the
   evidence that was there, under a fresh id, and nothing else about the market changes.
   */
  lemma EvidenceRecords(r: Record, slug: Slug, disputeId: Id, actor: Id, content: string, fresh_: Id)
    requires Coherent(r)
    ensures var a := ApplyTo(r, EvidenceEvent(slug, disputeId, actor, content), fresh_);
            && (a.Success? <==> NewestIsEditable(r, disputeId))
            && (a == Failure(NotFound) <==> forall i :: 0 <= i < |r.disputes| ==> r.disputes[i].id != disputeId)
            && (a.Failure? ==> a.error == NotFound || a.error == Conflict)
            && (a.Success? ==>
                  var old_ := r.disputes[0];
                  var evidence := old_.evidence + [Evidence(fresh_, disputeId, actor, content)];
                  a.value == r.(disputes := [old_.(evidence := evidence)] + r.disputes[1..]))
  {
    var found := FindDispute(r.disputes, disputeId);
    if found.Some? && ActiveDispute(r.disputes[found.value]) { ReviewableIsNewest(r, disputeId); }
  }

  /** Every evidence id of a record comes from an earlier part of the id supply, so a new one is fresh. */
  ghost predicate EvidenceBelow(r: Record, n: Id) {
    forall i :: 0 <= i < |r.disputes| ==> ListedBelow(r.disputes[i].evidence, n)
  }

  ghost predicate ListedBelow(evidence: seq<Evidence>, n: Id) {
    forall j :: 0 <= j < |evidence| ==> evidence[j].id < n
  }

  lemma EvidenceIdsAreFresh(r: Record, e: Event, fresh_: Id)
    requires Coherent(r) && EvidenceBelow(r, fresh_) && !e.PublishEvent? && ApplyTo(r, e, fresh_).Success?
    ensures EvidenceBelow(ApplyTo(r, e, fresh_).value, fresh_ + 3)
  {
    var r' := ApplyTo(r, e, fresh_).value;
    match e
    case EvidenceEvent(slug, disputeId, actor, content) =>
      EvidenceRecords(r, slug, disputeId, actor, content, fresh_);
    case DisputeEvent(slug, actor, reason) =>
      DisputeRecords(r, slug, actor, reason, fresh_);
      assert r'.disputes == [r'.disputes[0]] + r.disputes;
    case ReviewEvent(slug, disputeId, verdict, notes, now) =>
      ReviewRecords(r, slug, disputeId, verdict, notes, now, fresh_);
    case _ =>
  }

  lemma EvidenceLater(r: Record, n: Id, n': Id)
    requires EvidenceBelow(r, n) && n <= n'
    ensures EvidenceBelow(r, n')
  {
  }

  /** In every run evidence ids come from the id supply: the id an evidence call draws was never used before. */
  lemma {:induction false} RunKeepsEvidenceBelow(b: Board, es: seq<Event>, k: Slug)
    requires ValidBoard(b) && forall l :: l in b.records ==> EvidenceBelow(b.records[l], b.nextId)
    ensures var b' := Run(b, es); k in b'.records ==> EvidenceBelow(b'.records[k], b'.nextId)
    decreases |es|
  {
    if es != [] {
      var b' := Step(b, es[0]);
      StepKeepsValid(b, es[0]);
      forall l | l in b'.records ensures EvidenceBelow(b'.records[l], b'.nextId) {
        StepKeepsEvidenceBelow(b, es[0], l);
      }
      RunKeepsEvidenceBelow(b', es[1..], k);
    }
  }

  lemma StepKeepsEvidenceBelow(b: Board, e: Event, l: Slug)
    requires ValidBoard(b) && l in Step(b, e).records
    requires forall k :: k in b.records ==> EvidenceBelow(b.records[k], b.nextId)
    ensures EvidenceBelow(Step(b, e).records[l], Step(b, e).nextId)
  {
    if l == e.slug && Apply(b, e).Success? {
      if !e.PublishEvent? {
        assert ValidAt(b, l);
        EvidenceIdsAreFresh(b.records[l], e, b.nextId);
      }
    } else {
      EvidenceLater(b.records[l], b.nextId, Step(b, e).nextId);
    }
  }

  /** What a review makes of the dispute. */
  ghost predicate Reviewed(d: Dispute, d': Dispute, verdict: Verdict, notes: Option<string>, now: Time) {
    && d' == d.(status := d'.status, reviewNotes := notes, closedAt := d'.closedAt)
    && (verdict == TakeUnderReview ==> d'.status == UnderReview && d'.closedAt == d.closedAt)
    && (verdict == Uphold ==> d'.status == Upheld && d'.closedAt == Some(now))
    && (verdict == Dismiss ==> d'.status == Dismissed && d'.closedAt == Some(now))
    && (verdict == Withdraw ==> d'.status == Withdrawn && d'.closedAt == Some(now))
  }

  /**
   A review is accepted exactly for the newest dispute while it is open or under review. Dismissing or withdrawing the
   dispute reopens the resolution and its candidate; anything else leaves both blocked and the candidate untouched.
   */
  lemma ReviewRecords(r: Record, slug: Slug, disputeId: Id, verdict: Verdict, notes: Option<string>, now: Time,
                      fresh_: Id)
    requires Coherent(r)
    ensures var a := ApplyTo(r, ReviewEvent(slug, disputeId, verdict, notes, now), fresh_);
            && (a.Success? <==> NewestIsEditable(r, disputeId))
            && (a == Failure(NotFound) <==> forall i :: 0 <= i < |r.disputes| ==> r.disputes[i].id != disputeId)
            && (a.Failure? ==> a.error == NotFound || a.error == Conflict)
            && (a.Success? ==>
                  && r.resolution.Some?
                  && |a.value.disputes| == |r.disputes| && a.value.disputes[1..] == r.disputes[1..]
                  && Reviewed(r.disputes[0], a.value.disputes[0], verdict, notes, now)
                  && if verdict == Dismiss || verdict == Withdraw
                     then
                       && a.value.market == r.market.(status := AwaitingResolution)
                       && a.value.resolution == Some(r.resolution.value.(status := PendingOracle))
                       && CandidatesMarked(r.candidates, a.value.candidates, r.resolution.value.candidateId,
                                           Proposed, None)
                     else
                       && a.value.market == r.market.(status := Disputed)
                       && a.value.resolution == Some(r.resolution.value.(status := ResolutionDisputed))
                       && a.value.candidates == r.candidates)
  {
    var found := FindDispute(r.disputes, disputeId);
    if found.Some? && ActiveDispute(r.disputes[found.value]) { ReviewableIsNewest(r, disputeId); }
  }

  // ------------------------------------------------------------------ oracle

  /** Reconciling succeeds exactly when the oracle answers for a market with a resolution, and replaces one payload. */
  lemma ReconcileRecords(r: Record, slug: Slug, oracle: OracleReply, fresh_: Id)
    requires Coherent(r)
    ensures var a := ApplyTo(r, ReconcileEvent(slug, oracle), fresh_);
            && (a.Failure? ==> a.error == Conflict)
            && (r.market.status in {AwaitingResolution, Disputed} ==> (a.Success? <==> oracle.Answer?))
            && (a.Success? ==>
                  && r.resolution.Some? && r.resolution.value.candidateId.Some? && oracle.Answer?
                  && a.value == r.(candidates := a.value.candidates)
                  && |a.value.candidates| == |r.candidates|
                  && forall i :: 0 <= i < |r.candidates| ==>
                       a.value.candidates[i] ==
                       if r.candidates[i].id == r.resolution.value.candidateId.value
                       then r.candidates[i].(payload := oracle.payload) else r.candidates[i])
  {
  }

  /** A candidate as finalization confirms it. */
  ghost predicate ConfirmedFrom(c: Candidate, c': Candidate, winner: Id, reviewer: Option<Id>, notes: string) {
    && c' == c.(proposedOutcome := Some(winner), status := Confirmed, reviewedBy := reviewer, payload := c'.payload)
    && c'.payload == c.payload["status" := "finalized"]["notes" := notes]
  }

  /** The outcomes keep ids and codes; the winner wins with value one, all others lose with value zero. */
  ghost predicate OutcomesDecided(os: seq<Outcome>, os': seq<Outcome>, winner: Id) {
    && |os'| == |os|
    && forall i :: 0 <= i < |os| ==>
         && os'[i].id == os[i].id && os'[i].code == os[i].code
         && (os[i].id == winner ==> os'[i].status == Winning && os'[i].settlementValue == Some(1))
         && (os[i].id != winner ==> os'[i].status == Losing && os'[i].settlementValue == Some(0))
  }

  /**
   What finalization writes: the decided outcomes, the settled market, a final resolution that names the winner and
   keeps the rest of the earlier one, and the confirmation of the candidate that was named, if any.
   */
  lemma FinalizationRecords(r: Record, slug: Slug, reviewer: Option<Id>, winner: Id, candidateId: Option<Id>,
                            notes: string, now: Time, fresh_: Id)
    requires Coherent(r)
    requires ApplyTo(r, SettleEvent(slug, reviewer, winner, candidateId, notes, now), fresh_).Success?
    ensures var r' := ApplyTo(r, SettleEvent(slug, reviewer, winner, candidateId, notes, now), fresh_).value;
            && r'.market == r.market.(status := Settled, settledAt := Some(now), outcomes := r'.market.outcomes)
            && OutcomesDecided(r.market.outcomes, r'.market.outcomes, winner)
            && r'.disputes == r.disputes
            && r.resolution.Some? && r'.resolution.Some?
            && r'.resolution.value == r.resolution.value.(
                 winner := Some(winner), status := Finalized,
                 candidateId := if candidateId.Some? then candidateId else r.resolution.value.candidateId)
            && |r'.candidates| == |r.candidates|
            && (forall i :: 0 <= i < |r.candidates| && candidateId != Some(r.candidates[i].id) ==>
                  r'.candidates[i] == r.candidates[i])
            && (forall i :: 0 <= i < |r.candidates| && candidateId == Some(r.candidates[i].id) ==>
                  ConfirmedFrom(r.candidates[i], r'.candidates[i], winner, reviewer, notes))
  {
  }

  /**
   What finalizing and disputing answer when they fail: a conflict outside the resolution phase, or while a dispute is
   open or under review, and then NotFound for a winner that is not listed.
   */
  lemma FinalizationAnswers(r: Record, slug: Slug, reviewer: Option<Id>, winner: Id, candidateId: Option<Id>,
                            notes: string, now: Time, actor: Id, reason: string, fresh_: Id)
    requires Coherent(r)
    ensures var settle := ApplyTo(r, SettleEvent(slug, reviewer, winner, candidateId, notes, now), fresh_);
            var dispute := ApplyTo(r, DisputeEvent(slug, actor, reason), fresh_);
            var blocked := r.market.status !in {AwaitingResolution, Disputed}
                           || exists i :: 0 <= i < |r.disputes| && r.disputes[i].status in {DisputeOpen, UnderReview};
            var listed := exists i :: 0 <= i < |r.market.outcomes| && r.market.outcomes[i].id == winner;
            && (settle == Failure(Conflict) <==> blocked) && (dispute == Failure(Conflict) <==> blocked)
            && (settle == Failure(NotFound) <==> !blocked && !listed)
            && (settle.Success? <==> !blocked && listed) && (dispute.Success? <==> !blocked)
  {
    assert AnyActive(r.disputes)
      <==> exists i :: 0 <= i < |r.disputes| && r.disputes[i].status in {DisputeOpen, UnderReview};
  }
}
