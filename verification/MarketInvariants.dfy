/**
 What every run of the resolution protocol keeps: which statuses go together,
 which disputes may still change, and that a market only moves forward.
 */
module MarketInvariants {
  import opened Wrappers
  import opened MarketProtocol

  // --------------------------------------------------------------- coherence

  /** The statuses of market, resolution and active candidate, read off the newest dispute. */
  function ExpectedStatuses(ds: seq<Dispute>): (MarketStatus, ResolutionStatus, CandidateStatus) {
    if ds == [] || ds[0].status == Dismissed || ds[0].status == Withdrawn
    then (AwaitingResolution, PendingOracle, Proposed)
    else (Disputed, ResolutionDisputed, Rejected)
  }

  ghost predicate OlderClosed(ds: seq<Dispute>) {
    forall i :: 0 < i < |ds| ==> !ActiveDispute(ds[i])
  }

  ghost predicate ClosedAreDated(ds: seq<Dispute>) {
    forall i :: 0 <= i < |ds| ==> (ActiveDispute(ds[i]) <==> ds[i].closedAt.None?)
  }

  ghost predicate Undecided(os: seq<Outcome>) {
    forall i :: 0 <= i < |os| ==> os[i].status == Active && os[i].settlementValue == None
  }

  /** Exactly the winner pays one, everything else pays nothing. */
  ghost predicate OneHot(os: seq<Outcome>, winner: Id) {
    && (exists i :: 0 <= i < |os| && os[i].id == winner)
    && forall i :: 0 <= i < |os| ==>
      if os[i].id == winner then os[i].status == Winning && os[i].settlementValue == Some(1)
      else os[i].status == Losing && os[i].settlementValue == Some(0)
  }

  predicate InTrading(s: MarketStatus) {
    s == PendingLiquidity || s == Open || s == TradingPaused
  }

  predicate InResolution(s: MarketStatus) {
    s == AwaitingResolution || s == Disputed
  }

  ghost predicate Pending(r: Record) {
    && r.resolution.Some? && |r.candidates| == 1
    && r.resolution.value.candidateId == Some(r.candidates[0].id)
    && r.resolution.value.winner.None?
    && Undecided(r.market.outcomes)
    && (r.market.status, r.resolution.value.status, r.candidates[0].status) == ExpectedStatuses(r.disputes)
  }

  ghost predicate Final(r: Record) {
    && r.resolution.Some? && |r.candidates| == 1
    && r.resolution.value.status == Finalized
    && r.resolution.value.winner.Some?
    && OneHot(r.market.outcomes, r.resolution.value.winner.value)
    && r.market.settledAt.Some?
    && !AnyActive(r.disputes)
  }

  ghost predicate Untouched(r: Record) {
    && r.resolution.None? && r.candidates == [] && r.disputes == []
    && Undecided(r.market.outcomes)
  }

  /** The four parts of a record agree with each other. */
  ghost predicate Coherent(r: Record) {
    && OlderClosed(r.disputes)
    && ClosedAreDated(r.disputes)
    && match r.market.status
       case AwaitingResolution | Disputed => Pending(r)
       case Settled => Final(r)
       case OtherStatus(_) => false
       case _ => Untouched(r)
  }

  /** One call keeps a record coherent: the protocol's inductive invariant. */
  lemma ApplyKeepsCoherent(r: Record, e: Event, fresh_: Id)
    requires Coherent(r) && !e.PublishEvent?
    ensures var a := ApplyTo(r, e, fresh_); a.Success? ==> Coherent(a.value)
  {
    var a := ApplyTo(r, e, fresh_);
    if a.Success? {
      match e
      case EvidenceEvent(_, disputeId, actor, content) => EvidenceCoherent(r, disputeId, actor, content, fresh_);
      case ReviewEvent(_, disputeId, verdict, notes, now) => ReviewCoherent(r, disputeId, verdict, notes, now);
      case SettleEvent(_, reviewer, winner, candidateId, notes, now) =>
        SettleCoherent(r, reviewer, winner, candidateId, notes, now, fresh_);
      case DisputeEvent(_, actor, reason) => DisputeCoherent(r, actor, reason, fresh_);
      case _ =>
    }
  }

  lemma DisputeCoherent(r: Record, actor: Id, reason: string, disputeId: Id)
    requires Coherent(r) && RaiseDispute(r, actor, reason, disputeId).Success?
    ensures Coherent(RaiseDispute(r, actor, reason, disputeId).value)
  {
  }

  lemma EvidenceCoherent(r: Record, disputeId: Id, actor: Id, content: string, evidenceId: Id)
    requires Coherent(r) && AddEvidence(r, disputeId, actor, content, evidenceId).Success?
    ensures Coherent(AddEvidence(r, disputeId, actor, content, evidenceId).value)
  {
    ReviewableIsNewest(r, disputeId);
  }

  lemma ReviewCoherent(r: Record, disputeId: Id, verdict: Verdict, notes: Option<string>, now: Time)
    requires Coherent(r) && Review(r, disputeId, verdict, notes, now).Success?
    ensures Coherent(Review(r, disputeId, verdict, notes, now).value)
  {
    ReviewableIsNewest(r, disputeId);
  }

  lemma SettleCoherent(r: Record, reviewer: Option<Id>, winner: Id, candidateId: Option<Id>, notes: string,
                       now: Time, resolutionId: Id)
    requires Coherent(r) && Settle(r, reviewer, winner, candidateId, notes, now, resolutionId).Success?
    ensures Coherent(Settle(r, reviewer, winner, candidateId, notes, now, resolutionId).value)
  {
    SettledOneHot(r.market.outcomes, winner);
  }

  lemma SettledOneHot(os: seq<Outcome>, winner: Id)
    requires HasOutcome(os, winner)
    ensures OneHot(SettledOutcomes(os, winner), winner)
  {
    var i :| 0 <= i < |os| && os[i].id == winner;
    assert SettledOutcomes(os, winner)[i].id == winner;
  }

  /** A dispute that may still be edited is the newest one, of a market that is disputed. */
  lemma ReviewableIsNewest(r: Record, disputeId: Id)
    requires Coherent(r)
    requires FindDispute(r.disputes, disputeId).Some?
    requires ActiveDispute(r.disputes[FindDispute(r.disputes, disputeId).value])
    ensures FindDispute(r.disputes, disputeId) == Some(0)
    ensures r.market.status == Disputed && Pending(r)
  {
    var i := FindDispute(r.disputes, disputeId).value;
    assert i == 0;
    assert r.market.status == Settled ==> AnyActive(r.disputes);
  }

  /**
   review_market_dispute never looks at the market's status. It succeeds exactly on the newest
   dispute of a disputed market whose resolution is not final, replaces that dispute alone, and
   leaves the market in the resolution phase.
   */
  lemma ReviewGuardedByInvariant(r: Record, disputeId: Id, verdict: Verdict, notes: Option<string>, now: Time)
    requires Coherent(r)
    ensures var a := Review(r, disputeId, verdict, notes, now);
            && (a.Success? <==> r.disputes != [] && r.disputes[0].id == disputeId && ActiveDispute(r.disputes[0]))
            && (a.Success? ==>
                  && r.market.status == Disputed && r.resolution.Some? && r.resolution.value.status != Finalized
                  && |a.value.disputes| == |r.disputes| && a.value.disputes[1..] == r.disputes[1..]
                  && a.value.disputes[0].status == VerdictStatus(verdict)
                  && InResolution(a.value.market.status)
                  && a.value.market.outcomes == r.market.outcomes)
  {
    var a := Review(r, disputeId, verdict, notes, now);
    if a.Success? {
      ReviewableIsNewest(r, disputeId);
    }
  }

  /**
   Finalization and raising a dispute are open under one condition, read off the resolution and the newest
   dispute.
   */
  lemma FinalizationGate(r: Record, reviewer: Option<Id>, winner: Id, candidateId: Option<Id>, notes: string,
                         now: Time, resolutionId: Id, actor: Id, reason: string, disputeId: Id)
    requires Coherent(r)
    ensures var open :=
              && r.resolution.Some? && r.resolution.value.status != Finalized
              && (r.disputes == [] || !ActiveDispute(r.disputes[0]));
            && (Settle(r, reviewer, winner, candidateId, notes, now, resolutionId).Success?
                <==> open && HasOutcome(r.market.outcomes, winner))
            && (RaiseDispute(r, actor, reason, disputeId).Success? <==> open)
  {
    if r.disputes != [] && ActiveDispute(r.disputes[0]) {
      assert AnyActive(r.disputes);
    }
  }

  /**
   Finalizing confirms the market's candidate exactly when the call names it; any other call,
   including one that names no candidate, leaves it proposed or rejected.
   */
  lemma FinalizationConfirmsNamedCandidate(r: Record, reviewer: Option<Id>, winner: Id, candidateId: Option<Id>,
                                           notes: string, now: Time, resolutionId: Id)
    requires Coherent(r)
    requires Settle(r, reviewer, winner, candidateId, notes, now, resolutionId).Success?
    ensures var r' := Settle(r, reviewer, winner, candidateId, notes, now, resolutionId).value;
            && |r.candidates| == |r'.candidates| == 1
            && (r'.candidates[0].status == Confirmed <==> candidateId == Some(r.candidates[0].id))
            && (r'.candidates[0] != r.candidates[0] ==> candidateId == Some(r.candidates[0].id))
            && (r'.resolution.value.candidateId == Some(r.candidates[0].id)
                <==> candidateId == None || candidateId == Some(r.candidates[0].id))
  {
  }

  /** An upheld dispute does not stop finalization: the market settles while its candidate stays rejected. */
  lemma UpheldDisputeDoesNotBlock(r: Record, reviewer: Option<Id>, winner: Id, notes: string, now: Time,
    resolutionId: Id)
    requires Coherent(r) && InResolution(r.market.status) && HasOutcome(r.market.outcomes, winner)
    requires r.disputes != [] && r.disputes[0].status == Upheld
    ensures var a := Settle(r, reviewer, winner, None, notes, now, resolutionId);
            && a.Success? && a.value.market.status == Settled
            && |a.value.candidates| == 1 && a.value.candidates[0].status == Rejected
  {
    FinalizationGate(r, reviewer, winner, None, notes, now, resolutionId, 0, "", 0);
  }

  // --------------------------------------------------------------------- ids

  /** Every id the repository drew for this record lies in an earlier part of the id supply. */
  ghost predicate IdsBelow(r: Record, n: Id) {
    && r.market.id < n
    && (forall i :: 0 <= i < |r.market.outcomes| ==> r.market.outcomes[i].id < n)
    && (forall i :: 0 <= i < |r.candidates| ==> r.candidates[i].id < n)
    && (forall i :: 0 <= i < |r.disputes| ==> r.disputes[i].id < n)
  }

  ghost predicate DistinctOutcomes(os: seq<Outcome>) {
    forall i, j :: 0 <= i < j < |os| ==> os[i].id != os[j].id
  }

  // The pairwise conditions are wrapped in predicates so that they are instantiated only where they are named.

  ghost predicate DifferentIds(ds: seq<Dispute>, i: int, ds': seq<Dispute>, j: int) {
    0 <= i < |ds| && 0 <= j < |ds'| ==> ds[i].id != ds'[j].id
  }

  ghost predicate DistinctDisputes(ds: seq<Dispute>) {
    forall i, j :: i != j ==> DifferentIds(ds, i, ds, j)
  }

  ghost predicate DisjointDisputes(ds: seq<Dispute>, ds': seq<Dispute>) {
    forall i, j :: DifferentIds(ds, i, ds', j)
  }

  ghost predicate ValidRecord(r: Record, n: Id) {
    Coherent(r) && IdsBelow(r, n) && DistinctOutcomes(r.market.outcomes) && DistinctDisputes(r.disputes)
  }

  ghost predicate ValidAt(b: Board, k: Slug) {
    k in b.records ==> ValidRecord(b.records[k], b.nextId)
  }

  ghost predicate Apart(b: Board, k: Slug, l: Slug) {
    k in b.records && l in b.records && k != l ==>
      && b.records[k].market.id != b.records[l].market.id
      && DisjointDisputes(b.records[k].disputes, b.records[l].disputes)
  }

  ghost predicate ValidBoard(b: Board) {
    && (forall k :: ValidAt(b, k))
    && (forall k, l :: Apart(b, k, l))
  }

  /** The dispute ids after a call: the old ones in their order, after at most one fresh id. */
  ghost predicate IdsKept(ds: seq<Dispute>, ds': seq<Dispute>, fresh_: Id) {
    && |ds| <= |ds'| <= |ds| + 1
    && (|ds'| == |ds| + 1 ==> ds'[0].id == fresh_)
    && forall i :: 0 <= i < |ds| ==> ds'[i + |ds'| - |ds|].id == ds[i].id
  }

  ghost predicate SameOutcomeIds(os: seq<Outcome>, os': seq<Outcome>) {
    |os| == |os'| && forall i :: 0 <= i < |os| ==> os'[i].id == os[i].id
  }

  lemma ApplyKeepsIds(r: Record, e: Event, fresh_: Id)
    requires IdsBelow(r, fresh_) && !e.PublishEvent? && ApplyTo(r, e, fresh_).Success?
    ensures var r' := ApplyTo(r, e, fresh_).value;
            && IdsBelow(r', fresh_ + 3)
            && r'.market.id == r.market.id && r'.market.rail == r.market.rail
            && SameOutcomeIds(r.market.outcomes, r'.market.outcomes)
            && IdsKept(r.disputes, r'.disputes, fresh_)
  {
  }

  lemma ApplyIds(r: Record, e: Event, fresh_: Id)
    requires ValidRecord(r, fresh_) && !e.PublishEvent? && ApplyTo(r, e, fresh_).Success?
    ensures var r' := ApplyTo(r, e, fresh_).value;
            && ValidRecord(r', fresh_ + 3)
            && r'.market.id == r.market.id && r'.market.rail == r.market.rail
            && IdsKept(r.disputes, r'.disputes, fresh_)
  {
    ApplyKeepsCoherent(r, e, fresh_);
    ApplyKeepsIds(r, e, fresh_);
    DisputesStayDistinct(r.disputes, ApplyTo(r, e, fresh_).value.disputes, fresh_);
  }

  lemma DisputesStayDistinct(ds: seq<Dispute>, ds': seq<Dispute>, fresh_: Id)
    requires DistinctDisputes(ds) && IdsKept(ds, ds', fresh_)
    requires forall i :: 0 <= i < |ds| ==> ds[i].id < fresh_
    ensures DistinctDisputes(ds')
  {
    var d := |ds'| - |ds|;
    forall i, j | i != j ensures DifferentIds(ds', i, ds', j) {
      assert DifferentIds(ds, i - d, ds, j - d);
      if d <= i < |ds'| { assert ds'[i - d + |ds'| - |ds|].id == ds[i - d].id; }
      if d <= j < |ds'| { assert ds'[j - d + |ds'| - |ds|].id == ds[j - d].id; }
    }
  }

  lemma DisputesStayDisjoint(ds: seq<Dispute>, ds': seq<Dispute>, other: seq<Dispute>, fresh_: Id)
    requires DisjointDisputes(ds, other) && IdsKept(ds, ds', fresh_)
    requires forall i :: 0 <= i < |other| ==> other[i].id < fresh_
    ensures DisjointDisputes(ds', other)
  {
    var d := |ds'| - |ds|;
    forall i, j ensures DifferentIds(ds', i, other, j) {
      assert DifferentIds(ds, i - d, other, j);
      if d <= i < |ds'| { assert ds'[i - d + |ds'| - |ds|].id == ds[i - d].id; }
    }
  }

  lemma DisjointSymmetric(ds: seq<Dispute>, ds': seq<Dispute>)
    requires DisjointDisputes(ds, ds')
    ensures DisjointDisputes(ds', ds)
  {
    forall i, j ensures DifferentIds(ds', i, ds, j) {
      assert DifferentIds(ds, j, ds', i);
    }
  }

  lemma PublishedIsValid(id: Id, rail: Rail)
    ensures ValidRecord(NewRecord(id, rail), id + 3)
  {
  }

  /** Ids below the supply are below any later supply. */
  lemma ValidLater(r: Record, n: Id, n': Id)
    requires ValidRecord(r, n) && n <= n'
    ensures ValidRecord(r, n')
  {
  }

  lemma AppliedIsValid(b: Board, e: Event)
    requires ValidBoard(b) && Apply(b, e).Success?
    ensures ValidRecord(Apply(b, e).value, b.nextId + 3)
  {
    if e.PublishEvent? {
      PublishedIsValid(b.nextId, e.rail);
    } else {
      assert ValidAt(b, e.slug);
      ApplyIds(b.records[e.slug], e, b.nextId);
    }
  }

  /** What a call makes of one record stays apart from every other record. */
  lemma AppliedIsApart(b: Board, e: Event, k: Slug)
    requires ValidBoard(b) && Apply(b, e).Success? && k in b.records && k != e.slug
    ensures Apply(b, e).value.market.id != b.records[k].market.id
    ensures DisjointDisputes(Apply(b, e).value.disputes, b.records[k].disputes)
  {
    assert ValidAt(b, k);
    if !e.PublishEvent? {
      assert ValidAt(b, e.slug) && Apart(b, e.slug, k);
      ApplyKeepsIds(b.records[e.slug], e, b.nextId);
      DisputesStayDisjoint(b.records[e.slug].disputes, Apply(b, e).value.disputes, b.records[k].disputes, b.nextId);
    }
  }

  lemma StepKeepsValid(b: Board, e: Event)
    requires ValidBoard(b)
    ensures ValidBoard(Step(b, e))
  {
    if Apply(b, e).Success? {
      AppliedIsValid(b, e);
      UpdateKeepsValid(b, e.slug, Apply(b, e).value, b.nextId + 3) by {
        forall k | k in b.records && k != e.slug
          ensures Apply(b, e).value.market.id != b.records[k].market.id
          ensures DisjointDisputes(Apply(b, e).value.disputes, b.records[k].disputes)
        {
          AppliedIsApart(b, e, k);
        }
      }
    }
  }

  lemma UpdateKeepsValid(b: Board, slug: Slug, r: Record, n: Id)
    requires ValidBoard(b) && b.nextId <= n && ValidRecord(r, n)
    requires forall k :: k in b.records && k != slug ==>
      r.market.id != b.records[k].market.id && DisjointDisputes(r.disputes, b.records[k].disputes)
    ensures ValidBoard(Board(b.records[slug := r], n))
  {
    var b' := Board(b.records[slug := r], n);
    forall k ensures ValidAt(b', k) {
      assert ValidAt(b, k);
      if k in b.records && k != slug { ValidLater(b.records[k], b.nextId, n); }
    }
    forall k, l ensures Apart(b', k, l) {
      assert Apart(b, k, l);
      if l == slug && k != slug && k in b.records { DisjointSymmetric(r.disputes, b.records[k].disputes); }
    }
  }

  lemma RunKeepsValid(b: Board, es: seq<Event>)
    requires ValidBoard(b)
    ensures ValidBoard(Run(b, es))
    decreases |es|
  {
    if es != [] {
      StepKeepsValid(b, es[0]);
      RunKeepsValid(Step(b, es[0]), es[1..]);
    }
  }

  /**
   In every reachable state the statuses of a market whose settlement was requested and not finalized are
   one function of its newest dispute, and only that dispute can be active.
   */
  lemma NewestDisputeDecides(es: seq<Event>, slug: Slug)
    requires slug in Run(EMPTY, es).records
    ensures var r := Run(EMPTY, es).records[slug];
            && (InResolution(r.market.status) <==> r.resolution.Some? && r.resolution.value.status != Finalized)
            && (InResolution(r.market.status) ==>
                  && |r.candidates| == 1 && r.resolution.value.candidateId == Some(r.candidates[0].id)
                  && (r.market.status, r.resolution.value.status, r.candidates[0].status)
                     == ExpectedStatuses(r.disputes))
            && (forall i ::
                  0 <= i < |r.disputes| && ActiveDispute(r.disputes[i]) ==> i == 0 && r.market.status == Disputed)
            && (r.market.status == Settled <==> r.resolution.Some? && r.resolution.value.status == Finalized)
            && (r.market.status == Settled ==>
                  r.resolution.value.winner.Some? && OneHot(r.market.outcomes, r.resolution.value.winner.value))
  {
    RunKeepsValid(EMPTY, es);
    var r := Run(EMPTY, es).records[slug];
    assert ValidAt(Run(EMPTY, es), slug);
    forall i | 0 <= i < |r.disputes| && ActiveDispute(r.disputes[i])
      ensures i == 0 && r.market.status == Disputed
    {
      assert AnyActive(r.disputes);
    }
  }

  // --------------------------------------------------------- moving forward

  function Rank(s: MarketStatus): nat {
    if InTrading(s) then 0 else if InResolution(s) then 1 else 2
  }

  ghost predicate SameButPayload(cs: seq<Candidate>, cs': seq<Candidate>) {
    && |cs| == |cs'|
    && forall i :: 0 <= i < |cs| ==> cs'[i] == cs[i].(payload := cs'[i].payload)
  }

  /** The dispute list only grows at the front, and its closed disputes never change again. */
  ghost predicate HistoryKept(ds: seq<Dispute>, ds': seq<Dispute>) {
    && |ds| <= |ds'|
    && forall i :: 0 <= i < |ds| ==>
      && ds'[i + |ds'| - |ds|].id == ds[i].id
      && (!ActiveDispute(ds[i]) ==> ds'[i + |ds'| - |ds|] == ds[i])
      && ds[i].evidence <= ds'[i + |ds'| - |ds|].evidence
  }

  /** How the record of one market may look later in a run. */
  ghost predicate Evolves(r: Record, r': Record) {
    && r'.market.id == r.market.id && r'.market.rail == r.market.rail
    && Rank(r.market.status) <= Rank(r'.market.status)
    && (InResolution(r.market.status) ==> InResolution(r'.market.status) || r'.market.status == Settled)
    && (r.market.status == Cancelled ==> r' == r)
    && (r.market.status == Settled ==>
          && r'.market == r.market && r'.resolution == r.resolution && r'.disputes == r.disputes
          && SameButPayload(r.candidates, r'.candidates))
    && HistoryKept(r.disputes, r'.disputes)
    && (r.candidates != [] ==>
          |r'.candidates| == |r.candidates| && r'.candidates[0].id == r.candidates[0].id)
    && (r.resolution.Some? ==> r'.resolution.Some? && r'.resolution.value.id == r.resolution.value.id)
  }

  lemma EditNewestKeepsHistory(ds: seq<Dispute>, d: Dispute)
    requires ds != [] && ActiveDispute(ds[0]) && d.id == ds[0].id && ds[0].evidence <= d.evidence
    ensures HistoryKept(ds, ds[0 := d])
  {
  }

  lemma RaiseKeepsHistory(ds: seq<Dispute>, d: Dispute)
    ensures HistoryKept(ds, [d] + ds)
  {
  }

  lemma ReviewKeepsHistory(r: Record, e: Event, fresh_: Id)
    requires Coherent(r) && (e.EvidenceEvent? || e.ReviewEvent?) && ApplyTo(r, e, fresh_).Success?
    ensures HistoryKept(r.disputes, ApplyTo(r, e, fresh_).value.disputes)
  {
    var ds' := ApplyTo(r, e, fresh_).value.disputes;
    ReviewableIsNewest(r, e.disputeId);
    assert ds' == r.disputes[0 := ds'[0]];
    EditNewestKeepsHistory(r.disputes, ds'[0]);
  }

  lemma ApplyKeepsHistory(r: Record, e: Event, fresh_: Id)
    requires Coherent(r) && !e.PublishEvent? && ApplyTo(r, e, fresh_).Success?
    ensures HistoryKept(r.disputes, ApplyTo(r, e, fresh_).value.disputes)
  {
    if e.EvidenceEvent? || e.ReviewEvent? {
      ReviewKeepsHistory(r, e, fresh_);
    } else {
      var ds' := ApplyTo(r, e, fresh_).value.disputes;
      if e.DisputeEvent? {
        assert ds' == [ds'[0]] + r.disputes;
        RaiseKeepsHistory(r.disputes, ds'[0]);
      } else {
        assert ds' == r.disputes;
      }
    }
  }

  lemma ApplyEvolves(r: Record, e: Event, fresh_: Id)
    requires Coherent(r) && !e.PublishEvent? && ApplyTo(r, e, fresh_).Success?
    ensures Evolves(r, ApplyTo(r, e, fresh_).value)
  {
    ApplyKeepsHistory(r, e, fresh_);
    match e
    case ReviewEvent(_, disputeId, verdict, notes, now) => ReviewEvolves(r, disputeId, verdict, notes, now);
    case EvidenceEvent(_, disputeId, actor, content) => EvidenceEvolves(r, disputeId, actor, content, fresh_);
    case SettleEvent(_, reviewer, winner, candidateId, notes, now) =>
      SettleEvolves(r, reviewer, winner, candidateId, notes, now, fresh_);
    case DisputeEvent(_, actor, reason) => DisputeEvolves(r, actor, reason, fresh_);
    case RequestEvent(_, requester, notes, finalizesAt, oracle) =>
      RequestEvolves(r, requester, notes, finalizesAt, oracle, fresh_, fresh_ + 1);
    case ReconcileEvent(_, oracle) => ReconcileEvolves(r, oracle);
    case StatusEvent(_, status) =>
  }

  lemma DisputeEvolves(r: Record, actor: Id, reason: string, disputeId: Id)
    requires Coherent(r) && RaiseDispute(r, actor, reason, disputeId).Success?
    requires HistoryKept(r.disputes, RaiseDispute(r, actor, reason, disputeId).value.disputes)
    ensures Evolves(r, RaiseDispute(r, actor, reason, disputeId).value)
  {
  }

  lemma RequestEvolves(r: Record, requester: Id, notes: string, finalizesAt: Time, oracle: OracleReply,
                       candidateId: Id, resolutionId: Id)
    requires Coherent(r)
    requires RequestSettlement(r, requester, notes, finalizesAt, oracle, candidateId, resolutionId).Success?
    ensures Evolves(r, RequestSettlement(r, requester, notes, finalizesAt, oracle, candidateId, resolutionId).value)
  {
  }

  lemma ReconcileEvolves(r: Record, oracle: OracleReply)
    requires Coherent(r) && Reconcile(r, oracle).Success?
    ensures Evolves(r, Reconcile(r, oracle).value)
  {
  }

  lemma ReviewEvolves(r: Record, disputeId: Id, verdict: Verdict, notes: Option<string>, now: Time)
    requires Coherent(r) && Review(r, disputeId, verdict, notes, now).Success?
    requires HistoryKept(r.disputes, Review(r, disputeId, verdict, notes, now).value.disputes)
    ensures Evolves(r, Review(r, disputeId, verdict, notes, now).value)
  {
    ReviewableIsNewest(r, disputeId);
  }

  lemma EvidenceEvolves(r: Record, disputeId: Id, actor: Id, content: string, evidenceId: Id)
    requires Coherent(r) && AddEvidence(r, disputeId, actor, content, evidenceId).Success?
    requires HistoryKept(r.disputes, AddEvidence(r, disputeId, actor, content, evidenceId).value.disputes)
    ensures Evolves(r, AddEvidence(r, disputeId, actor, content, evidenceId).value)
  {
    ReviewableIsNewest(r, disputeId);
  }

  lemma SettleEvolves(r: Record, reviewer: Option<Id>, winner: Id, candidateId: Option<Id>, notes: string,
                      now: Time, resolutionId: Id)
    requires Coherent(r) && Settle(r, reviewer, winner, candidateId, notes, now, resolutionId).Success?
    ensures Evolves(r, Settle(r, reviewer, winner, candidateId, notes, now, resolutionId).value)
  {
  }

  lemma EvolvesReflexive(r: Record)
    ensures Evolves(r, r)
  {
  }

  lemma EvolvesSameMarket(r: Record, r': Record)
    requires Evolves(r, r')
    ensures r'.market.id == r.market.id && r'.market.rail == r.market.rail
  {
  }

  lemma EvolvesTransitive(r: Record, r': Record, r'': Record)
    requires Evolves(r, r') && Evolves(r', r'')
    ensures Evolves(r, r'')
  {
    var d, d' := |r'.disputes| - |r.disputes|, |r''.disputes| - |r'.disputes|;
    forall i | 0 <= i < |r.disputes|
      ensures r''.disputes[i + d + d'].id == r.disputes[i].id
      ensures !ActiveDispute(r.disputes[i]) ==> r''.disputes[i + d + d'] == r.disputes[i]
      ensures r.disputes[i].evidence <= r''.disputes[i + d + d'].evidence
    {
      assert r'.disputes[i + d].id == r.disputes[i].id;
    }
  }

  /** A slug keeps its market, which evolves, or was given to a market published later. */
  ghost predicate BoardEvolves(b: Board, b': Board) {
    && b.nextId <= b'.nextId
    && forall k :: k in b.records ==>
      && k in b'.records
      && (Evolves(b.records[k], b'.records[k]) || b'.records[k].market.id >= b.nextId)
  }

  lemma StepEvolves(b: Board, e: Event)
    requires ValidBoard(b)
    ensures BoardEvolves(b, Step(b, e))
  {
    forall k | k in b.records
      ensures k in Step(b, e).records
      ensures Evolves(b.records[k], Step(b, e).records[k]) || Step(b, e).records[k].market.id >= b.nextId
    {
      if k == e.slug && Apply(b, e).Success? && !e.PublishEvent? {
        assert ValidAt(b, k);
        ApplyEvolves(b.records[k], e, b.nextId);
      } else if k != e.slug || Apply(b, e).Failure? {
        EvolvesReflexive(b.records[k]);
      }
    }
  }

  /**
   Over any run, phases only move forward, settled and cancelled are absorbing (a settled market keeps its
   outcomes, resolution and disputes for good), and closed disputes keep their place and content.
   */
  lemma {:induction false} RunEvolves(b: Board, es: seq<Event>)
    requires ValidBoard(b)
    ensures BoardEvolves(b, Run(b, es))
    decreases |es|
  {
    if es == [] {
      forall k | k in b.records ensures Evolves(b.records[k], b.records[k]) { EvolvesReflexive(b.records[k]); }
    } else {
      var b' := Step(b, es[0]);
      StepKeepsValid(b, es[0]);
      StepEvolves(b, es[0]);
      RunEvolves(b', es[1..]);
      var b'' := Run(b', es[1..]);
      forall k | k in b.records
        ensures k in b''.records
        ensures Evolves(b.records[k], b''.records[k]) || b''.records[k].market.id >= b.nextId
      {
        if Evolves(b.records[k], b'.records[k]) {
          if Evolves(b'.records[k], b''.records[k]) {
            EvolvesTransitive(b.records[k], b'.records[k], b''.records[k]);
          }
        } else if Evolves(b'.records[k], b''.records[k]) {
          EvolvesSameMarket(b'.records[k], b''.records[k]);
        }
      }
    }
  }

  /** Number of successful settlement requests for the market with the given id. */
  ghost function Requests(b: Board, es: seq<Event>, id: Id): nat
    decreases |es|
  {
    if es == [] then 0
    else
      (if es[0].RequestEvent? && es[0].slug in b.records && b.records[es[0].slug].market.id == id
          && Apply(b, es[0]).Success? then 1 else 0)
      + Requests(Step(b, es[0]), es[1..], id)
  }

  /** The id is still to be drawn, or belongs to a market that has not left trading. */
  ghost predicate MayRequest(b: Board, id: Id) {
    || id >= b.nextId
    || exists k :: k in b.records && b.records[k].market.id == id && InTrading(b.records[k].market.status)
  }

  /** Settlement is requested at most once per market, whatever is called in between. */
  lemma {:induction false} RequestedAtMostOnce(b: Board, es: seq<Event>, id: Id)
    requires ValidBoard(b)
    ensures Requests(b, es, id) <= if MayRequest(b, id) then 1 else 0
    decreases |es|
  {
    if es != [] {
      var b' := Step(b, es[0]);
      StepKeepsValid(b, es[0]);
      RequestedAtMostOnce(b', es[1..], id);
      RequestUsesUp(b, es[0], id);
    }
  }

  lemma RequestUsesUp(b: Board, e: Event, id: Id)
    requires ValidBoard(b)
    ensures MayRequest(Step(b, e), id) ==> MayRequest(b, id)
    ensures e.RequestEvent? && e.slug in b.records && b.records[e.slug].market.id == id && Apply(b, e).Success?
            ==> MayRequest(b, id) && !MayRequest(Step(b, e), id)
  {
    var b' := Step(b, e);
    if MayRequest(b', id) && id < b.nextId {
      var k :| k in b'.records && b'.records[k].market.id == id && InTrading(b'.records[k].market.status);
      TradingWasTrading(b, e, k);
    }
    if e.RequestEvent? && e.slug in b.records && b.records[e.slug].market.id == id && Apply(b, e).Success? {
      RequestLeavesTrading(b, e);
    }
  }

  /** A listed market in trading that is not brand new was in trading before the call. */
  lemma TradingWasTrading(b: Board, e: Event, k: Slug)
    requires ValidBoard(b) && k in Step(b, e).records && Step(b, e).records[k].market.id < b.nextId
    requires InTrading(Step(b, e).records[k].market.status)
    ensures k in b.records && b.records[k].market.id == Step(b, e).records[k].market.id
    ensures InTrading(b.records[k].market.status)
  {
    StepEvolves(b, e);
    assert k in b.records;
    assert Evolves(b.records[k], Step(b, e).records[k]);
    assert ValidAt(b, k);
  }

  lemma RequestLeavesTrading(b: Board, e: Event)
    requires ValidBoard(b) && e.RequestEvent? && e.slug in b.records && Apply(b, e).Success?
    ensures MayRequest(b, b.records[e.slug].market.id)
    ensures !MayRequest(Step(b, e), b.records[e.slug].market.id)
  {
    var id, b' := b.records[e.slug].market.id, Step(b, e);
    assert ValidAt(b, e.slug);
    assert InTrading(b.records[e.slug].market.status);
    assert b'.records[e.slug].market.status == AwaitingResolution;
    forall k | k in b'.records && b'.records[k].market.id == id ensures !InTrading(b'.records[k].market.status) {
      assert Apart(b, k, e.slug);
    }
  }

  // -------------------------------------------------------------- settlement

  function SettlementSum(os: seq<Outcome>): int {
    if os == [] then 0
    else (if os[0].settlementValue.Some? then os[0].settlementValue.value else 0) + SettlementSum(os[1..])
  }

  lemma {:induction false} NoWinnerSumsToZero(os: seq<Outcome>)
    requires forall i :: 0 <= i < |os| ==> os[i].settlementValue == Some(0)
    ensures SettlementSum(os) == 0
  {
    if os != [] { NoWinnerSumsToZero(os[1..]); }
  }

  /** With distinct outcome ids the settlement values of a decided market sum to one. */
  lemma {:induction false} OneHotSumsToOne(os: seq<Outcome>, winner: Id)
    requires OneHot(os, winner) && DistinctOutcomes(os)
    ensures SettlementSum(os) == 1
  {
    var w :| 0 <= w < |os| && os[w].id == winner;
    if w == 0 {
      NoWinnerSumsToZero(os[1..]);
    } else {
      assert os[1..][w - 1].id == winner;
      OneHotSumsToOne(os[1..], winner);
    }
  }
}
