/**
 The two in-memory repositories as objects. Each method updates the repository's dictionaries and lists in
 place, in the order the program does, and is proved to take the step that MarketProtocol or TradingRules
 specifies; the properties of whole runs are proved there about those steps.
 */
module Repositories {
  import opened Wrappers
  import opened Decimals
  import opened MarketProtocol
  import opened MarketInvariants
  import opened TradingRules
  import opened Solvency

  function GetOr<K, V>(m: map<K, V>, k: K, default: V): V {
    if k in m then m[k] else default
  }

  /** The five dictionaries of the market repository and its supply of ids. */
  datatype Store = Store(
    markets: map<Slug, Market>, resolutions: map<Id, Resolution>, candidates: map<Id, seq<Candidate>>,
    disputes: map<Id, seq<Dispute>>, evidence: map<Id, seq<Evidence>>, nextId: Id)

  /** What the dictionaries say about one market. */
  ghost function RecordFrom(s: Store, m: Market): Record {
    Record(m, if m.id in s.resolutions then Some(s.resolutions[m.id]) else None,
           GetOr(s.candidates, m.id, []), GetOr(s.disputes, m.id, []))
  }

  /** The board that the dictionaries stand for. */
  ghost function BoardOf(s: Store): Board {
    Board(map k | k in s.markets :: RecordFrom(s, s.markets[k]), s.nextId)
  }

  /** The evidence dictionary holds, under the id of every dispute of the list, the evidence shown in that dispute. */
  ghost predicate EvidenceInStep(list: seq<Dispute>, evidence: map<Id, seq<Evidence>>) {
    forall i :: 0 <= i < |list| ==> list[i].id in evidence && evidence[list[i].id] == list[i].evidence
  }

  ghost predicate EvidenceAt(s: Store, k: Slug) {
    k in s.markets ==> EvidenceInStep(RecordFrom(s, s.markets[k]).disputes, s.evidence)
  }

  ghost predicate UnusedId(s: Store, id: Id) {
    id !in s.resolutions && id !in s.candidates && id !in s.disputes && id !in s.evidence
  }

  ghost predicate ValidStore(s: Store) {
    && ValidBoard(BoardOf(s))
    && (forall k :: EvidenceAt(s, k))
    && (forall id :: id >= s.nextId ==> UnusedId(s, id))
  }

  /** Looking a market up in the dictionaries and looking its record up on the board is the same. */
  lemma Listed(s: Store, slug: Slug)
    requires ValidStore(s) && slug in s.markets
    ensures var r := RecordFrom(s, s.markets[slug]);
            && BoardOf(s).records[slug] == r
            && EvidenceInStep(r.disputes, s.evidence)
    ensures UnusedId(s, s.nextId)
  {
    assert ValidAt(BoardOf(s), slug) && EvidenceAt(s, slug);
  }

  /** A dispute that may be edited is the first of its list, and the only one with its id. */
  lemma EditableIsFirst(s: Store, slug: Slug, disputeId: Id)
    requires ValidStore(s) && slug in s.markets
    requires var list := RecordFrom(s, s.markets[slug]).disputes;
             FindDispute(list, disputeId).Some? && ActiveDispute(list[FindDispute(list, disputeId).value])
    ensures var list := RecordFrom(s, s.markets[slug]).disputes;
            FindDispute(list, disputeId) == Some(0) && forall i :: 0 < i < |list| ==> list[i].id != disputeId
  {
    Listed(s, slug);
    assert ValidAt(BoardOf(s), slug);
    var list := RecordFrom(s, s.markets[slug]).disputes;
    ReviewableIsNewest(RecordFrom(s, s.markets[slug]), disputeId);
    forall i | 0 < i < |list| ensures list[i].id != disputeId {
      assert DifferentIds(list, 0, list, i);
    }
  }

  /** The two dictionaries agree on one key. */
  ghost predicate AgreeAt<V>(m: map<Id, V>, m': map<Id, V>, x: Id) {
    (x in m <==> x in m') && (x in m ==> m'[x] == m[x])
  }

  ghost predicate SameEntries(s: Store, s': Store, x: Id) {
    && AgreeAt(s.resolutions, s'.resolutions, x) && AgreeAt(s.candidates, s'.candidates, x)
    && AgreeAt(s.disputes, s'.disputes, x)
  }

  /** From s to s' only one market's entries changed, and the evidence of one of its disputes or of a new one. */
  ghost predicate Confined(s: Store, s': Store, slug: Slug, touched: Id) {
    && slug in s.markets && slug in s'.markets
    && s'.markets == s.markets[slug := s'.markets[slug]]
    && s'.markets[slug].id == s.markets[slug].id
    && (forall x :: x != s.markets[slug].id ==> SameEntries(s, s', x))
    && (forall x :: x != touched ==> AgreeAt(s.evidence, s'.evidence, x))
    && (touched == s.nextId || exists i :: 0 <= i < |RecordFrom(s, s.markets[slug]).disputes|
                                           && RecordFrom(s, s.markets[slug]).disputes[i].id == touched)
    && s'.nextId == s.nextId + 3
  }

  lemma OtherRecordsKept(s: Store, s': Store, slug: Slug, touched: Id, k: Slug)
    requires ValidStore(s) && Confined(s, s', slug, touched) && k in s.markets && k != slug
    ensures s'.markets[k] == s.markets[k] && RecordFrom(s', s'.markets[k]) == RecordFrom(s, s.markets[k])
  {
    assert Apart(BoardOf(s), k, slug);
    assert SameEntries(s, s', s.markets[k].id);
  }

  lemma OtherEvidenceKept(s: Store, s': Store, slug: Slug, touched: Id, k: Slug)
    requires ValidStore(s) && Confined(s, s', slug, touched) && k in s.markets && k != slug
    ensures EvidenceInStep(RecordFrom(s, s.markets[k]).disputes, s'.evidence)
  {
    var list, own := RecordFrom(s, s.markets[k]).disputes, RecordFrom(s, s.markets[slug]).disputes;
    assert Apart(BoardOf(s), k, slug);
    Listed(s, k);
    forall i | 0 <= i < |list| ensures AgreeAt(s.evidence, s'.evidence, list[i].id) {
      if touched != s.nextId {
        var j :| 0 <= j < |own| && own[j].id == touched;
        assert DifferentIds(list, i, own, j);
      }
    }
  }

  lemma FreshIdsStayUnused(s: Store, s': Store, slug: Slug, touched: Id, x: Id)
    requires ValidStore(s) && Confined(s, s', slug, touched) && x >= s'.nextId
    ensures UnusedId(s', x)
  {
    assert ValidAt(BoardOf(s), slug);
    assert UnusedId(s, x);
    assert SameEntries(s, s', x);
    assert AgreeAt(s.evidence, s'.evidence, x);
  }

  lemma CommitBoard(s: Store, s': Store, e: Event, touched: Id)
    requires ValidStore(s) && Confined(s, s', e.slug, touched)
    requires Apply(BoardOf(s), e) == Success(RecordFrom(s', s'.markets[e.slug]))
    ensures BoardOf(s') == Step(BoardOf(s), e)
  {
    forall k | k in s.markets && k != e.slug
      ensures RecordFrom(s', s'.markets[k]) == RecordFrom(s, s.markets[k])
    {
      OtherRecordsKept(s, s', e.slug, touched, k);
    }
    assert BoardOf(s').records == BoardOf(s).records[e.slug := RecordFrom(s', s'.markets[e.slug])];
  }

  /**
   Dictionary updates confined to one market's entries, and to the evidence of one of its disputes, are the
   step on the board that the market's new record says, and leave the dictionaries valid.
   */
  lemma Commit(s: Store, s': Store, e: Event, touched: Id)
    requires ValidStore(s) && Confined(s, s', e.slug, touched)
    requires Apply(BoardOf(s), e) == Success(RecordFrom(s', s'.markets[e.slug]))
    requires EvidenceInStep(RecordFrom(s', s'.markets[e.slug]).disputes, s'.evidence)
    ensures ValidStore(s') && BoardOf(s') == Step(BoardOf(s), e)
  {
    CommitBoard(s, s', e, touched);
    StepKeepsValid(BoardOf(s), e);
    forall k ensures EvidenceAt(s', k) {
      if k in s.markets && k != e.slug {
        OtherRecordsKept(s, s', e.slug, touched, k);
        OtherEvidenceKept(s, s', e.slug, touched, k);
      }
    }
    forall x | x >= s'.nextId ensures UnusedId(s', x) {
      FreshIdsStayUnused(s, s', e.slug, touched, x);
    }
  }

  // --------------------------------- the dictionaries after the longer operations

  ghost function AfterDispute(s: Store, slug: Slug, actor: Id, reason: string): Store
    requires slug in s.markets && s.markets[slug].id in s.resolutions
  {
    var m := s.markets[slug];
    var current := s.resolutions[m.id];
    s.(markets := s.markets[slug := m.(status := Disputed)],
       resolutions := s.resolutions[m.id := current.(status := ResolutionDisputed)],
       candidates := s.candidates[m.id := MarkCandidates(GetOr(s.candidates, m.id, []), current.candidateId,
           Rejected, Some(actor))],
       disputes := s.disputes[m.id := [Dispute(s.nextId, current.id, actor, DisputeOpen, reason, None, None, [])]
                                      + GetOr(s.disputes, m.id, [])],
       evidence := s.evidence[s.nextId := GetOr(s.evidence, s.nextId, [])],
       nextId := s.nextId + 3)
  }

  lemma DisputeCommits(s: Store, slug: Slug, actor: Id, reason: string)
    requires ValidStore(s) && slug in s.markets && s.markets[slug].id in s.resolutions
    requires Apply(BoardOf(s), DisputeEvent(slug, actor, reason)).Success?
    ensures var s' := AfterDispute(s, slug, actor, reason);
            ValidStore(s') && BoardOf(s') == Step(BoardOf(s), DisputeEvent(slug, actor, reason))
  {
    Listed(s, slug);
    Commit(s, AfterDispute(s, slug, actor, reason), DisputeEvent(slug, actor, reason), s.nextId);
  }

  ghost function AfterReview(s: Store, slug: Slug, verdict: Verdict, notes: Option<string>, now: Time): Store
    requires slug in s.markets && s.markets[slug].id in s.disputes && s.disputes[s.markets[slug].id] != []
  {
    var m := s.markets[slug];
    var accepted := verdict.Dismiss? || verdict.Withdraw?;
    var d := s.disputes[m.id][0];
    var d' := d.(status := VerdictStatus(verdict), reviewNotes := notes, evidence := GetOr(s.evidence, d.id, []),
                 closedAt := if verdict.TakeUnderReview? then d.closedAt else Some(now));
    s.(markets := s.markets[slug := m.(status := if accepted then AwaitingResolution else Disputed)],
       resolutions := if m.id !in s.resolutions then s.resolutions
                      else s.resolutions[m.id := s.resolutions[m.id].(status := if accepted
                          then PendingOracle else ResolutionDisputed)],
       candidates := if !accepted then s.candidates
                     else s.candidates[m.id := MarkCandidates(GetOr(s.candidates, m.id, []),
                            if m.id in s.resolutions then s.resolutions[m.id].candidateId else None, Proposed, None)],
       disputes := s.disputes[m.id := s.disputes[m.id][0 := d']],
       nextId := s.nextId + 3)
  }

  lemma ReviewCommits(s: Store, slug: Slug, disputeId: Id, verdict: Verdict, notes: Option<string>, now: Time)
    requires ValidStore(s) && slug in s.markets
    requires Apply(BoardOf(s), ReviewEvent(slug, disputeId, verdict, notes, now)).Success?
    ensures var id := s.markets[slug].id;
            id in s.disputes && s.disputes[id] != [] && s.disputes[id][0].id == disputeId
    ensures var s' := AfterReview(s, slug, verdict, notes, now);
            && ValidStore(s') && BoardOf(s') == Step(BoardOf(s), ReviewEvent(slug, disputeId, verdict, notes, now))
  {
    Listed(s, slug);
    EditableIsFirst(s, slug, disputeId);
    Commit(s, AfterReview(s, slug, verdict, notes, now), ReviewEvent(slug, disputeId, verdict, notes, now), s.nextId);
  }

  ghost function AfterEvidence(s: Store, slug: Slug, actor: Id, content: string): Store
    requires slug in s.markets && s.markets[slug].id in s.disputes && s.disputes[s.markets[slug].id] != []
  {
    var id := s.markets[slug].id;
    var d := s.disputes[id][0];
    var list := GetOr(s.evidence, d.id, []) + [Evidence(s.nextId, d.id, actor, content)];
    s.(evidence := s.evidence[d.id := list],
       disputes := s.disputes[id := s.disputes[id][0 := d.(evidence := list)]],
       nextId := s.nextId + 3)
  }

  /** The new evidence follows the old, in the dispute and under its id in the dictionary; nothing else changes. */
  ghost predicate EvidenceStored(s: Store, s': Store, slug: Slug, disputeId: Id, actor: Id, content: string) {
    && slug in s.markets
    && var id := s.markets[slug].id;
       && id in s.disputes && s.disputes[id] != [] && s.disputes[id][0].id == disputeId
       && var list := s.disputes[id][0].evidence + [Evidence(s.nextId, disputeId, actor, content)];
          && s'.disputes == s.disputes[id := [s.disputes[id][0].(evidence := list)] + s.disputes[id][1..]]
          && s'.evidence == s.evidence[disputeId := list]
          && s'.markets == s.markets && s'.resolutions == s.resolutions && s'.candidates == s.candidates
          && s'.nextId > s.nextId
  }

  lemma EvidenceCommits(s: Store, slug: Slug, disputeId: Id, actor: Id, content: string)
    requires ValidStore(s) && slug in s.markets
    requires Apply(BoardOf(s), EvidenceEvent(slug, disputeId, actor, content)).Success?
    ensures var id := s.markets[slug].id;
            id in s.disputes && s.disputes[id] != [] && s.disputes[id][0].id == disputeId
    ensures var s' := AfterEvidence(s, slug, actor, content);
            && ValidStore(s') && BoardOf(s') == Step(BoardOf(s), EvidenceEvent(slug, disputeId, actor, content))
            && EvidenceStored(s, s', slug, disputeId, actor, content)
  {
    Listed(s, slug);
    EditableIsFirst(s, slug, disputeId);
    Commit(s, AfterEvidence(s, slug, actor, content), EvidenceEvent(slug, disputeId, actor, content), disputeId);
    EvidenceIsStored(s, slug, actor, content);
  }

  lemma EvidenceIsStored(s: Store, slug: Slug, actor: Id, content: string)
    requires slug in s.markets && s.markets[slug].id in s.disputes && s.disputes[s.markets[slug].id] != []
    requires EvidenceInStep(s.disputes[s.markets[slug].id], s.evidence)
    ensures EvidenceStored(s, AfterEvidence(s, slug, actor, content), slug, s.disputes[s.markets[slug].id][0].id,
                           actor, content)
  {
    var list := s.disputes[s.markets[slug].id];
    var d' := list[0].(evidence := list[0].evidence + [Evidence(s.nextId, list[0].id, actor, content)]);
    assert list[0 := d'] == [d'] + list[1..];
  }

  ghost function AfterPayout(s: Store, slug: Slug, reviewer: Option<Id>, winner: Id, candidateId: Option<Id>,
                             notes: string, now: Time): Store
    requires slug in s.markets
  {
    var m := s.markets[slug];
    var prior := if m.id in s.resolutions then Some(s.resolutions[m.id]) else None;
    s.(markets := s.markets[slug := m.(status := Settled, outcomes := SettledOutcomes(m.outcomes, winner),
        settledAt := Some(now))],
       resolutions := s.resolutions[m.id := Resolution(
         if prior.Some? then prior.value.id else s.nextId,
         Some(winner),
         if candidateId.Some? then candidateId else if prior.Some? then prior.value.candidateId else None,
         Finalized,
         if prior.Some? then prior.value.finalizesAt else None)],
       candidates := if candidateId.None? then s.candidates
                     else s.candidates[m.id := ConfirmCandidates(GetOr(s.candidates, m.id, []), candidateId.value,
                         winner, reviewer, notes)],
       nextId := s.nextId + 3)
  }

  lemma PayoutCommits(s: Store, slug: Slug, reviewer: Option<Id>, winner: Id, candidateId: Option<Id>,
    notes: string, now: Time)
    requires ValidStore(s) && slug in s.markets
    requires Apply(BoardOf(s), SettleEvent(slug, reviewer, winner, candidateId, notes, now)).Success?
    ensures var s' := AfterPayout(s, slug, reviewer, winner, candidateId, notes, now);
            && ValidStore(s')
            && BoardOf(s') == Step(BoardOf(s), SettleEvent(slug, reviewer, winner, candidateId, notes, now))
  {
    Listed(s, slug);
    Commit(s, AfterPayout(s, slug, reviewer, winner, candidateId, notes, now),
           SettleEvent(slug, reviewer, winner, candidateId, notes, now), s.nextId);
  }

  ghost function AfterPublish(s: Store, slug: Slug, rail: Rail): Store {
    s.(markets := s.markets[slug := NewMarket(s.nextId, rail)], nextId := s.nextId + 3)
  }

  lemma PublishBoard(s: Store, slug: Slug, rail: Rail)
    requires ValidStore(s)
    ensures BoardOf(AfterPublish(s, slug, rail)) == Step(BoardOf(s), PublishEvent(slug, rail))
  {
    var s' := AfterPublish(s, slug, rail);
    assert UnusedId(s, s.nextId);
    assert RecordFrom(s', s'.markets[slug]) == NewRecord(s.nextId, rail);
    assert BoardOf(s').records == BoardOf(s).records[slug := NewRecord(s.nextId, rail)];
  }

  lemma PublishCommits(s: Store, slug: Slug, rail: Rail)
    requires ValidStore(s)
    ensures var s' := AfterPublish(s, slug, rail);
            ValidStore(s') && BoardOf(s') == Step(BoardOf(s), PublishEvent(slug, rail))
  {
    var s' := AfterPublish(s, slug, rail);
    PublishBoard(s, slug, rail);
    StepKeepsValid(BoardOf(s), PublishEvent(slug, rail));
    assert UnusedId(s, s.nextId);
    forall k ensures EvidenceAt(s', k) { assert EvidenceAt(s, k); }
    forall x | x >= s'.nextId ensures UnusedId(s', x) { assert UnusedId(s, x); }
  }

  // -------------------------------------------- loops over one market's lists

  /** The loop of create_market_dispute and review_market_dispute that rebuilds the candidate list. */
  method RemarkCandidates(listed: seq<Candidate>, id: Option<Id>, status: CandidateStatus, reviewer: Option<Id>)
    returns (next: seq<Candidate>)
    ensures next == MarkCandidates(listed, id, status, reviewer)
  {
    next := [];
    for i := 0 to |listed|
      invariant next == MarkCandidates(listed, id, status, reviewer)[..i]
    {
      assert MarkCandidates(listed, id, status, reviewer)[i] == MarkCandidate(listed[i], id, status, reviewer);
      if id == Some(listed[i].id) {
        next := next + [listed[i].(status := status, reviewedBy := reviewer)];
      } else {
        next := next + [listed[i]];
      }
    }
  }

  /** The loop of settle_market that confirms the named candidate. */
  method ConfirmNamed(listed: seq<Candidate>, id: Id, winner: Id, reviewer: Option<Id>, notes: string)
    returns (next: seq<Candidate>)
    ensures next == ConfirmCandidates(listed, id, winner, reviewer, notes)
  {
    next := [];
    for i := 0 to |listed|
      invariant next == ConfirmCandidates(listed, id, winner, reviewer, notes)[..i]
    {
      if listed[i].id == id {
        next := next + [listed[i].(proposedOutcome := Some(winner), status := Confirmed, reviewedBy := reviewer,
                                   payload := listed[i].payload + map["status" := "finalized", "notes" := notes])];
      } else {
        next := next + [listed[i]];
      }
    }
  }

  /** The single loop of settle_market over the outcomes: found exactly when the list is decided for the winner. */
  method DecideOutcomes(outcomes: seq<Outcome>, winner: Id) returns (found: bool, next: seq<Outcome>)
    ensures next == SettledOutcomes(outcomes, winner)
    ensures found <==> HasOutcome(outcomes, winner)
    ensures found <==> OneHot(next, winner)
  {
    found := false;
    next := [];
    for i := 0 to |outcomes|
      invariant next == SettledOutcomes(outcomes, winner)[..i]
      invariant found <==> exists j :: 0 <= j < i && outcomes[j].id == winner
    {
      if outcomes[i].id == winner {
        found := true;
        next := next + [outcomes[i].(status := Winning, settlementValue := Some(1))];
      } else {
        next := next + [outcomes[i].(status := Losing, settlementValue := Some(0))];
      }
    }
    if found {
      SettledOneHot(outcomes, winner);
    } else {
      assert forall j :: 0 <= j < |next| ==> next[j].id == outcomes[j].id;
    }
  }

  /** The checks of create_market_order that look at the request and the market alone. */
  method CheckRequest(market: Market, p: OrderRequest) returns (error: Option<Error>)
    ensures error.None? <==> Acceptable(market, p)
    ensures error.Some? ==> error.value == Conflict
  {
    if !(market.status in {PendingLiquidity, Open}) { return Some(Conflict); }
    if p.orderType != Limit { return Some(Conflict); }
    if !(p.side in {Buy, Sell}) { return Some(Conflict); }
    if p.price.None? { return Some(Conflict); }
    if p.quantity <= 0.0 { return Some(Conflict); }
    if p.price.value <= 0.0 || p.price.value >= 1.0 { return Some(Conflict); }
    return None;
  }

  class MarketRepository {
    var markets: map<Slug, Market>
    var resolutions: map<Id, Resolution>
    var candidates: map<Id, seq<Candidate>>
    var disputes: map<Id, seq<Dispute>>
    var evidence: map<Id, seq<Evidence>>
    var nextId: Id
    var trading: TradingRepository?

    ghost function Now(): Store
      reads this
    {
      Store(markets, resolutions, candidates, disputes, evidence, nextId)
    }

    ghost function View(): Board
      reads this
    {
      BoardOf(Now())
    }

    ghost predicate Valid()
      reads this
    {
      ValidStore(Now())
    }

    constructor ()
      ensures Valid() && View() == EMPTY && trading == null
    {
      markets, resolutions, candidates, disputes, evidence := map[], map[], map[], map[], map[];
      nextId := 0;
      trading := null;
    }

    /** publish_from_request: a new market with two outcomes; a market already listed under the slug is replaced. */
    method Publish(slug: Slug, rail: Rail) returns (m: Market)
      requires Valid()
      modifies this`markets, this`nextId
      ensures Valid()
      ensures View() == Step(old(View()), PublishEvent(slug, rail))
      ensures slug in markets && m == markets[slug]
    {
      PublishCommits(Now(), slug, rail);
      m := NewMarket(nextId, rail);
      markets := markets[slug := m];
      nextId := nextId + 3;
      assert Now() == AfterPublish(old(Now()), slug, rail);
    }

    method UpdateMarketStatus(slug: Slug, status: MarketStatus) returns (r: Result<Market>)
      requires Valid()
      modifies this`markets, this`nextId
      ensures Valid()
      ensures View() == Step(old(View()), StatusEvent(slug, status))
      ensures match Apply(old(View()), StatusEvent(slug, status))
              case Failure(e) => r == Failure(e)
              case Success(rec) => r == Success(rec.market)
    {
      ghost var e := StatusEvent(slug, status);
      if slug !in markets { return Failure(NotFound); }
      Listed(Now(), slug);
      var market := markets[slug];
      if !MayMove(market.status, status) { return Failure(Conflict); }
      var updated := market.(status := status);
      markets := markets[slug := updated];
      nextId := nextId + 3;
      Commit(old(Now()), Now(), e, old(nextId));
      return Success(updated);
    }

    method RequestSettlement(slug: Slug, requester: Id, notes: string, finalizesAt: Time, oracle: OracleReply)
      returns (r: Result<Resolution>)
      requires Valid()
      modifies this`markets, this`resolutions, this`candidates, this`nextId
      ensures Valid()
      ensures View() == Step(old(View()), RequestEvent(slug, requester, notes, finalizesAt, oracle))
      ensures match Apply(old(View()), RequestEvent(slug, requester, notes, finalizesAt, oracle))
              case Failure(e) => r == Failure(e)
              case Success(rec) => rec.resolution.Some? && r == Success(rec.resolution.value)
    {
      ghost var e := RequestEvent(slug, requester, notes, finalizesAt, oracle);
      if slug !in markets { return Failure(NotFound); }
      Listed(Now(), slug);
      var market := markets[slug];
      if market.status in {Settled, Cancelled, AwaitingResolution, Disputed} { return Failure(Conflict); }
      var candidateId := nextId;
      var answer: Payload := map[];
      match oracle {
        case NoOracle =>
        case Refused => return Failure(Conflict);
        case Answer(payload) => answer := payload;
      }
      markets := markets[slug := market.(status := AwaitingResolution, resolutionDueAt := Some(finalizesAt))];
      var candidate := Candidate(candidateId, requester, None, Proposed, None,
                                 map["status" := "pending_oracle", "notes" := notes] + answer);
      candidates := candidates[market.id := [candidate] + GetOr(candidates, market.id, [])];
      var resolution := Resolution(nextId + 1, None, Some(candidateId), PendingOracle, Some(finalizesAt));
      resolutions := resolutions[market.id := resolution];
      nextId := nextId + 3;
      Commit(old(Now()), Now(), e, old(nextId));
      return Success(resolution);
    }

    method CreateMarketDispute(slug: Slug, actor: Id, reason: string) returns (r: Result<Dispute>)
      requires Valid()
      modifies this`markets, this`resolutions, this`candidates, this`disputes, this`evidence, this`nextId
      ensures Valid()
      ensures View() == Step(old(View()), DisputeEvent(slug, actor, reason))
      ensures match Apply(old(View()), DisputeEvent(slug, actor, reason))
              case Failure(e) => r == Failure(e)
              case Success(rec) => rec.disputes != [] && r == Success(rec.disputes[0])
    {
      if slug !in markets { return Failure(NotFound); }
      Listed(Now(), slug);
      var market := markets[slug];
      if market.status !in {AwaitingResolution, Disputed} { return Failure(Conflict); }
      if market.id !in resolutions { return Failure(Conflict); }
      var current := resolutions[market.id];
      if AnyActive(GetOr(disputes, market.id, [])) { return Failure(Conflict); }

      DisputeCommits(Now(), slug, actor, reason);
      var dispute := OpenDispute(slug, actor, reason);
      return Success(dispute);
    }

    /** The writes of create_market_dispute, once its checks have passed. */
    method OpenDispute(slug: Slug, actor: Id, reason: string) returns (dispute: Dispute)
      requires slug in markets && markets[slug].id in resolutions
      modifies this`markets, this`resolutions, this`candidates, this`disputes, this`evidence, this`nextId
      ensures Now() == AfterDispute(old(Now()), slug, actor, reason)
      ensures dispute == Dispute(old(nextId), old(resolutions[markets[slug].id]).id, actor, DisputeOpen, reason,
              None, None, [])
    {
      var market := markets[slug];
      var current := resolutions[market.id];
      dispute := Dispute(nextId, current.id, actor, DisputeOpen, reason, None, None, []);
      disputes := disputes[market.id := [dispute] + GetOr(disputes, market.id, [])];
      evidence := evidence[dispute.id := GetOr(evidence, dispute.id, [])];
      markets := markets[slug := market.(status := Disputed)];
      resolutions := resolutions[market.id := current.(status := ResolutionDisputed)];
      var next := RemarkCandidates(GetOr(candidates, market.id, []), current.candidateId, Rejected, Some(actor));
      candidates := candidates[market.id := next];
      nextId := nextId + 3;
    }

    method AddMarketDisputeEvidence(slug: Slug, disputeId: Id, actor: Id, content: string) returns (r: Result<Dispute>)
      requires Valid()
      modifies this`disputes, this`evidence, this`nextId
      ensures Valid()
      ensures View() == Step(old(View()), EvidenceEvent(slug, disputeId, actor, content))
      ensures match Apply(old(View()), EvidenceEvent(slug, disputeId, actor, content))
              case Failure(e) => r == Failure(e)
              case Success(rec) => rec.disputes != [] && r == Success(rec.disputes[0])
      ensures r.Success? ==> EvidenceStored(old(Now()), Now(), slug, disputeId, actor, content)
    {
      if slug !in markets { return Failure(NotFound); }
      Listed(Now(), slug);
      var market := markets[slug];
      var index := FindDispute(GetOr(disputes, market.id, []), disputeId);
      if index.None? { return Failure(NotFound); }
      if !ActiveDispute(disputes[market.id][index.value]) { return Failure(Conflict); }
      EditableIsFirst(Now(), slug, disputeId);
      EvidenceCommits(Now(), slug, disputeId, actor, content);
      var updated := AppendEvidence(slug, index.value, actor, content);
      return Success(updated);
    }

    /** The writes of add_market_dispute_evidence, once its checks have passed. */
    method AppendEvidence(slug: Slug, index: nat, actor: Id, content: string) returns (updated: Dispute)
      requires slug in markets && markets[slug].id in disputes && index < |disputes[markets[slug].id]| && index == 0
      modifies this`disputes, this`evidence, this`nextId
      ensures Now() == AfterEvidence(old(Now()), slug, actor, content)
      ensures updated == Now().disputes[markets[slug].id][0]
    {
      var market := markets[slug];
      var dispute := disputes[market.id][index];
      var item := Evidence(nextId, dispute.id, actor, content);
      evidence := evidence[dispute.id := GetOr(evidence, dispute.id, []) + [item]];
      updated := dispute.(evidence := evidence[dispute.id]);
      disputes := disputes[market.id := disputes[market.id][index := updated]];
      nextId := nextId + 3;
    }

    method ReviewMarketDispute(slug: Slug, disputeId: Id, verdict: Verdict, notes: Option<string>, now: Time)
      returns (r: Result<Dispute>)
      requires Valid()
      modifies this`markets, this`resolutions, this`candidates, this`disputes, this`nextId
      ensures Valid()
      ensures View() == Step(old(View()), ReviewEvent(slug, disputeId, verdict, notes, now))
      ensures match Apply(old(View()), ReviewEvent(slug, disputeId, verdict, notes, now))
              case Failure(e) => r == Failure(e)
              case Success(rec) => rec.disputes != [] && r == Success(rec.disputes[0])
    {
      if slug !in markets { return Failure(NotFound); }
      Listed(Now(), slug);
      var market := markets[slug];
      var index := FindDispute(GetOr(disputes, market.id, []), disputeId);
      if index.None? { return Failure(NotFound); }
      var dispute := disputes[market.id][index.value];
      if dispute.status in {Dismissed, Upheld, Withdrawn} { return Failure(Conflict); }
      EditableIsFirst(Now(), slug, disputeId);
      ReviewCommits(Now(), slug, disputeId, verdict, notes, now);
      var updated := CloseOrKeepDispute(slug, index.value, verdict, notes, now);
      return Success(updated);
    }

    /** The writes of review_market_dispute, once its checks have passed. */
    method CloseOrKeepDispute(slug: Slug, index: nat, verdict: Verdict, notes: Option<string>, now: Time)
      returns (updated: Dispute)
      requires slug in markets && markets[slug].id in disputes && index < |disputes[markets[slug].id]| && index == 0
      modifies this`markets, this`resolutions, this`candidates, this`disputes, this`nextId
      ensures Now() == AfterReview(old(Now()), slug, verdict, notes, now)
      ensures updated == Now().disputes[old(markets)[slug].id][0]
    {
      var market := markets[slug];
      var dispute := disputes[market.id][index];
      updated := dispute.(status := VerdictStatus(verdict), reviewNotes := notes, evidence := GetOr(evidence,
          dispute.id, []));
      if verdict.Dismiss? || verdict.Uphold? || verdict.Withdraw? {
        updated := updated.(closedAt := Some(now));
      }
      disputes := disputes[market.id := disputes[market.id][index := updated]];

      if verdict.Dismiss? || verdict.Withdraw? {
        markets := markets[slug := market.(status := AwaitingResolution)];
        var active: Option<Id> := None;
        if market.id in resolutions {
          active := resolutions[market.id].candidateId;
          resolutions := resolutions[market.id := resolutions[market.id].(status := PendingOracle)];
        }
        var next := RemarkCandidates(GetOr(candidates, market.id, []), active, Proposed, None);
        candidates := candidates[market.id := next];
      } else {
        markets := markets[slug := market.(status := Disputed)];
        if market.id in resolutions {
          resolutions := resolutions[market.id := resolutions[market.id].(status := ResolutionDisputed)];
        }
      }
      nextId := nextId + 3;
    }

    method ReconcileOracleResolution(slug: Slug, oracle: OracleReply) returns (r: Result<()>)
      requires Valid()
      modifies this`candidates, this`nextId
      ensures Valid()
      ensures View() == Step(old(View()), ReconcileEvent(slug, oracle))
      ensures match Apply(old(View()), ReconcileEvent(slug, oracle))
              case Failure(e) => r == Failure(e)
              case Success(_) => r == Success(())
    {
      ghost var e := ReconcileEvent(slug, oracle);
      if slug !in markets { return Failure(NotFound); }
      Listed(Now(), slug);
      var market := markets[slug];
      if market.id !in resolutions || resolutions[market.id].candidateId.None? { return Failure(Conflict); }
      var id := resolutions[market.id].candidateId.value;
      var listed := GetOr(candidates, market.id, []);
      if !HasCandidate(listed, id) || !oracle.Answer? { return Failure(Conflict); }
      candidates := candidates[market.id := ReplacePayload(listed, id, oracle.payload)];
      nextId := nextId + 3;
      Commit(old(Now()), Now(), e, old(nextId));
      return Success(());
    }

    /** Finalization; the trading repository, when there is one, cancels the market's active orders. */
    method SettleMarket(slug: Slug, reviewer: Option<Id>, winner: Id, candidateId: Option<Id>, notes: string, now: Time)
      returns (r: Result<Resolution>)
      requires Valid()
      modifies this`markets, this`resolutions, this`candidates, this`nextId
      modifies if trading == null then {} else {trading}
      ensures Valid()
      ensures View() == Step(old(View()), SettleEvent(slug, reviewer, winner, candidateId, notes, now))
      ensures match Apply(old(View()), SettleEvent(slug, reviewer, winner, candidateId, notes, now))
              case Failure(e) => r == Failure(e)
              case Success(rec) => rec.resolution.Some? && r == Success(rec.resolution.value)
      ensures trading != null ==>
        && trading.Book() == MarketStep(Exchange(old(View()), old(trading.Book())),
                                        SettleEvent(slug, reviewer, winner, candidateId, notes, now)).trading
      ensures trading != null && r.Success? ==>
        slug in old(markets) && OrdersCancelled(old(trading.orders), trading.orders, old(markets)[slug].id)
    {
      if slug !in markets { return Failure(NotFound); }
      Listed(Now(), slug);
      var market := markets[slug];
      if market.status !in {AwaitingResolution, Disputed} { return Failure(Conflict); }
      if AnyActive(GetOr(disputes, market.id, [])) { return Failure(Conflict); }
      var found, nextOutcomes := DecideOutcomes(market.outcomes, winner);
      if !found { return Failure(NotFound); }
      PayoutCommits(Now(), slug, reviewer, winner, candidateId, notes, now);
      var resolution := PayOut(slug, reviewer, winner, candidateId, notes, now, nextOutcomes);
      if trading != null {
        trading.CancelOrdersForMarket(market.id);
      }
      return Success(resolution);
    }

    /** The writes of settle_market to the market, its candidates and its resolution. */
    method PayOut(slug: Slug, reviewer: Option<Id>, winner: Id, candidateId: Option<Id>, notes: string, now: Time,
                  nextOutcomes: seq<Outcome>) returns (resolution: Resolution)
      requires slug in markets && nextOutcomes == SettledOutcomes(markets[slug].outcomes, winner)
      modifies this`markets, this`resolutions, this`candidates, this`nextId
      ensures Now() == AfterPayout(old(Now()), slug, reviewer, winner, candidateId, notes, now)
      ensures resolution == resolutions[old(markets)[slug].id]
    {
      var market := markets[slug];
      markets := markets[slug := market.(status := Settled, outcomes := nextOutcomes, settledAt := Some(now))];
      var prior := if market.id in resolutions then Some(resolutions[market.id]) else None;
      if candidateId.Some? {
        var next := ConfirmNamed(GetOr(candidates, market.id, []), candidateId.value, winner, reviewer, notes);
        candidates := candidates[market.id := next];
      }
      resolution := Resolution(
        if prior.Some? then prior.value.id else nextId,
        Some(winner),
        if candidateId.Some? then candidateId else if prior.Some? then prior.value.candidateId else None,
        Finalized,
        if prior.Some? then prior.value.finalizesAt else None);
      resolutions := resolutions[market.id := resolution];
      nextId := nextId + 3;
    }

    /** The market with the given id: a scan over the listed markets. */
    method FindMarketById(id: Id) returns (r: Option<Market>)
      requires Valid()
      ensures r.None? ==> forall k :: k in markets ==> markets[k].id != id
      ensures r.Some? ==> forall k :: k in markets && markets[k].id == id ==> r == Some(markets[k])
      ensures r.Some? ==> exists k :: k in markets && r == Some(markets[k]) && markets[k].id == id
    {
      var rest := markets.Keys;
      while rest != {}
        invariant rest <= markets.Keys
        invariant forall k :: k in markets && k !in rest ==> markets[k].id != id
        decreases |rest|
      {
        var k :| k in rest;
        if markets[k].id == id {
          forall l | l in markets && markets[l].id == id ensures l == k {
            assert Apart(View(), l, k);
          }
          return Some(markets[k]);
        }
        rest := rest - {k};
      }
      return None;
    }
  }

  class TradingRepository {
    const marketRepository: MarketRepository
    var orders: seq<Order>
    var owners: map<Id, Id>
    var balances: map<Account, real>
    var nextOrderId: Id

    ghost function Book(): Trading
      reads this
    {
      Trading(orders, owners, balances, nextOrderId)
    }

    ghost function State(): Exchange
      reads this, marketRepository
    {
      Exchange(marketRepository.View(), Book())
    }

    constructor (repository: MarketRepository)
      requires repository.Valid()
      modifies repository`trading
      ensures marketRepository == repository && repository.trading == this
      ensures repository.Valid() && repository.View() == old(repository.View())
      ensures Book() == START.trading
    {
      marketRepository := repository;
      orders, owners, balances, nextOrderId := [], map[], map[], 0;
      new;
      repository.trading := this;
    }

    /** _reserved_balance: the sum over all orders, looking each order's market up by id. */
    method ReservedBalance(actor: Id, rail: Rail) returns (sum: real)
      requires marketRepository.Valid()
      ensures sum == Reserved(marketRepository.View(), Book(), actor, rail)
    {
      sum := 0.0;
      for i := 0 to |orders|
        invariant sum == ReservedBy(marketRepository.View(), Book(), i, actor, rail)
      {
        var o := orders[i];
        if o.id in owners && owners[o.id] == actor && ActiveOrder(o) {
          var market := marketRepository.FindMarketById(o.marketId);
          RailLookup(marketRepository.View(), marketRepository.markets, o.marketId, rail, market);
          if market.Some? && market.value.rail == rail {
            sum := sum + Collateral(o.side, Value(o.remaining), Value(o.price));
          }
        }
      }
    }

    method CreateMarketOrder(slug: Slug, actor: Id, p: OrderRequest) returns (r: Result<Order>)
      requires marketRepository.Valid()
      modifies this
      ensures State() == Execute(old(State()), PlaceCommand(slug, actor, p))
      ensures r == PlaceOrder(old(marketRepository.View()), old(Book()), slug, actor, p).1
    {
      if slug !in marketRepository.markets { return Failure(NotFound); }
      var market := marketRepository.markets[slug];
      var error := CheckRequest(market, p);
      if error.Some? { return Failure(error.value); }
      var cost := Collateral(p.side, p.quantity, p.price.value);
      var account := RailAccount(actor, market.rail);
      if account !in balances {
        balances := balances[account := SEED];
      }
      var reserved := ReservedBalance(actor, market.rail);
      if balances[account] - reserved < cost { return Failure(Conflict); }
      if !HasOutcome(market.outcomes, p.outcomeId) { return Failure(NotFound); }
      var o := Order(nextOrderId, market.id, p.outcomeId, p.side, OrderOpen,
                     ToTicks(p.quantity), ToTicks(p.price.value), ToTicks(p.quantity), ToTicks(cost));
      nextOrderId := nextOrderId + 1;
      orders := orders + [o];
      owners := owners[o.id := actor];
      return Success(o);
    }

    method CancelMarketOrder(slug: Slug, orderId: Id, actor: Id, isAdmin: bool) returns (r: Result<Order>)
      modifies this`orders
      ensures State() == Execute(old(State()), CancelCommand(slug, orderId, actor, isAdmin))
      ensures r == CancelOrder(old(marketRepository.View()), old(Book()), slug, orderId, actor, isAdmin).1
    {
      if slug !in marketRepository.markets { return Failure(NotFound); }
      var market := marketRepository.markets[slug];
      var index := 0;
      while index < |orders|
        invariant 0 <= index <= |orders|
        invariant orders == old(orders)
        invariant forall j :: 0 <= j < index ==> orders[j].id != orderId || orders[j].marketId != market.id
      {
        var o := orders[index];
        if o.id == orderId && o.marketId == market.id {
          if !(o.id in owners && owners[o.id] == actor) && !isAdmin { return Failure(Forbidden); }
          if o.status !in {OrderOpen, PartiallyFilled, PendingAcceptance} { return Failure(Conflict); }
          var updated := o.(status := OrderCancelled);
          orders := orders[index := updated];
          return Success(updated);
        }
        index := index + 1;
      }
      return Failure(NotFound);
    }

    method FundBalance(account: Account, amount: real)
      modifies this`balances
      ensures State() == Execute(old(State()), FundCommand(account, amount))
    {
      balances := balances[account := GetOr(balances, account, 0.0) + amount];
    }

    /** get_portfolio_summary writes only when the profile has no account yet. */
    method OpenPortfolioAccounts(profile: Id)
      modifies this`balances
      ensures State() == Execute(old(State()), PortfolioCommand(profile))
    {
      if !(exists a :: a in balances && a.profile == profile) {
        balances := balances[Account(profile, USDC, Onchain) := SEED];
      }
    }

    method CancelOrdersForMarket(marketId: Id)
      modifies this`orders
      ensures orders == CancelAll(old(orders), marketId)
      ensures OrdersCancelled(old(orders), orders, marketId)
    {
      for index := 0 to |orders|
        invariant |orders| == |old(orders)|
        invariant orders[..index] == CancelAll(old(orders), marketId)[..index]
        invariant orders[index..] == old(orders)[index..]
      {
        var o := orders[index];
        assert o == old(orders)[index..][0];
        if o.marketId == marketId && ActiveOrder(o) {
          orders := orders[index := o.(status := OrderCancelled, remaining := 0)];
        }
        assert orders[..index + 1] == CancelAll(old(orders), marketId)[..index + 1];
      }
    }
  }

  lemma RailLookup(b: Board, ms: map<Slug, Market>, id: Id, rail: Rail, found: Option<Market>)
    requires b.records.Keys == ms.Keys && forall k :: k in ms ==> b.records[k].market == ms[k]
    requires found.None? ==> forall k :: k in ms ==> ms[k].id != id
    requires found.Some? ==> forall k :: k in ms && ms[k].id == id ==> found == Some(ms[k])
    requires found.Some? ==> exists k :: k in ms && found == Some(ms[k]) && ms[k].id == id
    ensures OnRail(b, id, rail) <==> found.Some? && found.value.rail == rail
  {
    if found.Some? {
      var k :| k in ms && found == Some(ms[k]) && ms[k].id == id;
      assert b.records[k].market.rail == found.value.rail;
    }
  }
}
