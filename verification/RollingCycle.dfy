/**
 The creating half of the rolling cycle. A run knows the newest markets only, one page of the listing; it skips the
 windows whose markets it sees and creates the others, and the unique slug of the table stops a run that tries to
 create a market it did not see.
 */
module RollingCycle {
  import opened Wrappers
  import opened RollingWindows
  import opened WindowSlugs
  import MarketProtocol

  datatype Row = Row(slug: string, status: MarketProtocol.MarketStatus)

  /** The markets table, newest first. */
  type Table = seq<Row>

  const PAGE := 50

  predicate InTable(t: Table, slug: string) {
    exists i :: 0 <= i < |t| && t[i].slug == slug
  }

  /** The slugs list_markets returns. */
  function Page(t: Table): set<string> {
    set i | 0 <= i < |t| && i < PAGE :: t[i].slug
  }

  ghost predicate DistinctSlugs(t: Table) {
    forall i, j :: 0 <= i < j < |t| ==> t[i].slug != t[j].slug
  }

  // ------------------------------------------------------------------ one run

  datatype Request = Request(symbol: string, interval: int, lookahead: int, autoOpen: bool)

  datatype Response = Response(created: seq<string>, skipped: seq<string>, openedNow: seq<string>)

  /** A run on its way: the table, the slugs it knows, its report, and whether an insert was refused. */
  datatype Progress = Progress(table: Table, existing: set<string>, response: Response, refused: bool)

  function StartRun(t: Table): Progress {
    Progress(t, Page(t), Response([], [], []), false)
  }

  function NewStatus(autoOpen: bool): MarketProtocol.MarketStatus {
    if autoOpen then MarketProtocol.Open else MarketProtocol.PendingLiquidity
  }

  function Visit(p: Progress, slug: string, autoOpen: bool): Progress {
    if p.refused then p
    else if slug in p.existing then p.(response := p.response.(skipped := p.response.skipped + [slug]))
    else if InTable(p.table, slug) then p.(refused := true)
    else Progress(
      [Row(slug, NewStatus(autoOpen))] + p.table,
      p.existing + {slug},
      Response(p.response.created + [slug], p.response.skipped, p.response.openedNow + if autoOpen then [slug] else []),
      false)
  }

  function VisitAll(t: Table, slugs: seq<string>, autoOpen: bool): Progress {
    if slugs == [] then StartRun(t)
    else Visit(VisitAll(t, slugs[..|slugs| - 1], autoOpen), slugs[|slugs| - 1], autoOpen)
  }

  predicate InBounds(r: Request) {
    1 <= r.interval <= 60 && 1 <= r.lookahead <= 24
  }

  function SlugAt(now: nat, r: Request, offset: nat): string
    requires r.interval > 0
  {
    WindowSlug(r.symbol, r.interval, WindowAt(now, r.interval, offset).start)
  }

  /** The slugs of the windows a run visits. */
  function Slugs(now: nat, r: Request): (ss: seq<string>)
    requires InBounds(r)
    ensures |ss| == r.lookahead
  {
    seq(r.lookahead, i requires 0 <= i < r.lookahead => SlugAt(now, r, i))
  }

  function Cycle(t: Table, now: nat, r: Request): Progress
    requires InBounds(r)
  {
    VisitAll(t, Slugs(now, r), r.autoOpen)
  }

  ghost predicate VisitsAt(r: Request, floor: nat, slugs: seq<string>, i: nat)
    requires r.interval > 0
  {
    i < |slugs| ==> slugs[i] == WindowSlug(r.symbol, r.interval, floor + i * r.interval)
  }

  ghost predicate VisitsFrom(r: Request, floor: nat, slugs: seq<string>)
    requires r.interval > 0
  {
    forall i: nat :: VisitsAt(r, floor, slugs, i)
  }

  lemma SlugsVisitFrom(now: nat, r: Request)
    requires InBounds(r)
    ensures VisitsFrom(r, Floor(now, r.interval), Slugs(now, r))
  {
    forall i: nat ensures VisitsAt(r, Floor(now, r.interval), Slugs(now, r), i) {
      SlugOfWindow(now, r, i);
    }
  }

  lemma SlugOfWindow(now: nat, r: Request, i: nat)
    requires r.interval > 0
    ensures SlugAt(now, r, i) == WindowSlug(r.symbol, r.interval, Floor(now, r.interval) + i * r.interval)
  {
  }

  class RollingMarkets {
    var table: Table

    /** One iteration of the loop; an insert of a slug the table holds fails. */
    method CreateWindow(before: Progress, slug: string, autoOpen: bool) returns (p: Progress)
      requires table == before.table && !before.refused
      modifies this
      ensures p == Visit(before, slug, autoOpen) && table == p.table
    {
      p := before;
      if slug in before.existing {
        p := p.(response := p.response.(skipped := p.response.skipped + [slug]));
        return;
      }
      if InTable(table, slug) { return before.(refused := true); }
      table := [Row(slug, MarketProtocol.PendingLiquidity)] + table;
      var response := before.response.(created := before.response.created + [slug]);
      if autoOpen {
        table := table[0 := Row(slug, MarketProtocol.Open)];
        response := response.(openedNow := response.openedNow + [slug]);
      }
      assert table == [Row(slug, NewStatus(autoOpen))] + before.table;
      p := Progress(table, before.existing + {slug}, response, false);
    }

    method SlugOfOffset(r: Request, floor: nat, offset: nat, ghost slugs: seq<string>) returns (slug: string)
      requires r.interval > 0 && offset < |slugs| && VisitsFrom(r, floor, slugs)
      ensures slug == slugs[offset]
    {
      assert VisitsAt(r, floor, slugs, offset);
      var start := floor + offset * r.interval;
      slug := WindowSlug(r.symbol, r.interval, start);
    }

    method CreateWindows(floor: nat, r: Request, ghost slugs: seq<string>) returns (p: Progress)
      requires r.interval > 0 && r.lookahead == |slugs| && VisitsFrom(r, floor, slugs)
      modifies this
      ensures p == VisitAll(old(table), slugs, r.autoOpen) && table == p.table
    {
      p := StartRun(table);
      var offset := 0;
      while offset < r.lookahead && !p.refused
        invariant 0 <= offset <= r.lookahead
        invariant p == VisitAll(old(table), slugs[..offset], r.autoOpen) && table == p.table
      {
        var slug := SlugOfOffset(r, floor, offset, slugs);
        assert slugs[..offset + 1][..offset] == slugs[..offset];
        p := CreateWindow(p, slug, r.autoOpen);
        offset := offset + 1;
      }
      if p.refused {
        RefusedStays(old(table), slugs, offset, r.autoOpen);
      } else {
        assert slugs[..offset] == slugs;
      }
    }

    /** Markets that were created before an insert is refused stay, as each is committed on its own. */
    method RunUpDownCycle(now: nat, r: Request) returns (response: Result<Response>)
      modifies this
      ensures 1 <= r.interval <= 60 && 1 <= r.lookahead <= 24 <==> response != Failure(Conflict)
      ensures !InBounds(r) ==> table == old(table)
      ensures InBounds(r) ==>
        var p := Cycle(old(table), now, r);
        table == p.table && response == if p.refused then Failure(Invalid) else Success(p.response)
    {
      if r.interval < 1 || r.interval > 60 { return Failure(Conflict); }
      if r.lookahead < 1 || r.lookahead > 24 { return Failure(Conflict); }
      var floor := Floor(now, r.interval);
      SlugsVisitFrom(now, r);
      var p := CreateWindows(floor, r, Slugs(now, r));
      response := if p.refused then Failure(Invalid) else Success(p.response);
    }
  }

  /** A refused run does nothing more. */
  lemma {:induction false} RefusedStays(t: Table, slugs: seq<string>, n: nat, autoOpen: bool)
    requires n <= |slugs| && VisitAll(t, slugs[..n], autoOpen).refused
    ensures VisitAll(t, slugs, autoOpen) == VisitAll(t, slugs[..n], autoOpen)
    decreases |slugs|
  {
    if n == |slugs| {
      assert slugs[..n] == slugs;
    } else {
      var front := slugs[..|slugs| - 1];
      assert front[..n] == slugs[..n];
      RefusedStays(t, front, n, autoOpen);
    }
  }

  // ---------------------------------------------------------- what a run does

  ghost predicate NoRepeats(ss: seq<string>) {
    forall i, j :: 0 <= i < j < |ss| ==> ss[i] != ss[j]
  }

  /** The rows of created markets, newest first. */
  function NewRows(created: seq<string>, autoOpen: bool): Table {
    if created == [] then []
    else [Row(created[|created| - 1], NewStatus(autoOpen))] + NewRows(created[..|created| - 1], autoOpen)
  }

  /** What holds of a run at any moment, whatever it visits. */
  ghost predicate Sound(t: Table, slugs: seq<string>, autoOpen: bool, p: Progress) {
    && p.table == NewRows(p.response.created, autoOpen) + t
    && (forall s :: s in p.existing <==> s in Page(t) || s in p.response.created)
    && (forall s :: s in p.response.created ==> s in slugs && !InTable(t, s))
    && NoRepeats(p.response.created)
    && p.response.openedNow == (if autoOpen then p.response.created else [])
  }

  lemma {:induction false} NewRowsHold(created: seq<string>, autoOpen: bool, t: Table, s: string)
    ensures InTable(NewRows(created, autoOpen) + t, s) <==> s in created || InTable(t, s)
  {
    if created == [] {
      assert NewRows(created, autoOpen) + t == t;
    } else {
      var front, last := created[..|created| - 1], created[|created| - 1];
      NewRowsHold(front, autoOpen, t, s);
      FirstRowHolds(Row(last, NewStatus(autoOpen)), NewRows(front, autoOpen) + t, s);
      assert NewRows(created, autoOpen) + t == [Row(last, NewStatus(autoOpen))] + (NewRows(front, autoOpen) + t);
      assert created == front + [last];
    }
  }

  lemma FirstRowHolds(row: Row, t: Table, s: string)
    ensures InTable([row] + t, s) <==> s == row.slug || InTable(t, s)
  {
    var t' := [row] + t;
    assert t'[0] == row;
    if InTable(t, s) {
      var i :| 0 <= i < |t| && t[i].slug == s;
      assert t'[i + 1] == t[i];
    }
    assert forall i :: 1 <= i < |t'| ==> t'[i] == t[i - 1];
  }

  lemma PageIsInTable(t: Table, s: string)
    requires s in Page(t)
    ensures InTable(t, s)
  {
  }

  /**
   A run leaves every row of the table in place and puts the markets it creates before them, each with a slug of one
   of its windows that the table did not hold; it opens all of them or none.
   */
  lemma {:induction false} CycleIsSound(t: Table, slugs: seq<string>, autoOpen: bool)
    ensures Sound(t, slugs, autoOpen, VisitAll(t, slugs, autoOpen))
  {
    if slugs != [] {
      var front, last := slugs[..|slugs| - 1], slugs[|slugs| - 1];
      CycleIsSound(t, front, autoOpen);
      VisitIsSound(t, front, last, autoOpen, VisitAll(t, front, autoOpen));
      assert front + [last] == slugs;
    }
  }

  lemma NewRowsGrow(created: seq<string>, slug: string, autoOpen: bool, t: Table)
    ensures NewRows(created + [slug], autoOpen) + t
            == [Row(slug, NewStatus(autoOpen))] + (NewRows(created, autoOpen) + t)
  {
    assert (created + [slug])[..|created|] == created;
  }

  lemma MemberOfMore(ss: seq<string>, last: string, s: string)
    ensures s in ss + [last] <==> s in ss || s == last
  {
  }

  lemma VisitIsSound(t: Table, slugs: seq<string>, slug: string, autoOpen: bool, p: Progress)
    requires Sound(t, slugs, autoOpen, p)
    ensures Sound(t, slugs + [slug], autoOpen, Visit(p, slug, autoOpen))
  {
    var created := p.response.created;
    if !p.refused && slug !in p.existing && !InTable(p.table, slug) {
      NewRowsHold(created, autoOpen, t, slug);
      NewRowsGrow(created, slug, autoOpen, t);
      forall s ensures s in created + [slug] <==> s in created || s == slug { MemberOfMore(created, slug, s); }
    }
  }

  lemma KnownIsInTable(t: Table, slugs: seq<string>, autoOpen: bool, p: Progress, s: string)
    requires Sound(t, slugs, autoOpen, p) && s in p.existing
    ensures InTable(p.table, s)
  {
    NewRowsHold(p.response.created, autoOpen, t, s);
    if s in Page(t) { PageIsInTable(t, s); }
  }

  /** The rows of created markets are in the order opposite to the report, and open exactly if that was asked for. */
  lemma {:induction false} NewRowsAre(created: seq<string>, autoOpen: bool, i: nat)
    requires i < |created|
    ensures |NewRows(created, autoOpen)| == |created|
    ensures var row := NewRows(created, autoOpen)[i];
            && row.slug == created[|created| - 1 - i]
            && (if autoOpen then row.status.Open? else row.status.PendingLiquidity?)
  {
    if i > 0 {
      NewRowsAre(created[..|created| - 1], autoOpen, i - 1);
    } else {
      NewRowsLength(created, autoOpen);
    }
  }

  /** A run that is not refused knows a market for every window, and reports each window once. */
  lemma {:induction false} CycleReportsEachWindow(t: Table, slugs: seq<string>, autoOpen: bool)
    ensures var p := VisitAll(t, slugs, autoOpen);
            !p.refused ==>
              && multiset(p.response.created) + multiset(p.response.skipped) == multiset(slugs)
              && forall i :: 0 <= i < |slugs| ==> slugs[i] in p.existing
  {
    if slugs != [] {
      var front := slugs[..|slugs| - 1];
      CycleReportsEachWindow(t, front, autoOpen);
      assert forall i :: 0 <= i < |front| ==> front[i] == slugs[i];
      assert slugs == front + [slugs[|slugs| - 1]];
    }
  }

  /** A run that is not refused leaves a market for each of its windows in the table. */
  lemma CycleCoversItsWindows(t: Table, slugs: seq<string>, autoOpen: bool, i: nat)
    requires !VisitAll(t, slugs, autoOpen).refused && i < |slugs|
    ensures InTable(VisitAll(t, slugs, autoOpen).table, slugs[i])
  {
    CycleIsSound(t, slugs, autoOpen);
    CycleReportsEachWindow(t, slugs, autoOpen);
    KnownIsInTable(t, slugs, autoOpen, VisitAll(t, slugs, autoOpen), slugs[i]);
  }

  /** The table holds the slug, but not among its newest fifty rows, which are all a run sees. */
  predicate Unseen(t: Table, s: string) {
    && (forall i :: 0 <= i < |t| && i < 50 ==> t[i].slug != s)
    && exists k :: 50 <= k < |t| && t[k].slug == s
  }

  lemma VisitIsRefused(t: Table, slugs: seq<string>, slug: string, autoOpen: bool, p: Progress)
    requires Sound(t, slugs, autoOpen, p)
    ensures Visit(p, slug, autoOpen).refused <==> p.refused || Unseen(t, slug)
  {
    NewRowsHold(p.response.created, autoOpen, t, slug);
  }

  /** A run is refused exactly when one of its windows has a market that is not on the page. */
  lemma {:induction false} RefusedExactly(t: Table, slugs: seq<string>, autoOpen: bool)
    ensures VisitAll(t, slugs, autoOpen).refused <==> exists i :: 0 <= i < |slugs| && Unseen(t, slugs[i])
  {
    if slugs != [] {
      var front := slugs[..|slugs| - 1];
      RefusedExactly(t, front, autoOpen);
      CycleIsSound(t, front, autoOpen);
      VisitIsRefused(t, front, slugs[|slugs| - 1], autoOpen, VisitAll(t, front, autoOpen));
      assert forall i :: 0 <= i < |front| ==> front[i] == slugs[i];
    }
  }

  lemma {:induction false} KnownWindowsAreSkipped(t: Table, slugs: seq<string>, autoOpen: bool)
    requires forall s :: s in slugs ==> s in Page(t)
    ensures VisitAll(t, slugs, autoOpen) == Progress(t, Page(t), Response([], slugs, []), false)
  {
    if slugs != [] {
      var front := slugs[..|slugs| - 1];
      KnownWindowsAreSkipped(t, front, autoOpen);
      assert slugs == front + [slugs[|slugs| - 1]];
    }
  }

  // -------------------------------------------------------------- running again

  lemma SameFloorSameSlugs(now: nat, later: nat, r: Request)
    requires InBounds(r) && Floor(now, r.interval) == Floor(later, r.interval)
    ensures Slugs(now, r) == Slugs(later, r)
  {
    forall i | 0 <= i < r.lookahead ensures SlugAt(now, r, i) == SlugAt(later, r, i) {
      assert WindowAt(now, r.interval, i) == WindowAt(later, r.interval, i);
    }
  }

  /** The run did nothing but skip its windows. */
  predicate SkippedAll(t: Table, slugs: seq<string>, p: Progress) {
    p == Progress(t, Page(t), Response([], slugs, []), false)
  }

  /** Every slug is on the page. */
  ghost predicate AllOnPage(t: Table, slugs: seq<string>) {
    forall i :: 0 <= i < |slugs| ==> slugs[i] in Page(t)
  }

  /**
   A second run in the same interval is idle exactly when the page still shows all its windows' markets; otherwise
   an insert is refused.
   */
  lemma CycleIsIdleExactly(t: Table, now: nat, later: nat, r: Request)
    requires InBounds(r) && Floor(now, r.interval) == Floor(later, r.interval) && !Cycle(t, now, r).refused
    ensures var t' := Cycle(t, now, r).table;
            && (SkippedAll(t', Slugs(later, r), Cycle(t', later, r)) <==> AllOnPage(t', Slugs(later, r)))
            && (Cycle(t', later, r).refused <==> !AllOnPage(t', Slugs(later, r)))
  {
    var slugs := Slugs(now, r);
    SameFloorSameSlugs(now, later, r);
    IdleExactly(t, slugs, r.autoOpen);
  }

  lemma IdleExactly(t: Table, slugs: seq<string>, autoOpen: bool)
    requires !VisitAll(t, slugs, autoOpen).refused
    ensures var t' := VisitAll(t, slugs, autoOpen).table;
            && (SkippedAll(t', slugs, VisitAll(t', slugs, autoOpen)) <==> AllOnPage(t', slugs))
            && (VisitAll(t', slugs, autoOpen).refused <==> !AllOnPage(t', slugs))
  {
    var t' := VisitAll(t, slugs, autoOpen).table;
    RefusedExactly(t', slugs, autoOpen);
    if AllOnPage(t', slugs) {
      KnownWindowsAreSkipped(t', slugs, autoOpen);
    } else {
      var i :| 0 <= i < |slugs| && slugs[i] !in Page(t');
      CycleCoversItsWindows(t, slugs, autoOpen, i);
      assert Unseen(t', slugs[i]);
    }
  }

  lemma ShortTableIsOnPage(t: Table, s: string)
    requires |t| <= PAGE && InTable(t, s)
    ensures s in Page(t)
  {
  }

  lemma {:induction false} NewRowsLength(created: seq<string>, autoOpen: bool)
    ensures |NewRows(created, autoOpen)| == |created|
  {
    if created != [] { NewRowsLength(created[..|created| - 1], autoOpen); }
  }

  lemma CreatedAreAtMost(created: seq<string>, skipped: seq<string>, slugs: seq<string>)
    requires multiset(created) + multiset(skipped) == multiset(slugs)
    ensures |created| <= |slugs|
  {
    assert |multiset(created) + multiset(skipped)| == |multiset(slugs)|;
  }

  /** A table with room for the windows on the page neither refuses the run nor loses sight of its markets. */
  lemma ShortTableKeepsSight(t: Table, slugs: seq<string>, autoOpen: bool)
    requires |t| + |slugs| <= 50
    ensures var p := VisitAll(t, slugs, autoOpen); !p.refused && AllOnPage(p.table, slugs)
  {
    var p := VisitAll(t, slugs, autoOpen);
    RefusedExactly(t, slugs, autoOpen);
    CycleIsSound(t, slugs, autoOpen);
    CycleReportsEachWindow(t, slugs, autoOpen);
    CreatedAreAtMost(p.response.created, p.response.skipped, slugs);
    NewRowsLength(p.response.created, autoOpen);
    forall i | 0 <= i < |slugs| ensures slugs[i] in Page(p.table) {
      CycleCoversItsWindows(t, slugs, autoOpen, i);
      ShortTableIsOnPage(p.table, slugs[i]);
    }
  }

  /** While the whole table fits on the page, runs are never refused and a second one is idle. */
  lemma CycleIsIdempotent(t: Table, now: nat, later: nat, r: Request)
    requires InBounds(r) && Floor(now, r.interval) == Floor(later, r.interval) && |t| + r.lookahead <= 50
    ensures var p := Cycle(t, now, r);
            !p.refused && SkippedAll(p.table, Slugs(later, r), Cycle(p.table, later, r))
  {
    ShortTableKeepsSight(t, Slugs(now, r), r.autoOpen);
    SameFloorSameSlugs(now, later, r);
    CycleIsIdleExactly(t, now, later, r);
  }

  /** On a full page it is not: creating the next window's market pushes the current one's off the page. */
  lemma FullPageRefusesSecondRun(t: Table, now: nat, r: Request)
    requires InBounds(r) && r.lookahead == 2 && |t| == 50 && DistinctSlugs(t)
    requires t[49].slug == SlugAt(now, r, 0) && !InTable(t, SlugAt(now, r, 1))
    ensures var p := Cycle(t, now, r);
            !p.refused && p.response.created == [SlugAt(now, r, 1)] && Cycle(p.table, now, r).refused
  {
    var slugs := Slugs(now, r);
    assert slugs == [SlugAt(now, r, 0), SlugAt(now, r, 1)];
    PushedOffPage(t, SlugAt(now, r, 0), SlugAt(now, r, 1), r.autoOpen);
  }

  lemma PushedOffPage(t: Table, s0: string, s1: string, autoOpen: bool)
    requires |t| == PAGE && DistinctSlugs(t) && t[PAGE - 1].slug == s0 && !InTable(t, s1)
    ensures var p := VisitAll(t, [s0, s1], autoOpen);
            !p.refused && p.response.created == [s1] && VisitAll(p.table, [s0, s1], autoOpen).refused
  {
    assert [s0, s1][..1] == [s0] && [s0][..0] == [];
    assert s0 in Page(t);
    assert VisitAll(t, [], autoOpen) == StartRun(t);
    var first := VisitAll(t, [s0], autoOpen);
    assert first == Visit(VisitAll(t, [s0][..0], autoOpen), [s0][0], autoOpen);
    if s1 in Page(t) { PageIsInTable(t, s1); }
    var p := VisitAll(t, [s0, s1], autoOpen);
    var t' := p.table;
    assert t' == [Row(s1, NewStatus(autoOpen))] + t;
    assert t'[PAGE].slug == s0;
    forall i | 0 <= i < PAGE ensures t'[i].slug != s0 {
      if i > 0 { assert t'[i] == t[i - 1]; } else { assert s0 != s1; }
    }
    RefusedExactly(t', [s0, s1], autoOpen);
    assert Unseen(t', [s0, s1][0]);
  }

  /** The slug names a window of the symbol that contains the given time. */
  ghost predicate IsAbout(slug: string, symbol: string, interval: nat, now: nat) {
    exists start: nat ::
      && slug == WindowSlug(symbol, interval, start)
      && start * 60_000_000 <= now < (start + interval) * 60_000_000
  }

  ghost predicate HasMarketFor(t: Table, symbol: string, interval: nat, now: nat) {
    exists k :: 0 <= k < |t| && IsAbout(t[k].slug, symbol, interval, now)
  }

  /**
   After a run that is not refused the table holds a market for the time of the run, and one for each of the times
   that are one interval, two and so on up to the lookahead later.
   */
  lemma CurrentTimeHasMarket(t: Table, now: nat, r: Request, i: nat)
    requires InBounds(r) && i < r.lookahead && !Cycle(t, now, r).refused
    ensures HasMarketFor(Cycle(t, now, r).table, r.symbol, r.interval, now + i * (r.interval * 60_000_000))
  {
    var slugs, t' := Slugs(now, r), Cycle(t, now, r).table;
    CycleCoversItsWindows(t, slugs, r.autoOpen, i);
    var k :| 0 <= k < |t'| && t'[k].slug == slugs[i];
    SlugOfWindow(now, r, i);
    FirstWindowContainsNow(now, r.interval);
    ShiftedWindow(Floor(now, r.interval), now, r.interval, i);
    assert IsAbout(t'[k].slug, r.symbol, r.interval, now + i * (r.interval * 60_000_000));
  }

  lemma ShiftedWindow(start: nat, now: nat, interval: nat, i: nat)
    requires start * 60_000_000 <= now < (start + interval) * 60_000_000
    ensures var start' := start + i * interval;
            start' * 60_000_000 <= now + i * (interval * 60_000_000) < (start' + interval) * 60_000_000
  {
    assert (i * interval) * 60_000_000 == i * (interval * 60_000_000);
  }

  // -------------------------------------------------------------- many runs

  /** Runs of the cycle, for any requests, and markets that other parts of the program insert in between. */
  datatype Happening =
    | CycleRun(now: nat, request: Request)
    | OtherMarket(slug: string, status: MarketProtocol.MarketStatus)

  /** The table, and every slug that runs of the cycle created, in order. */
  datatype History = History(table: Table, created: seq<string>)

  function Happen(h: History, e: Happening): History {
    match e
    case CycleRun(now, r) =>
      if !InBounds(r) then h
      else
        var p := Cycle(h.table, now, r);
        History(p.table, h.created + p.response.created)
    case OtherMarket(slug, status) =>
      if InTable(h.table, slug) then h else History([Row(slug, status)] + h.table, h.created)
  }

  function HappenAll(h: History, es: seq<Happening>): History
    decreases |es|
  {
    if es == [] then h else HappenAll(Happen(h, es[0]), es[1..])
  }

  /** No slug was created twice or stands twice in the table, and the created ones are among the given. */
  ghost predicate CreatedOnce(h: History, good: iset<string>) {
    && NoRepeats(h.created) && DistinctSlugs(h.table)
    && forall s :: s in h.created ==> InTable(h.table, s) && s in good
  }

  lemma NoRepeatsAppend(a: seq<string>, b: seq<string>)
    requires NoRepeats(a) && NoRepeats(b) && forall s :: s in a ==> s !in b
    ensures NoRepeats(a + b)
  {
    forall i, j | 0 <= i < j < |a + b| ensures (a + b)[i] != (a + b)[j] {
      if i < |a| <= j { assert a[i] in a && b[j - |a|] in b; }
    }
  }

  lemma FirstRowIsDistinct(row: Row, t: Table)
    requires DistinctSlugs(t) && !InTable(t, row.slug)
    ensures DistinctSlugs([row] + t)
  {
    forall i, j | 0 <= i < j < |[row] + t| ensures ([row] + t)[i].slug != ([row] + t)[j].slug {
      assert ([row] + t)[j] == t[j - 1];
    }
  }

  lemma {:induction false} NewRowsAreDistinct(created: seq<string>, autoOpen: bool, t: Table)
    requires DistinctSlugs(t) && NoRepeats(created) && forall s :: s in created ==> !InTable(t, s)
    ensures DistinctSlugs(NewRows(created, autoOpen) + t)
  {
    if created == [] {
      assert NewRows(created, autoOpen) + t == t;
    } else {
      var front, last := created[..|created| - 1], created[|created| - 1];
      assert created == front + [last];
      assert last !in front;
      NewRowsAreDistinct(front, autoOpen, t);
      NewRowsHold(front, autoOpen, t, last);
      FirstRowIsDistinct(Row(last, NewStatus(autoOpen)), NewRows(front, autoOpen) + t);
      assert NewRows(created, autoOpen) + t == [Row(last, NewStatus(autoOpen))] + (NewRows(front, autoOpen) + t);
    }
  }

  lemma RunCreatesOnce(h: History, slugs: seq<string>, autoOpen: bool, good: iset<string>)
    requires CreatedOnce(h, good) && forall s :: s in slugs ==> s in good
    ensures var p := VisitAll(h.table, slugs, autoOpen);
            CreatedOnce(History(p.table, h.created + p.response.created), good)
  {
    var p := VisitAll(h.table, slugs, autoOpen);
    CycleIsSound(h.table, slugs, autoOpen);
    NoRepeatsAppend(h.created, p.response.created);
    NewRowsAreDistinct(p.response.created, autoOpen, h.table);
    forall s | s in h.created + p.response.created ensures InTable(p.table, s) {
      NewRowsHold(p.response.created, autoOpen, h.table, s);
    }
  }

  /** The slugs of the windows that the runs among the happenings visit. */
  ghost function WindowsOf(es: seq<Happening>): iset<string> {
    iset s: string | IsWindowOf(es, s)
  }

  ghost predicate IsWindowOf(es: seq<Happening>, s: string) {
    exists k, i: nat :: VisitedBy(es, k, i, s)
  }

  predicate VisitedBy(es: seq<Happening>, k: int, i: nat, s: string) {
    && 0 <= k < |es| && es[k].CycleRun? && InBounds(es[k].request)
    && i < es[k].request.lookahead && s == SlugAt(es[k].now, es[k].request, i)
  }

  lemma HappenCreatesOnce(h: History, es: seq<Happening>, k: nat)
    requires k < |es| && CreatedOnce(h, WindowsOf(es))
    ensures CreatedOnce(Happen(h, es[k]), WindowsOf(es))
  {
    match es[k]
    case CycleRun(now, r) =>
      if InBounds(r) {
        var slugs := Slugs(now, r);
        forall s | s in slugs ensures s in WindowsOf(es) {
          var i :| 0 <= i < |slugs| && slugs[i] == s;
          assert VisitedBy(es, k, i, s);
        }
        RunCreatesOnce(h, slugs, r.autoOpen, WindowsOf(es));
      }
    case OtherMarket(slug, status) =>
      if !InTable(h.table, slug) {
        FirstRowIsDistinct(Row(slug, status), h.table);
        forall s | s in h.created ensures InTable([Row(slug, status)] + h.table, s) {
          FirstRowHolds(Row(slug, status), h.table, s);
        }
      }
  }

  lemma {:induction false} RunsCreateOnceFrom(h: History, es: seq<Happening>, n: nat)
    requires n <= |es| && CreatedOnce(h, WindowsOf(es))
    ensures CreatedOnce(HappenAll(h, es[n..]), WindowsOf(es))
    decreases |es| - n
  {
    if n < |es| {
      HappenCreatesOnce(h, es, n);
      RunsCreateOnceFrom(Happen(h, es[n]), es, n + 1);
      assert es[n..][1..] == es[n + 1..];
    }
  }

  /**
   Over any runs, whatever each of them asks for and whatever else is inserted, each slug is created at most once, and
   only slugs of windows that some run visited are.
   */
  lemma RunsCreateOnce(t: Table, es: seq<Happening>)
    requires DistinctSlugs(t)
    ensures CreatedOnce(HappenAll(History(t, []), es), WindowsOf(es))
  {
    RunsCreateOnceFrom(History(t, []), es, 0);
    assert es[0..] == es;
  }

  /**
   Whatever the runs, two markets they created never cover overlapping times of one asset at one interval that
   divides the day: all windows with those slugs are disjoint.
   */
  lemma CreatedMarketsNeverOverlap(t: Table, es: seq<Happening>, a: nat, b: nat,
                                   now: nat, r: Request, i: nat, now': nat, r': Request, j: nat)
    requires DistinctSlugs(t) && a < b < |HappenAll(History(t, []), es).created|
    requires r.interval > 0 && DAY % r.interval == 0
    requires r'.interval == r.interval && Asset(r'.symbol) == Asset(r.symbol)
    requires HappenAll(History(t, []), es).created[a] == SlugAt(now, r, i)
    requires HappenAll(History(t, []), es).created[b] == SlugAt(now', r', j)
    ensures Disjoint(WindowAt(now, r.interval, i), WindowAt(now', r.interval, j))
  {
    RunsCreateOnce(t, es);
    RunsAgree(now, now', r.interval, i, j);
  }
}
