/**
 The sliding-window rate limiter. A window keeps only the recent accepted hits; the properties are about the
 whole history of accepted hits, which no object stores.
 */
module RateLimit {
  // -------------------------------------------------------------- one window

  /** [t for t in timestamps if t > cutoff] */
  function Prune(ts: seq<real>, cutoff: real): seq<real> {
    if ts == [] then []
    else if ts[|ts| - 1] > cutoff then Prune(ts[..|ts| - 1], cutoff) + [ts[|ts| - 1]]
    else Prune(ts[..|ts| - 1], cutoff)
  }

  datatype HitResult = HitResult(kept: seq<real>, accepted: bool)

  function HitAt(kept: seq<real>, now: real, limit: int, window: real): HitResult {
    var recent := Prune(kept, now - window);
    if |recent| >= limit then HitResult(recent, false) else HitResult(recent + [now], true)
  }

  class SlidingWindow {
    var timestamps: seq<real>

    constructor ()
      ensures timestamps == []
    {
      timestamps := [];
    }

    method Hit(now: real, limit: int, window: real) returns (accepted: bool)
      modifies this
      ensures HitAt(old(timestamps), now, limit, window) == HitResult(timestamps, accepted)
    {
      var cutoff := now - window;
      timestamps := Prune(timestamps, cutoff);
      if |timestamps| >= limit { return false; }
      timestamps := timestamps + [now];
      return true;
    }
  }

  // ------------------------------------------------------------ whole history

  /** The calls on one window, the latest outermost. */
  datatype Calls = Start | Call(earlier: Calls, now: real)

  /** The clock never runs backwards. */
  predicate Monotone(c: Calls) {
    c.Call? ==> Monotone(c.earlier) && (c.earlier.Call? ==> c.earlier.now <= c.now)
  }

  /** The kept list after the calls. */
  function Kept(c: Calls, limit: int, window: real): seq<real>
    decreases c, 2
  {
    match c
    case Start => []
    case Call(_, now) =>
      if LastAccepted(c, limit, window) then Recent(c, limit, window) + [now] else Recent(c, limit, window)
  }

  /** What the latest call finds after pruning. */
  function Recent(c: Calls, limit: int, window: real): seq<real>
    requires c.Call?
    decreases c, 0
  {
    Prune(Kept(c.earlier, limit, window), c.now - window)
  }

  /** Was the latest call accepted? */
  predicate LastAccepted(c: Calls, limit: int, window: real)
    requires c.Call?
    decreases c, 1
  {
    |Recent(c, limit, window)| < limit
  }

  /** The calls replay what the object does. */
  lemma CallIsHit(c: Calls, now: real, limit: int, window: real)
    ensures HitAt(Kept(c, limit, window), now, limit, window)
            == HitResult(Kept(Call(c, now), limit, window), LastAccepted(Call(c, now), limit, window))
  {
  }

  /** Every hit the limiter accepted, oldest first: what an unbounded log would hold. */
  ghost function Log(c: Calls, limit: int, window: real): seq<real> {
    match c
    case Start => []
    case Call(earlier, now) =>
      if LastAccepted(c, limit, window) then Log(earlier, limit, window) + [now] else Log(earlier, limit, window)
  }

  lemma PruneAppends(ts: seq<real>, t: real, cutoff: real)
    ensures Prune(ts + [t], cutoff) == if t > cutoff then Prune(ts, cutoff) + [t] else Prune(ts, cutoff)
  {
    assert (ts + [t])[..|ts|] == ts;
  }

  /** A later cutoff subsumes an earlier one. */
  lemma {:induction false} PruneTwice(ts: seq<real>, early: real, late: real)
    requires early <= late
    ensures Prune(Prune(ts, early), late) == Prune(ts, late)
  {
    if ts != [] {
      var t := ts[|ts| - 1];
      PruneTwice(ts[..|ts| - 1], early, late);
      PruneAppends(Prune(ts[..|ts| - 1], early), t, late);
    }
  }

  lemma PruneKept(kept: seq<real>, log: seq<real>, early: real, late: real)
    requires kept == Prune(log, early) && early <= late
    ensures Prune(kept, late) == Prune(log, late)
  {
    PruneTwice(log, early, late);
  }

  /** What a call finds is the log, filtered by its cutoff. */
  lemma {:induction false} RecentIsRecentLog(c: Calls, limit: int, window: real)
    requires c.Call? && Monotone(c) && window > 0.0
    ensures Recent(c, limit, window) == Prune(Log(c.earlier, limit, window), c.now - window)
    decreases c, 0
  {
    match c.earlier
    case Start =>
    case Call(_, before) =>
      KeptIsRecentLog(c.earlier, limit, window);
      PruneKept(Kept(c.earlier, limit, window), Log(c.earlier, limit, window), before - window, c.now - window);
  }

  /** The pruned list refines the log: it is the log filtered by the cutoff of the last call. */
  lemma {:induction false} KeptIsRecentLog(c: Calls, limit: int, window: real)
    requires c.Call? && Monotone(c) && window > 0.0
    ensures Kept(c, limit, window) == Prune(Log(c, limit, window), c.now - window)
    decreases c, 1
  {
    RecentIsRecentLog(c, limit, window);
    PruneAppends(Log(c.earlier, limit, window), c.now, c.now - window);
  }

  /** Number of logged hits in the half-open interval (from, to]. */
  ghost function CountIn(log: seq<real>, from: real, to: real): nat {
    if log == [] then 0
    else CountIn(log[..|log| - 1], from, to) + if from < log[|log| - 1] <= to then 1 else 0
  }

  lemma CountAppends(log: seq<real>, t: real, from: real, to: real)
    ensures CountIn(log + [t], from, to) == CountIn(log, from, to) + if from < t <= to then 1 else 0
  {
    assert (log + [t])[..|log|] == log;
  }

  lemma {:induction false} CountBelowPrune(log: seq<real>, from: real, to: real, cutoff: real)
    requires cutoff <= from
    ensures CountIn(log, from, to) <= |Prune(log, cutoff)|
  {
    if log != [] { CountBelowPrune(log[..|log| - 1], from, to, cutoff); }
  }

  /**
   The promise of the limiter: with a clock that never runs backwards, any interval of length `window`
   (open at its start) holds at most `limit` accepted hits, over the whole run.
   */
  lemma {:induction false} NeverMoreThanLimit(c: Calls, limit: nat, window: real, from: real)
    requires Monotone(c) && window > 0.0
    ensures CountIn(Log(c, limit, window), from, from + window) <= limit
  {
    if c.Call? {
      var log := Log(c.earlier, limit, window);
      NeverMoreThanLimit(c.earlier, limit, window, from);
      CountAppends(log, c.now, from, from + window);
      if LastAccepted(c, limit, window) && from < c.now <= from + window {
        RecentIsRecentLog(c, limit, window);
        CountBelowPrune(log, from, from + window, c.now - window);
      }
    }
  }

  // --------------------------------------------------------- closed intervals

  /** Number of logged hits in the closed interval [from, to]. */
  ghost function CountClosed(log: seq<real>, from: real, to: real): nat {
    if log == [] then 0
    else CountClosed(log[..|log| - 1], from, to) + if from <= log[|log| - 1] <= to then 1 else 0
  }

  lemma {:induction false} ClosedIsTwoIntervals(log: seq<real>, from: real, window: real)
    requires window > 0.0
    ensures CountClosed(log, from, from + window)
            <= CountIn(log, from, from + window) + CountIn(log, from - window, from - window + window)
  {
    if log != [] { ClosedIsTwoIntervals(log[..|log| - 1], from, window); }
  }

  /** With both ends included an interval holds at most twice the limit. */
  lemma NeverMoreThanTwiceLimit(c: Calls, limit: nat, window: real, from: real)
    requires Monotone(c) && window > 0.0
    ensures CountClosed(Log(c, limit, window), from, from + window) <= 2 * limit
  {
    ClosedIsTwoIntervals(Log(c, limit, window), from, window);
    NeverMoreThanLimit(c, limit, window, from);
    NeverMoreThanLimit(c, limit, window, from - window);
  }

  /** n further calls at one instant. */
  function Burst(c: Calls, now: real, n: nat): Calls {
    if n == 0 then c else Call(Burst(c, now, n - 1), now)
  }

  function Copies(t: real, n: nat): (ts: seq<real>)
    ensures |ts| == n
  {
    if n == 0 then [] else Copies(t, n - 1) + [t]
  }

  lemma {:induction false} PruneCopies(t: real, n: nat, cutoff: real)
    ensures Prune(Copies(t, n), cutoff) == if t > cutoff then Copies(t, n) else []
  {
    if n > 0 {
      PruneCopies(t, n - 1, cutoff);
      PruneAppends(Copies(t, n - 1), t, cutoff);
    }
  }

  /** A burst of up to `limit` calls is accepted when its first call finds nothing recent. */
  lemma {:induction false} BurstIsAccepted(c: Calls, now: real, limit: nat, window: real, n: nat)
    requires window > 0.0 && n <= limit && Prune(Kept(c, limit, window), now - window) == []
    ensures Log(Burst(c, now, n), limit, window) == Log(c, limit, window) + Copies(now, n)
    ensures Prune(Kept(Burst(c, now, n), limit, window), now - window) == Copies(now, n)
  {
    if n > 0 {
      BurstIsAccepted(c, now, limit, window, n - 1);
      BurstStep(Log(c, limit, window), Burst(c, now, n - 1), now, limit, window, n);
    }
  }

  lemma BurstStep(log: seq<real>, c: Calls, now: real, limit: nat, window: real, n: nat)
    requires window > 0.0 && 0 < n <= limit && Log(c, limit, window) == log + Copies(now, n - 1)
    requires Prune(Kept(c, limit, window), now - window) == Copies(now, n - 1)
    ensures Log(Call(c, now), limit, window) == log + Copies(now, n)
    ensures Prune(Kept(Call(c, now), limit, window), now - window) == Copies(now, n)
  {
    AcceptedStep(c, now, limit, window);
    AppendCopy(log, now, n);
    PruneCopies(now, n, now - window);
  }

  lemma AppendCopy(log: seq<real>, t: real, n: nat)
    requires n > 0
    ensures log + Copies(t, n) == (log + Copies(t, n - 1)) + [t]
  {
  }

  lemma AcceptedStep(c: Calls, now: real, limit: int, window: real)
    requires |Prune(Kept(c, limit, window), now - window)| < limit
    ensures Log(Call(c, now), limit, window) == Log(c, limit, window) + [now]
    ensures Kept(Call(c, now), limit, window) == Prune(Kept(c, limit, window), now - window) + [now]
  {
  }

  lemma {:induction false} CountCopies(log: seq<real>, t: real, n: nat, from: real, to: real)
    requires from <= t <= to
    ensures CountClosed(log + Copies(t, n), from, to) == CountClosed(log, from, to) + n
  {
    if n == 0 {
      assert log + Copies(t, n) == log;
    } else {
      CountCopies(log, t, n - 1, from, to);
      AppendCopy(log, t, n);
      assert (log + Copies(t, n))[..|log| + n - 1] == log + Copies(t, n - 1);
    }
  }

  /** And twice the limit it can hold, for every limit: full bursts a window apart are accepted to the last call. */
  lemma ClosedIntervalReachesTwiceLimit(limit: nat, window: real)
    requires window > 0.0 && limit > 0
    ensures var c := Burst(Burst(Start, 0.0, limit), window, limit);
            && Monotone(c)
            && Log(c, limit, window) == Copies(0.0, limit) + Copies(window, limit)
            && CountClosed(Log(c, limit, window), 0.0, 0.0 + window) == 2 * limit
  {
    var first := Burst(Start, 0.0, limit);
    BurstIsAccepted(Start, 0.0, limit, window, limit);
    SecondBurst(first, limit, window);
    BurstIsMonotone(Start, 0.0, limit);
    BurstIsMonotone(first, window, limit);
    CountTwoBursts(limit, window);
  }

  lemma SecondBurst(first: Calls, limit: nat, window: real)
    requires window > 0.0 && Log(first, limit, window) == [] + Copies(0.0, limit)
    requires Prune(Kept(first, limit, window), 0.0 - window) == Copies(0.0, limit)
    ensures Log(Burst(first, window, limit), limit, window) == Copies(0.0, limit) + Copies(window, limit)
  {
    PruneTwice(Kept(first, limit, window), 0.0 - window, window - window);
    PruneCopies(0.0, limit, window - window);
    BurstIsAccepted(first, window, limit, window, limit);
    assert [] + Copies(0.0, limit) == Copies(0.0, limit);
  }

  lemma CountTwoBursts(limit: nat, window: real)
    requires window > 0.0
    ensures CountClosed(Copies(0.0, limit) + Copies(window, limit), 0.0, 0.0 + window) == 2 * limit
  {
    CountCopies([], 0.0, limit, 0.0, 0.0 + window);
    CountCopies(Copies(0.0, limit), window, limit, 0.0, 0.0 + window);
    assert [] + Copies(0.0, limit) == Copies(0.0, limit);
  }

  lemma {:induction false} BurstIsMonotone(c: Calls, now: real, n: nat)
    requires Monotone(c) && (c.Call? ==> c.now <= now)
    ensures Monotone(Burst(c, now, n)) && (n > 0 ==> Burst(c, now, n).Call? && Burst(c, now, n).now == now)
  {
    if n > 0 { BurstIsMonotone(c, now, n - 1); }
  }

  lemma {:induction false} PruneFits(ts: seq<real>, cutoff: real)
    ensures |Prune(ts, cutoff)| <= |ts|
    ensures (exists i :: 0 <= i < |ts| && ts[i] <= cutoff) ==> |Prune(ts, cutoff)| < |ts|
    ensures (forall i :: 0 <= i < |ts| ==> ts[i] > cutoff) ==> Prune(ts, cutoff) == ts
  {
    if ts != [] {
      PruneFits(ts[..|ts| - 1], cutoff);
      assert ts == ts[..|ts| - 1] + [ts[|ts| - 1]];
    }
  }

  /** The kept list never holds more than `limit` entries; after a rejection it is exactly full. */
  lemma {:induction false} RejectionMeansFull(c: Calls, limit: nat, window: real)
    ensures |Kept(c, limit, window)| <= limit
    ensures c.Call? && !LastAccepted(c, limit, window) ==> |Kept(c, limit, window)| == limit
  {
    if c.Call? {
      RejectionMeansFull(c.earlier, limit, window);
      PruneFits(Kept(c.earlier, limit, window), c.now - window);
    }
  }

  // ----------------------------------------------------------- retry advice

  /** int(x): truncation toward zero. */
  function Truncate(x: real): int {
    if x >= 0.0 then x.Floor else -((-x).Floor)
  }

  const WINDOW_SECONDS := 60.0

  /** retry_after_seconds of the 429 response: whole seconds until the oldest kept hit leaves the window. */
  function RetryAfter(kept: seq<real>, now: real): int
    requires kept != []
  {
    var remaining := Truncate(WINDOW_SECONDS - (now - kept[0]));
    if remaining > 1 then remaining else 1
  }

  /** In ascending order up to `top`. */
  predicate AscendingTo(ts: seq<real>, top: real) {
    ts == [] || (ts[|ts| - 1] <= top && AscendingTo(ts[..|ts| - 1], ts[|ts| - 1]))
  }

  lemma {:induction false} PruneKeepsOrder(ts: seq<real>, top: real, cutoff: real)
    requires AscendingTo(ts, top)
    ensures AscendingTo(Prune(ts, cutoff), top)
    ensures forall i :: 0 <= i < |Prune(ts, cutoff)| ==> Prune(ts, cutoff)[i] > cutoff
  {
    if ts != [] {
      var t := ts[|ts| - 1];
      PruneKeepsOrder(ts[..|ts| - 1], t, cutoff);
      assert (Prune(ts[..|ts| - 1], cutoff) + [t])[..|Prune(ts[..|ts| - 1], cutoff)|] == Prune(ts[..|ts| - 1], cutoff);
    }
  }

  lemma {:induction false} KeptIsOrdered(c: Calls, limit: int, window: real)
    requires c.Call? && Monotone(c) && window > 0.0
    ensures AscendingTo(Kept(c, limit, window), c.now)
    ensures forall i :: 0 <= i < |Kept(c, limit, window)| ==> Kept(c, limit, window)[i] > c.now - window
  {
    var before := Kept(c.earlier, limit, window);
    if c.earlier.Call? {
      KeptIsOrdered(c.earlier, limit, window);
      assert AscendingTo(before, c.now);
    }
    PruneKeepsOrder(before, c.now, c.now - window);
    AppendKeepsOrder(Recent(c, limit, window), c.now, c.now - window);
  }

  lemma AppendKeepsOrder(ts: seq<real>, t: real, cutoff: real)
    requires AscendingTo(ts, t) && cutoff < t && forall i :: 0 <= i < |ts| ==> ts[i] > cutoff
    ensures AscendingTo(ts + [t], t) && forall i :: 0 <= i < |ts + [t]| ==> (ts + [t])[i] > cutoff
  {
    assert (ts + [t])[..|ts|] == ts;
  }

  lemma {:induction false} FirstIsOldest(ts: seq<real>, top: real)
    requires AscendingTo(ts, top) && ts != []
    ensures forall i :: 0 <= i < |ts| ==> ts[0] <= ts[i] <= top
  {
    if |ts| > 1 {
      FirstIsOldest(ts[..|ts| - 1], ts[|ts| - 1]);
      assert ts == ts[..|ts| - 1] + [ts[|ts| - 1]];
    }
  }

  /** A hit on a full list is accepted exactly when the oldest entry has left the window. */
  lemma AcceptedWhenOldestLeaves(kept: seq<real>, top: real, limit: nat, window: real, later: real)
    requires AscendingTo(kept, top) && |kept| == limit && limit > 0
    ensures |Prune(kept, later - window)| < limit <==> kept[0] <= later - window
  {
    FirstIsOldest(kept, top);
    PruneFits(kept, later - window);
  }

  /** More calls after a run. */
  function Extend(c: Calls, more: Calls): Calls {
    match more
    case Start => c
    case Call(earlier, now) => Call(Extend(c, earlier), now)
  }

  /** All of the further calls are rejected. */
  predicate AllRejected(c: Calls, more: Calls, limit: int, window: real) {
    more.Call? ==> AllRejected(c, more.earlier, limit, window) && !LastAccepted(Extend(c, more), limit, window)
  }

  /** Rejected attempts leave what a later hit will see unchanged. */
  lemma {:induction false} RejectionsChangeNothing(c: Calls, more: Calls, limit: nat, window: real, later: real)
    requires AllRejected(c, more, limit, window) && Monotone(Call(Extend(c, more), later))
    ensures Prune(Kept(Extend(c, more), limit, window), later - window) == Prune(Kept(c, limit, window), later - window)
  {
    if more.Call? {
      RejectionsChangeNothing(c, more.earlier, limit, window, more.now);
      RejectionsChangeNothing(c, more.earlier, limit, window, later);
      PruneTwice(Kept(Extend(c, more.earlier), limit, window), more.now - window, later - window);
    }
  }

  /**
   After a rejection, a client with no accepted hit in between is accepted at time `later` exactly when
   `later` is at least the oldest kept hit plus the window.
   */
  lemma AcceptedAfterWaiting(c: Calls, more: Calls, limit: nat, window: real, later: real)
    requires c.Call? && limit > 0 && window > 0.0 && !LastAccepted(c, limit, window)
    requires Monotone(c) && AllRejected(c, more, limit, window) && Monotone(Call(Extend(c, more), later))
    ensures var kept := Kept(c, limit, window);
            && |kept| == limit
            && (LastAccepted(Call(Extend(c, more), later), limit, window) <==> kept[0] <= later - window)
  {
    KeptIsOrdered(c, limit, window);
    RejectionMeansFull(c, limit, window);
    RejectionsChangeNothing(c, more, limit, window, later);
    AcceptedWhenOldestLeaves(Kept(c, limit, window), c.now, limit, window, later);
  }

  /** Waiting one second more than the reported time is always enough. */
  lemma ReportedTimePlusOneSuffices(c: Calls, more: Calls, limit: nat, later: real)
    requires c.Call? && limit > 0 && !LastAccepted(c, limit, WINDOW_SECONDS)
    requires Monotone(c) && AllRejected(c, more, limit, WINDOW_SECONDS) && Monotone(Call(Extend(c, more), later))
    ensures |Kept(c, limit, WINDOW_SECONDS)| == limit
    ensures later >= c.now + RetryAfter(Kept(c, limit, WINDOW_SECONDS), c.now) as real + 1.0
            ==> LastAccepted(Call(Extend(c, more), later), limit, WINDOW_SECONDS)
  {
    AcceptedAfterWaiting(c, more, limit, WINDOW_SECONDS, later);
  }

  /**
   Waiting exactly the reported time is enough precisely when no fraction of a second was cut off, or the
   oldest hit leaves the window within the minimum of one second.
   */
  lemma ReportedTimeSufficesExactly(c: Calls, limit: nat)
    requires c.Call? && limit > 0 && Monotone(c) && !LastAccepted(c, limit, WINDOW_SECONDS)
    ensures var kept := Kept(c, limit, WINDOW_SECONDS);
            && |kept| == limit
            && (var left := WINDOW_SECONDS - (c.now - kept[0]);
                LastAccepted(Call(c, c.now + RetryAfter(kept, c.now) as real), limit, WINDOW_SECONDS)
                <==> left <= 1.0 || left.Floor as real == left)
  {
    var kept := Kept(c, limit, WINDOW_SECONDS);
    KeptIsOrdered(c, limit, WINDOW_SECONDS);
    RejectionMeansFull(c, limit, WINDOW_SECONDS);
    AcceptedAfterWaiting(c, Start, limit, WINDOW_SECONDS, c.now + RetryAfter(kept, c.now) as real);
  }

  // ------------------------------------------------------------- middleware

  datatype Path = Exempt | Auth | Trading | General
  datatype Key = Key(client: string, limit: nat)
  datatype Response = Unlimited | Pass(remaining: nat) | TooManyRequests(retryAfter: int)

  /** The limit for the kind of path that is requested. */
  function LimitFor(path: Path): (limit: nat)
    ensures limit > 0
  {
    match path
    case Auth => 20
    case Trading => 50
    case _ => 100
  }

  lemma {:induction false} KeptOfBurst(now: real, limit: nat, window: real, n: nat)
    requires window > 0.0
    ensures Kept(Burst(Start, now, n), limit, window) == Copies(now, if n < limit then n else limit)
  {
    if n > 0 {
      KeptOfBurst(now, limit, window, n - 1);
      CallIsHit(Burst(Start, now, n - 1), now, limit, window);
      HitOnCopies(now, limit, window, n);
    }
  }

  lemma HitOnCopies(now: real, limit: nat, window: real, n: nat)
    requires window > 0.0 && n > 0
    ensures HitAt(Copies(now, if n - 1 < limit then n - 1 else limit), now, limit, window).kept
            == Copies(now, if n < limit then n else limit)
  {
    PruneCopies(now, if n - 1 < limit then n - 1 else limit, now - window);
  }

  /**
   After n calls at one moment a client's next call is accepted exactly when n is below 20 on the paths of the
   account, 50 on those of trading and 100 on all others, or a minute has passed.
   */
  lemma NextCallIsAcceptedExactly(path: Path, now: real, n: nat, later: real)
    requires now <= later
    ensures LastAccepted(Call(Burst(Start, now, n), later), LimitFor(path), WINDOW_SECONDS)
            <==> n < (if path == Auth then 20 else if path == Trading then 50 else 100) || later >= now + 60.0
  {
    var limit := LimitFor(path);
    KeptOfBurst(now, limit, WINDOW_SECONDS, n);
    PruneCopies(now, if n < limit then n else limit, later - WINDOW_SECONDS);
  }

  /** The 429 response names the whole seconds until the oldest kept hit is a minute old, and at least one. */
  lemma ReportedTimeIsWhole(kept: seq<real>, now: real)
    requires kept != []
    ensures var left, reported := kept[0] + 60.0 - now, RetryAfter(kept, now);
            if left < 2.0 then reported == 1 else reported as real <= left < reported as real + 1.0
  {
  }

  /** Requests of different clients, or under different limits, are counted apart. */
  class RateLimitMiddleware {
    var windows: map<Key, SlidingWindow>

    ghost predicate Valid()
      reads this, windows.Values
    {
      && (forall k, l :: k in windows && l in windows && k != l ==> windows[k] != windows[l])
      && (forall k :: k in windows ==> |windows[k].timestamps| <= k.limit)
    }

    ghost function Kept(k: Key): seq<real>
      reads this, windows.Values
    {
      if k in windows then windows[k].timestamps else []
    }

    constructor ()
      ensures Valid() && forall k :: Kept(k) == []
    {
      windows := map[];
    }

    method Dispatch(client: string, path: Path, now: real) returns (r: Response)
      requires Valid()
      modifies this, windows.Values
      ensures Valid()
      ensures path == Exempt ==> r == Unlimited && forall k :: Kept(k) == old(Kept(k))
      ensures forall k :: k != Key(client, LimitFor(path)) ==> Kept(k) == old(Kept(k))
      ensures path != Exempt ==>
              var k := Key(client, LimitFor(path));
              var hit := HitAt(old(Kept(k)), now, LimitFor(path), WINDOW_SECONDS);
              && Kept(k) == hit.kept
              && (hit.accepted ==> r == Pass(LimitFor(path) - |hit.kept|))
              && (!hit.accepted ==> hit.kept != [] && r == TooManyRequests(RetryAfter(hit.kept, now)))
    {
      if path == Exempt { return Unlimited; }
      var limit := LimitFor(path);
      var key := Key(client, limit);
      if key !in windows {
        var fresh_ := new SlidingWindow();
        windows := windows[key := fresh_];
      }
      var window := windows[key];
      PruneFits(window.timestamps, now - WINDOW_SECONDS);
      var accepted := window.Hit(now, limit, WINDOW_SECONDS);
      if !accepted {
        return TooManyRequests(RetryAfter(window.timestamps, now));
      }
      return Pass(limit - |window.timestamps|);
    }
  }
}
