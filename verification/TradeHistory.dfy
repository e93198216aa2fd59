/**
 Candles of a price chart: trades are sorted by time, grouped by the start of their interval, and each group
 is summarized. Times are whole microseconds; bucket starts and intervals are whole seconds.
 */
module TradeHistory {
  import opened Sorting
  import opened Grid

  datatype Trade = Trade(id: nat, executedAt: int, price: int, quantity: int)

  datatype Bucket = Bucket(start: int, end: int, open: int, high: int, low: int, close: int, volume: int, count: nat)

  const MICROS := 1_000_000

  // ------------------------------------------------------ sorted(key=executed_at)

  function Insert(t: Trade, s: seq<Trade>): seq<Trade> {
    if s == [] then [t]
    else if t.executedAt <= s[0].executedAt then [t] + s
    else [s[0]] + Insert(t, s[1..])
  }

  function SortByTime(ts: seq<Trade>): seq<Trade> {
    if ts == [] then [] else Insert(ts[0], SortByTime(ts[1..]))
  }

  ghost predicate NotAfter(s: seq<Trade>, i: int, j: int) {
    0 <= i < j < |s| ==> s[i].executedAt <= s[j].executedAt
  }

  ghost predicate TimeOrdered(s: seq<Trade>) {
    forall i, j :: NotAfter(s, i, j)
  }

  /** Trades of one instant, in their order. */
  ghost function At(s: seq<Trade>, time: int): seq<Trade> {
    if s == [] then []
    else if s[0].executedAt == time then [s[0]] + At(s[1..], time)
    else At(s[1..], time)
  }

  lemma TailIsOrdered(s: seq<Trade>)
    requires TimeOrdered(s) && s != []
    ensures TimeOrdered(s[1..]) && forall y :: y in s[1..] ==> s[0].executedAt <= y.executedAt
  {
    forall i, j ensures NotAfter(s[1..], i, j) { assert NotAfter(s, i + 1, j + 1); }
    forall y | y in s[1..] ensures s[0].executedAt <= y.executedAt {
      var k :| 0 <= k < |s[1..]| && s[1..][k] == y;
      assert NotAfter(s, 0, k + 1);
    }
  }

  lemma FirstIsEarliest(x: Trade, rest: seq<Trade>)
    requires TimeOrdered(rest) && forall y :: y in rest ==> x.executedAt <= y.executedAt
    ensures TimeOrdered([x] + rest)
  {
    forall i, j ensures NotAfter([x] + rest, i, j) {
      assert NotAfter(rest, i - 1, j - 1);
      assert 0 < j < |[x] + rest| ==> ([x] + rest)[j] in rest;
    }
  }

  lemma {:induction false} InsertKeepsTrades(t: Trade, s: seq<Trade>)
    ensures multiset(Insert(t, s)) == multiset(s) + multiset{t}
  {
    if s != [] && t.executedAt > s[0].executedAt {
      InsertKeepsTrades(t, s[1..]);
      assert s == [s[0]] + s[1..];
    }
  }

  lemma {:induction false} InsertProperties(t: Trade, s: seq<Trade>)
    requires TimeOrdered(s)
    ensures TimeOrdered(Insert(t, s))
    ensures multiset(Insert(t, s)) == multiset(s) + multiset{t}
  {
    InsertKeepsTrades(t, s);
    if s != [] {
      TailIsOrdered(s);
      if t.executedAt > s[0].executedAt {
        var rest := Insert(t, s[1..]);
        InsertProperties(t, s[1..]);
        forall y | y in rest ensures s[0].executedAt <= y.executedAt { assert y in multiset(rest); }
        FirstIsEarliest(s[0], rest);
      } else {
        assert forall y :: y in s ==> y == s[0] || y in s[1..];
        FirstIsEarliest(t, s);
      }
    }
  }

  lemma {:induction false} InsertIsStable(t: Trade, s: seq<Trade>, time: int)
    ensures At(Insert(t, s), time) == if t.executedAt == time then [t] + At(s, time) else At(s, time)
  {
    if s != [] && t.executedAt > s[0].executedAt {
      InsertIsStable(t, s[1..], time);
      assert Insert(t, s)[1..] == Insert(t, s[1..]);
    } else {
      assert Insert(t, s)[1..] == s;
    }
  }

  /** SortByTime is Python's stable sort: ordered by time, the same trades, and ties in their original order. */
  lemma {:induction false} SortByTimeIsStableSort(ts: seq<Trade>)
    ensures TimeOrdered(SortByTime(ts))
    ensures multiset(SortByTime(ts)) == multiset(ts)
    ensures forall time :: At(SortByTime(ts), time) == At(ts, time)
  {
    if ts != [] {
      SortByTimeIsStableSort(ts[1..]);
      InsertProperties(ts[0], SortByTime(ts[1..]));
      assert ts == [ts[0]] + ts[1..];
      forall time ensures At(SortByTime(ts), time) == At(ts, time) {
        InsertIsStable(ts[0], SortByTime(ts[1..]), time);
      }
    }
  }

  // ------------------------------------------------------------------ grouping

  /** Start, in seconds, of the interval a trade falls in. */
  function StartOf(t: Trade, interval: int): int
    requires interval > 0
  {
    (t.executedAt / (interval * MICROS)) * interval
  }

  function Starts(s: seq<Trade>, interval: int): set<int>
    requires interval > 0
  {
    set i | 0 <= i < |s| :: StartOf(s[i], interval)
  }

  /** The trades of one interval, in their order. */
  function InBucket(s: seq<Trade>, start: int, interval: int): seq<Trade>
    requires interval > 0
  {
    if s == [] then []
    else
      var before := InBucket(s[..|s| - 1], start, interval);
      if StartOf(s[|s| - 1], interval) == start then before + [s[|s| - 1]] else before
  }

  lemma StartsOfPrefix(s: seq<Trade>, interval: int)
    requires interval > 0 && s != []
    ensures Starts(s, interval) == Starts(s[..|s| - 1], interval) + {StartOf(s[|s| - 1], interval)}
  {
    var prefix := s[..|s| - 1];
    forall x | x in Starts(s, interval) ensures x in Starts(prefix, interval) + {StartOf(s[|s| - 1], interval)} {
      var i :| 0 <= i < |s| && StartOf(s[i], interval) == x;
      if i < |prefix| { assert prefix[i] == s[i]; }
    }
    forall x | x in Starts(prefix, interval) ensures x in Starts(s, interval) {
      var i :| 0 <= i < |prefix| && StartOf(prefix[i], interval) == x;
      assert s[i] == prefix[i];
    }
  }

  lemma {:induction false} InBucketProperties(s: seq<Trade>, start: int, interval: int)
    requires interval > 0
    ensures InBucket(s, start, interval) == [] <==> start !in Starts(s, interval)
    ensures forall i :: 0 <= i < |InBucket(s, start, interval)| ==>
      InBucket(s, start, interval)[i] in s && StartOf(InBucket(s, start, interval)[i], interval) == start
  {
    if s != [] {
      StartsOfPrefix(s, interval);
      InBucketProperties(s[..|s| - 1], start, interval);
    }
  }

  /** The loop over the sorted trades that fills the dictionary of groups. */
  method GroupByStart(sorted: seq<Trade>, interval: int) returns (grouped: map<int, seq<Trade>>)
    requires interval > 0
    ensures Grouped(sorted, interval, grouped)
  {
    grouped := map[];
    for n := 0 to |sorted|
      invariant grouped.Keys == Starts(sorted[..n], interval)
      invariant forall k :: k in grouped ==> grouped[k] == InBucket(sorted[..n], k, interval)
    {
      var seen := sorted[..n + 1];
      assert seen[..n] == sorted[..n] && seen[n] == sorted[n];
      StartsOfPrefix(seen, interval);
      var start := StartOf(sorted[n], interval);
      if start !in grouped {
        InBucketProperties(sorted[..n], start, interval);
        grouped := grouped[start := []];
      }
      grouped := grouped[start := grouped[start] + [sorted[n]]];
    }
    assert sorted[..|sorted|] == sorted;
  }

  // ------------------------------------------------------------------- candles

  function Highest(s: seq<Trade>): (h: int)
    requires s != []
    ensures forall i :: 0 <= i < |s| ==> s[i].price <= h
    ensures exists i :: 0 <= i < |s| && s[i].price == h
  {
    if |s| == 1 then s[0].price
    else
      var rest := Highest(s[1..]);
      assert forall i :: 1 <= i < |s| ==> s[i] == s[1..][i - 1];
      if s[0].price > rest then s[0].price else rest
  }

  function Lowest(s: seq<Trade>): (l: int)
    requires s != []
    ensures forall i :: 0 <= i < |s| ==> l <= s[i].price
    ensures exists i :: 0 <= i < |s| && s[i].price == l
  {
    if |s| == 1 then s[0].price
    else
      var rest := Lowest(s[1..]);
      assert forall i :: 1 <= i < |s| ==> s[i] == s[1..][i - 1];
      if s[0].price < rest then s[0].price else rest
  }

  function Volume(s: seq<Trade>): int {
    if s == [] then 0 else s[0].quantity + Volume(s[1..])
  }

  function Candle(start: int, interval: int, trades: seq<Trade>): Bucket
    requires trades != []
  {
    Bucket(start, start + interval, trades[0].price, Highest(trades), Lowest(trades),
           trades[|trades| - 1].price, Volume(trades), |trades|)
  }

  /** The chart as one expression: a candle per occupied interval, in time order. */
  function Chart(ts: seq<Trade>, interval: int): seq<Bucket>
    requires interval > 0
  {
    var sorted := SortByTime(ts);
    var starts := Sorted(Starts(sorted, interval));
    seq(|starts|, k requires 0 <= k < |starts| => CandleAt(sorted, starts[k], interval))
  }

  function CandleAt(sorted: seq<Trade>, start: int, interval: int): Bucket
    requires interval > 0
  {
    var group := InBucket(sorted, start, interval);
    if group == [] then Bucket(start, start + interval, 0, 0, 0, 0, 0, 0) else Candle(start, interval, group)
  }

  ghost predicate Occupied(grouped: map<int, seq<Trade>>, starts: seq<int>) {
    forall k :: 0 <= k < |starts| ==> starts[k] in grouped && grouped[starts[k]] != []
  }

  ghost predicate Summary(grouped: map<int, seq<Trade>>, starts: seq<int>, interval: int, buckets: seq<Bucket>)
    requires Occupied(grouped, starts)
  {
    && |buckets| == |starts|
    && forall k :: 0 <= k < |starts| ==> buckets[k] == Candle(starts[k], interval, grouped[starts[k]])
  }

  /** The second loop: one bucket per group, in the order of the sorted starts. */
  method Summarize(grouped: map<int, seq<Trade>>, starts: seq<int>, interval: int) returns (buckets: seq<Bucket>)
    requires Occupied(grouped, starts)
    ensures Summary(grouped, starts, interval, buckets)
  {
    buckets := [];
    for k := 0 to |starts|
      invariant |buckets| == k
      invariant forall j :: 0 <= j < k ==> buckets[j] == Candle(starts[j], interval, grouped[starts[j]])
    {
      buckets := buckets + [Candle(starts[k], interval, grouped[starts[k]])];
    }
  }

  method BuildHistoryBuckets(ts: seq<Trade>, interval: int) returns (buckets: seq<Bucket>)
    requires interval > 0
    ensures buckets == Chart(ts, interval)
  {
    var sorted := SortByTime(ts);
    var grouped := GroupByStart(sorted, interval);
    var starts := Sorted(grouped.Keys);
    GroupsAreOccupied(sorted, interval, grouped, starts);
    buckets := Summarize(grouped, starts, interval);
    SummaryIsChart(ts, interval, grouped, starts, buckets);
  }

  ghost predicate Grouped(sorted: seq<Trade>, interval: int, grouped: map<int, seq<Trade>>)
    requires interval > 0
  {
    grouped.Keys == Starts(sorted, interval) && forall k :: k in grouped ==> grouped[k] == InBucket(sorted, k, interval)
  }

  lemma GroupsAreOccupied(sorted: seq<Trade>, interval: int, grouped: map<int, seq<Trade>>, starts: seq<int>)
    requires interval > 0 && Grouped(sorted, interval, grouped) && starts == Sorted(grouped.Keys)
    ensures Occupied(grouped, starts)
  {
    forall k | 0 <= k < |starts| ensures starts[k] in grouped && grouped[starts[k]] != [] {
      assert starts[k] in starts;
      GroupHasCandle(sorted, starts[k], interval);
    }
  }

  lemma SummaryIsChart(ts: seq<Trade>, interval: int, grouped: map<int, seq<Trade>>, starts: seq<int>,
    buckets: seq<Bucket>)
    requires interval > 0 && Grouped(SortByTime(ts), interval, grouped) && starts == Sorted(grouped.Keys)
    requires Occupied(grouped, starts) && Summary(grouped, starts, interval, buckets)
    ensures buckets == Chart(ts, interval)
  {
    var chart := Chart(ts, interval);
    forall k | 0 <= k < |starts| ensures buckets[k] == chart[k] {
      GroupHasCandle(SortByTime(ts), starts[k], interval);
    }
  }

  lemma GroupHasCandle(sorted: seq<Trade>, start: int, interval: int)
    requires interval > 0 && start in Starts(sorted, interval)
    ensures InBucket(sorted, start, interval) != []
    ensures CandleAt(sorted, start, interval) == Candle(start, interval, InBucket(sorted, start, interval))
  {
    InBucketProperties(sorted, start, interval);
  }

  // ---------------------------------------------------------------- properties

  /** All groups, one after the other. */
  ghost function Flatten(starts: seq<int>, s: seq<Trade>, interval: int): seq<Trade>
    requires interval > 0
  {
    if starts == [] then [] else InBucket(s, starts[0], interval) + Flatten(starts[1..], s, interval)
  }

  lemma TailIncreases(starts: seq<int>)
    requires starts != [] && Increasing(starts)
    ensures Increasing(starts[1..])
    ensures forall x :: x in starts[1..] ==> starts[0] < x
  {
    forall i, j ensures Below(starts[1..], i, j) { assert Below(starts, i + 1, j + 1); }
    forall x | x in starts[1..] ensures starts[0] < x {
      var i :| 0 <= i < |starts[1..]| && starts[1..][i] == x;
      assert Below(starts, 0, i + 1);
    }
  }

  lemma {:induction false} NothingLater(starts: seq<int>, s: seq<Trade>, interval: int)
    requires interval > 0
    requires forall x :: x in starts ==> x !in Starts(s, interval)
    ensures Flatten(starts, s, interval) == []
  {
    if starts != [] {
      InBucketProperties(s, starts[0], interval);
      NothingLater(starts[1..], s, interval);
    }
  }

  lemma {:induction false} FlattenAppends(starts: seq<int>, s: seq<Trade>, interval: int)
    requires interval > 0 && s != [] && Increasing(starts)
    requires StartOf(s[|s| - 1], interval) in starts
    requires forall x :: x in Starts(s, interval) ==> x <= StartOf(s[|s| - 1], interval)
    ensures Flatten(starts, s, interval) == Flatten(starts, s[..|s| - 1], interval) + [s[|s| - 1]]
  {
    var last := StartOf(s[|s| - 1], interval);
    var prefix := s[..|s| - 1];
    TailIncreases(starts);
    StartsOfPrefix(s, interval);
    if starts[0] == last {
      NothingLater(starts[1..], s, interval);
      NothingLater(starts[1..], prefix, interval);
    } else {
      assert last in starts[1..];
      FlattenAppends(starts[1..], s, interval);
    }
  }

  lemma StartMonotone(t: Trade, t': Trade, interval: int)
    requires interval > 0 && t.executedAt <= t'.executedAt
    ensures StartOf(t, interval) <= StartOf(t', interval)
  {
    FloorMonotone(t.executedAt, t'.executedAt, interval * MICROS);
    MulMonotone(t.executedAt / (interval * MICROS), t'.executedAt / (interval * MICROS), interval);
  }

  /** Grouping time-ordered trades and reading the groups in order gives the trades back. */
  lemma {:induction false} GroupsPartition(starts: seq<int>, s: seq<Trade>, interval: int)
    requires interval > 0 && TimeOrdered(s) && Increasing(starts)
    requires forall x :: x in Starts(s, interval) ==> x in starts
    ensures Flatten(starts, s, interval) == s
  {
    if s == [] {
      NothingLater(starts, s, interval);
    } else {
      var prefix := s[..|s| - 1];
      StartsOfPrefix(s, interval);
      forall i, j ensures NotAfter(prefix, i, j) { assert NotAfter(s, i, j); }
      GroupsPartition(starts, prefix, interval);
      forall x | x in Starts(s, interval) ensures x <= StartOf(s[|s| - 1], interval) {
        var i :| 0 <= i < |s| && StartOf(s[i], interval) == x;
        assert NotAfter(s, i, |s| - 1);
        StartMonotone(s[i], s[|s| - 1], interval);
      }
      FlattenAppends(starts, s, interval);
      assert s == prefix + [s[|s| - 1]];
    }
  }

  /** The groups behind the chart's candles, read in chart order, are exactly the input trades in time order. */
  lemma ChartPartitionsTrades(ts: seq<Trade>, interval: int)
    requires interval > 0
    ensures var sorted := SortByTime(ts);
            var starts := Sorted(Starts(sorted, interval));
            Flatten(starts, sorted, interval) == sorted && multiset(Flatten(starts, sorted, interval)) == multiset(ts)
  {
    SortByTimeIsStableSort(ts);
    GroupsPartition(Sorted(Starts(SortByTime(ts), interval)), SortByTime(ts), interval);
  }

  function TotalVolume(bs: seq<Bucket>): int {
    if bs == [] then 0 else bs[0].volume + TotalVolume(bs[1..])
  }

  function TotalCount(bs: seq<Bucket>): nat {
    if bs == [] then 0 else bs[0].count + TotalCount(bs[1..])
  }

  lemma {:induction false} VolumeAdds(a: seq<Trade>, b: seq<Trade>)
    ensures Volume(a + b) == Volume(a) + Volume(b)
  {
    if a == [] {
      assert a + b == b;
    } else {
      VolumeAdds(a[1..], b);
      assert (a + b)[1..] == a[1..] + b;
    }
  }

  lemma {:induction false} VolumeOfSorted(ts: seq<Trade>)
    ensures Volume(SortByTime(ts)) == Volume(ts)
  {
    if ts != [] {
      VolumeOfSorted(ts[1..]);
      VolumeOfInsert(ts[0], SortByTime(ts[1..]));
    }
  }

  lemma {:induction false} VolumeOfInsert(t: Trade, s: seq<Trade>)
    ensures Volume(Insert(t, s)) == t.quantity + Volume(s)
  {
    if s != [] && t.executedAt > s[0].executedAt {
      VolumeOfInsert(t, s[1..]);
      assert Insert(t, s)[1..] == Insert(t, s[1..]);
    } else {
      assert Insert(t, s)[1..] == s;
    }
  }

  function Candles(s: seq<Trade>, starts: seq<int>, interval: int): seq<Bucket>
    requires interval > 0
  {
    seq(|starts|, k requires 0 <= k < |starts| => CandleAt(s, starts[k], interval))
  }

  lemma {:induction false} CandlesAddUp(s: seq<Trade>, starts: seq<int>, interval: int)
    requires interval > 0
    ensures TotalVolume(Candles(s, starts, interval)) == Volume(Flatten(starts, s, interval))
    ensures TotalCount(Candles(s, starts, interval)) == |Flatten(starts, s, interval)|
  {
    if starts != [] {
      CandlesAddUp(s, starts[1..], interval);
      assert Candles(s, starts, interval)[1..] == Candles(s, starts[1..], interval);
      VolumeAdds(InBucket(s, starts[0], interval), Flatten(starts[1..], s, interval));
    }
  }

  /** Volumes and trade counts of the chart add up to those of the input. */
  lemma ChartConservesVolume(ts: seq<Trade>, interval: int)
    requires interval > 0
    ensures TotalVolume(Chart(ts, interval)) == Volume(ts)
    ensures TotalCount(Chart(ts, interval)) == |ts|
  {
    var sorted := SortByTime(ts);
    var starts := Sorted(Starts(sorted, interval));
    assert Chart(ts, interval) == Candles(sorted, starts, interval);
    ChartPartitionsTrades(ts, interval);
    CandlesAddUp(sorted, starts, interval);
    VolumeOfSorted(ts);
    assert |sorted| == |multiset(sorted)| == |multiset(ts)| == |ts|;
  }

  /** One more trade adds its quantity to the volume of the chart and one to its count; an empty chart has neither. */
  lemma EachTradeCounts(ts: seq<Trade>, t: Trade, interval: int)
    requires interval > 0
    ensures Chart([], interval) == []
    ensures TotalVolume(Chart(ts + [t], interval)) == TotalVolume(Chart(ts, interval)) + t.quantity
    ensures TotalCount(Chart(ts + [t], interval)) == TotalCount(Chart(ts, interval)) + 1
  {
    ChartConservesVolume(ts, interval);
    ChartConservesVolume(ts + [t], interval);
    VolumeAdds(ts, [t]);
    ChartOfNothing(interval);
  }

  lemma ChartOfNothing(interval: int)
    requires interval > 0
    ensures Chart([], interval) == []
  {
    ChartConservesVolume([], interval);
    if Chart([], interval) != [] { ChartStart([], interval, 0); }
  }

  ghost predicate Covers(b: Bucket, t: Trade) {
    b.start * MICROS <= t.executedAt < b.end * MICROS
  }

  lemma StartCovers(t: Trade, interval: int, start: int)
    requires interval > 0 && start % interval == 0
    ensures start * MICROS <= t.executedAt < (start + interval) * MICROS <==> start == StartOf(t, interval)
  {
    var n, q := start / interval, t.executedAt / (interval * MICROS);
    MultipleIsFloor(start, interval);
    FloorUnique(t.executedAt, interval * MICROS, n);
    CellInMicros(n, interval);
    FloorOfMultiple(q, interval);
  }

  lemma CellInMicros(n: int, interval: int)
    ensures n * (interval * MICROS) == (n * interval) * MICROS
    ensures n * (interval * MICROS) + interval * MICROS == (n * interval + interval) * MICROS
  {
  }

  lemma MultipleOfInterval(t: Trade, interval: int)
    requires interval > 0
    ensures StartOf(t, interval) % interval == 0
  {
    FloorOfMultiple(t.executedAt / (interval * MICROS), interval);
  }

  /** Every bucket is one interval long and starts on a multiple of it; starts strictly increase and spans are apart. */
  lemma ChartIsOnGrid(ts: seq<Trade>, interval: int, i: nat, j: nat)
    requires interval > 0 && i <= j < |Chart(ts, interval)|
    ensures var c := Chart(ts, interval);
            && c[i].start % interval == 0 && c[i].end == c[i].start + interval
            && c[j].start % interval == 0 && c[j].end == c[j].start + interval
            && (i < j ==> c[i].start < c[j].start && c[i].end <= c[j].start)
  {
    var starts := Sorted(Starts(SortByTime(ts), interval));
    ChartStart(ts, interval, i);
    ChartStart(ts, interval, j);
    if i < j {
      assert Below(starts, i, j);
      MultiplesApart(starts[i], starts[j], interval);
    }
  }

  lemma ChartStart(ts: seq<Trade>, interval: int, k: nat)
    requires interval > 0 && k < |Chart(ts, interval)|
    ensures var c, sorted := Chart(ts, interval), SortByTime(ts);
            var starts := Sorted(Starts(sorted, interval));
            && k < |starts| && c[k].start == starts[k] && starts[k] in Starts(sorted, interval)
            && c[k].start % interval == 0 && c[k].end == c[k].start + interval
  {
    var sorted := SortByTime(ts);
    var starts := Sorted(Starts(sorted, interval));
    assert starts[k] in starts;
    var i :| 0 <= i < |sorted| && StartOf(sorted[i], interval) == starts[k];
    MultipleOfInterval(sorted[i], interval);
  }

  /** Each trade lies in the time span of exactly one bucket. */
  lemma EachTradeInOneBucket(ts: seq<Trade>, interval: int, i: nat)
    requires interval > 0 && i < |ts|
    ensures var c := Chart(ts, interval);
            exists k :: 0 <= k < |c| && Covers(c[k], ts[i])
                        && forall j :: 0 <= j < |c| && Covers(c[j], ts[i]) ==> j == k
  {
    var c, sorted := Chart(ts, interval), SortByTime(ts);
    var starts := Sorted(Starts(sorted, interval));
    SortByTimeIsStableSort(ts);
    assert ts[i] in multiset(sorted);
    var n :| 0 <= n < |sorted| && sorted[n] == ts[i];
    assert StartOf(ts[i], interval) in starts;
    var k :| 0 <= k < |starts| && starts[k] == StartOf(ts[i], interval);
    forall j | 0 <= j < |c| ensures Covers(c[j], ts[i]) <==> starts[j] == starts[k] {
      ChartStart(ts, interval, j);
      StartCovers(ts[i], interval, c[j].start);
    }
    assert Covers(c[k], ts[i]);
    forall j | 0 <= j < |c| && Covers(c[j], ts[i]) ensures j == k {
      assert Below(starts, j, k) && Below(starts, k, j);
    }
  }

  /** Each candle opens with the first and closes with the last trade of its interval, between its low and its high. */
  lemma CandleShape(ts: seq<Trade>, interval: int, k: nat)
    requires interval > 0 && k < |Chart(ts, interval)|
    ensures var c := Chart(ts, interval)[k];
            var group := InBucket(SortByTime(ts), c.start, interval);
            && group != [] && c.open == group[0].price && c.close == group[|group| - 1].price && c.count == |group|
            && c.low <= c.open <= c.high && c.low <= c.close <= c.high
            && (forall i :: 0 <= i < |group| ==> c.low <= group[i].price <= c.high)
            && (exists i :: 0 <= i < |group| && group[i].price == c.high)
            && (exists i :: 0 <= i < |group| && group[i].price == c.low)
  {
    ChartStart(ts, interval, k);
    var start := Chart(ts, interval)[k].start;
    GroupHasCandle(SortByTime(ts), start, interval);
    ShapeOf(start, interval, InBucket(SortByTime(ts), start, interval));
  }

  lemma ShapeOf(start: int, interval: int, group: seq<Trade>)
    requires group != []
    ensures var c := Candle(start, interval, group);
            && c.open == group[0].price && c.close == group[|group| - 1].price && c.count == |group|
            && c.low <= c.open <= c.high && c.low <= c.close <= c.high
            && (forall i :: 0 <= i < |group| ==> c.low <= group[i].price <= c.high)
            && (exists i :: 0 <= i < |group| && group[i].price == c.high)
            && (exists i :: 0 <= i < |group| && group[i].price == c.low)
  {
  }

  // --------------------------------------------------------------- chart length

  datatype RangeKey = OneMinute | FiveMinutes | ThirtyMinutes | OneHour | OneDay | OneWeek
  datatype Range = Range(lookback: int, interval: int)

  /** The supported ranges, lookback and interval in seconds. */
  function ResolveRange(key: RangeKey): Range {
    match key
    case OneMinute => Range(60, 5)
    case FiveMinutes => Range(300, 15)
    case ThirtyMinutes => Range(1800, 60)
    case OneHour => Range(3600, 300)
    case OneDay => Range(86400, 3600)
    case OneWeek => Range(604800, 21600)
  }

  /** The trades of a lookback window, both ends included. */
  predicate Within(ts: seq<Trade>, from: int, to: int) {
    forall i :: 0 <= i < |ts| ==> from <= ts[i].executedAt <= to
  }

  function Quotients(s: seq<int>, d: int): seq<int>
    requires d > 0
  {
    seq(|s|, i requires 0 <= i < |s| => s[i] / d)
  }

  lemma QuotientsIncrease(s: seq<int>, d: int)
    requires d > 0 && Increasing(s) && forall i :: 0 <= i < |s| ==> s[i] % d == 0
    ensures Increasing(Quotients(s, d))
  {
    var q := Quotients(s, d);
    forall i, j ensures Below(q, i, j) {
      assert Below(s, i, j);
      if 0 <= i < j < |s| { MultiplesApart(s[i], s[j], d); }
    }
  }

  lemma SlotBounds(time: int, from: int, lookback: int, interval: int)
    requires interval > 0 && lookback % interval == 0 && from <= time <= from + lookback * MICROS
    ensures var width := interval * MICROS;
            from / width <= time / width <= from / width + lookback / interval
  {
    var width, n := interval * MICROS, lookback / interval;
    MultipleIsFloor(lookback, interval);
    CellInMicros(n, interval);
    FloorMonotone(from, time, width);
    FloorMonotone(time, from + n * width, width);
    FloorShift(from, n, width);
  }

  /** A lookback that is a multiple of the interval gives at most lookback/interval + 1 buckets. */
  lemma ChartLength(ts: seq<Trade>, from: int, lookback: int, interval: int)
    requires interval > 0 && lookback >= 0 && lookback % interval == 0
    requires Within(ts, from, from + lookback * MICROS)
    ensures |Chart(ts, interval)| <= lookback / interval + 1
  {
    var starts := Sorted(Starts(SortByTime(ts), interval));
    var first := from / (interval * MICROS);
    forall k | 0 <= k < |starts|
      ensures starts[k] % interval == 0 && first <= starts[k] / interval <= first + lookback / interval
    {
      ChartStart(ts, interval, k);
      StartInWindow(ts, from, lookback, interval, starts[k]);
    }
    QuotientsIncrease(starts, interval);
    FloorMonotone(0, lookback, interval);
    IncreasingFits(Quotients(starts, interval), first, first + lookback / interval);
  }

  lemma StartInWindow(ts: seq<Trade>, from: int, lookback: int, interval: int, start: int)
    requires interval > 0 && lookback % interval == 0 && Within(ts, from, from + lookback * MICROS)
    requires start in Starts(SortByTime(ts), interval)
    ensures var first := from / (interval * MICROS);
            first <= start / interval <= first + lookback / interval
  {
    var sorted := SortByTime(ts);
    SortByTimeIsStableSort(ts);
    var i :| 0 <= i < |sorted| && StartOf(sorted[i], interval) == start;
    assert sorted[i] in multiset(ts);
    var n :| 0 <= n < |ts| && ts[n] == sorted[i];
    SlotBounds(ts[n].executedAt, from, lookback, interval);
    FloorOfMultiple(ts[n].executedAt / (interval * MICROS), interval);
  }

  /** The span and the candle length of a range in seconds, and the most candles that its chart can have. */
  datatype Span = Span(seconds: int, candle: int, most: nat)

  function SpanOf(key: RangeKey): Span {
    match key
    case OneMinute => Span(60, 5, 13)
    case FiveMinutes => Span(5 * 60, 15, 21)
    case ThirtyMinutes => Span(30 * 60, 60, 31)
    case OneHour => Span(60 * 60, 5 * 60, 13)
    case OneDay => Span(24 * 60 * 60, 60 * 60, 25)
    case OneWeek => Span(7 * 24 * 60 * 60, 6 * 60 * 60, 29)
  }

  /** A chart over one of the supported ranges has candles of the length for that range, and at most so many. */
  lemma SupportedRangesAreShort(key: RangeKey, ts: seq<Trade>, from: int)
    requires Within(ts, from, from + SpanOf(key).seconds * 1_000_000)
    ensures var chart := Chart(ts, ResolveRange(key).interval);
            && ResolveRange(key).lookback == SpanOf(key).seconds
            && |chart| <= SpanOf(key).most <= 31
            && forall k :: 0 <= k < |chart| ==> chart[k].end - chart[k].start == SpanOf(key).candle
  {
    forall k | 0 <= k < |Chart(ts, ResolveRange(key).interval)|
      ensures Chart(ts, ResolveRange(key).interval)[k].end - Chart(ts, ResolveRange(key).interval)[k].start
              == SpanOf(key).candle
    {
      ChartIsOnGrid(ts, ResolveRange(key).interval, k, k);
    }
    match key
    case OneMinute => ChartLength(ts, from, 60, 5);
    case FiveMinutes => ChartLength(ts, from, 300, 15);
    case ThirtyMinutes => ChartLength(ts, from, 1800, 60);
    case OneHour => ChartLength(ts, from, 3600, 300);
    case OneDay => ChartLength(ts, from, 86400, 3600);
    case OneWeek => ChartLength(ts, from, 604800, 21600);
  }
}
