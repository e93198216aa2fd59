/**
 The windows of rolling up/down markets. A time is a count of microseconds since midnight of 0001-01-01 (UTC), a
 window is given in minutes.
 */
module RollingWindows {
  import Grid

  const DAY := 1440
  const MICROSECONDS := 60000000

  datatype Window = Window(start: nat, end: nat)

  // ----------------------------------------------------------------- windows

  function MinuteOf(now: nat): nat { now / MICROSECONDS }

  /** The minutes since midnight are rounded down to the interval; the date stays. */
  function Floor(now: nat, interval: nat): (m: nat)
    requires interval > 0
  {
    var total := MinuteOf(now) % DAY;
    MinuteOf(now) / DAY * DAY + (total - total % interval)
  }

  function WindowAt(now: nat, interval: nat, offset: nat): Window
    requires interval > 0
  {
    Window(Floor(now, interval) + offset * interval, Floor(now, interval) + offset * interval + interval)
  }

  predicate Disjoint(v: Window, w: Window) {
    v.end <= w.start || w.end <= v.start
  }

  predicate Compatible(v: Window, w: Window) {
    v == w || Disjoint(v, w)
  }

  /** The first window of a run contains the current time. */
  lemma FirstWindowContainsNow(now: nat, interval: nat)
    requires interval > 0
    ensures var w := WindowAt(now, interval, 0); w.start * MICROSECONDS <= now < w.end * MICROSECONDS
  {
    var total := MinuteOf(now) % DAY;
    assert MinuteOf(now) == MinuteOf(now) / DAY * DAY + total;
    Grid.FloorBounds(now, MICROSECONDS);
    Grid.MulMonotone(WindowAt(now, interval, 0).start, MinuteOf(now), MICROSECONDS);
    Grid.MulMonotone(MinuteOf(now) + 1, WindowAt(now, interval, 0).end, MICROSECONDS);
  }

  /** Windows of one run follow each other without a gap and never overlap. */
  lemma WindowsAreContiguous(now: nat, interval: nat, i: nat, j: nat)
    requires interval > 0 && i < j
    ensures WindowAt(now, interval, i).end == WindowAt(now, interval, i + 1).start
    ensures WindowAt(now, interval, i).end <= WindowAt(now, interval, j).start
  {
    Grid.MulMonotone(i + 1, j, interval);
    assert (i + 1) * interval == i * interval + interval;
  }

  /** With an interval that divides the day every window starts on a multiple of the interval. */
  lemma StartsAreMultiples(now: nat, interval: nat, offset: nat)
    requires interval > 0 && DAY % interval == 0
    ensures WindowAt(now, interval, offset).start % interval == 0
  {
    var total, days := MinuteOf(now) % DAY, MinuteOf(now) / DAY;
    var q := DAY / interval;
    Grid.MultipleIsFloor(DAY, interval);
    assert days * DAY == (days * q) * interval by { assert q * interval == DAY; Associate(days, q, interval); }
    assert total - total % interval == total / interval * interval;
    assert WindowAt(now, interval, offset).start == (days * q + total / interval + offset) * interval;
    Grid.FloorOfMultiple(days * q + total / interval + offset, interval);
  }

  lemma Associate(a: int, b: int, c: int)
    ensures (a * b) * c == a * (b * c)
  {
  }

  /** The last cell of a day crosses midnight when the interval does not divide the day. */
  lemma LastCellCrosses(total: nat, interval: nat)
    requires interval > 0 && (total + 1) % interval != 0
    ensures total - total % interval <= total < total + 1 < total - total % interval + interval
  {
    if total % interval == interval - 1 {
      assert total + 1 == (total / interval + 1) * interval;
      Grid.FloorOfMultiple(total / interval + 1, interval);
    }
  }

  lemma FloorsAtMidnight(interval: nat)
    requires interval > 0
    ensures Floor((DAY - 1) * MICROSECONDS, interval) == DAY - 1 - (DAY - 1) % interval
    ensures Floor(DAY * MICROSECONDS, interval) == DAY
  {
    assert MinuteOf((DAY - 1) * MICROSECONDS) == DAY - 1;
    assert MinuteOf(DAY * MICROSECONDS) == DAY;
    Grid.FloorOfMultiple(0, interval);
  }

  /** Two runs a minute apart on either side of midnight, for an interval that does not divide the day. */
  lemma MidnightBreaksGrid(interval: nat)
    requires interval > 0 && DAY % interval != 0
    ensures !Compatible(WindowAt((DAY - 1) * MICROSECONDS, interval, 0), WindowAt(DAY * MICROSECONDS, interval, 0))
  {
    FloorsAtMidnight(interval);
    LastCellCrosses(DAY - 1, interval);
  }

  /** Windows of any two runs with the same interval are equal or disjoint exactly when the interval divides the day. */
  lemma RunsAgreeExactly(interval: nat)
    requires interval > 0
    ensures DAY % interval == 0
            <==> forall now: nat, now': nat, i: nat, j: nat ::
                Compatible(WindowAt(now, interval, i), WindowAt(now', interval, j))
  {
    if DAY % interval == 0 {
      forall now: nat, now': nat, i: nat, j: nat
        ensures Compatible(WindowAt(now, interval, i), WindowAt(now', interval, j))
      {
        RunsAgree(now, now', interval, i, j);
      }
    } else {
      MidnightBreaksGrid(interval);
    }
  }

  lemma RunsAgree(now: nat, now': nat, interval: nat, i: nat, j: nat)
    requires interval > 0 && DAY % interval == 0
    ensures Compatible(WindowAt(now, interval, i), WindowAt(now', interval, j))
  {
    var v, w := WindowAt(now, interval, i), WindowAt(now', interval, j);
    StartsAreMultiples(now, interval, i);
    StartsAreMultiples(now', interval, j);
    if v.start < w.start { Grid.MultiplesApart(v.start, w.start, interval); }
    if w.start < v.start { Grid.MultiplesApart(w.start, v.start, interval); }
  }
}
