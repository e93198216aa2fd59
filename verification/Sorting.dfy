/** Python's `sorted` on a set of numbers, and what follows from strict order. */
module Sorting {

  ghost predicate Below(s: seq<int>, i: int, j: int) {
    0 <= i < j < |s| ==> s[i] < s[j]
  }

  ghost predicate Above(s: seq<int>, i: int, j: int) {
    0 <= i < j < |s| ==> s[i] > s[j]
  }

  ghost predicate Increasing(s: seq<int>) {
    forall i, j :: Below(s, i, j)
  }

  ghost predicate Decreasing(s: seq<int>) {
    forall i, j :: Above(s, i, j)
  }

  lemma EmptyOrInhabited(s: set<int>)
    ensures s == {} || exists x :: x in s
  {
    if !(exists x :: x in s) {
      assert s == {};
    }
  }

  lemma {:induction false} FindLeast(s: set<int>) returns (m: int)
    requires s != {}
    ensures m in s && forall x :: x in s ==> m <= x
  {
    EmptyOrInhabited(s);
    var y :| y in s;
    var rest := s - {y};
    m := y;
    if rest != {} {
      var least := FindLeast(rest);
      if least < y { m := least; }
    }
    forall x | x in s ensures m <= x {
      assert x == y || x in rest;
    }
  }

  lemma HasLeast(s: set<int>)
    requires s != {}
    ensures exists m :: m in s && forall x :: x in s ==> m <= x
  {
    var m := FindLeast(s);
  }

  function Least(s: set<int>): (m: int)
    requires s != {}
    ensures m in s && forall x :: x in s ==> m <= x
  {
    HasLeast(s);
    var m :| m in s && forall x :: x in s ==> m <= x;
    m
  }

  /** sorted(s) */
  function Sorted(s: set<int>): (r: seq<int>)
    ensures Increasing(r) && |r| == |s|
    ensures forall x :: x in r <==> x in s
  {
    if s == {} then [] else
      var m := Least(s);
      var rest := Sorted(s - {m});
      assert forall i, j :: Below(rest, i - 1, j - 1) ==> Below([m] + rest, i, j) by {
        forall i, j | Below(rest, i - 1, j - 1) ensures Below([m] + rest, i, j) {
          if 1 <= j <= |rest| { assert rest[j - 1] in s - {m}; }
        }
      }
      [m] + rest
  }

  function Reversed(s: seq<int>): (r: seq<int>)
    ensures |r| == |s| && forall i :: 0 <= i < |s| ==> r[i] == s[|s| - 1 - i]
  {
    seq(|s|, i requires 0 <= i < |s| => s[|s| - 1 - i])
  }

  lemma ReversedIsDecreasing(s: seq<int>)
    requires Increasing(s)
    ensures Decreasing(Reversed(s))
    ensures forall x :: x in Reversed(s) <==> x in s
  {
    var r := Reversed(s);
    forall i, j ensures Above(r, i, j) {
      assert Below(s, |s| - 1 - j, |s| - 1 - i);
    }
    forall x | x in s ensures x in r {
      var i :| 0 <= i < |s| && s[i] == x;
      assert r[|s| - 1 - i] == x;
    }
  }

  /** sorted(s, reverse=reverse) */
  function SortedBy(s: set<int>, reverse: bool): (r: seq<int>)
    ensures |r| == |s|
    ensures forall x :: x in r <==> x in s
    ensures if reverse then Decreasing(r) else Increasing(r)
  {
    ReversedIsDecreasing(Sorted(s));
    if reverse then Reversed(Sorted(s)) else Sorted(s)
  }

  /** A strictly increasing list of integers from an interval is no longer than the interval. */
  lemma {:induction false} IncreasingFits(s: seq<int>, lo: int, hi: int)
    requires Increasing(s) && lo <= hi + 1
    requires forall i :: 0 <= i < |s| ==> lo <= s[i] <= hi
    ensures |s| <= hi - lo + 1
  {
    if s != [] {
      var rest := s[1..];
      forall i, j ensures Below(rest, i, j) { assert Below(s, i + 1, j + 1); }
      forall i | 0 <= i < |rest| ensures s[0] + 1 <= rest[i] <= hi { assert Below(s, 0, i + 1); }
      IncreasingFits(rest, s[0] + 1, hi);
    }
  }
}
