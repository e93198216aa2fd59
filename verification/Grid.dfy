/** Arithmetic of a regular grid: floors to a multiple and the order of multiples. */
module Grid {

  lemma MulMonotone(a: int, b: int, c: int)
    requires a <= b && c >= 0
    ensures a * c <= b * c
  {
  }

  lemma FloorBounds(x: int, d: int)
    requires d > 0
    ensures (x / d) * d <= x < (x / d) * d + d
  {
  }

  /** The floor is the only multiple whose cell holds x. */
  lemma FloorUnique(x: int, d: int, n: int)
    requires d > 0
    ensures n * d <= x < n * d + d <==> n == x / d
  {
    var q := x / d;
    FloorBounds(x, d);
    if n < q { MulMonotone(n + 1, q, d); }
    if n > q { MulMonotone(q + 1, n, d); }
  }

  lemma FloorOfMultiple(n: int, d: int)
    requires d > 0
    ensures (n * d) / d == n && (n * d) % d == 0
  {
    FloorUnique(n * d, d, n);
  }

  lemma MultipleIsFloor(x: int, d: int)
    requires d > 0 && x % d == 0
    ensures (x / d) * d == x
  {
  }

  lemma FloorMonotone(x: int, y: int, d: int)
    requires d > 0 && x <= y
    ensures x / d <= y / d
  {
    var p, q := x / d, y / d;
    FloorBounds(x, d);
    FloorBounds(y, d);
    if p > q { MulMonotone(q + 1, p, d); }
  }

  lemma FloorShift(x: int, n: int, d: int)
    requires d > 0
    ensures (x + n * d) / d == x / d + n
  {
    FloorBounds(x, d);
    assert (x / d + n) * d == (x / d) * d + n * d;
    FloorUnique(x + n * d, d, x / d + n);
  }

  /** Distinct multiples are a whole step apart. */
  lemma MultiplesApart(x: int, y: int, d: int)
    requires d > 0 && x % d == 0 && y % d == 0 && x < y
    ensures x + d <= y && x / d < y / d
  {
    var p, q := x / d, y / d;
    FloorMonotone(x, y, d);
    MultipleIsFloor(x, d);
    MultipleIsFloor(y, d);
    MulMonotone(p + 1, q, d);
  }
}
