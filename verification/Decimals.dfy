/**
 The two explicit roundings of Python's decimal module that the services use.
 Decimal values are modelled as exact reals; `quantize` is rounding to a grid.
 */
module Decimals {

  /** quantize(Decimal("1")): the context default, ties to the even neighbour. */
  function RoundHalfEven(x: real): (n: int)
    ensures n as real - 0.5 <= x <= n as real + 0.5
    ensures x == n as real + 0.5 || x == n as real - 0.5 ==> n % 2 == 0
  {
    var below := x.Floor;
    var rest := x - below as real;
    if rest < 0.5 || (rest == 0.5 && below % 2 == 0) then below else below + 1
  }

  /** quantize(Decimal("1"), rounding=ROUND_HALF_UP): ties away from zero. */
  function RoundHalfUp(x: real): (n: int)
    ensures n as real - 0.5 <= x <= n as real + 0.5
    ensures x == n as real + 0.5 ==> x < 0.0
    ensures x == n as real - 0.5 ==> x > 0.0
  {
    if x >= 0.0 then (x + 0.5).Floor else -((0.5 - x).Floor)
  }

  lemma HalfEvenMonotone(x: real, y: real)
    requires x <= y
    ensures RoundHalfEven(x) <= RoundHalfEven(y)
  {
  }

  lemma HalfEvenFixesIntegers(n: int)
    ensures RoundHalfEven(n as real) == n
  {
  }

  lemma HalfUpMonotone(x: real, y: real)
    requires x <= y
    ensures RoundHalfUp(x) <= RoundHalfUp(y)
  {
  }

  /** Rounded multiples of 10^-8, the grid of every stored amount. */
  const TICKS := 100000000.0

  /** The value of a tick count. */
  function Value(ticks: int): real {
    ticks as real / TICKS
  }

  /** A decimal that eight fractional digits write exactly. */
  ghost predicate OnGrid(x: real) {
    exists t: int :: x == Value(t)
  }

  /** quantize(Decimal("0.00000001")) with the context default. */
  function ToTicks(x: real): int {
    RoundHalfEven(x * TICKS)
  }

  lemma GridIsExact(x: real)
    requires OnGrid(x)
    ensures Value(ToTicks(x)) == x
  {
    var t: int :| x == Value(t);
    assert x * TICKS == t as real;
    HalfEvenFixesIntegers(t);
  }

  lemma ToTicksMonotone(x: real, y: real)
    requires x <= y
    ensures ToTicks(x) <= ToTicks(y)
  {
    HalfEvenMonotone(x * TICKS, y * TICKS);
  }
}
