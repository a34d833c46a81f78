/** `Math.Round(x, 1)` on .NET decimals: round to one decimal place, a
    midpoint going to the even neighbour (the default midpoint rule). */
module Rounding {

  /** The number of tenths `Math.Round(x, 1)` yields: the integer nearest to
      x·10, ties to the even one. */
  function NearestTenths(x: real): int
  {
    var y := x * 10.0;
    var f := y.Floor;
    var frac := y - f as real;
    if frac < 0.5 then f
    else if frac > 0.5 then f + 1
    else if f % 2 == 0 then f
    else f + 1
  }

  /** `Math.Round(x, 1)`. */
  function RoundTenths(x: real): real
  {
    NearestTenths(x) as real / 10.0
  }

  /** The result is a whole number of tenths, at most half a tenth away from
      the input, and a midpoint goes to an even number of tenths. */
  lemma RoundTenthsNearest(x: real)
    ensures RoundTenths(x) * 10.0 == NearestTenths(x) as real
    ensures -0.05 <= RoundTenths(x) - x <= 0.05
    ensures (x * 10.0 - (x * 10.0).Floor as real == 0.5) ==> NearestTenths(x) % 2 == 0
  {
  }

  /** x has at most one decimal place. */
  predicate InTenths(x: real)
  {
    (x * 10.0).Floor as real == x * 10.0
  }

  /** Every rounded value has at most one decimal place. */
  lemma RoundTenthsInTenths(x: real)
    ensures InTenths(RoundTenths(x))
  {
    var n := NearestTenths(x);
    assert RoundTenths(x) * 10.0 == n as real;
    assert (n as real).Floor == n;
  }

  /** A value that already has one decimal place is left as it is. */
  lemma RoundTenthsOfTenths(n: int)
    ensures RoundTenths(n as real / 10.0) == n as real / 10.0
  {
    assert (n as real / 10.0) * 10.0 == n as real;
    assert (n as real).Floor == n;
  }

  /** Rounding is monotone, so it never inverts an order between two bounds. */
  lemma RoundTenthsMonotone(x: real, y: real)
    requires x <= y
    ensures RoundTenths(x) <= RoundTenths(y)
  {
    var fx, fy := (x * 10.0).Floor, (y * 10.0).Floor;
    assert fx <= fy;
    if fx == fy {
      assert x * 10.0 - fx as real <= y * 10.0 - fy as real;
    }
    assert NearestTenths(x) <= NearestTenths(y);
  }
}
