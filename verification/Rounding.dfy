/** Python's `abs`, and its `round` to an integer, over reals. */
module Rounding {
  function AbsReal(x: real): real { if x < 0.0 then -x else x }

  /** `n` is an integer closest to `x`, the even one when two are. */
  predicate IsNearest(x: real, n: int) {
    -0.5 <= n as real - x <= 0.5 && (n as real - x == 0.5 || n as real - x == -0.5 ==> n % 2 == 0)
  }

  /** Halves go to the even neighbour. */
  function RoundHalfEven(x: real): (n: int)
    ensures -0.5 <= n as real - x <= 0.5
  {
    var f := x.Floor;
    var rest := x - f as real;
    if rest < 0.5 then f else if rest > 0.5 then f + 1 else if f % 2 == 0 then f else f + 1
  }

  lemma RoundIsNearest(x: real, n: int)
    ensures RoundHalfEven(x) == n <==> IsNearest(x, n)
  {
  }

  /** Values less than one apart round at most one apart; a step of one in the result spans at most two. */
  lemma RoundSteps(x: real, y: real)
    ensures -1.0 < x - y < 1.0 ==> -1 <= RoundHalfEven(x) - RoundHalfEven(y) <= 1
    ensures -1 <= RoundHalfEven(x) - RoundHalfEven(y) <= 1 ==> -2.0 <= x - y <= 2.0
  {
    hide RoundHalfEven;
  }
}
