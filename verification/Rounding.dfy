/** Rounding to two decimals (agent/utils/utils.go), on reals. */
module Rounding {
  /** math.Round: halves away from zero. */
  function Round(x: real): real {
    if x >= 0.0 then (x + 0.5).Floor as real else -((0.5 - x).Floor as real)
  }

  function TwoDecimals(x: real): real {
    Round(x * 100.0) / 100.0
  }

  function Size(x: real): real {
    if x < 0.0 then -x else x
  }

  /** n is an integer nearest to y; of two, the one further from zero. */
  predicate IsNearest(n: int, y: real) {
    Size(n as real - y) <= 0.5 && (Size(n as real - y) == 0.5 ==> Size(n as real) > Size(y))
  }

  predicate IsInHundredths(r: real, n: int, x: real) {
    r * 100.0 == n as real && IsNearest(n, x * 100.0)
  }

  ghost predicate IsHundredth(r: real, x: real) {
    exists n :: IsInHundredths(r, n, x)
  }

  /** A hundred times the result is the integer nearest to a hundred times the value. */
  lemma NearestHundredth(x: real)
    ensures IsHundredth(TwoDecimals(x), x)
  {
    var y := x * 100.0;
    var n := if y >= 0.0 then (y + 0.5).Floor else -(0.5 - y).Floor;
    assert Round(y) == n as real;
    assert n as real / 100.0 * 100.0 == n as real;
    assert IsInHundredths(TwoDecimals(x), n, x);
  }
}
