/** Exact rounding to 2, 4 or 15 decimals, ties to even, as Python's `round` does on exact numbers. */
module Rounding {
  import opened Text

  /** The nearest integer, the even one of two equally near. */
  function Nearest(x: real): int {
    var low := x.Floor;
    var part := x - low as real;
    if part < 0.5 then low
    else if part > 0.5 then low + 1
    else if low % 2 == 0 then low else low + 1
  }

  /** `round(x, 2)` */
  function Round2(x: real): real {
    Nearest(x * 100.0) as real / 100.0
  }

  /** `round(x, 4)` */
  function Round4(x: real): real {
    Nearest(x * 10000.0) as real / 10000.0
  }

  /** `round_if_not_none` */
  function Round2Option(x: Option<real>): Option<real> {
    if x.Some? then Some(Round2(x.value)) else None
  }

  function Round4Option(x: Option<real>): Option<real> {
    if x.Some? then Some(Round4(x.value)) else None
  }

  /** `round_float_error`: `round(x, 15)` if there is a value */
  function RoundFloatError(x: Option<real>): Option<real> {
    if x.Some? then Some(Nearest(x.value * 1.0e15) as real / 1.0e15) else None
  }

  lemma NearestMonotone(x: real, y: real)
    requires x <= y
    ensures Nearest(x) <= Nearest(y)
  {
    assert x.Floor <= y.Floor;
  }

  lemma Round2Monotone(x: real, y: real)
    requires x <= y
    ensures Round2(x) <= Round2(y)
  {
    NearestMonotone(x * 100.0, y * 100.0);
  }

  lemma Round4Monotone(x: real, y: real)
    requires x <= y
    ensures Round4(x) <= Round4(y)
  {
    NearestMonotone(x * 10000.0, y * 10000.0);
  }

  lemma NearestIsNear(x: real)
    ensures -0.5 <= Nearest(x) as real - x <= 0.5
  {
  }

  /** Rounding moves a number by at most half a unit of the last decimal. */
  lemma Round4IsNear(x: real)
    ensures -0.00005 <= Round4(x) - x <= 0.00005
  {
    NearestIsNear(x * 10000.0);
  }

  /** `k` is the integer nearest to `x`, the even one of two. */
  predicate IsNearest(k: int, x: real) {
    -0.5 <= k as real - x <= 0.5 && (k as real - x == 0.5 || k as real - x == -0.5 ==> k % 2 == 0)
  }

  /** Rounded numbers are whole hundredths, ten-thousandths and so on, and the nearest ones. */
  lemma RoundsToNearest(x: real)
    ensures IsNearest(Nearest(x * 100.0), x * 100.0) && Round2(x) * 100.0 == Nearest(x * 100.0) as real
    ensures IsNearest(Nearest(x * 10000.0), x * 10000.0) && Round4(x) * 10000.0 == Nearest(x * 10000.0) as real
    ensures IsNearest(Nearest(x * 1.0e15), x * 1.0e15)
    ensures RoundFloatError(Some(x)).Some?
    ensures RoundFloatError(Some(x)).value * 1.0e15 == Nearest(x * 1.0e15) as real
  {
    NearestIs(x * 100.0);
    NearestIs(x * 10000.0);
    NearestIs(x * 1.0e15);
  }

  lemma NearestIs(x: real)
    ensures IsNearest(Nearest(x), x)
  {
  }
}
