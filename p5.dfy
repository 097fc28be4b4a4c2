/** The two p5.js helpers the sketch computes with, on reals. */
module P5 {

  /** `constrain(n, low, high)`: `Math.max(Math.min(n, high), low)`. */
  function Constrain(n: real, low: real, high: real): (r: real)
    ensures low <= high ==> low <= r <= high
    ensures low <= n <= high ==> r == n
    ensures low <= high && n < low ==> r == low
    ensures low <= high && high < n ==> r == high
  {
    var upper := if n < high then n else high;
    if upper > low then upper else low
  }

  /** `map(n, start1, stop1, start2, stop2)`: the affine map taking
      `start1` to `start2` and `stop1` to `stop2`.  JavaScript divides by
      zero when `start1 == stop1`; no caller of the sketch does that. */
  function MapRange(n: real, start1: real, stop1: real, start2: real, stop2: real): real
    requires start1 != stop1
  {
    (n - start1) / (stop1 - start1) * (stop2 - start2) + start2
  }

  /** An increasing map sends the half-open interval `[start1, stop1)`
      into `[start2, stop2)`. */
  lemma MapRangeBounds(n: real, start1: real, stop1: real, start2: real, stop2: real)
    requires start1 < stop1 && start2 < stop2 && start1 <= n < stop1
    ensures start2 <= MapRange(n, start1, stop1, start2, stop2) < stop2
  {
    var t := (n - start1) / (stop1 - start1);
    FractionBelowOne(n - start1, stop1 - start1);
    ScaleBelow(t, stop2 - start2);
  }

  lemma FractionBelowOne(x: real, d: real)
    requires 0.0 <= x < d
    ensures 0.0 <= x / d < 1.0
  {
    var q := x / d;
    assert q * d == x;
  }

  lemma ScaleBelow(t: real, w: real)
    requires 0.0 <= t < 1.0 && 0.0 < w
    ensures 0.0 <= t * w < w
  {
    assert (1.0 - t) * w > 0.0;
  }
}
