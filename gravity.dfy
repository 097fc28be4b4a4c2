/** The gravity smoother of `handleMotion`: a device-motion sample becomes a
    target in `[-1, 1]` per axis, and the smoothed value moves a fixed
    fraction of the way toward it. */
module Gravity {
  import P5

  /** `GRAVITY_FILTER_ALPHA`: the fraction of the gap closed per sample. */
  const GRAVITY_FILTER_ALPHA: real := 0.12
  /** One g in m/s^2, the reading that maps to a full-strength target. */
  const ONE_G: real := 9.8
  /** `GRAVITY_SCALE`: multiplier from the smoothed value to world gravity. */
  const GRAVITY_SCALE: real := 1.0
  /** `BASE_GRAVITY_SCALE`: the engine's gravity scale before `GRAVITY_SCALE`. */
  const BASE_GRAVITY_SCALE: real := 0.003

  datatype Option<T> = None | Some(value: T)

  /** A 3-axis acceleration reading; an axis may be missing. */
  datatype Acceleration = Acceleration(x: Option<real>, y: Option<real>, z: Option<real>)

  /** A `devicemotion` event; either reading may be missing. */
  datatype MotionEvent = MotionEvent(accelerationIncludingGravity: Option<Acceleration>,
                                     acceleration: Option<Acceleration>)

  /** `e.accelerationIncludingGravity || e.acceleration`. */
  function Reading(e: MotionEvent): (acc: Option<Acceleration>)
    ensures acc.None? <==> e.accelerationIncludingGravity.None? && e.acceleration.None?
    ensures e.accelerationIncludingGravity.Some? ==> acc == e.accelerationIncludingGravity
    ensures e.accelerationIncludingGravity.None? ==> acc == e.acceleration
  {
    if e.accelerationIncludingGravity.Some? then e.accelerationIncludingGravity else e.acceleration
  }

  /** `acc.x || 0`: a missing axis reads as zero. */
  function AxisOrZero(v: Option<real>): real
  {
    match v
    case Some(a) => a
    case None => 0.0
  }

  /** `constrain(-a / 9.8, -1, 1)`: the target for one screen axis, with the
      device axis reversed and one g mapped to a full-strength target. */
  function Target(a: real): (t: real)
    ensures -1.0 <= t <= 1.0
    ensures -ONE_G <= a <= ONE_G ==> t * ONE_G == -a
    ensures a >= ONE_G ==> t == -1.0
    ensures a <= -ONE_G ==> t == 1.0
  {
    P5.Constrain(-a / ONE_G, -1.0, 1.0)
  }

  /** One low-pass step: `s += (t - s) * GRAVITY_FILTER_ALPHA`. */
  function Smooth(s: real, t: real): real
  {
    s + (t - s) * GRAVITY_FILTER_ALPHA
  }

  /** The step is a convex combination: the new value lies between the old
      value and the target, and the gap to the target shrinks by exactly the
      factor `1 - GRAVITY_FILTER_ALPHA`. */
  lemma SmoothIsConvex(s: real, t: real)
    ensures Smooth(s, t) - t == (1.0 - GRAVITY_FILTER_ALPHA) * (s - t)
    ensures s <= t ==> s <= Smooth(s, t) <= t
    ensures t <= s ==> t <= Smooth(s, t) <= s
  {
  }

  /** `n` samples with the same target. */
  function SmoothN(s: real, t: real, n: nat): real
  {
    if n == 0 then s else Smooth(SmoothN(s, t, n - 1), t)
  }

  function Pow(x: real, n: nat): real
  {
    if n == 0 then 1.0 else x * Pow(x, n - 1)
  }

  /** After `n` samples toward a fixed target the gap is the initial gap
      times `(1 - GRAVITY_FILTER_ALPHA)^n`. */
  lemma {:induction false} SmoothNGap(s: real, t: real, n: nat)
    ensures SmoothN(s, t, n) - t == Pow(1.0 - GRAVITY_FILTER_ALPHA, n) * (s - t)
  {
    if n > 0 {
      SmoothNGap(s, t, n - 1);
      SmoothIsConvex(SmoothN(s, t, n - 1), t);
    }
  }

  /** The smoothed value never leaves `[-1, 1]` when it starts there: every
      target is in that interval. */
  lemma {:induction false} SmoothNInRange(s: real, t: real, n: nat)
    requires -1.0 <= s <= 1.0 && -1.0 <= t <= 1.0
    ensures -1.0 <= SmoothN(s, t, n) <= 1.0
  {
    if n > 0 {
      SmoothNInRange(s, t, n - 1);
      SmoothIsConvex(SmoothN(s, t, n - 1), t);
    }
  }

  /** `(1 - alpha)^n * (1 + alpha * n) <= 1`. */
  lemma {:induction false} PowRate(n: nat)
    ensures 0.0 <= Pow(1.0 - GRAVITY_FILTER_ALPHA, n)
    ensures Pow(1.0 - GRAVITY_FILTER_ALPHA, n) * (1.0 + GRAVITY_FILTER_ALPHA * n as real) <= 1.0
  {
    if n > 0 {
      PowRate(n - 1);
      RateStep(Pow(1.0 - GRAVITY_FILTER_ALPHA, n - 1), GRAVITY_FILTER_ALPHA, (n - 1) as real);
    }
  }

  /** One step of `PowRate`, with the power, the rate and the count as
      plain numbers. */
  lemma RateStep(p: real, a: real, m: real)
    requires 0.0 <= p && 0.0 < a < 1.0 && 0.0 <= m
    requires p * (1.0 + a * m) <= 1.0
    ensures 0.0 <= (1.0 - a) * p
    ensures (1.0 - a) * p * (1.0 + a * (m + 1.0)) <= 1.0
  {
    var q := p * (1.0 + a * m);
    MulNonNeg(p, a * m);
    assert q == p + p * (a * m);
    assert (1.0 - a) * p * (1.0 + a * (m + 1.0)) == (1.0 - a) * q + (1.0 - a) * (a * p);
    MulLe(1.0 - a, q, 1.0);
    MulLe(a, p, 1.0);
    MulLe(1.0 - a, a * p, a);
    MulNonNeg(1.0 - a, p);
  }

  lemma MulNonNeg(x: real, y: real)
    requires 0.0 <= x && 0.0 <= y
    ensures 0.0 <= x * y
  {
  }

  lemma MulLe(x: real, y: real, z: real)
    requires 0.0 <= x && y <= z
    ensures x * y <= x * z
  {
    MulNonNeg(x, z - y);
    assert x * (z - y) == x * z - x * y;
  }

  function Abs(x: real): real
  {
    if x < 0.0 then -x else x
  }

  /** Repeated samples with a constant target converge to it: after `n`
      samples the gap is at most the initial gap over
      `1 + GRAVITY_FILTER_ALPHA * n`. */
  lemma SmoothNConverges(s: real, t: real, n: nat)
    ensures Abs(SmoothN(s, t, n) - t) * (1.0 + GRAVITY_FILTER_ALPHA * n as real) <= Abs(s - t)
  {
    SmoothNGap(s, t, n);
    PowRate(n);
    var p := Pow(1.0 - GRAVITY_FILTER_ALPHA, n);
    var q := 1.0 + GRAVITY_FILTER_ALPHA * n as real;
    var d := Abs(s - t);
    if s - t < 0.0 {
      assert SmoothN(s, t, n) - t == -(p * d);
    } else {
      assert SmoothN(s, t, n) - t == p * d;
    }
    assert Abs(SmoothN(s, t, n) - t) == p * d;
    assert p * d * q == (p * q) * d;
    assert 0.0 <= p * q <= 1.0;
    assert (1.0 - p * q) * d >= 0.0;
  }
}
