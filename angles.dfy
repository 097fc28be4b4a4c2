/** Angle arithmetic of the sketch (`normAngle`, `angleInArc`), on reals.
    IEEE rounding is not modelled; `PI` is the decimal value of
    JavaScript's `Math.PI`, as p5.js uses it. */
module Angles {

  const PI: real := 3.141592653589793
  const TWO_PI: real := 2.0 * PI
  const HALF_PI: real := PI / 2.0

  /** Integer part of `x`, rounded toward zero. */
  function Trunc(x: real): int
  {
    if x < 0.0 then -((-x).Floor) else x.Floor
  }

  /** JavaScript's `a % TWO_PI`: the remainder of the division rounded
      toward zero, which keeps the sign of `a`. */
  function RemTwoPi(a: real): (r: real)
    ensures 0.0 <= a ==> 0.0 <= r < TWO_PI
    ensures a < 0.0 ==> -TWO_PI < r <= 0.0
  {
    a - TWO_PI * Trunc(a / TWO_PI) as real
  }

  /** The number of whole turns below `a`. */
  function Turns(a: real): int
  {
    (a / TWO_PI).Floor
  }

  /** Reference definition: the representative of `a` modulo a full turn
      in `[0, TWO_PI)`. */
  function Wrap(a: real): (r: real)
    ensures 0.0 <= r < TWO_PI
  {
    a - TWO_PI * Turns(a) as real
  }

  /** A value in `[0, TWO_PI)` that differs from `a` by whole turns is `Wrap(a)`. */
  lemma WrapUnique(a: real, r: real, k: int)
    requires 0.0 <= r < TWO_PI && a == r + k as real * TWO_PI
    ensures Wrap(a) == r && Turns(a) == k
  {
    var q := a / TWO_PI;
    var f := r / TWO_PI;
    assert 0.0 <= f < 1.0;
    assert q == f + k as real;
    assert k as real <= q < k as real + 1.0;
    assert q.Floor == k;
  }

  lemma WrapShift(a: real, k: int)
    ensures Wrap(a + k as real * TWO_PI) == Wrap(a)
  {
    WrapUnique(a + k as real * TWO_PI, Wrap(a), Turns(a) + k);
  }

  /** Wrapping commutes with subtraction. */
  lemma WrapOfDiff(a: real, b: real)
    ensures Wrap(Wrap(a) - Wrap(b)) == Wrap(a - b)
  {
    var d := Wrap(a) - Wrap(b);
    assert a - b == d + (Turns(a) - Turns(b)) as real * TWO_PI;
    WrapShift(d, Turns(a) - Turns(b));
  }

  /** On less than a turn either way, wrapping adds a turn to negatives only. */
  lemma WrapSmall(d: real)
    requires -TWO_PI < d < TWO_PI
    ensures Wrap(d) == if d < 0.0 then d + TWO_PI else d
  {
    if d < 0.0 {
      WrapUnique(d, d + TWO_PI, -1);
    } else {
      WrapUnique(d, d, 0);
    }
  }

  /** The opposite of a nonzero angle wraps to the rest of the turn. */
  lemma WrapNeg(a: real)
    requires Wrap(a) != 0.0
    ensures Wrap(-a) == TWO_PI - Wrap(a)
  {
    WrapUnique(-a, TWO_PI - Wrap(a), -Turns(a) - 1);
  }

  /** Two angles are congruent exactly when their difference wraps to zero. */
  lemma WrapDiffZero(a: real, b: real)
    ensures Wrap(a - b) == 0.0 <==> Wrap(a) == Wrap(b)
  {
    WrapOfDiff(a, b);
    WrapSmall(Wrap(a) - Wrap(b));
  }

  /** JavaScript's remainder agrees with `Wrap` on non-negative values. */
  lemma RemOfNonNegative(a: real)
    requires 0.0 <= a
    ensures RemTwoPi(a) == Wrap(a)
  {
    WrapUnique(a, RemTwoPi(a), Trunc(a / TWO_PI));
  }

  /** `normAngle`: reduce modulo a turn, then lift a negative remainder. */
  function NormAngle(a: real): (r: real)
    ensures 0.0 <= r < TWO_PI
  {
    var r := RemTwoPi(a);
    if r < 0.0 then r + TWO_PI else r
  }

  /** `normAngle` computes the reference `Wrap`: its result is the only
      value of `[0, TWO_PI)` that differs from `a` by whole turns. */
  lemma NormAngleIsWrap(a: real)
    ensures NormAngle(a) == Wrap(a)
    ensures a == NormAngle(a) + Turns(a) as real * TWO_PI
  {
    var q := Trunc(a / TWO_PI);
    var r := RemTwoPi(a);
    if r < 0.0 {
      WrapUnique(a, r + TWO_PI, q - 1);
    } else {
      WrapUnique(a, r, q);
    }
  }

  /** `normAngle` leaves angles already in `[0, TWO_PI)` alone and ignores
      whole turns. */
  lemma NormAngleCanonical(a: real, k: int)
    ensures 0.0 <= a < TWO_PI ==> NormAngle(a) == a
    ensures NormAngle(a + k as real * TWO_PI) == NormAngle(a)
  {
    NormAngleIsWrap(a);
    NormAngleIsWrap(a + k as real * TWO_PI);
    WrapShift(a, k);
    if 0.0 <= a < TWO_PI {
      WrapUnique(a, a, 0);
    }
  }

  /** `angleInArc(angle, start, end)`: is `angle` on the arc swept from
      `start` to `end` in the direction of increasing angle, both ends
      included? */
  function AngleInArc(angle: real, start: real, end: real): bool
  {
    var a := NormAngle(angle);
    var s := NormAngle(start);
    var e := NormAngle(end);
    var arcLen := RemTwoPi(e - s + TWO_PI);
    var rel := RemTwoPi(a - s + TWO_PI);
    rel <= arcLen
  }

  /** Reference reading of `angleInArc`: the angle's offset from `start`
      is at most the arc's length, both measured in `[0, TWO_PI)`. */
  lemma AngleInArcIff(angle: real, start: real, end: real)
    ensures AngleInArc(angle, start, end) <==> Wrap(angle - start) <= Wrap(end - start)
  {
    NormAngleIsWrap(angle);
    NormAngleIsWrap(start);
    NormAngleIsWrap(end);
    OffsetFromStart(angle, start);
    OffsetFromStart(end, start);
  }

  lemma OffsetFromStart(x: real, start: real)
    ensures RemTwoPi(NormAngle(x) - NormAngle(start) + TWO_PI) == Wrap(x - start)
  {
    NormAngleIsWrap(x);
    NormAngleIsWrap(start);
    var d := Wrap(x) - Wrap(start);
    RemOfNonNegative(d + TWO_PI);
    WrapShift(d, 1);
    WrapOfDiff(x, start);
  }

  /** Both boundary angles of an arc lie on it. */
  lemma ArcEndsIncluded(start: real, end: real)
    ensures AngleInArc(start, start, end)
    ensures AngleInArc(end, start, end)
  {
    AngleInArcIff(start, start, end);
    AngleInArcIff(end, start, end);
    WrapUnique(start - start, 0.0, 0);
  }

  /** An arc whose ends coincide holds only the angles congruent to them. */
  lemma DegenerateArc(angle: real, start: real, end: real)
    requires Wrap(start) == Wrap(end)
    ensures AngleInArc(angle, start, end) <==> Wrap(angle) == Wrap(start)
  {
    AngleInArcIff(angle, start, end);
    WrapDiffZero(end, start);
    WrapDiffZero(angle, start);
  }

  /** An arc and the arc swept back from `end` to `start` cover the whole
      circle and overlap exactly at their two common ends. */
  lemma ArcAndComplement(angle: real, start: real, end: real)
    requires Wrap(start) != Wrap(end)
    ensures AngleInArc(angle, start, end) || AngleInArc(angle, end, start)
    ensures AngleInArc(angle, start, end) && AngleInArc(angle, end, start)
            <==> Wrap(angle) == Wrap(start) || Wrap(angle) == Wrap(end)
  {
    var u := Wrap(angle - start);
    var len := Wrap(end - start);
    AngleInArcIff(angle, start, end);
    AngleInArcIff(angle, end, start);
    WrapDiffZero(end, start);
    WrapDiffZero(angle, start);
    WrapDiffZero(angle, end);
    // the offsets seen from `end`
    assert (angle - start) - (end - start) == angle - end;
    WrapOfDiff(angle - start, end - start);
    WrapSmall(u - len);
    assert -(end - start) == start - end;
    WrapNeg(end - start);
  }
}
