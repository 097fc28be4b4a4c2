/** The ring gate: which ring slots are open for the current hand angles.
    This module holds the pure part (hand angles, the minor-arc choice,
    what a synchronised ring looks like); the per-frame loop that toggles
    the colliders is `Sketch.Sketch.UpdateGate`. */
module Gate {
  import opened Angles
  import opened Physics
  import P5

  /** Number of colliders around the ring. */
  const RING_SEGMENTS: nat := 600

  /** One ring slot: its static collider, its fixed angle and whether the
      collider is currently taken out of the world. */
  datatype Segment = Segment(body: BodyRef, theta: real, isOpen: bool)

  /** The angle of slot `i`: `map(i, 0, RING_SEGMENTS, 0, TWO_PI)`. */
  function SegmentAngle(i: nat): real
  {
    P5.MapRange(i as real, 0.0, RING_SEGMENTS as real, 0.0, TWO_PI)
  }

  datatype Hands = Hands(minute: real, hour: real)

  /** The minute and hour hand angles for a wall-clock time: the minute
      hand includes the fraction of the minute, the hour hand (on a
      12-hour dial) the fraction of the hour. */
  function HandAngles(hour: nat, minute: nat, second: nat): Hands
  {
    var h := hour % 12;
    Hands(P5.MapRange(minute as real + second as real / 60.0, 0.0, 60.0, 0.0, TWO_PI),
          P5.MapRange(h as real + minute as real / 60.0, 0.0, 12.0, 0.0, TWO_PI))
  }

  /** For the values a clock reports, both hands are in `[0, TWO_PI)`. */
  lemma HandAnglesInRange(hour: nat, minute: nat, second: nat)
    requires minute < 60 && second < 60
    ensures 0.0 <= HandAngles(hour, minute, second).minute < TWO_PI
    ensures 0.0 <= HandAngles(hour, minute, second).hour < TWO_PI
  {
    P5.MapRangeBounds(minute as real + second as real / 60.0, 0.0, 60.0, 0.0, TWO_PI);
    P5.MapRangeBounds((hour % 12) as real + minute as real / 60.0, 0.0, 12.0, 0.0, TWO_PI);
  }

  /** Every slot angle is in `[0, TWO_PI)`. */
  lemma SegmentAngleInRange(i: nat)
    requires i < RING_SEGMENTS
    ensures 0.0 <= SegmentAngle(i) < TWO_PI
  {
    P5.MapRangeBounds(i as real, 0.0, RING_SEGMENTS as real, 0.0, TWO_PI);
  }

  datatype Arc = Arc(start: real, end: real)

  /** The gate for two hand angles: both are turned back a quarter turn so
      that zero points at 12 o'clock, and when the arc from the first to
      the second is longer than half a turn the ends are swapped. */
  function GateArc(angleA: real, angleB: real): Arc
  {
    var start := angleA - HALF_PI;
    var end := angleB - HALF_PI;
    var arcLen := RemTwoPi(end - start + TWO_PI);
    if arcLen > PI then Arc(end, start) else Arc(start, end)
  }

  /** For hand angles in `[0, TWO_PI)` the gate is always the minor arc
      between the two shifted hands, whichever hand leads. */
  lemma GateIsMinorArc(angleA: real, angleB: real)
    requires 0.0 <= angleA < TWO_PI && 0.0 <= angleB < TWO_PI
    ensures Wrap(GateArc(angleA, angleB).end - GateArc(angleA, angleB).start) <= PI
    ensures Wrap(angleB - angleA) <= PI ==> GateArc(angleA, angleB) == Arc(angleA - HALF_PI, angleB - HALF_PI)
    ensures Wrap(angleB - angleA) > PI ==> GateArc(angleA, angleB) == Arc(angleB - HALF_PI, angleA - HALF_PI)
  {
    var start := angleA - HALF_PI;
    var end := angleB - HALF_PI;
    assert end - start == angleB - angleA;
    RemOfNonNegative(end - start + TWO_PI);
    WrapShift(end - start, 1);
    if Wrap(angleB - angleA) > PI {
      assert start - end == -(angleB - angleA);
      WrapNeg(angleB - angleA);
    }
  }

  /** Every slot's flag agrees with the gate `[start, end]`. */
  ghost predicate Synced(segs: seq<Segment>, start: real, end: real)
  {
    forall i :: 0 <= i < |segs| ==> segs[i].isOpen == AngleInArc(segs[i].theta, start, end)
  }

  /** The number of slots whose flag disagrees with the gate, which is the
      number of world add/remove calls the gate loop makes. */
  function Mismatches(segs: seq<Segment>, start: real, end: real): nat
  {
    if segs == [] then 0
    else
      var last := segs[|segs| - 1];
      Mismatches(segs[..|segs| - 1], start, end)
        + (if last.isOpen != AngleInArc(last.theta, start, end) then 1 else 0)
  }

  /** The gate loop makes no world call exactly when the ring is already
      synchronised with the gate. */
  lemma {:induction false} MismatchesZero(segs: seq<Segment>, start: real, end: real)
    ensures Mismatches(segs, start, end) == 0 <==> Synced(segs, start, end)
  {
    if segs != [] {
      var init := segs[..|segs| - 1];
      MismatchesZero(init, start, end);
      assert forall i :: 0 <= i < |init| ==> init[i] == segs[i];
    }
  }
}
