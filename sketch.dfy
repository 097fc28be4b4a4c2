/** The sketch's mutable state and the per-frame operations that change
    it: the module-level globals of the program become the fields of one
    `Sketch` object. */
module Sketch {
  import opened Angles
  import opened Physics
  import opened Gate
  import opened Balls
  import opened Gravity
  import Trail
  import P5

  /** The engine's default gravity scale, in force until the first
      motion sample. */
  const DEFAULT_GRAVITY_SCALE: real := 0.001

  class Sketch {
    /** The physics world: the bodies currently added to it. */
    var world: set<BodyRef>
    /** `world.gravity`: direction and scale. */
    var gravityX: real
    var gravityY: real
    var gravityScale: real
    /** `ringBlocks`: one slot per ring position. */
    const ringBlocks: array<Segment>
    /** `balls`: the active balls, in spawn order. */
    var balls: seq<Ball>
    /** The id the engine gives the next body it creates. */
    var nextBodyId: nat
    /** `prevMinute`: the minute of the last frame. */
    var prevMinute: int
    var targetGx: real
    var targetGy: real
    var smoothedGx: real
    var smoothedGy: real

    /** Every slot keeps its collider and angle, a slot's collider is in
        the world exactly when the slot is closed, and the world holds no
        ring collider beyond the ring. */
    ghost predicate RingValid()
      reads this, ringBlocks
    {
      && ringBlocks.Length == RING_SEGMENTS
      && (forall i :: 0 <= i < ringBlocks.Length ==>
            ringBlocks[i].body == RingCollider(i) && ringBlocks[i].theta == SegmentAngle(i))
      && (forall i :: 0 <= i < ringBlocks.Length ==> (RingCollider(i) in world <==> !ringBlocks[i].isOpen))
      && (forall k: nat :: RingCollider(k) in world ==> k < RING_SEGMENTS)
    }

    /** The ball list and the world satisfy `BallsInvariant`. */
    ghost predicate BallsValid()
      reads this
    {
      BallsInvariant(balls, world, nextBodyId)
    }

    /** Targets and smoothed values stay in `[-1, 1]` and the world's
        gravity is the smoothed vector. */
    ghost predicate GravityValid()
      reads this
    {
      && -1.0 <= targetGx <= 1.0 && -1.0 <= targetGy <= 1.0
      && -1.0 <= smoothedGx <= 1.0 && -1.0 <= smoothedGy <= 1.0
      && gravityX == smoothedGx * GRAVITY_SCALE && gravityY == smoothedGy * GRAVITY_SCALE
    }

    ghost predicate Valid()
      reads this, ringBlocks
    {
      RingValid() && BallsValid() && GravityValid()
    }

    /** The part of the state the ball operations change. */
    ghost function BallState(): Population
      reads this
    {
      Population(balls, world, nextBodyId)
    }

    /** `setup`: every ring slot gets its collider, added to the world and
        closed; no balls; gravity points straight down. */
    constructor Setup(minute: int)
      ensures Valid() && fresh(ringBlocks)
      ensures balls == [] && prevMinute == minute
      ensures forall i :: 0 <= i < ringBlocks.Length ==> !ringBlocks[i].isOpen
      ensures forall i :: 0 <= i < ringBlocks.Length ==> 0.0 <= ringBlocks[i].theta < TWO_PI
      ensures world == set i: nat | i < RING_SEGMENTS :: RingCollider(i)
      ensures nextBodyId == 0
      ensures gravityX == 0.0 && gravityY == 1.0 && gravityScale == DEFAULT_GRAVITY_SCALE
      ensures targetGx == 0.0 && targetGy == 1.0 && smoothedGx == 0.0 && smoothedGy == 1.0
    {
      var blocks := new Segment[RING_SEGMENTS];
      var w: set<BodyRef> := {};
      var i := 0;
      while i < RING_SEGMENTS
        invariant 0 <= i <= RING_SEGMENTS
        invariant forall j :: 0 <= j < i ==> blocks[j] == Segment(RingCollider(j), SegmentAngle(j), false)
        invariant w == set j: nat | j < i :: RingCollider(j)
      {
        blocks[i] := Segment(RingCollider(i), SegmentAngle(i), false);
        w := w + {RingCollider(i)};
        i := i + 1;
      }
      forall j | 0 <= j < RING_SEGMENTS
        ensures 0.0 <= SegmentAngle(j) < TWO_PI
      {
        SegmentAngleInRange(j);
      }
      ringBlocks := blocks;
      world := w;
      gravityX, gravityY, gravityScale := 0.0, 1.0, DEFAULT_GRAVITY_SCALE;
      balls := [];
      nextBodyId := 0;
      prevMinute := minute;
      targetGx, targetGy := 0.0, 1.0;
      smoothedGx, smoothedGy := 0.0, 1.0;
    }

    /** The gate loop of `draw`: open every closed slot on the arc from
        `start` to `end` (its collider leaves the world) and close every open
        slot off it (its collider comes back).  `calls` counts the world
        add/remove calls. */
    method UpdateGate(start: real, end: real) returns (ghost calls: nat)
      requires Valid()
      modifies this`world, ringBlocks
      ensures Valid()
      ensures Synced(ringBlocks[..], start, end)
      ensures calls == Mismatches(old(ringBlocks[..]), start, end)
      ensures old(Synced(ringBlocks[..], start, end)) ==>
        calls == 0 && world == old(world) && ringBlocks[..] == old(ringBlocks[..])
      ensures forall b: BodyRef :: !b.RingCollider? ==> (b in world <==> b in old(world))
    {
      calls := 0;
      var i := 0;
      while i < ringBlocks.Length
        invariant 0 <= i <= ringBlocks.Length
        invariant forall j :: 0 <= j < i ==>
          ringBlocks[j] == old(ringBlocks[j]).(isOpen := AngleInArc(old(ringBlocks[j]).theta, start, end))
        invariant forall j :: i <= j < ringBlocks.Length ==> ringBlocks[j] == old(ringBlocks[j])
        invariant forall j :: 0 <= j < ringBlocks.Length ==> (RingCollider(j) in world <==> !ringBlocks[j].isOpen)
        invariant forall b: BodyRef :: !(b.RingCollider? && b.index < ringBlocks.Length) ==> (b in world <==> b in old(world))
        invariant calls == Mismatches(old(ringBlocks[..])[..i], start, end)
      {
        assert old(ringBlocks[..])[..i + 1][..i] == old(ringBlocks[..])[..i];
        var changed := SyncSegment(i, start, end);
        if changed {
          calls := calls + 1;
        }
        i := i + 1;
      }
      assert old(ringBlocks[..])[..i] == old(ringBlocks[..]);
      MismatchesZero(old(ringBlocks[..]), start, end);
    }

    /** One iteration of the gate loop: segment `i` should be open when
        its angle lies on the arc; an open segment that should close puts
        its collider back into the world, a closed one that should open
        takes it out.  `changed` says whether the world was touched. */
    method SyncSegment(i: nat, start: real, end: real) returns (changed: bool)
      requires i < ringBlocks.Length
      requires ringBlocks[i].body == RingCollider(i)
      requires RingCollider(i) in world <==> !ringBlocks[i].isOpen
      modifies this`world, ringBlocks
      ensures ringBlocks[i] == old(ringBlocks[i]).(isOpen := AngleInArc(old(ringBlocks[i]).theta, start, end))
      ensures forall j :: 0 <= j < ringBlocks.Length && j != i ==> ringBlocks[j] == old(ringBlocks[j])
      ensures changed == (old(ringBlocks[i]).isOpen != ringBlocks[i].isOpen)
      ensures RingCollider(i) in world <==> !ringBlocks[i].isOpen
      ensures forall b: BodyRef :: b != RingCollider(i) ==> (b in world <==> b in old(world))
      ensures !changed ==> world == old(world)
    {
      var seg := ringBlocks[i];
      var shouldOpen := AngleInArc(seg.theta, start, end);
      changed := false;
      if shouldOpen && !seg.isOpen {
        world := world - {seg.body};
        ringBlocks[i] := seg.(isOpen := true);
        changed := true;
      } else if !shouldOpen && seg.isOpen {
        world := world + {seg.body};
        ringBlocks[i] := seg.(isOpen := false);
        changed := true;
      }
    }

    /** `resetBalls`: every ball's body leaves the world and the list is
        emptied. */
    method ResetBalls()
      requires Valid()
      modifies this`world, this`balls
      ensures Valid()
      ensures balls == []
      ensures world == old(world) - Colliders(old(balls))
      ensures BallState() == Reset(old(BallState()))
    {
      ResetKeepsInvariant(balls, world, nextBodyId);
      var i := 0;
      while i < |balls|
        invariant 0 <= i <= |balls| && balls == old(balls)
        invariant world == old(world) - Colliders(balls[..i])
      {
        assert balls[..i + 1] == balls[..i] + [balls[i]];
        CollidersAppend(balls[..i], balls[i]);
        world := world - {balls[i].Body()};
        i := i + 1;
      }
      assert balls[..i] == balls;
      balls := [];
    }

    /** `spawnBall`: unless the list is longer than `HARD_CEILING`, create a
        ball body at `(x, SPAWN_Y)` with radius `r` and velocity `(vx, vy)`,
        add it to the world and append its record.  `r` is drawn from
        `[8, 16)`. */
    method SpawnBall(x: real, r: real, vx: real, vy: real, frameCount: nat)
      requires Valid()
      requires 8.0 <= r < 16.0
      modifies this`world, this`balls, this`nextBodyId
      ensures Valid()
      ensures BallState() == Spawn(old(BallState()), x, r, vx, vy, frameCount)
    {
      if |balls| > HARD_CEILING {
        return;
      }
      var id := nextBodyId;
      var trail := SpawnTrail(x);
      var b := NewBall(id, x, r, vx, vy, frameCount, trail);
      SpawnKeepsInvariant(balls, world, nextBodyId, b);
      world := world + {b.Body()};
      balls := balls + [b];
      nextBodyId := nextBodyId + 1;
    }

    /** `controlPopulation`: count the non-dying balls and, when there are
        more than `MAX_BALLS`, mark the first `TO_MARK_PER_FRAME` of them, in
        list order, as dying. */
    method ControlPopulation()
      requires Valid()
      modifies this`balls
      ensures Valid()
      ensures balls == ControlledPopulation(old(balls))
      ensures BallState() == Control(old(BallState()))
    {
      ControlKeepsInvariant(balls, world, nextBodyId);
      balls := MarkOldest(balls);
    }

    /** The ball loop of `draw`, run from the last ball down to the first:
        clamp each velocity, extend the trail on even frames, shrink dying
        balls, and remove a ball from the world and the list in the step its
        radius falls below `MIN_RADIUS`. */
    method UpdateBalls(frameCount: nat)
      requires Valid()
      modifies this`world, this`balls
      ensures Valid()
      ensures balls == StepBalls(old(balls), frameCount)
      ensures world == old(world) - Dropped(old(balls), frameCount)
      ensures BallState() == Step(old(BallState()), frameCount)
    {
      ghost var balls0, world0 := balls, world;
      var bs, w := StepAll(balls, world, frameCount);
      StepKeepsInvariant(balls0, world0, nextBodyId, frameCount);
      CollidersAfterStep(balls0, frameCount);
      balls, world := bs, w;
    }

    /** `handleMotion`: ignore an event without a reading; otherwise set
        both targets from the reading, move both smoothed values toward them
        and write the result into the world's gravity. */
    method HandleMotion(e: MotionEvent)
      requires Valid()
      modifies this`targetGx, this`targetGy, this`smoothedGx, this`smoothedGy,
               this`gravityX, this`gravityY, this`gravityScale
      ensures Valid()
      ensures Reading(e).None? ==>
        && targetGx == old(targetGx) && targetGy == old(targetGy)
        && smoothedGx == old(smoothedGx) && smoothedGy == old(smoothedGy)
        && gravityX == old(gravityX) && gravityY == old(gravityY) && gravityScale == old(gravityScale)
      ensures Reading(e).Some? ==>
        && targetGx == Target(AxisOrZero(Reading(e).value.x))
        && targetGy == Target(AxisOrZero(Reading(e).value.y))
        && smoothedGx == Smooth(old(smoothedGx), targetGx)
        && smoothedGy == Smooth(old(smoothedGy), targetGy)
        && gravityX == smoothedGx * GRAVITY_SCALE && gravityY == smoothedGy * GRAVITY_SCALE
        && gravityScale == BASE_GRAVITY_SCALE * GRAVITY_SCALE
    {
      var acc := Reading(e);
      if acc.None? {
        return;
      }
      var ax := AxisOrZero(acc.value.x);
      var ay := AxisOrZero(acc.value.y);
      targetGx := Target(ax);
      targetGy := Target(ay);
      SmoothIsConvex(smoothedGx, targetGx);
      SmoothIsConvex(smoothedGy, targetGy);
      smoothedGx := Smooth(smoothedGx, targetGx);
      smoothedGy := Smooth(smoothedGy, targetGy);
      gravityX := smoothedGx * GRAVITY_SCALE;
      gravityY := smoothedGy * GRAVITY_SCALE;
      gravityScale := BASE_GRAVITY_SCALE * GRAVITY_SCALE;
    }

    /** The gate part of `draw`: the hand angles for the time, the minor arc
        between them, and one pass over the ring that opens exactly the
        segments inside it. */
    method SyncGate(hour: nat, minute: nat, second: nat) returns (gate: Arc)
      requires Valid()
      requires minute < 60 && second < 60
      modifies this`world, ringBlocks
      ensures Valid()
      ensures gate == GateArc(HandAngles(hour, minute, second).minute, HandAngles(hour, minute, second).hour)
      ensures Synced(ringBlocks[..], gate.start, gate.end)
      ensures Wrap(gate.end - gate.start) <= PI
      ensures forall b: BodyRef :: !b.RingCollider? ==> (b in world <==> b in old(world))
    {
      var hands := HandAngles(hour, minute, second);
      gate := GateArc(hands.minute, hands.hour);
      HandAnglesInRange(hour, minute, second);
      GateIsMinorArc(hands.minute, hands.hour);
      ghost var calls := UpdateGate(gate.start, gate.end);
    }

    /** The ball part of `draw`: spawn a ball every `SPAWN_INTERVAL`
        frames, control the population and run the ball loop. */
    method UpdatePopulation(frameCount: nat, spawnX: real, spawnR: real, spawnVx: real, spawnVy: real)
      requires Valid()
      requires 8.0 <= spawnR < 16.0
      modifies this`world, this`balls, this`nextBodyId
      ensures Valid()
      ensures BallState() == PopulationFrame(old(BallState()), frameCount, spawnX, spawnR, spawnVx, spawnVy)
    {
      if frameCount % SPAWN_INTERVAL == 0 {
        SpawnBall(spawnX, spawnR, spawnVx, spawnVy, frameCount);
      }
      ControlPopulation();
      UpdateBalls(frameCount);
    }

    /** One frame of `draw`: reset the balls when the minute changed, open
        the gate on the minor arc between the minute and hour hands, spawn a
        ball every `SPAWN_INTERVAL` frames, control the population and run
        the ball loop.  The balls, the next id and the ball bodies in the
        world become `Frame` of the old ones; the ring agrees with the gate. */
    method Draw(hour: nat, minute: nat, second: nat, frameCount: nat,
                spawnX: real, spawnR: real, spawnVx: real, spawnVy: real)
      returns (gate: Arc)
      requires Valid()
      requires minute < 60 && second < 60
      requires 8.0 <= spawnR < 16.0
      modifies this`world, this`balls, this`nextBodyId, this`prevMinute, ringBlocks
      ensures Valid()
      ensures prevMinute == minute
      ensures gate == GateArc(HandAngles(hour, minute, second).minute, HandAngles(hour, minute, second).hour)
      ensures Synced(ringBlocks[..], gate.start, gate.end)
      ensures Wrap(gate.end - gate.start) <= PI
      ensures balls == Frame(old(BallState()), minute != old(prevMinute), frameCount,
                             spawnX, spawnR, spawnVx, spawnVy).balls
      ensures nextBodyId == Frame(old(BallState()), minute != old(prevMinute), frameCount,
                                  spawnX, spawnR, spawnVx, spawnVy).nextId
      ensures forall id :: BallCollider(id) in world <==>
        BallCollider(id) in Frame(old(BallState()), minute != old(prevMinute), frameCount,
                                  spawnX, spawnR, spawnVx, spawnVy).world
      ensures forall b :: b in balls ==>
        -MAX_V <= b.velocity.x <= MAX_V && -MAX_V <= b.velocity.y <= MAX_V
      ensures minute != old(prevMinute) ==> BornSince(balls, old(nextBodyId)) && |balls| <= 1
    {
      ghost var p0 := BallState();
      ghost var changed := minute != prevMinute;
      if minute != prevMinute {
        ResetBalls();
        prevMinute := minute;
      }
      ghost var p1 := BallState();
      gate := SyncGate(hour, minute, second);
      ghost var p2 := BallState();
      UpdatePopulation(frameCount, spawnX, spawnR, spawnVx, spawnVy);
      PopulationFrameLocal(p2, if changed then Reset(p0) else p0, frameCount, spawnX, spawnR, spawnVx, spawnVy);
      FrameClamped(p0, changed, frameCount, spawnX, spawnR, spawnVx, spawnVy);
      if changed {
        FrameAfterMinuteChange(p0, frameCount, spawnX, spawnR, spawnVx, spawnVy);
      }
    }
  }
}
