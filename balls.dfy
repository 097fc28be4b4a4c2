/** The pure part of the ball system: the ball record, what
    `controlPopulation` and one pass of the per-frame ball loop do to the
    list, and the properties of both.  The loops themselves are methods
    of `Sketch.Sketch`. */
module Balls {
  import opened Physics
  import Trail
  import P5

  /** `spawnBall` refuses to add a ball once the list is longer than this. */
  const HARD_CEILING: nat := 1000
  /** `MAX_BALLS`: the number of non-dying balls the sketch aims for. */
  const MAX_BALLS: nat := 200
  /** `controlPopulation` marks at most this many balls per frame. */
  const TO_MARK_PER_FRAME: nat := 2
  /** `TRAIL_LENGTH`: capacity of a ball's trail queue. */
  const TRAIL_LENGTH: nat := 5
  /** Factor applied to a dying ball's radius every frame. */
  const SHRINK_SPEED: real := 0.96
  /** Bound on each velocity component. */
  const MAX_V: real := 25.0
  /** A dying ball whose radius falls below this is removed. */
  const MIN_RADIUS: real := 1.0
  /** Height at which balls are spawned, above the canvas. */
  const SPAWN_Y: real := -50.0

  /** A ball: the id of its physics body, its radius, whether it is
      shrinking away, its shrink factor, the frame it was born in, its trail
      samples (oldest first) and the position and velocity of its body. */
  datatype Ball = Ball(bodyId: nat, r: real, isDying: bool, shrinkSpeed: real, bornFrame: nat,
                       trail: seq<Vec>, position: Vec, velocity: Vec)
  {
    function Body(): BodyRef
    {
      BallCollider(bodyId)
    }
  }

  /** The record `spawnBall` pushes: a body at `(x, SPAWN_Y)` with the given
      radius and initial velocity, not dying, shrinking by `SHRINK_SPEED`,
      born in this frame, with the given trail. */
  function NewBall(bodyId: nat, x: real, r: real, vx: real, vy: real, frameCount: nat, trail: seq<Vec>): (b: Ball)
    ensures b.bodyId == bodyId && b.r == r && !b.isDying && b.shrinkSpeed == SHRINK_SPEED
    ensures b.bornFrame == frameCount && b.trail == trail
    ensures b.position == Vec(x, SPAWN_Y) && b.velocity == Vec(vx, vy)
    ensures MIN_RADIUS <= r && |trail| <= TRAIL_LENGTH ==> WellFormed(b)
  {
    Ball(bodyId, r, false, SHRINK_SPEED, frameCount, trail, Vec(x, SPAWN_Y), Vec(vx, vy))
  }

  /** The trail `spawnBall` gives a new ball: a fresh queue of capacity
      `TRAIL_LENGTH` holding the spawn point. */
  method SpawnTrail(x: real) returns (trail: seq<Vec>)
    ensures trail == [Vec(x, SPAWN_Y)]
  {
    var q := new Trail.Queue<Vec>(TRAIL_LENGTH);
    q.Add(Vec(x, SPAWN_Y));
    trail := q.All();
  }

  /** The physics bodies of a list of balls. */
  function Colliders(bs: seq<Ball>): set<BodyRef>
  {
    set b | b in bs :: b.Body()
  }

  lemma CollidersCons(bs: seq<Ball>)
    requires bs != []
    ensures Colliders(bs) == {bs[0].Body()} + Colliders(bs[1..])
  {
    assert bs == [bs[0]] + bs[1..];
    assert forall b :: b in bs <==> b == bs[0] || b in bs[1..];
  }

  lemma CollidersAppend(bs: seq<Ball>, b: Ball)
    ensures Colliders(bs + [b]) == Colliders(bs) + {b.Body()}
  {
    assert forall c :: c in bs + [b] <==> c in bs || c == b;
  }

  /** What every ball in the list satisfies: its radius is at least
      `MIN_RADIUS`, it shrinks by `SHRINK_SPEED`, its trail is within
      `TRAIL_LENGTH`. */
  predicate WellFormed(b: Ball)
  {
    b.r >= MIN_RADIUS && b.shrinkSpeed == SHRINK_SPEED && |b.trail| <= TRAIL_LENGTH
  }

  /** Lists with the same body ids at the same places have the same bodies. */
  lemma CollidersSameIds(a: seq<Ball>, b: seq<Ball>)
    requires |a| == |b| && forall j :: 0 <= j < |a| ==> a[j].bodyId == b[j].bodyId
    ensures Colliders(a) == Colliders(b)
  {
    forall c | c in Colliders(a) ensures c in Colliders(b) {
      var x :| x in a && x.Body() == c;
      var j :| 0 <= j < |a| && a[j] == x;
      assert b[j].Body() == c;
    }
    forall c | c in Colliders(b) ensures c in Colliders(a) {
      var x :| x in b && x.Body() == c;
      var j :| 0 <= j < |b| && b[j] == x;
      assert a[j].Body() == c;
    }
  }

  /** Body ids strictly increase along the list (so they are distinct). */
  ghost predicate IdsIncreasing(bs: seq<Ball>)
  {
    forall i, j :: 0 <= i < j < |bs| ==> bs[i].bodyId < bs[j].bodyId
  }

  // ---------------------------------------------------------------------
  // controlPopulation

  /** Number of balls not marked dying. */
  function AliveCount(bs: seq<Ball>): (n: nat)
    ensures n <= |bs|
  {
    if bs == [] then 0 else (if bs[0].isDying then 0 else 1) + AliveCount(bs[1..])
  }

  lemma {:induction false} AliveCountAppend(bs: seq<Ball>, b: Ball)
    ensures AliveCount(bs + [b]) == AliveCount(bs) + (if b.isDying then 0 else 1)
  {
    if bs != [] {
      assert (bs + [b])[1..] == bs[1..] + [b];
      AliveCountAppend(bs[1..], b);
    }
  }

  /** Counting the first `i + 1` balls adds the `i`-th ball to the count of
      the first `i`. */
  lemma AliveCountPrefix(bs: seq<Ball>, i: nat)
    requires i < |bs|
    ensures AliveCount(bs[..i + 1]) == AliveCount(bs[..i]) + (if bs[i].isDying then 0 else 1)
  {
    assert bs[..i + 1] == bs[..i] + [bs[i]];
    AliveCountAppend(bs[..i], bs[i]);
  }

  lemma {:induction false} AliveCountMonotone(bs: seq<Ball>, i: nat, j: nat)
    requires i <= j <= |bs|
    ensures AliveCount(bs[..i]) <= AliveCount(bs[..j])
    decreases j - i
  {
    if i < j {
      AliveCountPrefix(bs, i);
      AliveCountMonotone(bs, i + 1, j);
    }
  }

  /** Loop of `controlPopulation` that counts the non-dying balls. */
  method CountAlive(bs: seq<Ball>) returns (aliveCount: nat)
    ensures aliveCount == AliveCount(bs)
  {
    aliveCount := 0;
    var i := 0;
    while i < |bs|
      invariant 0 <= i <= |bs|
      invariant aliveCount == AliveCount(bs[..i])
    {
      AliveCountPrefix(bs, i);
      if !bs[i].isDying {
        aliveCount := aliveCount + 1;
      }
      i := i + 1;
    }
    assert bs[..i] == bs;
  }

  /** Marks the first `k` non-dying balls, in list order, as dying. */
  function MarkFirst(bs: seq<Ball>, k: nat): seq<Ball>
  {
    if bs == [] || k == 0 then bs
    else if !bs[0].isDying then [bs[0].(isDying := true)] + MarkFirst(bs[1..], k - 1)
    else [bs[0]] + MarkFirst(bs[1..], k)
  }

  /** Ball `j` after marking the first `k` non-dying balls: it becomes
      dying exactly when it was not dying and fewer than `k` non-dying balls
      precede it. */
  function MarkedAt(bs: seq<Ball>, k: nat, j: nat): Ball
    requires j < |bs|
  {
    if !bs[j].isDying && AliveCount(bs[..j]) < k then bs[j].(isDying := true) else bs[j]
  }

  lemma {:induction false} MarkFirstAt(bs: seq<Ball>, k: nat, j: nat)
    requires j < |bs|
    ensures |MarkFirst(bs, k)| == |bs|
    ensures MarkFirst(bs, k)[j] == MarkedAt(bs, k, j)
  {
    if k == 0 {
      assert MarkFirst(bs, k) == bs;
    } else if j == 0 {
      MarkFirstLength(bs[1..], if bs[0].isDying then k else k - 1);
    } else {
      var k' := if bs[0].isDying then k else k - 1;
      MarkFirstAt(bs[1..], k', j - 1);
      assert bs[..j] == [bs[0]] + bs[1..][..j - 1];
      assert bs[1..][j - 1] == bs[j];
    }
  }

  lemma {:induction false} MarkFirstLength(bs: seq<Ball>, k: nat)
    ensures |MarkFirst(bs, k)| == |bs|
  {
    if bs != [] && k != 0 {
      MarkFirstLength(bs[1..], if bs[0].isDying then k else k - 1);
    }
  }

  /** Marking takes exactly `min(k, AliveCount(bs))` balls out of the
      non-dying count. */
  lemma {:induction false} MarkFirstAliveCount(bs: seq<Ball>, k: nat)
    ensures AliveCount(MarkFirst(bs, k)) == AliveCount(bs) - (if k < AliveCount(bs) then k else AliveCount(bs))
  {
    if bs != [] && k != 0 {
      var k' := if bs[0].isDying then k else k - 1;
      MarkFirstAliveCount(bs[1..], k');
      var rest := MarkFirst(bs[1..], k');
      var head := if bs[0].isDying then bs[0] else bs[0].(isDying := true);
      assert MarkFirst(bs, k) == [head] + rest;
      assert ([head] + rest)[1..] == rest;
    }
  }

  /** `controlPopulation`: when more than `MAX_BALLS` balls are not dying,
      mark the first `TO_MARK_PER_FRAME` of them as dying. */
  function ControlledPopulation(bs: seq<Ball>): seq<Ball>
  {
    if AliveCount(bs) <= MAX_BALLS then bs else MarkFirst(bs, TO_MARK_PER_FRAME)
  }

  /** The body of `controlPopulation` over a list: count the non-dying
      balls and, when there are more than `MAX_BALLS`, walk the list from
      the front marking non-dying balls as dying until two are marked. */
  method MarkOldest(bs: seq<Ball>) returns (out: seq<Ball>)
    ensures out == ControlledPopulation(bs)
  {
    out := bs;
    var aliveCount := CountAlive(bs);
    if aliveCount <= MAX_BALLS {
      return;
    }
    var marked := 0;
    var i := 0;
    while i < |out| && marked < TO_MARK_PER_FRAME
      invariant 0 <= i <= |out| == |bs|
      invariant marked == AliveCount(bs[..i]) <= TO_MARK_PER_FRAME
      invariant forall j :: 0 <= j < i ==> out[j] == MarkedAt(bs, TO_MARK_PER_FRAME, j)
      invariant forall j :: i <= j < |out| ==> out[j] == bs[j]
    {
      AliveCountPrefix(bs, i);
      if !out[i].isDying {
        out := out[i := out[i].(isDying := true)];
        marked := marked + 1;
      }
      i := i + 1;
    }
    forall j | i <= j < |out|
      ensures out[j] == MarkedAt(bs, TO_MARK_PER_FRAME, j)
    {
      AliveCountMonotone(bs, i, j);
    }
    ControlledPopulationSpec(bs);
  }

  /** What `controlPopulation` promises: nothing changes while at most
      `MAX_BALLS` balls are alive; otherwise exactly the first two non-dying
      balls, in list order, become dying, and nothing else changes: the
      length stays, no flag is cleared, no other field moves. */
  lemma ControlledPopulationSpec(bs: seq<Ball>)
    ensures |ControlledPopulation(bs)| == |bs|
    ensures AliveCount(bs) <= MAX_BALLS ==> ControlledPopulation(bs) == bs
    ensures AliveCount(bs) > MAX_BALLS ==>
      AliveCount(ControlledPopulation(bs)) == AliveCount(bs) - TO_MARK_PER_FRAME
    ensures AliveCount(bs) > MAX_BALLS ==>
      forall j :: 0 <= j < |bs| ==> ControlledPopulation(bs)[j] == MarkedAt(bs, TO_MARK_PER_FRAME, j)
    ensures forall j :: 0 <= j < |bs| ==>
      ControlledPopulation(bs)[j] == bs[j].(isDying := ControlledPopulation(bs)[j].isDying)
    ensures forall j :: 0 <= j < |bs| && bs[j].isDying ==> ControlledPopulation(bs)[j].isDying
  {
    MarkFirstLength(bs, TO_MARK_PER_FRAME);
    if AliveCount(bs) > MAX_BALLS {
      MarkFirstAliveCount(bs, TO_MARK_PER_FRAME);
      forall j | 0 <= j < |bs|
        ensures ControlledPopulation(bs)[j] == MarkedAt(bs, TO_MARK_PER_FRAME, j)
      {
        MarkFirstAt(bs, TO_MARK_PER_FRAME, j);
      }
    }
  }

  // ---------------------------------------------------------------------
  // The per-frame ball loop

  /** One ball's update in a frame: clamp each velocity component to
      `[-MAX_V, MAX_V]`, on even frames append the current position to the
      trail, and shrink a dying ball by its factor. */
  function StepBall(b: Ball, frameCount: nat): (b': Ball)
    ensures -MAX_V <= b'.velocity.x <= MAX_V && -MAX_V <= b'.velocity.y <= MAX_V
    ensures -MAX_V <= b.velocity.x <= MAX_V ==> b'.velocity.x == b.velocity.x
    ensures -MAX_V <= b.velocity.y <= MAX_V ==> b'.velocity.y == b.velocity.y
    ensures MAX_V < b.velocity.x ==> b'.velocity.x == MAX_V
    ensures b.velocity.x < -MAX_V ==> b'.velocity.x == -MAX_V
    ensures MAX_V < b.velocity.y ==> b'.velocity.y == MAX_V
    ensures b.velocity.y < -MAX_V ==> b'.velocity.y == -MAX_V
    ensures b'.bodyId == b.bodyId && b'.isDying == b.isDying && b'.shrinkSpeed == b.shrinkSpeed
    ensures b'.position == b.position && b'.bornFrame == b.bornFrame
    ensures !b.isDying ==> b'.r == b.r
    ensures b.isDying ==> b'.r == b.r * b.shrinkSpeed
    ensures b.isDying && b.shrinkSpeed == SHRINK_SPEED && b.r > 0.0 ==> 0.0 < b'.r < b.r
    ensures frameCount % 2 == 0 ==> b'.trail == Trail.Enqueued(b.trail, TRAIL_LENGTH, b.position)
    ensures frameCount % 2 != 0 ==> b'.trail == b.trail
    ensures |b.trail| <= TRAIL_LENGTH ==> |b'.trail| <= TRAIL_LENGTH
  {
    var clamped := b.(velocity := Vec(P5.Constrain(b.velocity.x, -MAX_V, MAX_V),
                                      P5.Constrain(b.velocity.y, -MAX_V, MAX_V)));
    var trailed := if frameCount % 2 == 0
                   then clamped.(trail := Trail.Enqueued(clamped.trail, TRAIL_LENGTH, b.position))
                   else clamped;
    if trailed.isDying then trailed.(r := trailed.r * trailed.shrinkSpeed) else trailed
  }

  /** A stepped ball that is dying and has shrunk below `MIN_RADIUS` leaves
      the list and the world. */
  predicate Retired(b: Ball)
  {
    b.isDying && b.r < MIN_RADIUS
  }

  /** The list after one pass of the ball loop: every ball stepped, the
      retired ones dropped. */
  function StepBalls(bs: seq<Ball>, frameCount: nat): seq<Ball>
  {
    if bs == [] then []
    else
      var b := StepBall(bs[0], frameCount);
      (if Retired(b) then [] else [b]) + StepBalls(bs[1..], frameCount)
  }

  /** The bodies the ball loop removes from the world. */
  function Dropped(bs: seq<Ball>, frameCount: nat): set<BodyRef>
  {
    if bs == [] then {}
    else
      (if Retired(StepBall(bs[0], frameCount)) then {bs[0].Body()} else {}) + Dropped(bs[1..], frameCount)
  }

  /** Unfolds `StepBalls` and `Dropped` at position `i`, the shape the
      downward loop consumes them in. */
  lemma StepBallsAt(bs: seq<Ball>, frameCount: nat, i: nat)
    requires i < |bs|
    ensures StepBalls(bs[i..], frameCount)
      == (if Retired(StepBall(bs[i], frameCount)) then [] else [StepBall(bs[i], frameCount)])
         + StepBalls(bs[i + 1..], frameCount)
    ensures Dropped(bs[i..], frameCount)
      == (if Retired(StepBall(bs[i], frameCount)) then {bs[i].Body()} else {}) + Dropped(bs[i + 1..], frameCount)
  {
    assert bs[i..][0] == bs[i];
    assert bs[i..][1..] == bs[i + 1..];
  }

  /** Replacing, or cutting out, the last element of a prefix. */
  lemma EditLastOfPrefix<T>(p: seq<T>, rest: seq<T>, x: T)
    requires p != []
    ensures (p + rest)[|p| - 1 := x] == p[..|p| - 1] + ([x] + rest)
    ensures (p + rest)[..|p| - 1] + (p + rest)[|p|..] == p[..|p| - 1] + rest
  {
  }

  /** The ball loop of `draw` over a list and the world, run from the
      last ball down to the first: clamp each velocity, extend the trail on
      even frames, shrink a dying ball, and splice a ball out of the list
      and remove its body from the world in the step its radius falls
      below `MIN_RADIUS`. */
  method StepAll(balls: seq<Ball>, world: set<BodyRef>, frameCount: nat)
    returns (bs: seq<Ball>, w: set<BodyRef>)
    ensures bs == StepBalls(balls, frameCount)
    ensures w == world - Dropped(balls, frameCount)
  {
    bs, w := balls, world;
    var i := |bs| - 1;
    while i >= 0
      invariant -1 <= i < |balls|
      invariant bs == balls[..i + 1] + StepBalls(balls[i + 1..], frameCount)
      invariant w == world - Dropped(balls[i + 1..], frameCount)
    {
      StepBallsAt(balls, frameCount, i);
      ghost var rest := StepBalls(balls[i + 1..], frameCount);
      assert balls[..i + 1][..i] == balls[..i];
      assert bs[i] == balls[i];
      var b := bs[i];
      b := b.(velocity := Vec(P5.Constrain(b.velocity.x, -MAX_V, MAX_V), P5.Constrain(b.velocity.y, -MAX_V, MAX_V)));
      if frameCount % 2 == 0 {
        b := b.(trail := Trail.Enqueued(b.trail, TRAIL_LENGTH, b.position));
      }
      if b.isDying {
        b := b.(r := b.r * b.shrinkSpeed);
      }
      assert b == StepBall(balls[i], frameCount);
      EditLastOfPrefix(balls[..i + 1], rest, b);
      if b.isDying && b.r < MIN_RADIUS {
        w := w - {b.Body()};
        bs := bs[..i] + bs[i + 1..];
      } else {
        bs := bs[i := b];
      }
      i := i - 1;
    }
    assert balls[0..] == balls;
  }

  /** Indices, from `lo` on and in increasing order, of the balls that
      survive the step. */
  function Survivors(bs: seq<Ball>, frameCount: nat, lo: nat): seq<nat>
    decreases |bs| - lo
  {
    if lo >= |bs| then []
    else (if Retired(StepBall(bs[lo], frameCount)) then [] else [lo]) + Survivors(bs, frameCount, lo + 1)
  }

  /** `out` is the step of `bs[lo..]` read through the increasing index
      list `idx`, which holds exactly the surviving positions from `lo` on. */
  ghost predicate IndexedBy(bs: seq<Ball>, frameCount: nat, lo: nat, idx: seq<nat>, out: seq<Ball>)
  {
    && |out| == |idx|
    && (forall k :: 0 <= k < |idx| ==> (lo <= idx[k] < |bs| && out[k] == StepBall(bs[idx[k]], frameCount)))
    && (forall k, l :: 0 <= k < l < |idx| ==> idx[k] < idx[l])
    && (forall j :: lo <= j < |bs| ==> (j in idx <==> !Retired(StepBall(bs[j], frameCount))))
  }

  /** A retired ball at `lo` adds nothing to the index list. */
  lemma SkipRetired(bs: seq<Ball>, frameCount: nat, lo: nat, idx: seq<nat>, out: seq<Ball>)
    requires lo < |bs| && Retired(StepBall(bs[lo], frameCount))
    requires IndexedBy(bs, frameCount, lo + 1, idx, out)
    ensures IndexedBy(bs, frameCount, lo, idx, out)
  {
  }

  /** A surviving ball at `lo` goes in front of the index list. */
  lemma KeepSurvivor(bs: seq<Ball>, frameCount: nat, lo: nat, idx: seq<nat>, out: seq<Ball>)
    requires lo < |bs| && !Retired(StepBall(bs[lo], frameCount))
    requires IndexedBy(bs, frameCount, lo + 1, idx, out)
    ensures IndexedBy(bs, frameCount, lo, [lo] + idx, [StepBall(bs[lo], frameCount)] + out)
  {
    PicksCons(bs, frameCount, lo, idx, out);
    IncreasingCons(lo, idx);
    CoversCons(bs, frameCount, lo, idx);
  }

  lemma PicksCons(bs: seq<Ball>, frameCount: nat, lo: nat, idx: seq<nat>, out: seq<Ball>)
    requires lo < |bs| && |out| == |idx|
    requires forall k :: 0 <= k < |idx| ==> (lo + 1 <= idx[k] < |bs| && out[k] == StepBall(bs[idx[k]], frameCount))
    ensures forall k :: 0 <= k < |idx| + 1 ==>
      (lo <= ([lo] + idx)[k] < |bs|
       && ([StepBall(bs[lo], frameCount)] + out)[k] == StepBall(bs[([lo] + idx)[k]], frameCount))
  {
    var idx2 := [lo] + idx;
    var out2 := [StepBall(bs[lo], frameCount)] + out;
    forall k | 0 <= k < |idx2|
      ensures lo <= idx2[k] < |bs| && out2[k] == StepBall(bs[idx2[k]], frameCount)
    {
      if k > 0 {
        assert idx2[k] == idx[k - 1] && out2[k] == out[k - 1];
      }
    }
  }

  lemma IncreasingCons(lo: nat, idx: seq<nat>)
    requires forall k :: 0 <= k < |idx| ==> lo < idx[k]
    requires forall k, l :: 0 <= k < l < |idx| ==> idx[k] < idx[l]
    ensures forall k, l :: 0 <= k < l < |idx| + 1 ==> ([lo] + idx)[k] < ([lo] + idx)[l]
  {
    var idx2 := [lo] + idx;
    forall k, l | 0 <= k < l < |idx2|
      ensures idx2[k] < idx2[l]
    {
      assert idx2[l] == idx[l - 1];
      if k > 0 {
        assert idx2[k] == idx[k - 1];
      }
    }
  }

  lemma CoversCons(bs: seq<Ball>, frameCount: nat, lo: nat, idx: seq<nat>)
    requires lo < |bs| && !Retired(StepBall(bs[lo], frameCount))
    requires forall j :: lo + 1 <= j < |bs| ==> (j in idx <==> !Retired(StepBall(bs[j], frameCount)))
    requires forall k :: 0 <= k < |idx| ==> lo < idx[k]
    ensures forall j :: lo <= j < |bs| ==> (j in [lo] + idx <==> !Retired(StepBall(bs[j], frameCount)))
  {
    forall j | lo <= j < |bs|
      ensures j in [lo] + idx <==> !Retired(StepBall(bs[j], frameCount))
    {
      assert j in [lo] + idx <==> j == lo || j in idx;
    }
  }

  lemma {:induction false} StepBallsFrom(bs: seq<Ball>, frameCount: nat, lo: nat)
    requires lo <= |bs|
    ensures IndexedBy(bs, frameCount, lo, Survivors(bs, frameCount, lo), StepBalls(bs[lo..], frameCount))
    decreases |bs| - lo
  {
    if lo < |bs| {
      StepBallsFrom(bs, frameCount, lo + 1);
      StepBallsAt(bs, frameCount, lo);
      var idx' := Survivors(bs, frameCount, lo + 1);
      var out' := StepBalls(bs[lo + 1..], frameCount);
      if Retired(StepBall(bs[lo], frameCount)) {
        SkipRetired(bs, frameCount, lo, idx', out');
      } else {
        KeepSurvivor(bs, frameCount, lo, idx', out');
      }
    }
  }

  /** The ball loop keeps the surviving balls in their relative order:
      the result is the stepped balls at an increasing list of indices, and
      an index is in that list exactly when its stepped ball is not
      retired, that is, when it is not dying or its new radius is at least
      `MIN_RADIUS`. */
  lemma StepBallsOrder(bs: seq<Ball>, frameCount: nat)
    ensures var idx := Survivors(bs, frameCount, 0);
      && |StepBalls(bs, frameCount)| == |idx|
      && (forall k :: 0 <= k < |idx| ==>
            (idx[k] < |bs| && StepBalls(bs, frameCount)[k] == StepBall(bs[idx[k]], frameCount)))
      && (forall k, l :: 0 <= k < l < |idx| ==> idx[k] < idx[l])
      && (forall j :: 0 <= j < |bs| ==> (j in idx <==> !Retired(StepBall(bs[j], frameCount))))
  {
    assert bs[0..] == bs;
    StepBallsFrom(bs, frameCount, 0);
  }

  /** Every ball the loop keeps has both velocity components in
      `[-MAX_V, MAX_V]` and is not dying with a radius below `MIN_RADIUS`;
      the loop keeps every ball well formed. */
  lemma StepBallsSurvivors(bs: seq<Ball>, frameCount: nat)
    ensures forall b :: b in StepBalls(bs, frameCount) ==>
      -MAX_V <= b.velocity.x <= MAX_V && -MAX_V <= b.velocity.y <= MAX_V && !Retired(b)
    ensures (forall b :: b in bs ==> WellFormed(b)) ==>
      forall b :: b in StepBalls(bs, frameCount) ==> WellFormed(b)
  {
    StepBallsOrder(bs, frameCount);
    var idx := Survivors(bs, frameCount, 0);
    var out := StepBalls(bs, frameCount);
    forall b | b in out
      ensures -MAX_V <= b.velocity.x <= MAX_V && -MAX_V <= b.velocity.y <= MAX_V && !Retired(b)
      ensures (forall c :: c in bs ==> WellFormed(c)) ==> WellFormed(b)
    {
      var k :| 0 <= k < |out| && out[k] == b;
      assert bs[idx[k]] in bs;
      assert idx[k] in idx;
    }
  }

  /** The ids of the loop's result are those of the surviving positions,
      read in increasing order. */
  lemma SurvivorIds(bs: seq<Ball>, frameCount: nat)
    ensures var idx := Survivors(bs, frameCount, 0);
      && |StepBalls(bs, frameCount)| == |idx|
      && (forall k :: 0 <= k < |idx| ==>
            idx[k] < |bs| && StepBalls(bs, frameCount)[k].bodyId == bs[idx[k]].bodyId)
      && (forall k, l :: 0 <= k < l < |idx| ==> idx[k] < idx[l])
  {
    StepBallsOrder(bs, frameCount);
  }

  /** Ball ids only ever leave the list: the loop keeps them increasing and
      within any bounds they had. */
  lemma StepBallsIds(bs: seq<Ball>, frameCount: nat, lo: nat, hi: nat)
    requires IdsIncreasing(bs)
    ensures IdsIncreasing(StepBalls(bs, frameCount))
    ensures |StepBalls(bs, frameCount)| <= |bs|
    ensures (forall b :: b in bs ==> lo <= b.bodyId < hi) ==>
      forall b :: b in StepBalls(bs, frameCount) ==> lo <= b.bodyId < hi
  {
    SurvivorIds(bs, frameCount);
    var idx := Survivors(bs, frameCount, 0);
    var out := StepBalls(bs, frameCount);
    SortedIndicesBound(idx, |bs|);
    if forall b :: b in bs ==> lo <= b.bodyId < hi {
      forall b | b in out ensures lo <= b.bodyId < hi {
        var k :| 0 <= k < |out| && out[k] == b;
        assert bs[idx[k]] in bs;
      }
    }
  }

  /** Every ball of `bs` got its body at or after the id `floor`. */
  ghost predicate BornSince(bs: seq<Ball>, floor: nat)
  {
    forall b :: b in bs ==> b.bodyId >= floor
  }

  /** Marking balls as dying creates no ball and changes no id. */
  lemma ControlKeepsBornSince(bs: seq<Ball>, floor: nat)
    requires BornSince(bs, floor)
    ensures BornSince(ControlledPopulation(bs), floor)
  {
    ControlledPopulationSpec(bs);
    var out := ControlledPopulation(bs);
    forall b | b in out ensures b.bodyId >= floor {
      var j :| 0 <= j < |out| && out[j] == b;
      assert bs[j] in bs;
    }
  }

  /** The ball loop only keeps or drops balls, so no older id appears. */
  lemma StepKeepsBornSince(bs: seq<Ball>, frameCount: nat, floor: nat)
    requires BornSince(bs, floor)
    ensures BornSince(StepBalls(bs, frameCount), floor)
  {
    StepBallsOrder(bs, frameCount);
    var idx := Survivors(bs, frameCount, 0);
    var out := StepBalls(bs, frameCount);
    forall b | b in out ensures b.bodyId >= floor {
      var k :| 0 <= k < |out| && out[k] == b;
      assert bs[idx[k]] in bs;
    }
  }

  /** A strictly increasing list of indices below `n` has at most `n` entries. */
  lemma {:induction false} SortedIndicesBound(idx: seq<nat>, n: nat)
    requires forall k :: 0 <= k < |idx| ==> idx[k] < n
    requires forall k, l :: 0 <= k < l < |idx| ==> idx[k] < idx[l]
    ensures |idx| <= n
  {
    if idx != [] {
      var last := idx[|idx| - 1];
      SortedIndicesBound(idx[..|idx| - 1], last);
    }
  }

  /** The world loses exactly the bodies of the retired balls, and those are
      no longer in the list: no orphaned body, no dangling ball. */
  lemma {:induction false} CollidersAfterStep(bs: seq<Ball>, frameCount: nat)
    requires IdsIncreasing(bs)
    ensures Colliders(StepBalls(bs, frameCount)) == Colliders(bs) - Dropped(bs, frameCount)
    ensures Dropped(bs, frameCount) <= Colliders(bs)
  {
    if bs != [] {
      var rest := bs[1..];
      assert IdsIncreasing(rest);
      CollidersAfterStep(rest, frameCount);
      CollidersCons(bs);
      var b := StepBall(bs[0], frameCount);
      assert bs[0].Body() !in Colliders(rest);
      if Retired(b) {
        assert StepBalls(bs, frameCount) == StepBalls(rest, frameCount);
        assert Dropped(bs, frameCount) == {bs[0].Body()} + Dropped(rest, frameCount);
      } else {
        assert StepBalls(bs, frameCount) == [b] + StepBalls(rest, frameCount);
        assert Dropped(bs, frameCount) == Dropped(rest, frameCount);
        CollidersCons([b] + StepBalls(rest, frameCount));
        assert ([b] + StepBalls(rest, frameCount))[1..] == StepBalls(rest, frameCount);
      }
    }
  }

  // ---------------------------------------------------------------------
  // The ball-list invariant

  /** What holds of the ball list and the world between frames: the list
      stays within the hard ceiling plus the one ball the guard lets through,
      the engine handed out the body ids in increasing order and all below
      `nextId`, every ball is well formed, and the ball bodies in the world
      are exactly those of the listed balls. */
  ghost predicate BallsInvariant(bs: seq<Ball>, world: set<BodyRef>, nextId: nat)
  {
    && |bs| <= HARD_CEILING + 1
    && IdsIncreasing(bs)
    && (forall b :: b in bs ==> b.bodyId < nextId && WellFormed(b))
    && (forall id :: BallCollider(id) in world <==> BallCollider(id) in Colliders(bs))
  }

  /** The ball loop keeps the invariant, removing the dropped bodies. */
  lemma StepKeepsInvariant(bs: seq<Ball>, world: set<BodyRef>, nextId: nat, frameCount: nat)
    requires BallsInvariant(bs, world, nextId)
    ensures BallsInvariant(StepBalls(bs, frameCount), world - Dropped(bs, frameCount), nextId)
  {
    StepBallsIds(bs, frameCount, 0, nextId);
    CollidersAfterStep(bs, frameCount);
    StepBallsSurvivors(bs, frameCount);
  }

  /** `controlPopulation` keeps the invariant. */
  lemma ControlKeepsInvariant(bs: seq<Ball>, world: set<BodyRef>, nextId: nat)
    requires BallsInvariant(bs, world, nextId)
    ensures BallsInvariant(ControlledPopulation(bs), world, nextId)
  {
    var out := ControlledPopulation(bs);
    ControlledPopulationSpec(bs);
    CollidersSameIds(out, bs);
    forall b | b in out ensures b.bodyId < nextId && WellFormed(b) {
      var j :| 0 <= j < |out| && out[j] == b;
      assert bs[j] in bs;
    }
  }

  /** Emptying the list and removing its bodies keeps the invariant. */
  lemma ResetKeepsInvariant(bs: seq<Ball>, world: set<BodyRef>, nextId: nat)
    requires BallsInvariant(bs, world, nextId)
    ensures BallsInvariant([], world - Colliders(bs), nextId)
  {
  }

  /** Spawning a ball with a fresh id keeps the invariant. */
  lemma SpawnKeepsInvariant(bs: seq<Ball>, world: set<BodyRef>, nextId: nat, b: Ball)
    requires BallsInvariant(bs, world, nextId)
    requires |bs| <= HARD_CEILING && b.bodyId == nextId && WellFormed(b)
    ensures BallsInvariant(bs + [b], world + {b.Body()}, nextId + 1)
  {
    CollidersAppend(bs, b);
  }

  // ---------------------------------------------------------------------
  // One frame of the ball system

  /** `draw` calls `spawnBall` on the frames that are a multiple of this. */
  const SPAWN_INTERVAL: nat := 60

  /** What the ball operations of a frame change: the ball list, the world
      and the id the engine gives the next body it creates. */
  datatype Population = Population(balls: seq<Ball>, world: set<BodyRef>, nextId: nat)

  /** `resetBalls`: every ball body leaves the world and the list empties. */
  function Reset(p: Population): Population
  {
    Population([], p.world - Colliders(p.balls), p.nextId)
  }

  /** `spawnBall`: past the ceiling nothing happens; otherwise a fresh body
      joins the world and its record, whose trail holds the spawn point,
      is appended. */
  function Spawn(p: Population, x: real, r: real, vx: real, vy: real, frameCount: nat): Population
  {
    if |p.balls| > HARD_CEILING then p
    else Population(p.balls + [NewBall(p.nextId, x, r, vx, vy, frameCount, [Vec(x, SPAWN_Y)])],
                    p.world + {BallCollider(p.nextId)}, p.nextId + 1)
  }

  /** `controlPopulation`: only flags change. */
  function Control(p: Population): Population
  {
    p.(balls := ControlledPopulation(p.balls))
  }

  /** The ball loop: the list is stepped and the retired bodies leave the world. */
  function Step(p: Population, frameCount: nat): Population
  {
    Population(StepBalls(p.balls, frameCount), p.world - Dropped(p.balls, frameCount), p.nextId)
  }

  /** The ball part of a frame: spawn on every `SPAWN_INTERVAL`-th frame,
      control the population, then run the ball loop. */
  function PopulationFrame(p: Population, frameCount: nat, x: real, r: real, vx: real, vy: real): Population
  {
    var spawned := if frameCount % SPAWN_INTERVAL == 0 then Spawn(p, x, r, vx, vy, frameCount) else p;
    Step(Control(spawned), frameCount)
  }

  /** What one frame of `draw` does to the balls: reset them when the
      minute changed, then the ball part of the frame. */
  function Frame(p: Population, minuteChanged: bool, frameCount: nat, x: real, r: real, vx: real, vy: real)
    : Population
  {
    PopulationFrame(if minuteChanged then Reset(p) else p, frameCount, x, r, vx, vy)
  }

  /** A frame keeps the ball-list invariant, with or without a reset. */
  lemma FrameKeepsInvariant(p: Population, minuteChanged: bool, frameCount: nat,
                            x: real, r: real, vx: real, vy: real)
    requires BallsInvariant(p.balls, p.world, p.nextId)
    requires MIN_RADIUS <= r
    ensures var q := Frame(p, minuteChanged, frameCount, x, r, vx, vy);
      BallsInvariant(q.balls, q.world, q.nextId)
  {
    var p1 := if minuteChanged then Reset(p) else p;
    if minuteChanged {
      ResetKeepsInvariant(p.balls, p.world, p.nextId);
    }
    var p2 := if frameCount % SPAWN_INTERVAL == 0 then Spawn(p1, x, r, vx, vy, frameCount) else p1;
    if frameCount % SPAWN_INTERVAL == 0 && |p1.balls| <= HARD_CEILING {
      SpawnKeepsInvariant(p1.balls, p1.world, p1.nextId,
                          NewBall(p1.nextId, x, r, vx, vy, frameCount, [Vec(x, SPAWN_Y)]));
    }
    ControlKeepsInvariant(p2.balls, p2.world, p2.nextId);
    StepKeepsInvariant(ControlledPopulation(p2.balls), p2.world, p2.nextId, frameCount);
  }

  /** After a frame every ball's velocity is within bounds. */
  lemma FrameClamped(p: Population, minuteChanged: bool, frameCount: nat,
                     x: real, r: real, vx: real, vy: real)
    ensures forall b :: b in Frame(p, minuteChanged, frameCount, x, r, vx, vy).balls ==>
      -MAX_V <= b.velocity.x <= MAX_V && -MAX_V <= b.velocity.y <= MAX_V
  {
    var p1 := if minuteChanged then Reset(p) else p;
    var p2 := if frameCount % SPAWN_INTERVAL == 0 then Spawn(p1, x, r, vx, vy, frameCount) else p1;
    StepBallsSurvivors(ControlledPopulation(p2.balls), frameCount);
  }

  /** A frame in which the minute changed keeps no ball from before: at
      most the ball spawned in this frame is left, and none at all on a
      frame that spawns nothing. */
  lemma FrameAfterMinuteChange(p: Population, frameCount: nat, x: real, r: real, vx: real, vy: real)
    ensures BornSince(Frame(p, true, frameCount, x, r, vx, vy).balls, p.nextId)
    ensures |Frame(p, true, frameCount, x, r, vx, vy).balls| <= 1
    ensures frameCount % SPAWN_INTERVAL != 0 ==> Frame(p, true, frameCount, x, r, vx, vy).balls == []
  {
    var p1 := Reset(p);
    var p2 := if frameCount % SPAWN_INTERVAL == 0 then Spawn(p1, x, r, vx, vy, frameCount) else p1;
    assert |p2.balls| <= 1 && BornSince(p2.balls, p.nextId);
    var controlled := ControlledPopulation(p2.balls);
    ControlledPopulationSpec(p2.balls);
    ControlKeepsBornSince(p2.balls, p.nextId);
    StepBallsIds(controlled, frameCount, 0, 0);
    StepKeepsBornSince(controlled, frameCount, p.nextId);
    if frameCount % SPAWN_INTERVAL != 0 {
      assert StepBalls([], frameCount) == [];
    }
  }

  /** Two populations with the same list, the same next id and the same
      ball bodies in their worlds stay alike through the ball part of a
      frame: what else the world holds does not matter. */
  lemma PopulationFrameLocal(p: Population, q: Population, frameCount: nat,
                             x: real, r: real, vx: real, vy: real)
    requires p.balls == q.balls && p.nextId == q.nextId
    requires forall id :: BallCollider(id) in p.world <==> BallCollider(id) in q.world
    ensures PopulationFrame(p, frameCount, x, r, vx, vy).balls == PopulationFrame(q, frameCount, x, r, vx, vy).balls
    ensures PopulationFrame(p, frameCount, x, r, vx, vy).nextId == PopulationFrame(q, frameCount, x, r, vx, vy).nextId
    ensures forall id :: BallCollider(id) in PopulationFrame(p, frameCount, x, r, vx, vy).world
                     <==> BallCollider(id) in PopulationFrame(q, frameCount, x, r, vx, vy).world
  {
  }
}
