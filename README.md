# Polar clock with a gated ring (Pac-Man.js), modelled in Dafny

The sketch draws a clock whose face is a ring of 600 static colliders. The
ring opens a gate on the minor arc between the minute hand and the hour
hand. Balls fall in from above, collide with the ring, and leave through the
gate. A population controller marks the oldest balls as dying once more
than 200 are alive, and a dying ball shrinks until it is removed. When the
minute changes, every ball is cleared. On a phone, device motion tilts the
world's gravity through a low-pass filter.

This project models the logic behind that, in eight modules:

- `P5` (`p5.dfy`): p5's `constrain` and `map` on reals.
- `Physics` (`physics.dfy`): references to the bodies of the physics world
  (a ring collider by slot index, a ball body by id) and a 2-D vector.
- `Angles` (`angles.dfy`): `normAngle` and `angleInArc`. JavaScript's `%`
  is modelled as a remainder truncated toward zero (`RemTwoPi`). Both are
  proved against a reference reduction `Wrap`, defined with `.Floor`.
- `Trail` (`trail.dfy`): the bounded FIFO `Queue` as a class whose `Add`
  mutates its `elements`, specified by the function `Enqueued`.
- `Gate` (`gate.dfy`): slot angles, hand angles, the minor-arc swap, and what
  it means for the ring to agree with a gate (`Synced`, `Mismatches`).
- `Balls` (`balls.dfy`): the ball record and what `controlPopulation` and
  the per-frame ball loop do to the list. This includes the value-level loops
  `CountAlive`, `MarkOldest` and `StepAll`, and the ball-list invariant
  `BallsInvariant`, which ties the list to the world. The functions `Reset`,
  `Spawn`, `Control`, `Step`, `PopulationFrame` and `Frame` say what each
  ball operation, and one whole frame, does to the list, the world and the
  id counter together.
- `Gravity` (`gravity.dfy`): the arithmetic of `handleMotion`, and the
  convergence of the smoother.
- `Sketch` (`sketch.dfy`): the program's module-level state as one class,
  `Sketch.Sketch`. It holds the world as a set of bodies, the `ringBlocks`
  array, the ball list, the gravity fields and `prevMinute`. Each method
  changes this state as one step of `setup`, `draw` or `handleMotion` does.
  The invariant `Valid()` holds throughout: a ring collider is in the world
  exactly when its slot is closed, and the ball bodies in the world are
  exactly those of the listed balls. No ring collider beyond the 600 slots is
  ever in the world.

The physics world is a `set<BodyRef>`. `World.add` and `World.remove` are
set insertion and deletion. The engine gives bodies increasing ids, so a
ball's body is `BallCollider(id)`, with `id` taken from a counter. The
wall-clock time, `frameCount` and the values `random` would produce are
parameters of the methods.

`spawnBall` returns early only when `balls.length > 1000`, so one more ball
still gets through and the list can reach 1001 balls. The invariant states
this bound (`HARD_CEILING + 1`).

## Model

| member | source | states |
|---|---|---|
| P5.Constrain | 7-clock-polar/Pac-Man.js:348-353 | the clamped value lies in `[low, high]`; it equals `n` inside the range and the nearer bound outside it |
| P5.MapRange | 7-clock-polar/Pac-Man.js:81 | p5's `map`, the affine map taking `start1` to `start2` and `stop1` to `stop2`; its range is stated by `MapRangeBounds` |
| P5.MapRangeBounds | 7-clock-polar/Pac-Man.js:81 | an increasing `map` sends `[start1, stop1)` into `[start2, stop2)` |
| Angles.RemTwoPi | 7-clock-polar/Pac-Man.js:178 | JavaScript's `% TWO_PI` keeps the sign of its operand: the result is in `[0, TWO_PI)` for a non-negative operand and in `(-TWO_PI, 0]` for a negative one |
| Angles.Wrap | 7-clock-polar/Pac-Man.js:177-181 | the reference reduction modulo a turn lies in `[0, TWO_PI)` |
| Angles.WrapUnique | 7-clock-polar/Pac-Man.js:177-181 | a value in `[0, TWO_PI)` that differs from `a` by `k` whole turns is the reduction of `a`, and `k` is its turn count |
| Angles.WrapOfDiff | 7-clock-polar/Pac-Man.js:188-189 | reducing both operands before subtracting gives the same reduced difference |
| Angles.WrapDiffZero | 7-clock-polar/Pac-Man.js:183-192 | two angles are congruent exactly when their difference reduces to zero |
| Angles.RemOfNonNegative | 7-clock-polar/Pac-Man.js:188-189 | on non-negative values the JavaScript remainder agrees with the reference reduction |
| Angles.NormAngle | 7-clock-polar/Pac-Man.js:177-181 | `normAngle(a)` lies in `[0, TWO_PI)` |
| Angles.NormAngleIsWrap | 7-clock-polar/Pac-Man.js:177-181 | `normAngle(a)` equals the reference reduction and differs from `a` by a whole number of turns |
| Angles.NormAngleCanonical | 7-clock-polar/Pac-Man.js:177-181 | `normAngle` leaves an angle in `[0, TWO_PI)` unchanged and ignores whole turns |
| Angles.AngleInArc | 7-clock-polar/Pac-Man.js:183-192 | `angleInArc` computed as written, with the JavaScript remainder; its meaning is stated by `AngleInArcIff`, `ArcEndsIncluded`, `DegenerateArc` and `ArcAndComplement` |
| Angles.AngleInArcIff | 7-clock-polar/Pac-Man.js:183-192 | `angleInArc` holds exactly when the angle's offset from `start`, reduced, is at most the arc's reduced length |
| Angles.ArcEndsIncluded | 7-clock-polar/Pac-Man.js:183-192 | both ends of an arc are on it |
| Angles.DegenerateArc | 7-clock-polar/Pac-Man.js:183-192 | when `start` and `end` are congruent, only the angles congruent to them are on the arc |
| Angles.ArcAndComplement | 7-clock-polar/Pac-Man.js:183-192 | for distinct ends, the arc and the arc swept back from `end` to `start` cover the circle, and they share only the two ends |
| Trail.Enqueued | 7-clock-polar/Pac-Man.js:50-57 | the length bound is kept; below capacity `x` is appended; at capacity the oldest element is dropped and `x` appended; `x` ends up last whenever the capacity or the old queue is nonzero (a zero-capacity queue stays empty) |
| Trail.Queue.constructor | 7-clock-polar/Pac-Man.js:46-49 | a new queue is empty, has the given capacity and is within it |
| Trail.Queue.Add | 7-clock-polar/Pac-Man.js:50-57 | `add` leaves `Enqueued(old elements, maxLength, x)` in `elements` and keeps the capacity bound |
| Trail.Queue.All | 7-clock-polar/Pac-Man.js:58-60 | `all()` returns the elements, oldest first |
| Gate.HandAnglesInRange | 7-clock-polar/Pac-Man.js:284-286 | for clock values the minute and hour hand angles lie in `[0, TWO_PI)` |
| Gate.SegmentAngleInRange | 7-clock-polar/Pac-Man.js:80-81 | every slot angle lies in `[0, TWO_PI)` |
| Gate.SegmentAngle | 7-clock-polar/Pac-Man.js:81 | slot `i`'s angle `map(i, 0, 600, 0, TWO_PI)`; its range is stated by `SegmentAngleInRange` |
| Gate.HandAngles | 7-clock-polar/Pac-Man.js:284-286 | the minute hand angle `map(m + s / 60, 0, 60, 0, TWO_PI)` and the hour hand angle `map(h % 12 + m / 60, 0, 12, 0, TWO_PI)`; their range is stated by `HandAnglesInRange` |
| Gate.GateArc | 7-clock-polar/Pac-Man.js:292-301 | the two hands shifted back a quarter turn, swapped when the arc between them exceeds `PI`; `GateIsMinorArc` states that the result is the minor arc |
| Gate.GateIsMinorArc | 7-clock-polar/Pac-Man.js:291-301 | after the quarter-turn shift and the conditional swap, the gate's reduced length is at most `PI`, whichever hand leads; the ends are swapped exactly when the arc from the minute hand to the hour hand is longer than half a turn |
| Gate.MismatchesZero | 7-clock-polar/Pac-Man.js:314-324 | the gate loop makes no world call exactly when every slot already agrees with the gate |
| Balls.NewBall | 7-clock-polar/Pac-Man.js:221-236 | a spawned ball is not dying, has shrink factor 0.96, its id, radius, birth frame, velocity, a body at `(x, -50)` and the given trail; with a radius of at least 1 and a trail within 5 it is well formed |
| Balls.SpawnTrail | 7-clock-polar/Pac-Man.js:221-222 | a new `Queue` of capacity 5 with the spawn point added holds exactly that point |
| Balls.AliveCount | 7-clock-polar/Pac-Man.js:241-244 | the number of non-dying balls is at most the list length |
| Balls.AliveCountMonotone | 7-clock-polar/Pac-Man.js:241-244 | the non-dying count of a prefix grows with the prefix |
| Balls.CountAlive | 7-clock-polar/Pac-Man.js:241-244 | the counting loop returns the number of non-dying balls |
| Balls.MarkFirstAt | 7-clock-polar/Pac-Man.js:251-257 | ball `j` is marked exactly when it was not dying and fewer than `k` non-dying balls precede it; the length is unchanged |
| Balls.MarkFirstAliveCount | 7-clock-polar/Pac-Man.js:251-257 | marking the first `k` non-dying balls lowers the non-dying count by `k`, or by the whole count when fewer than `k` are alive |
| Balls.MarkFirst | 7-clock-polar/Pac-Man.js:251-257 | the marking loop as a recursion over the list: the first `k` non-dying balls become dying; stated ball by ball by `MarkFirstAt` and on the count by `MarkFirstAliveCount` |
| Balls.ControlledPopulation | 7-clock-polar/Pac-Man.js:240-258 | `controlPopulation` on a list: unchanged with at most 200 alive, otherwise the first two non-dying balls are marked; stated by `ControlledPopulationSpec` |
| Balls.MarkOldest | 7-clock-polar/Pac-Man.js:240-258 | the body of `controlPopulation` computes `ControlledPopulation` |
| Balls.ControlledPopulationSpec | 7-clock-polar/Pac-Man.js:240-258 | with at most 200 alive nothing changes; otherwise exactly the first two non-dying balls in list order become dying and the non-dying count drops by two; the length stays, no flag is cleared and no other field changes |
| Balls.StepBall | 7-clock-polar/Pac-Man.js:342-358 | each velocity component is `constrain`ed to `[-25, 25]`: an in-range component is kept and an out-of-range one becomes the nearer bound; a non-dying ball keeps its radius and a dying one is multiplied by its factor (with 0.96 it shrinks but stays positive); on even frames the position is added to the trail with `Enqueued`, on odd frames the trail is kept; id, flag, factor, position and birth frame are unchanged |
| Balls.Retired | 7-clock-polar/Pac-Man.js:386-393 | a stepped ball is removed when it is dying and its radius has fallen below 1 |
| Balls.StepBalls | 7-clock-polar/Pac-Man.js:342-396 | the list after the ball loop: every ball stepped, the retired ones dropped; order, survivors and ids are stated by `StepBallsOrder`, `StepBallsSurvivors` and `StepBallsIds` |
| Balls.Dropped | 7-clock-polar/Pac-Man.js:386-393 | the bodies the ball loop removes from the world, one for each ball that retires; related to the list by `CollidersAfterStep` |
| Balls.StepAll | 7-clock-polar/Pac-Man.js:342-396 | the downward loop with `splice` returns `StepBalls` and the world minus `Dropped` |
| Balls.StepBallsFrom | 7-clock-polar/Pac-Man.js:342-396 | the loop's result from index `lo` on is the stepped survivors, read through an increasing index list that holds exactly the surviving positions |
| Balls.StepBallsOrder | 7-clock-polar/Pac-Man.js:342-396 | the surviving balls keep their relative order, and a ball survives exactly when it is not dying or its new radius is at least 1 |
| Balls.StepBallsSurvivors | 7-clock-polar/Pac-Man.js:342-396 | every survivor has both velocity components in `[-25, 25]` and is not due for removal; well-formed balls stay well formed |
| Balls.StepBallsIds | 7-clock-polar/Pac-Man.js:342-396 | the loop keeps the ids in increasing order and within their bounds, and never lengthens the list |
| Balls.ControlKeepsBornSince | 7-clock-polar/Pac-Man.js:240-258 | marking balls creates no ball, so a lower bound on the ids survives |
| Balls.StepKeepsBornSince | 7-clock-polar/Pac-Man.js:342-396 | the ball loop only keeps or drops balls, so a lower bound on the ids survives |
| Balls.CollidersAfterStep | 7-clock-polar/Pac-Man.js:386-396 | a ball leaves the world in the same step it leaves the list: the bodies of the new list are the old ones minus the removed ones, and only listed bodies are removed |
| Balls.StepKeepsInvariant | 7-clock-polar/Pac-Man.js:342-396 | the ball loop keeps the ball-list invariant |
| Balls.ControlKeepsInvariant | 7-clock-polar/Pac-Man.js:240-258 | `controlPopulation` keeps the ball-list invariant |
| Balls.SpawnKeepsInvariant | 7-clock-polar/Pac-Man.js:195-237 | adding a well-formed ball with a fresh id below the ceiling keeps the ball-list invariant |
| Balls.Reset | 7-clock-polar/Pac-Man.js:261-269 | `resetBalls` on the ball state: the list empties and its bodies leave the world; the id counter is kept |
| Balls.Spawn | 7-clock-polar/Pac-Man.js:195-237 | `spawnBall` on the ball state: past 1000 balls nothing changes, otherwise `NewBall` with the next id is appended, its body joins the world and the counter advances |
| Balls.Control | 7-clock-polar/Pac-Man.js:240-258 | `controlPopulation` on the ball state: only the list changes, to `ControlledPopulation` |
| Balls.Step | 7-clock-polar/Pac-Man.js:342-396 | the ball loop on the ball state: the list becomes `StepBalls`, the world loses `Dropped` |
| Balls.PopulationFrame | 7-clock-polar/Pac-Man.js:327-396 | the ball part of `draw`: `Spawn` on every 60th frame, then `Control`, then `Step` |
| Balls.Frame | 7-clock-polar/Pac-Man.js:270-396 | one frame of `draw` on the ball state: `Reset` when the minute changed, then `PopulationFrame` |
| Balls.ResetKeepsInvariant | 7-clock-polar/Pac-Man.js:261-269 | emptying the list and removing its bodies keeps the ball-list invariant |
| Balls.FrameKeepsInvariant | 7-clock-polar/Pac-Man.js:270-396 | a whole frame of ball operations, with or without a reset, keeps the ball-list invariant |
| Balls.FrameClamped | 7-clock-polar/Pac-Man.js:342-358 | after a frame every ball has both velocity components in `[-25, 25]` |
| Balls.FrameAfterMinuteChange | 7-clock-polar/Pac-Man.js:279-282 | a frame that resets the balls keeps none from before: every remaining id is fresh, at most one ball is left, and none on a frame that spawns nothing |
| Balls.PopulationFrameLocal | 7-clock-polar/Pac-Man.js:327-396 | the ball part of a frame depends on the world only through its ball bodies, so ring changes made earlier in the frame do not affect it |
| Gravity.Reading | 7-clock-polar/Pac-Man.js:515-516 | the event has no reading exactly when both accelerations are missing; the reading including gravity wins when present, and otherwise the result is `acceleration` |
| Gravity.AxisOrZero | 7-clock-polar/Pac-Man.js:519-520 | `acc.x || 0` and `acc.y || 0`: a missing axis reads as zero, a present one as itself |
| Gravity.Target | 7-clock-polar/Pac-Man.js:519-531 | a target lies in `[-1, 1]`; within one g it is exactly `-a / 9.8`, and beyond one g it saturates at the opposite bound |
| Gravity.Smooth | 7-clock-polar/Pac-Man.js:534-535 | one low-pass step `s + (t - s) * 0.12`; stated by `SmoothIsConvex` |
| Gravity.SmoothIsConvex | 7-clock-polar/Pac-Man.js:534-535 | one smoothing step shrinks the gap to the target by the factor 0.88 and lands between the old value and the target |
| Gravity.SmoothNGap | 7-clock-polar/Pac-Man.js:534-535 | after `n` samples toward a fixed target the gap is `0.88^n` times the initial gap |
| Gravity.SmoothNInRange | 7-clock-polar/Pac-Man.js:534-535 | a smoothed value that starts in `[-1, 1]` stays there under any number of samples toward one fixed target in `[-1, 1]` |
| Gravity.SmoothNConverges | 7-clock-polar/Pac-Man.js:534-535 | the smoothed value converges to a fixed target: after `n` samples the gap is at most the initial gap over `1 + 0.12 n` |
| Sketch.Sketch.Setup | 7-clock-polar/Pac-Man.js:63-173 | after `setup` every slot is closed, has its angle in `[0, TWO_PI)` and its collider in the world, and the world holds nothing else; there are no balls and no body id is used yet; gravity is `(0, 1)` at the default scale, the targets and smoothed values are `(0, 1)`; `prevMinute` is the current minute and the invariant holds |
| Sketch.Sketch.SyncSegment | 7-clock-polar/Pac-Man.js:315-324 | given a slot whose collider is in the world exactly when it is closed, its flag becomes `angleInArc` of its angle and that agreement still holds afterwards; the world is touched only when the flag changes, only at that slot's collider, and no other slot changes |
| Sketch.Sketch.UpdateGate | 7-clock-polar/Pac-Man.js:314-324 | after the gate loop every slot's flag is `angleInArc` of its angle, and a slot's collider is in the world exactly when it is closed; the number of world calls is the number of slots that disagreed, so a second pass makes none; ball bodies are untouched, and the invariant (which admits no ring collider beyond slot 599) holds |
| Sketch.Sketch.ResetBalls | 7-clock-polar/Pac-Man.js:261-269 | the ball state becomes `Reset` of the old one: every ball body leaves the world and the list is emptied; the invariant holds |
| Sketch.Sketch.SpawnBall | 7-clock-polar/Pac-Man.js:195-237 | the ball state becomes `Spawn` of the old one: past 1000 balls nothing changes; otherwise a ball with a fresh id and a one-point trail is appended, its body joins the world and the id counter advances; the invariant holds |
| Sketch.Sketch.ControlPopulation | 7-clock-polar/Pac-Man.js:240-258 | the ball state becomes `Control` of the old one: the list becomes `ControlledPopulation` of the old list and the world is untouched; the invariant holds |
| Sketch.Sketch.UpdateBalls | 7-clock-polar/Pac-Man.js:342-396 | the ball state becomes `Step` of the old one: the list becomes `StepBalls` of the old list and the world loses exactly the `Dropped` bodies; the invariant holds |
| Sketch.Sketch.HandleMotion | 7-clock-polar/Pac-Man.js:514-542 | with no reading nothing changes; otherwise both targets are set from the reading, both smoothed values take one step toward them, and the world's gravity becomes the smoothed vector; targets and smoothed values stay in `[-1, 1]` |
| Sketch.Sketch.SyncGate | 7-clock-polar/Pac-Man.js:284-324 | the gate is `GateArc` of the hand angles from the clock, it is the minor arc, the ring agrees with it, no body other than a ring collider is added or removed, and the invariant keeps every ring collider in the world within the 600 slots |
| Sketch.Sketch.UpdatePopulation | 7-clock-polar/Pac-Man.js:327-396 | the list, the world and the id counter become `PopulationFrame` of the old ones: spawn on every 60th frame, then population control, then the ball loop; the invariant holds |
| Sketch.Sketch.Draw | 7-clock-polar/Pac-Man.js:270-396 | after one frame the list and the id counter are `Frame` of the old ball state, with a reset exactly when the minute changed, and the world holds the same ball bodies as `Frame`'s world; `prevMinute` is the current minute, the ring agrees with the minor-arc gate, every velocity is within bounds, after a minute change at most the ball spawned in this frame remains, and the invariant holds |

## Left out

- Rendering is not modelled: the background, the hands, the trail interpolation and alpha ramp, the ball ellipses, `drawHandSimple` and `drawCenterDot`. These only display state that has already been computed.
- The physics engine is not modelled: body creation, collision, stepping, the runner, `Block.rotate` and `Mouse`. Between frames the engine moves balls, so `position` and `velocity` are only what the sketch itself sets. `Block` and `Mouse` are defined in files that are not part of this model.
- Ring geometry (`cos`/`sin` positions, collider radius) and the canvas walls are not modelled. A slot keeps only its collider, its angle `map(i, 0, 600, 0, TWO_PI)` and its flag.
- `setupDeviceMotion` is not modelled. It is a DOM button, a permission promise and listener registration.
- `sketch.js` is not part of this model.
- `random`, `second`, `minute`, `hour` and `frameCount` are parameters. The spawn radius is required to lie in `[8, 16)`, the range `random(8, 16)` draws from.
- Numbers are Dafny reals, not IEEE doubles, so rounding is not modelled. `PI` is the decimal value of `Math.PI`.
- Trail.Queue: a ball's trail is kept in the ball record as the sequence `Enqueued` produces. It is not kept as a shared `Queue` object, so aliasing of the queue is not modelled.
- Balls.StepBall: the trail sample is the body position the sketch read in that frame. Engine movement between frames is not modelled.
- Gravity.AxisOrZero: `acc.x || 0` also turns `NaN` and `-0` into `0`. A missing axis is modelled, but NaN is not.
- `az` is read in `handleMotion` but never used, so it is left out.
- Sketch.Sketch.HandleMotion: the guard `world && world.gravity` is always true once `setup` has run, so the model always writes the gravity.
- Colours are left out.
- Sketch.Sketch.UpdateGate: `World.remove` is wrapped in `try`/`catch`. Removing a body that is not in the world is a no-op on a set, so the `catch` path is not modelled separately.
