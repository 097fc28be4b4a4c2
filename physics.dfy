/** The handles and vectors the sketch exchanges with the physics engine.
    The engine itself (body creation, stepping, collisions) is not modelled:
    a world is the set of bodies currently added to it. */
module Physics {

  /** A rigid body of the world: one static collider per ring slot, or the
      body of a ball, named by the engine's running body id. */
  datatype BodyRef = RingCollider(index: nat) | BallCollider(id: nat)

  /** A 2D vector: a position, a velocity or a trail sample. */
  datatype Vec = Vec(x: real, y: real)
}
