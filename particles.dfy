/**
 * Per-particle state and the start-up state set by `reset`.
 */
module Particles {
  import opened Vectors

  /** One particle: position `x`, velocity `v`, APIC matrix `C` and volume ratio `J`. */
  datatype Particle = Particle(x: Vec3, v: Vec3, C: Mat3, J: real)

  /** Total momentum m * v of a sequence of particles of mass m. */
  ghost function ParticleMomentum(m: real, ps: seq<Particle>): Vec3
  {
    if |ps| == 0 then ZERO3 else Add(ParticleMomentum(m, ps[..|ps| - 1]), Scale(m, ps[|ps| - 1].v))
  }

  /** The initial velocity of every particle. */
  const RESET_VELOCITY: Vec3 := Vec3(0.0, -0.3, 0.0)

  /** A sample of the random generator: a value in [0, 1). */
  predicate IsUnitSample(r: real)
  {
    0.0 <= r < 1.0
  }

  /**
   * The particle `reset` makes from three random samples r0, r1, r2: a
   * position in the box [0.3, 0.7) x [0.15, 0.9) x [0.3, 0.7), velocity
   * (0, -0.3, 0) and J = 1. The APIC matrix is not touched.
   */
  function ResetParticle(pt: Particle, r0: real, r1: real, r2: real): (q: Particle)
    requires IsUnitSample(r0) && IsUnitSample(r1) && IsUnitSample(r2)
    ensures 0.3 <= q.x.x < 0.7 && 0.15 <= q.x.y < 0.9 && 0.3 <= q.x.z < 0.7
    ensures q.v == RESET_VELOCITY && q.J == 1.0 && q.C == pt.C
  {
    Particle(Vec3(0.3 + r0 * 0.4, 0.15 + r1 * 0.75, 0.3 + r2 * 0.4), RESET_VELOCITY, pt.C, 1.0)
  }
}
