/**
 * The fixed simulation constants of the 3D MPM demo, as exact reals.
 * The grid resolution `n` and the particle count are parameters of the
 * simulation object; everything else here is a constant of the program.
 */
module Config {

  /** Time step `dt`. */
  const DT: real := 0.0001
  /** Mass of every particle. */
  const PARTICLE_MASS: real := 1.0
  /** Rest volume `vol` of every particle. */
  const VOL: real := 1.0
  /** Stiffness `E` of the weakly compressible material. */
  const E: real := 1000.0
  /** Vertical acceleration applied to grid velocities (the source adds `dt * -200`). */
  const GRAVITY: real := -200.0
  /** Width, in cells, of the low-side boundary layer; the high side clamps indices above n - 5. */
  const BOUNDARY: int := 5

  /** Block sizes of the storage layout; only their divisibility demands are kept. */
  const GRID_BLOCK_SIZE: nat := 8
  const PARTICLE_BLOCK_SIZE: nat := 256

  /** The reference configuration: resolution and particle count. */
  const REFERENCE_N: nat := 128
  const REFERENCE_PARTICLES: nat := 8192 * 16

  /** Substeps run per rendered frame. */
  const SUBSTEPS_PER_FRAME: nat := 20

  /** Number of grid cells per unit length: inv_dx = 1 / dx = n. */
  function InvDx(n: nat): real
  {
    n as real
  }

  /** Cell size dx = 1 / n. */
  function Dx(n: nat): real
    requires n > 0
  {
    1.0 / n as real
  }

  /** dx and inv_dx are reciprocal. */
  lemma DxInverse(n: nat)
    requires n > 0
    ensures Dx(n) * InvDx(n) == 1.0
  {
  }

  predicate IsPowerOfTwo(n: nat)
    decreases n
  {
    n == 1 || (n > 1 && n % 2 == 0 && IsPowerOfTwo(n / 2))
  }

  /**
   * The start-up assertions on the configuration: the grid resolution is a
   * power of two and a multiple of the grid block size, and the particle
   * count is a multiple of the particle block size.
   */
  predicate ValidConfiguration(n: nat, particleCount: nat)
  {
    IsPowerOfTwo(n) && n % GRID_BLOCK_SIZE == 0 && particleCount % PARTICLE_BLOCK_SIZE == 0
  }

  /** The reference configuration passes the start-up assertions. */
  lemma ReferenceConfigurationValid()
    ensures ValidConfiguration(REFERENCE_N, REFERENCE_PARTICLES)
  {
    assert IsPowerOfTwo(1);
    assert IsPowerOfTwo(2);
    assert IsPowerOfTwo(4);
    assert IsPowerOfTwo(8);
    assert IsPowerOfTwo(16);
    assert IsPowerOfTwo(32);
    assert IsPowerOfTwo(64);
  }

  /** A valid resolution is at least 8 cells (at exactly 8 the two boundary layers overlap). */
  lemma {:induction false} ValidResolutionAtLeastEight(n: nat, particleCount: nat)
    requires ValidConfiguration(n, particleCount)
    ensures n >= GRID_BLOCK_SIZE
  {
  }
}
