/**
 * Specification of the grid-to-particle transfer (`g2p`): the velocity and
 * APIC matrix a particle gathers from its 27 stencil nodes, and the
 * particle after the update of J and the advection of x. The lemmas state
 * what the gather means: it reads only the particle's own stencil, and it
 * reproduces a uniform grid velocity exactly (v = u, C = 0, J kept).
 */
module Gather {
  import opened Vectors
  import opened Config
  import opened Stencils
  import opened Sums
  import opened Grid
  import opened Particles
  import opened Scatter

  /** The grid node at stencil offset number t. */
  function StencilNode(n: nat, g: seq<GridNode>, st: Stencil, t: int): GridNode
    requires |g| == n * n * n && StencilInGrid(n, st) && 0 <= t < 27
  {
    g[StencilIndex(n, st, t)]
  }

  /** `wv`: the weighted velocity of the node at offset number t. */
  function WeightedVelocity(n: nat, g: seq<GridNode>, st: Stencil, t: int): Vec3
    requires |g| == n * n * n && StencilInGrid(n, st) && 0 <= t < 27
  {
    OffsetRange(t);
    Scale(Weight3(st, OffI(t), OffJ(t), OffK(t)), StencilNode(n, g, st, t).v)
  }

  /** `dpos` of the gather: the offset of node number t from the particle, in cell units. */
  function GatherOffset(st: Stencil, t: int): Vec3
  {
    Vec3(OffI(t) as real - st.fx.x, OffJ(t) as real - st.fx.y, OffK(t) as real - st.fx.z)
  }

  /** The factor 4 inv_dx of the APIC matrix. */
  function AffineFactor(n: nat): real
  {
    4.0 * InvDx(n)
  }

  /** The gathered velocity after the first t offsets: the sum of their wv. */
  ghost function GatherV(n: nat, g: seq<GridNode>, st: Stencil, t: nat): Vec3
    requires |g| == n * n * n && StencilInGrid(n, st) && t <= 27
  {
    if t == 0 then ZERO3 else Add(GatherV(n, g, st, t - 1), WeightedVelocity(n, g, st, t - 1))
  }

  /** What offset number t adds to the APIC matrix: 4 inv_dx * outer(wv, dpos). */
  function AffineIncrement(n: nat, g: seq<GridNode>, st: Stencil, t: int): Mat3
    requires |g| == n * n * n && StencilInGrid(n, st) && 0 <= t < 27
  {
    MatScale(AffineFactor(n), Outer(WeightedVelocity(n, g, st, t), GatherOffset(st, t)))
  }

  /** The gathered APIC matrix after the first t offsets. */
  ghost function GatherC(n: nat, g: seq<GridNode>, st: Stencil, t: nat): Mat3
    requires |g| == n * n * n && StencilInGrid(n, st) && t <= 27
  {
    if t == 0 then ZERO_MAT else MatAdd(GatherC(n, g, st, t - 1), AffineIncrement(n, g, st, t - 1))
  }

  /** The deformation update: J scaled by 1 + dt * trace(C). */
  function VolumeUpdate(J: real, C: Mat3): real
  {
    J * (1.0 + DT * Trace(C))
  }

  /**
   * A particle after the gather: the gathered velocity and APIC matrix, J
   * scaled by 1 + dt * trace(C), and x advected by dt * v. Of the old
   * state only x (through the stencil) and J enter.
   */
  ghost function G2PParticle(n: nat, g: seq<GridNode>, pt: Particle): Particle
    requires |g| == n * n * n && StencilInside(n, pt.x)
  {
    var st := StencilOf(n, pt.x);
    var v := GatherV(n, g, st, 27);
    var C := GatherC(n, g, st, 27);
    Particle(Add(pt.x, Scale(DT, v)), v, C, VolumeUpdate(pt.J, C))
  }

  /** The state of the gather loop after the first t offsets: v and C are the partial sums. */
  ghost predicate Gathered(n: nat, g: seq<GridNode>, st: Stencil, t: nat, v: Vec3, C: Mat3)
  {
    |g| == n * n * n && StencilInGrid(n, st) && t <= 27 && v == GatherV(n, g, st, t) && C == GatherC(n, g, st, t)
  }

  /**
   * The loop step of the kernel: with the weight, dpos and wv it computes
   * inline at offset (i, j, k), the gathered sums advance by wv and by the
   * APIC increment.
   */
  lemma GatherStep(n: nat, g: seq<GridNode>, st: Stencil, t: nat, v: Vec3, C: Mat3, i: int, j: int, k: int,
                   dpos: Vec3, weight: real, wv: Vec3)
    requires Gathered(n, g, st, t, v, C) && IsOffset(i, j, k) && t == 9 * i + 3 * j + k
    requires dpos == Vec3(i as real - st.fx.x, j as real - st.fx.y, k as real - st.fx.z)
    requires weight == Weight3(st, i, j, k)
    requires wv == Scale(weight, g[NodeIndex(n, st.baseX + i, st.baseY + j, st.baseZ + k)].v)
    ensures Gathered(n, g, st, t + 1, Add(v, wv), MatAdd(C, MatScale(4.0 * InvDx(n), Outer(wv, dpos))))
  {
    OffsetDecode(t, i, j, k);
    assert StencilIndex(n, st, t) == NodeIndex(n, st.baseX + i, st.baseY + j, st.baseZ + k);
    assert WeightedVelocity(n, g, st, t) == wv;
    assert GatherOffset(st, t) == dpos;
  }

  /** The particle after the gather, from the completed sums v and C. */
  lemma G2PParticleOfSums(n: nat, g: seq<GridNode>, pt: Particle, v: Vec3, C: Mat3)
    requires |g| == n * n * n && StencilInside(n, pt.x)
    requires v == GatherV(n, g, StencilOf(n, pt.x), 27) && C == GatherC(n, g, StencilOf(n, pt.x), 27)
    ensures G2PParticle(n, g, pt) == Particle(Add(pt.x, Scale(DT, v)), v, C, VolumeUpdate(pt.J, C))
  {
  }

  /**
   * The state of the `g2p` loop after p particles: the first p entries of
   * `after` are the gathered particles of `before`, the rest are untouched.
   */
  ghost predicate GatheredUpTo(n: nat, g: seq<GridNode>, before: seq<Particle>, after: seq<Particle>, p: nat)
  {
    && |g| == n * n * n && AllInside(n, before) && |after| == |before| && p <= |before|
    && (forall q :: 0 <= q < p ==> after[q] == G2PParticle(n, g, before[q]))
    && (forall q :: p <= q < |before| ==> after[q] == before[q])
  }

  /** One step of the `g2p` loop: particle p is replaced by its gathered value. */
  lemma GatheredStep(n: nat, g: seq<GridNode>, before: seq<Particle>, after: seq<Particle>, p: nat, r: Particle)
    requires GatheredUpTo(n, g, before, after, p) && p < |before| && r == G2PParticle(n, g, before[p])
    ensures GatheredUpTo(n, g, before, after[p := r], p + 1)
  {
  }

  /** Two grids that agree on the 27 stencil nodes give the same gather. */
  lemma {:induction false} GatherReadsStencil(n: nat, g: seq<GridNode>, h: seq<GridNode>, st: Stencil, t: nat)
    requires |g| == n * n * n && |h| == n * n * n && StencilInGrid(n, st) && t <= 27
    requires forall s :: 0 <= s < 27 ==> g[StencilIndex(n, st, s)] == h[StencilIndex(n, st, s)]
    ensures GatherV(n, g, st, t) == GatherV(n, h, st, t) && GatherC(n, g, st, t) == GatherC(n, h, st, t)
  {
    if t > 0 {
      GatherReadsStencil(n, g, h, st, t - 1);
      assert StencilNode(n, g, st, t - 1) == StencilNode(n, h, st, t - 1);
    }
  }

  /** The new particle depends only on the old particle and its 27 stencil nodes. */
  lemma G2PReadsStencil(n: nat, g: seq<GridNode>, h: seq<GridNode>, pt: Particle)
    requires |g| == n * n * n && |h| == n * n * n && StencilInside(n, pt.x)
    requires forall s :: 0 <= s < 27 ==> g[StencilIndex(n, StencilOf(n, pt.x), s)] == h[StencilIndex(n, StencilOf(n, pt.x), s)]
    ensures G2PParticle(n, g, pt) == G2PParticle(n, h, pt)
  {
    GatherReadsStencil(n, g, h, StencilOf(n, pt.x), 27);
  }

  // ----- A uniform grid velocity is reproduced -----

  /** All 27 stencil nodes carry velocity u. */
  predicate UniformStencil(n: nat, g: seq<GridNode>, st: Stencil, u: Vec3)
    requires |g| == n * n * n && StencilInGrid(n, st)
  {
    forall s :: 0 <= s < 27 ==> StencilNode(n, g, st, s).v == u
  }

  function SlopeX(s: real): Vec3 { Vec3(s, 0.0, 0.0) }
  function SlopeY(s: real): Vec3 { Vec3(0.0, s, 0.0) }
  function SlopeZ(s: real): Vec3 { Vec3(0.0, 0.0, s) }

  /** A weighted constant is an affine term without slope. */
  lemma ConstantTerm(st: Stencil, i: int, j: int, k: int, c: real)
    requires IsOffset(i, j, k)
    ensures Weight3(st, i, j, k) * c == AffineTerm(st, i, j, k, c, ZERO3)
  {
    AffineTermWeight(st, i, j, k, c, ZERO3);
  }

  /** q * ((w * s) * (i - fx.x)) is an affine term with value 0 and slope q s along x. */
  lemma OuterTermX(st: Stencil, i: int, j: int, k: int, q: real, s: real)
    requires IsOffset(i, j, k)
    ensures q * ((Weight3(st, i, j, k) * s) * (i as real - st.fx.x)) == AffineTerm(st, i, j, k, 0.0, SlopeX(q * s))
  {
    AffineTermWeight(st, i, j, k, 0.0, SlopeX(q * s));
  }

  lemma OuterTermY(st: Stencil, i: int, j: int, k: int, q: real, s: real)
    requires IsOffset(i, j, k)
    ensures q * ((Weight3(st, i, j, k) * s) * (j as real - st.fx.y)) == AffineTerm(st, i, j, k, 0.0, SlopeY(q * s))
  {
    AffineTermWeight(st, i, j, k, 0.0, SlopeY(q * s));
  }

  lemma OuterTermZ(st: Stencil, i: int, j: int, k: int, q: real, s: real)
    requires IsOffset(i, j, k)
    ensures q * ((Weight3(st, i, j, k) * s) * (k as real - st.fx.z)) == AffineTerm(st, i, j, k, 0.0, SlopeZ(q * s))
  {
    AffineTermWeight(st, i, j, k, 0.0, SlopeZ(q * s));
  }

  /** Solver aid: a vector equals the vector of its components. */
  lemma VecOfComponents(v: Vec3, x: real, y: real, z: real)
    requires v.x == x && v.y == y && v.z == z
    ensures v == Vec3(x, y, z)
  {
  }

  /** Solver aid: a matrix equals the matrix of its rows. */
  lemma MatOfRows(T: Mat3, r0: Vec3, r1: Vec3, r2: Vec3)
    requires T.r0 == r0 && T.r1 == r1 && T.r2 == r2
    ensures T == Mat3(r0, r1, r2)
  {
  }

  /** The value of row s of the uniform-velocity APIC increment at offset (i, j, k). */
  function SlopeTerms(st: Stencil, i: int, j: int, k: int, q: real, s: real): Vec3
    requires IsOffset(i, j, k)
  {
    Vec3(AffineTerm(st, i, j, k, 0.0, SlopeX(q * s)), AffineTerm(st, i, j, k, 0.0, SlopeY(q * s)),
         AffineTerm(st, i, j, k, 0.0, SlopeZ(q * s)))
  }

  /** Row q * (w s) * dpos of the increment, as affine terms. */
  lemma OuterRow(st: Stencil, i: int, j: int, k: int, q: real, s: real, ws: real, row: Vec3)
    requires IsOffset(i, j, k) && ws == Weight3(st, i, j, k) * s
    requires row == Scale(q, Scale(ws, Vec3(i as real - st.fx.x, j as real - st.fx.y, k as real - st.fx.z)))
    ensures row == SlopeTerms(st, i, j, k, q, s)
  {
    OuterTermX(st, i, j, k, q, s);
    OuterTermY(st, i, j, k, q, s);
    OuterTermZ(st, i, j, k, q, s);
    VecOfComponents(row, AffineTerm(st, i, j, k, 0.0, SlopeX(q * s)), AffineTerm(st, i, j, k, 0.0, SlopeY(q * s)),
                    AffineTerm(st, i, j, k, 0.0, SlopeZ(q * s)));
  }

  /** A weight times a uniform velocity u, component by component as affine terms without slope. */
  lemma WeightedConstant(st: Stencil, i: int, j: int, k: int, u: Vec3, wv: Vec3)
    requires IsOffset(i, j, k) && wv == Scale(Weight3(st, i, j, k), u)
    ensures wv == Vec3(AffineTerm(st, i, j, k, u.x, ZERO3), AffineTerm(st, i, j, k, u.y, ZERO3), AffineTerm(st, i, j, k, u.z, ZERO3))
  {
    ConstantTerm(st, i, j, k, u.x);
    ConstantTerm(st, i, j, k, u.y);
    ConstantTerm(st, i, j, k, u.z);
    VecOfComponents(wv, AffineTerm(st, i, j, k, u.x, ZERO3), AffineTerm(st, i, j, k, u.y, ZERO3), AffineTerm(st, i, j, k, u.z, ZERO3));
  }

  /** The three rows of the increment q * outer(w u, dpos), one at a time. */
  lemma OuterRow0(st: Stencil, i: int, j: int, k: int, q: real, u: Vec3, wv: Vec3, T: Mat3)
    requires IsOffset(i, j, k) && wv == Scale(Weight3(st, i, j, k), u)
    requires T == MatScale(q, Outer(wv, Vec3(i as real - st.fx.x, j as real - st.fx.y, k as real - st.fx.z)))
    ensures T.r0 == SlopeTerms(st, i, j, k, q, u.x)
  {
    OuterRow(st, i, j, k, q, u.x, wv.x, T.r0);
  }

  lemma OuterRow1(st: Stencil, i: int, j: int, k: int, q: real, u: Vec3, wv: Vec3, T: Mat3)
    requires IsOffset(i, j, k) && wv == Scale(Weight3(st, i, j, k), u)
    requires T == MatScale(q, Outer(wv, Vec3(i as real - st.fx.x, j as real - st.fx.y, k as real - st.fx.z)))
    ensures T.r1 == SlopeTerms(st, i, j, k, q, u.y)
  {
    OuterRow(st, i, j, k, q, u.y, wv.y, T.r1);
  }

  lemma OuterRow2(st: Stencil, i: int, j: int, k: int, q: real, u: Vec3, wv: Vec3, T: Mat3)
    requires IsOffset(i, j, k) && wv == Scale(Weight3(st, i, j, k), u)
    requires T == MatScale(q, Outer(wv, Vec3(i as real - st.fx.x, j as real - st.fx.y, k as real - st.fx.z)))
    ensures T.r2 == SlopeTerms(st, i, j, k, q, u.z)
  {
    OuterRow(st, i, j, k, q, u.z, wv.z, T.r2);
  }

  /** The increment q * outer(w u, dpos), row by row as affine terms without constant part. */
  lemma OuterIncrement(st: Stencil, i: int, j: int, k: int, q: real, u: Vec3, T: Mat3)
    requires IsOffset(i, j, k)
    requires T == MatScale(q, Outer(Scale(Weight3(st, i, j, k), u), Vec3(i as real - st.fx.x, j as real - st.fx.y, k as real - st.fx.z)))
    ensures T == Mat3(SlopeTerms(st, i, j, k, q, u.x), SlopeTerms(st, i, j, k, q, u.y), SlopeTerms(st, i, j, k, q, u.z))
  {
    OuterRow0(st, i, j, k, q, u, Scale(Weight3(st, i, j, k), u), T);
    OuterRow1(st, i, j, k, q, u, Scale(Weight3(st, i, j, k), u), T);
    OuterRow2(st, i, j, k, q, u, Scale(Weight3(st, i, j, k), u), T);
    MatOfRows(T, SlopeTerms(st, i, j, k, q, u.x), SlopeTerms(st, i, j, k, q, u.y), SlopeTerms(st, i, j, k, q, u.z));
  }

  /** Under a uniform velocity u the weighted velocity of every node is a constant affine term per component. */
  lemma UniformWeightedVelocity(n: nat, g: seq<GridNode>, st: Stencil, u: Vec3, t: int)
    requires |g| == n * n * n && StencilInGrid(n, st) && 0 <= t < 27 && UniformStencil(n, g, st, u)
    ensures WeightedVelocity(n, g, st, t)
      == Vec3(AffineTerm(st, OffI(t), OffJ(t), OffK(t), u.x, ZERO3), AffineTerm(st, OffI(t), OffJ(t), OffK(t), u.y, ZERO3),
              AffineTerm(st, OffI(t), OffJ(t), OffK(t), u.z, ZERO3))
  {
    OffsetRange(t);
    assert StencilNode(n, g, st, t).v == u;
    WeightedConstant(st, OffI(t), OffJ(t), OffK(t), u, WeightedVelocity(n, g, st, t));
  }

  /** Under a uniform velocity u each APIC increment is a matrix of affine terms without constant part. */
  lemma UniformIncrement(n: nat, g: seq<GridNode>, st: Stencil, u: Vec3, t: int)
    requires |g| == n * n * n && StencilInGrid(n, st) && 0 <= t < 27 && UniformStencil(n, g, st, u)
    ensures var q := AffineFactor(n);
      AffineIncrement(n, g, st, t)
      == Mat3(SlopeTerms(st, OffI(t), OffJ(t), OffK(t), q, u.x), SlopeTerms(st, OffI(t), OffJ(t), OffK(t), q, u.y),
              SlopeTerms(st, OffI(t), OffJ(t), OffK(t), q, u.z))
  {
    OffsetRange(t);
    assert StencilNode(n, g, st, t).v == u;
    assert WeightedVelocity(n, g, st, t) == Scale(Weight3(st, OffI(t), OffJ(t), OffK(t)), u);
    OuterIncrement(st, OffI(t), OffJ(t), OffK(t), AffineFactor(n), u, AffineIncrement(n, g, st, t));
  }

  /** The gathered APIC row s after the first t offsets under a uniform velocity. */
  ghost function SlopeRow(st: Stencil, t: nat, q: real, s: real): Vec3
    requires t <= 27
  {
    Vec3(AffinePrefix(st, t, 0.0, SlopeX(q * s)), AffinePrefix(st, t, 0.0, SlopeY(q * s)), AffinePrefix(st, t, 0.0, SlopeZ(q * s)))
  }

  /** Under a uniform velocity u the gathered velocity is, per component, an affine prefix sum without slope. */
  lemma {:induction false} UniformGatherV(n: nat, g: seq<GridNode>, st: Stencil, u: Vec3, t: nat)
    requires |g| == n * n * n && StencilInGrid(n, st) && t <= 27 && UniformStencil(n, g, st, u)
    ensures GatherV(n, g, st, t)
         == Vec3(AffinePrefix(st, t, u.x, ZERO3), AffinePrefix(st, t, u.y, ZERO3), AffinePrefix(st, t, u.z, ZERO3))
  {
    if t > 0 {
      UniformGatherV(n, g, st, u, t - 1);
      UniformWeightedVelocity(n, g, st, u, t - 1);
    }
  }

  /** Under a uniform velocity u the gathered APIC matrix is, per entry, an affine prefix sum without constant part. */
  lemma {:induction false} UniformGatherC(n: nat, g: seq<GridNode>, st: Stencil, u: Vec3, t: nat)
    requires |g| == n * n * n && StencilInGrid(n, st) && t <= 27 && UniformStencil(n, g, st, u)
    ensures var q := AffineFactor(n);
      GatherC(n, g, st, t) == Mat3(SlopeRow(st, t, q, u.x), SlopeRow(st, t, q, u.y), SlopeRow(st, t, q, u.z))
  {
    if t > 0 {
      UniformGatherC(n, g, st, u, t - 1);
      UniformIncrement(n, g, st, u, t - 1);
    }
  }

  /** Over the whole stencil a row without constant part sums to zero. */
  lemma SlopeRowVanishes(st: Stencil, q: real, s: real)
    requires WellFormed(st)
    ensures SlopeRow(st, 27, q, s) == ZERO3
  {
    StencilAffineSum(st, 0.0, SlopeX(q * s));
    StencilAffineSum(st, 0.0, SlopeY(q * s));
    StencilAffineSum(st, 0.0, SlopeZ(q * s));
  }

  /** Solver aid: scaling by a factor equal to one. */
  lemma ScaleByOne(J: real, f: real)
    requires f == 1.0
    ensures J * f == J
  {
  }

  /**
   * The gather reproduces a uniform grid velocity exactly: if all 27
   * stencil nodes carry velocity u, the particle gets v = u and C = 0,
   * keeps its J and moves by dt * u.
   */
  lemma G2PUniformVelocity(n: nat, g: seq<GridNode>, pt: Particle, u: Vec3)
    requires |g| == n * n * n && StencilInside(n, pt.x)
    requires UniformStencil(n, g, StencilOf(n, pt.x), u)
    ensures G2PParticle(n, g, pt) == Particle(Add(pt.x, Scale(DT, u)), u, ZERO_MAT, pt.J)
  {
    var st := StencilOf(n, pt.x);
    StencilOfWeights(n, pt.x);
    UniformVelocityTotal(n, g, st, u);
    UniformMatrixTotal(n, g, st, u);
    VolumeAtRest(pt.J);
    G2PParticleOfSums(n, g, pt, u, ZERO_MAT);
  }

  /** Under a uniform stencil velocity u the gathered velocity is u. */
  lemma UniformVelocityTotal(n: nat, g: seq<GridNode>, st: Stencil, u: Vec3)
    requires |g| == n * n * n && StencilInGrid(n, st) && WellFormed(st) && UniformStencil(n, g, st, u)
    ensures GatherV(n, g, st, 27) == u
  {
    UniformGatherV(n, g, st, u, 27);
    StencilAffineSum(st, u.x, ZERO3);
    StencilAffineSum(st, u.y, ZERO3);
    StencilAffineSum(st, u.z, ZERO3);
  }

  /** Under a uniform stencil velocity the gathered APIC matrix is zero. */
  lemma UniformMatrixTotal(n: nat, g: seq<GridNode>, st: Stencil, u: Vec3)
    requires |g| == n * n * n && StencilInGrid(n, st) && WellFormed(st) && UniformStencil(n, g, st, u)
    ensures GatherC(n, g, st, 27) == ZERO_MAT
  {
    var q := AffineFactor(n);
    UniformGatherC(n, g, st, u, 27);
    SlopeRowVanishes(st, q, u.x);
    SlopeRowVanishes(st, q, u.y);
    SlopeRowVanishes(st, q, u.z);
  }

  /** A zero velocity gradient leaves J unchanged. */
  lemma VolumeAtRest(J: real)
    ensures VolumeUpdate(J, ZERO_MAT) == J
  {
    ScaleByOne(J, 1.0 + DT * Trace(ZERO_MAT));
  }

  /**
   * A particle whose 27 stencil nodes are at rest comes to rest: v and C
   * become zero, and x and J are unchanged.
   */
  lemma G2PAtRest(n: nat, g: seq<GridNode>, pt: Particle)
    requires |g| == n * n * n && StencilInside(n, pt.x)
    requires UniformStencil(n, g, StencilOf(n, pt.x), ZERO3)
    ensures G2PParticle(n, g, pt) == Particle(pt.x, ZERO3, ZERO_MAT, pt.J)
  {
    G2PUniformVelocity(n, g, pt, ZERO3);
    ScaleZero(DT);
    AddZero(pt.x);
  }
}
