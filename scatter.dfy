/**
 * Specification of the particle-to-grid transfer (`p2g`): the share a
 * particle deposits on each of its 27 stencil nodes, the grid after a
 * particle's 27 atomic additions, and the grid after all particles. The
 * lemmas state what the deposit means: each particle adds exactly its mass
 * and its momentum to the grid, only on its own stencil nodes.
 */
module Scatter {
  import opened Vectors
  import opened Config
  import opened Stencils
  import opened Sums
  import opened Grid
  import opened Particles

  /** The pressure-like stress E * (J - 1). */
  function Cauchy(J: real): real
  {
    E * (J - 1.0)
  }

  /** The constant -4 inv_dx^2 dt vol by which the stress enters the affine matrix's diagonal. */
  function StressFactor(n: nat): real
  {
    -4.0 * InvDx(n) * InvDx(n) * DT * VOL
  }

  /** The affine momentum matrix: mass * C with the stress added to its diagonal. */
  function Affine(n: nat, pt: Particle): Mat3
  {
    AddDiagonal(MatScale(PARTICLE_MASS, pt.C), StressFactor(n) * Cauchy(pt.J))
  }

  /** A particle at rest volume (J == 1) has no stress: the affine matrix is mass * C. */
  lemma AffineAtRest(n: nat, pt: Particle)
    requires pt.J == 1.0
    ensures Affine(n, pt) == MatScale(PARTICLE_MASS, pt.C)
  {
  }

  /** A compressed particle (J < 1) pushes outward: the affine diagonal gains a positive term. */
  lemma AffineUnderCompression(n: nat, pt: Particle)
    requires n > 0 && pt.J < 1.0
    ensures Affine(n, pt).r0.x > PARTICLE_MASS * pt.C.r0.x
    ensures Affine(n, pt).r1.y > PARTICLE_MASS * pt.C.r1.y
    ensures Affine(n, pt).r2.z > PARTICLE_MASS * pt.C.r2.z
  {
    var q := InvDx(n);
    assert q * q > 0.0;
    assert StressFactor(n) < 0.0;
    assert Cauchy(pt.J) < 0.0;
    assert StressFactor(n) * Cauchy(pt.J) > 0.0;
  }

  /** `dpos`: the offset of stencil node (i, j, k) from the particle, dx * (offset - fx). */
  function ScatterOffset(st: Stencil, d: real, i: int, j: int, k: int): Vec3
  {
    Vec3(d * (i as real - st.fx.x), d * (j as real - st.fx.y), d * (k as real - st.fx.z))
  }

  /**
   * The deposit at stencil offset (i, j, k) of a particle with momentum mv
   * and affine matrix A on a grid of cell size d: momentum
   * weight * (mv + A * dpos) and mass weight * m.
   */
  function ScatterShare(st: Stencil, mv: Vec3, A: Mat3, d: real, i: int, j: int, k: int): GridNode
    requires IsOffset(i, j, k)
  {
    GridNode(ShareMomentum(st, mv, A, d, i, j, k), Weight3(st, i, j, k) * PARTICLE_MASS)
  }

  /** The kernel's inline formula for a share, from the weight and dpos it computes. */
  lemma ShareFormula(st: Stencil, mv: Vec3, A: Mat3, d: real, i: int, j: int, k: int, dpos: Vec3, weight: real)
    requires IsOffset(i, j, k)
    requires dpos == Vec3(d * (i as real - st.fx.x), d * (j as real - st.fx.y), d * (k as real - st.fx.z))
    requires weight == st.w[i].x * st.w[j].y * st.w[k].z
    ensures GridNode(Scale(weight, Add(mv, MatVec(A, dpos))), weight * PARTICLE_MASS) == ScatterShare(st, mv, A, d, i, j, k)
  {
  }

  /**
   * Solver aid, the arithmetic of one momentum component of a share: the
   * weight w0 w1 w2 times (c + r . (d e)) regrouped as an affine term with
   * slope d r.
   */
  lemma ShareRegroup(w0: real, w1: real, w2: real, c: real, r0: real, r1: real, r2: real, d: real,
                     e0: real, e1: real, e2: real)
    ensures w0 * w1 * w2 * (c + (r0 * (d * e0) + r1 * (d * e1) + r2 * (d * e2)))
         == (w0 * w1) * (w2 * (c + (d * r0) * e0 + (d * r1) * e1 + (d * r2) * e2))
  {
  }

  /** One momentum component w (cv + row . dpos) of a share. */
  function ShareComponent(st: Stencil, i: int, j: int, k: int, cv: real, row: Vec3, d: real): real
    requires IsOffset(i, j, k)
  {
    Weight3(st, i, j, k) * (cv + Dot(row, ScatterOffset(st, d, i, j, k)))
  }

  /** Solver aid: a momentum component of a share, written out over the stencil's fields. */
  lemma ShareValueExpanded(st: Stencil, i: int, j: int, k: int, cv: real, row: Vec3, d: real)
    requires IsOffset(i, j, k)
    ensures ShareComponent(st, i, j, k, cv, row, d)
         == st.w[i].x * st.w[j].y * st.w[k].z
            * (cv + (row.x * (d * (i as real - st.fx.x)) + row.y * (d * (j as real - st.fx.y)) + row.z * (d * (k as real - st.fx.z))))
  {
  }

  /** Solver aid: the affine term with slope d * row, written out over the stencil's fields. */
  lemma SlopeTermExpanded(st: Stencil, i: int, j: int, k: int, cv: real, row: Vec3, d: real)
    requires IsOffset(i, j, k)
    ensures AffineTerm(st, i, j, k, cv, Scale(d, row))
         == (st.w[i].x * st.w[j].y)
            * (st.w[k].z * (cv + (d * row.x) * (i as real - st.fx.x) + (d * row.y) * (j as real - st.fx.y)
                               + (d * row.z) * (k as real - st.fx.z)))
  {
  }

  /** One momentum component of a share is an affine term with value cv and slope d * row. */
  lemma MomentumTerm(st: Stencil, i: int, j: int, k: int, cv: real, row: Vec3, d: real)
    requires IsOffset(i, j, k)
    ensures ShareComponent(st, i, j, k, cv, row, d) == AffineTerm(st, i, j, k, cv, Scale(d, row))
  {
    ShareValueExpanded(st, i, j, k, cv, row, d);
    SlopeTermExpanded(st, i, j, k, cv, row, d);
    ShareRegroup(st.w[i].x, st.w[j].y, st.w[k].z, cv, row.x, row.y, row.z, d,
                 i as real - st.fx.x, j as real - st.fx.y, k as real - st.fx.z);
  }

  /** The momentum w (mv + A dpos) of a share. */
  function ShareMomentum(st: Stencil, mv: Vec3, A: Mat3, d: real, i: int, j: int, k: int): Vec3
    requires IsOffset(i, j, k)
  {
    Scale(Weight3(st, i, j, k), Add(mv, MatVec(A, ScatterOffset(st, d, i, j, k))))
  }

  /** Solver aid: the components of w (mv + A dpos) are the share components for the rows of A. */
  lemma ShareMomentumComponents(st: Stencil, mv: Vec3, A: Mat3, d: real, i: int, j: int, k: int)
    requires IsOffset(i, j, k)
    ensures ShareMomentum(st, mv, A, d, i, j, k)
         == Vec3(ShareComponent(st, i, j, k, mv.x, A.r0, d), ShareComponent(st, i, j, k, mv.y, A.r1, d),
                 ShareComponent(st, i, j, k, mv.z, A.r2, d))
  {
  }

  /** The momentum of a share, component by component, is an affine term with slope d times a row of A. */
  lemma ShareMomentumAffine(st: Stencil, mv: Vec3, A: Mat3, d: real, i: int, j: int, k: int)
    requires IsOffset(i, j, k)
    ensures ShareMomentum(st, mv, A, d, i, j, k)
         == Vec3(AffineTerm(st, i, j, k, mv.x, Scale(d, A.r0)),
                 AffineTerm(st, i, j, k, mv.y, Scale(d, A.r1)),
                 AffineTerm(st, i, j, k, mv.z, Scale(d, A.r2)))
  {
    ShareMomentumComponents(st, mv, A, d, i, j, k);
    MomentumTerm(st, i, j, k, mv.x, A.r0, d);
    MomentumTerm(st, i, j, k, mv.y, A.r1, d);
    MomentumTerm(st, i, j, k, mv.z, A.r2, d);
  }

  lemma ShareMass(st: Stencil, mv: Vec3, A: Mat3, d: real, i: int, j: int, k: int)
    requires IsOffset(i, j, k)
    ensures ScatterShare(st, mv, A, d, i, j, k).m == AffineTerm(st, i, j, k, PARTICLE_MASS, ZERO3)
  {
    AffineTermWeight(st, i, j, k, PARTICLE_MASS, ZERO3);
  }

  /**
   * A share, component by component, is an affine term: the mass has value
   * m and no slope; momentum component r has value mv_r and slope d times
   * row r of the affine matrix.
   */
  lemma ShareAffine(st: Stencil, mv: Vec3, A: Mat3, d: real, i: int, j: int, k: int)
    requires IsOffset(i, j, k)
    ensures ScatterShare(st, mv, A, d, i, j, k)
         == GridNode(Vec3(AffineTerm(st, i, j, k, mv.x, Scale(d, A.r0)),
                          AffineTerm(st, i, j, k, mv.y, Scale(d, A.r1)),
                          AffineTerm(st, i, j, k, mv.z, Scale(d, A.r2))),
                     AffineTerm(st, i, j, k, PARTICLE_MASS, ZERO3))
  {
    ShareMomentumAffine(st, mv, A, d, i, j, k);
    ShareMass(st, mv, A, d, i, j, k);
  }

  /** The share of a stencil with non-negative weights has non-negative mass. */
  lemma ShareMassNonNegative(st: Stencil, mv: Vec3, A: Mat3, d: real, i: int, j: int, k: int)
    requires NonNegativeWeights(st) && IsOffset(i, j, k)
    ensures ScatterShare(st, mv, A, d, i, j, k).m >= 0.0
  {
    Weight3NonNegative(st, i, j, k);
  }

  /** The sum of the shares of the first t offsets, in loop order. */
  ghost function DepositPrefix(st: Stencil, mv: Vec3, A: Mat3, d: real, t: nat): GridNode
    requires t <= 27
  {
    if t == 0 then ZERO_NODE
    else
      OffsetRange(t - 1);
      AddNode(DepositPrefix(st, mv, A, d, t - 1), ScatterShare(st, mv, A, d, OffI(t - 1), OffJ(t - 1), OffK(t - 1)))
  }

  /** The deposit split into the four affine prefix sums. */
  ghost function AffineDeposit(st: Stencil, mv: Vec3, A: Mat3, d: real, t: nat): GridNode
    requires t <= 27
  {
    GridNode(Vec3(AffinePrefix(st, t, mv.x, Scale(d, A.r0)),
                  AffinePrefix(st, t, mv.y, Scale(d, A.r1)),
                  AffinePrefix(st, t, mv.z, Scale(d, A.r2))),
             AffinePrefix(st, t, PARTICLE_MASS, ZERO3))
  }

  lemma {:induction false} DepositPrefixAffine(st: Stencil, mv: Vec3, A: Mat3, d: real, t: nat)
    requires t <= 27
    ensures DepositPrefix(st, mv, A, d, t) == AffineDeposit(st, mv, A, d, t)
  {
    if t > 0 {
      DepositPrefixAffine(st, mv, A, d, t - 1);
      OffsetRange(t - 1);
      ShareAffine(st, mv, A, d, OffI(t - 1), OffJ(t - 1), OffK(t - 1));
    }
  }

  /**
   * Over its 27 nodes a particle deposits exactly its mass and exactly the
   * momentum mv: the A * dpos terms cancel, so neither C nor the stress
   * changes the total momentum.
   */
  lemma ParticleDepositTotal(st: Stencil, mv: Vec3, A: Mat3, d: real)
    requires WellFormed(st)
    ensures DepositPrefix(st, mv, A, d, 27) == GridNode(mv, PARTICLE_MASS)
  {
    DepositPrefixAffine(st, mv, A, d, 27);
    StencilAffineSum(st, mv.x, Scale(d, A.r0));
    StencilAffineSum(st, mv.y, Scale(d, A.r1));
    StencilAffineSum(st, mv.z, Scale(d, A.r2));
    StencilAffineSum(st, PARTICLE_MASS, ZERO3);
  }

  // ----- The grid after the atomic additions -----

  /** Node (a, b, c) is one of the 27 nodes of stencil st. */
  predicate InStencilNode(st: Stencil, a: int, b: int, c: int)
  {
    st.baseX <= a <= st.baseX + 2 && st.baseY <= b <= st.baseY + 2 && st.baseZ <= c <= st.baseZ + 2
  }

  /** The flat index of the node at stencil offset number t. */
  function StencilIndex(n: nat, st: Stencil, t: int): (q: int)
    requires StencilInGrid(n, st) && 0 <= t < 27
    ensures 0 <= q < n * n * n
  {
    OffsetRange(t);
    NodeIndex(n, st.baseX + OffI(t), st.baseY + OffJ(t), st.baseZ + OffK(t))
  }

  /**
   * The grid g after the particle's additions at its first t offsets: the
   * share of offset s is added to the node at base + offset s.
   */
  ghost function ApplyShares(n: nat, g: seq<GridNode>, st: Stencil, mv: Vec3, A: Mat3, d: real, t: nat): (r: seq<GridNode>)
    requires |g| == n * n * n && StencilInGrid(n, st) && t <= 27
    ensures |r| == |g|
  {
    if t == 0 then g
    else
      OffsetRange(t - 1);
      var prev := ApplyShares(n, g, st, mv, A, d, t - 1);
      var q := StencilIndex(n, st, t - 1);
      prev[q := AddNode(prev[q], ScatterShare(st, mv, A, d, OffI(t - 1), OffJ(t - 1), OffK(t - 1)))]
  }

  /** The loop step: offset (i, j, k) is addition number 9 i + 3 j + k. */
  lemma ApplySharesStep(n: nat, g: seq<GridNode>, st: Stencil, mv: Vec3, A: Mat3, d: real, t: nat, i: int, j: int, k: int)
    requires |g| == n * n * n && StencilInGrid(n, st) && IsOffset(i, j, k) && t == 9 * i + 3 * j + k
    ensures var prev := ApplyShares(n, g, st, mv, A, d, t);
      var q := NodeIndex(n, st.baseX + i, st.baseY + j, st.baseZ + k);
      ApplyShares(n, g, st, mv, A, d, t + 1) == prev[q := AddNode(prev[q], ScatterShare(st, mv, A, d, i, j, k))]
  {
    OffsetNumbering(i, j, k);
    assert StencilIndex(n, st, t) == NodeIndex(n, st.baseX + i, st.baseY + j, st.baseZ + k);
    assert ScatterShare(st, mv, A, d, OffI(t), OffJ(t), OffK(t)) == ScatterShare(st, mv, A, d, i, j, k);
    var prev := ApplyShares(n, g, st, mv, A, d, t);
    var q := StencilIndex(n, st, t);
    assert ApplyShares(n, g, st, mv, A, d, t + 1) == prev[q := AddNode(prev[q], ScatterShare(st, mv, A, d, OffI(t), OffJ(t), OffK(t)))];
  }

  /** The additions raise the grid's total mass and momentum by exactly the deposit so far. */
  lemma {:induction false} ApplySharesTotals(n: nat, g: seq<GridNode>, st: Stencil, mv: Vec3, A: Mat3, d: real, t: nat)
    requires |g| == n * n * n && StencilInGrid(n, st) && t <= 27
    ensures TotalMass(ApplyShares(n, g, st, mv, A, d, t)) == TotalMass(g) + DepositPrefix(st, mv, A, d, t).m
    ensures TotalMomentum(ApplyShares(n, g, st, mv, A, d, t)) == Add(TotalMomentum(g), DepositPrefix(st, mv, A, d, t).v)
  {
    if t > 0 {
      ApplySharesTotals(n, g, st, mv, A, d, t - 1);
      OffsetRange(t - 1);
      var prev := ApplyShares(n, g, st, mv, A, d, t - 1);
      TotalsAddAt(prev, StencilIndex(n, st, t - 1), ScatterShare(st, mv, A, d, OffI(t - 1), OffJ(t - 1), OffK(t - 1)));
    }
  }

  /** Distinct steps of the stencil loop address distinct nodes. */
  lemma StencilIndexDistinct(n: nat, st: Stencil, s: int, s2: int)
    requires StencilInGrid(n, st) && 0 <= s < 27 && 0 <= s2 < 27 && s != s2
    ensures StencilIndex(n, st, s) != StencilIndex(n, st, s2)
  {
    OffsetRange(s);
    OffsetRange(s2);
    var a, b, c := st.baseX + OffI(s), st.baseY + OffJ(s), st.baseZ + OffK(s);
    var a2, b2, c2 := st.baseX + OffI(s2), st.baseY + OffJ(s2), st.baseZ + OffK(s2);
    NodeIndexDistinct(n, a, b, c, a2, b2, c2);
  }

  /** Offset (i, j, k) is step 9 i + 3 j + k of the stencil loop. */
  lemma StencilIndexAt(n: nat, st: Stencil, i: int, j: int, k: int)
    requires StencilInGrid(n, st) && IsOffset(i, j, k)
    ensures 0 <= 9 * i + 3 * j + k < 27
    ensures StencilIndex(n, st, 9 * i + 3 * j + k) == NodeIndex(n, st.baseX + i, st.baseY + j, st.baseZ + k)
  {
    OffsetDecode(9 * i + 3 * j + k, i, j, k);
  }

  /** Addition number t touches only the node its offset names. */
  lemma ApplySharesOther(n: nat, g: seq<GridNode>, st: Stencil, mv: Vec3, A: Mat3, d: real, t: nat, q: int)
    requires |g| == n * n * n && StencilInGrid(n, st) && 0 < t <= 27
    requires 0 <= q < n * n * n && q != StencilIndex(n, st, t - 1)
    ensures ApplyShares(n, g, st, mv, A, d, t)[q] == ApplyShares(n, g, st, mv, A, d, t - 1)[q]
  {
  }

  /**
   * Node (base + (i, j, k)) has received its share once offset 9 i + 3 j + k
   * is among the first t, and nothing before.
   */
  lemma {:induction false} ApplySharesAt(n: nat, g: seq<GridNode>, st: Stencil, mv: Vec3, A: Mat3, d: real, t: nat,
                                         i: int, j: int, k: int)
    requires |g| == n * n * n && StencilInGrid(n, st) && t <= 27 && IsOffset(i, j, k)
    ensures var q := NodeIndex(n, st.baseX + i, st.baseY + j, st.baseZ + k);
      ApplyShares(n, g, st, mv, A, d, t)[q]
      == if 9 * i + 3 * j + k < t then AddNode(g[q], ScatterShare(st, mv, A, d, i, j, k)) else g[q]
  {
    if t > 0 {
      ApplySharesAt(n, g, st, mv, A, d, t - 1, i, j, k);
      var u := 9 * i + 3 * j + k;
      var q := NodeIndex(n, st.baseX + i, st.baseY + j, st.baseZ + k);
      var prev := ApplyShares(n, g, st, mv, A, d, t - 1);
      StencilIndexAt(n, st, i, j, k);
      if u == t - 1 {
        ApplySharesStep(n, g, st, mv, A, d, t - 1, i, j, k);
        assert prev[q] == g[q];
        assert ApplyShares(n, g, st, mv, A, d, t) == prev[q := AddNode(prev[q], ScatterShare(st, mv, A, d, i, j, k))];
      } else {
        StencilIndexDistinct(n, st, u, t - 1);
        ApplySharesOther(n, g, st, mv, A, d, t, q);
      }
    }
  }

  /** Nodes outside the stencil are not touched. */
  lemma {:induction false} ApplySharesOutside(n: nat, g: seq<GridNode>, st: Stencil, mv: Vec3, A: Mat3, d: real, t: nat,
                                              a: int, b: int, c: int)
    requires |g| == n * n * n && StencilInGrid(n, st) && t <= 27
    requires InGrid(n, a, b, c) && !InStencilNode(st, a, b, c)
    ensures ApplyShares(n, g, st, mv, A, d, t)[NodeIndex(n, a, b, c)] == g[NodeIndex(n, a, b, c)]
  {
    if t > 0 {
      ApplySharesOutside(n, g, st, mv, A, d, t - 1, a, b, c);
      OffsetRange(t - 1);
      if NodeIndex(n, a, b, c) == StencilIndex(n, st, t - 1) {
        NodeIndexInjective(n, a, b, c, st.baseX + OffI(t - 1), st.baseY + OffJ(t - 1), st.baseZ + OffK(t - 1));
        assert false;
      }
    }
  }

  /** With non-negative weights the additions keep every node's mass non-negative. */
  lemma {:induction false} ApplySharesMassNonNegative(n: nat, g: seq<GridNode>, st: Stencil, mv: Vec3, A: Mat3, d: real, t: nat)
    requires |g| == n * n * n && StencilInGrid(n, st) && t <= 27 && NonNegativeWeights(st)
    requires NonNegativeMasses(g)
    ensures NonNegativeMasses(ApplyShares(n, g, st, mv, A, d, t))
  {
    if t > 0 {
      ApplySharesMassNonNegative(n, g, st, mv, A, d, t - 1);
      OffsetRange(t - 1);
      var share := ScatterShare(st, mv, A, d, OffI(t - 1), OffJ(t - 1), OffK(t - 1));
      ShareMassNonNegative(st, mv, A, d, OffI(t - 1), OffJ(t - 1), OffK(t - 1));
      NonNegativeMassesAddAt(ApplyShares(n, g, st, mv, A, d, t - 1), StencilIndex(n, st, t - 1), share);
    }
  }

  // ----- One particle, then all particles -----

  /** The grid after the full scatter of particle pt: its 27 shares added to g. */
  ghost function ScatterParticle(n: nat, g: seq<GridNode>, pt: Particle): (r: seq<GridNode>)
    requires |g| == n * n * n && StencilInside(n, pt.x)
    ensures |r| == |g|
  {
    ApplyShares(n, g, StencilOf(n, pt.x), Scale(PARTICLE_MASS, pt.v), Affine(n, pt), Dx(n), 27)
  }

  /** Every particle's stencil lies inside the grid. */
  predicate AllInside(n: nat, ps: seq<Particle>)
  {
    forall p :: 0 <= p < |ps| ==> StencilInside(n, ps[p].x)
  }

  /** The grid after the scatter of all particles of ps, in order, onto g. */
  ghost function ScatterAll(n: nat, g: seq<GridNode>, ps: seq<Particle>): (r: seq<GridNode>)
    requires |g| == n * n * n && AllInside(n, ps)
    ensures |r| == |g|
  {
    if |ps| == 0 then g else ScatterParticle(n, ScatterAll(n, g, ps[..|ps| - 1]), ps[|ps| - 1])
  }

  /** One particle adds exactly its mass and its momentum m v to the grid's totals. */
  lemma ScatterParticleTotals(n: nat, g: seq<GridNode>, pt: Particle)
    requires |g| == n * n * n && StencilInside(n, pt.x)
    ensures TotalMass(ScatterParticle(n, g, pt)) == TotalMass(g) + PARTICLE_MASS
    ensures TotalMomentum(ScatterParticle(n, g, pt)) == Add(TotalMomentum(g), Scale(PARTICLE_MASS, pt.v))
  {
    var st := StencilOf(n, pt.x);
    StencilOfWeights(n, pt.x);
    ApplySharesTotals(n, g, st, Scale(PARTICLE_MASS, pt.v), Affine(n, pt), Dx(n), 27);
    ParticleDepositTotal(st, Scale(PARTICLE_MASS, pt.v), Affine(n, pt), Dx(n));
  }

  /**
   * Conservation of the transfer: the scatter of all particles raises the
   * grid's mass by |ps| times the particle mass and its momentum by the
   * particles' total momentum.
   */
  lemma {:induction false} ScatterAllTotals(n: nat, g: seq<GridNode>, ps: seq<Particle>)
    requires |g| == n * n * n && AllInside(n, ps)
    ensures TotalMass(ScatterAll(n, g, ps)) == TotalMass(g) + |ps| as real * PARTICLE_MASS
    ensures TotalMomentum(ScatterAll(n, g, ps)) == Add(TotalMomentum(g), ParticleMomentum(PARTICLE_MASS, ps))
  {
    if |ps| > 0 {
      var init := ps[..|ps| - 1];
      assert AllInside(n, init);
      ScatterAllTotals(n, g, init);
      ScatterParticleTotals(n, ScatterAll(n, g, init), ps[|ps| - 1]);
    }
  }

  /** On a cleared grid the scatter leaves exactly the particles' mass and momentum. */
  lemma ScatterOnClearedGrid(n: nat, g: seq<GridNode>, ps: seq<Particle>)
    requires |g| == n * n * n && AllInside(n, ps)
    requires forall q :: 0 <= q < |g| ==> g[q] == ZERO_NODE
    ensures TotalMass(ScatterAll(n, g, ps)) == |ps| as real * PARTICLE_MASS
    ensures TotalMomentum(ScatterAll(n, g, ps)) == ParticleMomentum(PARTICLE_MASS, ps)
  {
    TotalsOfClearedGrid(g);
    ScatterAllTotals(n, g, ps);
  }

  /** A node in no particle's stencil keeps its value. */
  lemma {:induction false} ScatterAllOutside(n: nat, g: seq<GridNode>, ps: seq<Particle>, a: int, b: int, c: int)
    requires |g| == n * n * n && AllInside(n, ps) && InGrid(n, a, b, c)
    requires forall p :: 0 <= p < |ps| ==> !InStencilNode(StencilOf(n, ps[p].x), a, b, c)
    ensures ScatterAll(n, g, ps)[NodeIndex(n, a, b, c)] == g[NodeIndex(n, a, b, c)]
  {
    if |ps| > 0 {
      var init := ps[..|ps| - 1];
      var pt := ps[|ps| - 1];
      assert AllInside(n, init);
      ScatterAllOutside(n, g, init, a, b, c);
      ApplySharesOutside(n, ScatterAll(n, g, init), StencilOf(n, pt.x), Scale(PARTICLE_MASS, pt.v), Affine(n, pt), Dx(n), 27,
                         a, b, c);
    }
  }

  /** Starting from non-negative masses, every node's mass stays non-negative. */
  lemma {:induction false} ScatterAllMassNonNegative(n: nat, g: seq<GridNode>, ps: seq<Particle>)
    requires |g| == n * n * n && AllInside(n, ps) && NonNegativeMasses(g)
    ensures NonNegativeMasses(ScatterAll(n, g, ps))
  {
    if |ps| > 0 {
      var init := ps[..|ps| - 1];
      var pt := ps[|ps| - 1];
      assert AllInside(n, init);
      ScatterAllMassNonNegative(n, g, init);
      StencilOfWeights(n, pt.x);
      ApplySharesMassNonNegative(n, ScatterAll(n, g, init), StencilOf(n, pt.x), Scale(PARTICLE_MASS, pt.v), Affine(n, pt),
                                 Dx(n), 27);
    }
  }
}
