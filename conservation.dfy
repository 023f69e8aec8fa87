/**
 * Momentum through the grid-to-particle transfer. The scatter puts the
 * particle mass m * w_pi on node i for every particle p; the gather gives
 * particle p the velocity sum_i w_pi u_i. With the same weights on both
 * sides, the particles' total momentum after `g2p` is the grid's
 * mass-weighted velocity sum_i m_i u_i, whatever the grid velocities u_i
 * are: the g2p half of the APIC momentum balance.
 */
module Conservation {
  import opened Vectors
  import opened Config
  import opened Stencils
  import opened Grid
  import opened Particles
  import opened Scatter
  import opened Gather

  /** sum_i g_i.m * h_i.v: the masses of g weighting the vectors of h. */
  ghost function MassWeighted(g: seq<GridNode>, h: seq<GridNode>): Vec3
    requires |g| == |h|
  {
    if |g| == 0 then ZERO3
    else Add(MassWeighted(g[..|g| - 1], h[..|h| - 1]), Scale(g[|g| - 1].m, h[|h| - 1].v))
  }

  /** The momentum sum_i m_i u_i of a grid holding velocities. */
  ghost function GridMomentum(s: seq<GridNode>): Vec3
  {
    MassWeighted(s, s)
  }

  /** Solver aid: scaling distributes over a sum of factors. */
  lemma ScaleSum(a: real, b: real, u: Vec3)
    ensures Scale(a + b, u) == Add(Scale(a, u), Scale(b, u))
  {
  }

  /** Adding mass d.m to node i of g adds d.m * h_i.v to the weighted sum. */
  lemma {:induction false} MassWeightedAddAt(g: seq<GridNode>, h: seq<GridNode>, i: int, d: GridNode)
    requires |g| == |h| && 0 <= i < |g|
    ensures MassWeighted(g[i := AddNode(g[i], d)], h) == Add(MassWeighted(g, h), Scale(d.m, h[i].v))
  {
    var g2 := g[i := AddNode(g[i], d)];
    var last := |g| - 1;
    if i == last {
      assert g2[..last] == g[..last];
      ScaleSum(g[last].m, d.m, h[last].v);
    } else {
      assert g2[..last] == g[..last][i := AddNode(g[i], d)];
      MassWeightedAddAt(g[..last], h[..last], i, d);
    }
  }

  /** A cleared grid weights nothing. */
  lemma {:induction false} MassWeightedCleared(g: seq<GridNode>, h: seq<GridNode>)
    requires |g| == |h| && forall i :: 0 <= i < |g| ==> g[i] == ZERO_NODE
    ensures MassWeighted(g, h) == ZERO3
  {
    if |g| > 0 {
      MassWeightedCleared(g[..|g| - 1], h[..|h| - 1]);
    }
  }

  /** Only the masses of the first grid enter the weighted sum. */
  lemma {:induction false} MassWeightedSameMasses(g: seq<GridNode>, g2: seq<GridNode>, h: seq<GridNode>)
    requires |g| == |h| && |g2| == |h|
    requires forall i :: 0 <= i < |g| ==> g[i].m == g2[i].m
    ensures MassWeighted(g, h) == MassWeighted(g2, h)
  {
    if |g| > 0 {
      MassWeightedSameMasses(g[..|g| - 1], g2[..|g2| - 1], h[..|h| - 1]);
    }
  }

  /** Solver aid: the vector algebra of one step of ApplySharesWeighted. */
  lemma StepAlgebra(base: Vec3, sum: Vec3, w: real, u: Vec3)
    ensures Add(Add(base, Scale(PARTICLE_MASS, sum)), Scale(w * PARTICLE_MASS, u))
         == Add(base, Scale(PARTICLE_MASS, Add(sum, Scale(w, u))))
  {
  }

  /**
   * The masses one particle deposits in its first t additions weight the
   * vectors of h exactly as the gather of h over the same stencil does,
   * times the particle mass.
   */
  lemma {:induction false} ApplySharesWeighted(n: nat, g: seq<GridNode>, h: seq<GridNode>, st: Stencil, mv: Vec3,
                                               A: Mat3, d: real, t: nat)
    requires |g| == n * n * n && |h| == n * n * n && StencilInGrid(n, st) && t <= 27
    ensures MassWeighted(ApplyShares(n, g, st, mv, A, d, t), h)
         == Add(MassWeighted(g, h), Scale(PARTICLE_MASS, GatherV(n, h, st, t)))
  {
    if t == 0 {
      ScaleZero(PARTICLE_MASS);
      AddZero(MassWeighted(g, h));
    } else {
      ApplySharesWeighted(n, g, h, st, mv, A, d, t - 1);
      OffsetRange(t - 1);
      var prev := ApplyShares(n, g, st, mv, A, d, t - 1);
      var q := StencilIndex(n, st, t - 1);
      var share := ScatterShare(st, mv, A, d, OffI(t - 1), OffJ(t - 1), OffK(t - 1));
      MassWeightedAddAt(prev, h, q, share);
      StepAlgebra(MassWeighted(g, h), GatherV(n, h, st, t - 1), Weight3(st, OffI(t - 1), OffJ(t - 1), OffK(t - 1)), h[q].v);
    }
  }

  /** sum_p m * v_p over the velocities the particles of ps gather from h. */
  ghost function GatheredMomentum(n: nat, h: seq<GridNode>, ps: seq<Particle>): Vec3
    requires |h| == n * n * n && AllInside(n, ps)
  {
    if |ps| == 0 then ZERO3
    else
      assert AllInside(n, ps[..|ps| - 1]);
      Add(GatheredMomentum(n, h, ps[..|ps| - 1]), Scale(PARTICLE_MASS, GatherV(n, h, StencilOf(n, ps[|ps| - 1].x), 27)))
  }

  /** Solver aid: vector addition is associative. */
  lemma AddAssociative(a: Vec3, b: Vec3, c: Vec3)
    ensures Add(Add(a, b), c) == Add(a, Add(b, c))
  {
  }

  /** The masses of the scatter of ps weight h as the particles of ps gather from h. */
  lemma {:induction false} ScatterAllWeighted(n: nat, g: seq<GridNode>, h: seq<GridNode>, ps: seq<Particle>)
    requires |g| == n * n * n && |h| == n * n * n && AllInside(n, ps)
    ensures MassWeighted(ScatterAll(n, g, ps), h) == Add(MassWeighted(g, h), GatheredMomentum(n, h, ps))
  {
    if |ps| == 0 {
      AddZero(MassWeighted(g, h));
    } else {
      var init := ps[..|ps| - 1];
      var pt := ps[|ps| - 1];
      assert AllInside(n, init);
      ScatterAllWeighted(n, g, h, init);
      ApplySharesWeighted(n, ScatterAll(n, g, init), h, StencilOf(n, pt.x), Scale(PARTICLE_MASS, pt.v), Affine(n, pt),
                          Dx(n), 27);
      AddAssociative(MassWeighted(g, h), GatheredMomentum(n, h, init),
                     Scale(PARTICLE_MASS, GatherV(n, h, StencilOf(n, pt.x), 27)));
    }
  }

  /** Particles that gathered from h carry, in total, the gathered momentum. */
  lemma {:induction false} GatheredParticles(n: nat, h: seq<GridNode>, before: seq<Particle>, after: seq<Particle>)
    requires |h| == n * n * n && AllInside(n, before) && |after| == |before|
    requires forall q :: 0 <= q < |before| ==> after[q] == G2PParticle(n, h, before[q])
    ensures ParticleMomentum(PARTICLE_MASS, after) == GatheredMomentum(n, h, before)
  {
    if |before| > 0 {
      assert AllInside(n, before[..|before| - 1]);
      GatheredParticles(n, h, before[..|before| - 1], after[..|after| - 1]);
    }
  }

  /**
   * The g2p half of the momentum balance: on a grid h whose masses are the
   * scatter of the particles `before` onto a cleared grid, the gathered
   * particles `after` carry in total exactly the grid momentum sum_i m_i u_i.
   */
  lemma G2PConservesMomentum(n: nat, cleared: seq<GridNode>, h: seq<GridNode>, before: seq<Particle>,
                             after: seq<Particle>)
    requires |cleared| == n * n * n && |h| == n * n * n && AllInside(n, before) && |after| == |before|
    requires forall q :: 0 <= q < |cleared| ==> cleared[q] == ZERO_NODE
    requires forall q :: 0 <= q < |h| ==> h[q].m == ScatterAll(n, cleared, before)[q].m
    requires forall q :: 0 <= q < |before| ==> after[q] == G2PParticle(n, h, before[q])
    ensures ParticleMomentum(PARTICLE_MASS, after) == GridMomentum(h)
  {
    var scattered := ScatterAll(n, cleared, before);
    MassWeightedSameMasses(h, scattered, h);
    ScatterAllWeighted(n, cleared, h, before);
    MassWeightedCleared(cleared, h);
    GatheredParticles(n, h, before, after);
    AddZero(GatheredMomentum(n, h, before));
    AddCommutes(ZERO3, GatheredMomentum(n, h, before));
  }

  /** Solver aid: vector addition is commutative. */
  lemma AddCommutes(a: Vec3, b: Vec3)
    ensures Add(a, b) == Add(b, a)
  {
  }
}
