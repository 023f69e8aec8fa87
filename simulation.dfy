/**
 * The simulation object: the grid and particle fields and the four kernels
 * of one substep (`clear_buffer`, `p2g`, `grid_op`, `g2p`), each proved
 * against the specification modules, plus `reset`.
 */
module Mpm {
  import opened Vectors
  import opened Config
  import opened Stencils
  import opened Grid
  import opened Particles
  import opened Scatter
  import opened Gather
  import opened Conservation

  class Simulation {
    /** Grid resolution: the grid has n x n x n nodes and inv_dx = n. */
    const n: nat
    /** `grid_v` and `grid_m`, node (a, b, c) at flat index (a * n + b) * n + c. */
    const grid: array<GridNode>
    /** `particle_x`, `particle_v`, `particle_C` and `particle_J`, one entry per particle. */
    const particles: array<Particle>

    /** The layout assertions hold and the grid has n^3 nodes. */
    predicate Valid()
    {
      grid.Length == n * n * n && ValidConfiguration(n, particles.Length)
    }

    /** Every particle's stencil lies inside the grid, the kernels' unchecked demand. */
    predicate ParticlesInside()
      reads particles
    {
      AllInside(n, particles[..])
    }

    /** Fields are allocated zeroed, as the runtime's global memory is. */
    constructor (resolution: nat, particleCount: nat)
      requires ValidConfiguration(resolution, particleCount)
      ensures Valid() && n == resolution && particles.Length == particleCount
      ensures fresh(grid) && fresh(particles)
      ensures grid[..] == ClearedGrid(grid.Length)
      ensures forall p :: 0 <= p < particles.Length ==> particles[p] == Particle(ZERO3, ZERO3, ZERO_MAT, 0.0)
    {
      n := resolution;
      grid := new GridNode[resolution * resolution * resolution](_ => ZERO_NODE);
      particles := new Particle[particleCount](_ => Particle(ZERO3, ZERO3, ZERO_MAT, 0.0));
    }

    /** `clear_buffer`: every node's momentum and mass is set to zero. */
    method ClearBuffer()
      requires Valid()
      modifies grid
      ensures grid[..] == ClearedGrid(grid.Length)
    {
      var q := 0;
      while q < grid.Length
        invariant 0 <= q <= grid.Length
        invariant forall r :: 0 <= r < q ==> grid[r] == ZERO_NODE
      {
        grid[q] := ZERO_NODE;
        q := q + 1;
      }
    }

    /**
     * The body of `p2g` for one particle: its 27 atomic additions of
     * weight * (m v + affine * dpos) and weight * m.
     */
    method ScatterOne(pt: Particle)
      requires Valid() && StencilInside(n, pt.x)
      modifies grid
      ensures grid[..] == ScatterParticle(n, old(grid[..]), pt)
    {
      var st := StencilOf(n, pt.x);
      var affine := Affine(n, pt);
      var mv := Scale(PARTICLE_MASS, pt.v);
      var dx := Dx(n);
      ghost var g0 := grid[..];
      ghost var t := 0;
      var i := 0;
      while i < 3
        invariant 0 <= i <= 3 && t == 9 * i
        invariant grid[..] == ApplyShares(n, g0, st, mv, affine, dx, t)
      {
        var j := 0;
        while j < 3
          invariant 0 <= j <= 3 && t == 9 * i + 3 * j
          invariant grid[..] == ApplyShares(n, g0, st, mv, affine, dx, t)
        {
          var k := 0;
          while k < 3
            invariant 0 <= k <= 3 && t == 9 * i + 3 * j + k
            invariant grid[..] == ApplyShares(n, g0, st, mv, affine, dx, t)
          {
            var dpos := Vec3(dx * (i as real - st.fx.x), dx * (j as real - st.fx.y), dx * (k as real - st.fx.z));
            var weight := st.w[i].x * st.w[j].y * st.w[k].z;
            var node := NodeIndex(n, st.baseX + i, st.baseY + j, st.baseZ + k);
            var share := GridNode(Scale(weight, Add(mv, MatVec(affine, dpos))), weight * PARTICLE_MASS);
            ShareFormula(st, mv, affine, dx, i, j, k, dpos, weight);
            ApplySharesStep(n, g0, st, mv, affine, dx, t, i, j, k);
            grid[node] := AddNode(grid[node], share);
            k := k + 1;
            t := t + 1;
          }
          j := j + 1;
        }
        i := i + 1;
      }
    }

    /** `p2g`: the particles are scattered one after another onto the grid. */
    method P2G()
      requires Valid() && ParticlesInside()
      modifies grid
      ensures grid[..] == ScatterAll(n, old(grid[..]), particles[..])
    {
      var p := 0;
      while p < particles.Length
        invariant 0 <= p <= particles.Length
        invariant AllInside(n, particles[..p])
        invariant grid[..] == ScatterAll(n, old(grid[..]), particles[..p])
      {
        assert particles[..p + 1][..p] == particles[..p];
        ScatterOne(particles[p]);
        p := p + 1;
      }
      assert particles[..p] == particles[..];
    }
  
    /**
     * The body of `grid_op` for node (a, b, c): momentum to velocity for a
     * node with mass, gravity, then the boundary rule on each axis.
     */
    method SolveNode(a: int, b: int, c: int, node: GridNode) returns (r: GridNode)
      ensures r == SolvedNode(n, a, b, c, node)
    {
      var v0, v1, v2 := node.v.x, node.v.y, node.v.z;
      var m := node.m;
      if m > 0.0 {
        var invM := 1.0 / m;
        v0 := v0 * invM;
        v1 := v1 * invM;
        v2 := v2 * invM;
        v1 := v1 + DT * GRAVITY;
      }
      assert Vec3(v0, v1, v2) == GridVelocity(node);
      v0 := if n - BOUNDARY < a then Min(v0, 0.0) else v0;
      v1 := if n - BOUNDARY < b then Min(v1, 0.0) else v1;
      v2 := if n - BOUNDARY < c then Min(v2, 0.0) else v2;
      v0 := if a < BOUNDARY then Max(v0, 0.0) else v0;
      v1 := if b < BOUNDARY then Max(v1, 0.0) else v1;
      v2 := if c < BOUNDARY then Max(v2, 0.0) else v2;
      r := GridNode(Vec3(v0, v1, v2), m);
    }

    /** `grid_op`: every node is replaced by its solved value; masses are kept. */
    method GridOp()
      requires Valid()
      modifies grid
      ensures forall q :: 0 <= q < grid.Length ==> grid[q] == SolvedNode(n, NodeA(n, q), NodeB(n, q), NodeC(n, q), old(grid[q]))
      ensures forall a, b, c :: InGrid(n, a, b, c) ==>
        grid[NodeIndex(n, a, b, c)] == SolvedNode(n, a, b, c, old(grid[NodeIndex(n, a, b, c)]))
    {
      ValidResolutionAtLeastEight(n, particles.Length);
      var q := 0;
      while q < grid.Length
        invariant 0 <= q <= grid.Length
        invariant forall r :: 0 <= r < q ==> grid[r] == SolvedNode(n, NodeA(n, r), NodeB(n, r), NodeC(n, r), old(grid[r]))
        invariant forall r :: q <= r < grid.Length ==> grid[r] == old(grid[r])
      {
        var a, b, c := q / n / n, q / n % n, q % n;
        var solved := SolveNode(a, b, c, grid[q]);
        grid[q] := solved;
        q := q + 1;
      }
      forall a, b, c | InGrid(n, a, b, c)
        ensures grid[NodeIndex(n, a, b, c)] == SolvedNode(n, a, b, c, old(grid[NodeIndex(n, a, b, c)]))
      {
        NodeIndexDecode(n, a, b, c);
      }
    }

    /**
     * The loops of `g2p` for a particle with stencil st: the velocity and
     * the APIC matrix gathered from the 27 stencil nodes.
     */
    method GatherSums(st: Stencil) returns (v: Vec3, C: Mat3)
      requires Valid() && StencilInGrid(n, st)
      ensures v == GatherV(n, grid[..], st, 27) && C == GatherC(n, grid[..], st, 27)
    {
      ghost var g := grid[..];
      ghost var t := 0;
      v := ZERO3;
      C := ZERO_MAT;
      var i := 0;
      while i < 3
        invariant 0 <= i <= 3 && t == 9 * i && Gathered(n, g, st, t, v, C)
      {
        var j := 0;
        while j < 3
          invariant 0 <= j <= 3 && t == 9 * i + 3 * j && Gathered(n, g, st, t, v, C)
        {
          var k := 0;
          while k < 3
            invariant 0 <= k <= 3 && t == 9 * i + 3 * j + k && Gathered(n, g, st, t, v, C)
          {
            var dpos := Vec3(i as real - st.fx.x, j as real - st.fx.y, k as real - st.fx.z);
            var weight := Weight3(st, i, j, k);
            var wv := Scale(weight, grid[NodeIndex(n, st.baseX + i, st.baseY + j, st.baseZ + k)].v);
            GatherStep(n, g, st, t, v, C, i, j, k, dpos, weight, wv);
            v := Add(v, wv);
            C := MatAdd(C, MatScale(4.0 * InvDx(n), Outer(wv, dpos)));
            k := k + 1;
            t := t + 1;
          }
          j := j + 1;
        }
        i := i + 1;
      }
    }

    /**
     * The body of `g2p` for one particle: gather v and C, update J by the
     * trace of C, and advect x by dt * v.
     */
    method GatherParticle(pt: Particle) returns (r: Particle)
      requires Valid() && StencilInside(n, pt.x)
      ensures r == G2PParticle(n, grid[..], pt)
    {
      var st := StencilOf(n, pt.x);
      var v, C := GatherSums(st);
      var J := VolumeUpdate(pt.J, C);
      var x := Add(pt.x, Scale(DT, v));
      G2PParticleOfSums(n, grid[..], pt, v, C);
      r := Particle(x, v, C, J);
    }

    /** `g2p`: every particle gathers from the grid, which is left unchanged. */
    method G2P()
      requires Valid() && ParticlesInside()
      modifies particles
      ensures forall p :: 0 <= p < particles.Length ==> particles[p] == G2PParticle(n, grid[..], old(particles[p]))
    {
      ghost var g, before := grid[..], particles[..];
      var p := 0;
      while p < particles.Length
        invariant 0 <= p <= particles.Length && grid[..] == g
        invariant GatheredUpTo(n, g, before, particles[..], p)
      {
        var pt := particles[p];
        assert pt == before[p];
        var updated := GatherParticle(pt);
        GatheredStep(n, g, before, particles[..], p, updated);
        particles[p] := updated;
        p := p + 1;
      }
    }
  
    /**
     * One substep: `clear_buffer`, `p2g`, `grid_op` and `g2p` in this
     * order. The grid ends up holding the solved scatter of the particles
     * onto a cleared grid, and with it exactly the particles' total mass;
     * every particle is gathered from that grid, so the particles' total
     * momentum equals the grid's mass-weighted velocity sum_i m_i u_i.
     */
    method Substep()
      requires Valid() && ParticlesInside()
      modifies grid, particles
      ensures forall a, b, c :: InGrid(n, a, b, c) ==>
        grid[NodeIndex(n, a, b, c)]
        == SolvedNode(n, a, b, c, ScatterAll(n, ClearedGrid(grid.Length), old(particles[..]))[NodeIndex(n, a, b, c)])
      ensures TotalMass(grid[..]) == particles.Length as real * PARTICLE_MASS
      ensures forall p :: 0 <= p < particles.Length ==> particles[p] == G2PParticle(n, grid[..], old(particles[p]))
      ensures ParticleMomentum(PARTICLE_MASS, particles[..]) == GridMomentum(grid[..])
    {
      ClearBuffer();
      P2G();
      ghost var scattered := grid[..];
      ScatterOnClearedGrid(n, ClearedGrid(grid.Length), particles[..]);
      GridOp();
      TotalMassOfSameMasses(grid[..], scattered);
      ghost var before := particles[..];
      G2P();
      G2PConservesMomentum(n, ClearedGrid(grid.Length), grid[..], before, particles[..]);
    }

    /**
     * `reset`: each particle takes three samples of the random generator,
     * in order, for its position; its velocity becomes (0, -0.3, 0) and J
     * becomes 1. On a grid of at least 16 cells every particle's stencil
     * then lies inside the grid.
     */
    method Reset(rand: seq<real>)
      requires Valid() && |rand| == 3 * particles.Length
      requires forall r :: 0 <= r < |rand| ==> IsUnitSample(rand[r])
      modifies particles
      ensures forall p :: 0 <= p < particles.Length ==>
        particles[p] == ResetParticle(old(particles[p]), rand[3 * p], rand[3 * p + 1], rand[3 * p + 2])
      ensures n >= 16 ==> ParticlesInside()
    {
      var p := 0;
      while p < particles.Length
        invariant 0 <= p <= particles.Length
        invariant forall q :: 0 <= q < p ==>
          particles[q] == ResetParticle(old(particles[q]), rand[3 * q], rand[3 * q + 1], rand[3 * q + 2])
        invariant forall q :: p <= q < particles.Length ==> particles[q] == old(particles[q])
      {
        var pt := particles[p];
        var x := Vec3(0.3 + rand[3 * p] * 0.4, 0.15 + rand[3 * p + 1] * 0.75, 0.3 + rand[3 * p + 2] * 0.4);
        particles[p] := Particle(x, Vec3(0.0, -0.3, 0.0), pt.C, 1.0);
        p := p + 1;
      }
      if n >= 16 {
        forall q | 0 <= q < particles.Length
          ensures StencilInside(n, particles[..][q].x)
        {
          ResetStencilInside(n, old(particles[q]), rand[3 * q], rand[3 * q + 1], rand[3 * q + 2]);
        }
      }
    }
  }

  /** A product with a non-negative factor is non-negative. */
  lemma ProductNonNegative(s: real, e: real)
    requires s >= 0.0 && e >= 0.0
    ensures s * e >= 0.0
  {
  }

  /** On one axis, a coordinate in [0.15, 0.9) keeps the stencil inside a grid of at least 16 cells. */
  lemma AxisInside(n: nat, x: real, base: int, f: real)
    requires n >= 16 && 0.15 <= x <= 0.9
    requires base as real + f == n as real * x && 0.5 <= f < 1.5
    ensures 0 <= base && base + 2 < n
  {
    var s := n as real;
    ProductNonNegative(s, x - 0.15);
    ProductNonNegative(s, 0.9 - x);
    assert s * x == s * (x - 0.15) + 0.15 * s;
    assert s * x == 0.9 * s - s * (0.9 - x);
    assert s * x >= 2.4 && s * x <= 0.9 * s;
    assert base as real > 0.0 && base as real + 2.0 < s;
  }

  /** A freshly reset particle's stencil lies inside any grid of at least 16 cells. */
  lemma ResetStencilInside(n: nat, pt: Particle, r0: real, r1: real, r2: real)
    requires n >= 16 && IsUnitSample(r0) && IsUnitSample(r1) && IsUnitSample(r2)
    ensures StencilInside(n, ResetParticle(pt, r0, r1, r2).x)
  {
    var x := ResetParticle(pt, r0, r1, r2).x;
    var st := StencilOf(n, x);
    AxisInside(n, x.x, st.baseX, st.fx.x);
    AxisInside(n, x.y, st.baseY, st.fx.y);
    AxisInside(n, x.z, st.baseZ, st.fx.z);
  }
}
