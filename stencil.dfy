/**
 * The interpolation stencil of one particle, shared by the particle-to-grid
 * and grid-to-particle kernels: the integer lower corner `base_coord`, the
 * local offset `fx` of the particle from that corner (in cell units) and the
 * quadratic B-spline weights w[0], w[1], w[2], each a vector holding the
 * weight of that node on the x, y and z axes.
 */
module Stencils {
  import opened Vectors

  /** Lower corner on one axis: floor(inv_dx * x - 0.5), where t = inv_dx * x. */
  function BaseCoord(t: real): int
  {
    (t - 0.5).Floor
  }

  /** Local offset on one axis: t - base. It always lies in [0.5, 1.5). */
  function LocalOffset(t: real): (f: real)
    ensures 0.5 <= f < 1.5
    ensures t - f == BaseCoord(t) as real
  {
    t - BaseCoord(t) as real
  }

  function Sqr(e: real): real
  {
    e * e
  }

  /** The three quadratic B-spline weights of one axis at local offset f. */
  function Weight0(f: real): real
  {
    0.5 * Sqr(1.5 - f)
  }

  function Weight1(f: real): real
  {
    0.75 - Sqr(f - 1.0)
  }

  function Weight2(f: real): real
  {
    0.5 * Sqr(f - 0.5)
  }

  /** The weights of one axis sum to one and have first moment f, for every f. */
  lemma WeightPolynomials(f: real)
    ensures Weight0(f) + Weight1(f) + Weight2(f) == 1.0
    ensures Weight1(f) + 2.0 * Weight2(f) == f
  {
  }

  lemma SquareNonNegative(e: real)
    ensures Sqr(e) >= 0.0
  {
    if e < 0.0 {
      var m := -e;
      assert e * e == m * m;
    }
  }

  lemma SquareAtMostQuarter(d: real)
    requires -0.5 <= d <= 0.5
    ensures Sqr(d) <= 0.25
  {
    if d >= 0.0 {
      assert d * d <= 0.5 * d;
    } else {
      assert d * d <= -0.5 * d;
    }
  }

  /**
   * On the range [0.5, 1.5] the local offset takes, all three weights are
   * non-negative (the middle one is at least 0.5).
   */
  lemma WeightsNonNegative(f: real)
    requires 0.5 <= f <= 1.5
    ensures Weight0(f) >= 0.0 && Weight1(f) >= 0.5 && Weight2(f) >= 0.0
  {
    SquareNonNegative(1.5 - f);
    SquareNonNegative(f - 0.5);
    SquareAtMostQuarter(f - 1.0);
  }

  /** Exactly three weight vectors, w[0], w[1], w[2]. */
  type Weights = w: seq<Vec3> | |w| == 3 witness [ZERO3, ZERO3, ZERO3]

  /** The weight vectors at local offset fx, computed componentwise as the kernels do. */
  function SplineWeights(fx: Vec3): Weights
  {
    [Vec3(Weight0(fx.x), Weight0(fx.y), Weight0(fx.z)),
     Vec3(Weight1(fx.x), Weight1(fx.y), Weight1(fx.z)),
     Vec3(Weight2(fx.x), Weight2(fx.y), Weight2(fx.z))]
  }

  /**
   * A particle's stencil: lower corner (baseX, baseY, baseZ), local offset
   * fx and the weight vectors w.
   */
  datatype Stencil = Stencil(baseX: int, baseY: int, baseZ: int, fx: Vec3, w: Weights)

  /** Partition of unity and first moment f for the weights w0, w1, w2 of one axis. */
  predicate AxisIdentities(w0: real, w1: real, w2: real, f: real)
  {
    w0 + w1 + w2 == 1.0 && w1 + 2.0 * w2 == f
  }

  predicate WellFormed(st: Stencil)
  {
    && AxisIdentities(st.w[0].x, st.w[1].x, st.w[2].x, st.fx.x)
    && AxisIdentities(st.w[0].y, st.w[1].y, st.w[2].y, st.fx.y)
    && AxisIdentities(st.w[0].z, st.w[1].z, st.w[2].z, st.fx.z)
  }

  /** Every one of the nine per-axis weights is non-negative. */
  predicate NonNegativeWeights(st: Stencil)
  {
    && st.w[0].x >= 0.0 && st.w[1].x >= 0.0 && st.w[2].x >= 0.0
    && st.w[0].y >= 0.0 && st.w[1].y >= 0.0 && st.w[2].y >= 0.0
    && st.w[0].z >= 0.0 && st.w[1].z >= 0.0 && st.w[2].z >= 0.0
  }

  /** The stencil at position t, given in cell units (t = inv_dx * x). */
  function StencilAt(t: Vec3): Stencil
  {
    var f := Vec3(LocalOffset(t.x), LocalOffset(t.y), LocalOffset(t.z));
    Stencil(BaseCoord(t.x), BaseCoord(t.y), BaseCoord(t.z), f, SplineWeights(f))
  }

  /** The stencil of a particle at position x on a grid of resolution n (inv_dx = n). */
  function StencilOf(n: nat, x: Vec3): Stencil
  {
    StencilAt(CellPosition(n, x))
  }

  /** Position x in cell units of a grid of resolution n: inv_dx * x. */
  function CellPosition(n: nat, x: Vec3): Vec3
  {
    Vec3(n as real * x.x, n as real * x.y, n as real * x.z)
  }

  /** The weights of the stencil of position x are non-negative, sum to one and have first moment fx. */
  lemma StencilOfWeights(n: nat, x: Vec3)
    ensures WellFormed(StencilOf(n, x)) && NonNegativeWeights(StencilOf(n, x))
  {
    StencilAtWeights(CellPosition(n, x));
  }

  /** The weight facts of the stencil at position t in cell units. */
  lemma StencilAtWeights(t: Vec3)
    ensures WellFormed(StencilAt(t)) && NonNegativeWeights(StencilAt(t))
  {
    SplineStencil(BaseCoord(t.x), BaseCoord(t.y), BaseCoord(t.z),
                  Vec3(LocalOffset(t.x), LocalOffset(t.y), LocalOffset(t.z)));
  }

  /** A stencil whose weights are the spline weights at offsets in [0.5, 1.5] has the weight facts. */
  lemma SplineStencil(x0: int, y0: int, z0: int, f: Vec3)
    requires 0.5 <= f.x <= 1.5 && 0.5 <= f.y <= 1.5 && 0.5 <= f.z <= 1.5
    ensures WellFormed(Stencil(x0, y0, z0, f, SplineWeights(f)))
    ensures NonNegativeWeights(Stencil(x0, y0, z0, f, SplineWeights(f)))
  {
    SplineAxis(f.x);
    SplineAxis(f.y);
    SplineAxis(f.z);
  }

  /** The weight facts of one axis at an offset in [0.5, 1.5]. */
  lemma SplineAxis(f: real)
    requires 0.5 <= f <= 1.5
    ensures AxisIdentities(Weight0(f), Weight1(f), Weight2(f), f)
    ensures Weight0(f) >= 0.0 && Weight1(f) >= 0.0 && Weight2(f) >= 0.0
  {
    WeightPolynomials(f);
    WeightsNonNegative(f);
  }

  /** The stencil of position x: offsets in [0.5, 1.5) and base + fx == inv_dx * x per axis. */
  lemma StencilOfPosition(n: nat, x: Vec3)
    ensures var st := StencilOf(n, x);
      && 0.5 <= st.fx.x < 1.5 && 0.5 <= st.fx.y < 1.5 && 0.5 <= st.fx.z < 1.5
      && st.baseX as real + st.fx.x == n as real * x.x
      && st.baseY as real + st.fx.y == n as real * x.y
      && st.baseZ as real + st.fx.z == n as real * x.z
  {
    StencilAtPosition(CellPosition(n, x));
  }

  /** The stencil at position t in cell units: offsets in [0.5, 1.5) and base + fx == t per axis. */
  lemma StencilAtPosition(t: Vec3)
    ensures var st := StencilAt(t);
      && 0.5 <= st.fx.x < 1.5 && 0.5 <= st.fx.y < 1.5 && 0.5 <= st.fx.z < 1.5
      && st.baseX as real + st.fx.x == t.x && st.baseY as real + st.fx.y == t.y && st.baseZ as real + st.fx.z == t.z
  {
  }

  /** (i, j, k) is one of the 27 offsets {0, 1, 2}^3. */
  predicate IsOffset(i: int, j: int, k: int)
  {
    0 <= i < 3 && 0 <= j < 3 && 0 <= k < 3
  }

  /** Weight of the node at offset (i, j, k): w[i].x * w[j].y * w[k].z. */
  function Weight3(st: Stencil, i: int, j: int, k: int): real
    requires IsOffset(i, j, k)
  {
    st.w[i].x * st.w[j].y * st.w[k].z
  }

  /** A product of non-negative per-axis weights is non-negative. */
  lemma Weight3NonNegative(st: Stencil, i: int, j: int, k: int)
    requires NonNegativeWeights(st) && IsOffset(i, j, k)
    ensures Weight3(st, i, j, k) >= 0.0
  {
    var a, b, c := st.w[i].x, st.w[j].y, st.w[k].z;
    assert a >= 0.0 && b >= 0.0 && c >= 0.0;
    assert a * b >= 0.0;
  }

  /**
   * The 27 offsets enumerated in the kernels' loop order (i outermost, k
   * innermost): offset number t is (t / 9, (t / 3) % 3, t % 3).
   */
  function OffI(t: int): int
  {
    if t < 9 then 0 else if t < 18 then 1 else 2
  }

  function OffJ(t: int): int
  {
    var r := t - 9 * OffI(t);
    if r < 3 then 0 else if r < 6 then 1 else 2
  }

  function OffK(t: int): int
  {
    t - 9 * OffI(t) - 3 * OffJ(t)
  }

  /** The enumeration is a bijection between {0,1,2}^3 and [0, 27). */
  lemma OffsetNumbering(i: int, j: int, k: int)
    requires IsOffset(i, j, k)
    ensures 0 <= 9 * i + 3 * j + k < 27
    ensures OffI(9 * i + 3 * j + k) == i && OffJ(9 * i + 3 * j + k) == j && OffK(9 * i + 3 * j + k) == k
  {
  }

  /** OffsetNumbering at a given offset number t. */
  lemma OffsetDecode(t: int, i: int, j: int, k: int)
    requires IsOffset(i, j, k) && t == 9 * i + 3 * j + k
    ensures 0 <= t < 27 && OffI(t) == i && OffJ(t) == j && OffK(t) == k
  {
    OffsetNumbering(i, j, k);
  }

  /** Every offset number decodes to an offset. */
  lemma OffsetRange(t: int)
    requires 0 <= t < 27
    ensures IsOffset(OffI(t), OffJ(t), OffK(t))
    ensures 9 * OffI(t) + 3 * OffJ(t) + OffK(t) == t
  {
  }

  /** The stencil lies inside the grid [0, n)^3, on each axis from base to base + 2. */
  predicate StencilInGrid(n: nat, st: Stencil)
  {
    0 <= st.baseX && st.baseX + 2 < n && 0 <= st.baseY && st.baseY + 2 < n && 0 <= st.baseZ && st.baseZ + 2 < n
  }

  /** The kernels' unchecked demand on a particle position: its stencil is inside the grid. */
  predicate StencilInside(n: nat, x: Vec3)
  {
    StencilInGrid(n, StencilOf(n, x))
  }
}
