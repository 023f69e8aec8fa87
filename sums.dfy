/**
 * Sums over the 27 stencil offsets of quantities that are affine in a
 * node's offset from the particle. The mass, the momentum and the
 * reconstructed velocity field of both transfers are of this form; the
 * main result is that the B-spline weights reproduce such a quantity
 * exactly: its 27 weighted terms add up to its value at the particle.
 */
module Sums {
  import opened Vectors
  import opened Stencils

  /**
   * The scalar term w(i,j,k) * (c + a . (offset - fx)) at offset (i, j, k):
   * the weight w[i].x * w[j].y * w[k].z of the node times an affine
   * function of the node's offset from the particle, with value c at the
   * particle and slope a. The z weight is grouped with the value, the way
   * the sums below factor.
   */
  function AffineTerm(st: Stencil, i: int, j: int, k: int, c: real, a: Vec3): real
    requires IsOffset(i, j, k)
  {
    (st.w[i].x * st.w[j].y)
      * (st.w[k].z * (c + a.x * (i as real - st.fx.x) + a.y * (j as real - st.fx.y) + a.z * (k as real - st.fx.z)))
  }

  /** The term is the node's weight times the affine value. */
  lemma AffineTermWeight(st: Stencil, i: int, j: int, k: int, c: real, a: Vec3)
    requires IsOffset(i, j, k)
    ensures AffineTerm(st, i, j, k, c, a)
         == Weight3(st, i, j, k) * (c + a.x * (i as real - st.fx.x) + a.y * (j as real - st.fx.y) + a.z * (k as real - st.fx.z))
  {
  }

  /** The sum of AffineTerm over the first t offsets, in loop order. */
  ghost function AffinePrefix(st: Stencil, t: nat, c: real, a: Vec3): real
    requires t <= 27
  {
    if t == 0 then 0.0
    else
      OffsetRange(t - 1);
      AffinePrefix(st, t - 1, c, a) + AffineTerm(st, OffI(t - 1), OffJ(t - 1), OffK(t - 1), c, a)
  }

  /** On one axis, weights that sum to one with first moment f reproduce an affine function exactly. */
  lemma AxisAffineSum(w0: real, w1: real, w2: real, f: real, b: real, s: real)
    requires AxisIdentities(w0, w1, w2, f)
    ensures w0 * (b + s * (0.0 - f)) + w1 * (b + s * (1.0 - f)) + w2 * (b + s * (2.0 - f)) == b
  {
    calc {
      w0 * (b + s * (0.0 - f)) + w1 * (b + s * (1.0 - f)) + w2 * (b + s * (2.0 - f));
      b * (w0 + w1 + w2) + s * (w1 + 2.0 * w2 - f * (w0 + w1 + w2));
      b;
    }
  }

  /** Offset (i, j, k) is term number 9 i + 3 j + k of the prefix sum. */
  lemma PrefixStepAt(st: Stencil, i: int, j: int, k: int, from: nat, to: nat, c: real, a: Vec3)
    requires IsOffset(i, j, k)
    requires from == 9 * i + 3 * j + k && to == from + 1
    ensures AffinePrefix(st, to, c, a) == AffinePrefix(st, from, c, a) + AffineTerm(st, i, j, k, c, a)
  {
    OffsetNumbering(i, j, k);
  }

  /** AxisAffineSum with every term scaled by a common factor p on the left. */
  lemma RowIdentity(p: real, w0: real, w1: real, w2: real, f: real, b: real, s: real)
    requires AxisIdentities(w0, w1, w2, f)
    ensures p * (w0 * (b + s * (0.0 - f))) + p * (w1 * (b + s * (1.0 - f))) + p * (w2 * (b + s * (2.0 - f))) == p * b
  {
    AxisAffineSum(w0, w1, w2, f, b, s);
  }

  /** Solver aid: three prefix steps r0, r1, r2 that add up to r advance the prefix by r. */
  lemma Chain3(s0: real, s1: real, s2: real, s3: real, r0: real, r1: real, r2: real, r: real)
    requires s1 == s0 + r0
    requires s2 == s1 + r1
    requires s3 == s2 + r2
    requires r0 + r1 + r2 == r
    ensures s3 == s0 + r
  {
  }

  /**
   * What the three offsets (i, j, 0..2) of a row contribute once the z
   * axis is summed out: w[i].x * w[j].y times the affine value without its
   * z part.
   */
  function RowValue(st: Stencil, i: int, j: int, c: real, a: Vec3): real
    requires IsOffset(i, j, 0)
  {
    st.w[i].x * st.w[j].y * (c + a.x * (i as real - st.fx.x) + a.y * (j as real - st.fx.y))
  }

  /** What the nine offsets (i, 0..2, 0..2) contribute: w[i].x times the x part of the affine value. */
  function PlaneValue(st: Stencil, i: int, c: real, a: Vec3): real
    requires IsOffset(i, 0, 0)
  {
    st.w[i].x * (c + a.x * (i as real - st.fx.x))
  }

  /** The innermost loop sums out the z axis. */
  lemma RowTerms(st: Stencil, i: int, j: int, c: real, a: Vec3)
    requires AxisIdentities(st.w[0].z, st.w[1].z, st.w[2].z, st.fx.z) && IsOffset(i, j, 0)
    ensures AffineTerm(st, i, j, 0, c, a) + AffineTerm(st, i, j, 1, c, a) + AffineTerm(st, i, j, 2, c, a)
         == RowValue(st, i, j, c, a)
  {
    RowIdentity(st.w[i].x * st.w[j].y, st.w[0].z, st.w[1].z, st.w[2].z, st.fx.z,
                c + a.x * (i as real - st.fx.x) + a.y * (j as real - st.fx.y), a.z);
  }

  /** The three offsets (i, j, 0..2) advance the prefix sum by the row's value. */
  lemma {:induction false} RowSum(st: Stencil, i: int, j: int, from: nat, to: nat, c: real, a: Vec3)
    requires WellFormed(st) && IsOffset(i, j, 0)
    requires from == 9 * i + 3 * j && to == from + 3
    ensures AffinePrefix(st, to, c, a) == AffinePrefix(st, from, c, a) + RowValue(st, i, j, c, a)
  {
    PrefixStepAt(st, i, j, 0, from, from + 1, c, a);
    PrefixStepAt(st, i, j, 1, from + 1, from + 2, c, a);
    PrefixStepAt(st, i, j, 2, from + 2, to, c, a);
    RowTerms(st, i, j, c, a);
    Chain3(AffinePrefix(st, from, c, a), AffinePrefix(st, from + 1, c, a),
           AffinePrefix(st, from + 2, c, a), AffinePrefix(st, to, c, a),
           AffineTerm(st, i, j, 0, c, a), AffineTerm(st, i, j, 1, c, a), AffineTerm(st, i, j, 2, c, a),
           RowValue(st, i, j, c, a));
  }

  /** AxisAffineSum with every term scaled by a common factor p. */
  lemma ScaledAxisAffineSum(p: real, w0: real, w1: real, w2: real, f: real, b: real, s: real)
    requires AxisIdentities(w0, w1, w2, f)
    ensures p * w0 * (b + s * (0.0 - f)) + p * w1 * (b + s * (1.0 - f)) + p * w2 * (b + s * (2.0 - f)) == p * b
  {
    AxisAffineSum(w0, w1, w2, f, b, s);
    calc {
      p * w0 * (b + s * (0.0 - f)) + p * w1 * (b + s * (1.0 - f)) + p * w2 * (b + s * (2.0 - f));
      p * (w0 * (b + s * (0.0 - f)) + w1 * (b + s * (1.0 - f)) + w2 * (b + s * (2.0 - f)));
    }
  }

  /** The middle loop sums out the y axis. */
  lemma PlaneTerms(st: Stencil, i: int, c: real, a: Vec3)
    requires AxisIdentities(st.w[0].y, st.w[1].y, st.w[2].y, st.fx.y) && IsOffset(i, 0, 0)
    ensures RowValue(st, i, 0, c, a) + RowValue(st, i, 1, c, a) + RowValue(st, i, 2, c, a) == PlaneValue(st, i, c, a)
  {
    ScaledAxisAffineSum(st.w[i].x, st.w[0].y, st.w[1].y, st.w[2].y, st.fx.y, c + a.x * (i as real - st.fx.x), a.y);
  }

  /** The nine offsets (i, 0..2, 0..2) advance the prefix sum by the plane's value. */
  lemma {:induction false} PlaneSum(st: Stencil, i: int, from: nat, to: nat, c: real, a: Vec3)
    requires WellFormed(st) && IsOffset(i, 0, 0)
    requires from == 9 * i && to == from + 9
    ensures AffinePrefix(st, to, c, a) == AffinePrefix(st, from, c, a) + PlaneValue(st, i, c, a)
  {
    RowSum(st, i, 0, from, from + 3, c, a);
    RowSum(st, i, 1, from + 3, from + 6, c, a);
    RowSum(st, i, 2, from + 6, to, c, a);
    PlaneTerms(st, i, c, a);
    Chain3(AffinePrefix(st, from, c, a), AffinePrefix(st, from + 3, c, a),
           AffinePrefix(st, from + 6, c, a), AffinePrefix(st, to, c, a),
           RowValue(st, i, 0, c, a), RowValue(st, i, 1, c, a), RowValue(st, i, 2, c, a), PlaneValue(st, i, c, a));
  }

  /** The outermost loop sums out the x axis, leaving the constant part c. */
  lemma StencilTerms(st: Stencil, c: real, a: Vec3)
    requires AxisIdentities(st.w[0].x, st.w[1].x, st.w[2].x, st.fx.x)
    ensures PlaneValue(st, 0, c, a) + PlaneValue(st, 1, c, a) + PlaneValue(st, 2, c, a) == c
  {
    AxisAffineSum(st.w[0].x, st.w[1].x, st.w[2].x, st.fx.x, c, a.x);
  }

  /**
   * Over the whole stencil the weights sum to one and have zero first
   * moment on every axis, so the 27 terms of an affine quantity add up to
   * its constant part c, for every slope a.
   */
  lemma StencilAffineSum(st: Stencil, c: real, a: Vec3)
    requires WellFormed(st)
    ensures AffinePrefix(st, 27, c, a) == c
  {
    PlaneSum(st, 0, 0, 9, c, a);
    PlaneSum(st, 1, 9, 18, c, a);
    PlaneSum(st, 2, 18, 27, c, a);
    assert AffinePrefix(st, 0, c, a) == 0.0;
    StencilTerms(st, c, a);
    Chain3(AffinePrefix(st, 0, c, a), AffinePrefix(st, 9, c, a), AffinePrefix(st, 18, c, a), AffinePrefix(st, 27, c, a),
           PlaneValue(st, 0, c, a), PlaneValue(st, 1, c, a), PlaneValue(st, 2, c, a), c);
  }
}
