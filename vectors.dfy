/**
 * Three-component vectors and 3x3 matrices over exact reals, standing in for
 * the single-precision `Vector(dim)` and `Matrix(dim, dim)` values of the
 * kernels (dim = 3). Only the operations the kernels use are defined.
 */
module Vectors {

  datatype Vec3 = Vec3(x: real, y: real, z: real)

  /** A matrix given by its three rows. */
  datatype Mat3 = Mat3(r0: Vec3, r1: Vec3, r2: Vec3)

  const ZERO3: Vec3 := Vec3(0.0, 0.0, 0.0)
  const ZERO_MAT: Mat3 := Mat3(ZERO3, ZERO3, ZERO3)

  function Add(a: Vec3, b: Vec3): Vec3
  {
    Vec3(a.x + b.x, a.y + b.y, a.z + b.z)
  }

  function Scale(s: real, a: Vec3): Vec3
  {
    Vec3(s * a.x, s * a.y, s * a.z)
  }

  function Dot(a: Vec3, b: Vec3): real
  {
    a.x * b.x + a.y * b.y + a.z * b.z
  }

  function MatAdd(A: Mat3, B: Mat3): Mat3
  {
    Mat3(Add(A.r0, B.r0), Add(A.r1, B.r1), Add(A.r2, B.r2))
  }

  function MatScale(s: real, A: Mat3): Mat3
  {
    Mat3(Scale(s, A.r0), Scale(s, A.r1), Scale(s, A.r2))
  }

  /** Matrix times column vector. */
  function MatVec(A: Mat3, d: Vec3): Vec3
  {
    Vec3(Dot(A.r0, d), Dot(A.r1, d), Dot(A.r2, d))
  }

  /** The outer product a b^T: entry (r, c) is a_r * b_c. */
  function Outer(a: Vec3, b: Vec3): Mat3
  {
    Mat3(Scale(a.x, b), Scale(a.y, b), Scale(a.z, b))
  }

  function Trace(A: Mat3): real
  {
    A.r0.x + A.r1.y + A.r2.z
  }

  /** A with s added to each of its diagonal entries. */
  function AddDiagonal(A: Mat3, s: real): Mat3
  {
    Mat3(Vec3(A.r0.x + s, A.r0.y, A.r0.z),
         Vec3(A.r1.x, A.r1.y + s, A.r1.z),
         Vec3(A.r2.x, A.r2.y, A.r2.z + s))
  }

  lemma ScaleZero(s: real)
    ensures Scale(s, ZERO3) == ZERO3
  {
  }

  lemma AddZero(a: Vec3)
    ensures Add(a, ZERO3) == a
  {
  }
}
