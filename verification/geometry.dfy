/**
 Real-valued 3-vectors and triangles. Coordinates are exact reals: the
 program's floating-point arithmetic is not modelled.
 */
module Geometry {

  datatype Vec3 = Vec3(x: real, y: real, z: real)

  datatype Vec2 = Vec2(x: real, y: real)

  /** A free-standing triangle: three points, owned by no mesh. */
  datatype Tri = Tri(p: Vec3, q: Vec3, r: Vec3)

  /** A triangle after orthographic projection. */
  datatype Tri2 = Tri2(p: Vec2, q: Vec2, r: Vec2)

  function Add(u: Vec3, v: Vec3): Vec3
  {
    Vec3(u.x + v.x, u.y + v.y, u.z + v.z)
  }

  function Sub(u: Vec3, v: Vec3): Vec3
  {
    Vec3(u.x - v.x, u.y - v.y, u.z - v.z)
  }

  /** Component-wise product with a scalar, `v * k`. */
  function Scale(v: Vec3, k: real): Vec3
  {
    Vec3(v.x * k, v.y * k, v.z * k)
  }

  function Dot(u: Vec3, v: Vec3): real
  {
    u.x * v.x + u.y * v.y + u.z * v.z
  }

  function SqNorm(v: Vec3): real
  {
    Dot(v, v)
  }

  function SqDist(u: Vec3, v: Vec3): real
  {
    SqNorm(Sub(u, v))
  }

  /** The mean of three points, `np.mean(tri, axis=0)`. */
  function Mean3(u: Vec3, v: Vec3, w: Vec3): Vec3
  {
    Vec3((u.x + v.x + w.x) / 3.0, (u.y + v.y + w.y) / 3.0, (u.z + v.z + w.z) / 3.0)
  }

  function Centroid(t: Tri): Vec3
  {
    Mean3(t.p, t.q, t.r)
  }

  /** Every point of a triangle multiplied by `k`. */
  function ScaleTri(t: Tri, k: real): Tri
  {
    Tri(Scale(t.p, k), Scale(t.q, k), Scale(t.r, k))
  }

  lemma SumOfSquaresNonNegative(a: real, b: real, c: real)
    ensures a * a + b * b + c * c >= 0.0
  {
  }

  lemma SumOfSquaresPositive(a: real, b: real, c: real)
    requires a != 0.0 || b != 0.0 || c != 0.0
    ensures a * a + b * b + c * c > 0.0
  {
  }

  /** A squared norm is never negative, and is zero only for the zero vector. */
  lemma SqNormPositive(v: Vec3)
    ensures SqNorm(v) >= 0.0
    ensures SqNorm(v) == 0.0 <==> v == Vec3(0.0, 0.0, 0.0)
  {
    SumOfSquaresNonNegative(v.x, v.y, v.z);
    if v != Vec3(0.0, 0.0, 0.0) {
      calc {
        SqNorm(v);
        == v.x * v.x + v.y * v.y + v.z * v.z;
        > { SumOfSquaresPositive(v.x, v.y, v.z); }
        0.0;
      }
    }
  }

  /** Scaling a vector by `k` scales its squared norm by `k * k`. */
  lemma SqNormScale(v: Vec3, k: real)
    ensures SqNorm(Scale(v, k)) == k * k * SqNorm(v)
  {
  }
}
