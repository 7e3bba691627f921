/**
 3x3 matrices and the quaternion (Euler-Rodrigues) rotation matrix used to
 tilt the sphere before it is projected. The trigonometric values are
 inputs: `cosHalf` and `sinHalf` stand for `cos(theta / 2)` and
 `sin(theta / 2)`.
 */
module Rotation {
  import opened Geometry

  /** A 3x3 matrix, stored by rows. */
  datatype Mat3 = Mat3(r0: Vec3, r1: Vec3, r2: Vec3)

  const Identity: Mat3 := Mat3(Vec3(1.0, 0.0, 0.0), Vec3(0.0, 1.0, 0.0), Vec3(0.0, 0.0, 1.0))

  /** The matrix-vector product `m @ v`. */
  function Apply(m: Mat3, v: Vec3): Vec3
  {
    Vec3(Dot(m.r0, v), Dot(m.r1, v), Dot(m.r2, v))
  }

  function Transpose(m: Mat3): Mat3
  {
    Mat3(Vec3(m.r0.x, m.r1.x, m.r2.x), Vec3(m.r0.y, m.r1.y, m.r2.y), Vec3(m.r0.z, m.r1.z, m.r2.z))
  }

  /** The matrix product `a @ b`: entry (i, j) is row i of `a` dotted with column j of `b`. */
  function MatMul(a: Mat3, b: Mat3): Mat3
  {
    var cols := Transpose(b);
    Mat3(Vec3(Dot(a.r0, cols.r0), Dot(a.r0, cols.r1), Dot(a.r0, cols.r2)),
         Vec3(Dot(a.r1, cols.r0), Dot(a.r1, cols.r1), Dot(a.r1, cols.r2)),
         Vec3(Dot(a.r2, cols.r0), Dot(a.r2, cols.r1), Dot(a.r2, cols.r2)))
  }

  /** `m` is orthogonal: its transpose is its inverse. */
  predicate Orthogonal(m: Mat3)
  {
    MatMul(Transpose(m), m) == Identity
  }

  /** The Euler-Rodrigues matrix of the quaternion (a, b, c, d), entry by entry as the source writes it. */
  function QuaternionMatrix(a: real, b: real, c: real, d: real): Mat3
  {
    Mat3(Vec3(a * a + b * b - c * c - d * d, 2.0 * (b * c - a * d), 2.0 * (b * d + a * c)),
         Vec3(2.0 * (b * c + a * d), a * a + c * c - b * b - d * d, 2.0 * (c * d - a * b)),
         Vec3(2.0 * (b * d - a * c), 2.0 * (c * d + a * b), a * a + d * d - b * b - c * c))
  }

  /** The squared norm of the quaternion (a, b, c, d). */
  function QuaternionNorm(a: real, b: real, c: real, d: real): real
  {
    a * a + b * b + c * c + d * d
  }

  /**
   `rotation_matrix(axis, theta)` for an axis of unit length: the quaternion
   is `a = cos(theta / 2)` and `(b, c, d) = -axis * sin(theta / 2)`, the
   latter written as `axis` scaled by `-sin(theta / 2)`.
   */
  function RotationMatrix(axis: Vec3, cosHalf: real, sinHalf: real): Mat3
  {
    var v := Scale(axis, -sinHalf);
    QuaternionMatrix(cosHalf, v.x, v.y, v.z)
  }

  /** Multiplying matrices composes their actions: `(a @ b) @ v == a @ (b @ v)`. */
  lemma ApplyMatMul(a: Mat3, b: Mat3, v: Vec3)
    ensures Apply(MatMul(a, b), v) == Apply(a, Apply(b, v))
  {
  }

  lemma ApplyIdentity(v: Vec3)
    ensures Apply(Identity, v) == v
  {
  }

  /** Moving a matrix across a dot product transposes it. */
  lemma DotTranspose(m: Mat3, u: Vec3, w: Vec3)
    ensures Dot(Apply(m, u), w) == Dot(u, Apply(Transpose(m), w))
  {
  }

  /** A matrix acts linearly on differences. */
  lemma ApplySub(m: Mat3, u: Vec3, v: Vec3)
    ensures Apply(m, Sub(u, v)) == Sub(Apply(m, u), Apply(m, v))
  {
  }

  /** An orthogonal matrix keeps lengths. */
  lemma OrthogonalSqNorm(m: Mat3, v: Vec3)
    requires Orthogonal(m)
    ensures SqNorm(Apply(m, v)) == SqNorm(v)
  {
    calc {
      SqNorm(Apply(m, v));
      == Dot(Apply(m, v), Apply(m, v));
      == { DotTranspose(m, v, Apply(m, v)); }
      Dot(v, Apply(Transpose(m), Apply(m, v)));
      == { ApplyMatMul(Transpose(m), m, v); }
      Dot(v, Apply(Identity, v));
      == { ApplyIdentity(v); }
      SqNorm(v);
    }
  }

  /** An orthogonal matrix keeps distances, so a rotated triangle keeps its shape. */
  lemma OrthogonalSqDist(m: Mat3, u: Vec3, v: Vec3)
    requires Orthogonal(m)
    ensures SqDist(Apply(m, u), Apply(m, v)) == SqDist(u, v)
  {
    ApplySub(m, u, v);
    OrthogonalSqNorm(m, Sub(u, v));
  }

  /* Column products of the quaternion matrix, one polynomial identity per entry of its Gram matrix. */
  lemma Gram00(a: real, b: real, c: real, d: real)
    ensures var n := QuaternionNorm(a, b, c, d); var q := Transpose(QuaternionMatrix(a, b, c, d));
      Dot(q.r0, q.r0) == n * n
  {
    var q := Transpose(QuaternionMatrix(a, b, c, d));
    var u, w := q.r0, q.r0;
    GramPoly00(a, b, c, d, u.x, u.y, u.z, w.x, w.y, w.z, QuaternionNorm(a, b, c, d));
  }

  lemma GramPoly00(a: real, b: real, c: real, d: real, x0: real, x1: real, x2: real, y0: real, y1: real, y2: real, n: real)
    requires x0 == a * a + b * b - c * c - d * d && y0 == a * a + b * b - c * c - d * d
    requires x1 == 2.0 * (b * c + a * d) && y1 == 2.0 * (b * c + a * d)
    requires x2 == 2.0 * (b * d - a * c) && y2 == 2.0 * (b * d - a * c)
    requires n == QuaternionNorm(a, b, c, d)
    ensures x0 * y0 + x1 * y1 + x2 * y2 == n * n
  {
  }

  lemma Gram01(a: real, b: real, c: real, d: real)
    ensures var q := Transpose(QuaternionMatrix(a, b, c, d));
      Dot(q.r0, q.r1) == 0.0
  {
    var q := Transpose(QuaternionMatrix(a, b, c, d));
    var u, w := q.r0, q.r1;
    GramPoly01(a, b, c, d, u.x, u.y, u.z, w.x, w.y, w.z);
  }

  lemma GramPoly01(a: real, b: real, c: real, d: real, x0: real, x1: real, x2: real, y0: real, y1: real, y2: real)
    requires x0 == a * a + b * b - c * c - d * d && y0 == 2.0 * (b * c - a * d)
    requires x1 == 2.0 * (b * c + a * d) && y1 == a * a + c * c - b * b - d * d
    requires x2 == 2.0 * (b * d - a * c) && y2 == 2.0 * (c * d + a * b)
    ensures x0 * y0 + x1 * y1 + x2 * y2 == 0.0
  {
  }

  lemma Gram02(a: real, b: real, c: real, d: real)
    ensures var q := Transpose(QuaternionMatrix(a, b, c, d));
      Dot(q.r0, q.r2) == 0.0
  {
    var q := Transpose(QuaternionMatrix(a, b, c, d));
    var u, w := q.r0, q.r2;
    GramPoly02(a, b, c, d, u.x, u.y, u.z, w.x, w.y, w.z);
  }

  lemma GramPoly02(a: real, b: real, c: real, d: real, x0: real, x1: real, x2: real, y0: real, y1: real, y2: real)
    requires x0 == a * a + b * b - c * c - d * d && y0 == 2.0 * (b * d + a * c)
    requires x1 == 2.0 * (b * c + a * d) && y1 == 2.0 * (c * d - a * b)
    requires x2 == 2.0 * (b * d - a * c) && y2 == a * a + d * d - b * b - c * c
    ensures x0 * y0 + x1 * y1 + x2 * y2 == 0.0
  {
  }

  lemma Gram11(a: real, b: real, c: real, d: real)
    ensures var n := QuaternionNorm(a, b, c, d); var q := Transpose(QuaternionMatrix(a, b, c, d));
      Dot(q.r1, q.r1) == n * n
  {
    var q := Transpose(QuaternionMatrix(a, b, c, d));
    var u, w := q.r1, q.r1;
    GramPoly11(a, b, c, d, u.x, u.y, u.z, w.x, w.y, w.z, QuaternionNorm(a, b, c, d));
  }

  lemma GramPoly11(a: real, b: real, c: real, d: real, x0: real, x1: real, x2: real, y0: real, y1: real, y2: real, n: real)
    requires x0 == 2.0 * (b * c - a * d) && y0 == 2.0 * (b * c - a * d)
    requires x1 == a * a + c * c - b * b - d * d && y1 == a * a + c * c - b * b - d * d
    requires x2 == 2.0 * (c * d + a * b) && y2 == 2.0 * (c * d + a * b)
    requires n == QuaternionNorm(a, b, c, d)
    ensures x0 * y0 + x1 * y1 + x2 * y2 == n * n
  {
  }

  lemma Gram12(a: real, b: real, c: real, d: real)
    ensures var q := Transpose(QuaternionMatrix(a, b, c, d));
      Dot(q.r1, q.r2) == 0.0
  {
    var q := Transpose(QuaternionMatrix(a, b, c, d));
    var u, w := q.r1, q.r2;
    GramPoly12(a, b, c, d, u.x, u.y, u.z, w.x, w.y, w.z);
  }

  lemma GramPoly12(a: real, b: real, c: real, d: real, x0: real, x1: real, x2: real, y0: real, y1: real, y2: real)
    requires x0 == 2.0 * (b * c - a * d) && y0 == 2.0 * (b * d + a * c)
    requires x1 == a * a + c * c - b * b - d * d && y1 == 2.0 * (c * d - a * b)
    requires x2 == 2.0 * (c * d + a * b) && y2 == a * a + d * d - b * b - c * c
    ensures x0 * y0 + x1 * y1 + x2 * y2 == 0.0
  {
  }

  lemma Gram22(a: real, b: real, c: real, d: real)
    ensures var n := QuaternionNorm(a, b, c, d); var q := Transpose(QuaternionMatrix(a, b, c, d));
      Dot(q.r2, q.r2) == n * n
  {
    var q := Transpose(QuaternionMatrix(a, b, c, d));
    var u, w := q.r2, q.r2;
    GramPoly22(a, b, c, d, u.x, u.y, u.z, w.x, w.y, w.z, QuaternionNorm(a, b, c, d));
  }

  lemma GramPoly22(a: real, b: real, c: real, d: real, x0: real, x1: real, x2: real, y0: real, y1: real, y2: real, n: real)
    requires x0 == 2.0 * (b * d + a * c) && y0 == 2.0 * (b * d + a * c)
    requires x1 == 2.0 * (c * d - a * b) && y1 == 2.0 * (c * d - a * b)
    requires x2 == a * a + d * d - b * b - c * c && y2 == a * a + d * d - b * b - c * c
    requires n == QuaternionNorm(a, b, c, d)
    ensures x0 * y0 + x1 * y1 + x2 * y2 == n * n
  {
  }

  /**
   The Gram matrix of the quaternion matrix is `n * n` times the identity,
   where `n` is the quaternion's squared norm.
   */
  lemma QuaternionGram(a: real, b: real, c: real, d: real)
    ensures var n := QuaternionNorm(a, b, c, d);
      MatMul(Transpose(QuaternionMatrix(a, b, c, d)), QuaternionMatrix(a, b, c, d))
        == Mat3(Vec3(n * n, 0.0, 0.0), Vec3(0.0, n * n, 0.0), Vec3(0.0, 0.0, n * n))
  {
    Gram00(a, b, c, d);
    Gram01(a, b, c, d);
    Gram02(a, b, c, d);
    Gram11(a, b, c, d);
    Gram12(a, b, c, d);
    Gram22(a, b, c, d);
  }

  /** A unit quaternion gives an orthogonal matrix. */
  lemma QuaternionOrthogonal(a: real, b: real, c: real, d: real)
    requires QuaternionNorm(a, b, c, d) == 1.0
    ensures Orthogonal(QuaternionMatrix(a, b, c, d))
  {
    QuaternionGram(a, b, c, d);
  }

  /** The vector part (b, c, d) of the quaternion is an eigenvector: the axis is not moved, only scaled by the squared norm. */
  lemma QuaternionAxis(a: real, b: real, c: real, d: real)
    ensures Apply(QuaternionMatrix(a, b, c, d), Vec3(b, c, d)) == Scale(Vec3(b, c, d), QuaternionNorm(a, b, c, d))
  {
    Axis0(a, b, c, d);
    Axis1(a, b, c, d);
    Axis2(a, b, c, d);
  }

  /* One component of the axis identity each. */
  lemma Axis0(a: real, b: real, c: real, d: real)
    ensures Apply(QuaternionMatrix(a, b, c, d), Vec3(b, c, d)).x == Scale(Vec3(b, c, d), QuaternionNorm(a, b, c, d)).x
  {
    var m, u, n := QuaternionMatrix(a, b, c, d).r0, Vec3(b, c, d), QuaternionNorm(a, b, c, d);
    AxisPoly0(a, b, c, d, m.x, m.y, m.z, u.x, u.y, u.z, n);
  }

  lemma AxisPoly0(a: real, b: real, c: real, d: real, m0: real, m1: real, m2: real, u0: real, u1: real, u2: real, n: real)
    requires m0 == a * a + b * b - c * c - d * d && m1 == 2.0 * (b * c - a * d) && m2 == 2.0 * (b * d + a * c)
    requires u0 == b && u1 == c && u2 == d && n == QuaternionNorm(a, b, c, d)
    ensures m0 * u0 + m1 * u1 + m2 * u2 == u0 * n
  {
  }

  lemma Axis1(a: real, b: real, c: real, d: real)
    ensures Apply(QuaternionMatrix(a, b, c, d), Vec3(b, c, d)).y == Scale(Vec3(b, c, d), QuaternionNorm(a, b, c, d)).y
  {
    var m, u, n := QuaternionMatrix(a, b, c, d).r1, Vec3(b, c, d), QuaternionNorm(a, b, c, d);
    AxisPoly1(a, b, c, d, m.x, m.y, m.z, u.x, u.y, u.z, n);
  }

  lemma AxisPoly1(a: real, b: real, c: real, d: real, m0: real, m1: real, m2: real, u0: real, u1: real, u2: real, n: real)
    requires m0 == 2.0 * (b * c + a * d) && m1 == a * a + c * c - b * b - d * d && m2 == 2.0 * (c * d - a * b)
    requires u0 == b && u1 == c && u2 == d && n == QuaternionNorm(a, b, c, d)
    ensures m0 * u0 + m1 * u1 + m2 * u2 == u1 * n
  {
  }

  lemma Axis2(a: real, b: real, c: real, d: real)
    ensures Apply(QuaternionMatrix(a, b, c, d), Vec3(b, c, d)).z == Scale(Vec3(b, c, d), QuaternionNorm(a, b, c, d)).z
  {
    var m, u, n := QuaternionMatrix(a, b, c, d).r2, Vec3(b, c, d), QuaternionNorm(a, b, c, d);
    AxisPoly2(a, b, c, d, m.x, m.y, m.z, u.x, u.y, u.z, n);
  }

  lemma AxisPoly2(a: real, b: real, c: real, d: real, m0: real, m1: real, m2: real, u0: real, u1: real, u2: real, n: real)
    requires m0 == 2.0 * (b * d - a * c) && m1 == 2.0 * (c * d + a * b) && m2 == a * a + d * d - b * b - c * c
    requires u0 == b && u1 == c && u2 == d && n == QuaternionNorm(a, b, c, d)
    ensures m0 * u0 + m1 * u1 + m2 * u2 == u2 * n
  {
  }

  /** A unit axis and a point (cosHalf, sinHalf) on the unit circle make a unit quaternion. */
  lemma RotationQuaternionUnit(axis: Vec3, cosHalf: real, sinHalf: real)
    requires SqNorm(axis) == 1.0
    requires cosHalf * cosHalf + sinHalf * sinHalf == 1.0
    ensures var v := Scale(axis, -sinHalf);
      QuaternionNorm(cosHalf, v.x, v.y, v.z) == 1.0
  {
    var v := Scale(axis, -sinHalf);
    calc {
      QuaternionNorm(cosHalf, v.x, v.y, v.z);
      == cosHalf * cosHalf + SqNorm(v);
      == { SqNormScale(axis, -sinHalf); }
      cosHalf * cosHalf + sinHalf * sinHalf * SqNorm(axis);
    }
  }

  /** `rotation_matrix` of a unit axis is orthogonal. */
  lemma RotationOrthogonal(axis: Vec3, cosHalf: real, sinHalf: real)
    requires SqNorm(axis) == 1.0
    requires cosHalf * cosHalf + sinHalf * sinHalf == 1.0
    ensures Orthogonal(RotationMatrix(axis, cosHalf, sinHalf))
  {
    var v := Scale(axis, -sinHalf);
    RotationQuaternionUnit(axis, cosHalf, sinHalf);
    QuaternionOrthogonal(cosHalf, v.x, v.y, v.z);
  }

  /** A matrix commutes with scaling. */
  lemma ApplyScale(m: Mat3, u: Vec3, k: real)
    ensures Apply(m, Scale(u, k)) == Scale(Apply(m, u), k)
  {
  }

  /** Scaling by a non-zero factor is injective. */
  lemma ScaleCancel(u: Vec3, w: Vec3, k: real)
    requires k != 0.0 && Scale(u, k) == Scale(w, k)
    ensures u == w
  {
    CancelFactor(u.x, w.x, k);
    CancelFactor(u.y, w.y, k);
    CancelFactor(u.z, w.z, k);
  }

  lemma CancelFactor(x: real, y: real, k: real)
    requires k != 0.0 && x * k == y * k
    ensures x == y
  {
    assert (x - y) * k == 0.0;
  }

  /** With no sine part the quaternion is (±1, 0, 0, 0) and the matrix is the identity. */
  lemma RotationByZero(axis: Vec3, cosHalf: real)
    requires cosHalf * cosHalf == 1.0
    ensures RotationMatrix(axis, cosHalf, 0.0) == Identity
  {
    assert Scale(axis, -0.0) == Vec3(0.0, 0.0, 0.0);
  }

  /** The quaternion's vector part `-sinHalf * axis` is left in place by a unit quaternion. */
  lemma RotationFixesVectorPart(axis: Vec3, cosHalf: real, sinHalf: real)
    requires SqNorm(axis) == 1.0
    requires cosHalf * cosHalf + sinHalf * sinHalf == 1.0
    ensures Apply(RotationMatrix(axis, cosHalf, sinHalf), Scale(axis, -sinHalf)) == Scale(axis, -sinHalf)
  {
    var v := Scale(axis, -sinHalf);
    RotationQuaternionUnit(axis, cosHalf, sinHalf);
    QuaternionAxis(cosHalf, v.x, v.y, v.z);
    assert Vec3(v.x, v.y, v.z) == v;
  }

  /** `rotation_matrix` turns space about `axis`: the axis itself does not move. */
  lemma RotationFixesAxis(axis: Vec3, cosHalf: real, sinHalf: real)
    requires SqNorm(axis) == 1.0
    requires cosHalf * cosHalf + sinHalf * sinHalf == 1.0
    ensures Apply(RotationMatrix(axis, cosHalf, sinHalf), axis) == axis
  {
    var m := RotationMatrix(axis, cosHalf, sinHalf);
    if sinHalf == 0.0 {
      RotationByZero(axis, cosHalf);
      ApplyIdentity(axis);
    } else {
      RotationFixesVectorPart(axis, cosHalf, sinHalf);
      ApplyScale(m, axis, -sinHalf);
      ScaleCancel(Apply(m, axis), axis, -sinHalf);
    }
  }
}
