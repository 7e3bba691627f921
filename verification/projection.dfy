/**
 `project_to_2d`: every triangle is turned by the view rotation
 `rot_y @ rot_x`, flattened by dropping the z coordinate (an orthographic
 projection), and given a depth, the mean of its three rotated z values.
 */
module Projection {
  import opened Geometry
  import opened Rotation

  /** The first two coordinates of a point, `rotated[:, :2]` for one row. */
  function Drop(v: Vec3): Vec2
  {
    Vec2(v.x, v.y)
  }

  function RotateTri(m: Mat3, t: Tri): Tri
  {
    Tri(Apply(m, t.p), Apply(m, t.q), Apply(m, t.r))
  }

  /** One loop iteration: the flattened rotated triangle and its depth. */
  function ProjectTri(m: Mat3, t: Tri): (Tri2, real)
  {
    var s := RotateTri(m, t);
    (Tri2(Drop(s.p), Drop(s.q), Drop(s.r)), (s.p.z + s.q.z + s.r.z) / 3.0)
  }

  const XAxis: Vec3 := Vec3(1.0, 0.0, 0.0)
  const YAxis: Vec3 := Vec3(0.0, 1.0, 0.0)

  /**
   The view rotation `rot_y @ rot_x`: first about the x axis by the angle
   whose half has cosine `cx` and sine `sx`, then about the y axis by the
   angle whose half has cosine `cy` and sine `sy`.
   */
  function ViewMatrix(cx: real, sx: real, cy: real, sy: real): Mat3
  {
    MatMul(RotationMatrix(YAxis, cy, sy), RotationMatrix(XAxis, cx, sx))
  }

  /** `project_to_2d(triangles_3d, view_angle_x, view_angle_y)`, with the half-angle cosines and sines as inputs. */
  method ProjectTo2D(tris: seq<Tri>, cx: real, sx: real, cy: real, sy: real)
    returns (tris2: seq<Tri2>, depths: seq<real>)
    ensures |tris2| == |tris| && |depths| == |tris|
    ensures forall i :: 0 <= i < |tris| ==> (tris2[i], depths[i]) == ProjectTri(ViewMatrix(cx, sx, cy, sy), tris[i])
  {
    var rot := ViewMatrix(cx, sx, cy, sy);
    tris2, depths := [], [];
    for i := 0 to |tris|
      invariant |tris2| == i && |depths| == i
      invariant forall j :: 0 <= j < i ==> (tris2[j], depths[j]) == ProjectTri(rot, tris[j])
    {
      var (t2, z) := ProjectTri(rot, tris[i]);
      tris2 := tris2 + [t2];
      depths := depths + [z];
    }
  }

  /** The depth of a triangle is the z coordinate of its rotated centroid. */
  lemma DepthOfCentroid(m: Mat3, t: Tri)
    ensures ProjectTri(m, t).1 == Apply(m, Centroid(t)).z
  {
  }

  /** The mean of the three projected points is the projection of the rotated centroid. */
  lemma ProjectedCentroid(m: Mat3, t: Tri)
    ensures var t2 := ProjectTri(m, t).0;
      Vec2((t2.p.x + t2.q.x + t2.r.x) / 3.0, (t2.p.y + t2.q.y + t2.r.y) / 3.0) == Drop(Apply(m, Centroid(t)))
  {
  }

  /**
   Projecting with the composed matrix `rot_y @ rot_x` is the same as
   turning the triangle by `rot_x` first and projecting it with `rot_y`.
   */
  lemma ProjectComposed(ry: Mat3, rx: Mat3, t: Tri)
    ensures ProjectTri(MatMul(ry, rx), t) == ProjectTri(ry, RotateTri(rx, t))
  {
    ApplyMatMul(ry, rx, t.p);
    ApplyMatMul(ry, rx, t.q);
    ApplyMatMul(ry, rx, t.r);
  }

  /** Two distance-keeping matrices compose to a distance-keeping matrix. */
  lemma ComposedRigid(a: Mat3, b: Mat3, u: Vec3, v: Vec3)
    requires Orthogonal(a) && Orthogonal(b)
    ensures SqDist(Apply(MatMul(a, b), u), Apply(MatMul(a, b), v)) == SqDist(u, v)
  {
    ApplyMatMul(a, b, u);
    ApplyMatMul(a, b, v);
    OrthogonalSqDist(b, u, v);
    OrthogonalSqDist(a, Apply(b, u), Apply(b, v));
  }

  /** The view rotation keeps every distance, so triangles keep their shape before they are flattened. */
  lemma ViewIsRigid(cx: real, sx: real, cy: real, sy: real, u: Vec3, v: Vec3)
    requires cx * cx + sx * sx == 1.0 && cy * cy + sy * sy == 1.0
    ensures var m := ViewMatrix(cx, sx, cy, sy);
      SqDist(Apply(m, u), Apply(m, v)) == SqDist(u, v)
  {
    TiltXOrthogonal(cx, sx);
    TiltYOrthogonal(cy, sy);
    ComposedRigid(RotationMatrix(YAxis, cy, sy), RotationMatrix(XAxis, cx, sx), u, v);
  }

  /** The rotation about the x axis is orthogonal. */
  lemma TiltXOrthogonal(cx: real, sx: real)
    requires cx * cx + sx * sx == 1.0
    ensures Orthogonal(RotationMatrix(XAxis, cx, sx))
  {
    assert SqNorm(XAxis) == 1.0;
    RotationOrthogonal(XAxis, cx, sx);
  }

  /** The rotation about the y axis is orthogonal. */
  lemma TiltYOrthogonal(cy: real, sy: real)
    requires cy * cy + sy * sy == 1.0
    ensures Orthogonal(RotationMatrix(YAxis, cy, sy))
  {
    assert SqNorm(YAxis) == 1.0;
    RotationOrthogonal(YAxis, cy, sy);
  }
}
