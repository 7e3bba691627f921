/**
 Shrinking a face towards its centroid, the step that turns the closed
 geodesic mesh into the logo's floating, disconnected triangles:
 every corner `v` becomes `center + (v - center) * factor`.
 */
module Shrink {
  import opened Geometry

  /** One corner moved towards `center`: `center + (v - center) * f`. */
  function ShrinkPoint(center: Vec3, v: Vec3, f: real): Vec3
  {
    Add(center, Scale(Sub(v, center), f))
  }

  /** The unscaled shrink of the burst-logo script: each corner pulled towards the triangle's own centroid. */
  function ShrinkTri(t: Tri, f: real): Tri
  {
    var c := Centroid(t);
    Tri(ShrinkPoint(c, t.p, f), ShrinkPoint(c, t.q, f), ShrinkPoint(c, t.r, f))
  }

  /** The shrink of the animation scripts: the face is first multiplied by `scale`, then shrunk. */
  function ShrinkScaledTri(t: Tri, f: real, scale: real): Tri
  {
    ShrinkTri(ScaleTri(t, scale), f)
  }

  /** Each corner's offset from the centroid, the three vectors `v - center`. */
  function Offsets(t: Tri, center: Vec3): (Vec3, Vec3, Vec3)
  {
    (Sub(t.p, center), Sub(t.q, center), Sub(t.r, center))
  }

  lemma MeanOfShrunk(c: real, a: real, b: real, d: real, f: real)
    requires c == (a + b + d) / 3.0
    ensures ((c + (a - c) * f) + (c + (b - c) * f) + (c + (d - c) * f)) / 3.0 == c
  {
    calc {
      (c + (a - c) * f) + (c + (b - c) * f) + (c + (d - c) * f);
      == 3.0 * c + (a + b + d - 3.0 * c) * f;
      == 3.0 * c + 0.0 * f;
    }
  }

  /** Shrinking keeps the centroid where it was. */
  lemma ShrinkCentroid(t: Tri, f: real)
    ensures Centroid(ShrinkTri(t, f)) == Centroid(t)
  {
    var c := Centroid(t);
    MeanOfShrunk(c.x, t.p.x, t.q.x, t.r.x, f);
    MeanOfShrunk(c.y, t.p.y, t.q.y, t.r.y, f);
    MeanOfShrunk(c.z, t.p.z, t.q.z, t.r.z, f);
  }

  /** Every shrunk corner's offset from the (unchanged) centroid is `f` times the original offset. */
  lemma ShrinkOffsets(t: Tri, f: real)
    ensures var c := Centroid(t); var s := ShrinkTri(t, f);
      && Sub(s.p, c) == Scale(Sub(t.p, c), f)
      && Sub(s.q, c) == Scale(Sub(t.q, c), f)
      && Sub(s.r, c) == Scale(Sub(t.r, c), f)
  {
  }

  /**
   The shrunk triangle is exactly the triangle that keeps the centroid and
   scales every corner's offset from it by `f`: the two descriptions agree.
   */
  lemma ShrinkCharacterized(t: Tri, f: real, s: Tri)
    ensures s == ShrinkTri(t, f) <==>
      && Centroid(s) == Centroid(t)
      && Offsets(s, Centroid(t)) == (Scale(Sub(t.p, Centroid(t)), f), Scale(Sub(t.q, Centroid(t)), f), Scale(Sub(t.r, Centroid(t)), f))
  {
    ShrinkCentroid(t, f);
    ShrinkOffsets(t, f);
  }

  /** Every edge vector of the shrunk triangle is `f` times the original edge vector. */
  lemma ShrinkEdges(t: Tri, f: real)
    ensures var s := ShrinkTri(t, f);
      && Sub(s.q, s.p) == Scale(Sub(t.q, t.p), f)
      && Sub(s.r, s.q) == Scale(Sub(t.r, t.q), f)
      && Sub(s.p, s.r) == Scale(Sub(t.p, t.r), f)
  {
    var c := Centroid(t);
    PointEdge(c, t.q, t.p, f);
    PointEdge(c, t.r, t.q, f);
    PointEdge(c, t.p, t.r, f);
  }

  /** Two points shrunk about the same centre are `f` times as far apart. */
  lemma PointEdge(c: Vec3, v: Vec3, w: Vec3, f: real)
    ensures Sub(ShrinkPoint(c, v, f), ShrinkPoint(c, w, f)) == Scale(Sub(v, w), f)
  {
    CoordEdge(c.x, v.x, w.x, f);
    CoordEdge(c.y, v.y, w.y, f);
    CoordEdge(c.z, v.z, w.z, f);
  }

  lemma CoordEdge(c: real, a: real, b: real, f: real)
    ensures (c + (a - c) * f) - (c + (b - c) * f) == (a - b) * f
  {
  }

  /** A factor of 1 leaves the triangle as it is. */
  lemma ShrinkIdentity(t: Tri)
    ensures ShrinkTri(t, 1.0) == t
  {
  }

  /** Shrinking twice is shrinking once by the product of the factors. */
  lemma ShrinkCompose(t: Tri, f: real, g: real)
    ensures ShrinkTri(ShrinkTri(t, f), g) == ShrinkTri(t, f * g)
  {
    var c := Centroid(t);
    ShrinkCentroid(t, f);
    PointCompose(c, t.p, f, g);
    PointCompose(c, t.q, f, g);
    PointCompose(c, t.r, f, g);
  }

  lemma PointCompose(c: Vec3, v: Vec3, f: real, g: real)
    ensures ShrinkPoint(c, ShrinkPoint(c, v, f), g) == ShrinkPoint(c, v, f * g)
  {
    CoordCompose(c.x, v.x, f, g);
    CoordCompose(c.y, v.y, f, g);
    CoordCompose(c.z, v.z, f, g);
  }

  lemma CoordCompose(c: real, a: real, f: real, g: real)
    ensures c + ((c + (a - c) * f) - c) * g == c + (a - c) * (f * g)
  {
  }

  /** For a factor strictly between 0 and 1, `f * f * s` is below any positive `s`. */
  lemma FactorSquaredBelow(f: real, s: real)
    requires 0.0 < f < 1.0 && s > 0.0
    ensures f * f * s < s
  {
    calc {
      f * f * s;
      < { assert f * f < 1.0; }
      s;
    }
  }

  /**
   The gap: for 0 < f < 1 every shrunk corner is strictly closer to the
   centroid than the corner it came from, unless that corner already was
   the centroid, in which case it stays put.
   */
  lemma ShrinkCloser(t: Tri, f: real)
    requires 0.0 < f < 1.0
    ensures var c := Centroid(t); var s := ShrinkTri(t, f);
      && (t.p != c ==> SqDist(s.p, c) < SqDist(t.p, c))
      && (t.q != c ==> SqDist(s.q, c) < SqDist(t.q, c))
      && (t.r != c ==> SqDist(s.r, c) < SqDist(t.r, c))
      && (t.p == c ==> s.p == c)
      && (t.q == c ==> s.q == c)
      && (t.r == c ==> s.r == c)
  {
    var c := Centroid(t);
    PointCloser(c, t.p, f);
    PointCloser(c, t.q, f);
    PointCloser(c, t.r, f);
  }

  lemma PointCloser(c: Vec3, v: Vec3, f: real)
    requires 0.0 < f < 1.0
    ensures v != c ==> SqDist(ShrinkPoint(c, v, f), c) < SqDist(v, c)
    ensures v == c ==> ShrinkPoint(c, v, f) == c
  {
    var d := Sub(v, c);
    assert Sub(ShrinkPoint(c, v, f), c) == Scale(d, f);
    if v != c {
      assert d != Vec3(0.0, 0.0, 0.0);
      calc {
        SqDist(ShrinkPoint(c, v, f), c);
        == SqNorm(Scale(d, f));
        == { SqNormScale(d, f); }
        f * f * SqNorm(d);
        < { SqNormPositive(d); FactorSquaredBelow(f, SqNorm(d)); }
        SqNorm(d);
      }
    }
  }

  /** The scaled shrink is centred on `scale` times the face's vertex mean. */
  lemma ScaledCentroid(t: Tri, f: real, scale: real)
    ensures Centroid(ShrinkScaledTri(t, f, scale)) == Scale(Centroid(t), scale)
  {
    ShrinkCentroid(ScaleTri(t, scale), f);
  }

  /** Every edge of the scaled shrink is `f * scale` times the face's edge. */
  lemma ScaledEdges(t: Tri, f: real, scale: real)
    ensures var s := ShrinkScaledTri(t, f, scale);
      && Sub(s.q, s.p) == Scale(Sub(t.q, t.p), f * scale)
      && Sub(s.r, s.q) == Scale(Sub(t.r, t.q), f * scale)
      && Sub(s.p, s.r) == Scale(Sub(t.p, t.r), f * scale)
  {
    ShrinkEdges(ScaleTri(t, scale), f);
    ScaledDifference(t.q, t.p, f, scale);
    ScaledDifference(t.r, t.q, f, scale);
    ScaledDifference(t.p, t.r, f, scale);
  }

  lemma ScaledDifference(v: Vec3, w: Vec3, f: real, scale: real)
    ensures Scale(Sub(Scale(v, scale), Scale(w, scale)), f) == Scale(Sub(v, w), f * scale)
  {
    CoordScaled(v.x, w.x, f, scale);
    CoordScaled(v.y, w.y, f, scale);
    CoordScaled(v.z, w.z, f, scale);
  }

  lemma CoordScaled(a: real, b: real, f: real, scale: real)
    ensures (a * scale - b * scale) * f == (a - b) * (f * scale)
  {
  }

  /** With factor 1 the scaled shrink is just the scaled face. */
  lemma ScaledIdentity(t: Tri, scale: real)
    ensures ShrinkScaledTri(t, 1.0, scale) == ScaleTri(t, scale)
  {
    ShrinkIdentity(ScaleTri(t, scale));
  }

  /** The unscaled shrink is the scaled one with scale 1. */
  lemma UnscaledIsScaleOne(t: Tri, f: real)
    ensures ShrinkScaledTri(t, f, 1.0) == ShrinkTri(t, f)
  {
    assert ScaleTri(t, 1.0) == t;
  }
}
