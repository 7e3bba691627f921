/**
 The three scripts' entry points, built from the shared pieces: the
 icosahedron, `subdivisions` rounds of subdivision, and one shrunk triangle
 per face, optionally scaled first; for the 2D logo, followed by the
 projection and the painter's order.
 */
module Pipeline {
  import opened Geometry
  import opened Mesh
  import Icosahedron
  import opened Subdivision
  import opened Shrink
  import opened Rotation
  import opened Projection
  import opened DepthOrder

  function Pow4(k: nat): nat
  {
    if k == 0 then 1 else 4 * Pow4(k - 1)
  }

  /** The number of rounds `range(subdivisions)` runs: none for a count below one. */
  function Rounds(subdivisions: int): nat
  {
    if subdivisions > 0 then subdivisions else 0
  }

  /** `verts[face]`: the three corners of a face, looked up in the vertex list. */
  function FaceTri(verts: seq<Vec3>, f: Face): Tri
    requires ValidFace(f, |verts|)
  {
    Tri(verts[f.v1], verts[f.v2], verts[f.v3])
  }

  /** `verts * scale`. */
  function ScaleAll(verts: seq<Vec3>, scale: real): (r: seq<Vec3>)
    ensures |r| == |verts|
  {
    seq(|verts|, i requires 0 <= i < |verts| => Scale(verts[i], scale))
  }

  /** The shrink loop: one triangle per face, each face scaled by `scale` and then shrunk by `f`. */
  function ShrinkFaces(verts: seq<Vec3>, faces: seq<Face>, f: real, scale: real): (r: seq<Tri>)
    requires ValidFaces(faces, |verts|)
    ensures |r| == |faces|
  {
    seq(|faces|, i requires 0 <= i < |faces| => ShrinkScaledTri(FaceTri(verts, faces[i]), f, scale))
  }

  /** A mesh: a vertex list and a face list indexing it. */
  datatype Stage = Stage(verts: seq<Vec3>, faces: seq<Face>)

  /**
   `meshes[0]` is the icosahedron, and each later mesh is the subdivision of
   the one before it, `caches[r]` being the midpoint cache of round `r`.
   */
  ghost predicate SubdivisionChain(meshes: seq<Stage>, caches: seq<map<Edge, nat>>, t: real, normalize: Vec3 -> Vec3)
  {
    && |meshes| == |caches| + 1
    && meshes[0] == Stage(Icosahedron.Vertices(t, normalize), Icosahedron.Faces)
    && forall r :: 0 <= r < |caches| ==>
         IsSubdivision(meshes[r].verts, meshes[r].faces, normalize, meshes[r + 1].verts, meshes[r + 1].faces, caches[r])
  }

  /**
   `get_icosahedron` followed by `subdivisions` rounds of `subdivide`. The
   ghost outputs record every intermediate mesh and every round's midpoint
   cache: the result is the last mesh of a subdivision chain that starts at
   the icosahedron. It has `20 * 4^n` valid faces, the twelve icosahedron
   vertices come first, and after exactly one round there are 12 + 30 = 42
   vertices.
   */
  method BuildMesh(subdivisions: int, t: real, normalize: Vec3 -> Vec3)
    returns (verts: seq<Vec3>, faces: seq<Face>, ghost meshes: seq<Stage>, ghost caches: seq<map<Edge, nat>>)
    ensures |caches| == Rounds(subdivisions)
    ensures SubdivisionChain(meshes, caches, t, normalize)
    ensures meshes[|caches|] == Stage(verts, faces)
    ensures |faces| == 20 * Pow4(Rounds(subdivisions))
    ensures ValidFaces(faces, |verts|)
    ensures |verts| >= 12 && verts[..12] == Icosahedron.Vertices(t, normalize)
    ensures Rounds(subdivisions) == 0 ==> verts == Icosahedron.Vertices(t, normalize) && faces == Icosahedron.Faces
    ensures Rounds(subdivisions) == 1 ==> |verts| == 42
  {
    var v0 := Icosahedron.Vertices(t, normalize);
    verts, faces := v0, Icosahedron.Faces;
    meshes, caches := [Stage(verts, faces)], [];
    Icosahedron.FacesValid();
    for r := 0 to Rounds(subdivisions)
      invariant |caches| == r
      invariant SubdivisionChain(meshes, caches, t, normalize)
      invariant meshes[r] == Stage(verts, faces)
      invariant |faces| == 20 * Pow4(r)
      invariant ValidFaces(faces, |verts|)
      invariant |verts| >= 12 && verts[..12] == v0
      invariant r == 0 ==> verts == v0 && faces == Icosahedron.Faces
      invariant r == 1 ==> |verts| == 42
    {
      verts, faces, meshes, caches := SubdivideRound(verts, faces, normalize, t, meshes, caches);
    }
  }

  /**
   One pass of the loop body `verts, faces = subdivide(verts, faces)`,
   recording the new mesh and the round's cache at the end of the chain.
   */
  method SubdivideRound(verts: seq<Vec3>, faces: seq<Face>, normalize: Vec3 -> Vec3, ghost t: real,
                        ghost meshes: seq<Stage>, ghost caches: seq<map<Edge, nat>>)
    returns (newVerts: seq<Vec3>, newFaces: seq<Face>, ghost meshes': seq<Stage>, ghost caches': seq<map<Edge, nat>>)
    requires ValidFaces(faces, |verts|)
    requires SubdivisionChain(meshes, caches, t, normalize) && meshes[|caches|] == Stage(verts, faces)
    ensures SubdivisionChain(meshes', caches', t, normalize) && meshes'[|caches'|] == Stage(newVerts, newFaces)
    ensures |caches'| == |caches| + 1
    ensures |newFaces| == 4 * |faces|
    ensures ValidFaces(newFaces, |newVerts|)
    ensures |verts| <= |newVerts| && newVerts[..|verts|] == verts
    ensures |caches| == 0 ==> |newVerts| == 42
  {
    var cache;
    newVerts, newFaces, cache := Subdivide(verts, faces, normalize);
    if |caches| == 0 {
      FirstRoundVertices(t, normalize, newVerts, newFaces, cache);
    }
    ChainExtend(meshes, caches, t, normalize, Stage(verts, faces), Stage(newVerts, newFaces), cache);
    meshes', caches' := meshes + [Stage(newVerts, newFaces)], caches + [cache];
  }

  /** Subdividing the icosahedron adds one vertex for each of its thirty edges. */
  lemma FirstRoundVertices(t: real, normalize: Vec3 -> Vec3, verts: seq<Vec3>, faces: seq<Face>, cache: map<Edge, nat>)
    requires IsSubdivision(Icosahedron.Vertices(t, normalize), Icosahedron.Faces, normalize, verts, faces, cache)
    ensures |verts| == 42
  {
    Icosahedron.FaceTableClosed();
  }

  /** A subdivision chain grows by one round when its last mesh is subdivided. */
  lemma ChainExtend(meshes: seq<Stage>, caches: seq<map<Edge, nat>>, t: real, normalize: Vec3 -> Vec3,
                    last: Stage, next: Stage, cache: map<Edge, nat>)
    requires SubdivisionChain(meshes, caches, t, normalize)
    requires meshes[|caches|] == last
    requires IsSubdivision(last.verts, last.faces, normalize, next.verts, next.faces, cache)
    ensures SubdivisionChain(meshes + [next], caches + [cache], t, normalize)
  {
    var ms, cs := meshes + [next], caches + [cache];
    forall r | 0 <= r < |caches|
      ensures IsSubdivision(ms[r].verts, ms[r].faces, normalize, ms[r + 1].verts, ms[r + 1].faces, cs[r])
    {
      assert ms[r] == meshes[r] && ms[r + 1] == meshes[r + 1] && cs[r] == caches[r];
    }
    assert ms[|caches|] == last && ms[|caches| + 1] == next && cs[|caches|] == cache;
  }

  /**
   `create_geodesic_triangles_3d` of the 2D script: the shrunk, scaled
   triangles, the scaled vertex list and the faces of the subdivided mesh.
   Each triangle is the face, looked up in the scaled vertex list, shrunk by
   `f` about its centroid.
   */
  method CreateGeodesicTriangles3D(subdivisions: int, f: real, scale: real, t: real, normalize: Vec3 -> Vec3)
    returns (triangles: seq<Tri>, scaledVerts: seq<Vec3>, faces: seq<Face>,
             ghost meshes: seq<Stage>, ghost caches: seq<map<Edge, nat>>)
    ensures |caches| == Rounds(subdivisions) && SubdivisionChain(meshes, caches, t, normalize)
    ensures scaledVerts == ScaleAll(meshes[|caches|].verts, scale) && faces == meshes[|caches|].faces
    ensures |triangles| == |faces| == 20 * Pow4(Rounds(subdivisions))
    ensures ValidFaces(faces, |scaledVerts|)
    ensures forall i :: 0 <= i < |faces| ==> triangles[i] == ShrinkTri(FaceTri(scaledVerts, faces[i]), f)
    ensures |scaledVerts| >= 12 && scaledVerts[..12] == ScaleAll(Icosahedron.Vertices(t, normalize), scale)
  {
    var verts;
    verts, faces, meshes, caches := BuildMesh(subdivisions, t, normalize);
    triangles := ShrinkFaces(verts, faces, f, scale);
    scaledVerts := ScaleAll(verts, scale);
    forall i | 0 <= i < |faces|
      ensures triangles[i] == ShrinkTri(FaceTri(scaledVerts, faces[i]), f)
    {
      assert ValidFace(faces[i], |verts|);
      assert ScaleTri(FaceTri(verts, faces[i]), scale) == FaceTri(scaledVerts, faces[i]);
    }
    assert scaledVerts[..12] == ScaleAll(verts[..12], scale);
  }

  /**
   `create_geodesic_triangles` of the 3D script: one triangle per face of the
   subdivided mesh, `verts[face] * scale` shrunk by `f`. The mesh itself is
   not returned; the ghost outputs name it.
   */
  method CreateGeodesicTriangles(subdivisions: int, f: real, scale: real, t: real, normalize: Vec3 -> Vec3)
    returns (triangles: seq<Tri>, ghost meshes: seq<Stage>, ghost caches: seq<map<Edge, nat>>)
    ensures |triangles| == 20 * Pow4(Rounds(subdivisions))
    ensures |caches| == Rounds(subdivisions) && SubdivisionChain(meshes, caches, t, normalize)
    ensures var m := meshes[|caches|];
      && |triangles| == |m.faces|
      && ValidFaces(m.faces, |m.verts|)
      && forall i :: 0 <= i < |m.faces| ==> triangles[i] == ShrinkScaledTri(FaceTri(m.verts, m.faces[i]), f, scale)
  {
    var verts, faces;
    verts, faces, meshes, caches := BuildMesh(subdivisions, t, normalize);
    triangles := ShrinkFaces(verts, faces, f, scale);
  }

  /**
   `create_burst_logo`: one unscaled triangle per face of the subdivided
   mesh, `verts[face]` shrunk by `f` about its centroid. The ghost outputs
   name the mesh.
   */
  method CreateBurstLogo(subdivisions: int, f: real, t: real, normalize: Vec3 -> Vec3)
    returns (polys: seq<Tri>, ghost meshes: seq<Stage>, ghost caches: seq<map<Edge, nat>>)
    ensures |polys| == 20 * Pow4(Rounds(subdivisions))
    ensures |caches| == Rounds(subdivisions) && SubdivisionChain(meshes, caches, t, normalize)
    ensures var m := meshes[|caches|];
      && |polys| == |m.faces|
      && ValidFaces(m.faces, |m.verts|)
      && forall i :: 0 <= i < |m.faces| ==> polys[i] == ShrinkTri(FaceTri(m.verts, m.faces[i]), f)
  {
    var verts, faces;
    verts, faces, meshes, caches := BuildMesh(subdivisions, t, normalize);
    polys := seq(|faces|, i requires 0 <= i < |faces| => ShrinkTri(FaceTri(verts, faces[i]), f));
  }

  /**
   The drawing of the static 2D logo scene: the scaled, shrunk triangles of
   the mesh, projected under the view rotation and drawn back to front with
   the depth-dependent opacity. `cx, sx` and `cy, sy` are the cosine and sine
   of half the two view angles. Every triangle is drawn exactly once, in
   `order`, each with its own projection and the opacity of its own depth.
   */
  method LogoFrame(subdivisions: int, f: real, scale: real, t: real, normalize: Vec3 -> Vec3,
                   cx: real, sx: real, cy: real, sy: real)
    returns (scaledVerts: seq<Vec3>, faces: seq<Face>, triangles: seq<Tri>, order: seq<nat>, draws: seq<Draw>,
             ghost meshes: seq<Stage>, ghost caches: seq<map<Edge, nat>>)
    ensures |caches| == Rounds(subdivisions) && SubdivisionChain(meshes, caches, t, normalize)
    ensures scaledVerts == ScaleAll(meshes[|caches|].verts, scale) && faces == meshes[|caches|].faces
    ensures |triangles| == |faces| == 20 * Pow4(Rounds(subdivisions))
    ensures ValidFaces(faces, |scaledVerts|)
    ensures forall i :: 0 <= i < |faces| ==> triangles[i] == ShrinkTri(FaceTri(scaledVerts, faces[i]), f)
    ensures IsPermutation(order, |triangles|)
    ensures forall i :: 0 <= i < |order| ==> order[i] < |triangles|
    ensures |draws| == |order| == |triangles|
    ensures forall i :: 0 <= i < |draws| ==>
      var p := ProjectTri(ViewMatrix(cx, sx, cy, sy), triangles[order[i]]);
      draws[i] == Draw(p.0, Opacity(p.1))
    ensures forall i, j :: 0 <= i < j < |order| ==>
      ProjectTri(ViewMatrix(cx, sx, cy, sy), triangles[order[i]]).1 <= ProjectTri(ViewMatrix(cx, sx, cy, sy), triangles[order[j]]).1
    ensures forall i :: 0 <= i < |draws| ==> 0.4 <= draws[i].opacity <= 1.0
    ensures forall i, j :: 0 <= i < j < |draws| ==> draws[i].opacity <= draws[j].opacity
  {
    triangles, scaledVerts, faces, meshes, caches := CreateGeodesicTriangles3D(subdivisions, f, scale, t, normalize);
    var tris2, depths := ProjectTo2D(triangles, cx, sx, cy, sy);
    order, draws := PaintOrder(tris2, depths);
    PermutationDrawsEachOnce(order, |depths|);
    forall i | 0 <= i < |draws|
      ensures 0.4 <= draws[i].opacity <= 1.0
    {
      OpacityBounds(depths[order[i]]);
    }
  }
}
