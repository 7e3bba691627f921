/**
 One round of geodesic subdivision: every face becomes four, and every
 undirected edge receives exactly one new vertex, found through a cache keyed
 by the edge's sorted index pair and appended at the end of the vertex list.

 Vertex positions only flow through this module. The projection of a
 midpoint back onto the unit sphere is the parameter `normalize`, so nothing
 here depends on square roots or on floating-point rounding.
 */
module Subdivision {
  import opened Geometry
  import opened Mesh

  /** The position of the new vertex of an edge: `normalize((u + v) / 2.0)`. */
  function MidVertex(normalize: Vec3 -> Vec3, u: Vec3, v: Vec3): Vec3
  {
    normalize(Vec3((u.x + v.x) / 2.0, (u.y + v.y) / 2.0, (u.z + v.z) / 2.0))
  }

  /** The scratch state of one subdivision call: the growing vertex list and the midpoint cache. */
  datatype Builder = Builder(verts: seq<Vec3>, cache: map<Edge, nat>)

  /**
   `get_midpoint(i1, i2)`: the index of the new vertex of edge {i1, i2},
   created and appended on the first request for that edge, looked up in
   the cache on every later one. `orig` is the vertex list of the input mesh.
   */
  function GetMidpoint(orig: seq<Vec3>, normalize: Vec3 -> Vec3, b: Builder, i1: nat, i2: nat): (r: (Builder, nat))
    requires i1 < |orig| && i2 < |orig|
    ensures Key(i1, i2) in r.0.cache && r.0.cache[Key(i1, i2)] == r.1
    ensures forall k :: k in b.cache ==> k in r.0.cache && r.0.cache[k] == b.cache[k]
    ensures r.0.cache.Keys == b.cache.Keys + {Key(i1, i2)}
    ensures |b.verts| <= |r.0.verts| && r.0.verts[..|b.verts|] == b.verts
  {
    var key := Key(i1, i2);
    if key in b.cache then
      (b, b.cache[key])
    else
      var mid := MidVertex(normalize, orig[i1], orig[i2]);
      (Builder(b.verts + [mid], b.cache[key := |b.verts|]), |b.verts|)
  }

  /** Asking for an edge in either direction gives the same index and the same state. */
  lemma GetMidpointSymmetric(orig: seq<Vec3>, normalize: Vec3 -> Vec3, b: Builder, i1: nat, i2: nat)
    requires i1 < |orig| && i2 < |orig|
    ensures GetMidpoint(orig, normalize, b, i1, i2) == GetMidpoint(orig, normalize, b, i2, i1)
  {
    assert Key(i1, i2) == Key(i2, i1);
    assert MidVertex(normalize, orig[i1], orig[i2]) == MidVertex(normalize, orig[i2], orig[i1]);
  }

  /**
   A cache hit returns the cached index and appends nothing; a miss appends
   exactly one vertex, the edge's midpoint, at the next free index.
   */
  lemma GetMidpointAppends(orig: seq<Vec3>, normalize: Vec3 -> Vec3, b: Builder, i1: nat, i2: nat)
    requires i1 < |orig| && i2 < |orig|
    ensures var r := GetMidpoint(orig, normalize, b, i1, i2);
      if Key(i1, i2) in b.cache then r.0.verts == b.verts && r.1 == b.cache[Key(i1, i2)]
      else r.0.verts == b.verts + [MidVertex(normalize, orig[i1], orig[i2])] && r.1 == |b.verts|
  {
  }

  /** The new vertex of edge `e` of the input mesh. */
  function EdgeMid(orig: seq<Vec3>, normalize: Vec3 -> Vec3, e: Edge): Vec3
    requires e.0 < |orig| && e.1 < |orig|
  {
    MidVertex(normalize, orig[e.0], orig[e.1])
  }

  /** The input vertices are an unchanged prefix of the growing list. */
  ghost predicate PrefixKept(orig: seq<Vec3>, b: Builder)
  {
    |orig| <= |b.verts| && b.verts[..|orig|] == orig
  }

  /** Every cached edge is a sorted pair of input indices whose new vertex sits at its cached index. */
  ghost predicate CacheSound(orig: seq<Vec3>, normalize: Vec3 -> Vec3, b: Builder)
  {
    forall k :: k in b.cache ==>
      && k.0 <= k.1 < |orig|
      && |orig| <= b.cache[k] < |b.verts|
      && b.verts[b.cache[k]] == EdgeMid(orig, normalize, k)
  }

  /** Distinct edges get distinct new vertices. */
  ghost predicate Injective(cache: map<Edge, nat>)
  {
    forall k1, k2 :: k1 in cache && k2 in cache && k1 != k2 ==> cache[k1] != cache[k2]
  }

  /** Every appended vertex is the new vertex of some cached edge. */
  ghost predicate Covered(orig: seq<Vec3>, b: Builder)
  {
    forall j :: |orig| <= j < |b.verts| ==> j in b.cache.Values
  }

  /**
   The bookkeeping invariant of a subdivision call: one appended vertex per
   cached edge, each at its own index, and nothing else appended.
   */
  ghost predicate Consistent(orig: seq<Vec3>, normalize: Vec3 -> Vec3, b: Builder)
  {
    && PrefixKept(orig, b)
    && |b.verts| == |orig| + |b.cache|
    && CacheSound(orig, normalize, b)
    && Injective(b.cache)
    && Covered(orig, b)
  }

  /** The state after a cache miss on the sorted edge `key`. */
  function Append(orig: seq<Vec3>, normalize: Vec3 -> Vec3, b: Builder, key: Edge): Builder
    requires key.0 < |orig| && key.1 < |orig|
  {
    Builder(b.verts + [EdgeMid(orig, normalize, key)], b.cache[key := |b.verts|])
  }

  lemma AppendPrefix(orig: seq<Vec3>, normalize: Vec3 -> Vec3, b: Builder, key: Edge)
    requires key.0 < |orig| && key.1 < |orig|
    requires PrefixKept(orig, b)
    ensures PrefixKept(orig, Append(orig, normalize, b, key))
  {
    var b' := Append(orig, normalize, b, key);
    assert b'.verts[..|orig|] == b.verts[..|orig|];
  }

  lemma AppendSound(orig: seq<Vec3>, normalize: Vec3 -> Vec3, b: Builder, key: Edge)
    requires key.0 <= key.1 < |orig|
    requires |orig| <= |b.verts|
    requires CacheSound(orig, normalize, b)
    ensures CacheSound(orig, normalize, Append(orig, normalize, b, key))
  {
    var b' := Append(orig, normalize, b, key);
    forall k | k in b'.cache
      ensures && k.0 <= k.1 < |orig|
              && |orig| <= b'.cache[k] < |b'.verts|
              && b'.verts[b'.cache[k]] == EdgeMid(orig, normalize, k)
    {
      if k != key {
        assert b'.cache[k] == b.cache[k];
        assert b'.verts[b.cache[k]] == b.verts[b.cache[k]];
      }
    }
  }

  lemma AppendInjective(orig: seq<Vec3>, normalize: Vec3 -> Vec3, b: Builder, key: Edge)
    requires key.0 < |orig| && key.1 < |orig|
    requires key !in b.cache
    requires CacheSound(orig, normalize, b) && Injective(b.cache)
    ensures Injective(Append(orig, normalize, b, key).cache)
  {
  }

  lemma AppendCovered(orig: seq<Vec3>, normalize: Vec3 -> Vec3, b: Builder, key: Edge)
    requires key.0 < |orig| && key.1 < |orig|
    requires key !in b.cache
    requires Covered(orig, b)
    ensures Covered(orig, Append(orig, normalize, b, key))
  {
    var b' := Append(orig, normalize, b, key);
    forall j | |orig| <= j < |b'.verts|
      ensures j in b'.cache.Values
    {
      if j == |b.verts| {
        assert b'.cache[key] == j;
      } else {
        assert j in b.cache.Values;
        var k :| k in b.cache && b.cache[k] == j;
        assert b'.cache[k] == j;
      }
    }
  }

  /** `get_midpoint` keeps the bookkeeping invariant. */
  lemma GetMidpointConsistent(orig: seq<Vec3>, normalize: Vec3 -> Vec3, b: Builder, i1: nat, i2: nat)
    requires i1 < |orig| && i2 < |orig|
    requires Consistent(orig, normalize, b)
    ensures Consistent(orig, normalize, GetMidpoint(orig, normalize, b, i1, i2).0)
  {
    var key := Key(i1, i2);
    if key !in b.cache {
      assert GetMidpoint(orig, normalize, b, i1, i2).0 == Append(orig, normalize, b, key);
      AppendPrefix(orig, normalize, b, key);
      AppendSound(orig, normalize, b, key);
      AppendInjective(orig, normalize, b, key);
      AppendCovered(orig, normalize, b, key);
      assert |b.cache[key := |b.verts|]| == |b.cache| + 1;
    }
  }

  /** The four children of face `f`, given the cached midpoints of its three edges. */
  function Children(f: Face, cache: map<Edge, nat>): seq<Face>
    requires FaceKeys(f) <= cache.Keys
  {
    var a := cache[Key(f.v1, f.v2)];
    var b := cache[Key(f.v2, f.v3)];
    var c := cache[Key(f.v3, f.v1)];
    [Face(f.v1, a, c), Face(f.v2, b, a), Face(f.v3, c, b), Face(a, b, c)]
  }

  /**
   The children of a face with three distinct corners: corner `v1`, `v2`,
   `v3` appears in exactly one child, the first, second and third child
   respectively, as that child's first entry; the fourth child is made of
   new vertices only.
   */
  lemma ChildrenCorners(f: Face, cache: map<Edge, nat>, n: nat)
    requires ValidFace(f, n)
    requires f.v1 != f.v2 && f.v2 != f.v3 && f.v3 != f.v1
    requires FaceKeys(f) <= cache.Keys
    requires forall k :: k in FaceKeys(f) ==> n <= cache[k]
    ensures var cs := Children(f, cache);
      && cs[0].v1 == f.v1 && cs[1].v1 == f.v2 && cs[2].v1 == f.v3
      && (forall i :: 0 <= i < 4 ==> (InFace(f.v1, cs[i]) <==> i == 0))
      && (forall i :: 0 <= i < 4 ==> (InFace(f.v2, cs[i]) <==> i == 1))
      && (forall i :: 0 <= i < 4 ==> (InFace(f.v3, cs[i]) <==> i == 2))
      && cs[3].v1 >= n && cs[3].v2 >= n && cs[3].v3 >= n
  {
    assert Key(f.v1, f.v2) in FaceKeys(f);
    assert Key(f.v2, f.v3) in FaceKeys(f);
    assert Key(f.v3, f.v1) in FaceKeys(f);
  }

  predicate InFace(v: nat, f: Face)
  {
    v == f.v1 || v == f.v2 || v == f.v3
  }

  /** Growing the cache leaves the children of already processed faces unchanged. */
  lemma ChildrenStable(f: Face, c1: map<Edge, nat>, c2: map<Edge, nat>)
    requires FaceKeys(f) <= c1.Keys
    requires forall k :: k in c1 ==> k in c2 && c2[k] == c1[k]
    ensures FaceKeys(f) <= c2.Keys
    ensures Children(f, c1) == Children(f, c2)
  {
    assert Key(f.v1, f.v2) in FaceKeys(f);
    assert Key(f.v2, f.v3) in FaceKeys(f);
    assert Key(f.v3, f.v1) in FaceKeys(f);
  }

  /**
   One iteration of the face loop: the three `get_midpoint` calls for edges
   v1v2, v2v3 and v3v1, in that order, and the four child faces.
   */
  function ProcessFace(orig: seq<Vec3>, normalize: Vec3 -> Vec3, b: Builder, f: Face): (r: (Builder, seq<Face>))
    requires ValidFace(f, |orig|)
    ensures r.0.cache.Keys == b.cache.Keys + FaceKeys(f)
    ensures forall k :: k in b.cache ==> r.0.cache[k] == b.cache[k]
    ensures r.1 == Children(f, r.0.cache)
  {
    var (b1, a) := GetMidpoint(orig, normalize, b, f.v1, f.v2);
    var (b2, bb) := GetMidpoint(orig, normalize, b1, f.v2, f.v3);
    var (b3, c) := GetMidpoint(orig, normalize, b2, f.v3, f.v1);
    (b3, [Face(f.v1, a, c), Face(f.v2, bb, a), Face(f.v3, c, bb), Face(a, bb, c)])
  }

  lemma ProcessFaceConsistent(orig: seq<Vec3>, normalize: Vec3 -> Vec3, b: Builder, f: Face)
    requires ValidFace(f, |orig|)
    requires Consistent(orig, normalize, b)
    ensures Consistent(orig, normalize, ProcessFace(orig, normalize, b, f).0)
  {
    var b1 := GetMidpoint(orig, normalize, b, f.v1, f.v2).0;
    GetMidpointConsistent(orig, normalize, b, f.v1, f.v2);
    var b2 := GetMidpoint(orig, normalize, b1, f.v2, f.v3).0;
    GetMidpointConsistent(orig, normalize, b1, f.v2, f.v3);
    GetMidpointConsistent(orig, normalize, b2, f.v3, f.v1);
  }

  lemma ChildrenValid(f: Face, cache: map<Edge, nat>, n: nat)
    requires ValidFace(f, n)
    requires FaceKeys(f) <= cache.Keys
    requires forall k :: k in FaceKeys(f) ==> cache[k] < n
    ensures ValidFaces(Children(f, cache), n)
  {
    assert Key(f.v1, f.v2) in FaceKeys(f);
    assert Key(f.v2, f.v3) in FaceKeys(f);
    assert Key(f.v3, f.v1) in FaceKeys(f);
  }

  /** The children of a face index only vertices present after the face is processed. */
  lemma ProcessFaceValid(orig: seq<Vec3>, normalize: Vec3 -> Vec3, b: Builder, f: Face)
    requires ValidFace(f, |orig|)
    requires Consistent(orig, normalize, b)
    ensures var r := ProcessFace(orig, normalize, b, f);
      ValidFaces(r.1, |r.0.verts|)
  {
    var r := ProcessFace(orig, normalize, b, f);
    ProcessFaceConsistent(orig, normalize, b, f);
    assert CacheSound(orig, normalize, r.0);
    assert PrefixKept(orig, r.0);
    ChildrenValid(f, r.0.cache, |r.0.verts|);
  }

  /** The first `i` faces have been expanded into the first `4 * i` output faces. */
  ghost predicate Expanded(faces: seq<Face>, i: nat, newFaces: seq<Face>, cache: map<Edge, nat>)
    requires i <= |faces| && |newFaces| == 4 * i
  {
    forall j :: 0 <= j < i ==>
      FaceKeys(faces[j]) <= cache.Keys && newFaces[4 * j..4 * j + 4] == Children(faces[j], cache)
  }

  lemma ExpandedStep(faces: seq<Face>, i: nat, newFaces: seq<Face>, c1: map<Edge, nat>, c2: map<Edge, nat>)
    requires i < |faces| && |newFaces| == 4 * i
    requires Expanded(faces, i, newFaces, c1)
    requires forall k :: k in c1 ==> k in c2 && c2[k] == c1[k]
    requires FaceKeys(faces[i]) <= c2.Keys
    ensures Expanded(faces, i + 1, newFaces + Children(faces[i], c2), c2)
  {
    var nf := newFaces + Children(faces[i], c2);
    forall j | 0 <= j < i + 1
      ensures FaceKeys(faces[j]) <= c2.Keys && nf[4 * j..4 * j + 4] == Children(faces[j], c2)
    {
      if j < i {
        ChildrenStable(faces[j], c1, c2);
        assert nf[4 * j..4 * j + 4] == newFaces[4 * j..4 * j + 4];
      } else {
        assert nf[4 * j..4 * j + 4] == Children(faces[i], c2);
      }
    }
  }

  /** The loop invariant of `subdivide` after the first `i` faces. */
  ghost predicate LoopInv(verts: seq<Vec3>, normalize: Vec3 -> Vec3, faces: seq<Face>, i: nat, b: Builder, newFaces: seq<Face>)
  {
    && i <= |faces|
    && Consistent(verts, normalize, b)
    && b.cache.Keys == EdgeSet(faces[..i])
    && |newFaces| == 4 * i
    && ValidFaces(newFaces, |b.verts|)
    && Expanded(faces, i, newFaces, b.cache)
  }

  lemma LoopInit(verts: seq<Vec3>, normalize: Vec3 -> Vec3, faces: seq<Face>)
    ensures LoopInv(verts, normalize, faces, 0, Builder(verts, map[]), [])
  {
    assert verts[..|verts|] == verts;
    assert faces[..0] == [];
  }

  lemma StepKeys(faces: seq<Face>, i: nat, c1: map<Edge, nat>, c2: map<Edge, nat>)
    requires i < |faces|
    requires c1.Keys == EdgeSet(faces[..i])
    requires c2.Keys == c1.Keys + FaceKeys(faces[i])
    ensures c2.Keys == EdgeSet(faces[..i + 1])
  {
    assert faces[..i + 1] == faces[..i] + [faces[i]];
    EdgeSetSnoc(faces[..i], faces[i]);
  }

  lemma StepValid(newFaces: seq<Face>, kids: seq<Face>, n: nat, n': nat)
    requires ValidFaces(newFaces, n) && n <= n'
    requires ValidFaces(kids, n')
    ensures ValidFaces(newFaces + kids, n')
  {
    ValidFacesConcat(newFaces, kids, n');
  }

  lemma LoopStep(verts: seq<Vec3>, normalize: Vec3 -> Vec3, faces: seq<Face>, i: nat, b: Builder, newFaces: seq<Face>)
    requires ValidFaces(faces, |verts|)
    requires i < |faces|
    requires LoopInv(verts, normalize, faces, i, b, newFaces)
    ensures var r := ProcessFace(verts, normalize, b, faces[i]);
      LoopInv(verts, normalize, faces, i + 1, r.0, newFaces + r.1)
  {
    var f := faces[i];
    assert ValidFace(f, |verts|);
    var r := ProcessFace(verts, normalize, b, f);
    ProcessFaceConsistent(verts, normalize, b, f);
    ProcessFaceValid(verts, normalize, b, f);
    ExpandedStep(faces, i, newFaces, b.cache, r.0.cache);
    StepKeys(faces, i, b.cache, r.0.cache);
    StepValid(newFaces, r.1, |b.verts|, |r.0.verts|);
  }

  /** What the loop invariant says once every face has been processed. */
  lemma LoopDone(verts: seq<Vec3>, normalize: Vec3 -> Vec3, faces: seq<Face>, b: Builder, newFaces: seq<Face>)
    requires LoopInv(verts, normalize, faces, |faces|, b, newFaces)
    ensures |newFaces| == 4 * |faces|
    ensures ValidFaces(newFaces, |b.verts|)
    ensures |verts| <= |b.verts| && b.verts[..|verts|] == verts
    ensures |b.verts| == |verts| + |EdgeSet(faces)|
    ensures b.cache.Keys == EdgeSet(faces)
    ensures CacheSound(verts, normalize, b)
    ensures Injective(b.cache)
    ensures Covered(verts, b)
    ensures forall i :: 0 <= i < |faces| ==>
      FaceKeys(faces[i]) <= b.cache.Keys && newFaces[4 * i..4 * i + 4] == Children(faces[i], b.cache)
  {
    assert faces[..|faces|] == faces;
    assert |b.cache.Keys| == |b.cache|;
  }

  /**
   What one call of `subdivide(verts, faces)` produces, given the midpoint
   cache it ends with: every face replaced by its four children, in order;
   the input vertices kept as a prefix; and exactly one new vertex per
   distinct undirected edge, at its own index, holding the edge's midpoint.
   */
  ghost predicate IsSubdivision(verts: seq<Vec3>, faces: seq<Face>, normalize: Vec3 -> Vec3,
                                newVerts: seq<Vec3>, newFaces: seq<Face>, cache: map<Edge, nat>)
  {
    && |newFaces| == 4 * |faces|
    && ValidFaces(newFaces, |newVerts|)
    && |verts| <= |newVerts| && newVerts[..|verts|] == verts
    && |newVerts| == |verts| + |EdgeSet(faces)|
    && cache.Keys == EdgeSet(faces)
    && (forall e :: e in cache ==>
         && e.0 <= e.1 < |verts|
         && |verts| <= cache[e] < |newVerts|
         && newVerts[cache[e]] == EdgeMid(verts, normalize, e))
    && (forall e1, e2 :: e1 in cache && e2 in cache && e1 != e2 ==> cache[e1] != cache[e2])
    && (forall j :: |verts| <= j < |newVerts| ==> j in cache.Values)
    && (forall i :: 0 <= i < |faces| ==>
         FaceKeys(faces[i]) <= cache.Keys && newFaces[4 * i..4 * i + 4] == Children(faces[i], cache))
  }

  /**
   `subdivide(verts, faces)`: replaces every face by its four children and
   appends one new vertex per distinct undirected edge. The returned cache is
   the midpoint cache at the end of the call.
   */
  method Subdivide(verts: seq<Vec3>, faces: seq<Face>, normalize: Vec3 -> Vec3)
    returns (newVerts: seq<Vec3>, newFaces: seq<Face>, cache: map<Edge, nat>)
    requires ValidFaces(faces, |verts|)
    ensures IsSubdivision(verts, faces, normalize, newVerts, newFaces, cache)
  {
    var b := Builder(verts, map[]);
    newFaces := [];
    LoopInit(verts, normalize, faces);
    for i := 0 to |faces|
      invariant LoopInv(verts, normalize, faces, i, b, newFaces)
    {
      LoopStep(verts, normalize, faces, i, b, newFaces);
      var r := ProcessFace(verts, normalize, b, faces[i]);
      newFaces := newFaces + r.1;
      b := r.0;
    }
    LoopDone(verts, normalize, faces, b, newFaces);
    newVerts := b.verts;
    cache := b.cache;
  }
}
