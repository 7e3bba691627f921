/**
 Combinatorial vocabulary of a triangle mesh: faces are ordered triples of
 vertex indices, and an undirected edge is identified by its sorted index
 pair, which is also the key of the midpoint cache used by subdivision.
 */
module Mesh {

  /** A face: three vertex indices, in winding order. */
  datatype Face = Face(v1: nat, v2: nat, v3: nat)

  /** An undirected edge, written as a sorted pair of vertex indices. */
  type Edge = (nat, nat)

  /** The sorted pair of two indices, i.e. `tuple(sorted((i, j)))`. */
  function Key(i: nat, j: nat): (k: Edge)
    ensures k.0 <= k.1
    ensures (k.0 == i && k.1 == j) || (k.0 == j && k.1 == i)
  {
    if i <= j then (i, j) else (j, i)
  }

  /** The three undirected edges of a face. */
  function FaceKeys(f: Face): set<Edge>
  {
    {Key(f.v1, f.v2), Key(f.v2, f.v3), Key(f.v3, f.v1)}
  }

  /** All undirected edges of a list of faces. */
  function EdgeSet(fs: seq<Face>): set<Edge>
  {
    if |fs| == 0 then {} else FaceKeys(fs[0]) + EdgeSet(fs[1..])
  }

  predicate ValidFace(f: Face, n: nat)
  {
    f.v1 < n && f.v2 < n && f.v3 < n
  }

  /** Every index of every face is a valid index into a vertex list of length `n`. */
  predicate ValidFaces(fs: seq<Face>, n: nat)
  {
    forall i :: 0 <= i < |fs| ==> ValidFace(fs[i], n)
  }

  /** How many faces of `fs` have `e` as one of their edges. */
  function FaceCount(fs: seq<Face>, e: Edge): nat
  {
    if |fs| == 0 then 0
    else (if e in FaceKeys(fs[0]) then 1 else 0) + FaceCount(fs[1..], e)
  }

  /** Manifold closure: every edge of the mesh borders exactly two faces. */
  predicate Closed(fs: seq<Face>)
  {
    forall e :: e in EdgeSet(fs) ==> FaceCount(fs, e) == 2
  }

  lemma {:induction false} EdgeSetConcat(a: seq<Face>, b: seq<Face>)
    ensures EdgeSet(a + b) == EdgeSet(a) + EdgeSet(b)
  {
    if |a| > 0 {
      assert (a + b)[1..] == a[1..] + b;
      EdgeSetConcat(a[1..], b);
    } else {
      assert a + b == b;
    }
  }

  lemma {:induction false} FaceCountConcat(a: seq<Face>, b: seq<Face>, e: Edge)
    ensures FaceCount(a + b, e) == FaceCount(a, e) + FaceCount(b, e)
  {
    if |a| > 0 {
      assert (a + b)[1..] == a[1..] + b;
      FaceCountConcat(a[1..], b, e);
    } else {
      assert a + b == b;
    }
  }

  /** Growing a face list by one face adds exactly that face's edges. */
  lemma EdgeSetSnoc(fs: seq<Face>, f: Face)
    ensures EdgeSet(fs + [f]) == EdgeSet(fs) + FaceKeys(f)
  {
    EdgeSetConcat(fs, [f]);
    assert EdgeSet([f]) == FaceKeys(f) + EdgeSet([]);
  }

  lemma ValidFacesConcat(a: seq<Face>, b: seq<Face>, n: nat)
    requires ValidFaces(a, n) && ValidFaces(b, n)
    ensures ValidFaces(a + b, n)
  {
  }
}
