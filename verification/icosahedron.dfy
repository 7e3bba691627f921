/**
 The base mesh: the twelve golden-ratio vertices and the fixed table of twenty
 faces of a regular icosahedron.
 */
module Icosahedron {
  import opened Geometry
  import opened Mesh

  /**
   The twelve vertices (±1, ±t, 0), (0, ±1, ±t), (±t, 0, ±1) in the order of
   the source table; `t` is the golden ratio `(1 + sqrt(5)) / 2`, an input here.
   */
  function RawVertices(t: real): (vs: seq<Vec3>)
    ensures |vs| == 12
  {
    [Vec3(-1.0, t, 0.0), Vec3(1.0, t, 0.0), Vec3(-1.0, -t, 0.0), Vec3(1.0, -t, 0.0),
     Vec3(0.0, -1.0, t), Vec3(0.0, 1.0, t), Vec3(0.0, -1.0, -t), Vec3(0.0, 1.0, -t),
     Vec3(t, 0.0, -1.0), Vec3(t, 0.0, 1.0), Vec3(-t, 0.0, -1.0), Vec3(-t, 0.0, 1.0)]
  }

  /** The vertex list returned by `get_icosahedron`: the raw table, each row projected by `normalize`. */
  function Vertices(t: real, normalize: Vec3 -> Vec3): (vs: seq<Vec3>)
    ensures |vs| == 12
  {
    seq(12, i requires 0 <= i < 12 => normalize(RawVertices(t)[i]))
  }

  /* The face table, in the four rows of five in which the source writes it:
     the five faces around vertex 0, the upper and lower halves of the middle
     band, and the five faces around vertex 3. */
  const Row0: seq<Face> := [Face(0, 11, 5), Face(0, 5, 1), Face(0, 1, 7), Face(0, 7, 10), Face(0, 10, 11)]
  const Row1: seq<Face> := [Face(1, 5, 9), Face(5, 11, 4), Face(11, 10, 2), Face(10, 7, 6), Face(7, 1, 8)]
  const Row2: seq<Face> := [Face(3, 9, 4), Face(3, 4, 2), Face(3, 2, 6), Face(3, 6, 8), Face(3, 8, 9)]
  const Row3: seq<Face> := [Face(4, 9, 5), Face(2, 4, 11), Face(6, 2, 10), Face(8, 6, 7), Face(9, 8, 1)]

  /** The twenty faces, in the order and winding of the source table. */
  const Faces: seq<Face> := Row0 + Row1 + Row2 + Row3

  /** Edges of the cap of five faces around vertex 0. */
  const TopCap: set<Edge> := {(0, 1), (0, 5), (0, 7), (0, 10), (0, 11), (1, 5), (1, 7), (5, 11), (7, 10), (10, 11)}
  /** Edges of the cap of five faces around vertex 3. */
  const BottomCap: set<Edge> := {(2, 3), (2, 4), (2, 6), (3, 4), (3, 6), (3, 8), (3, 9), (4, 9), (6, 8), (8, 9)}
  /** The zig-zag edges of the middle band, joining the two caps' rims. */
  const Band: set<Edge> := {(1, 8), (1, 9), (2, 10), (2, 11), (4, 5), (4, 11), (5, 9), (6, 7), (6, 10), (7, 8)}

  /** The thirty undirected edges of the icosahedron. */
  const Edges: set<Edge> := TopCap + BottomCap + Band

  /** How many faces of the table, counted row by row, contain `e`. */
  function RowCount(e: Edge): nat
  {
    FaceCount(Row0, e) + FaceCount(Row1, e) + FaceCount(Row2, e) + FaceCount(Row3, e)
  }

  /** The table has twenty faces, all indexing the twelve vertices. */
  lemma FacesValid()
    ensures |Faces| == 20
    ensures ValidFaces(Faces, 12)
  {
    assert ValidFaces(Row0, 12);
    assert ValidFaces(Row1, 12);
    assert ValidFaces(Row2, 12);
    assert ValidFaces(Row3, 12);
    ValidFacesConcat(Row0, Row1, 12);
    ValidFacesConcat(Row0 + Row1, Row2, 12);
    ValidFacesConcat(Row0 + Row1 + Row2, Row3, 12);
  }

  lemma TopCapSize() ensures |TopCap| == 10 {}
  lemma BottomCapSize() ensures |BottomCap| == 10 {}
  lemma BandSize() ensures |Band| == 10 {}

  lemma CapsDisjoint() ensures TopCap * BottomCap == {} {}
  lemma TopCapBandDisjoint() ensures TopCap * Band == {} {}
  lemma BottomCapBandDisjoint() ensures BottomCap * Band == {} {}

  lemma EdgesCount()
    ensures |Edges| == 30
  {
    TopCapSize();
    BottomCapSize();
    BandSize();
    CapsDisjoint();
    TopCapBandDisjoint();
    BottomCapBandDisjoint();
    assert (TopCap + BottomCap) * Band == {};
  }

  lemma Row0Edges() ensures EdgeSet(Row0) == TopCap {}
  lemma Row1Edges() ensures Band <= EdgeSet(Row1) <= TopCap + Band {}
  lemma Row2Edges() ensures EdgeSet(Row2) == BottomCap {}
  lemma Row3Edges() ensures EdgeSet(Row3) <= Edges {}

  /** The table's edges are exactly the thirty edges above. */
  lemma EdgeSetOfFaces()
    ensures EdgeSet(Faces) == Edges
  {
    EdgeSetConcat(Row0, Row1);
    EdgeSetConcat(Row0 + Row1, Row2);
    EdgeSetConcat(Row0 + Row1 + Row2, Row3);
    Row0Edges();
    Row1Edges();
    Row2Edges();
    Row3Edges();
  }

  lemma FaceCountRows(e: Edge)
    ensures FaceCount(Faces, e) == RowCount(e)
  {
    FaceCountConcat(Row0, Row1, e);
    FaceCountConcat(Row0 + Row1, Row2, e);
    FaceCountConcat(Row0 + Row1 + Row2, Row3, e);
  }

  /* One lemma per edge: each evaluates the face count of one concrete edge
     over the four rows, kept apart so that every evaluation stays small. */
  lemma Shared0_1() ensures RowCount((0, 1)) == 2 {}
  lemma Shared0_5() ensures RowCount((0, 5)) == 2 {}
  lemma Shared0_7() ensures RowCount((0, 7)) == 2 {}
  lemma Shared0_10() ensures RowCount((0, 10)) == 2 {}
  lemma Shared0_11() ensures RowCount((0, 11)) == 2 {}
  lemma Shared1_5() ensures RowCount((1, 5)) == 2 {}
  lemma Shared1_7() ensures RowCount((1, 7)) == 2 {}
  lemma Shared5_11() ensures RowCount((5, 11)) == 2 {}
  lemma Shared7_10() ensures RowCount((7, 10)) == 2 {}
  lemma Shared10_11() ensures RowCount((10, 11)) == 2 {}
  lemma Shared2_3() ensures RowCount((2, 3)) == 2 {}
  lemma Shared2_4() ensures RowCount((2, 4)) == 2 {}
  lemma Shared2_6() ensures RowCount((2, 6)) == 2 {}
  lemma Shared3_4() ensures RowCount((3, 4)) == 2 {}
  lemma Shared3_6() ensures RowCount((3, 6)) == 2 {}
  lemma Shared3_8() ensures RowCount((3, 8)) == 2 {}
  lemma Shared3_9() ensures RowCount((3, 9)) == 2 {}
  lemma Shared4_9() ensures RowCount((4, 9)) == 2 {}
  lemma Shared6_8() ensures RowCount((6, 8)) == 2 {}
  lemma Shared8_9() ensures RowCount((8, 9)) == 2 {}
  lemma Shared1_8() ensures RowCount((1, 8)) == 2 {}
  lemma Shared1_9() ensures RowCount((1, 9)) == 2 {}
  lemma Shared2_10() ensures RowCount((2, 10)) == 2 {}
  lemma Shared2_11() ensures RowCount((2, 11)) == 2 {}
  lemma Shared4_5() ensures RowCount((4, 5)) == 2 {}
  lemma Shared4_11() ensures RowCount((4, 11)) == 2 {}
  lemma Shared5_9() ensures RowCount((5, 9)) == 2 {}
  lemma Shared6_7() ensures RowCount((6, 7)) == 2 {}
  lemma Shared6_10() ensures RowCount((6, 10)) == 2 {}
  lemma Shared7_8() ensures RowCount((7, 8)) == 2 {}

  lemma TopCapShared()
    ensures forall e :: e in TopCap ==> RowCount(e) == 2
  {
    Shared0_1();
    Shared0_5();
    Shared0_7();
    Shared0_10();
    Shared0_11();
    Shared1_5();
    Shared1_7();
    Shared5_11();
    Shared7_10();
    Shared10_11();
  }

  lemma BottomCapShared()
    ensures forall e :: e in BottomCap ==> RowCount(e) == 2
  {
    Shared2_3();
    Shared2_4();
    Shared2_6();
    Shared3_4();
    Shared3_6();
    Shared3_8();
    Shared3_9();
    Shared4_9();
    Shared6_8();
    Shared8_9();
  }

  lemma BandShared()
    ensures forall e :: e in Band ==> RowCount(e) == 2
  {
    Shared1_8();
    Shared1_9();
    Shared2_10();
    Shared2_11();
    Shared4_5();
    Shared4_11();
    Shared5_9();
    Shared6_7();
    Shared6_10();
    Shared7_8();
  }

  /**
   The face table is a closed triangulation: it has exactly thirty distinct
   undirected edges and each of them lies in exactly two faces.
   */
  lemma FaceTableClosed()
    ensures |EdgeSet(Faces)| == 30
    ensures Closed(Faces)
  {
    EdgeSetOfFaces();
    EdgesCount();
    TopCapShared();
    BottomCapShared();
    BandShared();
    forall e | e in EdgeSet(Faces)
      ensures FaceCount(Faces, e) == 2
    {
      FaceCountRows(e);
    }
  }
}
