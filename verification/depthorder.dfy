/**
 The painter's order of the 2D logo: triangles are drawn from the
 furthest (smallest depth) to the nearest, `np.argsort(z_depths)`, and each
 gets a fill opacity that grows linearly with its depth and is clamped to
 [0.4, 1.0].
 */
module DepthOrder {
  import opened Geometry

  /** The indices 0, 1, ..., n - 1. */
  function Range(n: nat): (r: seq<nat>)
    ensures |r| == n && forall i :: 0 <= i < n ==> r[i] == i
  {
    seq(n, i => i)
  }

  /** Every entry of `order` indexes `depths`. */
  predicate Indexes(order: seq<nat>, depths: seq<real>)
  {
    forall i :: 0 <= i < |order| ==> order[i] < |depths|
  }

  /** Reading `depths` through `order` gives a non-decreasing sequence. */
  predicate SortedBy(order: seq<nat>, depths: seq<real>)
    requires Indexes(order, depths)
  {
    forall i, j :: 0 <= i < j < |order| ==> depths[order[i]] <= depths[order[j]]
  }

  /** `order` lists every index of `depths` exactly once. */
  predicate IsPermutation(order: seq<nat>, n: nat)
  {
    multiset(order) == multiset(Range(n))
  }

  /** Inserts index `k` into an order already sorted by depth, before the first entry that is not shallower. */
  function Insert(order: seq<nat>, depths: seq<real>, k: nat): (r: seq<nat>)
    requires Indexes(order, depths) && SortedBy(order, depths) && k < |depths|
    ensures multiset(r) == multiset(order) + multiset{k}
    ensures Indexes(r, depths) && SortedBy(r, depths)
  {
    if |order| == 0 then [k]
    else if depths[k] <= depths[order[0]] then [k] + order
    else
      var rest := Insert(order[1..], depths, k);
      HeadBelowRest(order, depths, k, rest);
      [order[0]] + rest
  }

  /** Every entry that goes after the head of a sorted order is at least as deep as the head. */
  lemma HeadBelowRest(order: seq<nat>, depths: seq<real>, k: nat, rest: seq<nat>)
    requires |order| > 0 && Indexes(order, depths) && SortedBy(order, depths) && k < |depths|
    requires depths[order[0]] < depths[k]
    requires multiset(rest) == multiset(order[1..]) + multiset{k}
    requires Indexes(rest, depths) && SortedBy(rest, depths)
    ensures multiset([order[0]] + rest) == multiset(order) + multiset{k}
    ensures Indexes([order[0]] + rest, depths) && SortedBy([order[0]] + rest, depths)
  {
    assert order == [order[0]] + order[1..];
    forall i | 0 <= i < |rest|
      ensures depths[order[0]] <= depths[rest[i]]
    {
      assert rest[i] in multiset(rest);
      if rest[i] != k {
        assert rest[i] in multiset(order[1..]);
        var j :| 0 <= j < |order[1..]| && order[1..][j] == rest[i];
        assert order[j + 1] == rest[i];
      }
    }
    var r := [order[0]] + rest;
    forall i, j | 0 <= i < j < |r|
      ensures depths[r[i]] <= depths[r[j]]
    {
      if i > 0 {
        assert r[i] == rest[i - 1] && r[j] == rest[j - 1];
      } else {
        assert r[j] == rest[j - 1];
      }
    }
  }

  lemma RangeSnoc(n: nat)
    ensures multiset(Range(n + 1)) == multiset(Range(n)) + multiset{n}
  {
    assert Range(n + 1) == Range(n) + [n];
  }

  /**
   `np.argsort(z_depths)`: an order of the triangle indices by non-decreasing
   depth. The order among equal depths is not specified by the source's
   sort and is not claimed here.
   */
  method ArgSort(depths: seq<real>) returns (order: seq<nat>)
    ensures IsPermutation(order, |depths|)
    ensures Indexes(order, depths) && SortedBy(order, depths)
  {
    order := [];
    for k := 0 to |depths|
      invariant IsPermutation(order, k)
      invariant Indexes(order, depths) && SortedBy(order, depths)
    {
      RangeSnoc(k);
      order := Insert(order, depths, k);
    }
  }

  /** A permutation of the indices draws every triangle exactly once, and nothing else. */
  lemma PermutationDrawsEachOnce(order: seq<nat>, n: nat)
    requires IsPermutation(order, n)
    ensures |order| == n
    ensures forall i :: 0 <= i < |order| ==> order[i] < n
    ensures forall k :: 0 <= k < n ==> multiset(order)[k] == 1
  {
    assert |multiset(order)| == |multiset(Range(n))|;
    forall i | 0 <= i < |order|
      ensures order[i] < n
    {
      assert order[i] in multiset(Range(n));
    }
    forall k | 0 <= k < n
      ensures multiset(order)[k] == 1
    {
      RangeCount(n, k);
    }
  }

  lemma {:induction false} RangeCount(n: nat, k: nat)
    requires k < n
    ensures multiset(Range(n))[k] == 1
  {
    RangeSnoc(n - 1);
    if k < n - 1 {
      RangeCount(n - 1, k);
    } else {
      assert k !in multiset(Range(n - 1));
    }
  }

  /** `np.clip(x, lo, hi)`, which numpy computes as `minimum(maximum(x, lo), hi)`. */
  function Clip(x: real, lo: real, hi: real): real
  {
    var atLeast := if x < lo then lo else x;
    if atLeast > hi then hi else atLeast
  }

  /** Clipping to a non-empty interval lands in it, and leaves values already inside alone. */
  lemma ClipRange(x: real, lo: real, hi: real)
    requires lo <= hi
    ensures lo <= Clip(x, lo, hi) <= hi
    ensures lo <= x <= hi ==> Clip(x, lo, hi) == x
    ensures x <= lo ==> Clip(x, lo, hi) == lo
    ensures hi <= x ==> Clip(x, lo, hi) == hi
  {
  }

  lemma ClipMonotone(x: real, y: real, lo: real, hi: real)
    requires x <= y
    ensures Clip(x, lo, hi) <= Clip(y, lo, hi)
  {
  }

  /** The fill opacity of a triangle at depth `z`: `clip(0.6 + 0.4 * (z + 2.5) / 5.0, 0.4, 1.0)`. */
  function Opacity(z: real): real
  {
    Clip(0.6 + 0.4 * (z + 2.5) / 5.0, 0.4, 1.0)
  }

  /** The opacity is always between 0.4 and 1.0. */
  lemma OpacityBounds(z: real)
    ensures 0.4 <= Opacity(z) <= 1.0
  {
    ClipRange(0.6 + 0.4 * (z + 2.5) / 5.0, 0.4, 1.0);
  }

  /** Nearer triangles are never more transparent. */
  lemma OpacityMonotone(z1: real, z2: real)
    requires z1 <= z2
    ensures Opacity(z1) <= Opacity(z2)
  {
    ClipMonotone(0.6 + 0.4 * (z1 + 2.5) / 5.0, 0.6 + 0.4 * (z2 + 2.5) / 5.0, 0.4, 1.0);
  }

  /**
   Between depths -5 and 2.5 the opacity is the straight line 0.8 + 0.08 z;
   at or below -5 it is 0.4, at or above 2.5 it is 1.0.
   */
  lemma OpacityPiecewise(z: real)
    ensures -5.0 <= z <= 2.5 ==> Opacity(z) == 0.8 + 0.08 * z
    ensures z <= -5.0 ==> Opacity(z) == 0.4
    ensures 2.5 <= z ==> Opacity(z) == 1.0
  {
    var raw := 0.6 + 0.4 * (z + 2.5) / 5.0;
    assert raw == 0.8 + 0.08 * z;
    ClipRange(raw, 0.4, 1.0);
  }

  /** One drawn polygon: the flattened triangle and its fill opacity. */
  datatype Draw = Draw(tri: Tri2, opacity: real)

  /**
   The drawing loop of the logo scene: the triangles in `argsort` order,
   each with the opacity of its depth. `tris2` are the projected triangles
   and `depths` their depths, one per triangle.
   */
  method PaintOrder(tris2: seq<Tri2>, depths: seq<real>) returns (order: seq<nat>, draws: seq<Draw>)
    requires |tris2| == |depths|
    ensures IsPermutation(order, |depths|) && Indexes(order, depths) && SortedBy(order, depths)
    ensures |draws| == |order|
    ensures forall i :: 0 <= i < |draws| ==> draws[i] == Draw(tris2[order[i]], Opacity(depths[order[i]]))
    ensures forall i, j :: 0 <= i < j < |draws| ==> draws[i].opacity <= draws[j].opacity
  {
    order := ArgSort(depths);
    draws := [];
    for i := 0 to |order|
      invariant |draws| == i
      invariant forall j :: 0 <= j < i ==> draws[j] == Draw(tris2[order[j]], Opacity(depths[order[j]]))
      invariant forall a, b :: 0 <= a < b < i ==> draws[a].opacity <= draws[b].opacity
    {
      var k := order[i];
      forall a | 0 <= a < i
        ensures draws[a].opacity <= Opacity(depths[k])
      {
        OpacityMonotone(depths[order[a]], depths[k]);
      }
      draws := draws + [Draw(tris2[k], Opacity(depths[k]))];
    }
  }
}
