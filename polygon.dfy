/** The end of Advanced_Outline::sync() (lines 1014-1026): the two side
    buffers become the outline's polygons. add_polygon is modelled as
    appending to the list of polygons the layer draws. */
module Polygon {
  import opened Geometry
  import opened Sequences

  /** Lines 1021-1023: pop side b from its back onto side a until side b
      is empty. */
  method Stitch(sideA: seq<Point>, sideB: seq<Point>) returns (a: seq<Point>, b: seq<Point>)
    ensures a == sideA + Reversed(sideB)
    ensures b == []
  {
    a, b := sideA, sideB;
    while |b| > 0
      invariant b == sideB[..|b|]
      invariant a == sideA + Reversed(sideB[|b|..])
      decreases |b|
    {
      ghost var k := |b| - 1;
      assert Reversed(sideB[k..]) == Reversed(sideB[k + 1..]) + [sideB[k]] by {
        assert sideB[k..] == [sideB[k]] + sideB[k + 1..];
        ReversedAppend([sideB[k]], sideB[k + 1..]);
      }
      a := a + [b[|b| - 1]];
      b := b[..|b| - 1];
    }
  }

  /** Lines 1014-1026: a looped outline gives two polygons, side a and
      side b reversed (the outer and the inner boundary of a ring); an open
      outline gives one, side a followed by side b back to front. */
  method Assemble(sideA: seq<Point>, sideB: seq<Point>, blineLoop: bool) returns (polygons: seq<seq<Point>>)
    ensures blineLoop ==> polygons == [sideA, Reversed(sideB)]
    ensures !blineLoop ==> polygons == [sideA + Reversed(sideB)]
  {
    if blineLoop {
      var b := Reversed(sideB);
      polygons := [sideA, b];
      return;
    }
    var a, _ := Stitch(sideA, sideB);
    polygons := [a];
  }

  /** The open outline's polygon runs along side a, then back along side
      b: it holds every point of both sides, and its last point is side
      b's first, so the polygon closes from the start of side b to the
      start of side a. */
  lemma {:induction false} OpenPolygonShape(sideA: seq<Point>, sideB: seq<Point>)
    requires |sideB| > 0
    ensures var p := sideA + Reversed(sideB);
      && |p| == |sideA| + |sideB|
      && p[..|sideA|] == sideA
      && p[|p| - 1] == sideB[0]
      && p[|sideA|..] == Reversed(sideB)
      && p[|sideA|] == sideB[|sideB| - 1]
      && multiset(p) == multiset(sideA) + multiset(sideB)
  {
    var p := sideA + Reversed(sideB);
    ReversedMultiset(sideB);
    assert p[|p| - 1] == Reversed(sideB)[|sideB| - 1];
  }
}
