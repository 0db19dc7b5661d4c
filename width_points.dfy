/** The records the stroke builder works on: width points (a position on the
    spline, a width and the cap style on each face) and dash items, and the
    ordering by position that every `sort` of the builder uses. */
module WidthPoints {

  /** WidthPoint side types. Interpolate means "blend with the neighbouring
      width point"; every other value asks for a cap of that shape. */
  datatype SideType = Interpolate | Rounded | Squared | Peak | Flat

  /** A width point: position along the spline, width, the side types before
      and after it, and whether it was generated by the dash expansion. */
  datatype WidthPoint = WidthPoint(position: real, width: real, before: SideType, after: SideType, dash: bool)

  /** One dash item: a gap of length `offset` followed by an opaque run of
      length `length`, with the side types at the run's two ends. */
  datatype DashItem = DashItem(offset: real, length: real, before: SideType, after: SideType)

  /** WidthPoint's operator< compares positions; a list is sorted when the
      positions never decrease. */
  ghost predicate Sorted(s: seq<WidthPoint>)
  {
    forall i, j :: 0 <= i < j < |s| ==> s[i].position <= s[j].position
  }

  /** Positions strictly increase: no two width points share a position. */
  ghost predicate StrictlySorted(s: seq<WidthPoint>)
  {
    forall i, j :: 0 <= i < j < |s| ==> s[i].position < s[j].position
  }

  /** Inserts `w` in front of the first element that is not smaller than it. */
  function Insert(w: WidthPoint, s: seq<WidthPoint>): (r: seq<WidthPoint>)
    requires Sorted(s)
    ensures Sorted(r)
    ensures multiset(r) == multiset(s) + multiset{w}
    ensures |r| == |s| + 1
    ensures forall x :: x in r <==> x == w || x in s
  {
    if |s| == 0 then [w]
    else if w.position <= s[0].position then [w] + s
    else
      var tail := Insert(w, s[1..]);
      assert s == [s[0]] + s[1..];
      assert forall j :: 0 <= j < |tail| ==> s[0].position <= tail[j].position by {
        forall j | 0 <= j < |tail|
          ensures s[0].position <= tail[j].position
        {
          assert tail[j] in tail;
        }
      }
      ConsSorted(s[0], tail);
      ConsMembers(w, s, tail);
      [s[0]] + tail
  }

  /** A point no later than any point of a sorted list can go in front. */
  lemma ConsSorted(h: WidthPoint, tail: seq<WidthPoint>)
    requires Sorted(tail)
    requires forall j :: 0 <= j < |tail| ==> h.position <= tail[j].position
    ensures Sorted([h] + tail)
  {
    var r := [h] + tail;
    forall i, j | 0 <= i < j < |r|
      ensures r[i].position <= r[j].position
    {
      assert r[j] == tail[j - 1];
      if i > 0 {
        assert r[i] == tail[i - 1];
      }
    }
  }

  /** Putting the head of `s` back in front of `tail`, which holds the
      rest of `s` and `w`, gives `s` and `w`. */
  lemma ConsMembers(w: WidthPoint, s: seq<WidthPoint>, tail: seq<WidthPoint>)
    requires |s| > 0
    requires multiset(tail) == multiset(s[1..]) + multiset{w}
    requires forall x :: x in tail <==> x == w || x in s[1..]
    ensures multiset([s[0]] + tail) == multiset(s) + multiset{w}
    ensures forall x :: x in [s[0]] + tail <==> x == w || x in s
  {
    assert s == [s[0]] + s[1..];
  }

  /** std::sort on a width point list: a sorted permutation of it. The
      order of width points with equal positions is not specified by
      std::sort; this one puts later points before earlier ones at the
      same position (see TieOrder). */
  function SortByPosition(s: seq<WidthPoint>): (r: seq<WidthPoint>)
    ensures Sorted(r)
    ensures multiset(r) == multiset(s)
    ensures |r| == |s|
  {
    if |s| == 0 then []
    else
      assert s == s[..|s| - 1] + [s[|s| - 1]];
      Insert(s[|s| - 1], SortByPosition(s[..|s| - 1]))
  }

  /** Of two points at the same position, the later one comes first. */
  lemma TieOrder(a: WidthPoint, b: WidthPoint)
    requires a.position == b.position
    ensures SortByPosition([a, b]) == [b, a]
  {
    assert [a, b][..1] == [a];
    assert SortByPosition([a]) == [a] by {
      assert [a][..0] == [];
    }
  }

  /** The smallest position in a sorted list is at its front. */
  lemma {:induction false} SortedFrontIsLeast(s: seq<WidthPoint>, x: WidthPoint)
    requires Sorted(s) && x in multiset(s)
    ensures s[0].position <= x.position <= s[|s| - 1].position
  {
    var i :| 0 <= i < |s| && s[i] == x;
  }
}
