/** Width profile preparation in Advanced_Outline::sync(): normalise and
    sort the width point list, then add the synthetic boundary points an
    open or a looped spline needs, and sort again. */
module Profile {
  import opened WidthPoints
  import opened External

  /** Every width point with its position replaced by `norm` of it. */
  function Normalised(ws: seq<WidthPoint>, norm: WidthPoint -> real): (r: seq<WidthPoint>)
  {
    seq(|ws|, i requires 0 <= i < |ws| => ws[i].(position := norm(ws[i])))
  }

  /** sync() lines 239-240: set_position(get_norm_position()) on each point;
      nothing but the position changes. */
  method Normalise(ws: seq<WidthPoint>, norm: WidthPoint -> real) returns (r: seq<WidthPoint>)
    ensures r == Normalised(ws, norm)
  {
    r := ws;
    var i := 0;
    while i < |r|
      invariant 0 <= i <= |r| == |ws|
      invariant forall k :: 0 <= k < i ==> r[k] == ws[k].(position := norm(ws[k]))
      invariant forall k :: i <= k < |r| ==> r[k] == ws[k]
    {
      r := r[i := r[i].(position := norm(r[i]))];
      i := i + 1;
    }
  }

  lemma NormalisedKeepsRest(ws: seq<WidthPoint>, norm: WidthPoint -> real, i: nat)
    requires i < |ws|
    ensures |Normalised(ws, norm)| == |ws|
    ensures Normalised(ws, norm)[i].position == norm(ws[i])
    ensures Normalised(ws, norm)[i].(position := ws[i].position) == ws[i]
  {
  }

  /** The synthetic points an open spline's sorted list `s` receives
      (lines 263-288): the global-width pair when `s` is empty, otherwise a
      start tip at 0.0 when the first point blends backwards and is not at
      0.0, and an end tip at 1.0 under the symmetric condition. */
  function OpenBoundary(s: seq<WidthPoint>, startTip: SideType, endTip: SideType): (added: seq<WidthPoint>)
    ensures |added| <= 2
    ensures forall p | p in added :: (p.position == 0.0 && p.before == startTip && p.after == Interpolate)
                                  || (p.position == 1.0 && p.before == Interpolate && p.after == endTip)
    ensures |s| == 0 ==> |added| == 2
    ensures |s| > 0 ==> ((exists p | p in added :: p.position == 0.0)
                          <==> s[0].before == Interpolate && s[0].position != 0.0)
    ensures |s| > 0 ==> ((exists p | p in added :: p.position == 1.0)
                          <==> s[|s| - 1].after == Interpolate && s[|s| - 1].position != 1.0)
    ensures |s| > 0 ==> |added| == (if s[0].before == Interpolate && s[0].position != 0.0 then 1 else 0)
                                  + (if s[|s| - 1].after == Interpolate && s[|s| - 1].position != 1.0 then 1 else 0)
    ensures |added| == 2 ==> added[0].position == 0.0 && added[1].position == 1.0
    ensures forall p | p in added :: !p.dash && p.width == (if |s| == 0 then 1.0
                                                         else if p.position == 0.0 then s[0].width
                                                         else s[|s| - 1].width)
  {
    if |s| == 0 then
      [WidthPoint(0.0, 1.0, startTip, Interpolate, false), WidthPoint(1.0, 1.0, Interpolate, endTip, false)]
    else
      var front, back := s[0], s[|s| - 1];
      (if front.before == Interpolate && front.position != 0.0
       then [WidthPoint(0.0, front.width, startTip, Interpolate, false)] else [])
      + (if back.after == Interpolate && back.position != 1.0
         then [WidthPoint(1.0, back.width, Interpolate, endTip, false)] else [])
  }

  /** What the looped branch (lines 289-336) adds, with the two flags. */
  datatype LoopBoundary = LoopBoundary(added: seq<WidthPoint>, insertedFirst: bool, insertedLast: bool)

  /** An end point of a looped list as the width interpolation sees it:
      moved to its homogeneous position unless the list already holds
      homogeneous positions, or `fast`. */
  function InterpolationEnd(p: WidthPoint, homogeneous: bool, fast: bool, h: Helpers): (q: WidthPoint)
    ensures q.(position := p.position) == p
    ensures q.position == if !homogeneous && !fast then h.stdToHom(p.position) else p.position
  {
    if !homogeneous && !fast then p.(position := h.stdToHom(p.position)) else p
  }

  /** The synthetic points a looped spline's sorted list `s` receives.
      Their width interpolates between the last and the first point (moved
      to homogeneous positions unless the list already is, or `fast`). */
  function LoopedBoundary(s: seq<WidthPoint>, homogeneous: bool, fast: bool, h: Helpers): (b: LoopBoundary)
    ensures |b.added| <= 2
    ensures |s| == 0 ==> |b.added| == 2
    ensures forall p | p in b.added :: p.before == Interpolate && p.after == Interpolate && !p.dash
    ensures forall p | p in b.added :: p.position == 0.0 || p.position == 1.0
    ensures |s| > 0 && s[0].before != Interpolate && s[|s| - 1].after != Interpolate ==> b.added == []
    ensures b.insertedFirst <==> |s| > 0 && (exists p | p in b.added :: p.position == 0.0)
    ensures b.insertedLast <==> |s| > 0 && (exists p | p in b.added :: p.position == 1.0)
    ensures b.insertedFirst <==> |s| > 0 && (s[0].before == Interpolate || s[|s| - 1].after == Interpolate)
                                 && s[0].position != 0.0
    ensures b.insertedLast <==> |s| > 0 && (s[0].before == Interpolate || s[|s| - 1].after == Interpolate)
                                && s[|s| - 1].position != 1.0
    ensures |s| > 0 ==> |b.added| == (if b.insertedFirst then 1 else 0) + (if b.insertedLast then 1 else 0)
    ensures |b.added| == 2 ==> b.added[0].position == 0.0 && b.added[1].position == 1.0
    ensures forall p | p in b.added ::
      p.width == if |s| == 0 then 1.0
                 else h.interpolate(InterpolationEnd(s[|s| - 1], homogeneous, fast, h),
                                    InterpolationEnd(s[0], homogeneous, fast, h), p.position)
  {
    if |s| == 0 then
      LoopBoundary([WidthPoint(0.0, 1.0, Interpolate, Interpolate, false),
                    WidthPoint(1.0, 1.0, Interpolate, Interpolate, false)], false, false)
    else
      var front, back := s[0], s[|s| - 1];
      if front.before == Interpolate || back.after == Interpolate then
        var i := InterpolationEnd(back, homogeneous, fast, h);
        var n := InterpolationEnd(front, homogeneous, fast, h);
        var first := front.position != 0.0;
        var last := back.position != 1.0;
        LoopBoundary(
          (if first then [WidthPoint(0.0, h.interpolate(i, n, 0.0), Interpolate, Interpolate, false)] else [])
          + (if last then [WidthPoint(1.0, h.interpolate(i, n, 1.0), Interpolate, Interpolate, false)] else []),
          first, last)
      else
        LoopBoundary([], false, false)
  }

  /** The prepared width point list and the two flags of the looped case. */
  datatype Prepared = Prepared(wplist: seq<WidthPoint>, insertedFirst: bool, insertedLast: bool)

  /** The prepared list: the normalised list sorted, with the synthetic
      boundary points of an open or a looped spline added, sorted again. */
  function PreparedList(ws: seq<WidthPoint>, blineLoop: bool, homogeneous: bool, fast: bool,
                        startTip: SideType, endTip: SideType, h: Helpers): Prepared
  {
    var s := SortByPosition(Normalised(ws, h.normPosition));
    if !blineLoop then
      Prepared(SortByPosition(s + OpenBoundary(s, startTip, endTip)), false, false)
    else
      var b := LoopedBoundary(s, homogeneous, fast, h);
      Prepared(SortByPosition(s + b.added), b.insertedFirst, b.insertedLast)
  }

  /** sync() lines 238-338: normalise, sort, append the synthetic boundary
      points, sort again. */
  method PrepareWidthList(ws: seq<WidthPoint>, blineLoop: bool, homogeneous: bool, fast: bool,
                          startTip: SideType, endTip: SideType, h: Helpers)
    returns (p: Prepared)
    ensures Sorted(p.wplist) && |p.wplist| >= 1
    ensures p == PreparedList(ws, blineLoop, homogeneous, fast, startTip, endTip, h)
  {
    var wplist := Normalise(ws, h.normPosition);
    wplist := SortByPosition(wplist);
    var insertedFirst, insertedLast := false, false;
    if !blineLoop {
      wplist := AddOpenBoundary(wplist, startTip, endTip);
    } else {
      wplist, insertedFirst, insertedLast := AddLoopedBoundary(wplist, homogeneous, fast, h);
    }
    wplist := SortByPosition(wplist);
    p := Prepared(wplist, insertedFirst, insertedLast);
  }

  /** Lines 263-288: the open spline's push_backs. */
  method AddOpenBoundary(s: seq<WidthPoint>, startTip: SideType, endTip: SideType)
    returns (wplist: seq<WidthPoint>)
    ensures wplist == s + OpenBoundary(s, startTip, endTip)
  {
    wplist := s;
    if |wplist| > 0 {
      var wpfront, wpback := wplist[0], wplist[|wplist| - 1];
      if wpfront.before == Interpolate && wpfront.position != 0.0 {
        wplist := wplist + [WidthPoint(0.0, wpfront.width, startTip, Interpolate, false)];
      }
      if wpback.after == Interpolate && wpback.position != 1.0 {
        wplist := wplist + [WidthPoint(1.0, wpback.width, Interpolate, endTip, false)];
      }
    } else {
      wplist := wplist + [WidthPoint(0.0, 1.0, startTip, Interpolate, false)];
      wplist := wplist + [WidthPoint(1.0, 1.0, Interpolate, endTip, false)];
    }
  }

  /** Lines 289-336: the looped spline's push_backs and the two flags. */
  method AddLoopedBoundary(s: seq<WidthPoint>, homogeneous: bool, fast: bool, h: Helpers)
    returns (wplist: seq<WidthPoint>, insertedFirst: bool, insertedLast: bool)
    ensures wplist == s + LoopedBoundary(s, homogeneous, fast, h).added
    ensures insertedFirst == LoopedBoundary(s, homogeneous, fast, h).insertedFirst
    ensures insertedLast == LoopedBoundary(s, homogeneous, fast, h).insertedLast
  {
    wplist := s;
    insertedFirst, insertedLast := false, false;
    if |wplist| > 0 {
      var wpfront, wpback := wplist[0], wplist[|wplist| - 1];
      var wpfbInt := wpfront.before == Interpolate;
      var wpbaInt := wpback.after == Interpolate;
      if wpfbInt || wpbaInt {
        if wpfront.position != 0.0 {
          var i, n := wpback, wpfront;
          if !homogeneous && !fast {
            i := i.(position := h.stdToHom(i.position));
            n := n.(position := h.stdToHom(n.position));
          }
          wplist := wplist + [WidthPoint(0.0, h.interpolate(i, n, 0.0), Interpolate, Interpolate, false)];
          insertedFirst := true;
        }
        if wpback.position != 1.0 {
          var i, n := wpback, wpfront;
          if !homogeneous && !fast {
            i := i.(position := h.stdToHom(i.position));
            n := n.(position := h.stdToHom(n.position));
          }
          wplist := wplist + [WidthPoint(1.0, h.interpolate(i, n, 1.0), Interpolate, Interpolate, false)];
          insertedLast := true;
        }
      }
    } else {
      wplist := wplist + [WidthPoint(0.0, 1.0, Interpolate, Interpolate, false)];
      wplist := wplist + [WidthPoint(1.0, 1.0, Interpolate, Interpolate, false)];
    }
  }

  /** All positions of `s` lie in [0, 1]. */
  ghost predicate InUnit(s: seq<WidthPoint>)
  {
    forall i :: 0 <= i < |s| ==> 0.0 <= s[i].position <= 1.0
  }

  /** The front and back of a sorted permutation of `u` are an element of
      `u` with the least and the greatest position. */
  lemma {:induction false} SortedPermutationEnds(r: seq<WidthPoint>, u: seq<WidthPoint>)
    requires Sorted(r) && multiset(r) == multiset(u) && |u| > 0
    ensures |r| == |u|
    ensures r[0] in u && r[|r| - 1] in u
    ensures forall x | x in u :: r[0].position <= x.position <= r[|r| - 1].position
  {
    assert |r| == |multiset(r)| == |multiset(u)| == |u|;
    assert r[0] in multiset(r) && r[|r| - 1] in multiset(r);
    forall x | x in u ensures r[0].position <= x.position <= r[|r| - 1].position {
      assert x in multiset(u);
      SortedFrontIsLeast(r, x);
    }
  }

  /** Open spline: after preparation the profile starts at 0.0 or with a
      cap (a non-Interpolate side before), and ends at 1.0 or with a cap,
      whatever order the sort leaves equal positions in; for an input list
      with distinct positions in [0, 1]. */
  lemma {:induction false} OpenProfileCovered(s: seq<WidthPoint>, startTip: SideType, endTip: SideType, r: seq<WidthPoint>)
    requires StrictlySorted(s) && InUnit(s)
    requires Sorted(r) && multiset(r) == multiset(s + OpenBoundary(s, startTip, endTip))
    ensures |r| >= 1
    ensures r[0].position == 0.0 || r[0].before != Interpolate
    ensures r[|r| - 1].position == 1.0 || r[|r| - 1].after != Interpolate
  {
    var added := OpenBoundary(s, startTip, endTip);
    var u := s + added;
    if |s| == 0 {
      assert added[0] in u && added[1] in u;
      SortedPermutationEnds(r, u);
    } else {
      assert s[0] in u && s[|s| - 1] in u;
      SortedPermutationEnds(r, u);
      OpenStart(s, startTip, endTip, r);
      OpenEnd(s, startTip, endTip, r);
    }
  }

  lemma {:induction false} OpenStart(s: seq<WidthPoint>, startTip: SideType, endTip: SideType, r: seq<WidthPoint>)
    requires StrictlySorted(s) && InUnit(s) && |s| > 0
    requires |r| > 0 && r[0] in s + OpenBoundary(s, startTip, endTip)
    requires forall x | x in s + OpenBoundary(s, startTip, endTip) :: r[0].position <= x.position
    ensures r[0].position == 0.0 || r[0].before != Interpolate
  {
    var added := OpenBoundary(s, startTip, endTip);
    var u := s + added;
    var front := s[0];
    assert front in u;
    assert forall x | x in u :: 0.0 <= x.position;
    if front.before == Interpolate && front.position != 0.0 {
      var p0 :| p0 in added && p0.position == 0.0;
      assert p0 in u;
    } else if front.position != 0.0 {
      if r[0] in s {
        var k :| 0 <= k < |s| && s[k] == r[0];
        assert k == 0;
      }
    }
  }

  lemma {:induction false} OpenEnd(s: seq<WidthPoint>, startTip: SideType, endTip: SideType, r: seq<WidthPoint>)
    requires StrictlySorted(s) && InUnit(s) && |s| > 0
    requires |r| > 0 && r[|r| - 1] in s + OpenBoundary(s, startTip, endTip)
    requires forall x | x in s + OpenBoundary(s, startTip, endTip) :: x.position <= r[|r| - 1].position
    ensures r[|r| - 1].position == 1.0 || r[|r| - 1].after != Interpolate
  {
    var added := OpenBoundary(s, startTip, endTip);
    var u := s + added;
    var back, last := s[|s| - 1], r[|r| - 1];
    assert back in u;
    assert forall x | x in u :: x.position <= 1.0;
    if back.after == Interpolate && back.position != 1.0 {
      var p1 :| p1 in added && p1.position == 1.0;
      assert p1 in u;
    } else if back.position != 1.0 {
      if last in s {
        var k :| 0 <= k < |s| && s[k] == last;
        assert k == |s| - 1;
      }
    }
  }

  /** Looped spline: when the wrap boundary blends on either side, the
      prepared profile runs from exactly 0.0 to exactly 1.0. */
  lemma {:induction false} LoopedProfileSpansUnit(s: seq<WidthPoint>, homogeneous: bool, fast: bool, h: Helpers, r: seq<WidthPoint>)
    requires InUnit(s) && |s| > 0
    requires s[0].before == Interpolate || s[|s| - 1].after == Interpolate
    requires Sorted(r) && multiset(r) == multiset(s + LoopedBoundary(s, homogeneous, fast, h).added)
    ensures r[0].position == 0.0 && r[|r| - 1].position == 1.0
  {
    var b := LoopedBoundary(s, homogeneous, fast, h);
    var u := s + b.added;
    assert s[0] in u && s[|s| - 1] in u;
    SortedPermutationEnds(r, u);
    assert forall x | x in u :: 0.0 <= x.position <= 1.0;
    if s[0].position != 0.0 {
      var p0 :| p0 in b.added && p0.position == 0.0;
      assert p0 in u;
    }
    if s[|s| - 1].position != 1.0 {
      var p1 :| p1 in b.added && p1.position == 1.0;
      assert p1 in u;
    }
  }

  /** An open spline with no width point gets the global width from 0.0
      to 1.0, capped by the start and the end tip. */
  lemma OpenEmptyProfile(homogeneous: bool, fast: bool, startTip: SideType, endTip: SideType, h: Helpers)
    ensures PreparedList([], false, homogeneous, fast, startTip, endTip, h)
            == Prepared([WidthPoint(0.0, 1.0, startTip, Interpolate, false),
                         WidthPoint(1.0, 1.0, Interpolate, endTip, false)], false, false)
  {
    var s := SortByPosition(Normalised([], h.normPosition));
    assert s == [];
    var u := OpenBoundary(s, startTip, endTip);
    assert s + u == u == [u[0], u[1]];
    SortTwo(u[0], u[1]);
  }

  /** A looped spline with no width point gets the global width from 0.0
      to 1.0, blending on every side, and neither flag is set. */
  lemma LoopedEmptyProfile(homogeneous: bool, fast: bool, startTip: SideType, endTip: SideType, h: Helpers)
    ensures PreparedList([], true, homogeneous, fast, startTip, endTip, h)
            == Prepared([WidthPoint(0.0, 1.0, Interpolate, Interpolate, false),
                         WidthPoint(1.0, 1.0, Interpolate, Interpolate, false)], false, false)
  {
    var s := SortByPosition(Normalised([], h.normPosition));
    assert s == [];
    var b := LoopedBoundary(s, homogeneous, fast, h);
    assert s + b.added == b.added == [b.added[0], b.added[1]];
    SortTwo(b.added[0], b.added[1]);
  }

  /** Sorting two width points already in order leaves them in place. */
  lemma SortTwo(x: WidthPoint, y: WidthPoint)
    requires x.position < y.position
    ensures SortByPosition([x, y]) == [x, y]
  {
    assert [x, y][..1] == [x];
    assert [x][..0] == [];
  }
}
