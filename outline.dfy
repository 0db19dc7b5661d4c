/** The stages of Advanced_Outline::sync() that run before the sampling
    loop, put together: the position tables, the prepared width point list,
    the dash width points and their merge, the fallback point that renders
    nothing, the move to homogeneous positions and the first and last tip
    fix-ups. */
module Outline {
  import opened WidthPoints
  import opened External
  import opened Positions
  import opened Profile
  import opened DashWalk
  import opened Dashes
  import opened Merge

  /** Line 575: the single width point that renders nothing. */
  const Nothing: WidthPoint := WidthPoint(0.5, 1.0, Flat, Flat, true)

  /** Lines 563-577: with dashes the working list is replaced by the
      filtered one and sorted; a list left empty becomes the point that
      renders nothing. Without dashes the list stays as it is. */
  method UseFiltered(wplist: seq<WidthPoint>, dashEnabled: bool, filtered: seq<WidthPoint>)
    returns (r: seq<WidthPoint>)
    requires Sorted(wplist)
    ensures Sorted(r) && |r| >= 1
    ensures var kept := if dashEnabled then filtered else wplist;
      if |kept| == 0 then r == [Nothing] else multiset(r) == multiset(kept)
    ensures !dashEnabled && |wplist| > 0 ==> r == wplist
  {
    r := wplist;
    if dashEnabled {
      r := filtered;
      r := SortByPosition(r);
    }
    if |r| == 0 {
      r := r + [Nothing];
    }
  }

  /** Every position of `s` is mapped by `f`; nothing else changes. */
  function MapPositions(s: seq<WidthPoint>, f: real -> real): (r: seq<WidthPoint>)
    ensures |r| == |s|
    ensures forall i :: 0 <= i < |s| ==> r[i] == s[i].(position := f(s[i].position))
  {
    seq(|s|, i requires 0 <= i < |s| => s[i].(position := f(s[i].position)))
  }

  /** Lines 584-589: unless the list already holds homogeneous positions,
      every position goes through std_to_hom. */
  method MakeHomogeneous(wplist: seq<WidthPoint>, homogeneous: bool, stdToHom: real -> real)
    returns (r: seq<WidthPoint>)
    ensures homogeneous ==> r == wplist
    ensures !homogeneous ==> r == MapPositions(wplist, stdToHom)
  {
    r := wplist;
    if !homogeneous {
      var i := 0;
      while i < |r|
        invariant 0 <= i <= |r| == |wplist|
        invariant forall k :: 0 <= k < i ==> r[k] == wplist[k].(position := stdToHom(wplist[k].position))
        invariant forall k :: i <= k < |r| ==> r[k] == wplist[k]
      {
        r := r[i := r[i].(position := stdToHom(r[i].position))];
        i := i + 1;
      }
    }
  }

  /** A position map that keeps the order of [0, 1]. */
  ghost predicate Monotone(f: real -> real)
  {
    forall x, y :: 0.0 <= x <= y <= 1.0 ==> f(x) <= f(y)
  }

  /** std_to_hom keeps a sorted list of positions in [0, 1] sorted. */
  lemma MapPositionsSorted(s: seq<WidthPoint>, f: real -> real)
    requires Sorted(s) && InUnit(s) && Monotone(f)
    ensures Sorted(MapPositions(s, f))
  {
    var r := MapPositions(s, f);
    forall i, j | 0 <= i < j < |r| ensures r[i].position <= r[j].position {
      assert s[i].position <= s[j].position;
    }
  }

  /** Two width points agree but for their side types. */
  predicate SameBut(a: WidthPoint, b: WidthPoint)
  {
    a.position == b.position && a.width == b.width && a.dash == b.dash
  }

  /** `s` with its first point's before side set to `b`, then its last
      point's after side set to `a` (the same point when there is one). */
  function WithEnds(s: seq<WidthPoint>, b: SideType, a: SideType): (r: seq<WidthPoint>)
    requires |s| >= 1
    ensures |r| == |s|
  {
    var t := s[0 := s[0].(before := b)];
    t[|t| - 1 := t[|t| - 1].(after := a)]
  }

  /** Setting the end sides changes those two sides and nothing else. */
  lemma WithEndsFrame(s: seq<WidthPoint>, b: SideType, a: SideType)
    requires |s| >= 1
    ensures var r := WithEnds(s, b, a);
      && (forall i :: 0 <= i < |r| ==> SameBut(r[i], s[i]))
      && (forall i :: 0 < i < |r| - 1 ==> r[i] == s[i])
      && (|r| > 1 ==> r[0].after == s[0].after && r[|r| - 1].before == s[|s| - 1].before)
      && r[0].before == b && r[|r| - 1].after == a
  {
  }

  /** Setting the end sides to what they are changes nothing, and a second
      setting overrides the first. */
  lemma {:induction false} WithEndsTwice(s: seq<WidthPoint>, b1: SideType, a1: SideType, b2: SideType, a2: SideType)
    requires |s| >= 1
    ensures WithEnds(s, s[0].before, s[|s| - 1].after) == s
    ensures WithEnds(WithEnds(s, b1, a1), b2, a2) == WithEnds(s, b2, a2)
  {
    var t := WithEnds(s, b1, a1);
    var u := WithEnds(t, b2, a2);
    var v := WithEnds(s, b2, a2);
    assert |u| == |v|;
    forall i | 0 <= i < |u| ensures u[i] == v[i] {
      if i == 0 && i == |s| - 1 {
        assert u[i] == s[i].(before := b2).(after := a2);
      } else if i == 0 {
        assert u[i] == s[i].(before := b2);
      } else if i == |s| - 1 {
        assert u[i] == s[i].(after := a2);
      }
    }
  }

  /** Lines 634-641: an open outline's first point at 0.0 takes the start
      tip as its before side and its last point at 1.0 the end tip as its
      after side (the dashes' own tips when dashing). */
  method FixOpenTips(wplist: seq<WidthPoint>, startTip: SideType, endTip: SideType)
    returns (r: seq<WidthPoint>)
    requires |wplist| >= 1
    ensures r == WithEnds(wplist, if wplist[0].position == 0.0 then startTip else wplist[0].before,
                                  if wplist[|wplist| - 1].position == 1.0 then endTip else wplist[|wplist| - 1].after)
    ensures |r| == |wplist|
    ensures forall i :: 0 <= i < |r| ==> SameBut(r[i], wplist[i])
    ensures forall i :: 0 < i < |r| - 1 ==> r[i] == wplist[i]
    ensures |r| > 1 ==> r[0].after == wplist[0].after && r[|r| - 1].before == wplist[|r| - 1].before
    ensures r[0].before == if wplist[0].position == 0.0 then startTip else wplist[0].before
    ensures r[|r| - 1].after == if wplist[|r| - 1].position == 1.0 then endTip else wplist[|r| - 1].after
  {
    r := wplist;
    var last := |r| - 1;
    if r[0].position == 0.0 {
      r := r[0 := r[0].(before := startTip)];
    }
    if r[last].position == 1.0 {
      r := r[last := r[last].(after := endTip)];
    }
    WithEndsFrame(wplist, if wplist[0].position == 0.0 then startTip else wplist[0].before,
                          if wplist[last].position == 1.0 then endTip else wplist[last].after);
  }

  /** Lines 646-655: when dashing, a first point that still blends before
      and a last point that still blends after take the dashes' start and
      end tips; afterwards the ends blend outward only where those tips do. */
  method FixDashedTips(wplist: seq<WidthPoint>, dashStartTip: SideType, dashEndTip: SideType)
    returns (r: seq<WidthPoint>)
    requires |wplist| >= 1
    ensures r == WithEnds(wplist, if wplist[0].before == Interpolate then dashStartTip else wplist[0].before,
                                  if wplist[|wplist| - 1].after == Interpolate then dashEndTip else wplist[|wplist| - 1].after)
    ensures |r| == |wplist|
    ensures forall i :: 0 <= i < |r| ==> SameBut(r[i], wplist[i])
    ensures forall i :: 0 < i < |r| - 1 ==> r[i] == wplist[i]
    ensures |r| > 1 ==> r[0].after == wplist[0].after && r[|r| - 1].before == wplist[|r| - 1].before
    ensures r[0].before == if wplist[0].before == Interpolate then dashStartTip else wplist[0].before
    ensures r[|r| - 1].after == if wplist[|r| - 1].after == Interpolate then dashEndTip else wplist[|r| - 1].after
    ensures r[0].before == Interpolate ==> dashStartTip == Interpolate
    ensures r[|r| - 1].after == Interpolate ==> dashEndTip == Interpolate
  {
    r := wplist;
    var last := |r| - 1;
    if r[0].before == Interpolate {
      r := r[0 := r[0].(before := dashStartTip)];
    }
    if r[last].after == Interpolate {
      r := r[last := r[last].(after := dashEndTip)];
    }
    WithEndsFrame(wplist, if wplist[0].before == Interpolate then dashStartTip else wplist[0].before,
                          if wplist[last].after == Interpolate then dashEndTip else wplist[last].after);
  }

  /** The side a first point has before it after lines 634-655: an open
      outline's point at 0.0 takes the layer's start tip (the dashes' when
      dashing), then, when dashing, a side that still blends takes the
      dashes' start tip. `position` is the point's position when the
      fix-ups run. */
  function FixedBefore(w: WidthPoint, position: real, blineLoop: bool, dashEnabled: bool,
                       startTip: SideType, dashStartTip: SideType): SideType
  {
    var b := if !blineLoop && position == 0.0 then (if dashEnabled then dashStartTip else startTip) else w.before;
    if dashEnabled && b == Interpolate then dashStartTip else b
  }

  /** The same for the side a last point has after it, at 1.0 and with the
      end tips. */
  function FixedAfter(w: WidthPoint, position: real, blineLoop: bool, dashEnabled: bool,
                      endTip: SideType, dashEndTip: SideType): SideType
  {
    var a := if !blineLoop && position == 1.0 then (if dashEnabled then dashEndTip else endTip) else w.after;
    if dashEnabled && a == Interpolate then dashEndTip else a
  }

  /** What the fixed end sides mean: an open end at 0.0 (1.0) is capped
      with the layer's tip, or the dashes' one when dashing; a dashed
      outline's end blends outward only when the dashes' tip does; an end
      the fix-ups do not reach keeps its side. */
  lemma FixedEnds(first: WidthPoint, firstPos: real, last: WidthPoint, lastPos: real,
                  blineLoop: bool, dashEnabled: bool,
                  startTip: SideType, endTip: SideType, dashStartTip: SideType, dashEndTip: SideType)
    ensures var b := FixedBefore(first, firstPos, blineLoop, dashEnabled, startTip, dashStartTip);
      && (!blineLoop && firstPos == 0.0 ==> b == if dashEnabled then dashStartTip else startTip)
      && (dashEnabled && b == Interpolate ==> dashStartTip == Interpolate)
      && ((blineLoop || firstPos != 0.0) && !(dashEnabled && first.before == Interpolate) ==> b == first.before)
    ensures var a := FixedAfter(last, lastPos, blineLoop, dashEnabled, endTip, dashEndTip);
      && (!blineLoop && lastPos == 1.0 ==> a == if dashEnabled then dashEndTip else endTip)
      && (dashEnabled && a == Interpolate ==> dashEndTip == Interpolate)
      && ((blineLoop || lastPos != 1.0) && !(dashEnabled && last.after == Interpolate) ==> a == last.after)
  {
  }

  /** Lines 634-655: the open outline's fix-up, then the dashed one: only
      the first point's before side and the last point's after side change,
      to the values FixedBefore and FixedAfter give. */
  method FixTips(wplist: seq<WidthPoint>, blineLoop: bool, dashEnabled: bool,
                 startTip: SideType, endTip: SideType, dashStartTip: SideType, dashEndTip: SideType)
    returns (r: seq<WidthPoint>)
    requires |wplist| >= 1
    ensures r == WithEnds(wplist,
      FixedBefore(wplist[0], wplist[0].position, blineLoop, dashEnabled, startTip, dashStartTip),
      FixedAfter(wplist[|wplist| - 1], wplist[|wplist| - 1].position, blineLoop, dashEnabled, endTip, dashEndTip))
    ensures !dashEnabled && blineLoop ==> r == wplist
  {
    var last := |wplist| - 1;
    var b1 := if !blineLoop && wplist[0].position == 0.0
      then (if dashEnabled then dashStartTip else startTip) else wplist[0].before;
    var a1 := if !blineLoop && wplist[last].position == 1.0
      then (if dashEnabled then dashEndTip else endTip) else wplist[last].after;
    WithEndsTwice(wplist, b1, a1, b1, a1);
    var o := wplist;
    if !blineLoop {
      o := FixOpenTips(wplist, if dashEnabled then dashStartTip else startTip,
                               if dashEnabled then dashEndTip else endTip);
    }
    assert o == WithEnds(wplist, b1, a1);
    WithEndsFrame(wplist, b1, a1);
    r := o;
    if dashEnabled {
      r := FixDashedTips(o, dashStartTip, dashEndTip);
      WithEndsTwice(wplist, b1, a1, if b1 == Interpolate then dashStartTip else b1,
                                    if a1 == Interpolate then dashEndTip else a1);
    }
  }

  /** What sync() has prepared when the sampling loop starts: the position
      tables of the spline points, the working width point list and the
      two flags of the looped profile. */
  datatype Stroke = Stroke(pos: seq<real>, hpos: seq<real>, wplist: seq<WidthPoint>,
                           insertedFirst: bool, insertedLast: bool)

  datatype Option<T> = None | Some(value: T)

  /** Lines 351-577: when dashing, the dash width points are laid down and
      merged with the prepared list, and the working list becomes the
      merged one; a working list left empty becomes the point that renders
      nothing. The dashes' start and end tips come back with it. */
  method DashStage(prepared: seq<WidthPoint>, blineLoop: bool, homogeneous: bool, dashing: bool,
                   items: seq<DashItem>, dashOffset: real, blineLength: real, homToStd: real -> real)
    returns (wplist: seq<WidthPoint>, dashStartTip: SideType, dashEndTip: SideType,
             ghost dw: seq<WidthPoint>, ghost fwd: seq<WidthPoint>, ghost fwdCount: nat,
             ghost back: seq<WidthPoint>, ghost backCount: nat)
    requires |prepared| >= 1 && Sorted(prepared)
    ensures Sorted(wplist) && |wplist| >= 1
    ensures !dashing ==> wplist == prepared && dashStartTip == Flat && dashEndTip == Flat
    ensures dashing && !Dashable(items, blineLength) ==>
      wplist == [Nothing] && dashStartTip == Flat && dashEndTip == Flat
    ensures dashing && Dashable(items, blineLength) ==>
      forall x | x in wplist :: x == Nothing || x.dash || x in prepared
    ensures dashing && Dashable(items, blineLength) ==>
      var w := WalkOf(items, dashOffset, blineLength, homogeneous, homToStd);
      && ForwardWalked(w, fwd, fwdCount)
      && var t := TrimEnd(fwd, fwdCount, Flat);
      && BackwardWalked(w, t.points, back, backCount)
      && var s := TrimStart(back, backCount, Flat);
      && dw == Join(s, t)
      && dashStartTip == s.tip && dashEndTip == t.tip
    ensures dashing && Dashable(items, blineLength) ==>
      && Paired(dw) && |dw| >= 2
      && var f := VisibleDashes(prepared, dw, blineLoop, |prepared|) + VisibleWidths(prepared, dw, |dw| / 2);
      if |f| == 0 then wplist == [Nothing] else multiset(wplist) == multiset(f)
  {
    var filtered: seq<WidthPoint> := [];
    dashStartTip, dashEndTip := Flat, Flat;
    dw, fwd, fwdCount, back, backCount := [], [], 0, [], 0;
    if dashing {
      var d, s, e;
      d, s, e, fwd, fwdCount, back, backCount := ExpandDashes(items, dashOffset, blineLength, homogeneous, homToStd);
      dw := d;
      dashStartTip, dashEndTip := s, e;
      if Dashable(items, blineLength) {
        filtered := Filter(prepared, d, blineLoop);
        FilteredFrom(prepared, d, blineLoop, filtered);
      }
    }
    wplist := UseFiltered(prepared, dashing, filtered);
    if dashing && Dashable(items, blineLength) && |filtered| > 0 {
      forall x | x in wplist ensures x.dash || x in prepared {
        assert x in multiset(wplist);
      }
    }
  }

  /** Every point the merge keeps is a dash point or one of the regular
      points. */
  lemma FilteredFrom(ws: seq<WidthPoint>, dw: seq<WidthPoint>, loop: bool, f: seq<WidthPoint>)
    requires |ws| >= 1 && |dw| >= 2 && |dw| % 2 == 0 && Paired(dw)
    requires f == VisibleDashes(ws, dw, loop, |ws|) + VisibleWidths(ws, dw, |dw| / 2)
    ensures forall x | x in f :: x.dash || x in ws
  {
    forall x | x in f ensures x.dash || x in ws {
      if x in VisibleDashes(ws, dw, loop, |ws|) {
        VisibleDashIsDash(ws, dw, loop, |ws|, x);
      } else {
        VisibleWidthCovered(ws, dw, |dw| / 2, x);
      }
    }
  }

  /** `h` is `wplist` with every position mapped by std_to_hom, unless the
      list already holds homogeneous positions. */
  ghost predicate Homogenised(wplist: seq<WidthPoint>, h: seq<WidthPoint>, homogeneous: bool, stdToHom: real -> real)
  {
    && |h| == |wplist|
    && forall i :: 0 <= i < |h| ==>
         h[i] == if homogeneous then wplist[i] else wplist[i].(position := stdToHom(wplist[i].position))
  }

  /** Both branches of MakeHomogeneous give the homogenised list. */
  lemma HomogenisedBy(wplist: seq<WidthPoint>, h: seq<WidthPoint>, homogeneous: bool, stdToHom: real -> real)
    requires homogeneous ==> h == wplist
    requires !homogeneous ==> h == MapPositions(wplist, stdToHom)
    ensures Homogenised(wplist, h, homogeneous, stdToHom)
  {
  }

  /** Setting the end sides of the homogenised list keeps every width and
      dash flag, the homogeneous positions and the inner sides. */
  lemma FinishedPoints(wplist: seq<WidthPoint>, h: seq<WidthPoint>, homogeneous: bool, stdToHom: real -> real,
                       b: SideType, a: SideType)
    requires |wplist| >= 1 && Homogenised(wplist, h, homogeneous, stdToHom)
    ensures var r := WithEnds(h, b, a);
      && (forall i :: 0 <= i < |r| ==> r[i].width == wplist[i].width && r[i].dash == wplist[i].dash)
      && (forall i :: 0 <= i < |r| ==>
            r[i].position == if homogeneous then wplist[i].position else stdToHom(wplist[i].position))
      && (forall i :: 0 < i < |r| - 1 ==> r[i].before == wplist[i].before && r[i].after == wplist[i].after)
      && (|r| > 1 ==> r[0].after == wplist[0].after && r[|r| - 1].before == wplist[|r| - 1].before)
      && r[0].before == b && r[|r| - 1].after == a
  {
    var r := WithEnds(h, b, a);
    WithEndsFrame(h, b, a);
    forall i | 0 <= i < |r|
      ensures r[i].width == wplist[i].width && r[i].dash == wplist[i].dash
      ensures r[i].position == if homogeneous then wplist[i].position else stdToHom(wplist[i].position)
    {
      assert SameBut(r[i], h[i]);
    }
  }

  /** The point that renders nothing keeps its FLAT sides through the tip
      fix-ups of a dashed outline whose dash tips are FLAT. */
  lemma NothingFinished(wplist: seq<WidthPoint>, h: seq<WidthPoint>, homogeneous: bool, stdToHom: real -> real,
                        blineLoop: bool, startTip: SideType, endTip: SideType)
    requires wplist == [Nothing] && Homogenised(wplist, h, homogeneous, stdToHom)
    ensures WithEnds(h, FixedBefore(h[0], h[0].position, blineLoop, true, startTip, Flat),
                        FixedAfter(h[0], h[0].position, blineLoop, true, endTip, Flat))
            == [Nothing.(position := h[0].position)]
  {
    assert h == [Nothing.(position := h[0].position)];
    WithEndsTwice(h, Flat, Flat, Flat, Flat);
  }

  /** The homogenised list with its end tips fixed up, stated against the
      list before homogenising. */
  lemma FinishFacts(wplist: seq<WidthPoint>, h: seq<WidthPoint>, r: seq<WidthPoint>,
                    blineLoop: bool, homogeneous: bool, dashing: bool,
                    startTip: SideType, endTip: SideType, dashStartTip: SideType, dashEndTip: SideType,
                    stdToHom: real -> real)
    requires |wplist| >= 1 && Homogenised(wplist, h, homogeneous, stdToHom)
    requires r == WithEnds(h, FixedBefore(h[0], h[0].position, blineLoop, dashing, startTip, dashStartTip),
                              FixedAfter(h[|h| - 1], h[|h| - 1].position, blineLoop, dashing, endTip, dashEndTip))
    ensures |r| == |wplist|
    ensures forall i :: 0 <= i < |r| ==> r[i].width == wplist[i].width && r[i].dash == wplist[i].dash
    ensures forall i :: 0 <= i < |r| ==>
      r[i].position == if homogeneous then wplist[i].position else stdToHom(wplist[i].position)
    ensures dashing && wplist == [Nothing] && dashStartTip == Flat && dashEndTip == Flat ==>
      r == [Nothing.(position := r[0].position)]
    ensures forall i :: 0 < i < |r| - 1 ==> r[i].before == wplist[i].before && r[i].after == wplist[i].after
    ensures |r| > 1 ==> r[0].after == wplist[0].after && r[|r| - 1].before == wplist[|r| - 1].before
    ensures r[0].before == FixedBefore(wplist[0], r[0].position, blineLoop, dashing, startTip, dashStartTip)
    ensures r[|r| - 1].after == FixedAfter(wplist[|r| - 1], r[|r| - 1].position, blineLoop, dashing, endTip, dashEndTip)
  {
    var last := |h| - 1;
    var b := FixedBefore(h[0], h[0].position, blineLoop, dashing, startTip, dashStartTip);
    var a := FixedAfter(h[last], h[last].position, blineLoop, dashing, endTip, dashEndTip);
    assert h[0].before == wplist[0].before && h[last].after == wplist[last].after;
    FinishedPoints(wplist, h, homogeneous, stdToHom, b, a);
    if dashing && wplist == [Nothing] && dashStartTip == Flat && dashEndTip == Flat {
      NothingFinished(wplist, h, homogeneous, stdToHom, blineLoop, startTip, endTip);
    }
  }

  /** Lines 579-655: the working list moves to homogeneous positions and
      its end tips are fixed up. */
  method FinishStage(wplist: seq<WidthPoint>, blineLoop: bool, homogeneous: bool, dashing: bool,
                     startTip: SideType, endTip: SideType, dashStartTip: SideType, dashEndTip: SideType,
                     stdToHom: real -> real)
    returns (r: seq<WidthPoint>)
    requires |wplist| >= 1
    ensures |r| == |wplist|
    ensures forall i :: 0 <= i < |r| ==> r[i].width == wplist[i].width && r[i].dash == wplist[i].dash
    ensures forall i :: 0 <= i < |r| ==>
      r[i].position == if homogeneous then wplist[i].position else stdToHom(wplist[i].position)
    ensures dashing && wplist == [Nothing] && dashStartTip == Flat && dashEndTip == Flat ==>
      r == [Nothing.(position := r[0].position)]
    ensures forall i :: 0 < i < |r| - 1 ==> r[i].before == wplist[i].before && r[i].after == wplist[i].after
    ensures |r| > 1 ==> r[0].after == wplist[0].after && r[|r| - 1].before == wplist[|r| - 1].before
    ensures r[0].before == FixedBefore(wplist[0], r[0].position, blineLoop, dashing, startTip, dashStartTip)
    ensures r[|r| - 1].after == FixedAfter(wplist[|r| - 1], r[|r| - 1].position, blineLoop, dashing, endTip, dashEndTip)
  {
    var h := MakeHomogeneous(wplist, homogeneous, stdToHom);
    HomogenisedBy(wplist, h, homogeneous, stdToHom);
    r := FixTips(h, blineLoop, dashing, startTip, endTip, dashStartTip, dashEndTip);
    FinishFacts(wplist, h, r, blineLoop, homogeneous, dashing, startTip, endTip, dashStartTip, dashEndTip, stdToHom);
  }

  /** Lines 127-655 of sync(), the sampling loop's geometry aside: a spline
      with no point, or an open spline with a single point, draws nothing;
      otherwise the tables are built, the width point list prepared,
      dashed and filtered when dashing is on and the dash list is not
      empty, made homogeneous and its end tips fixed up. The spline's
      length (bline_length) is a parameter. */
  method Prologue(n: nat, blineLoop: bool, fast: bool, homogeneous: bool,
                  ws: seq<WidthPoint>, startTip: SideType, endTip: SideType,
                  dashEnabled: bool, items: seq<DashItem>, dashOffset: real, blineLength: real,
                  h: Helpers)
    returns (r: Option<Stroke>)
    ensures r.None? <==> n == 0 || (!blineLoop && n == 1)
    ensures r.Some? ==> r.value.pos == PositionTable(n, blineLoop)
    ensures r.Some? ==> r.value.hpos == HomTable(PositionTable(n, blineLoop), fast, h.stdToHom)
    ensures r.Some? ==> |r.value.wplist| >= 1
    ensures r.Some? ==>
      var p := PreparedList(ws, blineLoop, homogeneous, fast, startTip, endTip, h);
      r.value.insertedFirst == p.insertedFirst && r.value.insertedLast == p.insertedLast
    ensures r.Some? && (!dashEnabled || |items| == 0) ==>
      |r.value.wplist| == |PreparedList(ws, blineLoop, homogeneous, fast, startTip, endTip, h).wplist|
    ensures r.Some? && dashEnabled && |items| > 0 && !Dashable(items, blineLength) ==>
      r.value.wplist == [Nothing.(position := r.value.wplist[0].position)]
  {
    if n == 0 || (!blineLoop && n == 1) {
      return None;
    }
    var pos, hpos := BuildPositions(n, blineLoop, fast, h.stdToHom);
    var p := PrepareWidthList(ws, blineLoop, homogeneous, fast, startTip, endTip, h);
    var dashing := dashEnabled && |items| > 0;
    var wplist, dashStartTip, dashEndTip, _, _, _, _, _ :=
      DashStage(p.wplist, blineLoop, homogeneous, dashing, items, dashOffset, blineLength, h.homToStd);
    wplist := FinishStage(wplist, blineLoop, homogeneous, dashing, startTip, endTip,
                          dashStartTip, dashEndTip, h.stdToHom);
    r := Some(Stroke(pos, hpos, wplist, p.insertedFirst, p.insertedLast));
  }
}
