/** The dash width points of sync() (lines 351-478): the two walks, the
    trimming of the pair that runs past either end of the spline, and the
    fallback pair that blanks the whole spline. */
module Dashes {
  import opened WidthPoints
  import opened DashOffset
  import opened DashWalk
  import opened Sequences

  function Min(a: real, b: real): real { if a <= b then a else b }
  function Max(a: real, b: real): real { if a >= b then a else b }

  /** A dash list after a trim: its points, how many pairs of the trimmed
      walk it still holds, and the dash tip the trim chose. */
  datatype Trimmed = Trimmed(points: seq<WidthPoint>, count: nat, tip: SideType)

  /** Lines 392-417: the last pair of the forward walk is cut at the end of
      the spline (the cut end takes the dash's own cap as the end tip), or
      dropped when it lies wholly at or past the end. */
  function TrimEnd(dw: seq<WidthPoint>, count: nat, tip: SideType): (t: Trimmed)
    requires |dw| == 2 * count
    ensures |t.points| == 2 * t.count
    ensures t.count == count || t.count + 1 == count
    ensures t.count < count <==>
      (count > 0 && dw[2 * count - 1].position >= 1.0 && dw[2 * count - 2].position >= 1.0)
    ensures count > 0 ==> t.points[..2 * count - 2] == dw[..2 * count - 2]
    ensures t.count == count && count > 0 ==>
      && t.points[2 * count - 2] == dw[2 * count - 2]
      && t.points[2 * count - 1].position == Min(dw[2 * count - 1].position, 1.0)
      && t.points[2 * count - 1].(position := dw[2 * count - 1].position) == dw[2 * count - 1]
    ensures count == 0 ==> t.points == dw
    ensures count > 0 && t.count == count && dw[2 * count - 1].position >= 1.0 ==> t.tip == dw[2 * count - 1].after
    ensures !(count > 0 && t.count == count && dw[2 * count - 1].position >= 1.0) ==> t.tip == tip
  {
    if count == 0 then Trimmed(dw, count, tip)
    else
      var after := dw[|dw| - 1];
      if after.position >= 1.0 then
        var before := dw[|dw| - 2];
        if before.position >= 1.0 then Trimmed(dw[..|dw| - 2], count - 1, tip)
        else Trimmed(dw[..|dw| - 1] + [after.(position := 1.0)], count, after.after)
      else Trimmed(dw, count, tip)
  }

  /** Lines 440-465: the first pair of the backward walk is cut at the
      origin (the cut end takes the dash's own cap as the start tip), or
      dropped when it lies wholly at or before the origin. */
  function TrimStart(dw: seq<WidthPoint>, count: nat, tip: SideType): (t: Trimmed)
    requires |dw| >= 2 * count
    ensures |t.points| + 2 * count == |dw| + 2 * t.count
    ensures t.count == count || t.count + 1 == count
    ensures t.count < count <==> (count > 0 && dw[0].position <= 0.0 && dw[1].position <= 0.0)
    ensures count > 0 ==> t.points[|t.points| - (|dw| - 2)..] == dw[2..]
    ensures t.count == count && count > 0 ==>
      && t.points[1] == dw[1]
      && t.points[0].position == Max(dw[0].position, 0.0)
      && t.points[0].(position := dw[0].position) == dw[0]
    ensures count == 0 ==> t.points == dw
    ensures count > 0 && t.count == count && dw[0].position <= 0.0 ==> t.tip == dw[0].before
    ensures !(count > 0 && t.count == count && dw[0].position <= 0.0) ==> t.tip == tip
  {
    if count == 0 then Trimmed(dw, count, tip)
    else
      var before := dw[0];
      if before.position <= 0.0 then
        var after := dw[1];
        if after.position <= 0.0 then Trimmed(dw[2..], count - 1, tip)
        else Trimmed([before.(position := 0.0)] + dw[1..], count, before.before)
      else Trimmed(dw, count, tip)
  }

  /** Lines 468-478: the pair put in when neither walk left a dash on the
      spline; it blanks the whole spline. */
  const Blank: seq<WidthPoint> := [WidthPoint(0.5, 1.0, Flat, Interpolate, true),
                                   WidthPoint(0.5, 1.0, Interpolate, Flat, true)]

  /** Dash width points come in pairs: a run's start, whose after side
      blends, followed by its end, whose before side blends; every one is a
      dash point of width 1. */
  ghost predicate Paired(dw: seq<WidthPoint>)
  {
    && |dw| % 2 == 0
    && (forall i :: 0 <= i < |dw| ==> dw[i].dash && dw[i].width == 1.0)
    && (forall i :: 0 <= i < |dw| && i % 2 == 0 ==> dw[i].after == Interpolate)
    && (forall i :: 0 <= i < |dw| && i % 2 == 1 ==> dw[i].before == Interpolate)
  }

  lemma ForwardPaired(w: Walk, dw: seq<WidthPoint>, count: nat)
    requires ValidWalk(w) && ForwardPairs(w, dw, count)
    ensures Paired(dw)
  {
    forall i | 0 <= i < |dw|
      ensures dw[i].dash && dw[i].width == 1.0
      ensures i % 2 == 0 ==> dw[i].after == Interpolate
      ensures i % 2 == 1 ==> dw[i].before == Interpolate
    {
      var k := i / 2;
      if i % 2 == 0 {
        assert dw[2 * k] == ForwardBefore(w, k);
      } else {
        assert dw[2 * k + 1] == ForwardAfter(w, k);
      }
    }
  }

  lemma BackwardPaired(w: Walk, rest: seq<WidthPoint>, dw: seq<WidthPoint>, count: nat)
    requires ValidWalk(w) && BackwardPairs(w, rest, dw, count) && Paired(rest)
    ensures Paired(dw)
  {
    forall i | 0 <= i < |dw|
      ensures dw[i].dash && dw[i].width == 1.0
      ensures i % 2 == 0 ==> dw[i].after == Interpolate
      ensures i % 2 == 1 ==> dw[i].before == Interpolate
    {
      if i >= 2 * count {
        assert dw[i] == dw[2 * count..][i - 2 * count];
      } else {
        var k := count - 1 - i / 2;
        if i % 2 == 0 {
          assert dw[2 * (count - 1 - k)] == BackwardBefore(w, k);
        } else {
          assert dw[2 * (count - 1 - k) + 1] == BackwardAfter(w, k);
        }
      }
    }
  }

  lemma TrimEndPaired(dw: seq<WidthPoint>, count: nat, tip: SideType)
    requires |dw| == 2 * count && Paired(dw)
    ensures Paired(TrimEnd(dw, count, tip).points)
  {
    var t := TrimEnd(dw, count, tip);
    if count > 0 {
      forall i | 0 <= i < 2 * count - 2
        ensures t.points[i] == dw[i]
      {
        assert t.points[i] == t.points[..2 * count - 2][i];
      }
    }
  }

  lemma TrimStartPaired(dw: seq<WidthPoint>, count: nat, tip: SideType)
    requires |dw| >= 2 * count && Paired(dw)
    ensures Paired(TrimStart(dw, count, tip).points)
  {
    var t := TrimStart(dw, count, tip);
    if count > 0 {
      var shift := |t.points| - (|dw| - 2);
      forall i | shift <= i < |t.points|
        ensures t.points[i] == dw[i - shift + 2]
      {
        assert t.points[i] == t.points[shift..][i - shift];
        assert dw[2..][i - shift] == dw[i - shift + 2];
      }
    }
  }

  /** The dashing guards of lines 351-365: a dash list, a spline of some
      length, and a pattern of some length. */
  predicate Dashable(items: seq<DashItem>, blineLength: real)
  {
    |items| > 0 && blineLength > EPSILON && SumSteps(items) > EPSILON
  }

  /** The walk the dash items, the offset and the spline give. */
  function WalkOf(items: seq<DashItem>, dashOffset: real, blineLength: real,
                  homogeneous: bool, homToStd: real -> real): (w: Walk)
    requires Dashable(items, blineLength)
    ensures ValidWalk(w)
    ensures 0.0 <= w.start <= SumSteps(items)
  {
    Walk(items, StartPosition(dashOffset, SumSteps(items)), blineLength, homogeneous, homToStd)
  }

  /** Lines 351-478 up to the merge: the dash width points and the start
      and end tips of the dashes. Without a dash list, a spline length or a
      pattern length there are none. Otherwise the list is the backward
      walk's pairs, front-trimmed, followed by the forward walk's pairs,
      end-trimmed, or the blank pair when both trims left nothing. */
  method ExpandDashes(items: seq<DashItem>, dashOffset: real, blineLength: real,
                      homogeneous: bool, homToStd: real -> real)
    returns (dw: seq<WidthPoint>, startTip: SideType, endTip: SideType,
             ghost fwd: seq<WidthPoint>, ghost fwdCount: nat,
             ghost back: seq<WidthPoint>, ghost backCount: nat)
    ensures !Dashable(items, blineLength) ==> dw == [] && startTip == Flat && endTip == Flat
    ensures Dashable(items, blineLength) ==>
      var w := WalkOf(items, dashOffset, blineLength, homogeneous, homToStd);
      && ForwardWalked(w, fwd, fwdCount)
      && var t := TrimEnd(fwd, fwdCount, Flat);
      && BackwardWalked(w, t.points, back, backCount)
      && var s := TrimStart(back, backCount, Flat);
      && dw == Join(s, t)
      && startTip == s.tip && endTip == t.tip
    ensures Dashable(items, blineLength) ==> Paired(dw) && |dw| >= 2
    ensures (Dashable(items, blineLength) && homogeneous && NonNegativeItems(items)
             && StartPosition(dashOffset, SumSteps(items)) <= blineLength) ==>
      forall i :: 0 <= i < |dw| ==> 0.0 <= dw[i].position <= 1.0
  {
    fwd, fwdCount, back, backCount := [], 0, [], 0;
    dw, startTip, endTip := [], Flat, Flat;
    if |items| == 0 || blineLength <= EPSILON {
      return;
    }
    var cycle := DashesLength(items);
    if cycle <= EPSILON {
      return;
    }
    var dpos := StartPosition(dashOffset, cycle);
    var w := Walk(items, dpos, blineLength, homogeneous, homToStd);
    var forward, forwardCount := WalkForward(w);
    var t := TrimEnd(forward, forwardCount, Flat);
    var backward, backwardCount := WalkBackward(w, t.points);
    var s := TrimStart(backward, backwardCount, Flat);
    fwd, fwdCount, back, backCount := forward, forwardCount, backward, backwardCount;
    dw, startTip, endTip := s.points, s.tip, t.tip;
    if t.count == 0 && s.count == 0 {
      dw := dw + Blank;
    }
    JoinPaired(w, forward, forwardCount, backward, backwardCount);
    if homogeneous && NonNegativeItems(items) && dpos <= blineLength {
      JoinInUnit(w, forward, forwardCount, backward, backwardCount);
    }
  }

  /** Lines 468-478: the front-trimmed backward pairs (which end with the
      end-trimmed forward pairs), or those followed by the blank pair when
      neither walk left a pair. */
  function Join(s: Trimmed, t: Trimmed): seq<WidthPoint>
  {
    if t.count == 0 && s.count == 0 then s.points + Blank else s.points
  }

  /** The joined dash list is a non-empty list of pairs. */
  lemma JoinPaired(w: Walk, fwd: seq<WidthPoint>, fwdCount: nat, back: seq<WidthPoint>, backCount: nat)
    requires ValidWalk(w) && ForwardWalked(w, fwd, fwdCount)
    requires BackwardWalked(w, TrimEnd(fwd, fwdCount, Flat).points, back, backCount)
    ensures var s := TrimStart(back, backCount, Flat);
      Paired(Join(s, TrimEnd(fwd, fwdCount, Flat))) && |Join(s, TrimEnd(fwd, fwdCount, Flat))| >= 2
  {
    ForwardPaired(w, fwd, fwdCount);
    var t := TrimEnd(fwd, fwdCount, Flat);
    TrimEndPaired(fwd, fwdCount, Flat);
    BackwardPaired(w, t.points, back, backCount);
    var s := TrimStart(back, backCount, Flat);
    TrimStartPaired(back, backCount, Flat);
    PairedAppend(s.points, t.count == 0 && s.count == 0);
  }

  /** The joined dash list lies in [0, 1] when the walk is homogeneous over
      non-negative items and starts no further than the spline's end. */
  lemma JoinInUnit(w: Walk, fwd: seq<WidthPoint>, fwdCount: nat, back: seq<WidthPoint>, backCount: nat)
    requires ValidWalk(w) && ForwardWalked(w, fwd, fwdCount)
    requires BackwardWalked(w, TrimEnd(fwd, fwdCount, Flat).points, back, backCount)
    requires w.homogeneous && NonNegativeItems(w.items) && 0.0 <= w.start <= w.blineLength
    ensures var s := TrimStart(back, backCount, Flat);
      var dw := Join(s, TrimEnd(fwd, fwdCount, Flat));
      forall i :: 0 <= i < |dw| ==> 0.0 <= dw[i].position <= 1.0
  {
    var t := TrimEnd(fwd, fwdCount, Flat);
    var s := TrimStart(back, backCount, Flat);
    DashesInUnit(w, fwd, fwdCount, back, backCount);
    var dw := Join(s, t);
    forall i | 0 <= i < |dw| ensures 0.0 <= dw[i].position <= 1.0 {
      if i >= |s.points| {
        assert dw[i] == Blank[i - |s.points|];
      }
    }
  }

  lemma PairedAppend(p: seq<WidthPoint>, blank: bool)
    requires Paired(p)
    ensures Paired(if blank then p + Blank else p)
  {
  }

  // ---------------------------------------------------------------------
  // Where the dash points lie

  /** Dash items whose gaps and runs are not negative. */
  ghost predicate NonNegativeItems(items: seq<DashItem>)
  {
    forall i :: 0 <= i < |items| ==> items[i].offset >= 0.0 && items[i].length >= 0.0
  }

  lemma {:induction false} WalkedNonNegative(items: seq<DashItem>, k: nat)
    requires |items| > 0 && NonNegativeItems(items)
    ensures Walked(items, k) >= 0.0
  {
    if k > 0 {
      WalkedNonNegative(items, k - 1);
    }
  }

  lemma DivBelowOne(a: real, b: real)
    requires b > 0.0 && a < b
    ensures a / b < 1.0
  {
  }

  lemma DivAtMostOne(a: real, b: real)
    requires b > 0.0 && a <= b
    ensures a / b <= 1.0
  {
  }

  lemma DivMonotone(a: real, c: real, b: real)
    requires b > 0.0 && a <= c
    ensures a / b <= c / b
  {
  }

  lemma DivPositive(a: real, b: real)
    requires b > 0.0 && a > 0.0
    ensures a / b > 0.0
  {
  }

  /** A forward pair, in homogeneous mode, starts at or after the origin,
      ends no earlier than it starts, and ends where the next step starts. */
  lemma ForwardPointBounds(w: Walk, k: nat)
    requires ValidWalk(w) && w.homogeneous && NonNegativeItems(w.items) && w.start >= 0.0
    ensures 0.0 <= ForwardBefore(w, k).position <= ForwardAfter(w, k).position
    ensures ForwardAfter(w, k).position == (w.start + Walked(w.items, k + 1)) / w.blineLength
  {
    var it := w.items[Cursor(|w.items|, k)];
    var d := w.start + Walked(w.items, k);
    WalkedNonNegative(w.items, k);
    DivMonotone(0.0, d + it.offset, w.blineLength);
    DivMonotone(d + it.offset, d + it.offset + it.length, w.blineLength);
    assert d + it.offset + it.length == w.start + Walked(w.items, k + 1);
  }

  /** In homogeneous mode, with no negative gap or run, the end-trimmed
      forward walk lies within [0, 1]. */
  lemma ForwardTrimmedInUnit(w: Walk, fwd: seq<WidthPoint>, count: nat, tip: SideType)
    requires ValidWalk(w) && w.homogeneous && NonNegativeItems(w.items) && w.start >= 0.0
    requires ForwardWalked(w, fwd, count)
    ensures var t := TrimEnd(fwd, count, tip);
      forall i :: 0 <= i < |t.points| ==> 0.0 <= t.points[i].position <= 1.0
  {
    var t := TrimEnd(fwd, count, tip);
    forall i | 0 <= i < |t.points|
      ensures 0.0 <= t.points[i].position <= 1.0
    {
      var k := i / 2;
      ForwardPointBounds(w, k);
      assert fwd[2 * k] == ForwardBefore(w, k);
      assert fwd[2 * k + 1] == ForwardAfter(w, k);
      if k + 1 < count {
        assert w.start + Walked(w.items, k + 1) < w.blineLength;
        DivBelowOne(w.start + Walked(w.items, k + 1), w.blineLength);
        assert t.points[i] == t.points[..2 * count - 2][i];
      }
    }
  }

  lemma NonNegativeReversed(items: seq<DashItem>)
    requires NonNegativeItems(items)
    ensures NonNegativeItems(Reversed(items))
  {
  }

  /** A backward pair, in homogeneous mode, ends no earlier than it starts,
      ends where the walk stands, and starts no earlier than the next
      backward step's end. */
  lemma BackwardPointBounds(w: Walk, k: nat)
    requires ValidWalk(w) && w.homogeneous && NonNegativeItems(w.items)
    ensures BackwardBefore(w, k).position <= BackwardAfter(w, k).position
    ensures BackwardAfter(w, k).position == (w.start - Walked(Reversed(w.items), k)) / w.blineLength
    ensures (w.start - Walked(Reversed(w.items), k + 1)) / w.blineLength <= BackwardBefore(w, k).position
  {
    var r := Reversed(w.items);
    NonNegativeReversed(w.items);
    var it := r[Cursor(|r|, k)];
    var d := w.start - Walked(r, k);
    DivMonotone(d - it.length, d, w.blineLength);
    assert w.start - Walked(r, k + 1) == d - it.length - it.offset;
    DivMonotone(d - it.length - it.offset, d - it.length, w.blineLength);
  }

  /** The backward walk's points before the front trim, in homogeneous
      mode: all at most 1 when the start is no further than the spline's
      length, and all but the very first after the origin. */
  lemma BackwardPairsBounds(w: Walk, rest: seq<WidthPoint>, back: seq<WidthPoint>, count: nat, i: nat)
    requires ValidWalk(w) && w.homogeneous && NonNegativeItems(w.items)
    requires w.start <= w.blineLength
    requires BackwardWalked(w, rest, back, count)
    requires i < 2 * count
    ensures back[i].position <= 1.0
    ensures i >= 1 ==> back[i].position > 0.0
  {
    var r := Reversed(w.items);
    NonNegativeReversed(w.items);
    var k := count - 1 - i / 2;
    BackwardPointBounds(w, k);
    WalkedNonNegative(r, k);
    DivMonotone(w.start - Walked(r, k), w.start, w.blineLength);
    DivAtMostOne(w.start, w.blineLength);
    assert back[2 * (count - 1 - k)] == BackwardBefore(w, k);
    assert back[2 * (count - 1 - k) + 1] == BackwardAfter(w, k);
    DivPositive(w.start - Walked(r, k), w.blineLength);
    if i >= 2 {
      DivPositive(w.start - Walked(r, k + 1), w.blineLength);
    }
  }

  /** In homogeneous mode, with no negative gap or run and a start no
      further than the spline's length, the backward walk's pairs lie within
      [0, 1] once front-trimmed, and the trim never drops a pair (the
      latest backward step always ends after the origin). */
  lemma BackwardTrimmedInUnit(w: Walk, rest: seq<WidthPoint>, back: seq<WidthPoint>, count: nat, tip: SideType)
    requires ValidWalk(w) && w.homogeneous && NonNegativeItems(w.items)
    requires w.start <= w.blineLength
    requires BackwardWalked(w, rest, back, count)
    ensures var s := TrimStart(back, count, tip);
      && s.count == count
      && forall i :: 0 <= i < 2 * count ==> 0.0 <= s.points[i].position <= 1.0
  {
    var s := TrimStart(back, count, tip);
    if count > 0 {
      BackwardPairsBounds(w, rest, back, count, 0);
      BackwardPairsBounds(w, rest, back, count, 1);
    }
    forall i | 0 <= i < 2 * count
      ensures 0.0 <= s.points[i].position <= 1.0
    {
      BackwardPairsBounds(w, rest, back, count, i);
      if i >= 2 {
        assert s.points[i] == s.points[2..][i - 2];
        assert back[i] == back[2..][i - 2];
      }
    }
  }

  /** In homogeneous mode, with no negative gap or run and a start no
      further than the end of the spline, every dash point lies within
      [0, 1]. */
  lemma DashesInUnit(w: Walk, fwd: seq<WidthPoint>, fwdCount: nat, back: seq<WidthPoint>, backCount: nat)
    requires ValidWalk(w) && w.homogeneous && NonNegativeItems(w.items)
    requires 0.0 <= w.start <= w.blineLength
    requires ForwardWalked(w, fwd, fwdCount)
    requires BackwardWalked(w, TrimEnd(fwd, fwdCount, Flat).points, back, backCount)
    ensures var t := TrimEnd(fwd, fwdCount, Flat);
      var s := TrimStart(back, backCount, Flat);
      forall i :: 0 <= i < |s.points| ==> 0.0 <= s.points[i].position <= 1.0
  {
    var t := TrimEnd(fwd, fwdCount, Flat);
    var s := TrimStart(back, backCount, Flat);
    ForwardTrimmedInUnit(w, fwd, fwdCount, Flat);
    BackwardTrimmedInUnit(w, t.points, back, backCount, Flat);
    forall i | 2 * backCount <= i < |s.points|
      ensures s.points[i] == t.points[i - 2 * backCount]
    {
      if backCount > 0 {
        assert s.points[i] == s.points[2..][i - 2];
        assert back[i] == back[2 * backCount..][i - 2 * backCount];
      }
    }
  }

  /** Lines 366-465 with a start past the spline's end: one item with gap
      2 and run 1 (a cycle of 3), a dash offset of 2.5 and a spline of
      length 1, in homogeneous mode. The forward walk takes no step, so no
      end trim happens; the backward walk lays down the run from 1.5 to
      2.5, which the front trim leaves alone. The dash list then lies
      wholly beyond 1.0. */
  lemma {:induction false} StartPastEnd(homToStd: real -> real, fwd: seq<WidthPoint>, fwdCount: nat,
                                        back: seq<WidthPoint>, backCount: nat)
    requires Dashable(PastEndItems, 1.0)
    requires var w := WalkOf(PastEndItems, 2.5, 1.0, true, homToStd);
      && ForwardWalked(w, fwd, fwdCount)
      && BackwardWalked(w, TrimEnd(fwd, fwdCount, Flat).points, back, backCount)
    ensures var dw := Join(TrimStart(back, backCount, Flat), TrimEnd(fwd, fwdCount, Flat));
      |dw| == 2 && dw[0].position == 1.5 && dw[1].position == 2.5
  {
    var w := WalkOf(PastEndItems, 2.5, 1.0, true, homToStd);
    PastEndWalk(homToStd);
    PastEndSteps(w, fwd, fwdCount, back, backCount);
  }

  /** A walk starting at 2.5 on a spline of length 1, whose first backward
      step covers 3, takes no forward step and one backward step. */
  lemma PastEndSteps(w: Walk, fwd: seq<WidthPoint>, fwdCount: nat, back: seq<WidthPoint>, backCount: nat)
    requires ValidWalk(w) && w.start == 2.5 && w.blineLength == 1.0
    requires Walked(Reversed(w.items), 1) == 3.0
    requires ForwardWalked(w, fwd, fwdCount)
    requires BackwardWalked(w, TrimEnd(fwd, fwdCount, Flat).points, back, backCount)
    ensures fwdCount == 0 && backCount == 1 && |back| == 2
    ensures back[0] == BackwardBefore(w, 0) && back[1] == BackwardAfter(w, 0)
  {
    assert Walked(w.items, 0) == 0.0;
    assert fwdCount == 0;
    assert Walked(Reversed(w.items), 0) == 0.0;
    assert backCount == 1;
  }

  /** The single dash item of StartPastEnd. */
  const PastEndItems: seq<DashItem> := [DashItem(2.0, 1.0, Flat, Flat)]

  /** The walk of StartPastEnd starts at 2.5, its first step covers the
      whole cycle of 3, and its first backward pair runs from 1.5 to 2.5. */
  lemma PastEndWalk(homToStd: real -> real)
    ensures Dashable(PastEndItems, 1.0)
    ensures var w := WalkOf(PastEndItems, 2.5, 1.0, true, homToStd);
      && w.start == 2.5 && w.blineLength == 1.0 && w.items == PastEndItems
      && Reversed(w.items) == w.items
      && Walked(w.items, 0) == 0.0 && Walked(w.items, 1) == 3.0
      && BackwardBefore(w, 0).position == 1.5 && BackwardAfter(w, 0).position == 2.5
  {
    var items := PastEndItems;
    assert SumSteps(items) == 3.0 by {
      assert items == [items[0]] + [];
      SumStepsCons(items[0], []);
    }
    assert Reversed(items) == items;
    assert Cursor(1, 0) == 0;
  }
}
