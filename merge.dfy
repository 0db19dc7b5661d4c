/** The merge of the dash width points with the regular ones (sync() lines
    479-537): a dash point survives when it lies strictly inside a blending
    interval of the regular list, and a regular point survives when it lies
    within some dash run. */
module Merge {
  import opened WidthPoints

  /** The points of `s` strictly between `lo` and `hi`, in order. */
  function Inside(s: seq<WidthPoint>, lo: real, hi: real): seq<WidthPoint>
  {
    if |s| == 0 then []
    else Inside(s[..|s| - 1], lo, hi)
         + (if lo < s[|s| - 1].position < hi then [s[|s| - 1]] else [])
  }

  /** The points of `s` between `lo` and `hi`, both included, in order. */
  function Within(s: seq<WidthPoint>, lo: real, hi: real): seq<WidthPoint>
  {
    if |s| == 0 then []
    else Within(s[..|s| - 1], lo, hi)
         + (if lo <= s[|s| - 1].position <= hi then [s[|s| - 1]] else [])
  }

  lemma {:induction false} InsideMembers(s: seq<WidthPoint>, lo: real, hi: real, x: WidthPoint)
    ensures x in Inside(s, lo, hi) <==> x in s && lo < x.position < hi
  {
    if |s| > 0 {
      InsideMembers(s[..|s| - 1], lo, hi, x);
      assert s == s[..|s| - 1] + [s[|s| - 1]];
    }
  }

  lemma {:induction false} WithinMembers(s: seq<WidthPoint>, lo: real, hi: real, x: WidthPoint)
    ensures x in Within(s, lo, hi) <==> x in s && lo <= x.position <= hi
  {
    if |s| > 0 {
      WithinMembers(s[..|s| - 1], lo, hi, x);
      assert s == s[..|s| - 1] + [s[|s| - 1]];
    }
  }

  /** The regular point before the j-th while walking the intervals: the
      last one for a looped spline, the first one itself otherwise. */
  function Previous(ws: seq<WidthPoint>, loop: bool, j: nat): WidthPoint
    requires j < |ws|
  {
    if j > 0 then ws[j - 1] else if loop then ws[|ws| - 1] else ws[0]
  }

  /** An interval of the regular list is drawn when either of its ends
      blends into it. */
  predicate Blends(a: WidthPoint, b: WidthPoint)
  {
    a.after == Interpolate || b.before == Interpolate
  }

  /** The dash points kept for the interval ending at the j-th point. */
  function IntervalDashes(ws: seq<WidthPoint>, dw: seq<WidthPoint>, loop: bool, j: nat): seq<WidthPoint>
    requires j < |ws|
  {
    var prev := Previous(ws, loop, j);
    if Blends(prev, ws[j]) then Inside(dw, prev.position, ws[j].position) else []
  }

  /** The dash points kept for the first `j` intervals, in order. */
  function VisibleDashes(ws: seq<WidthPoint>, dw: seq<WidthPoint>, loop: bool, j: nat): seq<WidthPoint>
    requires j <= |ws|
  {
    if j == 0 then [] else VisibleDashes(ws, dw, loop, j - 1) + IntervalDashes(ws, dw, loop, j - 1)
  }

  /** The regular points kept for the first `m` dash runs, in order. */
  function VisibleWidths(ws: seq<WidthPoint>, dw: seq<WidthPoint>, m: nat): seq<WidthPoint>
    requires 2 * m <= |dw|
  {
    if m == 0 then []
    else VisibleWidths(ws, dw, m - 1) + Within(ws, dw[2 * m - 2].position, dw[2 * m - 1].position)
  }

  /** Lines 479-537: the filtered list, dash points first, then the
      regular points the dash runs cover. */
  method Filter(ws: seq<WidthPoint>, dw: seq<WidthPoint>, loop: bool) returns (f: seq<WidthPoint>)
    requires |ws| >= 1 && |dw| >= 2 && |dw| % 2 == 0
    ensures f == VisibleDashes(ws, dw, loop, |ws|) + VisibleWidths(ws, dw, |dw| / 2)
  {
    var dashes := KeepDashes(ws, dw, loop);
    var widths := KeepWidths(ws, dw);
    f := dashes + widths;
  }

  /** Lines 482-514: walk the intervals of the regular list (starting with
      the wrap-around one) and keep the dash points inside blending ones. */
  method KeepDashes(ws: seq<WidthPoint>, dw: seq<WidthPoint>, loop: bool) returns (f: seq<WidthPoint>)
    requires |ws| >= 1
    ensures f == VisibleDashes(ws, dw, loop, |ws|)
  {
    f := [];
    var j := 0;
    while j < |ws|
      invariant 0 <= j <= |ws|
      invariant f == VisibleDashes(ws, dw, loop, j)
    {
      var prev := if j > 0 then ws[j - 1] else if loop then ws[|ws| - 1] else ws[0];
      var next := ws[j];
      if prev.after == Interpolate || next.before == Interpolate {
        var inside := CollectInside(dw, prev.position, next.position);
        f := f + inside;
      }
      j := j + 1;
    }
  }

  /** Lines 500-509. */
  method CollectInside(dw: seq<WidthPoint>, lo: real, hi: real) returns (r: seq<WidthPoint>)
    ensures r == Inside(dw, lo, hi)
  {
    r := [];
    var i := 0;
    while i < |dw|
      invariant 0 <= i <= |dw|
      invariant r == Inside(dw[..i], lo, hi)
    {
      assert dw[..i + 1][..i] == dw[..i];
      if dw[i].position > lo && dw[i].position < hi {
        r := r + [dw[i]];
      }
      i := i + 1;
    }
    assert dw[..|dw|] == dw;
  }

  /** Lines 517-536: walk the dash runs pair by pair and keep the regular
      points within each. */
  method KeepWidths(ws: seq<WidthPoint>, dw: seq<WidthPoint>) returns (f: seq<WidthPoint>)
    requires |dw| >= 2 && |dw| % 2 == 0
    ensures f == VisibleWidths(ws, dw, |dw| / 2)
  {
    f := [];
    var m := 0;
    while m < |dw| / 2
      invariant 0 <= m <= |dw| / 2
      invariant f == VisibleWidths(ws, dw, m)
    {
      var covered := CollectWithin(ws, dw[2 * m].position, dw[2 * m + 1].position);
      f := f + covered;
      m := m + 1;
    }
  }

  /** Lines 523-530. */
  method CollectWithin(ws: seq<WidthPoint>, lo: real, hi: real) returns (r: seq<WidthPoint>)
    ensures r == Within(ws, lo, hi)
  {
    r := [];
    var i := 0;
    while i < |ws|
      invariant 0 <= i <= |ws|
      invariant r == Within(ws[..i], lo, hi)
    {
      assert ws[..i + 1][..i] == ws[..i];
      if ws[i].position <= hi && ws[i].position >= lo {
        r := r + [ws[i]];
      }
      i := i + 1;
    }
    assert ws[..|ws|] == ws;
  }

  /** A kept dash point is a dash point strictly inside a consecutive
      interval of the sorted regular list that has a blending side, and so
      inside the list's span (the wrap-around interval of a looped spline
      and the first interval of an open one are empty). */
  lemma {:induction false} VisibleDashInside(ws: seq<WidthPoint>, dw: seq<WidthPoint>, loop: bool, j: nat, x: WidthPoint)
    requires j <= |ws| && Sorted(ws)
    requires x in VisibleDashes(ws, dw, loop, j)
    ensures x in dw && ws[0].position < x.position < ws[|ws| - 1].position
    ensures exists k :: 1 <= k < |ws| && Blends(ws[k - 1], ws[k]) && ws[k - 1].position < x.position < ws[k].position
  {
    if x in VisibleDashes(ws, dw, loop, j - 1) {
      VisibleDashInside(ws, dw, loop, j - 1, x);
    } else {
      var prev := Previous(ws, loop, j - 1);
      assert x in IntervalDashes(ws, dw, loop, j - 1);
      assert Blends(prev, ws[j - 1]);
      InsideMembers(dw, prev.position, ws[j - 1].position, x);
      assert j - 1 >= 1;
      assert Blends(ws[j - 2], ws[j - 1]) && ws[j - 2].position < x.position < ws[j - 1].position;
    }
  }

  /** A kept dash point is one of the dash list's points. */
  lemma {:induction false} VisibleDashIsDash(ws: seq<WidthPoint>, dw: seq<WidthPoint>, loop: bool, j: nat, x: WidthPoint)
    requires j <= |ws|
    requires x in VisibleDashes(ws, dw, loop, j)
    ensures x in dw
  {
    if x in VisibleDashes(ws, dw, loop, j - 1) {
      VisibleDashIsDash(ws, dw, loop, j - 1, x);
    } else {
      var prev := Previous(ws, loop, j - 1);
      InsideMembers(dw, prev.position, ws[j - 1].position, x);
    }
  }

  /** The kept dash points of fewer intervals come first. */
  lemma {:induction false} VisibleDashesGrow(ws: seq<WidthPoint>, dw: seq<WidthPoint>, loop: bool, j: nat, k: nat, x: WidthPoint)
    requires j <= k <= |ws|
    requires x in VisibleDashes(ws, dw, loop, j)
    ensures x in VisibleDashes(ws, dw, loop, k)
  {
    if j < k {
      VisibleDashesGrow(ws, dw, loop, j, k - 1, x);
    }
  }

  /** Conversely, a dash point strictly inside a blending interval of the
      regular list is kept. */
  lemma DashInsideVisible(ws: seq<WidthPoint>, dw: seq<WidthPoint>, loop: bool, j: nat, x: WidthPoint)
    requires 1 <= j < |ws| && Blends(ws[j - 1], ws[j])
    requires x in dw && ws[j - 1].position < x.position < ws[j].position
    ensures x in VisibleDashes(ws, dw, loop, |ws|)
  {
    InsideMembers(dw, ws[j - 1].position, ws[j].position, x);
    assert x in IntervalDashes(ws, dw, loop, j);
    VisibleDashesGrow(ws, dw, loop, j + 1, |ws|, x);
  }

  /** A kept regular point is a regular point lying within a dash run. */
  lemma {:induction false} VisibleWidthCovered(ws: seq<WidthPoint>, dw: seq<WidthPoint>, m: nat, x: WidthPoint)
    requires 2 * m <= |dw|
    requires x in VisibleWidths(ws, dw, m)
    ensures x in ws
    ensures exists p :: 0 <= p < m && dw[2 * p].position <= x.position <= dw[2 * p + 1].position
  {
    var k := m - 1;
    VisibleWidthsStep(ws, dw, k, x);
    if x in VisibleWidths(ws, dw, k) {
      VisibleWidthCovered(ws, dw, k, x);
    } else {
      assert 0 <= k < m && dw[2 * k].position <= x.position <= dw[2 * k + 1].position;
    }
  }

  /** One more dash run keeps what the earlier runs kept and the regular
      points within the new run. */
  lemma VisibleWidthsStep(ws: seq<WidthPoint>, dw: seq<WidthPoint>, k: nat, x: WidthPoint)
    requires 2 * k + 2 <= |dw|
    ensures x in VisibleWidths(ws, dw, k + 1) <==>
      x in VisibleWidths(ws, dw, k) || (x in ws && dw[2 * k].position <= x.position <= dw[2 * k + 1].position)
  {
    var lo, hi := dw[2 * k].position, dw[2 * k + 1].position;
    assert VisibleWidths(ws, dw, k + 1) == VisibleWidths(ws, dw, k) + Within(ws, lo, hi);
    WithinMembers(ws, lo, hi, x);
  }

  lemma {:induction false} VisibleWidthsGrow(ws: seq<WidthPoint>, dw: seq<WidthPoint>, m: nat, k: nat, x: WidthPoint)
    requires m <= k && 2 * k <= |dw|
    requires x in VisibleWidths(ws, dw, m)
    ensures x in VisibleWidths(ws, dw, k)
  {
    if m < k {
      VisibleWidthsGrow(ws, dw, m, k - 1, x);
    }
  }

  /** Conversely, a regular point within a dash run is kept. */
  lemma CoveredWidthVisible(ws: seq<WidthPoint>, dw: seq<WidthPoint>, p: nat, x: WidthPoint)
    requires |dw| % 2 == 0 && p < |dw| / 2
    requires x in ws && dw[2 * p].position <= x.position <= dw[2 * p + 1].position
    ensures x in VisibleWidths(ws, dw, |dw| / 2)
  {
    VisibleWidthsStep(ws, dw, p, x);
    VisibleWidthsGrow(ws, dw, p + 1, |dw| / 2, x);
  }
}
