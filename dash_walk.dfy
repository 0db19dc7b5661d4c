/** The two dash walks of sync() (lines 373-390 and 418-438): from the start
    position forward to the end of the spline and backward to its origin,
    each laying down a pair of dash width points per dash item, cycling
    through the dash items. */
module DashWalk {
  import opened WidthPoints
  import opened DashOffset
  import opened Sequences

  /** What a walk needs: the dash items, the start position, the spline
      length, and how spline fractions become comparable positions. */
  datatype Walk = Walk(items: seq<DashItem>, start: real, blineLength: real,
                       homogeneous: bool, homToStd: real -> real)

  /** The guards under which sync() walks at all (lines 351-365). */
  ghost predicate ValidWalk(w: Walk)
  {
    |w.items| > 0 && w.blineLength > EPSILON && SumSteps(w.items) > EPSILON
  }

  /** A spline fraction as a position comparable with the width points:
      itself in homogeneous mode, hom_to_std of it otherwise. */
  function Comparable(homogeneous: bool, homToStd: real -> real, x: real): real
  {
    if homogeneous then x else homToStd(x)
  }

  // ---------------------------------------------------------------------
  // Cyclic stepping through the dash items

  /** The dash item the k-th step of a walk over `n` items uses: the
      iterator advanced and wrapped to the first item at the end. */
  function Cursor(n: nat, k: nat): (c: nat)
    requires n > 0
    ensures c < n
  {
    if k == 0 then 0
    else if Cursor(n, k - 1) + 1 == n then 0
    else Cursor(n, k - 1) + 1
  }

  /** The distance the first `k` steps of the walk cover. */
  function Walked(items: seq<DashItem>, k: nat): real
    requires |items| > 0
  {
    if k == 0 then 0.0
    else Walked(items, k - 1) + Step(items[Cursor(|items|, k - 1)])
  }

  lemma {:induction false} CursorFirstCycle(n: nat, k: nat)
    requires 0 <= k < n
    ensures Cursor(n, k) == k
  {
    if k > 0 {
      CursorFirstCycle(n, k - 1);
    }
  }

  /** The walk visits the items in order and comes back to the first one
      after a whole cycle. */
  lemma {:induction false} CursorPeriodic(n: nat, k: nat)
    requires n > 0
    ensures Cursor(n, k + n) == Cursor(n, k)
  {
    if k == 0 {
      CursorFirstCycle(n, n - 1);
    } else {
      CursorPeriodic(n, k - 1);
    }
  }

  /** Within the first cycle the walk has covered the steps of the items
      met so far. */
  lemma {:induction false} WalkedFirstCycle(items: seq<DashItem>, k: nat)
    requires 0 < |items| && k <= |items|
    ensures Walked(items, k) == SumSteps(items[..k])
  {
    if k > 0 {
      WalkedFirstCycle(items, k - 1);
      CursorFirstCycle(|items|, k - 1);
      assert items[..k][..k - 1] == items[..k - 1];
    }
  }

  /** Every whole cycle moves the walk on by the pattern's length. */
  lemma {:induction false} WalkedPeriodic(items: seq<DashItem>, k: nat)
    requires |items| > 0
    ensures Walked(items, k + |items|) == Walked(items, k) + SumSteps(items)
  {
    if k == 0 {
      WalkedFirstCycle(items, |items|);
      assert items[..|items|] == items;
    } else {
      WalkedPeriodic(items, k - 1);
      CursorPeriodic(|items|, k - 1);
    }
  }

  // ---------------------------------------------------------------------
  // Termination: the walk advances by the pattern length every cycle, and
  // within a cycle it never falls back further than the lowest prefix sum.

  /** The smallest total of a prefix of `s` (the empty prefix included). */
  function LowestPrefix(s: seq<DashItem>): (lo: real)
    ensures lo <= 0.0
    ensures forall j :: 0 <= j <= |s| ==> lo <= SumSteps(s[..j])
  {
    if |s| == 0 then 0.0
    else
      var lo' := LowestPrefix(s[..|s| - 1]);
      assert forall j :: 0 <= j < |s| ==> s[..|s| - 1][..j] == s[..j];
      assert s[..|s|] == s;
      if SumSteps(s) < lo' then SumSteps(s) else lo'
  }

  /** A bound on the whole cycles a walk can complete while it stays below
      `limit`. */
  function CycleBound(items: seq<DashItem>, limit: real): nat
    requires SumSteps(items) > 0.0
  {
    var q := (limit - LowestPrefix(items)) / SumSteps(items);
    if q < 0.0 then 0 else q.Floor + 1
  }

  lemma TimesSucc(k: int, y: real)
    ensures Times(k + 1, y) == Times(k, y) + y
  {
  }

  lemma BelowQuotient(c: nat, x: real, y: real)
    requires y > 0.0 && Times(c, y) < x
    ensures 0.0 < x / y && (c as real) < x / y
  {
  }

  lemma {:induction false} WalkBound(items: seq<DashItem>, cycles: nat, idx: nat, limit: real)
    requires idx <= |items| && SumSteps(items) > 0.0
    requires Times(cycles, SumSteps(items)) + SumSteps(items[..idx]) < limit
    ensures cycles < CycleBound(items, limit)
  {
    var lo := LowestPrefix(items);
    BelowQuotient(cycles, limit - lo, SumSteps(items));
  }

  /** One step of a walk, in terms of the item cursor and whole cycles. */
  lemma WalkStep(items: seq<DashItem>, count: nat, cycles: nat, idx: nat)
    requires 0 <= idx < |items| && idx == Cursor(|items|, count)
    requires Walked(items, count) == Times(cycles, SumSteps(items)) + SumSteps(items[..idx])
    ensures Walked(items, count + 1) == Walked(items, count) + Step(items[idx])
    ensures idx + 1 < |items| ==>
      (Cursor(|items|, count + 1) == idx + 1
       && Walked(items, count + 1) == Times(cycles, SumSteps(items)) + SumSteps(items[..idx + 1]))
    ensures idx + 1 == |items| ==>
      (Cursor(|items|, count + 1) == 0
       && Walked(items, count + 1) == Times(cycles + 1, SumSteps(items)) + SumSteps(items[..0]))
  {
    assert items[..idx + 1][..idx] == items[..idx];
    if idx + 1 == |items| {
      assert items[..idx + 1] == items;
      TimesSucc(cycles, SumSteps(items));
    }
  }

  // ---------------------------------------------------------------------
  // The forward walk

  /** The two width points of the run of the k-th item met walking forward:
      from the end of its gap to the end of its run. */
  function ForwardBefore(w: Walk, k: nat): WidthPoint
    requires ValidWalk(w)
  {
    var it := w.items[Cursor(|w.items|, k)];
    var d := w.start + Walked(w.items, k);
    WidthPoint(Comparable(w.homogeneous, w.homToStd, (d + it.offset) / w.blineLength),
               1.0, it.before, Interpolate, true)
  }

  function ForwardAfter(w: Walk, k: nat): WidthPoint
    requires ValidWalk(w)
  {
    var it := w.items[Cursor(|w.items|, k)];
    var d := w.start + Walked(w.items, k);
    WidthPoint(Comparable(w.homogeneous, w.homToStd, (d + it.offset + it.length) / w.blineLength),
               1.0, Interpolate, it.after, true)
  }

  /** `dw` holds the pairs of the steps the forward walk takes: one for
      every step that starts before the end of the spline, in order, and
      `count` of them. */
  ghost predicate ForwardWalked(w: Walk, dw: seq<WidthPoint>, count: nat)
    requires ValidWalk(w)
  {
    && StepsBeforeEnd(w.items, w.start, w.blineLength, count)
    && w.start + Walked(w.items, count) >= w.blineLength
    && ForwardPairs(w, dw, count)
  }

  /** Each of the first `count` forward steps starts before the end. */
  ghost predicate StepsBeforeEnd(items: seq<DashItem>, start: real, blineLength: real, count: nat)
    requires |items| > 0
  {
    forall k :: 0 <= k < count ==> start + Walked(items, k) < blineLength
  }

  /** `dw` is the pairs of the first `count` forward steps, in order. */
  ghost predicate ForwardPairs(w: Walk, dw: seq<WidthPoint>, count: nat)
    requires ValidWalk(w)
  {
    && |dw| == 2 * count
    && (forall k :: 0 <= k < count ==> dw[2 * k] == ForwardBefore(w, k))
    && (forall k :: 0 <= k < count ==> dw[2 * k + 1] == ForwardAfter(w, k))
  }

  lemma AppendPair(w: Walk, dw: seq<WidthPoint>, count: nat)
    requires ValidWalk(w) && ForwardPairs(w, dw, count)
    ensures ForwardPairs(w, dw + [ForwardBefore(w, count), ForwardAfter(w, count)], count + 1)
  {
  }

  /** One step of the forward walk from a point before the end: the
      cursor and the walked distance advance and the step's pair is
      appended. */
  lemma ForwardStep(w: Walk, dw: seq<WidthPoint>, count: nat, cycles: nat, idx: nat,
                    before: WidthPoint, after: WidthPoint)
    requires ValidWalk(w)
    requires before == ForwardBefore(w, count) && after == ForwardAfter(w, count)
    requires 0 <= idx < |w.items| && idx == Cursor(|w.items|, count)
    requires Walked(w.items, count) == Times(cycles, SumSteps(w.items)) + SumSteps(w.items[..idx])
    requires StepsBeforeEnd(w.items, w.start, w.blineLength, count)
    requires w.start + Walked(w.items, count) < w.blineLength
    requires ForwardPairs(w, dw, count)
    ensures var s := w.items;
      var last := idx + 1 == |s|;
      var idx' := if last then 0 else idx + 1;
      && idx' == Cursor(|s|, count + 1)
      && Walked(s, count + 1) == Walked(s, count) + Step(s[idx])
      && Walked(s, count + 1) == Times(if last then cycles + 1 else cycles, SumSteps(s)) + SumSteps(s[..idx'])
      && StepsBeforeEnd(s, w.start, w.blineLength, count + 1)
      && ForwardPairs(w, dw + [before, after], count + 1)
  {
    WalkStep(w.items, count, cycles, idx);
    AppendPair(w, dw, count);
  }

  /** The pair the forward walk's step `count` builds from the item under
      the cursor and the distance walked. */
  lemma ForwardPointsAt(w: Walk, count: nat, idx: nat, dpos: real)
    requires ValidWalk(w) && idx < |w.items| && idx == Cursor(|w.items|, count)
    requires dpos == w.start + Walked(w.items, count)
    ensures var it := w.items[idx];
      && ForwardBefore(w, count)
         == WidthPoint(Comparable(w.homogeneous, w.homToStd, (dpos + it.offset) / w.blineLength),
                       1.0, it.before, Interpolate, true)
      && ForwardAfter(w, count)
         == WidthPoint(Comparable(w.homogeneous, w.homToStd, (dpos + it.offset + it.length) / w.blineLength),
                       1.0, Interpolate, it.after, true)
  {
  }

  /** Lines 373-390. */
  method WalkForward(w: Walk) returns (dw: seq<WidthPoint>, count: nat)
    requires ValidWalk(w)
    ensures ForwardWalked(w, dw, count)
  {
    var n := |w.items|;
    ghost var cycle := SumSteps(w.items);
    ghost var cycles: nat := 0;
    var dpos := w.start;
    var idx := 0;
    dw, count := [], 0;
    while dpos < w.blineLength
      invariant 0 <= idx < n && idx == Cursor(n, count)
      invariant dpos == w.start + Walked(w.items, count)
      invariant Walked(w.items, count) == Times(cycles, cycle) + SumSteps(w.items[..idx])
      invariant StepsBeforeEnd(w.items, w.start, w.blineLength, count)
      invariant ForwardPairs(w, dw, count)
      decreases CycleBound(w.items, w.blineLength - w.start) - cycles, n - idx
    {
      WalkBound(w.items, cycles, idx, w.blineLength - w.start);
      var it := w.items[idx];
      var beforePos := (dpos + it.offset) / w.blineLength;
      var afterPos := (dpos + it.offset + it.length) / w.blineLength;
      beforePos := if w.homogeneous then beforePos else w.homToStd(beforePos);
      afterPos := if w.homogeneous then afterPos else w.homToStd(afterPos);
      var before := WidthPoint(beforePos, 1.0, it.before, Interpolate, true);
      var after := WidthPoint(afterPos, 1.0, Interpolate, it.after, true);
      ForwardPointsAt(w, count, idx, dpos);
      ForwardStep(w, dw, count, cycles, idx, before, after);
      dw := dw + [before, after];
      dpos := dpos + (it.offset + it.length);
      count := count + 1;
      if idx + 1 == n {
        cycles := cycles + 1;
        idx := 0;
      } else {
        idx := idx + 1;
      }
    }
  }

  // ---------------------------------------------------------------------
  // The backward walk

  lemma {:induction false} SumStepsCons(x: DashItem, t: seq<DashItem>)
    ensures SumSteps([x] + t) == Step(x) + SumSteps(t)
  {
    if |t| > 0 {
      assert ([x] + t)[..|t|] == [x] + t[..|t| - 1];
      SumStepsCons(x, t[..|t| - 1]);
    }
  }

  /** Walking the pattern backward covers the same cycle length. */
  lemma {:induction false} SumStepsReversed(s: seq<DashItem>)
    ensures SumSteps(Reversed(s)) == SumSteps(s)
  {
    if |s| > 0 {
      var s' := s[..|s| - 1];
      assert Reversed(s) == [s[|s| - 1]] + Reversed(s');
      SumStepsCons(s[|s| - 1], Reversed(s'));
      SumStepsReversed(s');
    }
  }

  /** The two width points of the run of the k-th item met walking
      backward: the run ends where the walk stands and starts its length
      earlier. */
  function BackwardBefore(w: Walk, k: nat): WidthPoint
    requires ValidWalk(w)
  {
    var r := Reversed(w.items);
    var it := r[Cursor(|r|, k)];
    var d := w.start - Walked(r, k);
    WidthPoint(Comparable(w.homogeneous, w.homToStd, (d - it.length) / w.blineLength),
               1.0, it.before, Interpolate, true)
  }

  function BackwardAfter(w: Walk, k: nat): WidthPoint
    requires ValidWalk(w)
  {
    var r := Reversed(w.items);
    var it := r[Cursor(|r|, k)];
    var d := w.start - Walked(r, k);
    WidthPoint(Comparable(w.homogeneous, w.homToStd, d / w.blineLength),
               1.0, Interpolate, it.after, true)
  }

  /** `dw` is `rest` with the pairs of the backward walk's steps put in
      front of it: one for every step that starts after the spline's
      origin, the latest step first, and `count` of them. */
  ghost predicate BackwardWalked(w: Walk, rest: seq<WidthPoint>, dw: seq<WidthPoint>, count: nat)
    requires ValidWalk(w)
  {
    && StepsAfterOrigin(Reversed(w.items), w.start, count)
    && w.start - Walked(Reversed(w.items), count) <= 0.0
    && BackwardPairs(w, rest, dw, count)
  }

  /** Each of the first `count` backward steps starts after the origin. */
  ghost predicate StepsAfterOrigin(r: seq<DashItem>, start: real, count: nat)
    requires |r| > 0
  {
    forall k :: 0 <= k < count ==> start - Walked(r, k) > 0.0
  }

  /** `dw` is `rest` preceded by the pairs of the first `count` backward
      steps, the latest step first. */
  ghost predicate BackwardPairs(w: Walk, rest: seq<WidthPoint>, dw: seq<WidthPoint>, count: nat)
    requires ValidWalk(w)
  {
    && |dw| == 2 * count + |rest|
    && dw[2 * count..] == rest
    && (forall k :: 0 <= k < count ==> dw[2 * (count - 1 - k)] == BackwardBefore(w, k))
    && (forall k :: 0 <= k < count ==> dw[2 * (count - 1 - k) + 1] == BackwardAfter(w, k))
  }

  lemma PrependPair(w: Walk, rest: seq<WidthPoint>, dw: seq<WidthPoint>, count: nat)
    requires ValidWalk(w) && BackwardPairs(w, rest, dw, count)
    ensures BackwardPairs(w, rest, [BackwardBefore(w, count), BackwardAfter(w, count)] + dw, count + 1)
  {
    var dw' := [BackwardBefore(w, count), BackwardAfter(w, count)] + dw;
    assert dw'[2 * (count + 1)..] == dw[2 * count..];
    forall k | 0 <= k < count + 1
      ensures dw'[2 * (count - k)] == BackwardBefore(w, k)
      ensures dw'[2 * (count - k) + 1] == BackwardAfter(w, k)
    {
      if k < count {
        assert dw'[2 * (count - k)] == dw[2 * (count - 1 - k)];
        assert dw'[2 * (count - k) + 1] == dw[2 * (count - 1 - k) + 1];
      }
    }
  }

  /** One step of the backward walk keeps its loop invariant. */
  lemma BackwardStep(w: Walk, rest: seq<WidthPoint>, dw: seq<WidthPoint>, count: nat, cycles: nat, idx: nat,
                     before: WidthPoint, after: WidthPoint)
    requires ValidWalk(w)
    requires before == BackwardBefore(w, count) && after == BackwardAfter(w, count)
    requires 0 <= idx < |w.items| && idx == Cursor(|w.items|, count)
    requires Walked(Reversed(w.items), count)
             == Times(cycles, SumSteps(Reversed(w.items))) + SumSteps(Reversed(w.items)[..idx])
    requires StepsAfterOrigin(Reversed(w.items), w.start, count)
    requires w.start - Walked(Reversed(w.items), count) > 0.0
    requires BackwardPairs(w, rest, dw, count)
    ensures var r := Reversed(w.items);
      var last := idx + 1 == |r|;
      var idx' := if last then 0 else idx + 1;
      && idx' == Cursor(|r|, count + 1)
      && Walked(r, count + 1) == Walked(r, count) + Step(r[idx])
      && Walked(r, count + 1) == Times(if last then cycles + 1 else cycles, SumSteps(r)) + SumSteps(r[..idx'])
      && StepsAfterOrigin(r, w.start, count + 1)
      && BackwardPairs(w, rest, [before, after] + dw, count + 1)
  {
    var r := Reversed(w.items);
    WalkStep(r, count, cycles, idx);
    PrependPair(w, rest, dw, count);
  }

  /** The pair the backward walk's step `count` builds from the item under
      its cursor and the position it stands at. */
  lemma BackwardPointsAt(w: Walk, count: nat, idx: nat, dpos: real)
    requires ValidWalk(w) && idx < |w.items| && idx == Cursor(|w.items|, count)
    requires dpos == w.start - Walked(Reversed(w.items), count)
    ensures var it := Reversed(w.items)[idx];
      && BackwardBefore(w, count)
         == WidthPoint(Comparable(w.homogeneous, w.homToStd, (dpos - it.length) / w.blineLength),
                       1.0, it.before, Interpolate, true)
      && BackwardAfter(w, count)
         == WidthPoint(Comparable(w.homogeneous, w.homToStd, dpos / w.blineLength),
                       1.0, Interpolate, it.after, true)
  {
  }

  /** Lines 418-438: each pair is inserted at the front of the list. */
  method WalkBackward(w: Walk, rest: seq<WidthPoint>) returns (dw: seq<WidthPoint>, count: nat)
    requires ValidWalk(w)
    ensures BackwardWalked(w, rest, dw, count)
  {
    var r := Reversed(w.items);
    var n := |r|;
    SumStepsReversed(w.items);
    ghost var cycle := SumSteps(r);
    ghost var cycles: nat := 0;
    var dpos := w.start;
    var idx := 0;
    dw, count := rest, 0;
    while dpos > 0.0
      invariant 0 <= idx < n && idx == Cursor(n, count)
      invariant dpos == w.start - Walked(r, count)
      invariant Walked(r, count) == Times(cycles, cycle) + SumSteps(r[..idx])
      invariant StepsAfterOrigin(r, w.start, count)
      invariant BackwardPairs(w, rest, dw, count)
      decreases CycleBound(r, w.start) - cycles, n - idx
    {
      WalkBound(r, cycles, idx, w.start);
      var it := r[idx];
      var beforePos := (dpos - it.length) / w.blineLength;
      var afterPos := dpos / w.blineLength;
      beforePos := if w.homogeneous then beforePos else w.homToStd(beforePos);
      afterPos := if w.homogeneous then afterPos else w.homToStd(afterPos);
      var before := WidthPoint(beforePos, 1.0, it.before, Interpolate, true);
      var after := WidthPoint(afterPos, 1.0, Interpolate, it.after, true);
      BackwardPointsAt(w, count, idx, dpos);
      BackwardStep(w, rest, dw, count, cycles, idx, before, after);
      dw := [before, after] + dw;
      dpos := dpos - (it.offset + it.length);
      count := count + 1;
      if idx + 1 == n {
        cycles := cycles + 1;
        idx := 0;
      } else {
        idx := idx + 1;
      }
    }
  }
}
