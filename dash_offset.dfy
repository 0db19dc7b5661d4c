/** The dash pattern's cycle length and the normalisation of the dash
    offset into the start position of the dash walks (sync() lines 361-372). */
module DashOffset {
  import opened WidthPoints

  /** EPSILON of advanced_outline.cpp. */
  const EPSILON: real := 0.000000001

  /** How far one dash item moves the walk: its gap plus its run. */
  function Step(it: DashItem): real { it.offset + it.length }

  /** The total of the steps of `s`: dashes_length for the whole pattern. */
  function SumSteps(s: seq<DashItem>): real
  {
    if |s| == 0 then 0.0 else SumSteps(s[..|s| - 1]) + Step(s[|s| - 1])
  }

  /** Lines 361-364: add up length + offset of every dash item. */
  method DashesLength(items: seq<DashItem>) returns (total: real)
    ensures total == SumSteps(items)
  {
    total := 0.0;
    var i := 0;
    while i < |items|
      invariant 0 <= i <= |items|
      invariant total == SumSteps(items[..i])
    {
      assert items[..i + 1][..i] == items[..i];
      total := total + (items[i].length + items[i].offset);
      i := i + 1;
    }
    assert items[..|items|] == items;
  }

  function Abs(x: real): real { if x < 0.0 then -x else x }

  /** `k` whole cycles of length `y`. */
  function Times(k: int, y: real): real { (k as real) * y }

  /** `d` is a whole number of cycles of length `y`. */
  ghost predicate IsMultiple(d: real, y: real)
  {
    exists k: int :: d == Times(k, y)
  }

  /** Rounding toward zero, as C's fmod does. */
  function Trunc(x: real): (t: int)
    ensures x >= 0.0 ==> 0.0 <= x - t as real < 1.0
    ensures x < 0.0 ==> -1.0 < x - t as real <= 0.0
  {
    if x >= 0.0 then x.Floor else -((-x).Floor)
  }

  /** C's fmod: the remainder of x / y rounded toward zero. It has the sign
      of `x`, is smaller than `y` in magnitude and differs from `x` by a
      whole multiple of `y`. */
  function Fmod(x: real, y: real): (r: real)
    requires y > 0.0
    ensures -y < r < y
    ensures x >= 0.0 ==> r >= 0.0
    ensures x <= 0.0 ==> r <= 0.0
    ensures IsMultiple(x - r, y)
  {
    var t := Trunc(x / y);
    Remainder(x, y);
    assert x - (x - Times(t, y)) == Times(t, y);
    x - Times(t, y)
  }

  lemma Remainder(x: real, y: real)
    requires y > 0.0
    ensures -y < x - Times(Trunc(x / y), y)
    ensures x - Times(Trunc(x / y), y) < y
    ensures x >= 0.0 ==> x - Times(Trunc(x / y), y) >= 0.0
    ensures x <= 0.0 ==> x - Times(Trunc(x / y), y) <= 0.0
  {
    var q := x / y;
    var t := Trunc(q);
    QuotientTimes(x, y);
    Distribute(q, t as real, y);
    SignOfQuotient(x, y);
    var f := q - t as real;
    var r := x - Times(t, y);
    assert r == f * y;
    FractionTimes(f, y, r);
  }

  lemma QuotientTimes(x: real, y: real)
    requires y > 0.0
    ensures (x / y) * y == x
  {
  }

  lemma Distribute(q: real, t: real, y: real)
    ensures q * y - t * y == (q - t) * y
  {
  }

  lemma SignOfQuotient(x: real, y: real)
    requires y > 0.0
    ensures x >= 0.0 ==> x / y >= 0.0
    ensures x <= 0.0 ==> x / y <= 0.0
  {
  }

  lemma FractionTimes(f: real, y: real, r: real)
    requires y > 0.0 && -1.0 < f < 1.0 && r == f * y
    ensures -y < r < y
    ensures f >= 0.0 ==> r >= 0.0
    ensures f <= 0.0 ==> r <= 0.0
  {
  }

  lemma MultipleDifference(a: real, b: real, y: real)
    requires IsMultiple(a, y) && IsMultiple(b, y)
    ensures IsMultiple(a - b, y) && IsMultiple(a + b, y)
  {
    var i :| a == Times(i, y);
    var j :| b == Times(j, y);
    assert a - b == Times(i - j, y);
    assert a + b == Times(i + j, y);
  }

  lemma CycleIsMultiple(y: real)
    ensures IsMultiple(y, y) && IsMultiple(0.0, y)
  {
    assert y == Times(1, y);
    assert 0.0 == Times(0, y);
  }

  /** Lines 366-370: the offset brought into [-L, L] by fmod when its
      magnitude exceeds the cycle length L, then made non-negative by adding
      L: the start position `dpos` of both dash walks. It lies in [0, L]
      and differs from the offset by whole cycles. */
  function StartPosition(dashOffset: real, cycle: real): (dpos: real)
    requires cycle > 0.0
    ensures 0.0 <= dpos <= cycle
    ensures IsMultiple(dashOffset - dpos, cycle)
  {
    var d := if Abs(dashOffset) > cycle then Fmod(dashOffset, cycle) else dashOffset;
    CycleIsMultiple(cycle);
    assert IsMultiple(dashOffset - d, cycle);
    if d >= 0.0 then d
    else
      MultipleDifference(dashOffset - d, cycle, cycle);
      assert dashOffset - (cycle + d) == (dashOffset - d) - cycle;
      cycle + d
  }

  /** Shifting the dash offset by one whole cycle does not move the start
      of the walks, except that a start at 0 and a start at L (the same
      point of the pattern) can trade places. This is about the start only:
      when the two starts trade places, the walks from them lay down their
      pairs from different first items. */
  lemma {:induction false} StartPositionCycleShift(dashOffset: real, cycle: real)
    requires cycle > 0.0
    ensures var a, b := StartPosition(dashOffset + cycle, cycle), StartPosition(dashOffset, cycle);
      a == b || (a == 0.0 && b == cycle) || (a == cycle && b == 0.0)
  {
    var a, b := StartPosition(dashOffset + cycle, cycle), StartPosition(dashOffset, cycle);
    CycleIsMultiple(cycle);
    MultipleDifference(dashOffset + cycle - a, dashOffset - b, cycle);
    assert (dashOffset + cycle - a) - (dashOffset - b) == cycle - (a - b);
    MultipleDifference(cycle, cycle - (a - b), cycle);
    assert cycle - (cycle - (a - b)) == a - b;
    CloseMultiples(a, b, cycle);
  }

  /** Two points of [0, L] a whole number of cycles apart are equal or are
      the two ends 0 and L. */
  lemma CloseMultiples(a: real, b: real, y: real)
    requires y > 0.0 && 0.0 <= a <= y && 0.0 <= b <= y && IsMultiple(a - b, y)
    ensures a == b || (a == 0.0 && b == y) || (a == y && b == 0.0)
  {
    var k :| a - b == Times(k, y);
    if k >= 2 || k <= -2 {
      FarMultiple(k, y);
    } else if k == 1 {
      assert Times(k, y) == y;
    } else if k == -1 {
      assert Times(k, y) == -y;
    } else {
      assert Times(k, y) == 0.0;
    }
  }

  lemma FarMultiple(k: int, y: real)
    requires y > 0.0 && (k >= 2 || k <= -2)
    ensures Times(k, y) > y || Times(k, y) < -y
  {
    if k >= 2 {
      assert Times(k, y) == (k as real) * y;
      assert (k as real) >= 2.0;
      assert (k as real) * y >= 2.0 * y;
    } else {
      assert (k as real) <= -2.0;
      assert (k as real) * y <= -2.0 * y;
    }
  }
}
