/** The spline position table of Advanced_Outline::sync() and the
    conversion between a whole-spline position and the local coordinate
    inside one bezier segment (bline_to_bezier / bezier_to_bline). */
module Positions {

  /** How many bezier segments a spline of `n` points has: one per point when
      looped, one less when open, and one for a single point. */
  function Segments(n: nat, loop: bool): (k: nat)
    requires n >= 1
    ensures k >= 1
  {
    if loop then n else if n == 1 then 1 else n - 1
  }

  /** bezier_size: the share of the whole spline [0, 1] one segment covers. */
  function BezierSize(n: nat, loop: bool): (r: real)
    requires n >= 1
    ensures r > 0.0
    ensures r * (Segments(n, loop) as real) == 1.0
  {
    1.0 / (if loop then n as real else if n == 1 then 1.0 else (n - 1) as real)
  }

  /** The first `k` multiples 0, s, 2s, ... of `s`. */
  function Multiples(k: nat, s: real): (m: seq<real>)
  {
    seq(k, i => (i as real) * s)
  }

  /** `m` with its last entry replaced by 1.0. */
  function ClosedAtOne(m: seq<real>): (c: seq<real>)
  {
    seq(|m|, i requires 0 <= i < |m| => if i == |m| - 1 then 1.0 else m[i])
  }

  /** The table sync() stores: entry i is the position i * bezier_size of
      spline point i, except that the last entry is written as exactly 1.0;
      the looped table has one more entry, the loop's closing point. */
  function PositionTable(n: nat, loop: bool): (pos: seq<real>)
    requires n >= 1
  {
    ClosedAtOne(Multiples(if loop then n + 1 else n, BezierSize(n, loop)))
  }

  /** The homogeneous shadow of a position table: every entry but the last
      goes through std_to_hom (unless `fast`), the last is 1.0. */
  function HomTable(pos: seq<real>, fast: bool, stdToHom: real -> real): (hpos: seq<real>)
    requires |pos| >= 1
  {
    seq(|pos|, i requires 0 <= i < |pos| =>
      if i == |pos| - 1 then 1.0 else if fast then pos[i] else stdToHom(pos[i]))
  }

  /** sync() lines 207-228: push bindex * bezier_size per spline point, then
      push 1.0 (looped) or replace the last entry by exactly 1.0 (open). */
  method BuildPositions(n: nat, loop: bool, fast: bool, stdToHom: real -> real)
    returns (pos: seq<real>, hpos: seq<real>)
    requires n >= 1 && (loop || n >= 2)
    ensures pos == PositionTable(n, loop)
    ensures hpos == HomTable(pos, fast, stdToHom)
  {
    var size := BezierSize(n, loop);
    pos, hpos := [], [];
    var bindex := 0.0;
    var k := 0;
    while k < n
      invariant 0 <= k <= n && bindex == k as real
      invariant pos == Multiples(k, size)
      invariant |hpos| == k
      invariant forall i :: 0 <= i < k ==> hpos[i] == if fast then pos[i] else stdToHom(pos[i])
    {
      MultiplesSnoc(k, size);
      var p := bindex * size;
      assert p == (k as real) * size;
      pos := pos + [p];
      hpos := hpos + [if fast then pos[|pos| - 1] else stdToHom(pos[|pos| - 1])];
      bindex := bindex + 1.0;
      k := k + 1;
    }
    if loop {
      pos := pos + [1.0];
      hpos := hpos + [1.0];
    } else {
      pos := pos[..n - 1] + [1.0];
      hpos := hpos[..n - 1] + [1.0];
    }
    assert pos == PositionTable(n, loop);
    forall i | 0 <= i < |pos| ensures hpos[i] == HomTable(pos, fast, stdToHom)[i] {
    }
  }

  lemma MultiplesSnoc(k: nat, s: real)
    ensures Multiples(k + 1, s) == Multiples(k, s) + [(k as real) * s]
  {
    var m, m' := Multiples(k, s), Multiples(k + 1, s);
    assert |m'| == |m + [(k as real) * s]|;
    forall i | 0 <= i < k + 1 ensures m'[i] == (m + [(k as real) * s])[i] {
      if i < k {
        assert m'[i] == (i as real) * s == m[i];
      }
    }
  }

  /** The position table starts at 0, ends at exactly 1, has n + 1 entries
      when looped and n when open, is evenly spaced by bezier_size and
      strictly increasing. */
  lemma {:induction false} PositionTableShape(n: nat, loop: bool)
    requires n >= 1 && (loop || n >= 2)
    ensures |PositionTable(n, loop)| == if loop then n + 1 else n
    ensures PositionTable(n, loop)[0] == 0.0
    ensures PositionTable(n, loop)[|PositionTable(n, loop)| - 1] == 1.0
    ensures forall i :: 0 <= i < |PositionTable(n, loop)| ==>
      PositionTable(n, loop)[i] == (i as real) * BezierSize(n, loop)
    ensures forall i, j :: 0 <= i < j < |PositionTable(n, loop)| ==>
      PositionTable(n, loop)[i] < PositionTable(n, loop)[j]
  {
    PositionTableIsMultiples(n, loop);
    MultiplesShape(Segments(n, loop) + 1, BezierSize(n, loop));
  }

  /** The k multiples of a step that divides [0, 1] into k - 1 equal
      parts start at 0, end at 1 and increase strictly. */
  lemma MultiplesShape(k: nat, s: real)
    requires k >= 2 && s > 0.0 && s * ((k - 1) as real) == 1.0
    ensures |Multiples(k, s)| == k
    ensures Multiples(k, s)[0] == 0.0
    ensures Multiples(k, s)[k - 1] == 1.0
    ensures forall i :: 0 <= i < k ==> Multiples(k, s)[i] == (i as real) * s
    ensures forall i, j :: 0 <= i < j < k ==> Multiples(k, s)[i] < Multiples(k, s)[j]
  {
    var t := Multiples(k, s);
    assert t[0] == 0.0 * s;
    assert t[k - 1] == ((k - 1) as real) * s;
    EvenlySpaced(k, s);
  }

  /** In exact arithmetic the table is exactly the multiples of
      bezier_size, the stored 1.0 included. */
  lemma PositionTableIsMultiples(n: nat, loop: bool)
    requires n >= 1 && (loop || n >= 2)
    ensures PositionTable(n, loop) == Multiples(Segments(n, loop) + 1, BezierSize(n, loop))
  {
    var seg := Segments(n, loop);
    assert (if loop then n + 1 else n) == seg + 1;
    LastMultipleIsOne(seg, BezierSize(n, loop));
  }

  /** Consecutive table entries are exactly bezier_size apart. */
  lemma PositionTableSpacing(n: nat, loop: bool, i: nat)
    requires n >= 1 && (loop || n >= 2)
    requires i + 1 < |PositionTable(n, loop)|
    ensures PositionTable(n, loop)[i + 1] - PositionTable(n, loop)[i] == BezierSize(n, loop)
  {
    PositionTableShape(n, loop);
    MulSpacing(i, i + 1, BezierSize(n, loop));
  }

  /** In exact arithmetic the 1.0 that sync() stores last is the value the
      formula gives anyway: the table is exactly the multiples of the size. */
  lemma LastMultipleIsOne(seg: nat, s: real)
    requires s * (seg as real) == 1.0
    ensures ClosedAtOne(Multiples(seg + 1, s)) == Multiples(seg + 1, s)
  {
    var c, m := ClosedAtOne(Multiples(seg + 1, s)), Multiples(seg + 1, s);
    forall i | 0 <= i < seg + 1 ensures c[i] == m[i] {
      if i == seg {
        assert m[i] == (seg as real) * s;
      }
    }
  }

  /** The multiples 0, s, 2s, ... of a positive step: spaced by s and
      strictly increasing. */
  lemma EvenlySpaced(k: nat, s: real)
    requires s > 0.0
    ensures forall i :: 0 <= i < k - 1 ==> Multiples(k, s)[i + 1] - Multiples(k, s)[i] == s
    ensures forall i, j :: 0 <= i < j < k ==> Multiples(k, s)[i] < Multiples(k, s)[j]
  {
    var pos := Multiples(k, s);
    forall i | 0 <= i < k - 1 ensures pos[i + 1] - pos[i] == s {
      MulSpacing(i, i + 1, s);
    }
    forall i, j | 0 <= i < j < k ensures pos[i] < pos[j] {
      assert pos[i] == (i as real) * s && pos[j] == (j as real) * s;
      MulSpacing(i, j, s);
      MulPositive((j - i) as real, s);
    }
  }

  lemma MulSpacing(i: int, j: int, s: real)
    ensures (j as real) * s - (i as real) * s == ((j - i) as real) * s
  {
  }

  lemma MulPositive(a: real, b: real)
    requires a > 0.0 && b > 0.0
    ensures a * b > 0.0
  {
  }

  /** Every entry of the table lies in [0, 1]. */
  lemma PositionTableInUnit(n: nat, loop: bool, i: nat)
    requires n >= 1 && (loop || n >= 2)
    requires i < |PositionTable(n, loop)|
    ensures 0.0 <= PositionTable(n, loop)[i] <= 1.0
  {
    PositionTableShape(n, loop);
    if i < |PositionTable(n, loop)| - 1 {
      assert PositionTable(n, loop)[i] < PositionTable(n, loop)[|PositionTable(n, loop)| - 1];
    }
  }

  /** With a std_to_hom that is strictly increasing on [0, 1] and reaches 1
      at 1, the homogeneous table is strictly increasing as well. */
  lemma HomTableIncreasing(n: nat, loop: bool, fast: bool, stdToHom: real -> real)
    requires n >= 1 && (loop || n >= 2)
    requires stdToHom(1.0) == 1.0
    requires forall x, y :: 0.0 <= x < y <= 1.0 ==> stdToHom(x) < stdToHom(y)
    ensures forall i, j :: 0 <= i < j < |HomTable(PositionTable(n, loop), fast, stdToHom)| ==>
      HomTable(PositionTable(n, loop), fast, stdToHom)[i] < HomTable(PositionTable(n, loop), fast, stdToHom)[j]
  {
    var pos := PositionTable(n, loop);
    var hpos := HomTable(pos, fast, stdToHom);
    PositionTableShape(n, loop);
    forall i, j | 0 <= i < j < |hpos| ensures hpos[i] < hpos[j] {
      PositionTableInUnit(n, loop, i);
      PositionTableInUnit(n, loop, j);
      if j == |hpos| - 1 {
        assert pos[i] < pos[j] == 1.0;
      }
    }
  }

  /** bline_to_bezier: the local coordinate of `blinePos` in the segment
      that starts at `origin`; a zero segment size leaves it unchanged. */
  function BlineToBezier(blinePos: real, origin: real, bezierSize: real): (q: real)
    ensures bezierSize != 0.0 ==> origin + q * bezierSize == blinePos
    ensures bezierSize == 0.0 ==> q == blinePos
  {
    if bezierSize != 0.0 then (blinePos - origin) / bezierSize else blinePos
  }

  /** bezier_to_bline: the whole-spline position of local coordinate
      `bezierPos` in the segment that starts at `origin`. */
  function BezierToBline(bezierPos: real, origin: real, bezierSize: real): (p: real)
    ensures bezierSize != 0.0 ==> BlineToBezier(p, origin, bezierSize) == bezierPos
  {
    origin + bezierPos * bezierSize
  }

  /** The two conversions are inverse to each other for a non-zero size. */
  lemma ConversionRoundTrip(p: real, q: real, origin: real, size: real)
    requires size != 0.0
    ensures BlineToBezier(BezierToBline(q, origin, size), origin, size) == q
    ensures BezierToBline(BlineToBezier(p, origin, size), origin, size) == p
  {
  }

  /** Inside segment i of the table the local coordinate runs over [0, 1],
      from 0 at the segment's first point to 1 at its second. */
  lemma {:induction false} LocalCoordinateInUnit(n: nat, loop: bool, i: nat, p: real)
    requires n >= 1 && (loop || n >= 2)
    requires i + 1 < |PositionTable(n, loop)|
    requires PositionTable(n, loop)[i] <= p <= PositionTable(n, loop)[i + 1]
    ensures 0.0 <= BlineToBezier(p, PositionTable(n, loop)[i], BezierSize(n, loop)) <= 1.0
    ensures BlineToBezier(PositionTable(n, loop)[i], PositionTable(n, loop)[i], BezierSize(n, loop)) == 0.0
    ensures BlineToBezier(PositionTable(n, loop)[i + 1], PositionTable(n, loop)[i], BezierSize(n, loop)) == 1.0
  {
    var pos, size := PositionTable(n, loop), BezierSize(n, loop);
    PositionTableShape(n, loop);
    PositionTableSpacing(n, loop, i);
    var q := BlineToBezier(p, pos[i], size);
    assert q * size == p - pos[i];
    LocalBound(q, size, p - pos[i]);
  }

  lemma LocalBound(q: real, size: real, d: real)
    requires size > 0.0 && q * size == d && 0.0 <= d <= size
    ensures 0.0 <= q <= 1.0
  {
  }
}
