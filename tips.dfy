/** The tips an outline gets where a width point's side is not blended
    (add_tip, advanced_outline.cpp lines 1296-1412). Every cap is described
    by the coordinates of its points in the frame of the vertex: `along`
    the tangent and `across` it (towards Perp(tangent)), both in units of
    the tip's width; AddTip is proved to emit exactly those points. */
module Tips {
  import opened Geometry
  import opened WidthPoints

  /** SAMPLES and ROUND_END_FACTOR of advanced_outline.cpp. */
  const SAMPLES: nat := 50
  const ROUND_END_FACTOR: real := 4.0

  /** The rounded caps' loop: n starts at 0, grows by 2/SAMPLES and runs
      while below 0.499999, so it takes the 13 values 0, 0.04, ..., 0.48. */
  const RoundLimit: real := 0.499999
  const RoundSamples: nat := 13

  /** The k-th value of the rounded caps' loop variable: k steps of
      2/SAMPLES. */
  function Sample(k: nat): real { (k as real) / 25.0 }

  /** Line 1299: the tip's half width. */
  function TipWidth(gv: real, expand: real, width: real, wp: WidthPoint): real
  {
    gv * (expand + width * 0.5 * wp.width)
  }

  /** A point in the frame of a tip: `along` the tangent and `across` it. */
  datatype Coord = Coord(along: real, across: real)

  /** The points `cs` placed at vertex `v` with tangent `t` and width `w`. */
  function Place(cs: seq<Coord>, v: Point, t: Vector, w: real): (ps: seq<Point>)
    ensures |ps| == |cs|
    ensures forall i :: 0 <= i < |cs| ==> ps[i] == Frame(v, t, w, cs[i].along, cs[i].across)
  {
    seq(|cs|, i requires 0 <= i < |cs| => Frame(v, t, w, cs[i].along, cs[i].across))
  }

  lemma PlaceConcat(x: seq<Coord>, y: seq<Coord>, v: Point, t: Vector, w: real)
    ensures Place(x + y, v, t, w) == Place(x, v, t, w) + Place(y, v, t, w)
  {
  }

  // ---------------------------------------------------------------------
  // The rounded caps' curves

  /** Lines 1305-1310: the curve of a rounded before-cap, from the vertex's
      offset on side b round the back of the vertex to its offset on side a. */
  function BeforeCurve(v: Point, t: Vector, w: real, s: real): Point
  {
    Hermite(Sub(v, Scale(Perp(t), w)), Add(v, Scale(Perp(t), w)),
            Scale(Scale(Neg(t), w), ROUND_END_FACTOR), Scale(Scale(t, w), ROUND_END_FACTOR), s)
  }

  /** Lines 1359-1364: the curve of a rounded after-cap, round the front. */
  function AfterCurve(v: Point, t: Vector, w: real, s: real): Point
  {
    Hermite(Sub(v, Scale(Perp(t), w)), Add(v, Scale(Perp(t), w)),
            Scale(Scale(t, w), ROUND_END_FACTOR), Scale(Scale(Neg(t), w), ROUND_END_FACTOR), s)
  }

  /** The frame coordinates of the two curves at parameter `s`. */
  function BeforeArc(s: real): Coord { Coord(ROUND_END_FACTOR * (H11(s) - H10(s)), H01(s) - H00(s)) }
  function AfterArc(s: real): Coord { Coord(ROUND_END_FACTOR * (H10(s) - H11(s)), H01(s) - H00(s)) }

  lemma HermiteComponent(vx: real, px: real, tx: real, w: real, a: real, b: real, c: real, d: real, sign: real)
    requires a + b == 1.0
    ensures (vx - px * w) * a + (vx + px * w) * b
            + ((sign * tx) * w * ROUND_END_FACTOR * c + ((-sign) * tx) * w * ROUND_END_FACTOR * d)
            == vx + (ROUND_END_FACTOR * sign * (c - d)) * w * tx + (b - a) * w * px
  {
  }

  /** The combination behind the before-curve, for any weights whose end
      weights sum to one, in the vertex's frame. */
  lemma BeforeCombineInFrame(v: Point, t: Vector, w: real, a: real, b: real, c: real, d: real)
    requires a + b == 1.0
    ensures Combine(Sub(v, Scale(Perp(t), w)), Add(v, Scale(Perp(t), w)),
                    Scale(Scale(Neg(t), w), ROUND_END_FACTOR), Scale(Scale(t, w), ROUND_END_FACTOR), a, b, c, d)
            == Frame(v, t, w, ROUND_END_FACTOR * (d - c), b - a)
  {
    var m := Combine(Sub(v, Scale(Perp(t), w)), Add(v, Scale(Perp(t), w)), Scale(Scale(Neg(t), w), ROUND_END_FACTOR), Scale(Scale(t, w), ROUND_END_FACTOR), a, b, c, d);
    var f := Frame(v, t, w, ROUND_END_FACTOR * (d - c), b - a);
    assert m.x == f.x by { HermiteComponent(v.x, t.y, t.x, w, a, b, c, d, -1.0); }
    assert m.y == f.y by { HermiteComponent(v.y, -t.x, t.y, w, a, b, c, d, -1.0); }
  }

  /** The same for the after-curve, whose end tangents are swapped. */
  lemma AfterCombineInFrame(v: Point, t: Vector, w: real, a: real, b: real, c: real, d: real)
    requires a + b == 1.0
    ensures Combine(Sub(v, Scale(Perp(t), w)), Add(v, Scale(Perp(t), w)),
                    Scale(Scale(t, w), ROUND_END_FACTOR), Scale(Scale(Neg(t), w), ROUND_END_FACTOR), a, b, c, d)
            == Frame(v, t, w, ROUND_END_FACTOR * (c - d), b - a)
  {
    var m := Combine(Sub(v, Scale(Perp(t), w)), Add(v, Scale(Perp(t), w)), Scale(Scale(t, w), ROUND_END_FACTOR), Scale(Scale(Neg(t), w), ROUND_END_FACTOR), a, b, c, d);
    var f := Frame(v, t, w, ROUND_END_FACTOR * (c - d), b - a);
    assert m.x == f.x by { HermiteComponent(v.x, t.y, t.x, w, a, b, c, d, 1.0); }
    assert m.y == f.y by { HermiteComponent(v.y, -t.x, t.y, w, a, b, c, d, 1.0); }
  }

  lemma BeforeCurveInFrame(v: Point, t: Vector, w: real, s: real)
    ensures BeforeCurve(v, t, w, s) == Frame(v, t, w, BeforeArc(s).along, BeforeArc(s).across)
  {
    assert H00(s) + H01(s) == 1.0;
    BeforeCombineInFrame(v, t, w, H00(s), H01(s), H10(s), H11(s));
  }

  lemma AfterCurveInFrame(v: Point, t: Vector, w: real, s: real)
    ensures AfterCurve(v, t, w, s) == Frame(v, t, w, AfterArc(s).along, AfterArc(s).across)
  {
    assert H00(s) + H01(s) == 1.0;
    AfterCombineInFrame(v, t, w, H00(s), H01(s), H10(s), H11(s));
  }

  /** The first `k` samples of a rounded before-cap's loop: side a walks
      the curve from its middle towards its end, side b towards its start. */
  function BeforeSamples(sideA: bool, k: nat): (cs: seq<Coord>)
    ensures |cs| == k
  {
    seq(k, i requires 0 <= i < k => BeforeArc(if sideA then 0.5 + Sample(i) else 0.5 - Sample(i)))
  }

  /** The first `k` samples of a rounded after-cap's loop: side a walks
      the curve from its end towards its middle, side b from its start. */
  function AfterSamples(sideA: bool, k: nat): (cs: seq<Coord>)
    ensures |cs| == k
  {
    seq(k, i requires 0 <= i < k => AfterArc(if sideA then 1.0 - Sample(i) else Sample(i)))
  }

  // ---------------------------------------------------------------------
  // The caps in frame coordinates

  /** How many points each kind of cap adds to each side. */
  function BeforeSize(ty: SideType): nat
  {
    match ty
    case Rounded => RoundSamples + 2
    case Squared => 4
    case Peak => 3
    case Flat => 1
    case Interpolate => 0
  }

  function AfterSize(ty: SideType): nat
  {
    match ty
    case Rounded => RoundSamples + 2
    case Squared => 5
    case Peak => 4
    case Flat => 1
    case Interpolate => 0
  }

  /** A rounded before-cap: the vertex, the loop's samples, and the
      curve's end on the cap's own side (lines 1311-1319). */
  function RoundedBefore(sideA: bool): (cs: seq<Coord>)
    ensures |cs| == RoundSamples + 2
    ensures cs[0] == Coord(0.0, 0.0)
    ensures cs[|cs| - 1] == Coord(0.0, if sideA then 1.0 else -1.0)
  {
    [Coord(0.0, 0.0)] + BeforeSamples(sideA, RoundSamples) + [Coord(0.0, if sideA then 1.0 else -1.0)]
  }

  /** A rounded after-cap: the loop's samples, the curve's middle (the
      cap's apex, a width ahead of the vertex), and the vertex (lines
      1365-1373). */
  function RoundedAfter(sideA: bool): (cs: seq<Coord>)
    ensures |cs| == RoundSamples + 2
    ensures cs[|cs| - 1] == Coord(0.0, 0.0)
    ensures cs[|cs| - 2] == Coord(1.0, 0.0)
  {
    AfterSamples(sideA, RoundSamples) + [Coord(1.0, 0.0), Coord(0.0, 0.0)]
  }

  /** Where the curves start and end: the vertex's offsets on the two
      sides. */
  lemma ArcEnds()
    ensures BeforeArc(0.0) == Coord(0.0, -1.0) && BeforeArc(1.0) == Coord(0.0, 1.0)
    ensures AfterArc(0.0) == Coord(0.0, -1.0) && AfterArc(1.0) == Coord(0.0, 1.0)
  {
    assert H00(0.0) == 1.0 && H01(0.0) == 0.0 && H10(0.0) == 0.0 && H11(0.0) == 0.0;
    assert H00(1.0) == 0.0 && H01(1.0) == 1.0 && H10(1.0) == 0.0 && H11(1.0) == 0.0;
  }

  /** The curves' middle: one width behind the vertex for a before-cap,
      one width ahead of it for an after-cap. */
  lemma ArcApex()
    ensures BeforeArc(0.5) == Coord(-1.0, 0.0) && AfterArc(0.5) == Coord(1.0, 0.0)
  {
    assert H00(0.5) == 0.5 && H01(0.5) == 0.5 && H10(0.5) == 0.125 && H11(0.5) == -0.125;
  }

  /** The cap before a width point, on side a or side b (lines 1301-1353):
      it starts at the vertex, goes round behind it, and a rounded, squared
      or peaked cap ends at the vertex's offset on its own side. */
  function BeforeCoords(ty: SideType, sideA: bool): (cs: seq<Coord>)
    ensures |cs| == BeforeSize(ty)
    ensures |cs| > 0 ==> cs[0] == Coord(0.0, 0.0)
    ensures ty in {Rounded, Squared, Peak} ==> cs[|cs| - 1] == Coord(0.0, if sideA then 1.0 else -1.0)
  {
    var side := if sideA then 1.0 else -1.0;
    match ty
    case Rounded => RoundedBefore(sideA)
    case Squared => [Coord(0.0, 0.0), Coord(-1.0, 0.0), Coord(-1.0, side), Coord(0.0, side)]
    case Peak => [Coord(0.0, 0.0), Coord(-1.0, 0.0), Coord(0.0, side)]
    case Flat => [Coord(0.0, 0.0)]
    case Interpolate => []
  }

  /** The cap after a width point (lines 1355-1411): it goes round in
      front of the vertex and ends at the vertex. */
  function AfterCoords(ty: SideType, sideA: bool): (cs: seq<Coord>)
    ensures |cs| == AfterSize(ty)
    ensures |cs| > 0 ==> cs[|cs| - 1] == Coord(0.0, 0.0)
    ensures ty in {Squared, Peak, Flat} ==> cs[0] == Coord(0.0, 0.0)
  {
    var side := if sideA then 1.0 else -1.0;
    match ty
    case Rounded => RoundedAfter(sideA)
    case Squared => [Coord(0.0, 0.0), Coord(1.0, 0.0), Coord(1.0, -side), Coord(0.0, -side), Coord(0.0, 0.0)]
    case Peak => [Coord(0.0, 0.0), Coord(1.0, 0.0), Coord(0.0, -side), Coord(0.0, 0.0)]
    case Flat => [Coord(0.0, 0.0)]
    case Interpolate => []
  }

  // ---------------------------------------------------------------------
  // add_tip

  /** Lines 1296-1412: append the before-cap and the after-cap of width
      point `wp` at `vertex` to both sides. */
  method AddTip(sideA: seq<Point>, sideB: seq<Point>, vertex: Point, tangent: Vector,
                wp: WidthPoint, gv: real, expand: real, width: real)
    returns (a: seq<Point>, b: seq<Point>)
    ensures var w := TipWidth(gv, expand, width, wp);
      && a == sideA + Place(BeforeCoords(wp.before, true), vertex, tangent, w)
                    + Place(AfterCoords(wp.after, true), vertex, tangent, w)
      && b == sideB + Place(BeforeCoords(wp.before, false), vertex, tangent, w)
                    + Place(AfterCoords(wp.after, false), vertex, tangent, w)
    ensures a[..|sideA|] == sideA && b[..|sideB|] == sideB
    ensures |a| - |sideA| == |b| - |sideB| == BeforeSize(wp.before) + AfterSize(wp.after)
  {
    var w := TipWidth(gv, expand, width, wp);
    var fa, fb := BeforeCap(vertex, tangent, wp.before, w);
    var ga, gb := AfterCap(vertex, tangent, wp.after, w);
    a, b := sideA + fa + ga, sideB + fb + gb;
  }

  // The literal points of the squared, peaked and flat caps are the frame
  // coordinates those caps list.

  /** The vertex itself. */
  lemma AtVertex(v: Point, t: Vector, w: real)
    ensures Place([Coord(0.0, 0.0)], v, t, w) == [v]
  {
    assert 0.0 * w * t.y == 0.0 && 0.0 * w * t.x == 0.0;
    assert Place([Coord(0.0, 0.0)], v, t, w)[0] == v;
  }

  /** A point one width behind the vertex. */
  lemma Behind(v: Point, t: Vector, w: real)
    ensures Frame(v, t, w, -1.0, 0.0) == Sub(v, Scale(t, w))
  {
    assert 0.0 * w * t.y == 0.0 && 0.0 * w * t.x == 0.0;
  }

  /** The vertex's offsets on side a and on side b. */
  lemma Across(v: Point, t: Vector, w: real)
    ensures Place([Coord(0.0, 1.0)], v, t, w) == [Add(v, Scale(Perp(t), w))]
  {
    assert 0.0 * w * t.y == 0.0 && 0.0 * w * t.x == 0.0;
    assert Place([Coord(0.0, 1.0)], v, t, w)[0] == Add(v, Scale(Perp(t), w));
  }

  lemma AcrossBack(v: Point, t: Vector, w: real)
    ensures Place([Coord(0.0, -1.0)], v, t, w) == [Sub(v, Scale(Perp(t), w))]
  {
    assert 0.0 * w * t.y == 0.0 && 0.0 * w * t.x == 0.0;
    assert Place([Coord(0.0, -1.0)], v, t, w)[0] == Sub(v, Scale(Perp(t), w));
  }

  lemma SquaredBeforePlaced(v: Point, t: Vector, w: real, sideA: bool)
    ensures Place(BeforeCoords(Squared, sideA), v, t, w)
            == if sideA then [v, Sub(v, Scale(t, w)), Add(v, Scale(Sub(Perp(t), t), w)), Add(v, Scale(Perp(t), w))]
               else [v, Sub(v, Scale(t, w)), Add(v, Scale(Sub(Neg(Perp(t)), t), w)), Sub(v, Scale(Perp(t), w))]
  {
    var ps := Place(BeforeCoords(Squared, sideA), v, t, w);
    assert ps[0] == v;
    assert ps[1] == Sub(v, Scale(t, w)) by { Behind(v, t, w); }
    if sideA {
      assert ps[2] == Add(v, Scale(Sub(Perp(t), t), w));
      assert ps[3] == Add(v, Scale(Perp(t), w));
    } else {
      assert ps[2] == Add(v, Scale(Sub(Neg(Perp(t)), t), w));
      assert ps[3] == Sub(v, Scale(Perp(t), w));
    }
  }

  lemma PeakBeforePlaced(v: Point, t: Vector, w: real, sideA: bool)
    ensures Place(BeforeCoords(Peak, sideA), v, t, w)
            == if sideA then [v, Sub(v, Scale(t, w)), Add(v, Scale(Perp(t), w))]
               else [v, Sub(v, Scale(t, w)), Sub(v, Scale(Perp(t), w))]
  {
    var ps := Place(BeforeCoords(Peak, sideA), v, t, w);
    assert ps[0] == v;
    assert ps[1] == Sub(v, Scale(t, w)) by { Behind(v, t, w); }
    if sideA {
      assert ps[2] == Add(v, Scale(Perp(t), w));
    } else {
      assert ps[2] == Sub(v, Scale(Perp(t), w));
    }
  }

  lemma SquaredAfterPlaced(v: Point, t: Vector, w: real, sideA: bool)
    ensures Place(AfterCoords(Squared, sideA), v, t, w)
            == if sideA then [v, Add(v, Scale(t, w)), Add(v, Scale(Add(Neg(Perp(t)), t), w)), Sub(v, Scale(Perp(t), w)), v]
               else [v, Add(v, Scale(t, w)), Add(v, Scale(Add(Perp(t), t), w)), Add(v, Scale(Perp(t), w)), v]
  {
    var ps := Place(AfterCoords(Squared, sideA), v, t, w);
    assert ps[0] == v;
    assert ps[1] == Add(v, Scale(t, w));
    if sideA {
      assert ps[2] == Add(v, Scale(Add(Neg(Perp(t)), t), w));
      assert ps[3] == Sub(v, Scale(Perp(t), w));
    } else {
      assert ps[2] == Add(v, Scale(Add(Perp(t), t), w));
      assert ps[3] == Add(v, Scale(Perp(t), w));
    }
    assert ps[4] == v;
  }

  lemma PeakAfterPlaced(v: Point, t: Vector, w: real, sideA: bool)
    ensures Place(AfterCoords(Peak, sideA), v, t, w)
            == if sideA then [v, Add(v, Scale(t, w)), Sub(v, Scale(Perp(t), w)), v]
               else [v, Add(v, Scale(t, w)), Add(v, Scale(Perp(t), w)), v]
  {
    var ps := Place(AfterCoords(Peak, sideA), v, t, w);
    assert ps[0] == v;
    assert ps[1] == Add(v, Scale(t, w));
    if sideA {
      assert ps[2] == Sub(v, Scale(Perp(t), w));
    } else {
      assert ps[2] == Add(v, Scale(Perp(t), w));
    }
    assert ps[3] == v;
  }

  lemma FlatPlaced(v: Point, t: Vector, w: real, sideA: bool)
    ensures Place(BeforeCoords(Flat, sideA), v, t, w) == [v]
    ensures Place(AfterCoords(Flat, sideA), v, t, w) == [v]
  {
    AtVertex(v, t, w);
  }

  /** Lines 1301-1353: the points the first switch pushes. */
  method BeforeCap(vertex: Point, tangent: Vector, ty: SideType, w: real)
    returns (a: seq<Point>, b: seq<Point>)
    ensures a == Place(BeforeCoords(ty, true), vertex, tangent, w)
    ensures b == Place(BeforeCoords(ty, false), vertex, tangent, w)
  {
    var p := Perp(tangent);
    a, b := [], [];
    match ty {
      case Rounded =>
        a, b := RoundedBeforeCap(vertex, tangent, w);
      case Squared =>
        SquaredBeforePlaced(vertex, tangent, w, true);
        SquaredBeforePlaced(vertex, tangent, w, false);
        a := [vertex, Sub(vertex, Scale(tangent, w)), Add(vertex, Scale(Sub(p, tangent), w)),
              Add(vertex, Scale(p, w))];
        b := [vertex, Sub(vertex, Scale(tangent, w)), Add(vertex, Scale(Sub(Neg(p), tangent), w)),
              Sub(vertex, Scale(p, w))];
      case Peak =>
        PeakBeforePlaced(vertex, tangent, w, true);
        PeakBeforePlaced(vertex, tangent, w, false);
        a := [vertex, Sub(vertex, Scale(tangent, w)), Add(vertex, Scale(p, w))];
        b := [vertex, Sub(vertex, Scale(tangent, w)), Sub(vertex, Scale(p, w))];
      case Flat =>
        FlatPlaced(vertex, tangent, w, true);
        FlatPlaced(vertex, tangent, w, false);
        a, b := [vertex], [vertex];
      case Interpolate =>
    }
  }

  /** A rounded before-cap is the vertex, the loop's samples and the end
      of the curve on the cap's own side. */
  lemma RoundedBeforeAssembled(v: Point, t: Vector, w: real, sideA: bool)
    ensures Place(RoundedBefore(sideA), v, t, w)
            == [v] + Place(BeforeSamples(sideA, RoundSamples), v, t, w) + [BeforeCurve(v, t, w, if sideA then 1.0 else 0.0)]
  {
    var head := [Coord(0.0, 0.0)];
    var samples := BeforeSamples(sideA, RoundSamples);
    var end := Coord(0.0, if sideA then 1.0 else -1.0);
    var last := Place([end], v, t, w);
    BeforeCurveEnd(v, t, w, sideA);
    calc {
      Place(RoundedBefore(sideA), v, t, w);
      Place(head + samples + [end], v, t, w);
      { PlaceConcat(head + samples, [end], v, t, w); }
      Place(head + samples, v, t, w) + last;
      { PlaceConcat(head, samples, v, t, w); }
      Place(head, v, t, w) + Place(samples, v, t, w) + last;
      { AtVertex(v, t, w); }
      [v] + Place(samples, v, t, w) + last;
    }
  }

  /** The before-curve ends at the vertex's offset on side a and starts at
      its offset on side b. */
  lemma BeforeCurveEnds(v: Point, t: Vector, w: real)
    ensures BeforeCurve(v, t, w, 1.0) == Add(v, Scale(Perp(t), w))
    ensures BeforeCurve(v, t, w, 0.0) == Sub(v, Scale(Perp(t), w))
  {
    HermiteEnds(Sub(v, Scale(Perp(t), w)), Add(v, Scale(Perp(t), w)),
                Scale(Scale(Neg(t), w), ROUND_END_FACTOR), Scale(Scale(t, w), ROUND_END_FACTOR));
  }

  lemma BeforeCurveEnd(v: Point, t: Vector, w: real, sideA: bool)
    ensures Place([Coord(0.0, if sideA then 1.0 else -1.0)], v, t, w)
            == [BeforeCurve(v, t, w, if sideA then 1.0 else 0.0)]
  {
    if sideA {
      BeforeCurveEndA(v, t, w);
    } else {
      BeforeCurveEndB(v, t, w);
    }
  }

  lemma BeforeCurveEndA(v: Point, t: Vector, w: real)
    ensures Place([Coord(0.0, 1.0)], v, t, w) == [BeforeCurve(v, t, w, 1.0)]
  {
    BeforeCurveEnds(v, t, w);
    Across(v, t, w);
  }

  lemma BeforeCurveEndB(v: Point, t: Vector, w: real)
    ensures Place([Coord(0.0, -1.0)], v, t, w) == [BeforeCurve(v, t, w, 0.0)]
  {
    BeforeCurveEnds(v, t, w);
    AcrossBack(v, t, w);
  }

  /** Lines 1303-1321: the rounded before-cap. */
  method RoundedBeforeCap(vertex: Point, tangent: Vector, w: real)
    returns (a: seq<Point>, b: seq<Point>)
    ensures a == Place(RoundedBefore(true), vertex, tangent, w)
    ensures b == Place(RoundedBefore(false), vertex, tangent, w)
  {
    a, b := [vertex], [vertex];
    var n: real := 0.0;
    ghost var k: nat := 0;
    while n < RoundLimit
      invariant k <= RoundSamples && n == Sample(k)
      invariant a == [vertex] + Place(BeforeSamples(true, k), vertex, tangent, w)
      invariant b == [vertex] + Place(BeforeSamples(false, k), vertex, tangent, w)
      decreases RoundSamples - k
    {
      BeforeCurveInFrame(vertex, tangent, w, 0.5 + n);
      BeforeCurveInFrame(vertex, tangent, w, 0.5 - n);
      PlaceConcat(BeforeSamples(true, k), [BeforeArc(0.5 + n)], vertex, tangent, w);
      PlaceConcat(BeforeSamples(false, k), [BeforeArc(0.5 - n)], vertex, tangent, w);
      assert BeforeSamples(true, k + 1) == BeforeSamples(true, k) + [BeforeArc(0.5 + n)];
      assert BeforeSamples(false, k + 1) == BeforeSamples(false, k) + [BeforeArc(0.5 - n)];
      a := a + [BeforeCurve(vertex, tangent, w, 0.5 + n)];
      b := b + [BeforeCurve(vertex, tangent, w, 0.5 - n)];
      n := n + 2.0 / (SAMPLES as real);
      k := k + 1;
    }
    assert k == RoundSamples;
    RoundedBeforeAssembled(vertex, tangent, w, true);
    RoundedBeforeAssembled(vertex, tangent, w, false);
    a := a + [BeforeCurve(vertex, tangent, w, 1.0)];
    b := b + [BeforeCurve(vertex, tangent, w, 0.0)];
  }

  /** Lines 1355-1411: the points the second switch pushes. */
  method AfterCap(vertex: Point, tangent: Vector, ty: SideType, w: real)
    returns (a: seq<Point>, b: seq<Point>)
    ensures a == Place(AfterCoords(ty, true), vertex, tangent, w)
    ensures b == Place(AfterCoords(ty, false), vertex, tangent, w)
  {
    var p := Perp(tangent);
    a, b := [], [];
    match ty {
      case Rounded =>
        a, b := RoundedAfterCap(vertex, tangent, w);
      case Squared =>
        SquaredAfterPlaced(vertex, tangent, w, true);
        SquaredAfterPlaced(vertex, tangent, w, false);
        a := [vertex, Add(vertex, Scale(tangent, w)), Add(vertex, Scale(Add(Neg(p), tangent), w)),
              Sub(vertex, Scale(p, w)), vertex];
        b := [vertex, Add(vertex, Scale(tangent, w)), Add(vertex, Scale(Add(p, tangent), w)),
              Add(vertex, Scale(p, w)), vertex];
      case Peak =>
        PeakAfterPlaced(vertex, tangent, w, true);
        PeakAfterPlaced(vertex, tangent, w, false);
        a := [vertex, Add(vertex, Scale(tangent, w)), Sub(vertex, Scale(p, w)), vertex];
        b := [vertex, Add(vertex, Scale(tangent, w)), Add(vertex, Scale(p, w)), vertex];
      case Flat =>
        FlatPlaced(vertex, tangent, w, true);
        FlatPlaced(vertex, tangent, w, false);
        a, b := [vertex], [vertex];
      case Interpolate =>
    }
  }

  /** Lines 1357-1375: the rounded after-cap. */
  method RoundedAfterCap(vertex: Point, tangent: Vector, w: real)
    returns (a: seq<Point>, b: seq<Point>)
    ensures a == Place(RoundedAfter(true), vertex, tangent, w)
    ensures b == Place(RoundedAfter(false), vertex, tangent, w)
  {
    a, b := [], [];
    var n: real := 0.0;
    ghost var k: nat := 0;
    while n < RoundLimit
      invariant k <= RoundSamples && n == Sample(k)
      invariant a == Place(AfterSamples(true, k), vertex, tangent, w)
      invariant b == Place(AfterSamples(false, k), vertex, tangent, w)
      decreases RoundSamples - k
    {
      AfterCurveInFrame(vertex, tangent, w, 1.0 - n);
      AfterCurveInFrame(vertex, tangent, w, n);
      PlaceConcat(AfterSamples(true, k), [AfterArc(1.0 - n)], vertex, tangent, w);
      PlaceConcat(AfterSamples(false, k), [AfterArc(n)], vertex, tangent, w);
      assert AfterSamples(true, k + 1) == AfterSamples(true, k) + [AfterArc(1.0 - n)];
      assert AfterSamples(false, k + 1) == AfterSamples(false, k) + [AfterArc(n)];
      a := a + [AfterCurve(vertex, tangent, w, 1.0 - n)];
      b := b + [AfterCurve(vertex, tangent, w, n)];
      n := n + 2.0 / (SAMPLES as real);
      k := k + 1;
    }
    AfterCurveInFrame(vertex, tangent, w, 0.5);
    ArcApex();
    PlaceConcat(AfterSamples(true, k), [Coord(1.0, 0.0), Coord(0.0, 0.0)], vertex, tangent, w);
    PlaceConcat(AfterSamples(false, k), [Coord(1.0, 0.0), Coord(0.0, 0.0)], vertex, tangent, w);
    a := a + [AfterCurve(vertex, tangent, w, 0.5), vertex];
    b := b + [AfterCurve(vertex, tangent, w, 0.5), vertex];
  }
}
