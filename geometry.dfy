/** Plane vectors over exact reals: the subset of synfig's Vector arithmetic
    that the tip builder uses (sum, difference, scaling, negation, perp). */
module Geometry {

  datatype Vector = Vector(x: real, y: real)

  /** A point of the plane is a vector from the origin. */
  type Point = Vector

  /** The zero vector. */
  const Zero: Vector := Vector(0.0, 0.0)

  function Add(a: Vector, b: Vector): Vector { Vector(a.x + b.x, a.y + b.y) }

  function Sub(a: Vector, b: Vector): Vector { Vector(a.x - b.x, a.y - b.y) }

  function Neg(a: Vector): Vector { Vector(-a.x, -a.y) }

  function Scale(a: Vector, k: real): Vector { Vector(a.x * k, a.y * k) }

  /** Vector::perp(): the quarter turn (x, y) -> (y, -x). */
  function Perp(a: Vector): Vector { Vector(a.y, -a.x) }

  /** The point reached from `v` by going `along * w` in the direction of
      `t` and `across * w` in the direction of Perp(t): coordinates in the
      frame that a tip at vertex `v` with tangent `t` and width `w` spans. */
  function Frame(v: Point, t: Vector, w: real, along: real, across: real): Point
  {
    Vector(v.x + along * w * t.x + across * w * t.y, v.y + along * w * t.y - across * w * t.x)
  }

  /** The cubic Hermite basis. */
  function H00(s: real): real { 2.0 * s * s * s - 3.0 * s * s + 1.0 }
  function H01(s: real): real { -2.0 * s * s * s + 3.0 * s * s }
  function H10(s: real): real { s * s * s - 2.0 * s * s + s }
  function H11(s: real): real { s * s * s - s * s }

  /** The combination a*p1 + b*p2 + c*t1 + d*t2 of the curve's data. */
  function Combine(p1: Point, p2: Point, t1: Vector, t2: Vector, a: real, b: real, c: real, d: real): Point
  {
    Add(Add(Scale(p1, a), Scale(p2, b)), Add(Scale(t1, c), Scale(t2, d)))
  }

  /** The cubic Hermite curve from `p1` to `p2` with end tangents `t1` and
      `t2`, at parameter `s` (etl's hermite<Vector>, whose Bezier form has
      the control points p1, p1 + t1/3, p2 - t2/3, p2). */
  function Hermite(p1: Point, p2: Point, t1: Vector, t2: Vector, s: real): Point
  {
    Combine(p1, p2, t1, t2, H00(s), H01(s), H10(s), H11(s))
  }

  /** The basis at the curve's two ends. */
  lemma BasisAtEnds()
    ensures H00(0.0) == 1.0 && H01(0.0) == 0.0 && H10(0.0) == 0.0 && H11(0.0) == 0.0
    ensures H00(1.0) == 0.0 && H01(1.0) == 1.0 && H10(1.0) == 0.0 && H11(1.0) == 0.0
  {
  }

  /** Weights (1, 0, 0, 0) pick the first point, (0, 1, 0, 0) the second. */
  lemma CombinePicks(p1: Point, p2: Point, t1: Vector, t2: Vector)
    ensures Combine(p1, p2, t1, t2, 1.0, 0.0, 0.0, 0.0) == p1
    ensures Combine(p1, p2, t1, t2, 0.0, 1.0, 0.0, 0.0) == p2
  {
    ScaleUnit(p1);
    ScaleUnit(p2);
    ScaleZero(p1);
    ScaleZero(p2);
    ScaleZero(t1);
    ScaleZero(t2);
    assert Combine(p1, p2, t1, t2, 1.0, 0.0, 0.0, 0.0) == Add(Add(p1, Zero), Add(Zero, Zero));
    assert Combine(p1, p2, t1, t2, 0.0, 1.0, 0.0, 0.0) == Add(Add(Zero, p2), Add(Zero, Zero));
  }

  lemma ScaleUnit(a: Vector)
    ensures Scale(a, 1.0) == a
  {
  }

  lemma ScaleZero(a: Vector)
    ensures Scale(a, 0.0) == Zero
  {
  }

  /** The curve starts at `p1` and ends at `p2`. */
  lemma HermiteEnds(p1: Point, p2: Point, t1: Vector, t2: Vector)
    ensures Hermite(p1, p2, t1, t2, 0.0) == p1
    ensures Hermite(p1, p2, t1, t2, 1.0) == p2
  {
    BasisAtEnds();
    CombinePicks(p1, p2, t1, t2);
  }
}
