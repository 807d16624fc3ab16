/** Plane geometry shared by the shape registry, the input tracker and the frame pipeline.
    Coordinates are canvas pixels (x to the right, y downwards), modelled as reals. */
module Geometry {

  /** A point of the canvas. */
  datatype Point = Point(x: real, y: real)

  /** The four corners of a shape, in winding order top-left, top-right,
      bottom-right, bottom-left. */
  type Quad = q: seq<Point> | |q| == 4
    witness [Point(0.0, 0.0), Point(0.0, 0.0), Point(0.0, 0.0), Point(0.0, 0.0)]

  /** Squared Euclidean distance. Comparing squared distances orders points
      exactly as comparing the Euclidean norms does, since both are non-negative;
      it vanishes exactly between equal points. */
  function Dist2(a: Point, b: Point): (d: real)
    ensures d >= 0.0
    ensures d == 0.0 <==> a == b
  {
    SquareSign(a.x - b.x);
    SquareSign(a.y - b.y);
    Mul(a.x - b.x, a.x - b.x) + Mul(a.y - b.y, a.y - b.y)
  }

  /** Real multiplication, kept behind a function so that the sign facts below
      are stated about one and the same term. */
  function Mul(u: real, w: real): real
  {
    u * w
  }

  /** A square is non-negative, and positive away from zero. */
  lemma SquareSign(t: real)
    ensures Mul(t, t) >= 0.0
    ensures t != 0.0 ==> Mul(t, t) > 0.0
  {
    if t > 0.0 {
      PositiveTimesPositive(t, t);
    } else if t < 0.0 {
      NegativeTimesNegative(t, t);
    }
  }

  /** On non-negative reals, squaring preserves and reflects the order. So a
      distance below a radius, and one distance below another, can be decided
      on squared distances. */
  lemma SquareOrder(d1: real, d2: real)
    requires d1 >= 0.0 && d2 >= 0.0
    ensures d1 < d2 <==> Mul(d1, d1) < Mul(d2, d2)
  {
    if d1 < d2 {
      PositiveTimesPositive(d2 - d1, d2 + d1);
      assert Mul(d2 - d1, d2 + d1) == Mul(d2, d2) - Mul(d1, d1);
    } else if d2 < d1 {
      PositiveTimesPositive(d1 - d2, d1 + d2);
      assert Mul(d1 - d2, d1 + d2) == Mul(d1, d1) - Mul(d2, d2);
    }
  }

  lemma PositiveTimesPositive(u: real, w: real)
    requires u > 0.0 && w > 0.0
    ensures Mul(u, w) > 0.0
  {
  }

  lemma NegativeTimesNegative(u: real, w: real)
    requires u < 0.0 && w < 0.0
    ensures Mul(u, w) > 0.0
  {
  }
}
