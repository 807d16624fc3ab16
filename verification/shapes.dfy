/** The shape registry: axis-aligned rectangles built once from a centre, a size
    and a colour, whose corners are their immutable rest positions. */
module Shapes {
  import opened Geometry

  /** A colour as OpenCV stores it: blue, green, red channels. */
  datatype Color = Color(b: int, g: int, r: int)

  /** A shape of the scene: its four rest corners and its fill colour. */
  datatype Rectangle = Rectangle(vertices: Quad, color: Color)

  /** q is the axis-aligned rectangle of the given centre and size, corners listed
      top-left, top-right, bottom-right, bottom-left (y grows downwards). */
  ghost predicate IsAxisRectangle(q: Quad, center: Point, width: real, height: real)
  {
    // both diagonals are bisected by the centre
    && q[0].x + q[2].x == 2.0 * center.x && q[0].y + q[2].y == 2.0 * center.y
    && q[1].x + q[3].x == 2.0 * center.x && q[1].y + q[3].y == 2.0 * center.y
    // top and bottom edges are horizontal, left and right edges vertical
    && q[0].y == q[1].y && q[3].y == q[2].y
    && q[0].x == q[3].x && q[1].x == q[2].x
    // the top edge runs rightwards over the width, the left edge downwards over the height
    && q[1].x - q[0].x == width
    && q[3].y - q[0].y == height
  }

  /** The rectangle constructor: half the width and half the height either side
      of the centre. */
  function MakeRectangle(center: Point, width: real, height: real, color: Color): (r: Rectangle)
    ensures IsAxisRectangle(r.vertices, center, width, height)
    ensures r.color == color
  {
    var hw := width / 2.0;
    var hh := height / 2.0;
    Rectangle(
      [ Point(center.x - hw, center.y - hh),
        Point(center.x + hw, center.y - hh),
        Point(center.x + hw, center.y + hh),
        Point(center.x - hw, center.y + hh) ],
      color)
  }

  /** Centre and size determine the corners: any quad with the rectangle
      properties is exactly the listed corner sequence. */
  lemma AxisRectangleCorners(q: Quad, center: Point, width: real, height: real)
    requires IsAxisRectangle(q, center, width, height)
    ensures q == [ Point(center.x - width / 2.0, center.y - height / 2.0),
                   Point(center.x + width / 2.0, center.y - height / 2.0),
                   Point(center.x + width / 2.0, center.y + height / 2.0),
                   Point(center.x - width / 2.0, center.y + height / 2.0) ]
  {
  }

  /** With a non-negative size the winding order is geometric: the first corner
      is the top-left one and the third the bottom-right one. */
  lemma CornerOrder(center: Point, width: real, height: real, color: Color)
    requires width >= 0.0 && height >= 0.0
    ensures var q := MakeRectangle(center, width, height, color).vertices;
      forall k | 0 <= k < 4 :: q[0].x <= q[k].x <= q[2].x && q[0].y <= q[k].y <= q[2].y
  {
  }

  /** The rest quads of a scene, in shape order. */
  function RestQuads(scene: seq<Rectangle>): (r: seq<Quad>)
    ensures |r| == |scene|
    ensures forall i | 0 <= i < |scene| :: r[i] == scene[i].vertices
  {
    seq(|scene|, i requires 0 <= i < |scene| => scene[i].vertices)
  }
}
