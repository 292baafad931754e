/** Points, sizes and axis-aligned rectangles in a y-up coordinate space,
    with the nine reference points that the `NSRect` extension of
    DrawingView.swift derives from a rectangle's bounds.
    `CGFloat` is modelled as `real`. */
module Geometry {

  datatype Point = Point(x: real, y: real)

  /** Componentwise sum `p + q`. */
  function Plus(p: Point, q: Point): Point {
    Point(p.x + q.x, p.y + q.y)
  }

  /** Componentwise difference `p - q`. */
  function Minus(p: Point, q: Point): Point {
    Point(p.x - q.x, p.y - q.y)
  }

  /** The point halfway between `p` and `q`. */
  function Midpoint(p: Point, q: Point): Point {
    Point((p.x + q.x) / 2.0, (p.y + q.y) / 2.0)
  }

  /** A size as `CGSize` holds it: the fields may be negative. */
  datatype Size = Size(width: real, height: real)

  function Abs(v: real): real {
    if v < 0.0 then -v else v
  }

  /** A rectangle as `CGRect` holds it: an origin and a size. The bound
      accessors are those of a standardised rectangle, so a negative width
      or height puts the origin on the maximum side. */
  datatype Rect = Rect(origin: Point, size: Size) {

    function MinX(): real { if size.width < 0.0 then origin.x + size.width else origin.x }
    function MaxX(): real { if size.width < 0.0 then origin.x else origin.x + size.width }
    function MinY(): real { if size.height < 0.0 then origin.y + size.height else origin.y }
    function MaxY(): real { if size.height < 0.0 then origin.y else origin.y + size.height }

    /** `midX`: the origin plus half the width, for either sign of width. */
    function MidX(): real { origin.x + size.width / 2.0 }

    /** `midY`: the origin plus half the height, for either sign of height. */
    function MidY(): real { origin.y + size.height / 2.0 }

    /** The closed rectangle contains `p`. */
    predicate Contains(p: Point) {
      MinX() <= p.x <= MaxX() && MinY() <= p.y <= MaxY()
    }

    function TopLeft(): Point { Point(MinX(), MaxY()) }

    function TopRight(): Point { Point(MaxX(), MaxY()) }

    function BottomLeft(): Point { Point(MinX(), MinY()) }

    function BottomRight(): Point { Point(MaxX(), MinY()) }

    function Top(): Point { Point(MidX(), MaxY()) }

    function Bottom(): Point { Point(MidX(), MinY()) }

    function Left(): Point { Point(MinX(), MidY()) }

    function Right(): Point { Point(MaxX(), MidY()) }

    function Center(): Point { Point(MidX(), MidY()) }
  }

  /** `midX` and `midY` are halfway between the minimum and the maximum,
      for either sign of width and height. */
  lemma MidIsHalfwayBetweenBounds(r: Rect)
    ensures r.MinX() <= r.MidX() <= r.MaxX() && r.MidX() == (r.MinX() + r.MaxX()) / 2.0
    ensures r.MinY() <= r.MidY() <= r.MaxY() && r.MidY() == (r.MinY() + r.MaxY()) / 2.0
  {
  }

  /** All nine reference points lie in the closed rectangle; the top ones
      at or above its centre, the left ones at or left of it, and so on. */
  lemma ReferencePointsLieInRect(r: Rect)
    ensures r.Contains(r.TopLeft()) && r.Contains(r.Top()) && r.Contains(r.TopRight())
    ensures r.Contains(r.Left()) && r.Contains(r.Center()) && r.Contains(r.Right())
    ensures r.Contains(r.BottomLeft()) && r.Contains(r.Bottom()) && r.Contains(r.BottomRight())
    ensures r.TopLeft().y >= r.MidY() && r.Top().y >= r.MidY() && r.TopRight().y >= r.MidY()
    ensures r.BottomLeft().y <= r.MidY() && r.Bottom().y <= r.MidY() && r.BottomRight().y <= r.MidY()
    ensures r.TopLeft().x <= r.MidX() && r.Left().x <= r.MidX() && r.BottomLeft().x <= r.MidX()
    ensures r.TopRight().x >= r.MidX() && r.Right().x >= r.MidX() && r.BottomRight().x >= r.MidX()
  {
    MidIsHalfwayBetweenBounds(r);
  }

  /** The top corners share the maximum y, the bottom corners the minimum y,
      the left corners the minimum x and the right corners the maximum x. */
  lemma CornersShareEdges(r: Rect)
    ensures r.TopLeft().y == r.TopRight().y == r.MaxY()
    ensures r.BottomLeft().y == r.BottomRight().y == r.MinY()
    ensures r.TopLeft().x == r.BottomLeft().x == r.MinX()
    ensures r.TopRight().x == r.BottomRight().x == r.MaxX()
  {
  }

  /** Each edge reference point is the midpoint of the two corners of its edge. */
  lemma EdgePointsAreCornerMidpoints(r: Rect)
    ensures r.Top() == Midpoint(r.TopLeft(), r.TopRight())
    ensures r.Bottom() == Midpoint(r.BottomLeft(), r.BottomRight())
    ensures r.Left() == Midpoint(r.TopLeft(), r.BottomLeft())
    ensures r.Right() == Midpoint(r.TopRight(), r.BottomRight())
  {
  }

  /** The centre is the midpoint of either diagonal and of either pair of
      opposite edge points. */
  lemma CenterIsMidpoint(r: Rect)
    ensures r.Center() == Midpoint(r.TopLeft(), r.BottomRight())
    ensures r.Center() == Midpoint(r.TopRight(), r.BottomLeft())
    ensures r.Center() == Midpoint(r.Left(), r.Right())
    ensures r.Center() == Midpoint(r.Top(), r.Bottom())
  {
  }
}
