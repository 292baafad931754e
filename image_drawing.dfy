/** The placement computation of `NSImage.draw(at:anchor:rotateDegree:)`:
    the bounding size of the image after rotation, and the destination
    rectangle whose origin keeps the chosen image-relative anchor at a given
    point. The rotation enters as its sine and cosine (`Turn`); the
    rendering that follows the placement is not part of this model. */
module ImageDrawing {
  import opened Geometry
  import opened Anchors

  /** The sine and cosine of the rotation angle `degree * pi / 180`. */
  datatype Turn = Turn(sin: real, cos: real)

  /** The rotation angle of zero degrees. */
  const NoTurn := Turn(0.0, 1.0)

  /** Counter-clockwise rotation about the origin in y-up coordinates. */
  function Rotate(t: Turn, p: Point): Point {
    Point(p.x * t.cos - p.y * t.sin, p.x * t.sin + p.y * t.cos)
  }

  /** A rotation whose sine and cosine lie on the unit circle. */
  predicate OnUnitCircle(t: Turn) {
    t.sin * t.sin + t.cos * t.cos == 1.0
  }

  /** The size of `NSRect(origin: .zero, size: size).applying(rotation)`:
      the axis-aligned bounding size of the rotated image rectangle. */
  function BoundingSize(image: Size, t: Turn): Size {
    Size(Abs(image.width * t.cos) + Abs(image.height * t.sin),
         Abs(image.width * t.sin) + Abs(image.height * t.cos))
  }

  /** The rotated bounding size is never negative, whatever the sign of the
      image size. */
  lemma BoundingSizeNonNegative(image: Size, t: Turn)
    ensures BoundingSize(image, t).width >= 0.0 && BoundingSize(image, t).height >= 0.0
  {
  }

  /** Where the anchor lies on the unrotated image, relative to its centre. */
  function ImageOffset(image: Size, a: RotateAnchor): Point {
    var hw, hh := image.width / 2.0, image.height / 2.0;
    match a
    case ImageTopLeft => Point(-hw, hh)
    case ImageTop => Point(0.0, hh)
    case ImageTopRight => Point(hw, hh)
    case ImageLeft => Point(-hw, 0.0)
    case Center => Point(0.0, 0.0)
    case ImageRight => Point(hw, 0.0)
    case ImageBottomLeft => Point(-hw, -hh)
    case ImageBottom => Point(0.0, -hh)
    case ImageBottomRight => Point(hw, -hh)
  }

  /** The `NSRect` reference point that an anchor names. */
  function AnchorPoint(r: Rect, a: RotateAnchor): Point {
    match a
    case ImageTopLeft => r.TopLeft()
    case ImageTop => r.Top()
    case ImageTopRight => r.TopRight()
    case ImageLeft => r.Left()
    case Center => r.Center()
    case ImageRight => r.Right()
    case ImageBottomLeft => r.BottomLeft()
    case ImageBottom => r.Bottom()
    case ImageBottomRight => r.BottomRight()
  }

  /** The rectangle that `draw(at: point, anchor: anchor, rotateDegree:)`
      draws the rotated image into and returns. Its size is the rotated
      bounding size. For the centre and the four edge-midpoint anchors, the
      anchor of the image, rotated about the rectangle's centre, lands on
      `point`. The corner anchors are placed like the centre. */
  function Draw(image: Size, point: Point, anchor: RotateAnchor, t: Turn): (r: Rect)
    ensures r.size == BoundingSize(image, t)
    ensures !IsCorner(anchor) ==> Plus(r.Center(), Rotate(t, ImageOffset(image, anchor))) == point
    ensures anchor.Center? || IsCorner(anchor) ==> r.Center() == point
  {
    var newSize := BoundingSize(image, t);
    var cx := point.x - newSize.width / 2.0;
    var cy := point.y - newSize.height / 2.0;
    var hw, hh := image.width / 2.0, image.height / 2.0;
    var origin :=
      match anchor
      case Center => Point(cx, cy)
      case ImageTop => Point(cx + hh * t.sin, cy - hh * t.cos)
      case ImageLeft => Point(cx + hw * t.cos, cy + hw * t.sin)
      case ImageRight => Point(cx - hw * t.cos, cy - hw * t.sin)
      case ImageBottom => Point(cx - hh * t.sin, cy + hh * t.cos)
      case ImageTopLeft => Point(cx, cy)
      case ImageTopRight => Point(cx, cy)
      case ImageBottomLeft => Point(cx, cy)
      case ImageBottomRight => Point(cx, cy);
    Rect(origin, newSize)
  }

  // ----- The rotated bounding size -----

  function Max(a: real, b: real): real { if a < b then b else a }
  function Min(a: real, b: real): real { if a < b then a else b }

  /** The extent of four coordinates: the largest minus the smallest. */
  function Span(a: real, b: real, c: real, d: real): real {
    Max(Max(a, b), Max(c, d)) - Min(Min(a, b), Min(c, d))
  }

  /** Four coordinates `0, a, b, a + b`, those of a parallelogram's corners
      along one axis, span `|a| + |b|`. */
  lemma SpanOfParallelogram(p0: real, p1: real, p2: real, p3: real, a: real, b: real)
    requires p0 == 0.0 && p1 == a && p2 == b && p3 == a + b
    ensures Span(p0, p1, p2, p3) == Abs(a) + Abs(b)
  {
    if a < 0.0 {
      if b < 0.0 {
        assert Min(Min(p0, p1), Min(p2, p3)) == a + b;
      } else {
        assert Max(Max(p0, p1), Max(p2, p3)) == b;
      }
    } else {
      if b < 0.0 {
        assert Min(Min(p0, p1), Min(p2, p3)) == b;
      } else {
        assert Max(Max(p0, p1), Max(p2, p3)) == a + b;
      }
    }
  }

  /** The same for the coordinates `0, a, -b, a - b`. */
  lemma SpanOfSkewedParallelogram(p0: real, p1: real, p2: real, p3: real, a: real, b: real)
    requires p0 == 0.0 && p1 == a && p2 == -b && p3 == a - b
    ensures Span(p0, p1, p2, p3) == Abs(a) + Abs(b)
  {
    SpanOfParallelogram(p0, p1, p2, p3, a, -b);
  }

  /** The four corners of the image rectangle at the origin, each rotated. */
  function RotatedCorners(image: Size, t: Turn): (ps: seq<Point>)
    ensures |ps| == 4
  {
    [Rotate(t, Point(0.0, 0.0)), Rotate(t, Point(image.width, 0.0)),
     Rotate(t, Point(0.0, image.height)), Rotate(t, Point(image.width, image.height))]
  }

  /** The rotated corners, coordinate by coordinate. */
  lemma RotatedCornersAt(image: Size, t: Turn)
    ensures var ps := RotatedCorners(image, t);
      var w, h := image.width, image.height;
      && ps[0] == Point(0.0, 0.0)
      && ps[1] == Point(w * t.cos, w * t.sin)
      && ps[2] == Point(-(h * t.sin), h * t.cos)
      && ps[3] == Point(w * t.cos - h * t.sin, w * t.sin + h * t.cos)
  {
  }

  /** The horizontal extent of the rotated corners. */
  lemma RotatedCornersXSpan(image: Size, t: Turn)
    ensures var ps := RotatedCorners(image, t);
      Span(ps[0].x, ps[1].x, ps[2].x, ps[3].x) == BoundingSize(image, t).width
  {
    var a, b := image.width * t.cos, image.height * t.sin;
    var ps := RotatedCorners(image, t);
    RotatedCornersAt(image, t);
    SpanOfSkewedParallelogram(ps[0].x, ps[1].x, ps[2].x, ps[3].x, a, b);
  }

  /** The vertical extent of the rotated corners. */
  lemma RotatedCornersYSpan(image: Size, t: Turn)
    ensures var ps := RotatedCorners(image, t);
      Span(ps[0].y, ps[1].y, ps[2].y, ps[3].y) == BoundingSize(image, t).height
  {
    var c, d := image.width * t.sin, image.height * t.cos;
    var ps := RotatedCorners(image, t);
    RotatedCornersAt(image, t);
    SpanOfParallelogram(ps[0].y, ps[1].y, ps[2].y, ps[3].y, c, d);
  }

  /** The bounding size is the horizontal and vertical extent of the four
      corners of the image rectangle at the origin, each rotated: the box
      that `CGRect.applying` computes for the rotated rectangle. */
  lemma BoundingSizeIsRotatedCornerSpan(image: Size, t: Turn)
    ensures var ps := RotatedCorners(image, t);
      && BoundingSize(image, t).width == Span(ps[0].x, ps[1].x, ps[2].x, ps[3].x)
      && BoundingSize(image, t).height == Span(ps[0].y, ps[1].y, ps[2].y, ps[3].y)
  {
    RotatedCornersXSpan(image, t);
    RotatedCornersYSpan(image, t);
  }

  /** Without rotation the bounding size is the image size. */
  lemma NoTurnKeepsSize(image: Size)
    requires image.width >= 0.0 && image.height >= 0.0
    ensures BoundingSize(image, NoTurn) == image
  {
  }

  /** Negating one factor leaves the absolute value of a product unchanged. */
  lemma AbsOfNegatedFactor(u: real, k: real)
    ensures Abs(u * -k) == Abs(u * k)
  {
    assert u * -k == -(u * k);
  }

  /** A half turn (sine and cosine both negated) gives the same bounding size. */
  lemma HalfTurnKeepsSize(image: Size, t: Turn)
    ensures BoundingSize(image, Turn(-t.sin, -t.cos)) == BoundingSize(image, t)
  {
    AbsOfNegatedFactor(image.width, t.cos);
    AbsOfNegatedFactor(image.height, t.sin);
    AbsOfNegatedFactor(image.width, t.sin);
    AbsOfNegatedFactor(image.height, t.cos);
  }

  /** Turning the other way (sine negated) gives the same bounding size. */
  lemma ReverseTurnKeepsSize(image: Size, t: Turn)
    ensures BoundingSize(image, Turn(-t.sin, t.cos)) == BoundingSize(image, t)
  {
    AbsOfNegatedFactor(image.height, t.sin);
    AbsOfNegatedFactor(image.width, t.sin);
  }

  /** A quarter turn swaps width and height. */
  lemma QuarterTurnSwapsSize(image: Size)
    requires image.width >= 0.0 && image.height >= 0.0
    ensures BoundingSize(image, Turn(1.0, 0.0)) == Size(image.height, image.width)
  {
  }

  /** A square's bounding box is square at every rotation. */
  lemma SquareStaysSquare(side: real, t: Turn)
    ensures BoundingSize(Size(side, side), t).width == BoundingSize(Size(side, side), t).height
  {
  }

  // ----- The placement -----

  /** A rotation on the unit circle moves no point other than the origin to
      the origin. */
  lemma RotateKeepsNonZero(t: Turn, p: Point)
    requires OnUnitCircle(t)
    requires p != Point(0.0, 0.0)
    ensures Rotate(t, p) != Point(0.0, 0.0)
  {
    var q := Rotate(t, p);
    calc {
      t.cos * q.x + t.sin * q.y;
      t.cos * (p.x * t.cos - p.y * t.sin) + t.sin * (p.x * t.sin + p.y * t.cos);
      p.x * (t.sin * t.sin + t.cos * t.cos);
      p.x;
    }
    calc {
      t.cos * q.y - t.sin * q.x;
      t.cos * (p.x * t.sin + p.y * t.cos) - t.sin * (p.x * t.cos - p.y * t.sin);
      p.y * (t.sin * t.sin + t.cos * t.cos);
      p.y;
    }
  }

  /** For an image of non-zero size, a corner anchor does NOT stay at the
      point under any rotation: the corner anchors place the image centre
      there instead. */
  lemma CornerAnchorMissesPoint(image: Size, point: Point, anchor: RotateAnchor, t: Turn)
    requires IsCorner(anchor) && OnUnitCircle(t)
    requires image.width != 0.0 || image.height != 0.0
    ensures Plus(Draw(image, point, anchor, t).Center(), Rotate(t, ImageOffset(image, anchor))) != point
  {
    var o := ImageOffset(image, anchor);
    assert o != Point(0.0, 0.0);
    RotateKeepsNonZero(t, o);
  }

  /** The four corner anchors return exactly the rectangle of the centre
      anchor. */
  lemma CornerAnchorsPlaceLikeCenter(image: Size, point: Point, anchor: RotateAnchor, t: Turn)
    requires IsCorner(anchor)
    ensures Draw(image, point, anchor, t) == Draw(image, point, Center, t)
  {
  }

  /** The placements of opposite edge anchors are mirror images about the
      placement of the centre anchor. */
  lemma OppositeAnchorsMirror(image: Size, point: Point, t: Turn)
    ensures
      var c := Draw(image, point, Center, t).origin;
      && Plus(Draw(image, point, ImageTop, t).origin, Draw(image, point, ImageBottom, t).origin) == Plus(c, c)
      && Plus(Draw(image, point, ImageLeft, t).origin, Draw(image, point, ImageRight, t).origin) == Plus(c, c)
  {
  }

  /** For an image at the unrotated size, the anchor offsets are the `NSRect`
      reference points taken relative to the rectangle's centre. */
  lemma ImageOffsetIsAnchorPointFromCenter(r: Rect, a: RotateAnchor)
    requires r.size.width >= 0.0 && r.size.height >= 0.0
    ensures Plus(r.Center(), ImageOffset(r.size, a)) == AnchorPoint(r, a)
  {
  }

  /** The unrotated image rectangle centred in the destination rectangle. */
  function ImageRectIn(dest: Rect, image: Size): Rect {
    var c := dest.Center();
    Rect(Point(c.x - image.width / 2.0, c.y - image.height / 2.0), image)
  }

  /** Take the image at its own size, centred in the returned rectangle, and
      rotate it about that centre: for the centre and edge-midpoint anchors,
      the anchor's `NSRect` reference point then lands on the point. */
  lemma RotatedImageAnchorLandsOnPoint(image: Size, point: Point, anchor: RotateAnchor, t: Turn)
    requires image.width >= 0.0 && image.height >= 0.0
    requires !IsCorner(anchor)
    ensures
      var dest := Draw(image, point, anchor, t);
      var c := dest.Center();
      Plus(c, Rotate(t, Minus(AnchorPoint(ImageRectIn(dest, image), anchor), c))) == point
  {
    var dest := Draw(image, point, anchor, t);
    var c := dest.Center();
    var r := ImageRectIn(dest, image);
    assert r.Center() == c;
    ImageOffsetIsAnchorPointFromCenter(r, anchor);
    assert Minus(AnchorPoint(r, anchor), c) == ImageOffset(image, anchor);
  }

  /** The product of two non-negative reals is non-negative. */
  lemma ProductNonNegative(x: real, y: real)
    requires x >= 0.0 && y >= 0.0
    ensures x * y >= 0.0
  {
  }

  /** `|u·k| = |u|·|k|`. */
  lemma AbsOfProduct(u: real, k: real)
    ensures Abs(u * k) == Abs(u) * Abs(k)
  {
    if u < 0.0 {
      if k < 0.0 { assert u * k == (-u) * (-k); } else { assert -(u * k) == (-u) * k; }
    } else {
      if k < 0.0 { assert -(u * k) == u * (-k); }
    }
  }

  /** `2|u·k| <= |a·k|` whenever `2|u| <= a`. */
  lemma AbsProductBound(u: real, a: real, k: real)
    requires 2.0 * Abs(u) <= a
    ensures 2.0 * Abs(u * k) <= Abs(a * k)
  {
    AbsOfProduct(u, k);
    AbsOfProduct(a, k);
    ProductNonNegative(a - 2.0 * Abs(u), Abs(k));
    assert (a - 2.0 * Abs(u)) * Abs(k) == a * Abs(k) - 2.0 * (Abs(u) * Abs(k));
  }

  /** If `m` and `n` are within half of `|M|` and `|N|`, so is their sum or
      difference within half of `|M| + |N|`. */
  lemma SumWithinHalf(q: real, m: real, n: real, bm: real, bn: real)
    requires q == m - n || q == m + n
    requires 2.0 * Abs(m) <= Abs(bm) && 2.0 * Abs(n) <= Abs(bn)
    ensures 2.0 * Abs(q) <= Abs(bm) + Abs(bn)
  {
  }

  /** A coordinate `x·k ∓ y·j` of a rotated offset `(x, y)` that lies within
      half of `w` and `h` is within half of `|w·k| + |h·j|`. */
  lemma RotatedCoordinateBound(x: real, y: real, w: real, h: real, k: real, j: real, q: real)
    requires 2.0 * Abs(x) <= w && 2.0 * Abs(y) <= h
    requires q == x * k - y * j || q == x * k + y * j
    ensures 2.0 * Abs(q) <= Abs(w * k) + Abs(h * j)
  {
    AbsProductBound(x, w, k);
    AbsProductBound(y, h, j);
    SumWithinHalf(q, x * k, y * j, w * k, h * j);
  }

  /** The coordinates of a rotated point, each written as a product with
      the cosine plus or minus a product with the sine. */
  lemma RotatedCoordinates(t: Turn, d: Point)
    ensures Rotate(t, d).x == d.x * t.cos - d.y * t.sin
    ensures Rotate(t, d).y == d.y * t.cos + d.x * t.sin
  {
  }

  /** The bounding width and height, each as a sum of two absolute products. */
  lemma BoundingSizeTerms(image: Size, t: Turn)
    ensures BoundingSize(image, t).width == Abs(image.width * t.cos) + Abs(image.height * t.sin)
    ensures BoundingSize(image, t).height == Abs(image.width * t.sin) + Abs(image.height * t.cos)
  {
  }

  /** Horizontally, an offset within half the image size on each axis stays,
      once rotated, within half the rotated bounding width. */
  lemma RotatedOffsetBoundX(t: Turn, d: Point, image: Size)
    requires 2.0 * Abs(d.x) <= image.width && 2.0 * Abs(d.y) <= image.height
    ensures 2.0 * Abs(Rotate(t, d).x) <= BoundingSize(image, t).width
  {
    RotatedCoordinates(t, d);
    BoundingSizeTerms(image, t);
    RotatedCoordinateBound(d.x, d.y, image.width, image.height, t.cos, t.sin, Rotate(t, d).x);
  }

  /** Vertically, the same within half the rotated bounding height. */
  lemma RotatedOffsetBoundY(t: Turn, d: Point, image: Size)
    requires 2.0 * Abs(d.x) <= image.width && 2.0 * Abs(d.y) <= image.height
    ensures 2.0 * Abs(Rotate(t, d).y) <= BoundingSize(image, t).height
  {
    RotatedCoordinates(t, d);
    BoundingSizeTerms(image, t);
    RotatedCoordinateBound(d.y, d.x, image.height, image.width, t.cos, t.sin, Rotate(t, d).y);
  }

  /** The returned rectangle holds the whole rotated image: every point of
      the image, placed at its own size in the centre of the rectangle and
      rotated about that centre, lies in the rectangle, for every anchor. */
  lemma RotatedImageFitsInRect(image: Size, point: Point, anchor: RotateAnchor, t: Turn, p: Point)
    requires image.width >= 0.0 && image.height >= 0.0
    requires ImageRectIn(Draw(image, point, anchor, t), image).Contains(p)
    ensures
      var dest := Draw(image, point, anchor, t);
      var c := dest.Center();
      dest.Contains(Plus(c, Rotate(t, Minus(p, c))))
  {
    var dest := Draw(image, point, anchor, t);
    var c := dest.Center();
    var d := Minus(p, c);
    assert 2.0 * Abs(d.x) <= image.width && 2.0 * Abs(d.y) <= image.height;
    RotatedOffsetBoundX(t, d, image);
    RotatedOffsetBoundY(t, d, image);
  }

  /** Without rotation no point moves. */
  lemma NoTurnFixesPoints(p: Point)
    ensures Rotate(NoTurn, p) == p
  {
  }

  /** Without rotation, the centre and edge-midpoint anchors put the named
      `NSRect` reference point of the returned rectangle on the point. */
  lemma NoTurnPlacesAnchorPoint(image: Size, point: Point, anchor: RotateAnchor)
    requires image.width >= 0.0 && image.height >= 0.0
    requires !IsCorner(anchor)
    ensures AnchorPoint(Draw(image, point, anchor, NoTurn), anchor) == point
  {
    var r := Draw(image, point, anchor, NoTurn);
    var offset := ImageOffset(image, anchor);
    assert Plus(r.Center(), offset) == point by {
      NoTurnFixesPoints(offset);
    }
    AnchorPointFromCenter(r, image, anchor, point);
  }

  /** A rectangle of the image's size whose centre is `point` minus the
      anchor offset has that anchor's reference point at `point`. */
  lemma AnchorPointFromCenter(r: Rect, image: Size, anchor: RotateAnchor, point: Point)
    requires image.width >= 0.0 && image.height >= 0.0
    requires r.size == BoundingSize(image, NoTurn)
    requires Plus(r.Center(), ImageOffset(image, anchor)) == point
    ensures AnchorPoint(r, anchor) == point
  {
    NoTurnKeepsSize(image);
    ImageOffsetIsAnchorPointFromCenter(r, anchor);
  }

  /** With the default arguments (centre anchor, no rotation) the image is
      drawn at its own size, centred on the point. */
  lemma DefaultArgumentsCenterImage(image: Size, point: Point)
    requires image.width >= 0.0 && image.height >= 0.0
    ensures var r := Draw(image, point, Center, NoTurn);
      r.size == image && r.Center() == point
  {
    NoTurnKeepsSize(image);
  }

  /** A 100 by 150 image turned a quarter turn about the centre anchor at the
      origin is drawn into a 150 by 100 rectangle at (-75, -50). */
  lemma QuarterTurnCenterExample()
    ensures Draw(Size(100.0, 150.0), Point(0.0, 0.0), Center, Turn(1.0, 0.0))
         == Rect(Point(-75.0, -50.0), Size(150.0, 100.0))
  {
  }
}
