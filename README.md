# Anchored image rotation: placement geometry

A model of the geometry at the heart of the ImageDrawingWithRotation demo
(macOS, Swift). `NSImage.draw(at:anchor:rotateDegree:)` rotates an image and
chooses the rectangle it is drawn into so that a chosen point of the
*unrotated* image stays at a given point on screen. The model covers three
parts of `ImageDrawingWithRotation/DrawingView.swift`:

- `Anchors` (`rotate_anchor.dfy`): the nine-case `RotateAnchor` enumeration,
  its `Int` raw values 0 to 8, and Swift's failable `init?(rawValue:)`.
- `Geometry` (`geometry.dfy`): points, sizes and rectangles in y-up
  coordinates. It also holds the `NSRect` extension's nine reference points
  (`topLeft` … `center`). These sit on the `CGRect` bound accessors
  `minX`/`midX`/`maxX`, which are defined for a standardised rectangle, so a
  negative width or height is handled.
- `ImageDrawing` (`image_drawing.dfy`): the placement computation.
  - `BoundingSize` is the size of the rotated image rectangle's
    axis-aligned bounding box, `|w·cos| + |h·sin|` by `|w·sin| + |h·cos|`.
    This is what `CGRect.applying(CGAffineTransform(rotationAngle:))`
    yields for a rectangle at the origin.
  - `Draw` is the exhaustive switch over the anchor and the rectangle built
    from it.

`CGFloat` is modelled as `real`. The rotation enters as a `Turn`, the sine
and cosine of `degree * π / 180`. No lemma evaluates a trigonometric
function. Where a lemma needs a fact about the angle, it states that fact
about the `Turn`:
- sine² + cosine² = 1 (`OnUnitCircle`), in `RotateKeepsNonZero` and
  `CornerAnchorMissesPoint`;
- sine 0 and cosine 1, for 0 degrees (`NoTurn`), in `NoTurnKeepsSize` and
  the lemmas built on it;
- sine 1 and cosine 0, for 90 degrees, in `QuarterTurnSwapsSize` and
  `QuarterTurnCenterExample`;
- the turn `(−sine, −cosine)`, which is the angle plus 180 degrees, in
  `HalfTurnKeepsSize`;
- the turn `(−sine, cosine)`, which is the negated angle, in
  `ReverseTurnKeepsSize`.

Rotation by θ maps `(x, y)` to `(x·cos − y·sin, x·sin + y·cos)`.

The central result is `Draw`'s own contract. Take any anchor other than a
corner. Take the image's point for that anchor, as an offset from the
image centre. Rotate it about the centre of the returned rectangle. It lands
exactly on the requested point, whatever the rotation. No trigonometric
identity is needed for this.

The returned rectangle is also large enough. `RotatedImageFitsInRect` shows
that every point of the image, rotated about the rectangle's centre, lies
inside the rectangle, for every anchor and every sine and cosine.

The four corner anchors are placed exactly like the centre, as the source
does (DrawingView.swift:151-162). The model keeps that behaviour. Two lemmas
state it. `CornerAnchorsPlaceLikeCenter` shows that a corner anchor returns
the rectangle of the centre anchor. `CornerAnchorMissesPoint` shows that the
named corner itself never lands on the point for an image of non-zero size.

Three points of the code's behaviour, which the model follows:
- `draw(at:…)` does not require a positive image size, so `Draw` has no
  precondition. Lemmas that need a non-negative size say so.
- The returned origin is the rectangle's minimum corner. In y-up
  coordinates that is the bottom-left corner, not the top-left.
- At zero rotation, only the centre and edge anchors reduce to plain anchored
  placement (`NoTurnPlacesAnchorPoint`). The corner anchors still centre the
  image.

## Model

| member | source | states |
|---|---|---|
| Anchors.RawValue | ImageDrawingWithRotation/DrawingView.swift:4-13 | every anchor's raw value lies in 0..8, and 4 is exactly the centre |
| Anchors.FromRawValue | ImageDrawingWithRotation/DrawingView.swift:4-13 | `init?(rawValue:)` fails exactly for integers outside 0..8 |
| Anchors.FromRawValueOfRawValue | ImageDrawingWithRotation/DrawingView.swift:4-13 | each anchor is recovered from its raw value |
| Anchors.RawValueOfFromRawValue | ImageDrawingWithRotation/DrawingView.swift:4-13 | an anchor built from a raw value has that raw value |
| Anchors.RawValueInjective | ImageDrawingWithRotation/DrawingView.swift:4-13 | distinct anchors have distinct raw values |
| Anchors.AnchorKindsPartition | ImageDrawingWithRotation/DrawingView.swift:4-13 | each anchor is exactly one of: a corner, an edge midpoint, the centre |
| Geometry.Rect.MinX | ImageDrawingWithRotation/DrawingView.swift:181-211 | `minX`: the smaller x bound, the origin for a non-negative width and the origin plus the width otherwise; `MidIsHalfwayBetweenBounds` places it at or below `midX` |
| Geometry.Rect.MaxX | ImageDrawingWithRotation/DrawingView.swift:185-211 | `maxX`: the larger x bound; `MidIsHalfwayBetweenBounds` places it at or above `midX` |
| Geometry.Rect.MinY | ImageDrawingWithRotation/DrawingView.swift:189-203 | `minY`: the smaller y bound; `MidIsHalfwayBetweenBounds` places it at or below `midY` |
| Geometry.Rect.MaxY | ImageDrawingWithRotation/DrawingView.swift:181-199 | `maxY`: the larger y bound; `MidIsHalfwayBetweenBounds` places it at or above `midY` |
| Geometry.Rect.MidX | ImageDrawingWithRotation/DrawingView.swift:197-215 | `midX`: the origin plus half the width; `MidIsHalfwayBetweenBounds` shows it is the mean of `minX` and `maxX` |
| Geometry.Rect.MidY | ImageDrawingWithRotation/DrawingView.swift:205-215 | `midY`: the origin plus half the height; `MidIsHalfwayBetweenBounds` shows it is the mean of `minY` and `maxY` |
| Geometry.Rect.TopLeft | ImageDrawingWithRotation/DrawingView.swift:181-183 | `topLeft` is `(minX, maxY)`; `ReferencePointsLieInRect` puts it in the rectangle, left of and above the centre |
| Geometry.Rect.TopRight | ImageDrawingWithRotation/DrawingView.swift:185-187 | `topRight` is `(maxX, maxY)`; it lies in the rectangle, right of and above the centre |
| Geometry.Rect.BottomLeft | ImageDrawingWithRotation/DrawingView.swift:189-191 | `bottomLeft` is `(minX, minY)`; it lies in the rectangle, left of and below the centre |
| Geometry.Rect.BottomRight | ImageDrawingWithRotation/DrawingView.swift:193-195 | `bottomRight` is `(maxX, minY)`; it lies in the rectangle, right of and below the centre |
| Geometry.Rect.Top | ImageDrawingWithRotation/DrawingView.swift:197-199 | `top` is `(midX, maxY)`; `EdgePointsAreCornerMidpoints` makes it the midpoint of the top corners |
| Geometry.Rect.Bottom | ImageDrawingWithRotation/DrawingView.swift:201-203 | `bottom` is `(midX, minY)`, the midpoint of the bottom corners |
| Geometry.Rect.Left | ImageDrawingWithRotation/DrawingView.swift:205-207 | `left` is `(minX, midY)`, the midpoint of the left corners |
| Geometry.Rect.Right | ImageDrawingWithRotation/DrawingView.swift:209-211 | `right` is `(maxX, midY)`, the midpoint of the right corners |
| Geometry.Rect.Center | ImageDrawingWithRotation/DrawingView.swift:213-215 | `center` is `(midX, midY)`; `CenterIsMidpoint` makes it the midpoint of both diagonals |
| Geometry.MidIsHalfwayBetweenBounds | ImageDrawingWithRotation/DrawingView.swift:197-215 | `midX`/`midY`, as used by the reference points, lie between the bounds and halfway between them, for either sign of size |
| Geometry.ReferencePointsLieInRect | ImageDrawingWithRotation/DrawingView.swift:180-215 | all nine reference points lie in the closed rectangle, each on its named side of the centre |
| Geometry.CornersShareEdges | ImageDrawingWithRotation/DrawingView.swift:181-195 | `topLeft` and `topRight` share `y = maxY`; `bottomLeft` and `bottomRight` share `y = minY`; left corners share `minX`, right corners `maxX` |
| Geometry.EdgePointsAreCornerMidpoints | ImageDrawingWithRotation/DrawingView.swift:181-211 | `top`, `bottom`, `left`, `right` are each the midpoint of the two corners of their edge |
| Geometry.CenterIsMidpoint | ImageDrawingWithRotation/DrawingView.swift:181-215 | `center` is the midpoint of both diagonals, of `left`/`right` and of `top`/`bottom` |
| ImageDrawing.BoundingSize | ImageDrawingWithRotation/DrawingView.swift:118-119 | `newSize`, the size of the rotated image rectangle's bounding box: `BoundingSizeNonNegative` shows it is never negative and `BoundingSizeIsRotatedCornerSpan` that it is the extent of the rotated corners |
| ImageDrawing.RotatedCorners | ImageDrawingWithRotation/DrawingView.swift:119 | the four corners of the image rectangle at the origin, each rotated, as `CGRect.applying` transforms them: always four points |
| ImageDrawing.BoundingSizeNonNegative | ImageDrawingWithRotation/DrawingView.swift:118-119 | the rotated bounding size is never negative, whatever the sign of the image size |
| ImageDrawing.BoundingSizeIsRotatedCornerSpan | ImageDrawingWithRotation/DrawingView.swift:119 | the bounding size equals the horizontal and vertical extent of the image rectangle's four corners after rotation, which is the box `CGRect.applying` computes |
| ImageDrawing.NoTurnKeepsSize | ImageDrawingWithRotation/DrawingView.swift:118-119 | at zero rotation the bounding size is the image size |
| ImageDrawing.HalfTurnKeepsSize | ImageDrawingWithRotation/DrawingView.swift:119 | the angle and the angle plus 180 degrees give the same bounding size |
| ImageDrawing.ReverseTurnKeepsSize | ImageDrawingWithRotation/DrawingView.swift:119 | an angle and its negation give the same bounding size |
| ImageDrawing.QuarterTurnSwapsSize | ImageDrawingWithRotation/DrawingView.swift:119 | a 90-degree turn swaps width and height |
| ImageDrawing.SquareStaysSquare | ImageDrawingWithRotation/DrawingView.swift:119 | a square image has a square bounding box at every rotation |
| ImageDrawing.Draw | ImageDrawingWithRotation/DrawingView.swift:116-165 | the returned size is the rotated bounding size for every anchor and point; for the centre and edge anchors, the image's anchor offset rotated about the rectangle's centre lands exactly on the point; for the centre and corner anchors the rectangle's centre is the point |
| ImageDrawing.RotatedImageAnchorLandsOnPoint | ImageDrawingWithRotation/DrawingView.swift:139-165 | take the image at its own size, centred in the returned rectangle, and rotate it about that centre: the `NSRect` reference point named by a centre or edge anchor lands on the point |
| ImageDrawing.RotatedOffsetBoundX | ImageDrawingWithRotation/DrawingView.swift:119 | an offset from the image centre within half the image width and height, once rotated, lies horizontally within half the bounding width |
| ImageDrawing.RotatedOffsetBoundY | ImageDrawingWithRotation/DrawingView.swift:119 | the same offset, once rotated, lies vertically within half the bounding height |
| ImageDrawing.RotatedImageFitsInRect | ImageDrawingWithRotation/DrawingView.swift:119-174 | every point of the image, centred in the returned rectangle at its own size and rotated about that centre, lies in the rectangle that the rotated image is drawn into, for every anchor and rotation |
| ImageDrawing.OppositeAnchorsMirror | ImageDrawingWithRotation/DrawingView.swift:139-150 | origin(top) + origin(bottom) = origin(left) + origin(right) = 2·origin(center) |
| ImageDrawing.CornerAnchorsPlaceLikeCenter | ImageDrawingWithRotation/DrawingView.swift:151-162 | the four corner anchors return exactly the centre anchor's rectangle |
| ImageDrawing.CornerAnchorMissesPoint | ImageDrawingWithRotation/DrawingView.swift:151-162 | for an image of non-zero size and any rotation on the unit circle, the named corner does not land on the point |
| ImageDrawing.ImageOffsetIsAnchorPointFromCenter | ImageDrawingWithRotation/DrawingView.swift:180-215 | the anchor offsets used by the placement are the `NSRect` reference points relative to the centre, for a rectangle of non-negative size |
| ImageDrawing.NoTurnPlacesAnchorPoint | ImageDrawingWithRotation/DrawingView.swift:123-165 | at zero rotation the returned rectangle's reference point for a centre or edge anchor is the point |
| ImageDrawing.DefaultArgumentsCenterImage | ImageDrawingWithRotation/DrawingView.swift:116-126 | with the default arguments (`.center`, 0 degrees) the image is drawn at its own size, centred on the point |
| ImageDrawing.QuarterTurnCenterExample | ImageDrawingWithRotation/DrawingView.swift:118-126 | a 100×150 image turned 90 degrees about the centre anchor at the origin gets the rectangle (−75, −50, 150, 100) |

## Left out

- Degrees to radians and `sin`/`cos`: the conversion `degree * CGFloat.pi / 180` and the evaluation of sine and cosine are not modelled. `Draw` takes the sine and cosine as a `Turn`. Properties at particular angles state the sine and cosine they assume.
- Floating point: `CGFloat` is `real`. Rounding, NaN and infinity are not modelled.
- `CGAffineTransform` and `CGRect.applying`: only their result for a rectangle at the origin is used (the bounding-size formula). `BoundingSizeIsRotatedCornerSpan` relates it to the rotated corners. The library itself is not re-implemented.
- Rendering tail of `draw(at:…)` (DrawingView.swift:167-176): `tiffRepresentation`, the `CIImage` rotation and `newImage.draw(in:)` are framework calls with side effects. The model returns the rectangle built at line 165, which both return paths return.
- `DrawingView` (DrawingView.swift:20-111): the `didSet` view properties, `draw(_:)`, `drawBackground`, `generateImage` and `drawGuide` are AppKit drawing.
- `ViewController.swift` is not part of this model. It only forwards slider and button values into the view.
- The commented-out screen-relative anchors (DrawingView.swift:14-17, 127-138) are dead code.
