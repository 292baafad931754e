/** The `RotateAnchor` enumeration: nine image-relative anchor points, backed
    by the integer raw values 0 to 8 in declaration order. */
module Anchors {

  datatype Option<T> = None | Some(value: T)

  datatype RotateAnchor =
    | ImageTopLeft | ImageTop | ImageTopRight
    | ImageLeft | Center | ImageRight
    | ImageBottomLeft | ImageBottom | ImageBottomRight

  /** The four corner anchors. */
  predicate IsCorner(a: RotateAnchor) {
    a.ImageTopLeft? || a.ImageTopRight? || a.ImageBottomLeft? || a.ImageBottomRight?
  }

  /** The four edge-midpoint anchors. */
  predicate IsEdge(a: RotateAnchor) {
    a.ImageTop? || a.ImageLeft? || a.ImageRight? || a.ImageBottom?
  }

  /** `rawValue`: the first case is 0 and each later case one more. */
  function RawValue(a: RotateAnchor): (n: int)
    ensures 0 <= n < 9
    ensures a.Center? <==> n == 4
  {
    match a
    case ImageTopLeft => 0
    case ImageTop => 1
    case ImageTopRight => 2
    case ImageLeft => 3
    case Center => 4
    case ImageRight => 5
    case ImageBottomLeft => 6
    case ImageBottom => 7
    case ImageBottomRight => 8
  }

  /** `init?(rawValue:)`: the anchor with raw value `n`, or nothing when no
      case has that raw value. */
  function FromRawValue(n: int): (r: Option<RotateAnchor>)
    ensures r.None? <==> n < 0 || 9 <= n
  {
    if n == 0 then Some(ImageTopLeft)
    else if n == 1 then Some(ImageTop)
    else if n == 2 then Some(ImageTopRight)
    else if n == 3 then Some(ImageLeft)
    else if n == 4 then Some(Center)
    else if n == 5 then Some(ImageRight)
    else if n == 6 then Some(ImageBottomLeft)
    else if n == 7 then Some(ImageBottom)
    else if n == 8 then Some(ImageBottomRight)
    else None
  }

  /** Every anchor is recovered from its raw value. */
  lemma FromRawValueOfRawValue(a: RotateAnchor)
    ensures FromRawValue(RawValue(a)) == Some(a)
  {
  }

  /** Whatever `init?(rawValue:)` returns has the raw value it was given. */
  lemma RawValueOfFromRawValue(n: int)
    requires FromRawValue(n).Some?
    ensures RawValue(FromRawValue(n).value) == n
  {
  }

  /** Distinct anchors have distinct raw values. */
  lemma RawValueInjective(a: RotateAnchor, b: RotateAnchor)
    requires RawValue(a) == RawValue(b)
    ensures a == b
  {
    FromRawValueOfRawValue(a);
    FromRawValueOfRawValue(b);
  }

  /** Every anchor is exactly one of: a corner, an edge midpoint, the centre. */
  lemma AnchorKindsPartition(a: RotateAnchor)
    ensures IsCorner(a) || IsEdge(a) || a.Center?
    ensures !(IsCorner(a) && IsEdge(a))
    ensures a.Center? ==> !IsCorner(a) && !IsEdge(a)
  {
  }
}
