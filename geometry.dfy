/** Points, rectangles and the 3x3 row-major matrix the cropper keeps,
    with the two pure helpers of crop.js (containment and point mapping)
    and the argument order it uses for the canvas `setTransform` call. */
module Geometry {

  datatype Point = Point(x: real, y: real)

  /** An axis-aligned rectangle. Nothing keeps `width` or `height` non-negative. */
  datatype Rect = Rect(x: real, y: real, width: real, height: real)

  function TopLeft(r: Rect): Point { Point(r.x, r.y) }

  function BottomRight(r: Rect): Point { Point(r.x + r.width, r.y + r.height) }

  /** A 3x3 matrix stored row-major in nine entries. Only entries 0-5 are ever read. */
  type Matrix = m: seq<real> | |m| == 9 witness [1.0, 0.0, 0.0, 0.0, 1.0, 0.0, 0.0, 0.0, 1.0]

  /** The matrix the cropper resets to after every release. */
  const Identity: Matrix := [1.0, 0.0, 0.0,
                             0.0, 1.0, 0.0,
                             0.0, 0.0, 1.0]

  /** A uniform scale by `k` about the canvas origin. The ensures ties it to
      the reset matrix with entries 0 and 4 overwritten, which is exactly what
      a body drag leaves behind (see `Handlers.DragThenRelease`). */
  function ScaleMatrix(k: real): (m: Matrix)
    ensures m == Identity[0 := k][4 := k]
  {
    [k, 0.0, 0.0,
     0.0, k, 0.0,
     0.0, 0.0, 1.0]
  }

  /** Closed-interval containment: points on any edge are inside. A rectangle
      with a negative width or height contains no point at all. */
  predicate PointIsInRect(p: Point, r: Rect)
    ensures PointIsInRect(p, r) ==> r.width >= 0.0 && r.height >= 0.0
  {
    p.x >= r.x && p.x <= r.x + r.width && p.y >= r.y && p.y <= r.y + r.height
  }

  /** The 2x3 affine application of the top two rows of `t`. The identity
      matrix fixes every point, and a uniform scale matrix multiplies both
      coordinates by its factor. */
  function TransformPoint(p: Point, t: Matrix): (q: Point)
    ensures t == Identity ==> q == p
    ensures t == ScaleMatrix(t[0]) ==> q == Point(t[0] * p.x, t[0] * p.y)
  {
    Point(p.x * t[0] + p.y * t[1] + t[2],
          p.x * t[3] + p.y * t[4] + t[5])
  }

  /** The six arguments of the canvas 2D context's `setTransform(a, b, c, d, e, f)`. */
  datatype CanvasTransform = CanvasTransform(a: real, b: real, c: real, d: real, e: real, f: real)

  /** How the canvas maps a point under `setTransform(a, b, c, d, e, f)`, per the
      "Transformations" section of the HTML Living Standard's canvas chapter:
      x' = a*x + c*y + e and y' = b*x + d*y + f. */
  function CanvasApply(ct: CanvasTransform, p: Point): Point {
    Point(ct.a * p.x + ct.c * p.y + ct.e, ct.b * p.x + ct.d * p.y + ct.f)
  }

  /** The arguments the preview passes to `setTransform`: entries 0, 3, 1, 4, 2, 5.
      The canvas then maps every point exactly as `TransformPoint` does, so the
      region outline drawn under the live matrix lands where the region committed
      on release will be. (The image content drawn into it is sampled from a
      source rectangle offset by entries 2 and 5 and sized by entries 0 and 4,
      and is not covered.) */
  function SetTransformArgs(t: Matrix): (ct: CanvasTransform)
    ensures forall p :: CanvasApply(ct, p) == TransformPoint(p, t)
  {
    CanvasTransform(t[0], t[3], t[1], t[4], t[2], t[5])
  }

  /** Every corner of a rectangle with non-negative extent is inside it. */
  lemma CornersInside(r: Rect)
    requires r.width >= 0.0 && r.height >= 0.0
    ensures PointIsInRect(TopLeft(r), r)
    ensures PointIsInRect(Point(r.x + r.width, r.y), r)
    ensures PointIsInRect(Point(r.x, r.y + r.height), r)
    ensures PointIsInRect(BottomRight(r), r)
  {
  }

  /** A point left of the left edge, right of the right edge, above the top edge
      or below the bottom edge is outside; with the corner lemma this pins the
      test down as closed on all four sides. */
  lemma OutsideEdges(p: Point, r: Rect)
    ensures p.x < r.x ==> !PointIsInRect(p, r)
    ensures p.x > r.x + r.width ==> !PointIsInRect(p, r)
    ensures p.y < r.y ==> !PointIsInRect(p, r)
    ensures p.y > r.y + r.height ==> !PointIsInRect(p, r)
  {
  }
}
