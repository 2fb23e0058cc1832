/** The cropper's interaction state and what each pointer handler does to it,
    as functions on values. The class in module CropCanvas is proved to
    follow these functions step by step. */
module Handlers {
  import opened Geometry

  /** The clickable targets. `CropControl` is declared by the cropper but no
      handler ever selects it (see `NeverCropControl`). */
  datatype Target = CropControl | CropRegion | None

  /** The four pieces of mutable state: the committed region, the live matrix,
      the current target and the anchor of the last press. */
  datatype CropState = CropState(region: Rect, transform: Matrix, target: Target, anchor: Point)

  /** The state once the module has loaded: region {10, 10, 300, 300},
      identity matrix, no target, anchor at the origin. */
  const Initial: CropState := CropState(Rect(10.0, 10.0, 300.0, 300.0), Identity, None, Point(0.0, 0.0))

  /** The cursor hint shown for pointer position `p`. */
  function Cursor(r: Rect, p: Point): (c: string)
    ensures c == "move" <==> PointIsInRect(p, r)
    ensures c == "auto" <==> !PointIsInRect(p, r)
  {
    if PointIsInRect(p, r) then "move" else "auto"
  }

  /** The uniform scale a body drag writes: one plus the horizontal drag
      distance as a fraction of the region's width. */
  function DragScale(anchor: Point, p: Point, width: real): (k: real)
    requires width != 0.0
    ensures (k - 1.0) * width == p.x - anchor.x
  {
    1.0 + (p.x - anchor.x) / width
  }

  /** The region rebuilt on release from its two corners mapped through `t`. */
  function CommitRect(r: Rect, t: Matrix): (c: Rect)
    ensures TopLeft(c) == TransformPoint(TopLeft(r), t)
    ensures BottomRight(c) == TransformPoint(BottomRight(r), t)
  {
    var anchor := TransformPoint(Point(r.x, r.y), t);
    var span := TransformPoint(Point(r.x + r.width, r.y + r.height), t);
    Rect(anchor.x, anchor.y, span.x - anchor.x, span.y - anchor.y)
  }

  /** mousedown: hit-test against the region and record the anchor. */
  function OnMouseDown(s: CropState, p: Point): (r: CropState)
    ensures r.target == CropRegion <==> PointIsInRect(p, s.region)
    ensures r.target == None <==> !PointIsInRect(p, s.region)
    ensures r.anchor == p
    ensures r.region == s.region && r.transform == s.transform
  {
    s.(target := if PointIsInRect(p, s.region) then CropRegion else None, anchor := p)
  }

  /** What mousemove needs in order to be defined over the reals: while the
      region is the target its width is a divisor. */
  predicate CanMove(s: CropState) {
    s.target == CropRegion ==> s.region.width != 0.0
  }

  /** mousemove: while the region is the target, write the drag scale into
      entries 0 and 4 of the matrix; otherwise change nothing. */
  function OnMouseMove(s: CropState, p: Point): (r: CropState)
    requires CanMove(s)
    ensures r.region == s.region && r.target == s.target && r.anchor == s.anchor
    ensures s.target != CropRegion ==> r == s
    ensures s.target == CropRegion ==>
              (r.transform[0] - 1.0) * s.region.width == p.x - s.anchor.x &&
              r.transform[4] == r.transform[0]
    ensures forall i :: 0 <= i < 9 && i != 0 && i != 4 ==> r.transform[i] == s.transform[i]
  {
    match s.target
    case CropRegion =>
      var k := DragScale(s.anchor, p, s.region.width);
      s.(transform := s.transform[0 := k][4 := k])
    case _ => s
  }

  /** mouseup: drop the target, commit the matrix into the region and reset the matrix. */
  function OnMouseUp(s: CropState): (r: CropState)
    ensures r.target == None && r.transform == Identity && r.anchor == s.anchor
    ensures TopLeft(r.region) == TransformPoint(TopLeft(s.region), s.transform)
    ensures BottomRight(r.region) == TransformPoint(BottomRight(s.region), s.transform)
  {
    s.(target := None, region := CommitRect(s.region, s.transform), transform := Identity)
  }

  // ---------------------------------------------------------------------------
  // Properties of single handlers

  /** The vertical drag distance has no effect on the matrix. */
  lemma MoveIgnoresDeltaY(s: CropState, p: Point, q: Point)
    requires CanMove(s) && p.x == q.x
    ensures OnMouseMove(s, p) == OnMouseMove(s, q)
  {
  }

  /** Releasing with the identity matrix leaves the region exactly as it was. */
  lemma ReleaseWithIdentityKeepsRegion(s: CropState)
    requires s.transform == Identity
    ensures OnMouseUp(s).region == s.region
  {
  }

  /** The region multiplied by `k` about the canvas origin. */
  function ScaleRect(r: Rect, k: real): Rect {
    Rect(k * r.x, k * r.y, k * r.width, k * r.height)
  }

  /** A region with a negative width or height, which a release under a
      negative scale produces, can never be grabbed again. */
  lemma InvertedRegionNeverSelected(s: CropState, p: Point)
    requires s.region.width < 0.0 || s.region.height < 0.0
    ensures OnMouseDown(s, p).target == None
  {
  }

  /** An idle region with a negative width or height is never changed again,
      whatever events follow: no press selects it, so no move writes a scale,
      and every release commits the identity matrix. */
  lemma {:induction false} InvertedRegionStaysPut(s: CropState, es: seq<Event>)
    requires s.transform == Identity && s.target != CropRegion
    requires s.region.width < 0.0 || s.region.height < 0.0
    ensures CanRun(s, es) && Run(s, es).region == s.region
    decreases |es|
  {
    if es != [] {
      var s1 := Step(s, es[0]);
      assert s1.region == s.region && s1.transform == Identity && s1.target != CropRegion;
      InvertedRegionStaysPut(s1, es[1..]);
    }
  }

  /** Releasing under a uniform scale scales position and extent alike,
      about the canvas origin rather than about the region's corner. */
  lemma ReleaseScalesAboutOrigin(r: Rect, k: real)
    ensures CommitRect(r, ScaleMatrix(k)) == ScaleRect(r, k)
  {
  }

  /** Nothing clamps the scale: a non-positive factor on a region of positive
      extent yields a non-positive width and height. */
  lemma NonPositiveScaleInverts(r: Rect, k: real)
    requires k <= 0.0 && r.width > 0.0 && r.height > 0.0
    ensures CommitRect(r, ScaleMatrix(k)).width <= 0.0
    ensures CommitRect(r, ScaleMatrix(k)).height <= 0.0
  {
    ReleaseScalesAboutOrigin(r, k);
  }

  // ---------------------------------------------------------------------------
  // Event traces

  datatype Event = MouseDown(p: Point) | MouseMove(p: Point) | MouseUp

  predicate CanStep(s: CropState, e: Event) {
    e.MouseMove? ==> CanMove(s)
  }

  function Step(s: CropState, e: Event): CropState
    requires CanStep(s, e)
  {
    match e
    case MouseDown(p) => OnMouseDown(s, p)
    case MouseMove(p) => OnMouseMove(s, p)
    case MouseUp => OnMouseUp(s)
  }

  /** Whether every move in `es`, run from `s`, meets `CanMove`. */
  predicate CanRun(s: CropState, es: seq<Event>)
    decreases |es|
  {
    es == [] || (CanStep(s, es[0]) && CanRun(Step(s, es[0]), es[1..]))
  }

  /** The state after handling the events of `es` in order. */
  function Run(s: CropState, es: seq<Event>): CropState
    requires CanRun(s, es)
    decreases |es|
  {
    if es == [] then s else Run(Step(s, es[0]), es[1..])
  }

  /** The live matrix is a uniform scale about the origin: entries 1, 2, 3, 5
      are zero, the bottom row is (0, 0, 1) and entries 0 and 4 agree. */
  predicate UniformScale(t: Matrix) {
    t == ScaleMatrix(t[0])
  }

  /** No handler ever leaves the matrix anything but a uniform scale. */
  lemma StepKeepsUniformScale(s: CropState, e: Event)
    requires CanStep(s, e) && UniformScale(s.transform)
    ensures UniformScale(Step(s, e).transform)
  {
  }

  /** Every state reachable from `s` keeps the matrix a uniform scale. */
  lemma {:induction false} RunKeepsUniformScale(s: CropState, es: seq<Event>)
    requires CanRun(s, es) && UniformScale(s.transform)
    ensures UniformScale(Run(s, es).transform)
    decreases |es|
  {
    if es != [] {
      StepKeepsUniformScale(s, es[0]);
      RunKeepsUniformScale(Step(s, es[0]), es[1..]);
    }
  }

  /** No handler ever selects the resize control. */
  lemma {:induction false} NeverCropControl(s: CropState, es: seq<Event>)
    requires CanRun(s, es) && s.target != CropControl
    ensures Run(s, es).target != CropControl
    decreases |es|
  {
    if es != [] {
      NeverCropControl(Step(s, es[0]), es[1..]);
    }
  }

  /** Whatever the history, a release only ever scales the region about the
      canvas origin by the factor held in entry 0; it never translates it. */
  lemma ReachableReleaseScales(es: seq<Event>)
    requires CanRun(Initial, es)
    ensures var s := Run(Initial, es);
            OnMouseUp(s).region == ScaleRect(s.region, s.transform[0])
  {
    RunKeepsUniformScale(Initial, es);
    var s := Run(Initial, es);
    ReleaseScalesAboutOrigin(s.region, s.transform[0]);
  }

  /** Handling `e` then the events of `es` is running `[e] + es`. */
  lemma RunCons(s: CropState, e: Event, es: seq<Event>)
    requires CanStep(s, e) && CanRun(Step(s, e), es)
    ensures CanRun(s, [e] + es) && Run(s, [e] + es) == Run(Step(s, e), es)
  {
    assert ([e] + es)[1..] == es;
  }

  /** A press, one move and a release rescale the region by the move's scale. */
  lemma DragThenRelease(s: CropState, p: Point, q: Point)
    requires UniformScale(s.transform) && PointIsInRect(p, s.region) && s.region.width != 0.0
    ensures CanRun(s, [MouseDown(p), MouseMove(q), MouseUp])
    ensures Run(s, [MouseDown(p), MouseMove(q), MouseUp]).region
            == ScaleRect(s.region, DragScale(p, q, s.region.width))
  {
    var k := DragScale(p, q, s.region.width);
    var s1 := OnMouseDown(s, p);
    var s2 := OnMouseMove(s1, q);
    assert s2.transform == ScaleMatrix(k);
    ReleaseScalesAboutOrigin(s.region, k);
    RunCons(s2, MouseUp, []);
    RunCons(s1, MouseMove(q), [MouseUp]);
    RunCons(s, MouseDown(p), [MouseMove(q), MouseUp]);
  }

  /** From the initial region, pressing at (100, 100), moving to (130, 100)
      and releasing gives the region {11, 11, 330, 330}. */
  lemma WorkedDrag()
    ensures CanRun(Initial, [MouseDown(Point(100.0, 100.0)), MouseMove(Point(130.0, 100.0)), MouseUp])
    ensures Run(Initial, [MouseDown(Point(100.0, 100.0)), MouseMove(Point(130.0, 100.0)), MouseUp]).region
            == Rect(11.0, 11.0, 330.0, 330.0)
  {
    DragThenRelease(Initial, Point(100.0, 100.0), Point(130.0, 100.0));
    assert DragScale(Point(100.0, 100.0), Point(130.0, 100.0), 300.0) == 1.1;
  }

  /** Moving while no target is held changes nothing but the cursor hint. */
  lemma {:induction false} IdleMovesChangeNothing(s: CropState, ps: seq<Point>)
    requires s.target != CropRegion
    ensures CanRun(s, seq(|ps|, i requires 0 <= i < |ps| => MouseMove(ps[i])))
    ensures Run(s, seq(|ps|, i requires 0 <= i < |ps| => MouseMove(ps[i]))) == s
    decreases |ps|
  {
    var es := seq(|ps|, i requires 0 <= i < |ps| => MouseMove(ps[i]));
    if ps != [] {
      assert es[1..] == seq(|ps[1..]|, i requires 0 <= i < |ps[1..]| => MouseMove(ps[1..][i]));
      IdleMovesChangeNothing(s, ps[1..]);
    }
  }

  /** A release that goes unseen leaves the scale in place: a later press
      outside the region clears the target but not the matrix, and the next
      release still commits the stale scale. */
  lemma StaleScaleSurvivesPress()
    ensures var s := OnMouseDown(OnMouseMove(OnMouseDown(Initial, Point(100.0, 100.0)),
                                             Point(130.0, 100.0)),
                                 Point(5.0, 5.0));
            s.target == None && s.transform == ScaleMatrix(1.1) &&
            OnMouseUp(s).region == Rect(11.0, 11.0, 330.0, 330.0)
  {
    ReleaseScalesAboutOrigin(Initial.region, 1.1);
  }
}
