/** The cropper's module state as an object: the region's four fields are
    overwritten one after another on release, the matrix is an array whose
    entries 0 and 4 a body drag writes in place, and a release replaces it
    with a fresh identity array. Each handler is proved to move the object's
    abstract state exactly as the matching function of module Handlers does. */
module CropCanvas {
  import opened Geometry
  import opened Handlers

  class Cropper {
    var x: real
    var y: real
    var width: real
    var height: real
    var transform: array<real>
    var target: Target
    var anchor: Point

    ghost predicate Valid()
      reads this
    {
      transform.Length == 9
    }

    /** The object's state as a value. */
    ghost function State(): (s: CropState)
      reads this, transform
      requires Valid()
    {
      CropState(Rect(x, y, width, height), transform[..], target, anchor)
    }

    /** Module load: the default region, no target, anchor at the origin and an identity matrix. */
    constructor ()
      ensures Valid() && fresh(transform)
      ensures State() == Initial
    {
      x, y, width, height := 10.0, 10.0, 300.0, 300.0;
      anchor := Point(0.0, 0.0);
      target := None;
      transform := new real[] [1.0, 0.0, 0.0, 0.0, 1.0, 0.0, 0.0, 0.0, 1.0];
    }

    /** Replaces the matrix with a newly allocated identity matrix. */
    method ResetTransform()
      requires Valid()
      modifies this
      ensures Valid() && fresh(transform)
      ensures transform[..] == Identity
      ensures x == old(x) && y == old(y) && width == old(width) && height == old(height)
      ensures target == old(target) && anchor == old(anchor)
    {
      transform := new real[] [1.0, 0.0, 0.0, 0.0, 1.0, 0.0, 0.0, 0.0, 1.0];
    }

    /** mousedown at `p`. */
    method MouseDown(p: Point)
      requires Valid()
      modifies this
      ensures Valid() && transform == old(transform)
      ensures State() == OnMouseDown(old(State()), p)
      ensures target == CropRegion <==> PointIsInRect(p, Rect(x, y, width, height))
      ensures anchor == p && unchanged(transform)
    {
      if PointIsInRect(p, Rect(x, y, width, height)) {
        target := CropRegion;
      } else {
        target := None;
      }
      anchor := p;
    }

    /** mousemove at `p`; returns the cursor hint instead of writing it to the page. */
    method MouseMove(p: Point) returns (cursor: string)
      requires Valid()
      requires target == CropRegion ==> width != 0.0
      modifies transform
      ensures Valid() && unchanged(this)
      ensures cursor == Cursor(Rect(x, y, width, height), p)
      ensures cursor == "move" <==> PointIsInRect(p, Rect(x, y, width, height))
      ensures State() == OnMouseMove(old(State()), p)
      ensures target != CropRegion ==> unchanged(transform)
      ensures target == CropRegion ==>
                transform[..] == old(transform[..])[0 := 1.0 + (p.x - anchor.x) / width]
                                                   [4 := 1.0 + (p.x - anchor.x) / width]
    {
      cursor := Cursor(Rect(x, y, width, height), p);
      var deltaX := p.x - anchor.x;
      var deltaY := p.y - anchor.y;
      match target {
        case CropRegion =>
          transform[0] := 1.0 + deltaX / width;
          transform[4] := 1.0 + deltaX / width;
        case _ =>
      }
    }

    /** mouseup: commit the matrix into the region's fields and reset it. */
    method MouseUp()
      requires Valid()
      modifies this
      ensures Valid() && fresh(transform)
      ensures State() == OnMouseUp(old(State()))
      ensures target == None && transform[..] == Identity
      ensures Point(x, y) == TransformPoint(Point(old(x), old(y)), old(transform[..]))
      ensures Point(x + width, y + height)
              == TransformPoint(Point(old(x) + old(width), old(y) + old(height)), old(transform[..]))
    {
      target := None;
      var regionAnchor := TransformPoint(Point(x, y), transform[..]);
      var regionSpan := TransformPoint(Point(x + width, y + height), transform[..]);
      x := regionAnchor.x;
      y := regionAnchor.y;
      width := regionSpan.x - regionAnchor.x;
      height := regionSpan.y - regionAnchor.y;
      ResetTransform();
    }
  }

  /** A client: a press inside the default region, a move 30 units right and
      a release leave the region at {11, 11, 330, 330}. */
  method DragScenario() returns (region: Rect, cursor: string)
    ensures region == Rect(11.0, 11.0, 330.0, 330.0)
    ensures cursor == "move"
  {
    var c := new Cropper();
    c.MouseDown(Point(100.0, 100.0));
    cursor := c.MouseMove(Point(130.0, 100.0));
    c.MouseUp();
    ReleaseScalesAboutOrigin(Initial.region, 1.1);
    region := Rect(c.x, c.y, c.width, c.height);
  }
}
