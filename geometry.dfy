/** Plane geometry of the canvas: client rectangles and their overlap area (which picks a merge
    target), the box-selection hit test, the wheel zoom and the conversion between the canvas's
    screen coordinates and the world coordinates elements are stored in. Measurements are reals. */
module Geometry {
  import opened Types

  function Min(a: real, b: real): real {
    if a <= b then a else b
  }

  function Max(a: real, b: real): real {
    if a >= b then a else b
  }

  /** A client rectangle as the browser measures it. */
  datatype Rect = Rect(left: real, top: real, right: real, bottom: real) {
    predicate Valid() {
      left <= right && top <= bottom
    }

    /** Positive width and height, as every rendered element has. */
    predicate Solid() {
      left < right && top < bottom
    }

    /** The closed rectangle contains the point (x, y). */
    predicate Holds(x: real, y: real) {
      left <= x <= right && top <= y <= bottom
    }
  }

  /** The length two intervals share, 0 when they share none. */
  function Shared(a1: real, a2: real, b1: real, b2: real): (r: real)
    ensures r >= 0.0
    ensures r > 0.0 <==> a1 < a2 && b1 < b2 && a1 < b2 && b1 < a2
  {
    Max(0.0, Min(a2, b2) - Max(a1, b1))
  }

  /** `getOverlapArea`: the area of the intersection of two rectangles. */
  function OverlapArea(r1: Rect, r2: Rect): (a: real)
    ensures a >= 0.0
  {
    var w := Shared(r1.left, r1.right, r2.left, r2.right);
    var h := Shared(r1.top, r1.bottom, r2.top, r2.bottom);
    assert w * h >= 0.0 by {
      if w > 0.0 && h > 0.0 {
        assert w * h > 0.0;
      }
    }
    w * h
  }

  /** The area does not depend on which rectangle is the dragged one; for solid rectangles it is
      positive exactly when the open interiors meet, so rectangles that are apart or only share an
      edge overlap by 0. */
  lemma OverlapFacts(r1: Rect, r2: Rect)
    requires r1.Solid() && r2.Solid()
    ensures OverlapArea(r1, r2) == OverlapArea(r2, r1)
    ensures OverlapArea(r1, r2) > 0.0 <==>
      r1.left < r2.right && r2.left < r1.right && r1.top < r2.bottom && r2.top < r1.bottom
  {
    var w := Shared(r1.left, r1.right, r2.left, r2.right);
    var h := Shared(r1.top, r1.bottom, r2.top, r2.bottom);
    assert w == Shared(r2.left, r2.right, r1.left, r1.right);
    assert h == Shared(r2.top, r2.bottom, r1.top, r1.bottom);
    if w > 0.0 && h > 0.0 {
      assert w * h > 0.0;
    } else {
      assert w == 0.0 || h == 0.0;
      assert w * h == 0.0;
    }
  }

  /** The selection box from its two corners, normalised with min/max. */
  function Normalise(start: Position, end: Position): (r: Rect)
    ensures r.Valid()
    ensures {r.left, r.right} == {start.x, end.x} && {r.top, r.bottom} == {start.y, end.y}
  {
    Rect(Min(start.x, end.x), Min(start.y, end.y), Max(start.x, end.x), Max(start.y, end.y))
  }

  /** The box-selection test: the element is not strictly to one side of the box. */
  predicate Touches(el: Rect, box: Rect) {
    !(el.right < box.left || el.left > box.right || el.bottom < box.top || el.top > box.bottom)
  }

  /** An element is caught by the box exactly when the two closed rectangles share a point, so a
      shared edge or corner is enough. */
  lemma TouchesIffCommonPoint(el: Rect, box: Rect)
    requires el.Valid() && box.Valid()
    ensures Touches(el, box) <==> exists x, y :: el.Holds(x, y) && box.Holds(x, y)
  {
    if Touches(el, box) {
      var x := Max(el.left, box.left);
      var y := Max(el.top, box.top);
      assert el.Holds(x, y) && box.Holds(x, y);
    }
  }

  // ---------------------------------------------------------------- view

  /** The canvas transform `translate(x, y) scale(zoom)`. */
  datatype View = View(x: real, y: real, zoom: real)

  const MinZoom: real := 0.2
  const MaxZoom: real := 3.0

  /** The zoom after a wheel event: one thousandth of the wheel delta, clamped to [0.2, 3]. */
  function WheelZoom(zoom: real, deltaY: real): (z: real)
    ensures MinZoom <= z <= MaxZoom
    ensures MinZoom <= zoom - deltaY / 1000.0 <= MaxZoom ==> z == zoom - deltaY / 1000.0
    ensures zoom - deltaY / 1000.0 < MinZoom ==> z == MinZoom
    ensures zoom - deltaY / 1000.0 > MaxZoom ==> z == MaxZoom
  {
    Min(Max(zoom + -deltaY * 0.001, MinZoom), MaxZoom)
  }

  /** Scrolling down never zooms in and scrolling up never zooms out, from any zoom in range. */
  lemma WheelDirection(zoom: real, deltaY: real)
    requires MinZoom <= zoom <= MaxZoom
    ensures deltaY >= 0.0 ==> WheelZoom(zoom, deltaY) <= zoom
    ensures deltaY <= 0.0 ==> WheelZoom(zoom, deltaY) >= zoom
  {
  }

  /** The world point shown at canvas-relative screen point (mx, my). */
  function ToWorld(v: View, mx: real, my: real): Position
    requires v.zoom != 0.0
  {
    Position((mx - v.x) / v.zoom, (my - v.y) / v.zoom)
  }

  /** Where the transform draws world point `p`, relative to the canvas. */
  function ToScreen(v: View, p: Position): Position {
    Position(v.x + v.zoom * p.x, v.y + v.zoom * p.y)
  }

  /** Converting to world coordinates and drawing them again comes back to the same place, both
      ways round. */
  lemma ScreenWorldInverse(v: View, mx: real, my: real, p: Position)
    requires v.zoom != 0.0
    ensures ToScreen(v, ToWorld(v, mx, my)) == Position(mx, my)
    ensures ToWorld(v, ToScreen(v, p).x, ToScreen(v, p).y) == p
  {
  }

  /** The new pan for zooming to `newZoom` about the pointer. */
  function ZoomAbout(v: View, mx: real, my: real, newZoom: real): View
    requires v.zoom != 0.0
  {
    View(v.x + (mx - v.x) * (1.0 - newZoom / v.zoom), v.y + (my - v.y) * (1.0 - newZoom / v.zoom), newZoom)
  }

  /** Zooming about the pointer keeps the world point under the pointer where it is. */
  lemma ZoomKeepsPointUnderPointer(v: View, mx: real, my: real, newZoom: real)
    requires v.zoom > 0.0 && newZoom > 0.0
    ensures ToWorld(ZoomAbout(v, mx, my, newZoom), mx, my) == ToWorld(v, mx, my)
  {
    var v' := ZoomAbout(v, mx, my, newZoom);
    var q := newZoom / v.zoom;
    assert mx - v'.x == (mx - v.x) * q;
    assert my - v'.y == (my - v.y) * q;
    assert (mx - v.x) * q / newZoom == (mx - v.x) / v.zoom;
    assert (my - v.y) * q / newZoom == (my - v.y) / v.zoom;
  }

  /** Panning by (dx, dy) moves the drawing of every world point by exactly (dx, dy). */
  function Pan(v: View, dx: real, dy: real): (r: View)
    ensures forall p :: ToScreen(r, p) == Position(ToScreen(v, p).x + dx, ToScreen(v, p).y + dy)
    ensures r.zoom == v.zoom
  {
    View(v.x + dx, v.y + dy, v.zoom)
  }

  /** The world position for a drop at client point (cx, cy) on a canvas whose client rectangle
      starts at (left, top). */
  function DropPoint(v: View, left: real, top: real, cx: real, cy: real): (p: Position)
    requires v.zoom != 0.0
    ensures ToScreen(v, p) == Position(cx - left, cy - top)
  {
    ScreenWorldInverse(v, cx - left, cy - top, Position(0.0, 0.0));
    ToWorld(v, cx - left, cy - top)
  }
}
