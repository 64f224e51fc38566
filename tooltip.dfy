/** Placement of the tooltip (components/Tooltip.tsx): 15 pixels below and to the right of the
    pointer, flipped to the other side of the pointer when the box would leave the window, and
    pushed back to 15 when that is off the top or left edge. */
module Tooltip {

  const Offset: real := 15.0

  /** The coordinate along one axis for pointer coordinate `p`, box size `size` and window size
      `limit`. */
  function Axis(p: real, size: real, limit: real): (r: real)
    ensures r >= 0.0
    ensures p + Offset + size <= limit && p + Offset >= 0.0 ==> r == p + Offset
    ensures p + Offset + size > limit && p - size - Offset >= 0.0 ==> r == p - size - Offset
    ensures p + Offset + size <= limit && p + Offset < 0.0 ==> r == Offset
    ensures p + Offset + size > limit && p - size - Offset < 0.0 ==> r == Offset
  {
    var a := if p + Offset + size > limit then p - size - Offset else p + Offset;
    if a < 0.0 then Offset else a
  }

  /** The layout effect: the left and top of the box, each computed from its own axis only. */
  method Place(x: real, y: real, width: real, height: real, innerWidth: real, innerHeight: real)
    returns (left: real, top: real)
    ensures left == Axis(x, width, innerWidth) && top == Axis(y, height, innerHeight)
  {
    top := y + Offset;
    left := x + Offset;
    if left + width > innerWidth {
      left := x - width - Offset;
    }
    if top + height > innerHeight {
      top := y - height - Offset;
    }
    if left < 0.0 {
      left := Offset;
    }
    if top < 0.0 {
      top := Offset;
    }
  }
}
