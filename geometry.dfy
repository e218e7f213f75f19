/**
 * Screen geometry of the arena: the fixed constants, the integer rectangles
 * used for the ghosts' home areas and the menu buttons, the real-valued
 * collision boxes, and the clamping and overlap tests built on them.
 */
module Geometry {

  const WIDTH: int := 800
  const HEIGHT: int := 600
  /** Width of one animation frame in every sprite sheet. */
  const FRAME_W: int := 128
  /** Side of the square collision box of the player, a ghost or a potion. */
  const BOX_SIZE: real := 48.0

  /** An axis-aligned integer rectangle (left, top, width, height). */
  datatype Rect = Rect(left: int, top: int, width: int, height: int)
  {
    function Right(): int { left + width }
    function Bottom(): int { top + height }

    /** A point lies in the rectangle when it is on or after the left/top edge
        and strictly before the right/bottom edge, as pygame's
        `collidepoint` decides. */
    predicate Contains(px: int, py: int)
    {
      left <= px < Right() && top <= py < Bottom()
    }
  }

  /** A collision box. Coordinates are real because a falling potion's
      vertical position is fractional. */
  datatype Box = Box(left: real, top: real, width: real, height: real)

  /** The box of the given size centred on (cx, cy). Half the size is
      subtracted on each axis, as the entities' box helpers do. */
  function CenteredBox(cx: real, cy: real): (b: Box)
    ensures b.width == BOX_SIZE && b.height == BOX_SIZE
    ensures b.left + b.width / 2.0 == cx && b.top + b.height / 2.0 == cy
  {
    Box(cx - BOX_SIZE / 2.0, cy - BOX_SIZE / 2.0, BOX_SIZE, BOX_SIZE)
  }

  /** Strict overlap of the two boxes on both axes, as pygame's
      `colliderect` decides: boxes that only share an edge do not overlap. */
  predicate Overlaps(a: Box, b: Box)
  {
    && a.left < b.left + b.width && b.left < a.left + a.width
    && a.top < b.top + b.height && b.top < a.top + a.height
  }

  lemma OverlapsSymmetric(a: Box, b: Box)
    ensures Overlaps(a, b) <==> Overlaps(b, a)
  {
  }

  /** Two entity boxes overlap exactly when their centres are less than one
      box side apart on each axis. */
  lemma CenteredOverlap(x1: real, y1: real, x2: real, y2: real)
    ensures Overlaps(CenteredBox(x1, y1), CenteredBox(x2, y2))
        <==> (-BOX_SIZE < x1 - x2 < BOX_SIZE && -BOX_SIZE < y1 - y2 < BOX_SIZE)
  {
  }

  /** max(lo, min(hi, v)): the value limited to [lo, hi]. When the bounds
      cross, the lower bound wins. */
  function Clamp(lo: int, hi: int, v: int): (r: int)
    ensures lo <= hi ==> lo <= r <= hi
    ensures lo <= v <= hi ==> r == v
    ensures v < lo ==> r == lo
    ensures lo <= hi < v ==> r == hi
    ensures hi < lo ==> r == lo
  {
    var m := if hi < v then hi else v;
    if m < lo then lo else m
  }
}
