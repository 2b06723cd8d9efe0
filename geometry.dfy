/**
 * Integer stand-ins for the rectangles and vectors of the toolkit (StRect, StGLVec2).
 * The toolkit stores GLfloat coordinates; the properties modelled here concern only
 * copying and comparing them, so the model uses unbounded integers.
 */
module Geometry {

  /** StRect: the four edges of an axis-aligned rectangle. */
  datatype Rect = Rect(left: int, right: int, top: int, bottom: int)

  /** StGLVec2 used as a pen position on the baseline. */
  datatype Pen = Pen(x: int, y: int)

  /** Signed horizontal extent of a rectangle. */
  function Width(r: Rect): int { r.right - r.left }

  /** Signed vertical extent of a rectangle. */
  function Height(r: Rect): int { r.bottom - r.top }

  /** Absolute value of a signed extent, as std::abs gives it. */
  function Magnitude(d: int): (m: int)
    ensures 0 <= m
    ensures m == d || m == -d
  {
    if d < 0 then -d else d
  }

  /** The magnitude does not depend on which way the rectangle's edges are ordered. */
  lemma MagnitudeOfFlippedRect(r: Rect)
    ensures Magnitude(Height(r)) == Magnitude(Height(r.(top := r.bottom, bottom := r.top)))
    ensures Magnitude(Width(r)) == Magnitude(Width(r.(left := r.right, right := r.left)))
  {
  }
}
