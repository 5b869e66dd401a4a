/** The rounded rectangle of `ThumbnailGenerator.draw_rounded_rectangle`:
    two overlapping rectangles (a cross) plus a circle's bounding box at each
    of the four corners, all in the same fill. */
module Shapes {
  import opened Drawing

  /** `[x0, y0, x1, y1]` with the corners in order. */
  predicate WellFormed(b: Box) {
    b.x0 <= b.x1 && b.y0 <= b.y1
  }

  predicate Inside(inner: Box, outer: Box) {
    outer.x0 <= inner.x0 && inner.x1 <= outer.x1 && outer.y0 <= inner.y0 && inner.y1 <= outer.y1
  }

  predicate Contains(b: Box, px: int, py: int) {
    b.x0 <= px <= b.x1 && b.y0 <= py <= b.y1
  }

  /** The box of a rectangle or ellipse call. */
  function ShapeBox(op: Op): Box
    requires op.RectangleCall? || op.EllipseCall?
  {
    op.box
  }

  /** The calls `draw_rounded_rectangle` makes, in order: the horizontal band,
      the vertical band, then the top-left, top-right, bottom-left and
      bottom-right corner ellipses. */
  function RoundedRectangleOps(b: Box, radius: int, fill: Color): seq<Op> {
    [ RectangleCall(Box(b.x0 + radius, b.y0, b.x1 - radius, b.y1), fill),
      RectangleCall(Box(b.x0, b.y0 + radius, b.x1, b.y1 - radius), fill),
      EllipseCall(Box(b.x0, b.y0, b.x0 + 2 * radius, b.y0 + 2 * radius), fill),
      EllipseCall(Box(b.x1 - 2 * radius, b.y0, b.x1, b.y0 + 2 * radius), fill),
      EllipseCall(Box(b.x0, b.y1 - 2 * radius, b.x0 + 2 * radius, b.y1), fill),
      EllipseCall(Box(b.x1 - 2 * radius, b.y1 - 2 * radius, b.x1, b.y1), fill) ]
  }

  method DrawRoundedRectangle(draw: Canvas, b: Box, radius: int, fill: Color)
    modifies draw
    ensures draw.ops == old(draw.ops) + RoundedRectangleOps(b, radius, fill)
  {
    draw.Rectangle(Box(b.x0 + radius, b.y0, b.x1 - radius, b.y1), fill);
    draw.Rectangle(Box(b.x0, b.y0 + radius, b.x1, b.y1 - radius), fill);
    draw.Ellipse(Box(b.x0, b.y0, b.x0 + 2 * radius, b.y0 + 2 * radius), fill);
    draw.Ellipse(Box(b.x1 - 2 * radius, b.y0, b.x1, b.y0 + 2 * radius), fill);
    draw.Ellipse(Box(b.x0, b.y1 - 2 * radius, b.x0 + 2 * radius, b.y1), fill);
    draw.Ellipse(Box(b.x1 - 2 * radius, b.y1 - 2 * radius, b.x1, b.y1), fill);
  }

  /** Two rectangles then four ellipses, all in the one fill; each ellipse box
      is a `2r` by `2r` square sharing one corner with the bbox (top-left,
      top-right, bottom-left, bottom-right in that order). When the radius is
      at most half of each side, every shape is a proper box inside the bbox. */
  lemma RoundedRectangleShapes(b: Box, radius: int, fill: Color)
    ensures var ops := RoundedRectangleOps(b, radius, fill);
      && |ops| == 6
      && ops[0].RectangleCall? && ops[1].RectangleCall?
      && (forall k :: 2 <= k < 6 ==> ops[k].EllipseCall?)
      && (forall k :: 0 <= k < 6 ==> ops[k].fill == fill)
      && (forall k :: 2 <= k < 6 ==>
            ShapeBox(ops[k]).x1 - ShapeBox(ops[k]).x0 == 2 * radius == ShapeBox(ops[k]).y1 - ShapeBox(ops[k]).y0)
      && ShapeBox(ops[2]).x0 == b.x0 && ShapeBox(ops[2]).y0 == b.y0
      && ShapeBox(ops[3]).x1 == b.x1 && ShapeBox(ops[3]).y0 == b.y0
      && ShapeBox(ops[4]).x0 == b.x0 && ShapeBox(ops[4]).y1 == b.y1
      && ShapeBox(ops[5]).x1 == b.x1 && ShapeBox(ops[5]).y1 == b.y1
      && (0 <= radius && 2 * radius <= b.x1 - b.x0 && 2 * radius <= b.y1 - b.y0 ==>
            forall k :: 0 <= k < 6 ==> WellFormed(ShapeBox(ops[k])) && Inside(ShapeBox(ops[k]), b))
  {
  }

  /** The corner square of side `radius` at corner `k` (0 top-left, 1 top-right,
      2 bottom-left, 3 bottom-right): the part of the bbox the two bands leave
      uncovered there. */
  function CornerSquare(b: Box, radius: int, k: int): Box
    requires 0 <= k < 4
  {
    match k
    case 0 => Box(b.x0, b.y0, b.x0 + radius, b.y0 + radius)
    case 1 => Box(b.x1 - radius, b.y0, b.x1, b.y0 + radius)
    case 2 => Box(b.x0, b.y1 - radius, b.x0 + radius, b.y1)
    case _ => Box(b.x1 - radius, b.y1 - radius, b.x1, b.y1)
  }

  /** Every point of the bbox lies in one of the two bands, or else in one
      corner square, which is the outer quarter of that corner's
      ellipse box: the two bands and four ellipses together cover the bbox
      apart from the rounded-off corners. */
  lemma RoundedRectangleCovers(b: Box, radius: int, fill: Color, px: int, py: int)
    requires 0 <= radius && 2 * radius <= b.x1 - b.x0 && 2 * radius <= b.y1 - b.y0
    requires Contains(b, px, py)
    ensures var ops := RoundedRectangleOps(b, radius, fill);
      || Contains(ShapeBox(ops[0]), px, py)
      || Contains(ShapeBox(ops[1]), px, py)
      || exists k :: 0 <= k < 4 && Contains(CornerSquare(b, radius, k), px, py)
           && Inside(CornerSquare(b, radius, k), ShapeBox(ops[k + 2]))
  {
    var ops := RoundedRectangleOps(b, radius, fill);
    if !Contains(ShapeBox(ops[0]), px, py) && !Contains(ShapeBox(ops[1]), px, py) {
      var k := if px < b.x0 + radius then (if py < b.y0 + radius then 0 else 2)
               else (if py < b.y0 + radius then 1 else 3);
      assert Contains(CornerSquare(b, radius, k), px, py) && Inside(CornerSquare(b, radius, k), ShapeBox(ops[k + 2]));
    }
  }
}
