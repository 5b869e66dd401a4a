/** Outlined text (`ThumbnailGenerator.draw_text_with_stroke`): the text is
    stamped in the stroke colour at every integer offset of a filled disk of
    radius `strokeWidth`, `dx` in the outer loop and `dy` in the inner one,
    each from `-strokeWidth` to `strokeWidth`; then once in the fill colour at
    the true position. */
module Stroke {
  import opened Drawing

  predicate InDisk(dx: int, dy: int, w: int) {
    dx * dx + dy * dy <= w * w
  }

  /** The offsets `(dx, dy)` of the disk for one `dx`, with `dy` running from
      `-w` up to (not including) `dyEnd`. */
  function Column(dx: int, w: int, dyEnd: int): seq<(int, int)>
    decreases dyEnd + w
  {
    if dyEnd <= -w then []
    else Column(dx, w, dyEnd - 1) + (if InDisk(dx, dyEnd - 1, w) then [(dx, dyEnd - 1)] else [])
  }

  /** The offsets of the disk with `dx` running from `-w` up to (not including) `dxEnd`. */
  function Offsets(w: int, dxEnd: int): seq<(int, int)>
    decreases dxEnd + w
  {
    if dxEnd <= -w then [] else Offsets(w, dxEnd - 1) + Column(dxEnd - 1, w, w + 1)
  }

  /** All stroke offsets, in the order they are stamped. */
  function DiskOffsets(w: int): seq<(int, int)> {
    Offsets(w, w + 1)
  }

  /** One stamp of `text` in `color` per offset. */
  function Stamps(offsets: seq<(int, int)>, x: int, y: int, text: string, font: Font, color: Color): (r: seq<Op>)
    ensures |r| == |offsets|
  {
    if offsets == [] then []
    else
      var last := offsets[|offsets| - 1];
      Stamps(offsets[..|offsets| - 1], x, y, text, font, color) + [TextCall(x + last.0, y + last.1, text, font, color)]
  }

  lemma {:induction false} StampsAt(offsets: seq<(int, int)>, x: int, y: int, text: string, font: Font, color: Color)
    ensures forall k :: 0 <= k < |offsets| ==>
      Stamps(offsets, x, y, text, font, color)[k] == TextCall(x + offsets[k].0, y + offsets[k].1, text, font, color)
  {
    if offsets != [] {
      StampsAt(offsets[..|offsets| - 1], x, y, text, font, color);
    }
  }

  lemma StampsAppend(a: seq<(int, int)>, b: seq<(int, int)>, x: int, y: int, text: string, font: Font, color: Color)
    ensures Stamps(a + b, x, y, text, font, color) == Stamps(a, x, y, text, font, color) + Stamps(b, x, y, text, font, color)
  {
    var l, r := Stamps(a + b, x, y, text, font, color), Stamps(a, x, y, text, font, color) + Stamps(b, x, y, text, font, color);
    StampsAt(a + b, x, y, text, font, color);
    StampsAt(a, x, y, text, font, color);
    StampsAt(b, x, y, text, font, color);
    assert |l| == |r|;
    forall k | 0 <= k < |l| ensures l[k] == r[k] {
      if k < |a| {
        assert (a + b)[k] == a[k];
      } else {
        assert (a + b)[k] == b[k - |a|];
      }
    }
  }

  lemma StampsSnoc(a: seq<(int, int)>, p: (int, int), x: int, y: int, text: string, font: Font, color: Color)
    ensures Stamps(a + [p], x, y, text, font, color) == Stamps(a, x, y, text, font, color) + [TextCall(x + p.0, y + p.1, text, font, color)]
  {
    assert (a + [p])[..|a|] == a;
  }

  /** The stroke stamps of one column `dx`, `dy` running from `-w` up to
      (not including) `dyEnd`. */
  function ColumnStamps(x: int, y: int, text: string, font: Font, color: Color, dx: int, w: int, dyEnd: int): seq<Op>
    decreases dyEnd + w
  {
    if dyEnd <= -w then []
    else
      var stamp := if InDisk(dx, dyEnd - 1, w) then [TextCall(x + dx, y + dyEnd - 1, text, font, color)] else [];
      ColumnStamps(x, y, text, font, color, dx, w, dyEnd - 1) + stamp
  }

  /** The stroke stamps of the columns `-w` up to (not including) `dxEnd`. */
  function DiskStamps(x: int, y: int, text: string, font: Font, color: Color, w: int, dxEnd: int): seq<Op>
    decreases dxEnd + w
  {
    if dxEnd <= -w then []
    else DiskStamps(x, y, text, font, color, w, dxEnd - 1) + ColumnStamps(x, y, text, font, color, dxEnd - 1, w, w + 1)
  }

  /** The calls `draw_text_with_stroke` makes. */
  function StrokeOps(x: int, y: int, text: string, font: Font, fill: Color, stroke: Color, w: int): seq<Op> {
    DiskStamps(x, y, text, font, stroke, w, w + 1) + [TextCall(x, y, text, font, fill)]
  }

  lemma {:induction false} ColumnStampsAre(x: int, y: int, text: string, font: Font, color: Color, dx: int, w: int, dyEnd: int)
    ensures ColumnStamps(x, y, text, font, color, dx, w, dyEnd) == Stamps(Column(dx, w, dyEnd), x, y, text, font, color)
    decreases dyEnd + w
  {
    if dyEnd > -w {
      ColumnStampsAre(x, y, text, font, color, dx, w, dyEnd - 1);
      var c := Column(dx, w, dyEnd - 1);
      if InDisk(dx, dyEnd - 1, w) {
        StampsSnoc(c, (dx, dyEnd - 1), x, y, text, font, color);
      } else {
        assert c + [] == c;
        assert Stamps(c, x, y, text, font, color) + [] == Stamps(c, x, y, text, font, color);
      }
    }
  }

  /** The stamps are those of the offset list, in the same order. */
  lemma {:induction false} DiskStampsAre(x: int, y: int, text: string, font: Font, color: Color, w: int, dxEnd: int)
    ensures DiskStamps(x, y, text, font, color, w, dxEnd) == Stamps(Offsets(w, dxEnd), x, y, text, font, color)
    decreases dxEnd + w
  {
    if dxEnd > -w {
      DiskStampsAre(x, y, text, font, color, w, dxEnd - 1);
      ColumnStampsAre(x, y, text, font, color, dxEnd - 1, w, w + 1);
      StampsAppend(Offsets(w, dxEnd - 1), Column(dxEnd - 1, w, w + 1), x, y, text, font, color);
    }
  }

  method DrawTextWithStroke(draw: Canvas, x: int, y: int, text: string, font: Font, fill: Color, stroke: Color, w: int)
    modifies draw
    ensures draw.ops == old(draw.ops) + StrokeOps(x, y, text, font, fill, stroke, w)
  {
    StampDisk(draw, x, y, text, font, stroke, w);
    draw.Text(x, y, text, font, fill);
  }

  /** The two nested loops of `draw_text_with_stroke`. */
  method StampDisk(draw: Canvas, x: int, y: int, text: string, font: Font, stroke: Color, w: int)
    modifies draw
    ensures draw.ops == old(draw.ops) + DiskStamps(x, y, text, font, stroke, w, w + 1)
  {
    ghost var ops0 := draw.ops;
    var dx := -w;
    while dx < w + 1
      invariant -w <= dx && (dx <= w + 1 || dx == -w)
      invariant draw.ops == ops0 + DiskStamps(x, y, text, font, stroke, w, dx)
    {
      StampColumn(draw, x, y, text, font, stroke, w, dx);
      AppendAssoc(ops0, DiskStamps(x, y, text, font, stroke, w, dx), ColumnStamps(x, y, text, font, stroke, dx, w, w + 1));
      dx := dx + 1;
    }
    DiskStampsEnd(x, y, text, font, stroke, w, dx);
  }

  lemma DiskStampsEnd(x: int, y: int, text: string, font: Font, color: Color, w: int, dx: int)
    requires -w <= dx && (dx <= w + 1 || dx == -w) && dx >= w + 1
    ensures DiskStamps(x, y, text, font, color, w, dx) == DiskStamps(x, y, text, font, color, w, w + 1)
  {
  }

  /** The inner loop of `draw_text_with_stroke`, for one `dx`. */
  method StampColumn(draw: Canvas, x: int, y: int, text: string, font: Font, stroke: Color, w: int, dx: int)
    modifies draw
    ensures draw.ops == old(draw.ops) + ColumnStamps(x, y, text, font, stroke, dx, w, w + 1)
  {
    ghost var ops0 := draw.ops;
    var dy := -w;
    while dy < w + 1
      invariant -w <= dy && (dy <= w + 1 || dy == -w)
      invariant draw.ops == ops0 + ColumnStamps(x, y, text, font, stroke, dx, w, dy)
    {
      if dx * dx + dy * dy <= w * w {
        draw.Text(x + dx, y + dy, text, font, stroke);
        AppendAssoc(ops0, ColumnStamps(x, y, text, font, stroke, dx, w, dy), [TextCall(x + dx, y + dy, text, font, stroke)]);
      } else {
        assert ColumnStamps(x, y, text, font, stroke, dx, w, dy) + [] == ColumnStamps(x, y, text, font, stroke, dx, w, dy);
      }
      dy := dy + 1;
    }
    ColumnStampsEnd(x, y, text, font, stroke, dx, w, dy);
  }

  lemma ColumnStampsEnd(x: int, y: int, text: string, font: Font, color: Color, dx: int, w: int, dy: int)
    requires -w <= dy && (dy <= w + 1 || dy == -w) && dy >= w + 1
    ensures ColumnStamps(x, y, text, font, color, dx, w, dy) == ColumnStamps(x, y, text, font, color, dx, w, w + 1)
  {
  }

  /** Membership in a column: the disk points with that `dx` and `dy` in range. */
  lemma {:induction false} ColumnMembers(dx: int, w: int, dyEnd: int, p: (int, int))
    ensures p in Column(dx, w, dyEnd) <==> p.0 == dx && -w <= p.1 < dyEnd && InDisk(p.0, p.1, w)
    decreases dyEnd + w
  {
    if dyEnd > -w {
      ColumnMembers(dx, w, dyEnd - 1, p);
    }
  }

  lemma {:induction false} OffsetsMembers(w: int, dxEnd: int, p: (int, int))
    ensures p in Offsets(w, dxEnd) <==> -w <= p.0 < dxEnd && -w <= p.1 <= w && InDisk(p.0, p.1, w)
    decreases dxEnd + w
  {
    if dxEnd > -w {
      OffsetsMembers(w, dxEnd - 1, p);
      ColumnMembers(dxEnd - 1, w, w + 1, p);
    }
  }

  lemma SquareBound(a: int, w: int)
    requires 0 <= w && a * a <= w * w
    ensures -w <= a <= w
  {
  }

  /** The stamped offsets are exactly the integer points of the filled disk of
      radius `w` (none at all for a negative width, whose ranges are empty). */
  lemma DiskOffsetsExact(w: int, dx: int, dy: int)
    ensures w >= 0 ==> ((dx, dy) in DiskOffsets(w) <==> dx * dx + dy * dy <= w * w)
    ensures w < 0 ==> DiskOffsets(w) == []
  {
    OffsetsMembers(w, w + 1, (dx, dy));
    if w >= 0 && dx * dx + dy * dy <= w * w {
      assert dx * dx <= w * w && dy * dy <= w * w;
      SquareBound(dx, w);
      SquareBound(dy, w);
    }
  }

  /** The disk contains the centre and is symmetric in both axes. */
  lemma DiskSymmetric(w: int, dx: int, dy: int)
    requires w >= 0
    ensures (0, 0) in DiskOffsets(w)
    ensures (dx, dy) in DiskOffsets(w) ==> (-dx, dy) in DiskOffsets(w) && (dx, -dy) in DiskOffsets(w)
  {
    DiskOffsetsExact(w, 0, 0);
    DiskOffsetsExact(w, dx, dy);
    DiskOffsetsExact(w, -dx, dy);
    DiskOffsetsExact(w, dx, -dy);
  }

  /** Stamping order: `dx` first, then `dy`. */
  predicate Before(p: (int, int), q: (int, int)) {
    p.0 < q.0 || (p.0 == q.0 && p.1 < q.1)
  }

  lemma {:induction false} ColumnOrdered(dx: int, w: int, dyEnd: int)
    ensures forall i, j :: 0 <= i < j < |Column(dx, w, dyEnd)| ==> Before(Column(dx, w, dyEnd)[i], Column(dx, w, dyEnd)[j])
    decreases dyEnd + w
  {
    if dyEnd > -w {
      ColumnOrdered(dx, w, dyEnd - 1);
      var c := Column(dx, w, dyEnd - 1);
      forall i | 0 <= i < |c| ensures c[i].0 == dx && c[i].1 < dyEnd - 1 {
        ColumnMembers(dx, w, dyEnd - 1, c[i]);
      }
    }
  }

  lemma {:induction false} OffsetsOrdered(w: int, dxEnd: int)
    ensures forall i, j :: 0 <= i < j < |Offsets(w, dxEnd)| ==> Before(Offsets(w, dxEnd)[i], Offsets(w, dxEnd)[j])
    decreases dxEnd + w
  {
    if dxEnd > -w {
      OffsetsOrdered(w, dxEnd - 1);
      ColumnOrdered(dxEnd - 1, w, w + 1);
      var a, c := Offsets(w, dxEnd - 1), Column(dxEnd - 1, w, w + 1);
      forall i | 0 <= i < |a| ensures a[i].0 < dxEnd - 1 {
        OffsetsMembers(w, dxEnd - 1, a[i]);
      }
      forall j | 0 <= j < |c| ensures c[j].0 == dxEnd - 1 {
        ColumnMembers(dxEnd - 1, w, w + 1, c[j]);
      }
    }
  }

  /** The trace of one outlined text: one stroke-coloured stamp per disk offset,
      each inside the disk of radius `w`, in strictly increasing (dx, dy) order
      and so never twice at the same place, then the fill-coloured text exactly
      at (x, y) as the last call. */
  lemma StrokeTrace(x: int, y: int, text: string, font: Font, fill: Color, stroke: Color, w: int)
    ensures var ops, offs := StrokeOps(x, y, text, font, fill, stroke, w), DiskOffsets(w);
      && |ops| == |offs| + 1
      && ops[|ops| - 1] == TextCall(x, y, text, font, fill)
      && (forall k :: 0 <= k < |offs| ==>
            ops[k] == TextCall(x + offs[k].0, y + offs[k].1, text, font, stroke) && InDisk(offs[k].0, offs[k].1, w))
      && (forall i, j :: 0 <= i < j < |offs| ==> Before(offs[i], offs[j]))
  {
    var offs := DiskOffsets(w);
    DiskStampsAre(x, y, text, font, stroke, w, w + 1);
    OffsetsOrdered(w, w + 1);
    StampsAt(offs, x, y, text, font, stroke);
    forall k | 0 <= k < |offs| ensures InDisk(offs[k].0, offs[k].1, w) {
      OffsetsMembers(w, w + 1, offs[k]);
    }
  }
}
