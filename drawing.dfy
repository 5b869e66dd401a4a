/** The image being composed, seen through the calls made on it: every call
    of the drawing handle (`draw.text`, `draw.rectangle`, `draw.ellipse`) and
    the logo `paste` is appended to a trace. Rasterisation is not modelled. */
module Drawing {

  datatype Color = Rgb(r: int, g: int, b: int) | Rgba(r: int, g: int, b: int, a: int)

  /** A loaded font face: a TrueType file at a size, or the built-in bitmap font. */
  datatype Font = TrueType(file: string, size: int) | DefaultFont

  /** A box `[x0, y0, x1, y1]`; also the result of `textbbox`, as
      `(left, top, right, bottom)`. */
  datatype Box = Box(x0: int, y0: int, x1: int, y1: int)

  datatype Op =
    | TextCall(x: int, y: int, text: string, font: Font, fill: Color)
    | RectangleCall(box: Box, fill: Color)
    | EllipseCall(box: Box, fill: Color)
    | PasteCall(x: int, y: int)

  /** Regrouping the parts of a trace. */
  lemma AppendAssoc<T>(a: seq<T>, b: seq<T>, c: seq<T>)
    ensures a + b + c == a + (b + c)
  {
  }

  class Canvas {
    var ops: seq<Op>

    constructor ()
      ensures ops == []
    {
      ops := [];
    }

    method Text(x: int, y: int, text: string, font: Font, fill: Color)
      modifies this
      ensures ops == old(ops) + [TextCall(x, y, text, font, fill)]
    {
      ops := ops + [TextCall(x, y, text, font, fill)];
    }

    method Rectangle(box: Box, fill: Color)
      modifies this
      ensures ops == old(ops) + [RectangleCall(box, fill)]
    {
      ops := ops + [RectangleCall(box, fill)];
    }

    method Ellipse(box: Box, fill: Color)
      modifies this
      ensures ops == old(ops) + [EllipseCall(box, fill)]
    {
      ops := ops + [EllipseCall(box, fill)];
    }

    method Paste(x: int, y: int)
      modifies this
      ensures ops == old(ops) + [PasteCall(x, y)]
    {
      ops := ops + [PasteCall(x, y)];
    }
  }
}
