/** The text overlay of `ThumbnailGenerator.generate_thumbnail_template` on
    the fixed 1920 x 1080 canvas: the logo, the upper-cased heading and the
    subheading as centred, wrapped, outlined lines stacked downwards, the label
    in a red rounded badge at the bottom left and the date in a dark badge at
    the bottom right.

    Text measurement is a parameter `metrics`: `metrics(font, s)` is
    `textbbox((0, 0), s, font)` as `(left, top, right, bottom)`. The layout is
    first computed as a list of `Item`s (`Plan`), and `PlanOps` turns it into
    the calls made on the canvas. */
module Layout {
  import opened Drawing
  import opened PyText
  import opened WordWrap
  import opened Stroke
  import opened Shapes
  import opened Fonts

  const Width := 1920
  const Height := 1080
  /** `int(width * 0.08)`, `int(height * 0.10)` and `int(height * 0.06)`. */
  const Margin := 153
  const TopMargin := 108
  const BottomMargin := 64
  /** `width * 0.85` and `width * 0.75`. */
  const HeadingWrapWidth := 1632
  const SubheadingWrapWidth := 1440
  const LineSpacing := 25
  const LogoSize := 180
  const LogoGap := 30
  const LabelPadding := 12
  const LabelRadius := 16
  const DatePadding := 10
  const HeadingStroke := 6
  const SubheadingStroke := 3
  const BadgeStroke := 2

  const TextColor := Rgb(255, 255, 255)
  const ShadowColor := Rgb(0, 0, 0)
  const LabelBackground := Rgb(220, 38, 38)
  const DateBackground := Rgba(0, 0, 0, 180)

  type Metrics = (Font, string) -> Box

  function HeadingFont(loads: string -> bool): Font { GetFont(180, true, false, loads) }
  function SubheadingFont(loads: string -> bool): Font { GetFont(100, false, false, loads) }
  function LabelFont(loads: string -> bool): Font { GetFont(60, true, false, loads) }
  function DateFont(loads: string -> bool): Font { GetFont(60, false, true, loads) }

  /** `metadata.get(key, "")`. */
  function Field(meta: map<string, string>, key: string): string {
    if key in meta then meta[key] else ""
  }

  /** The width measure `wrap_text` uses for a font: the right edge of the box. */
  function MeasureWith(metrics: Metrics, font: Font): string -> int {
    s => metrics(font, s).x1
  }

  /** `(width - bbox[2]) // 2`. */
  function CentreX(right: int): int {
    (Width - right) / 2
  }

  /** How far the cursor moves down after a line with box `b`. */
  function Advance(b: Box): int {
    b.y1 - b.y0 + LineSpacing
  }

  /** Where the heading starts: below the logo when there is one. */
  function HeadingTop(logo: bool): int {
    TopMargin + (if logo then LogoSize else 0) + LogoGap
  }

  /** One element of the overlay. */
  datatype Item =
    | LogoItem(x: int, y: int)
    | TextItem(x: int, y: int, text: string, font: Font, strokeWidth: int)
    | RoundedItem(box: Box, radius: int, fill: Color)
    | RectItem(box: Box, fill: Color)

  /** The canvas calls that draw one item. */
  function ItemOps(item: Item): seq<Op> {
    match item
    case LogoItem(x, y) => [PasteCall(x, y)]
    case TextItem(x, y, text, font, w) => StrokeOps(x, y, text, font, TextColor, ShadowColor, w)
    case RoundedItem(box, radius, fill) => RoundedRectangleOps(box, radius, fill)
    case RectItem(box, fill) => [RectangleCall(box, fill)]
  }

  function PlanOps(items: seq<Item>): seq<Op> {
    if items == [] then [] else PlanOps(items[..|items| - 1]) + ItemOps(items[|items| - 1])
  }

  /** The cursor after stacking `lines` from `y0`. */
  function StackEnd(lines: seq<string>, metrics: Metrics, font: Font, y0: int): int {
    if lines == [] then y0
    else StackEnd(lines[..|lines| - 1], metrics, font, y0) + Advance(metrics(font, lines[|lines| - 1]))
  }

  /** The lines, each centred and placed at the cursor, the cursor moving
      down by each line's height plus the line spacing. */
  function Stack(lines: seq<string>, metrics: Metrics, font: Font, strokeWidth: int, y0: int): seq<Item> {
    if lines == [] then []
    else
      var front, last := lines[..|lines| - 1], lines[|lines| - 1];
      Stack(front, metrics, font, strokeWidth, y0)
        + [TextItem(CentreX(metrics(font, last).x1), StackEnd(front, metrics, font, y0), last, font, strokeWidth)]
  }

  function HeadingLines(meta: map<string, string>, metrics: Metrics, loads: string -> bool): seq<string> {
    Wrap(Upper(Field(meta, "heading")), MeasureWith(metrics, HeadingFont(loads)), HeadingWrapWidth)
  }

  function SubheadingLines(meta: map<string, string>, metrics: Metrics, loads: string -> bool): seq<string> {
    var subheading := Field(meta, "subheading");
    if subheading == "" then [] else Wrap(subheading, MeasureWith(metrics, SubheadingFont(loads)), SubheadingWrapWidth)
  }

  /** The label badge: a rounded rectangle padded by 12 around the label's
      box, resting on the bottom margin at the left margin, and the label. */
  function LabelBadge(labelText: string, metrics: Metrics, font: Font): seq<Item> {
    if labelText == "" then []
    else
      var b := metrics(font, labelText);
      var lw, lh := b.x1 - b.x0, b.y1 - b.y0;
      [ RoundedItem(Box(Margin, Height - lh - LabelPadding * 2 - BottomMargin, Margin + lw + LabelPadding * 2, Height - BottomMargin),
                    LabelRadius, LabelBackground),
        TextItem(Margin + LabelPadding, Height - lh - LabelPadding - BottomMargin, labelText, font, BadgeStroke) ]
  }

  /** The date badge: a rectangle padded by 10 around the date's box, resting
      on the bottom margin at the right margin, and the date. */
  function DateBadge(date: string, metrics: Metrics, font: Font): seq<Item> {
    if date == "" then []
    else
      var b := metrics(font, date);
      var dw, dh := b.x1 - b.x0, b.y1 - b.y0;
      var x := Width - dw - DatePadding * 2 - Margin;
      var yDate := Height - dh - DatePadding * 2 - BottomMargin;
      [ RectItem(Box(x, yDate, x + dw + DatePadding * 2, yDate + dh + DatePadding * 2), DateBackground),
        TextItem(x + DatePadding, yDate + DatePadding, date, font, BadgeStroke) ]
  }

  /** The whole overlay, in drawing order. `logo` says whether the logo loaded. */
  function Plan(meta: map<string, string>, logo: bool, metrics: Metrics, loads: string -> bool): seq<Item> {
    TextBlock(meta, logo, metrics, loads)
      + LabelBadge(Field(meta, "label"), metrics, LabelFont(loads))
      + DateBadge(Field(meta, "date"), metrics, DateFont(loads))
  }

  lemma {:induction false} PlanOpsAppend(a: seq<Item>, b: seq<Item>)
    ensures PlanOps(a + b) == PlanOps(a) + PlanOps(b)
    decreases |b|
  {
    if b == [] {
      assert a + b == a;
    } else {
      var front, last := b[..|b| - 1], b[|b| - 1];
      assert (a + b)[..|a + b| - 1] == a + front;
      PlanOpsAppend(a, front);
      AppendAssoc(PlanOps(a), PlanOps(front), ItemOps(last));
    }
  }

  /** Drawing `more` after `items` extends the trace by the calls of `more`. */
  lemma Extend(ops0: seq<Op>, items: seq<Item>, more: seq<Item>)
    ensures ops0 + PlanOps(items) + PlanOps(more) == ops0 + PlanOps(items + more)
  {
    PlanOpsAppend(items, more);
    AppendAssoc(ops0, PlanOps(items), PlanOps(more));
  }

  lemma PlanOpsSingle(item: Item)
    ensures PlanOps([item]) == ItemOps(item)
  {
    assert [item][..0] == [];
    assert [] + ItemOps(item) == ItemOps(item);
  }

  /** Stacking one more line adds one item at the cursor and moves the cursor. */
  lemma StackNext(lines: seq<string>, i: nat, metrics: Metrics, font: Font, strokeWidth: int, y0: int)
    requires i < |lines|
    ensures Stack(lines[..i + 1], metrics, font, strokeWidth, y0) == Stack(lines[..i], metrics, font, strokeWidth, y0)
      + [TextItem(CentreX(metrics(font, lines[i]).x1), StackEnd(lines[..i], metrics, font, y0), lines[i], font, strokeWidth)]
    ensures StackEnd(lines[..i + 1], metrics, font, y0) == StackEnd(lines[..i], metrics, font, y0) + Advance(metrics(font, lines[i]))
  {
    assert lines[..i + 1][..i] == lines[..i];
  }

  /** The per-line loops of `generate_thumbnail_template`: returns the cursor
      after the last line. */
  method DrawLines(draw: Canvas, lines: seq<string>, metrics: Metrics, font: Font, strokeWidth: int, y0: int) returns (y: int)
    modifies draw
    ensures draw.ops == old(draw.ops) + PlanOps(Stack(lines, metrics, font, strokeWidth, y0))
    ensures y == StackEnd(lines, metrics, font, y0)
  {
    ghost var ops0 := draw.ops;
    y := y0;
    for i := 0 to |lines|
      invariant draw.ops == ops0 + PlanOps(Stack(lines[..i], metrics, font, strokeWidth, y0))
      invariant y == StackEnd(lines[..i], metrics, font, y0)
    {
      y := DrawLine(draw, lines, i, metrics, font, strokeWidth, y0, y, ops0);
    }
    assert lines[..|lines|] == lines;
  }

  /** One turn of the per-line loop: draw line `i` centred at the cursor and
      move the cursor down. */
  method DrawLine(draw: Canvas, lines: seq<string>, i: nat, metrics: Metrics, font: Font, strokeWidth: int, y0: int, y: int,
                  ghost ops0: seq<Op>) returns (yNext: int)
    requires i < |lines|
    requires draw.ops == ops0 + PlanOps(Stack(lines[..i], metrics, font, strokeWidth, y0))
    requires y == StackEnd(lines[..i], metrics, font, y0)
    modifies draw
    ensures draw.ops == ops0 + PlanOps(Stack(lines[..i + 1], metrics, font, strokeWidth, y0))
    ensures yNext == StackEnd(lines[..i + 1], metrics, font, y0)
  {
    var line := lines[i];
    var bbox := metrics(font, line);
    var x := (Width - bbox.x1) / 2;
    DrawTextWithStroke(draw, x, y, line, font, TextColor, ShadowColor, strokeWidth);
    ghost var item := TextItem(x, y, line, font, strokeWidth);
    StackNext(lines, i, metrics, font, strokeWidth, y0);
    PlanOpsSingle(item);
    Extend(ops0, Stack(lines[..i], metrics, font, strokeWidth, y0), [item]);
    yNext := y + bbox.y1 - bbox.y0 + LineSpacing;
  }

  /** The heading lines stacked from below the logo. */
  function HeadingBlock(meta: map<string, string>, logo: bool, metrics: Metrics, loads: string -> bool): seq<Item> {
    Stack(HeadingLines(meta, metrics, loads), metrics, HeadingFont(loads), HeadingStroke, HeadingTop(logo))
  }

  /** The cursor after the heading. */
  function HeadingEnd(meta: map<string, string>, logo: bool, metrics: Metrics, loads: string -> bool): int {
    StackEnd(HeadingLines(meta, metrics, loads), metrics, HeadingFont(loads), HeadingTop(logo))
  }

  /** The subheading lines stacked from the cursor `y`. */
  function SubheadingBlock(meta: map<string, string>, metrics: Metrics, loads: string -> bool, y: int): seq<Item> {
    Stack(SubheadingLines(meta, metrics, loads), metrics, SubheadingFont(loads), SubheadingStroke, y)
  }

  /** The logo if it loaded, then the heading lines stacked from below it,
      then the subheading lines stacked from where the heading's cursor
      stopped. */
  function Blocks(logo: bool, heading: seq<string>, sub: seq<string>, metrics: Metrics, headingFont: Font, subheadingFont: Font): seq<Item> {
    (if logo then [LogoItem(Margin, TopMargin)] else [])
      + Stack(heading, metrics, headingFont, HeadingStroke, HeadingTop(logo))
      + Stack(sub, metrics, subheadingFont, SubheadingStroke, StackEnd(heading, metrics, headingFont, HeadingTop(logo)))
  }

  /** The logo, heading and subheading part of the overlay. */
  function TextBlock(meta: map<string, string>, logo: bool, metrics: Metrics, loads: string -> bool): seq<Item> {
    Blocks(logo, HeadingLines(meta, metrics, loads), SubheadingLines(meta, metrics, loads), metrics, HeadingFont(loads), SubheadingFont(loads))
  }

  /** `generate_thumbnail_template` from the point where the darkened
      background is ready: `logo` says whether the logo loaded, `loads`
      which font files open. */
  method GenerateThumbnailTemplate(draw: Canvas, meta: map<string, string>, logo: bool, metrics: Metrics, loads: string -> bool)
    modifies draw
    ensures draw.ops == old(draw.ops) + PlanOps(Plan(meta, logo, metrics, loads))
  {
    ghost var ops0 := draw.ops;
    var labelFont := GetFont(60, true, false, loads);
    var dateFont := GetFont(60, false, true, loads);
    DrawTextBlock(draw, meta, logo, metrics, loads);
    ghost var items := TextBlock(meta, logo, metrics, loads);
    ghost var more := LabelBadge(Field(meta, "label"), metrics, labelFont);
    DrawLabel(draw, Field(meta, "label"), labelFont, metrics);
    Extend(ops0, items, more);
    items := items + more;
    more := DateBadge(Field(meta, "date"), metrics, dateFont);
    DrawDate(draw, Field(meta, "date"), dateFont, metrics);
    Extend(ops0, items, more);
    items := items + more;
  }

  method DrawTextBlock(draw: Canvas, meta: map<string, string>, logo: bool, metrics: Metrics, loads: string -> bool)
    modifies draw
    ensures draw.ops == old(draw.ops) + PlanOps(TextBlock(meta, logo, metrics, loads))
  {
    ghost var ops0 := draw.ops;
    ghost var items: seq<Item> := [];
    if logo {
      draw.Paste(Margin, TopMargin);
      PlanOpsSingle(LogoItem(Margin, TopMargin));
      items := [LogoItem(Margin, TopMargin)];
    }
    assert draw.ops == ops0 + PlanOps(items);
    var y := DrawHeading(draw, meta, logo, metrics, loads);
    Extend(ops0, items, HeadingBlock(meta, logo, metrics, loads));
    items := items + HeadingBlock(meta, logo, metrics, loads);
    DrawSubheading(draw, meta, metrics, loads, y);
    Extend(ops0, items, SubheadingBlock(meta, metrics, loads, y));
  }

  /** The heading step: upper-case, wrap to 85% of the width, stack from
      below the logo; returns the cursor. */
  method DrawHeading(draw: Canvas, meta: map<string, string>, logo: bool, metrics: Metrics, loads: string -> bool) returns (y: int)
    modifies draw
    ensures draw.ops == old(draw.ops) + PlanOps(HeadingBlock(meta, logo, metrics, loads))
    ensures y == HeadingEnd(meta, logo, metrics, loads)
  {
    var heading := Upper(Field(meta, "heading"));
    var headingFont := GetFont(180, true, false, loads);
    var headingLines := WrapText(heading, MeasureWith(metrics, headingFont), HeadingWrapWidth);
    y := TopMargin + (if logo then LogoSize else 0) + LogoGap;
    y := DrawLines(draw, headingLines, metrics, headingFont, HeadingStroke, y);
  }

  /** The subheading step: nothing for an empty subheading, otherwise wrap to
      75% of the width and stack from the cursor `y`. */
  method DrawSubheading(draw: Canvas, meta: map<string, string>, metrics: Metrics, loads: string -> bool, y: int)
    modifies draw
    ensures draw.ops == old(draw.ops) + PlanOps(SubheadingBlock(meta, metrics, loads, y))
  {
    var subheading := Field(meta, "subheading");
    if subheading != "" {
      var subheadingFont := GetFont(100, false, false, loads);
      var subheadingLines := WrapText(subheading, MeasureWith(metrics, subheadingFont), SubheadingWrapWidth);
      assert subheadingLines == SubheadingLines(meta, metrics, loads);
      var yEnd := DrawLines(draw, subheadingLines, metrics, subheadingFont, SubheadingStroke, y);
    } else {
      assert SubheadingLines(meta, metrics, loads) == [];
      assert PlanOps(SubheadingBlock(meta, metrics, loads, y)) == [];
      assert draw.ops + [] == draw.ops;
    }
  }

  /** The label step: nothing for an empty label. */
  method DrawLabel(draw: Canvas, labelText: string, labelFont: Font, metrics: Metrics)
    modifies draw
    ensures draw.ops == old(draw.ops) + PlanOps(LabelBadge(labelText, metrics, labelFont))
  {
    if labelText != "" {
      ghost var ops0 := draw.ops;
      var bbox := metrics(labelFont, labelText);
      var lw, lh := bbox.x1 - bbox.x0, bbox.y1 - bbox.y0;
      var padding := LabelPadding;
      ghost var badge := LabelBadge(labelText, metrics, labelFont);
      assert badge[0] == RoundedItem(Box(Margin, Height - lh - padding * 2 - BottomMargin, Margin + lw + padding * 2, Height - BottomMargin),
                                     LabelRadius, LabelBackground);
      assert badge[1] == TextItem(Margin + padding, Height - lh - padding - BottomMargin, labelText, labelFont, BadgeStroke);
      DrawRoundedRectangle(draw, Box(Margin, Height - lh - padding * 2 - BottomMargin, Margin + lw + padding * 2, Height - BottomMargin),
                           LabelRadius, LabelBackground);
      ghost var ops1 := draw.ops;
      assert ops1 == ops0 + ItemOps(badge[0]);
      DrawTextWithStroke(draw, Margin + padding, Height - lh - padding - BottomMargin, labelText, labelFont, TextColor, ShadowColor, BadgeStroke);
      assert draw.ops == ops1 + ItemOps(badge[1]);
      PlanOpsPair(badge);
      AppendAssoc(ops0, ItemOps(badge[0]), ItemOps(badge[1]));
    }
  }

  /** The date step: nothing for an empty date. */
  method DrawDate(draw: Canvas, date: string, dateFont: Font, metrics: Metrics)
    modifies draw
    ensures draw.ops == old(draw.ops) + PlanOps(DateBadge(date, metrics, dateFont))
  {
    if date != "" {
      ghost var ops0 := draw.ops;
      var bbox := metrics(dateFont, date);
      var dw, dh := bbox.x1 - bbox.x0, bbox.y1 - bbox.y0;
      var padding := DatePadding;
      var x := Width - dw - padding * 2 - Margin;
      var yDate := Height - dh - padding * 2 - BottomMargin;
      ghost var badge := DateBadge(date, metrics, dateFont);
      assert badge[0] == RectItem(Box(x, yDate, x + dw + padding * 2, yDate + dh + padding * 2), DateBackground);
      assert badge[1] == TextItem(x + padding, yDate + padding, date, dateFont, BadgeStroke);
      draw.Rectangle(Box(x, yDate, x + dw + padding * 2, yDate + dh + padding * 2), DateBackground);
      ghost var ops1 := draw.ops;
      assert ops1 == ops0 + ItemOps(badge[0]);
      DrawTextWithStroke(draw, x + padding, yDate + padding, date, dateFont, TextColor, ShadowColor, BadgeStroke);
      assert draw.ops == ops1 + ItemOps(badge[1]);
      PlanOpsPair(badge);
      AppendAssoc(ops0, ItemOps(badge[0]), ItemOps(badge[1]));
    }
  }

  lemma PlanOpsPair(badge: seq<Item>)
    requires |badge| == 2
    ensures PlanOps(badge) == ItemOps(badge[0]) + ItemOps(badge[1])
  {
    assert badge[..1] == [badge[0]];
    PlanOpsSingle(badge[0]);
  }

  /** `(width - bbox[2]) // 2` centres the line to within half a pixel, and
      a line no wider than the canvas stays on it. */
  lemma CentredLine(right: int)
    ensures Width - 1 <= 2 * CentreX(right) + right <= Width
    ensures 0 <= right <= Width ==> 0 <= CentreX(right) && CentreX(right) + right <= Width
  {
  }

  /** Item `k` of a stack is line `k`, centred by its own width, at the
      cursor reached after the lines before it. */
  lemma {:induction false} StackPlacement(lines: seq<string>, metrics: Metrics, font: Font, strokeWidth: int, y0: int)
    ensures var items := Stack(lines, metrics, font, strokeWidth, y0);
      && |items| == |lines|
      && forall k :: 0 <= k < |lines| ==>
           items[k] == TextItem(CentreX(metrics(font, lines[k]).x1), StackEnd(lines[..k], metrics, font, y0), lines[k], font, strokeWidth)
  {
    if lines != [] {
      var front := lines[..|lines| - 1];
      StackPlacement(front, metrics, font, strokeWidth, y0);
      forall k | 0 <= k < |front| ensures front[..k] == lines[..k] && front[k] == lines[k] { }
    }
  }

  /** Each line starts exactly its own height plus the line spacing below
      the one before, the first at `y0`; the cursor ends the same distance
      below the last line. */
  lemma StackSpacing(lines: seq<string>, metrics: Metrics, font: Font, strokeWidth: int, y0: int)
    requires lines != []
    ensures var items := Stack(lines, metrics, font, strokeWidth, y0);
      && |items| == |lines|
      && items[0].TextItem? && items[0].y == y0
      && (forall k :: 0 <= k < |lines| ==> items[k].TextItem?)
      && (forall k :: 0 <= k < |lines| - 1 ==> items[k + 1].y == items[k].y + Advance(metrics(font, lines[k])))
      && StackEnd(lines, metrics, font, y0) == items[|lines| - 1].y + Advance(metrics(font, lines[|lines| - 1]))
  {
    StackPlacement(lines, metrics, font, strokeWidth, y0);
    assert lines[..0] == [];
    forall k | 0 <= k < |lines| - 1
      ensures StackEnd(lines[..k + 1], metrics, font, y0) == StackEnd(lines[..k], metrics, font, y0) + Advance(metrics(font, lines[k]))
    {
      StackNext(lines, k, metrics, font, strokeWidth, y0);
    }
    StackNext(lines, |lines| - 1, metrics, font, strokeWidth, y0);
    assert lines[..|lines|] == lines;
  }

  /** There is always at least one heading line; the subheading is skipped
      exactly when it is empty. */
  lemma BlockLines(meta: map<string, string>, metrics: Metrics, loads: string -> bool)
    ensures |HeadingLines(meta, metrics, loads)| >= 1
    ensures SubheadingLines(meta, metrics, loads) == [] <==> Field(meta, "subheading") == ""
  {
    WrapNonEmpty(Upper(Field(meta, "heading")), MeasureWith(metrics, HeadingFont(loads)), HeadingWrapWidth);
    var subheading := Field(meta, "subheading");
    if subheading != "" {
      WrapNonEmpty(subheading, MeasureWith(metrics, SubheadingFont(loads)), SubheadingWrapWidth);
    }
  }

  /** A heading line of two or more words (or a first line with a word) is
      no wider than 85% of the canvas, so it lies within the central band
      from x = 144 to x = 1776. */
  lemma HeadingWithinBand(meta: map<string, string>, logo: bool, metrics: Metrics, loads: string -> bool, k: int)
    requires 0 <= k < |HeadingLines(meta, metrics, loads)|
    requires var line := HeadingLines(meta, metrics, loads)[k];
      |Split(line)| >= 2 || (k == 0 && Split(line) != [])
    ensures var block := HeadingBlock(meta, logo, metrics, loads);
      var right := metrics(HeadingFont(loads), HeadingLines(meta, metrics, loads)[k]).x1;
      && |block| == |HeadingLines(meta, metrics, loads)|
      && block[k].TextItem?
      && (Width - HeadingWrapWidth) / 2 <= block[k].x
      && block[k].x + right <= Width - (Width - HeadingWrapWidth) / 2
  {
    var lines := HeadingLines(meta, metrics, loads);
    WrapLinesFit(Upper(Field(meta, "heading")), MeasureWith(metrics, HeadingFont(loads)), HeadingWrapWidth);
    assert MeasureWith(metrics, HeadingFont(loads))(lines[k]) <= HeadingWrapWidth;
    StackPlacement(lines, metrics, HeadingFont(loads), HeadingStroke, HeadingTop(logo));
  }

  /** The label badge exists exactly when the label is non-empty. Its box
      sits on the bottom margin (y = 1016) at the left margin (x = 153) and is
      the label's box grown by 12 on each side; the label is drawn 12 in from
      the box's corner, so its ink is padded by `12 + left` and `12 + top` on
      the left and top, `12 - left` and `12 - top` on the right and bottom. */
  lemma LabelBadgeGeometry(labelText: string, metrics: Metrics, font: Font)
    ensures LabelBadge(labelText, metrics, font) == [] <==> labelText == ""
    ensures labelText != "" ==>
      var items := LabelBadge(labelText, metrics, font);
      var b := metrics(font, labelText);
      && |items| == 2 && items[0].RoundedItem? && items[1].TextItem?
      && items[0].radius == LabelRadius && items[0].fill == LabelBackground
      && items[1].text == labelText && items[1].font == font && items[1].strokeWidth == BadgeStroke
      && items[0].box.x0 == Margin && items[0].box.y1 == Height - BottomMargin
      && items[0].box.x1 - items[0].box.x0 == b.x1 - b.x0 + 2 * LabelPadding
      && items[0].box.y1 - items[0].box.y0 == b.y1 - b.y0 + 2 * LabelPadding
      && items[1].x + b.x0 - items[0].box.x0 == LabelPadding + b.x0
      && items[0].box.x1 - (items[1].x + b.x1) == LabelPadding - b.x0
      && items[1].y + b.y0 - items[0].box.y0 == LabelPadding + b.y0
      && items[0].box.y1 - (items[1].y + b.y1) == LabelPadding - b.y0
  {
  }

  /** The date badge exists exactly when the date is non-empty. Its box sits
      on the bottom margin (y = 1016) with its right edge at the right margin
      (x = 1767) and is the date's box grown by 10 on each side; the date is
      drawn 10 in from the box's corner. */
  lemma DateBadgeGeometry(date: string, metrics: Metrics, font: Font)
    ensures DateBadge(date, metrics, font) == [] <==> date == ""
    ensures date != "" ==>
      var items := DateBadge(date, metrics, font);
      var b := metrics(font, date);
      && |items| == 2 && items[0].RectItem? && items[1].TextItem?
      && items[0].fill == DateBackground
      && items[1].text == date && items[1].font == font && items[1].strokeWidth == BadgeStroke
      && items[0].box.x1 == Width - Margin && items[0].box.y1 == Height - BottomMargin
      && items[0].box.x1 - items[0].box.x0 == b.x1 - b.x0 + 2 * DatePadding
      && items[0].box.y1 - items[0].box.y0 == b.y1 - b.y0 + 2 * DatePadding
      && items[1].x + b.x0 - items[0].box.x0 == DatePadding + b.x0
      && items[0].box.x1 - (items[1].x + b.x1) == DatePadding - b.x0
      && items[1].y + b.y0 - items[0].box.y0 == DatePadding + b.y0
      && items[0].box.y1 - (items[1].y + b.y1) == DatePadding - b.y0
  {
  }

  /** The logo, heading and subheading part, for any heading and subheading
      lines: the logo at the top-left margin if it loaded, then one item per
      heading line, the first at 138, or at 318 below the logo, then one item
      per subheading line, the first where the heading's cursor stopped. */
  lemma BlocksShape(logo: bool, heading: seq<string>, sub: seq<string>, metrics: Metrics, headingFont: Font, subheadingFont: Font)
    ensures var t := Blocks(logo, heading, sub, metrics, headingFont, subheadingFont);
      var o := if logo then 1 else 0;
      && |t| == o + |heading| + |sub|
      && (logo ==> t[0] == LogoItem(Margin, TopMargin))
      && (heading != [] ==> t[o].TextItem? && t[o].y == (if logo then 318 else 138))
      && (sub != [] ==>
            t[o + |heading|].TextItem? && t[o + |heading|].y == StackEnd(heading, metrics, headingFont, HeadingTop(logo)))
  {
    var t := Blocks(logo, heading, sub, metrics, headingFont, subheadingFont);
    var lp: seq<Item> := if logo then [LogoItem(Margin, TopMargin)] else [];
    var hb := Stack(heading, metrics, headingFont, HeadingStroke, HeadingTop(logo));
    var y1 := StackEnd(heading, metrics, headingFont, HeadingTop(logo));
    var sb := Stack(sub, metrics, subheadingFont, SubheadingStroke, y1);
    StackLines(heading, metrics, headingFont, HeadingStroke, HeadingTop(logo));
    StackLines(sub, metrics, subheadingFont, SubheadingStroke, y1);
    assert t == lp + hb + sb;
    assert heading != [] ==> t[|lp|] == hb[0];
    assert sub != [] ==> t[|lp| + |hb|] == sb[0];
  }

  /** Heading line `k` is item `k` after the logo: centred by its own width,
      outlined by 6 pixels, at the cursor reached after the lines before it. */
  lemma BlocksHeadingLine(logo: bool, heading: seq<string>, sub: seq<string>, metrics: Metrics, headingFont: Font, subheadingFont: Font, k: int)
    requires 0 <= k < |heading|
    ensures var t := Blocks(logo, heading, sub, metrics, headingFont, subheadingFont);
      var o := if logo then 1 else 0;
      && o + k < |t|
      && t[o + k] == TextItem(CentreX(metrics(headingFont, heading[k]).x1),
                              StackEnd(heading[..k], metrics, headingFont, HeadingTop(logo)),
                              heading[k], headingFont, HeadingStroke)
  {
    var lp: seq<Item> := if logo then [LogoItem(Margin, TopMargin)] else [];
    var hb := Stack(heading, metrics, headingFont, HeadingStroke, HeadingTop(logo));
    var sb := Stack(sub, metrics, subheadingFont, SubheadingStroke, StackEnd(heading, metrics, headingFont, HeadingTop(logo)));
    StackPlacement(heading, metrics, headingFont, HeadingStroke, HeadingTop(logo));
    assert (lp + hb + sb)[|lp| + k] == hb[k];
  }

  /** Subheading line `k` comes after the heading lines: centred, outlined by
      3 pixels, at the cursor reached after the heading and the subheading
      lines before it. */
  lemma BlocksSubheadingLine(logo: bool, heading: seq<string>, sub: seq<string>, metrics: Metrics, headingFont: Font, subheadingFont: Font, k: int)
    requires 0 <= k < |sub|
    ensures var t := Blocks(logo, heading, sub, metrics, headingFont, subheadingFont);
      var o := if logo then 1 else 0;
      var y1 := StackEnd(heading, metrics, headingFont, HeadingTop(logo));
      && o + |heading| + k < |t|
      && t[o + |heading| + k] == TextItem(CentreX(metrics(subheadingFont, sub[k]).x1),
                                          StackEnd(sub[..k], metrics, subheadingFont, y1),
                                          sub[k], subheadingFont, SubheadingStroke)
  {
    var lp: seq<Item> := if logo then [LogoItem(Margin, TopMargin)] else [];
    var y1 := StackEnd(heading, metrics, headingFont, HeadingTop(logo));
    var hb := Stack(heading, metrics, headingFont, HeadingStroke, HeadingTop(logo));
    var sb := Stack(sub, metrics, subheadingFont, SubheadingStroke, y1);
    StackLines(heading, metrics, headingFont, HeadingStroke, HeadingTop(logo));
    StackPlacement(sub, metrics, subheadingFont, SubheadingStroke, y1);
    assert (lp + hb + sb)[|lp| + |hb| + k] == sb[k];
  }

  /** The items of a stack are its lines, in order, all in the one font and
      outline, the first at the starting cursor. */
  lemma StackLines(lines: seq<string>, metrics: Metrics, font: Font, strokeWidth: int, y0: int)
    ensures var items := Stack(lines, metrics, font, strokeWidth, y0);
      && |items| == |lines|
      && (forall k :: 0 <= k < |lines| ==>
            items[k].TextItem? && items[k].text == lines[k] && items[k].font == font && items[k].strokeWidth == strokeWidth)
      && (lines != [] ==> items[0].TextItem? && items[0].y == y0)
  {
    StackPlacement(lines, metrics, font, strokeWidth, y0);
    assert lines[..0] == [];
  }

  /** The whole overlay: the text block, then the label badge and the date
      badge, each present exactly when its text is non-empty. */
  lemma PlanShape(meta: map<string, string>, logo: bool, metrics: Metrics, loads: string -> bool)
    ensures var p := Plan(meta, logo, metrics, loads);
      var t := TextBlock(meta, logo, metrics, loads);
      var badges := (if Field(meta, "label") == "" then 0 else 2) + (if Field(meta, "date") == "" then 0 else 2);
      && |p| == |t| + badges
      && p[..|t|] == t
      && (Field(meta, "label") != "" ==>
            p[|t|] == LabelBadge(Field(meta, "label"), metrics, LabelFont(loads))[0] && p[|t|].RoundedItem?
            && p[|t| + 1].TextItem? && p[|t| + 1].text == Field(meta, "label"))
      && (Field(meta, "date") != "" ==>
            p[|p| - 2].RectItem? && p[|p| - 1].TextItem? && p[|p| - 1].text == Field(meta, "date"))
  {
    var t := TextBlock(meta, logo, metrics, loads);
    var lb := LabelBadge(Field(meta, "label"), metrics, LabelFont(loads));
    var db := DateBadge(Field(meta, "date"), metrics, DateFont(loads));
    LabelBadgeGeometry(Field(meta, "label"), metrics, LabelFont(loads));
    DateBadgeGeometry(Field(meta, "date"), metrics, DateFont(loads));
    var p := Plan(meta, logo, metrics, loads);
    assert p == t + lb + db;
    assert p[..|t|] == t;
  }
}
