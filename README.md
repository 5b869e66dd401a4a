# Thumbnail generator: a Dafny model of its layout and text core

The system renders 1920 x 1080 YouTube thumbnails. A language model writes a
heading, subheading, label and date for a video idea. The backend then draws
them over a darkened photo: a logo, the upper-cased heading and the
subheading as centred, wrapped lines with a dark outline, a red rounded
label badge at the bottom left and a dark date badge at the bottom right.
The browser page shows the result and fills in a date when none came back.

This project models that core:

- `Values` (values.dfy): `Option` and the JSON values the text record holds.
- `PyText` (pytext.dfy): Python's `str.split()`, `' '.join` and ASCII `upper()`.
- `Drawing` (drawing.dfy): the canvas as a `Canvas` class whose `ops` field
  records every `draw.text`, `draw.rectangle`, `draw.ellipse` and `paste` call in order.
- `WordWrap` (wrap.dfy): `wrap_text`.
  - The method `WrapText` keeps the source's loop.
  - The function `Wrap` specifies it.
  - The lemmas characterise it as the unique greedy grouping of the words.
- `Stroke` (stroke.dfy): `draw_text_with_stroke`. Its two nested loops are
  methods with invariants, and it is proved to stamp the text once at every
  integer offset of the disk, then once in the fill colour.
- `Shapes` (shapes.dfy): `draw_rounded_rectangle`.
- `Fonts` (fonts.dfy): the order in which `get_font` tries font files.
- `Layout` (layout.dfy): `generate_thumbnail_template`.
  - `Plan` computes the overlay as a list of items.
  - The method `GenerateThumbnailTemplate`, with its per-line loops, draws
    exactly the calls of that plan.
  - The lemmas state where each element lands.
- `Dates` (dates.dfy): decimal numerals, month names, the English ordinal
  rule and a reader that recovers `(day, month, year)` from a written date.
- `Groq` (groq.py's `GroqAPI`, groq.dfy): the backend's date string and how
  the model's reply becomes the text record. This covers the greedy JSON
  span, the forced `date`, the fallback record and the missing-key error.
- `Frontend` (frontend.dfy): the browser's ordinal suffix and date string,
  the merge that defaults the date, and the guard against an empty idea.

Measurements are parameters:
- `metrics(font, s)` plays `textbbox((0, 0), s, font)`.
- `loads(file)` says whether a font file opens.
- `logo` says whether the logo loaded.
- The model's HTTP reply is a `Reply` value.
- `json.loads` is a function that gives an object or fails.
- The current date arrives as numbers.

Quirks of the code the model keeps:
- A first word wider than the wrap width makes `wrap_text` emit an empty first
  line, and the word starts the second line (`WrapLeadingEmptyLine`).
- The label is drawn at the badge's corner plus the padding, with no
  correction for the text box's own offset. Its ink is therefore padded by
  `12 + left` and `12 + top` on the left and top, and by `12 - left` and
  `12 - top` on the right and bottom (`LabelBadgeGeometry`). The date badge
  is drawn the same way with padding 10.
- An empty heading still yields one (empty) heading line, which is stamped
  like any other (`BlockLines`, `WrapNonEmpty`).
- The subheading starts where the heading's cursor stopped: the last heading
  line's height plus the line spacing of 25 below that line, with no further
  gap.

## Model

| member | source | states |
|---|---|---|
| PyText.Split | backend/thumbnail.py:71 | `str.split()` yields only words (non-empty runs with no white space), and yields no words exactly when the text is all white space |
| PyText.Upper | backend/thumbnail.py:108 | upper-casing keeps the length, turns each lower-case ASCII letter into its capital (code point minus 32), leaves every other character alone and leaves no lower-case ASCII letter |
| PyText.SplitJoin | backend/thumbnail.py:71-74 | splitting the single-space join of a list of words gives back exactly those words |
| PyText.SplitIsSqueeze | backend/thumbnail.py:71 | the words `str.split()` finds, joined by single spaces, are exactly what a character-by-character pass produces that drops separators, copies word characters and puts one space before each later word; so the words are the text's own runs, in order |
| WordWrap.WrapText | backend/thumbnail.py:70-83 | the loop's result equals `Wrap(text)`, the left-to-right grouping of the words into lines |
| WordWrap.GroupsAreGreedy | backend/thumbnail.py:73-82 | the grouping `Wrap` is built from is greedy: each line is filled while the candidate line still measures within the width, and is closed by the first word that does not fit |
| WordWrap.GreedyIsUnique | backend/thumbnail.py:73-82 | any greedy grouping of the words is the one the loop builds, so the greedy rule determines the lines |
| WordWrap.WrapNonEmpty | backend/thumbnail.py:81-83 | the result always has at least one line; when the text has no words it is exactly `[text]` |
| WordWrap.WrapKeepsWords | backend/thumbnail.py:71-82 | the words of the lines, in order, are the words of the text: none lost, added or reordered |
| WordWrap.WrapLinesFit | backend/thumbnail.py:74-77 | every line of two or more words (and a non-empty first line) measures within the width |
| WordWrap.WrapIsGreedy | backend/thumbnail.py:76-80 | every later line is non-empty and starts with a word that would have overflowed the line before it |
| WordWrap.WrapLeadingEmptyLine | backend/thumbnail.py:78-80 | the first line is empty exactly when the first word alone is too wide; that word then starts the second line; no other line is empty |
| WordWrap.WrapIdempotent | backend/thumbnail.py:70-83 | wrapping the joined lines again gives the same lines |
| Stroke.DrawTextWithStroke | backend/thumbnail.py:85-91 | the calls made are the stroke stamps followed by the text in its fill colour (`StrokeOps`) |
| Stroke.StampDisk | backend/thumbnail.py:87-90 | the outer loop over `dx` makes the stroke stamps of every column of the disk in turn |
| Stroke.StampColumn | backend/thumbnail.py:88-90 | the inner loop over `dy` stamps exactly the points of the column that lie in the disk, in increasing `dy` |
| Stroke.StrokeTrace | backend/thumbnail.py:85-91 | one stroke-coloured stamp per disk offset, at the position shifted by that offset, in `dx`-then-`dy` order, then one fill-coloured stamp at the position itself |
| Stroke.DiskOffsetsExact | backend/thumbnail.py:87-89 | the offsets stamped are exactly the integer points with `dx*dx + dy*dy <= w*w`; none for a negative width |
| Stroke.DiskSymmetric | backend/thumbnail.py:87-89 | the centre is stamped, and the stamps are symmetric in both axes |
| Shapes.DrawRoundedRectangle | backend/thumbnail.py:93-100 | the six calls made are the two bands then the four corner ellipses (`RoundedRectangleOps`) |
| Shapes.RoundedRectangleShapes | backend/thumbnail.py:93-100 | two rectangles then four ellipses in one fill, each ellipse a 2r by 2r box at its corner; all inside the box when 2r fits both sides |
| Shapes.RoundedRectangleCovers | backend/thumbnail.py:93-100 | every point of the box lies in a band, or in a corner square inside that corner's ellipse box |
| Fonts.FirstLoadable | backend/thumbnail.py:57-68 | the face chosen is the first candidate that loads, at the requested size; the built-in font exactly when none loads |
| Fonts.GetFontOrder | backend/thumbnail.py:57-68 | `get_font` tries the Montserrat file for the style, then the Arial file |
| Fonts.GetFont | backend/thumbnail.py:57-68 | a file face is one that loads, at the requested size, with the requested style and bold winning over italic; the built-in font exactly when neither file loads |
| Layout.GenerateThumbnailTemplate | backend/thumbnail.py:102-162 | the calls made on the canvas are exactly those of `Plan`: logo, heading lines, subheading lines, label badge, date badge |
| Layout.DrawHeading | backend/thumbnail.py:128-135 | the heading step draws the upper-cased heading's lines stacked from below the logo, and returns the cursor after the last line |
| Layout.DrawSubheading | backend/thumbnail.py:137-144 | the subheading step draws nothing for an empty subheading, else its lines stacked from the heading's cursor |
| Layout.DrawLabel | backend/thumbnail.py:146-152 | the label step draws nothing for an empty label, else the rounded badge then the outlined label |
| Layout.DrawDate | backend/thumbnail.py:154-162 | the date step draws nothing for an empty date, else the rectangle then the outlined date |
| Layout.DrawLines | backend/thumbnail.py:131-135 | the per-line loop draws the stack of lines and returns the cursor after it |
| Layout.StackPlacement | backend/thumbnail.py:131-135 | line `k` is drawn centred by its own width at the cursor reached after lines `0..k-1` |
| Layout.StackSpacing | backend/thumbnail.py:130-135 | the first line is at the start cursor, each next line its predecessor's height plus 25 lower, and the cursor ends the same distance below the last |
| Layout.CentredLine | backend/thumbnail.py:133 | `(width - right) // 2` centres a line to within half a pixel and keeps a line no wider than the canvas on it |
| Layout.BlockLines | backend/thumbnail.py:128-139 | there is always at least one heading line; the subheading has lines exactly when it is non-empty |
| Layout.HeadingWithinBand | backend/thumbnail.py:129-134 | a heading line of two or more words lies between x = 144 and x = 1776 |
| Layout.BlocksShape | backend/thumbnail.py:123-144 | logo at (153, 108) if loaded; one item per heading line starting at y = 138, or 318 below the logo; subheading starting where the heading's cursor stopped |
| Layout.BlocksHeadingLine | backend/thumbnail.py:128-135 | heading line `k` is centred, outlined by 6, at the cursor after the lines before it |
| Layout.BlocksSubheadingLine | backend/thumbnail.py:137-144 | subheading line `k` is centred, outlined by 3, at the cursor after the heading and the subheading lines before it |
| Layout.LabelBadgeGeometry | backend/thumbnail.py:146-152 | badge iff non-empty label; the box rests on y = 1016 at x = 153, grown by 12 around the text box; the text sits 12 in from the box corner, with the exact ink paddings |
| Layout.DateBadgeGeometry | backend/thumbnail.py:154-162 | badge iff non-empty date; the box's right edge is at x = 1767 and its bottom at y = 1016, grown by 10 around the text box; the text sits 10 in from the box corner |
| Layout.PlanShape | backend/thumbnail.py:146-162 | the overlay is the text block followed by the label badge and then the date badge, each present exactly when its text is non-empty |
| Dates.DecimalRoundTrip | backend/groq.py:28 | the decimal numeral of a number reads back as that number |
| Dates.DateStringRoundTrip | backend/groq.py:28 | a date written as "day+suffix Month, year" reads back as its day, month and year |
| Dates.DateStringShape | backend/groq.py:28 | the written date opens with the day's numeral, without leading zeros, immediately followed by the two-letter suffix |
| Dates.DateStringInjective | backend/groq.py:28 | two dates written the same way are the same date |
| Groq.OrdinalSuffix | backend/groq.py:21-26 | a two-letter suffix, and for every non-negative number the English ordinal suffix |
| Groq.FormatDate | backend/groq.py:13-28 | the current date is written with the day's numeral, without leading zeros, followed by the day's English ordinal suffix, and the text reads back as the day, month and year it was made from |
| Groq.JsonSpanIsLeftmostLongest | backend/groq.py:84-86 | there is a span iff `\{.*\}` matches somewhere; the span is the leftmost match, extended as far as possible |
| Groq.FindJsonSpan | backend/groq.py:84-86 | the text handed to `json.loads` starts with `{` and ends with `}` |
| Groq.GenerateThumbnailText | backend/groq.py:30-110 | the `ValueError` with its message is raised exactly when the API key is unset or empty, whatever the reply; otherwise the record's `date` is the current date, never the model's, and its keys are exactly the fallback's four or the model's own plus `date` |
| Groq.ParsedFieldsKept | backend/groq.py:84-92 | when the reply holds a JSON object, its other fields are returned unchanged and only `date` is added or replaced |
| Groq.FallbackCases | backend/groq.py:93-110 | a failed request, an HTTP error, a missing content, no braces or unparsable braces all return the fixed fallback record |
| Frontend.JsRem | frontend/src/App.jsx:28 | JavaScript's `%` is the truncated remainder: it differs from the dividend by a multiple of the divisor, is smaller than the divisor in size and has the dividend's sign |
| Frontend.OrdinalSuffix | frontend/src/App.jsx:26-34 | a two-letter suffix, and for every day 1..31 the same one the backend writes |
| Frontend.DiffersFromEnglishExactly | frontend/src/App.jsx:26-34 | the browser's rule is wrong exactly for numbers of at least 100 ending in 11, 12 or 13 |
| Frontend.DiffersFromBackendExactly | frontend/src/App.jsx:26-34 | over all non-negative numbers the browser and the backend disagree exactly on those of at least 100 ending in 11, 12 or 13 |
| Frontend.DiffersFromBackendAt111 | frontend/src/App.jsx:26-34 | at 111 the browser writes 'st' where the backend writes 'th' |
| Frontend.CurrentDate | frontend/src/App.jsx:19-37 | the browser's date string reads back as its day, month and year, and for a real calendar day equals the backend's string |
| Frontend.WithDefaultDate | frontend/src/App.jsx:54-57 | the merge keeps every field, keeps a truthy server date and otherwise uses the local date |
| Frontend.WithDefaultDateIdempotent | frontend/src/App.jsx:111-114 | with a non-empty local date the merged date is truthy, and merging again changes nothing |
| Frontend.BackendDateKept | frontend/src/App.jsx:54-57 | a record from the backend always keeps the backend's date through the merge |
| Frontend.TrimEmpty | frontend/src/App.jsx:40 | an idea trims to nothing exactly when it is all JavaScript white space |
| Frontend.GenerateStart | frontend/src/App.jsx:40-43 | the error 'Please enter a video idea' is shown exactly for an all-white-space idea; any idea with a non-space character is posted, as typed |

## Left out

- Pixels. The model covers coordinates and call traces, not these:
  - glyph rasterisation;
  - the 0.3-opacity overlay and its alpha compositing;
  - LANCZOS resizing;
  - ellipse rasterisation;
  - PNG and base64 encoding.
- I/O is left out. The image download is dropped together with the
  pixels. The logo file (`load_logo`) and the font file lookup become the
  parameters `logo` and `loads`. The `metrics` function stands for
  `textbbox`.
- The HTTP request to the language model, its prompt text and request body
  are left out. `json.loads` is abstract, and the reply is a `Reply` value.
- `datetime.now()`, `new Date()` and the locale are left out. Dates arrive
  as day, month and year numbers, and English month names are assumed.
- PyText.Upper: `str.upper()` is modelled on ASCII letters only, so
  there is no Unicode case mapping.
- The source's float widths (`width * 0.85`, `width * 0.75`) and margins
  (`int(width * 0.08)` and so on) are integer constants with the same
  values. Text measurement returns integers.
- JSON numbers are integers only (`JNumber(n: int)`), so the floats
  `json.loads` can produce are not represented. The values of the model's
  record pass through `GenerateThumbnailText` and `WithDefaultDate`
  untouched, so no property depends on this.
- Layout.Field: metadata values are strings. Non-string values in the
  record are left out.
- The React page's state is left out: loading flags, thumbnails, the modal,
  downloads, the other requests and their error messages.
- The server routes, image search and any module outside the files cited
  above are left out.
- Groq.GenerateThumbnailText: the request or parse failing is one case,
  taken through the fallback. Which exception was raised is not kept, and
  the error print is left out.
