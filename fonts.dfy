/** `ThumbnailGenerator.get_font`: the Montserrat face for the requested
    style, else the matching Arial face, else PIL's built-in font. Whether a
    font file can be opened is a parameter (`loads`); the file-system lookup
    itself is not modelled. */
module Fonts {
  import opened Drawing

  /** The first choice: bold wins over italic. */
  function PreferredFile(bold: bool, italic: bool): string {
    if bold then "Montserrat-Bold.ttf" else if italic then "Montserrat-Italic.ttf" else "Montserrat-Regular.ttf"
  }

  /** The second choice, with the same priority of bold over italic. */
  function FallbackFile(bold: bool, italic: bool): string {
    if bold then "arialbd.ttf" else if italic then "ariali.ttf" else "arial.ttf"
  }

  /** The face returned always has the requested style, bold taking priority
      over italic, unless no file loads at all. */
  function GetFont(size: int, bold: bool, italic: bool, loads: string -> bool): (f: Font)
    ensures f.TrueType? ==> f.size == size && loads(f.file)
    ensures f.TrueType? && bold ==> f.file in {"Montserrat-Bold.ttf", "arialbd.ttf"}
    ensures f.TrueType? && !bold && italic ==> f.file in {"Montserrat-Italic.ttf", "ariali.ttf"}
    ensures f.TrueType? && !bold && !italic ==> f.file in {"Montserrat-Regular.ttf", "arial.ttf"}
    ensures f == DefaultFont <==> !loads(PreferredFile(bold, italic)) && !loads(FallbackFile(bold, italic))
  {
    var first := PreferredFile(bold, italic);
    if loads(first) then TrueType(first, size)
    else
      var second := FallbackFile(bold, italic);
      if loads(second) then TrueType(second, size) else DefaultFont
  }

  /** Reference rule: the first loadable file of a list of candidates, at the
      given size, or the built-in font when none loads. */
  function FirstLoadable(candidates: seq<string>, size: int, loads: string -> bool): (f: Font)
    ensures f.TrueType? ==> f.file in candidates && loads(f.file) && f.size == size
    ensures f.TrueType? ==> forall i :: 0 <= i < |candidates| ==>
              (loads(candidates[i]) && (forall j :: 0 <= j < i ==> !loads(candidates[j])) ==> candidates[i] == f.file)
    ensures f == DefaultFont <==> forall i :: 0 <= i < |candidates| ==> !loads(candidates[i])
  {
    if candidates == [] then DefaultFont
    else if loads(candidates[0]) then TrueType(candidates[0], size)
    else FirstLoadable(candidates[1..], size, loads)
  }

  /** `get_font` tries the Montserrat file, then the Arial file, for the style. */
  lemma GetFontOrder(size: int, bold: bool, italic: bool, loads: string -> bool)
    ensures GetFont(size, bold, italic, loads) == FirstLoadable([PreferredFile(bold, italic), FallbackFile(bold, italic)], size, loads)
  {
    var c := [PreferredFile(bold, italic), FallbackFile(bold, italic)];
    assert c[1..][1..] == [];
  }
}
