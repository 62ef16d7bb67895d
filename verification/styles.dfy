/** The two document themes and every formatting constant the converter
    hands to the word-processor library: the paragraph-style catalog of the
    document, the paragraph layouts of each block kind, and the properties of
    each kind of text run. Lengths stay in millimetres (or inches for the
    page margin), as the source writes them, before any twip conversion. */
module Styles {
  import opened Wrappers

  /** `Theme` of `types.ts`. */
  datatype Theme = Minimal | Elegant

  /** The body font of a theme, used by every themed run. */
  function BodyFont(theme: Theme): string {
    if theme == Elegant then "Georgia" else "Calibri"
  }

  // ---------------------------------------------------------------------
  // The paragraph-style catalog

  /** The identifiers of the catalog's styles, in the catalog's order. */
  datatype StyleId = Heading1 | Heading2 | Heading3 | CodeBlock | Quote

  /** A single solid border edge. */
  datatype Border = Border(color: string, space: nat, size: nat)

  /** The run part of a paragraph style; a missing field is inherited. */
  datatype StyleRun = StyleRun(size: nat, bold: bool, italics: bool, color: string, font: Option<string>)

  /** One paragraph style: its identity, its run, its spacing before and
      after, its borders, its solid shading colour and its side indents. */
  datatype ParagraphStyle = ParagraphStyle(
    id: StyleId,
    name: string,
    quickFormat: bool,
    nextNormal: bool,
    run: StyleRun,
    beforeMm: nat,
    afterMm: nat,
    top: Option<Border>,
    bottom: Option<Border>,
    left: Option<Border>,
    right: Option<Border>,
    shading: Option<string>,
    indentLeftMm: nat,
    indentRightMm: nat)

  /** The light border shared by all four edges of a code block. */
  const CodeEdge := Border("E2E8F0", 1, 2)

  /** The style `id` takes under `theme`. */
  function Style(theme: Theme, id: StyleId): (s: ParagraphStyle)
    ensures s.id == id
  {
    var elegant := theme == Elegant;
    match id
    case Heading1 =>
      ParagraphStyle(Heading1, "Heading 1", true, true,
        StyleRun(if elegant then 32 else 28, true, false,
                 if elegant then "7C3AED" else "1E40AF", Some(BodyFont(theme))),
        12, 6, None, Some(Border(if elegant then "D8B4FE" else "93C5FD", 1, 6)), None, None,
        None, 0, 0)
    case Heading2 =>
      ParagraphStyle(Heading2, "Heading 2", true, true,
        StyleRun(if elegant then 26 else 24, true, false,
                 if elegant then "8B5CF6" else "2563EB", Some(BodyFont(theme))),
        10, 4, None, None, None, None, None, 0, 0)
    case Heading3 =>
      ParagraphStyle(Heading3, "Heading 3", true, true,
        StyleRun(if elegant then 22 else 20, true, false,
                 if elegant then "A855F7" else "3B82F6", Some(BodyFont(theme))),
        8, 3, None, None, None, None, None, 0, 0)
    case CodeBlock =>
      ParagraphStyle(CodeBlock, "Code Block", false, false,
        StyleRun(18, false, false, "2D3748", Some("Consolas")),
        4, 4, Some(CodeEdge), Some(CodeEdge), Some(CodeEdge), Some(CodeEdge),
        Some("F8FAFC"), 8, 8)
    case Quote =>
      ParagraphStyle(Quote, "Quote", false, false,
        StyleRun(22, false, true, "4A5568", None),
        6, 6, None, None, Some(Border(if elegant then "8B5CF6" else "3B82F6", 1, 12)), None,
        Some(if elegant then "FAF5FF" else "EFF6FF"), 15, 5)
  }

  /** The order in which the document declares its styles. */
  const StyleOrder: seq<StyleId> := [Heading1, Heading2, Heading3, CodeBlock, Quote]

  /** The `paragraphStyles` list of the document, in declaration order. */
  function Catalog(theme: Theme): (c: seq<ParagraphStyle>)
    ensures |c| == |StyleOrder|
    ensures forall i :: 0 <= i < |c| ==> c[i] == Style(theme, StyleOrder[i])
  {
    [Style(theme, Heading1), Style(theme, Heading2), Style(theme, Heading3),
     Style(theme, CodeBlock), Style(theme, Quote)]
  }

  /** Every style appears in the catalog exactly once. */
  lemma {:induction false} CatalogListsEachStyleOnce(theme: Theme, id: StyleId)
    ensures exists i :: 0 <= i < |Catalog(theme)| && Catalog(theme)[i].id == id
    ensures forall i, j :: 0 <= i < j < |Catalog(theme)| ==> Catalog(theme)[i].id != Catalog(theme)[j].id
  {
    CatalogHasStyle(theme, id);
    CatalogIdsDistinct(theme);
  }

  lemma {:induction false} CatalogHasStyle(theme: Theme, id: StyleId)
    ensures exists i :: 0 <= i < |Catalog(theme)| && Catalog(theme)[i].id == id
  {
    var k := match id
      case Heading1 => 0
      case Heading2 => 1
      case Heading3 => 2
      case CodeBlock => 3
      case Quote => 4;
    assert Catalog(theme)[k].id == StyleOrder[k] == id;
  }

  lemma {:induction false} CatalogIdsDistinct(theme: Theme)
    ensures forall i, j :: 0 <= i < j < |Catalog(theme)| ==> Catalog(theme)[i].id != Catalog(theme)[j].id
  {
    var c := Catalog(theme);
    forall i, j | 0 <= i < j < |c| ensures c[i].id != c[j].id {
      assert c[i].id == StyleOrder[i] && c[j].id == StyleOrder[j];
    }
  }

  /** The two themes differ only in colours, fonts and heading sizes: the
      spacing, indents, which edges carry a border and the border widths
      are the same. */
  lemma {:induction false} ThemesShareLayout(id: StyleId)
    ensures var m, e := Style(Minimal, id), Style(Elegant, id);
      && m.beforeMm == e.beforeMm && m.afterMm == e.afterMm
      && m.indentLeftMm == e.indentLeftMm && m.indentRightMm == e.indentRightMm
      && m.top.Some? == e.top.Some? && m.bottom.Some? == e.bottom.Some?
      && m.left.Some? == e.left.Some? && m.right.Some? == e.right.Some?
      && (m.bottom.Some? ==> m.bottom.value.size == e.bottom.value.size)
      && (m.left.Some? ==> m.left.value.size == e.left.value.size)
      && m.shading.Some? == e.shading.Some?
      && m.run.bold == e.run.bold && m.run.italics == e.run.italics
  {
  }

  /** The code-block style does not depend on the theme. */
  lemma {:induction false} CodeBlockIgnoresTheme()
    ensures Style(Minimal, CodeBlock) == Style(Elegant, CodeBlock)
  {
  }

  /** Under either theme each heading level is larger, and has more space
      around it, than the next; the elegant headings are the larger ones. */
  lemma {:induction false} HeadingsShrinkByLevel(theme: Theme)
    ensures Style(theme, Heading1).run.size > Style(theme, Heading2).run.size > Style(theme, Heading3).run.size
    ensures Style(theme, Heading1).beforeMm > Style(theme, Heading2).beforeMm > Style(theme, Heading3).beforeMm
    ensures Style(theme, Heading1).afterMm > Style(theme, Heading2).afterMm > Style(theme, Heading3).afterMm
    ensures forall id :: Style(Elegant, id).run.size >= Style(Minimal, id).run.size
  {
  }

  /** The headings are set in the theme's body font, and bold. */
  lemma {:induction false} HeadingsUseBodyFont(theme: Theme, id: StyleId)
    requires id == Heading1 || id == Heading2 || id == Heading3
    ensures Style(theme, id).run.font == Some(BodyFont(theme))
    ensures Style(theme, id).run.bold
  {
  }

  // ---------------------------------------------------------------------
  // Paragraph layouts of the emitted blocks

  /** How one emitted paragraph is laid out: its catalog style, its heading
      level, spacing before and after in millimetres, the `line` spacing in
      twips, a centred alignment, and a left and hanging indent. */
  datatype Layout = Layout(
    style: Option<StyleId>,
    heading: Option<nat>,
    beforeMm: Option<nat>,
    afterMm: Option<nat>,
    lineTwips: Option<nat>,
    centered: bool,
    indentLeftMm: Option<nat>,
    hangingMm: Option<nat>)

  /** The spacing before and after a heading paragraph: levels 1 and 2 have
      their own, every other level shares the third one. */
  function HeadingSpacing(level: nat): (r: (nat, nat))
    ensures level >= 3 ==> r == HeadingSpacing(3)
  {
    if level == 1 then (12, 6) else if level == 2 then (10, 4) else (8, 3)
  }

  /** The heading paragraphs are spaced exactly as the catalog's heading
      styles of the same level. */
  lemma {:induction false} HeadingSpacingMatchesCatalog(theme: Theme)
    ensures HeadingSpacing(1) == (Style(theme, Heading1).beforeMm, Style(theme, Heading1).afterMm)
    ensures HeadingSpacing(2) == (Style(theme, Heading2).beforeMm, Style(theme, Heading2).afterMm)
    ensures HeadingSpacing(3) == (Style(theme, Heading3).beforeMm, Style(theme, Heading3).afterMm)
  {
  }

  /** The page margin, in inches, on every side. */
  const PageMarginInches: nat := 1

  // ---------------------------------------------------------------------
  // Text-run properties

  /** The properties of one text run; `None` and `false` leave the value to
      the paragraph's style. */
  datatype RunProps = RunProps(
    font: Option<string>,
    size: Option<nat>,
    color: Option<string>,
    bold: bool,
    italics: bool,
    strike: bool,
    underline: bool,
    shading: Option<string>)

  /** A run that sets nothing: the run made from a paragraph's `text`. */
  const NoProps := RunProps(None, None, None, false, false, false, false, None)

  /** Body text: the theme's font at 11 pt in dark grey. */
  function BodyRun(theme: Theme): RunProps {
    RunProps(Some(BodyFont(theme)), Some(22), Some("374151"), false, false, false, false, None)
  }

  /** A list item: the theme's font at 11 pt, colour inherited. */
  function ListItemRun(theme: Theme): RunProps {
    RunProps(Some(BodyFont(theme)), Some(22), None, false, false, false, false, None)
  }

  /** One line of a code block. */
  const CodeLineRun := RunProps(Some("Consolas"), Some(20), Some("2D3748"), false, false, false, false, None)

  /** A table header cell's text. */
  function HeaderCellRun(theme: Theme): RunProps {
    RunProps(Some(BodyFont(theme)), Some(22), Some("1F2937"), true, false, false, false, None)
  }

  /** A table body cell's text. */
  function BodyCellRun(theme: Theme): RunProps {
    RunProps(Some(BodyFont(theme)), Some(20), None, false, false, false, false, None)
  }

  /** A block quote's text. */
  function QuoteRun(theme: Theme): RunProps {
    RunProps(Some(BodyFont(theme)), Some(22), Some("4A5568"), false, true, false, false, None)
  }

  /** The underscores of a horizontal rule. */
  function RuleRun(theme: Theme): RunProps {
    RunProps(None, None, Some(if theme == Elegant then "E9D5FF" else "E5E7EB"), false, false, false, false, None)
  }

  /** The solid shading behind a table header cell. */
  function HeaderCellShading(theme: Theme): string {
    if theme == Elegant then "FAF5FF" else "F8FAFC"
  }

  /** The cell margins of every table cell, in millimetres: top, bottom,
      left, right. */
  const CellMarginsMm: (nat, nat, nat, nat) := (3, 3, 4, 4)

  /** A table edge: its size and colour. */
  datatype TableEdge = TableEdge(size: nat, color: string)

  /** The table borders: outer edges, then the inside horizontal and
      vertical lines. */
  const OuterTableEdge := TableEdge(4, "E2E8F0")
  const InnerTableEdge := TableEdge(2, "F1F5F9")

  /** The five inline formats, in the order their patterns are tried. */
  datatype Format = Plain | Bold | Italic | Code | Strike | Underline

  /** The run of an inline span: body text with the format's properties
      spread over it; inline code replaces the font and colour and adds a
      light shading. */
  function InlineRun(theme: Theme, format: Format): (p: RunProps)
    ensures p.size == Some(22)
    ensures format != Code ==> p.font == Some(BodyFont(theme)) && p.color == Some("374151") && p.shading == None
    ensures format == Code ==> p.font == Some("Consolas") && p.color == Some("2D3748") && p.shading == Some("F1F5F9")
    ensures p.bold <==> format == Bold
    ensures p.italics <==> format == Italic
    ensures p.strike <==> format == Strike
    ensures p.underline <==> format == Underline
  {
    var base := BodyRun(theme);
    match format
    case Plain => base
    case Bold => base.(bold := true)
    case Italic => base.(italics := true)
    case Code => base.(font := Some("Consolas"), color := Some("2D3748"), shading := Some("F1F5F9"))
    case Strike => base.(strike := true)
    case Underline => base.(underline := true)
  }

  /** Themed runs differ between the themes in their font and colour only;
      every size, weight and decoration is the same. */
  lemma {:induction false} ThemesShareRunShape(format: Format)
    ensures InlineRun(Minimal, format).(font := None, color := None)
            == InlineRun(Elegant, format).(font := None, color := None)
    ensures ListItemRun(Minimal).size == ListItemRun(Elegant).size
    ensures HeaderCellRun(Minimal).(font := None) == HeaderCellRun(Elegant).(font := None)
    ensures BodyCellRun(Minimal).(font := None) == BodyCellRun(Elegant).(font := None)
    ensures QuoteRun(Minimal).(font := None) == QuoteRun(Elegant).(font := None)
  {
  }
}
