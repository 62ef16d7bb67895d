/** `convertElementsToDocx`: every parsed element becomes a run of document
    blocks (paragraphs and tables), themed by the styles catalog, in the
    order of the elements. A code block whose structured re-indentation
    fails makes the whole conversion fail. */
module Assembler {
  import opened Wrappers
  import opened Strings
  import opened Styles
  import EP = ElementParser
  import IF = InlineFormatter
  import CN = CodeNormalizer

  /** One text run: its text and its properties. */
  datatype Run = Run(text: string, props: RunProps)

  /** One table cell: a single paragraph holding one run, which may be
      centred, and the cell's solid shading. Every cell has the margins
      `CellMarginsMm`. */
  datatype Cell = Cell(run: Run, centered: bool, shading: Option<string>)

  /** An emitted block: a paragraph of runs with its layout, or a table of
      rows of cells with its width in percent and its edges. */
  datatype Block =
    | Para(runs: seq<Run>, layout: Layout)
    | Grid(rows: seq<seq<Cell>>, widthPercent: nat, outer: TableEdge, inner: TableEdge)

  /** A layout that sets nothing. */
  const Unstyled: Layout := Layout(None, None, None, None, None, false, None, None)

  /** The empty paragraph emitted after a list, a code block or a table. */
  function Spacer(afterMm: nat): Block {
    Para([Run("", NoProps)], Unstyled.(afterMm := Some(afterMm)))
  }

  /** The docx heading level of a parsed level: a level of 0 counts as 1, and
      a level past 6 has none. */
  function HeadingLevel(level: nat): (r: Option<nat>)
    ensures 1 <= level <= 6 ==> r == Some(level)
    ensures r.Some? ==> 1 <= r.value <= 6
  {
    if level == 0 then Some(1) else if level <= 6 then Some(level) else None
  }

  function HeadingBlock(level: nat, content: string): Block {
    var spacing := HeadingSpacing(level);
    Para([Run(content, NoProps)],
         Unstyled.(heading := HeadingLevel(level), beforeMm := Some(spacing.0), afterMm := Some(spacing.1)))
  }

  /** The runs of a paragraph: one per inline span, with the span's format. */
  function InlineRuns(text: string, theme: Theme): (r: seq<Run>)
    ensures |r| == |IF.ParseInline(text)|
    ensures forall i :: 0 <= i < |r| ==>
              r[i] == Run(IF.ParseInline(text)[i].text, InlineRun(theme, IF.ParseInline(text)[i].format))
  {
    var spans := IF.ParseInline(text);
    seq(|spans|, i requires 0 <= i < |spans| => Run(spans[i].text, InlineRun(theme, spans[i].format)))
  }

  const ParagraphLayout: Layout := Unstyled.(beforeMm := Some(3), afterMm := Some(6))

  /** The number in front of an ordered item, or the bullet. */
  function ListMarker(ordered: bool, i: nat): string {
    if ordered then NatToString(i + 1) + "." else "•"
  }

  const ListItemLayout: Layout := Unstyled.(beforeMm := Some(1), afterMm := Some(1), indentLeftMm := Some(12), hangingMm := Some(6))

  function ListBlocks(ordered: bool, items: seq<string>, theme: Theme): seq<Block> {
    seq(|items|, i requires 0 <= i < |items| =>
          Para([Run(ListMarker(ordered, i) + " " + items[i], ListItemRun(theme))], ListItemLayout))
    + [Spacer(6)]
  }

  const CodeLineLayout: Layout := Unstyled.(style := Some(CodeBlock), beforeMm := Some(0), afterMm := Some(0), lineTwips := Some(240))

  /** An empty code line is shown as one space so the paragraph keeps its
      height. */
  function CodeLineText(line: string): string {
    if line == "" then " " else line
  }

  function CodeLineBlocks(lines: seq<string>): (r: seq<Block>)
    ensures |r| == |lines|
    ensures forall i :: 0 <= i < |lines| ==> r[i] == Para([Run(CodeLineText(lines[i]), CodeLineRun)], CodeLineLayout)
  {
    seq(|lines|, i requires 0 <= i < |lines| => Para([Run(CodeLineText(lines[i]), CodeLineRun)], CodeLineLayout))
  }

  /** The lines of a code block, normalised. */
  function CodeLines(content: string, language: string): Result<seq<string>, CN.CodeError> {
    CN.NormalizeCodeSpacing(Split(content, '\n'), language)
  }

  function CodeBlocks(content: string, language: string): Result<seq<Block>, CN.CodeError> {
    match CodeLines(content, language)
    case Failure(e) => Failure(e)
    case Success(lines) => Success(CodeLineBlocks(lines) + [Spacer(6)])
  }

  function HeaderRow(headers: seq<string>, theme: Theme): (r: seq<Cell>)
    ensures |r| == |headers|
    ensures forall j :: 0 <= j < |headers| ==>
              r[j] == Cell(Run(headers[j], HeaderCellRun(theme)), true, Some(HeaderCellShading(theme)))
  {
    seq(|headers|, j requires 0 <= j < |headers| =>
          Cell(Run(headers[j], HeaderCellRun(theme)), true, Some(HeaderCellShading(theme))))
  }

  function BodyRow(cells: seq<string>, theme: Theme): (r: seq<Cell>)
    ensures |r| == |cells|
    ensures forall j :: 0 <= j < |cells| ==> r[j] == Cell(Run(cells[j], BodyCellRun(theme)), false, None)
  {
    seq(|cells|, j requires 0 <= j < |cells| => Cell(Run(cells[j], BodyCellRun(theme)), false, None))
  }

  /** The header row, when there are headers, then one row per body row. */
  function TableRows(headers: seq<string>, rows: seq<seq<string>>, theme: Theme): seq<seq<Cell>> {
    (if |headers| > 0 then [HeaderRow(headers, theme)] else [])
    + seq(|rows|, i requires 0 <= i < |rows| => BodyRow(rows[i], theme))
  }

  function TableBlocks(headers: seq<string>, rows: seq<seq<string>>, theme: Theme): seq<Block> {
    [Grid(TableRows(headers, rows, theme), 100, OuterTableEdge, InnerTableEdge), Spacer(8)]
  }

  /** The underscores of a horizontal rule. */
  const RuleText: string := "_______________________________________________"

  const RuleLayout: Layout := Unstyled.(beforeMm := Some(8), afterMm := Some(8), centered := true)

  /** The blocks of one parsed element. */
  function Convert(e: EP.ParsedElement, theme: Theme): (r: Result<seq<Block>, CN.CodeError>)
    ensures r.Failure? <==> e.Code? && CodeLines(e.content, e.language).Failure?
    ensures r.Failure? ==> r.error == CodeLines(e.content, e.language).error
  {
    match e
    case Heading(level, content) => Success([HeadingBlock(level, content)])
    case Paragraph(content) =>
      if IsBlank(content) then Success([]) else Success([Para(InlineRuns(content, theme), ParagraphLayout)])
    case List(ordered, items) => Success(ListBlocks(ordered, items, theme))
    case Code(content, language) => CodeBlocks(content, language)
    case Table(headers, rows) => Success(TableBlocks(headers, rows, theme))
    case Blockquote(content) => Success([Para([Run(content, QuoteRun(theme))], Unstyled.(style := Some(Quote)))])
    case Rule => Success([Para([Run(RuleText, RuleRun(theme))], RuleLayout)])
  }

  /** `convertElementsToDocx`: the blocks of every element, in order; the
      first failing code block's error otherwise. */
  function Assemble(es: seq<EP.ParsedElement>, theme: Theme): Result<seq<Block>, CN.CodeError>
    decreases |es|
  {
    if |es| == 0 then Success([])
    else
      match Convert(es[0], theme)
      case Failure(e) => Failure(e)
      case Success(head) =>
        match Assemble(es[1..], theme)
        case Failure(e) => Failure(e)
        case Success(tail) => Success(head + tail)
  }

  // ---------------------------------------------------------------------
  // Properties of the assembly

  /** A code element whose lines the normaliser rejects. */
  predicate Fails(e: EP.ParsedElement) {
    e.Code? && CodeLines(e.content, e.language).Failure?
  }

  /** The conversion fails exactly when some element is a code block whose
      lines the normaliser rejects, and then with the error of the first
      such element. */
  lemma {:induction false} AssembleFailsAtFirstCode(es: seq<EP.ParsedElement>, theme: Theme)
    ensures Assemble(es, theme).Failure? <==> exists i :: 0 <= i < |es| && Fails(es[i])
    ensures Assemble(es, theme).Failure? ==>
              exists i :: 0 <= i < |es| && Fails(es[i])
                && (forall j :: 0 <= j < i ==> !Fails(es[j]))
                && Assemble(es, theme).error == CodeLines(es[i].content, es[i].language).error
  {
    var rs := Converted(es, theme);
    AssembleIsJoined(es, theme);
    JoinedFailsAtFirst(rs);
    if exists i :: 0 <= i < |es| && Fails(es[i]) {
      var i :| 0 <= i < |es| && Fails(es[i]);
      assert rs[i].Failure?;
    }
    if Assemble(es, theme).Failure? {
      var i :| 0 <= i < |rs| && rs[i].Failure?
               && (forall j :: 0 <= j < i ==> rs[j].Success?)
               && Joined(rs).error == rs[i].error;
      forall j | 0 <= j < i ensures !Fails(es[j]) {
        assert rs[j].Success?;
      }
      assert Fails(es[i]);
    }
  }

  /** The result of every element, in order. */
  function Converted(es: seq<EP.ParsedElement>, theme: Theme): (rs: seq<Result<seq<Block>, CN.CodeError>>)
    ensures |rs| == |es| && forall i :: 0 <= i < |es| ==> rs[i] == Convert(es[i], theme)
  {
    seq(|es|, i requires 0 <= i < |es| => Convert(es[i], theme))
  }

  /** The blocks of a sequence of results, or the first failure. */
  function Joined(rs: seq<Result<seq<Block>, CN.CodeError>>): Result<seq<Block>, CN.CodeError>
  {
    if |rs| == 0 then Success([])
    else
      match rs[0]
      case Failure(e) => Failure(e)
      case Success(head) =>
        match Joined(rs[1..])
        case Failure(e) => Failure(e)
        case Success(tail) => Success(head + tail)
  }

  /** Assembling is joining the results of the elements. */
  lemma {:induction false} AssembleIsJoined(es: seq<EP.ParsedElement>, theme: Theme)
    decreases |es|
    ensures Assemble(es, theme) == Joined(Converted(es, theme))
  {
    if |es| > 0 {
      AssembleIsJoined(es[1..], theme);
      var rs := Converted(es, theme);
      assert rs[0] == Convert(es[0], theme);
      assert rs[1..] == Converted(es[1..], theme);
    }
  }

  /** A join fails exactly when some result is a failure, and then with the
      first failure's error. */
  lemma {:induction false} JoinedFailsAtFirst(rs: seq<Result<seq<Block>, CN.CodeError>>)
    ensures Joined(rs).Failure? <==> exists i :: 0 <= i < |rs| && rs[i].Failure?
    ensures Joined(rs).Failure? ==>
              exists i :: 0 <= i < |rs| && rs[i].Failure?
                && (forall j :: 0 <= j < i ==> rs[j].Success?)
                && Joined(rs).error == rs[i].error
  {
    if |rs| > 0 {
      JoinedFailsAtFirst(rs[1..]);
      if rs[0].Success? {
        if Joined(rs[1..]).Failure? {
          var k :| 0 <= k < |rs[1..]| && rs[1..][k].Failure?
                   && (forall j :: 0 <= j < k ==> rs[1..][j].Success?)
                   && Joined(rs[1..]).error == rs[1..][k].error;
          assert rs[k + 1] == rs[1..][k];
          forall j | 0 <= j < k + 1 ensures rs[j].Success? {
            if j > 0 {
              assert rs[j] == rs[1..][j - 1];
            }
          }
        } else {
          forall i | 0 <= i < |rs| ensures rs[i].Success? {
            if i > 0 {
              assert rs[i] == rs[1..][i - 1];
            }
          }
        }
      }
    }
  }

  /** Elements convert independently: the blocks of a concatenation are
      the blocks of its parts, one after the other. */
  lemma {:induction false} AssembleConcat(a: seq<EP.ParsedElement>, b: seq<EP.ParsedElement>, theme: Theme)
    decreases |a|
    ensures Assemble(a + b, theme).Success? <==> Assemble(a, theme).Success? && Assemble(b, theme).Success?
    ensures Assemble(a + b, theme).Success? ==>
              Assemble(a + b, theme).value == Assemble(a, theme).value + Assemble(b, theme).value
  {
    if |a| == 0 {
      assert a + b == b;
    } else {
      assert (a + b)[0] == a[0];
      assert (a + b)[1..] == a[1..] + b;
      AssembleConcat(a[1..], b, theme);
      if Convert(a[0], theme).Success? && Assemble(a[1..], theme).Success? && Assemble(b, theme).Success? {
        var h := Convert(a[0], theme).value;
        assert h + (Assemble(a[1..], theme).value + Assemble(b, theme).value)
               == (h + Assemble(a[1..], theme).value) + Assemble(b, theme).value;
      }
    }
  }

  /** A heading is one paragraph at its heading level, spaced as the
      catalog's heading style of that level. */
  lemma {:induction false} HeadingIsOneParagraph(level: nat, content: string, theme: Theme)
    requires 1 <= level <= 3
    ensures var r := Convert(EP.Heading(level, content), theme);
      && r.Success? && |r.value| == 1 && r.value[0].Para?
      && r.value[0].runs == [Run(content, NoProps)]
      && r.value[0].layout.heading == Some(level)
      && var id := if level == 1 then Heading1 else if level == 2 then Heading2 else Heading3;
         r.value[0].layout.beforeMm == Some(Style(theme, id).beforeMm)
         && r.value[0].layout.afterMm == Some(Style(theme, id).afterMm)
  {
    HeadingSpacingMatchesCatalog(theme);
  }

  /** A paragraph disappears when its text is blank; otherwise it is one
      paragraph whose runs carry the inline spans' texts, in order. */
  lemma {:induction false} ParagraphKeptIffNotBlank(content: string, theme: Theme)
    ensures var r := Convert(EP.Paragraph(content), theme);
      && r.Success?
      && (r.value == [] <==> IsBlank(content))
      && (!IsBlank(content) ==>
            |r.value| == 1 && r.value[0].Para?
            && |r.value[0].runs| == |IF.ParseInline(content)|
            && forall i :: 0 <= i < |r.value[0].runs| ==>
                 r.value[0].runs[i].text == IF.ParseInline(content)[i].text
                 && (r.value[0].runs[i].props.bold <==> IF.ParseInline(content)[i].format == Bold)
                 && (r.value[0].runs[i].props.italics <==> IF.ParseInline(content)[i].format == Italic))
  {
  }

  /** A list is one paragraph per item, numbered from 1 when ordered and
      bulleted otherwise, then a spacer. */
  lemma {:induction false} ListItemsNumbered(ordered: bool, items: seq<string>, theme: Theme)
    ensures var r := Convert(EP.List(ordered, items), theme);
      && r.Success? && |r.value| == |items| + 1
      && r.value[|items|] == Spacer(6)
      && forall i :: 0 <= i < |items| ==>
           && r.value[i].Para? && |r.value[i].runs| == 1
           && r.value[i].runs[0].text
              == (if ordered then NatToString(i + 1) + ". " else "• ") + items[i]
  {
    var r := Convert(EP.List(ordered, items), theme);
    forall i | 0 <= i < |items|
      ensures r.value[i].runs[0].text == (if ordered then NatToString(i + 1) + ". " else "• ") + items[i]
    {
      if ordered {
        assert NatToString(i + 1) + "." + " " + items[i] == NatToString(i + 1) + ". " + items[i];
      } else {
        assert "•" + " " + items[i] == "• " + items[i];
      }
    }
  }

  /** The text of each code paragraph, with its one-space placeholder for
      an empty line. */
  function CodeTexts(blocks: seq<Block>): seq<string>
    requires forall i :: 0 <= i < |blocks| ==> blocks[i].Para? && |blocks[i].runs| == 1
  {
    seq(|blocks|, i requires 0 <= i < |blocks| => blocks[i].runs[0].text)
  }

  /** A code block is one paragraph per normalised line, then a spacer;
      no paragraph is empty, and each shows its line, an empty line as one
      space. */
  lemma {:induction false} CodeLinesShown(content: string, language: string, theme: Theme)
    requires CodeLines(content, language).Success?
    ensures var lines, r := CodeLines(content, language).value, Convert(EP.Code(content, language), theme);
      && r.Success? && |r.value| == |lines| + 1
      && r.value[|lines|] == Spacer(6)
      && (forall i :: 0 <= i < |lines| ==> r.value[i].Para? && |r.value[i].runs| == 1)
      && (forall i :: 0 <= i < |lines| ==>
            r.value[i].runs[0].text != ""
            && (r.value[i].runs[0].text == lines[i] || (lines[i] == "" && r.value[i].runs[0].text == " ")))
  {
    var lines := CodeLines(content, language).value;
    var blocks := CodeLineBlocks(lines) + [Spacer(6)];
    ConvertCode(content, language, theme, lines);
    CodeLineBlocksShape(lines, blocks);
  }

  lemma {:induction false} ConvertCode(content: string, language: string, theme: Theme, lines: seq<string>)
    requires CodeLines(content, language) == Success(lines)
    ensures Convert(EP.Code(content, language), theme) == Success(CodeLineBlocks(lines) + [Spacer(6)])
  {
  }

  /** One paragraph per line, each with one run showing its line, then the
      spacer. */
  lemma {:induction false} CodeLineBlocksShape(lines: seq<string>, blocks: seq<Block>)
    requires blocks == CodeLineBlocks(lines) + [Spacer(6)]
    ensures |blocks| == |lines| + 1 && blocks[|lines|] == Spacer(6)
    ensures forall i :: 0 <= i < |lines| ==> blocks[i].Para? && |blocks[i].runs| == 1
    ensures forall i :: 0 <= i < |lines| ==>
              blocks[i].runs[0].text != ""
              && (blocks[i].runs[0].text == lines[i] || (lines[i] == "" && blocks[i].runs[0].text == " "))
  {
    forall i | 0 <= i < |lines| ensures blocks[i] == CodeLineBlocks(lines)[i] {
    }
  }

  /** Any heading level gives one paragraph of the heading's text: levels 1
      to 6 keep their level, 0 counts as level 1, a level past 6 gets no
      heading level, and every level past 2 is spaced like level 3. */
  lemma {:induction false} HeadingAnyLevel(level: nat, content: string, theme: Theme)
    ensures var r := Convert(EP.Heading(level, content), theme);
      && r.Success? && |r.value| == 1 && r.value[0].Para?
      && r.value[0].runs == [Run(content, NoProps)]
      && (1 <= level <= 6 ==> r.value[0].layout.heading == Some(level))
      && (level == 0 ==> r.value[0].layout.heading == Some(1))
      && (level > 6 ==> r.value[0].layout.heading == None)
      && (level >= 3 ==> r.value[0].layout.beforeMm == Some(8) && r.value[0].layout.afterMm == Some(3))
  {
  }

  /** A block quote is one paragraph in the quote style holding its whole
      text as a single italic run: inline markers in it are not parsed. */
  lemma {:induction false} QuoteIsOneRun(content: string, theme: Theme)
    ensures var r := Convert(EP.Blockquote(content), theme);
      && r.Success? && |r.value| == 1 && r.value[0].Para?
      && r.value[0].layout.style == Some(Quote)
      && |r.value[0].runs| == 1 && r.value[0].runs[0].text == content
      && r.value[0].runs[0].props.italics && !r.value[0].runs[0].props.bold
  {
  }

  /** A horizontal rule is one centred paragraph of 47 underscores with
      8 mm of space on either side. */
  lemma {:induction false} RuleIsOneParagraph(theme: Theme)
    ensures var r := Convert(EP.Rule, theme);
      && r.Success? && |r.value| == 1 && r.value[0].Para?
      && r.value[0].layout.centered
      && r.value[0].layout.beforeMm == Some(8) && r.value[0].layout.afterMm == Some(8)
      && |r.value[0].runs| == 1 && |r.value[0].runs[0].text| == 47
      && r.value[0].runs[0].text == RuleText
  {
    assert |RuleText| == 47;
  }

  /** The table: the header row only when there are headers, one row per
      body row with one cell per value, then a spacer. Header cells are
      bold, centred and shaded; body cells are neither. */
  lemma {:induction false} TableShape(headers: seq<string>, rows: seq<seq<string>>, theme: Theme)
    ensures var r := Convert(EP.Table(headers, rows), theme);
      var h := if |headers| > 0 then 1 else 0;
      && r.Success? && |r.value| == 2 && r.value[1] == Spacer(8)
      && r.value[0].Grid? && r.value[0].widthPercent == 100
      && |r.value[0].rows| == h + |rows|
      && (|headers| > 0 ==>
            |r.value[0].rows[0]| == |headers|
            && forall j :: 0 <= j < |headers| ==>
                 r.value[0].rows[0][j].run.text == headers[j]
                 && r.value[0].rows[0][j].run.props.bold
                 && r.value[0].rows[0][j].centered
                 && r.value[0].rows[0][j].shading == Some(HeaderCellShading(theme)))
      && forall i :: 0 <= i < |rows| ==>
           |r.value[0].rows[h + i]| == |rows[i]|
           && forall j :: 0 <= j < |rows[i]| ==>
                r.value[0].rows[h + i][j].run.text == rows[i][j]
                && !r.value[0].rows[h + i][j].run.props.bold
                && !r.value[0].rows[h + i][j].centered
                && r.value[0].rows[h + i][j].shading == None
  {
    var h := if |headers| > 0 then 1 else 0;
    var t := TableRows(headers, rows, theme);
    assert Convert(EP.Table(headers, rows), theme) == Success([Grid(t, 100, OuterTableEdge, InnerTableEdge), Spacer(8)]);
    if |headers| > 0 {
      assert t[0] == HeaderRow(headers, theme);
    }
    forall i | 0 <= i < |rows| ensures t[h + i] == BodyRow(rows[i], theme) {
    }
  }

  // ---------------------------------------------------------------------
  // The theme changes fonts, colours and shades only

  /** A run with its theme-dependent font and colour taken away. */
  function UnthemedRun(r: Run): Run {
    r.(props := r.props.(font := None, color := None))
  }

  function UnthemedRuns(rs: seq<Run>): (u: seq<Run>)
    ensures |u| == |rs| && forall i :: 0 <= i < |rs| ==> u[i] == UnthemedRun(rs[i])
  {
    seq(|rs|, i requires 0 <= i < |rs| => UnthemedRun(rs[i]))
  }

  function UnthemedCell(c: Cell): Cell {
    Cell(UnthemedRun(c.run), c.centered, if c.shading.Some? then Some("") else None)
  }

  function UnthemedRow(cs: seq<Cell>): (u: seq<Cell>)
    ensures |u| == |cs| && forall j :: 0 <= j < |cs| ==> u[j] == UnthemedCell(cs[j])
  {
    seq(|cs|, j requires 0 <= j < |cs| => UnthemedCell(cs[j]))
  }

  function UnthemedRows(rows: seq<seq<Cell>>): (u: seq<seq<Cell>>)
    ensures |u| == |rows| && forall i :: 0 <= i < |rows| ==> u[i] == UnthemedRow(rows[i])
  {
    seq(|rows|, i requires 0 <= i < |rows| => UnthemedRow(rows[i]))
  }

  /** A block with every font, colour and shade colour taken away: its
      texts, layout, sizes, weights and decorations remain. */
  function Unthemed(b: Block): Block {
    match b
    case Para(runs, layout) => Para(UnthemedRuns(runs), layout)
    case Grid(rows, w, o, i) => Grid(UnthemedRows(rows), w, o, i)
  }

  function UnthemedAll(bs: seq<Block>): (u: seq<Block>)
    ensures |u| == |bs| && forall i :: 0 <= i < |bs| ==> u[i] == Unthemed(bs[i])
  {
    seq(|bs|, i requires 0 <= i < |bs| => Unthemed(bs[i]))
  }

  lemma {:induction false} UnthemedConcat(a: seq<Block>, b: seq<Block>)
    ensures UnthemedAll(a + b) == UnthemedAll(a) + UnthemedAll(b)
  {
  }

  lemma {:induction false} ConvertThemeFree(e: EP.ParsedElement)
    ensures Convert(e, Minimal).Success? <==> Convert(e, Elegant).Success?
    ensures Convert(e, Minimal).Success? ==>
              UnthemedAll(Convert(e, Minimal).value) == UnthemedAll(Convert(e, Elegant).value)
  {
    forall f: Format ensures UnthemedRun(Run("", InlineRun(Minimal, f))).props == UnthemedRun(Run("", InlineRun(Elegant, f))).props {
      ThemesShareRunShape(f);
    }
    match e
    case Paragraph(content) =>
      if !IsBlank(content) {
        var m, g := InlineRuns(content, Minimal), InlineRuns(content, Elegant);
        assert UnthemedRuns(m) == UnthemedRuns(g) by {
          forall i | 0 <= i < |m| ensures UnthemedRun(m[i]) == UnthemedRun(g[i]) {
            var f := IF.ParseInline(content)[i].format;
            assert UnthemedRun(Run("", InlineRun(Minimal, f))).props == UnthemedRun(Run("", InlineRun(Elegant, f))).props;
          }
        }
      }
    case List(ordered, items) =>
      ListThemeFree(ordered, items);
    case Table(headers, rows) =>
      TableThemeFree(headers, rows);
      assert Unthemed(Convert(e, Minimal).value[0]) == Unthemed(Convert(e, Elegant).value[0]);
    case Blockquote(content) =>
      assert UnthemedRuns([Run(content, QuoteRun(Minimal))]) == UnthemedRuns([Run(content, QuoteRun(Elegant))]);
    case Rule =>
      assert UnthemedRuns([Run(RuleText, RuleRun(Minimal))]) == UnthemedRuns([Run(RuleText, RuleRun(Elegant))]);
    case Heading(_, _) =>
    case Code(_, _) =>
  }

  lemma {:induction false} ListThemeFree(ordered: bool, items: seq<string>)
    ensures UnthemedAll(ListBlocks(ordered, items, Minimal)) == UnthemedAll(ListBlocks(ordered, items, Elegant))
  {
    var m, g := ListBlocks(ordered, items, Minimal), ListBlocks(ordered, items, Elegant);
    forall i | 0 <= i < |m| ensures Unthemed(m[i]) == Unthemed(g[i]) {
      if i < |items| {
        var text := ListMarker(ordered, i) + " " + items[i];
        assert m[i] == Para([Run(text, ListItemRun(Minimal))], ListItemLayout);
        assert g[i] == Para([Run(text, ListItemRun(Elegant))], ListItemLayout);
        assert UnthemedRuns([Run(text, ListItemRun(Minimal))]) == UnthemedRuns([Run(text, ListItemRun(Elegant))]);
      } else {
        assert m[i] == Spacer(6) == g[i];
      }
    }
  }

  lemma {:induction false} TableThemeFree(headers: seq<string>, rows: seq<seq<string>>)
    ensures UnthemedRows(TableRows(headers, rows, Minimal)) == UnthemedRows(TableRows(headers, rows, Elegant))
  {
    var m, g := TableRows(headers, rows, Minimal), TableRows(headers, rows, Elegant);
    var h := if |headers| > 0 then 1 else 0;
    forall i | 0 <= i < |m| ensures UnthemedRow(m[i]) == UnthemedRow(g[i]) {
      if i < h {
        assert m[i] == HeaderRow(headers, Minimal) && g[i] == HeaderRow(headers, Elegant);
        forall j | 0 <= j < |m[i]| ensures UnthemedCell(m[i][j]) == UnthemedCell(g[i][j]) {
        }
      } else {
        assert m[i] == BodyRow(rows[i - h], Minimal) && g[i] == BodyRow(rows[i - h], Elegant);
        forall j | 0 <= j < |m[i]| ensures UnthemedCell(m[i][j]) == UnthemedCell(g[i][j]) {
        }
      }
    }
  }

  /** The theme decides fonts and colours only: both themes fail on the
      same inputs, and otherwise give the same blocks once fonts, colours
      and shade colours are taken away. */
  lemma {:induction false} AssembleThemeFree(es: seq<EP.ParsedElement>)
    decreases |es|
    ensures Assemble(es, Minimal).Success? <==> Assemble(es, Elegant).Success?
    ensures Assemble(es, Minimal).Success? ==>
              UnthemedAll(Assemble(es, Minimal).value) == UnthemedAll(Assemble(es, Elegant).value)
  {
    if |es| > 0 {
      ConvertThemeFree(es[0]);
      AssembleThemeFree(es[1..]);
      if Assemble(es, Minimal).Success? {
        UnthemedConcat(Convert(es[0], Minimal).value, Assemble(es[1..], Minimal).value);
        UnthemedConcat(Convert(es[0], Elegant).value, Assemble(es[1..], Elegant).value);
      }
    }
  }
}
