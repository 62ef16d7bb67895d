# markdowngeenie converter core, modelled in Dafny

markdowngeenie turns a Markdown document into a Word (`.docx`) document.
Its converter (`src/lib/utils/converter.ts`) does this in four steps:

1. It can insert a `[[toc]]` marker into the Markdown.
2. It renders the Markdown to HTML with markdown-it.
3. It walks the top-level HTML elements and turns each one into a *parsed element*: a heading, paragraph, list, code block, table, blockquote or horizontal rule.
4. It turns every parsed element into docx paragraphs and tables. Along the way it:
   - reformats code blocks (trimming blank lines, collapsing blank runs, re-indenting JSON and YAML);
   - splits paragraph text into formatted runs with five regular expressions;
   - styles everything from a two-theme style catalog.

The project models steps 1, 3 and 4 as pure functions over immutable data, and proves what each step guarantees.

| module | file | models |
|---|---|---|
| `Wrappers` | `wrappers.dfy` | `Option` and `Result` |
| `Strings` | `strings.dfy` | The JavaScript string operations the converter uses: `trim`, `trimStart`, `split`/`join`, `includes`, `repeat` and decimal printing |
| `Toc` | `toc.dfy` | The TOC marker insertion |
| `Styles` | `styles.dfy` | The paragraph-style catalog for the `minimal` and `elegant` themes, and the run properties the converter uses |
| `ElementParser` | `element_parser.dfy` | `parseElements`/`parseElement` over an abstract DOM tree, including `querySelector(All)` and the `language-(\w+)` class match |
| `InlineFormatter` | `inline_formatter.dfy` | `parseInlineFormatting`: the five lazy regular expressions, the per-pattern `exec` loop, the stable sort by start, and the gap-filling walk |
| `InlineExamples` | `inline_examples.dfy` | A worked input, `**bold**`, run through the whole formatter |
| `CodeNormalizer` | `code_normalizer.dfy` | `normalizeCodeSpacing` and `normalizeStructuredCode` |
| `Assembler` | `assembler.dfy` | `convertElementsToDocx`: one docx block sequence per parsed element, concatenated |

Every operation with a loop in the source has two forms:
- a recursive definition, which the properties are proved about;
- a `method` with the source's loop, proved equal to the recursive definition. Examples are `CollapseBlankRunsLoop`, `NestingBefore`, `StructuredLineLoop`, `NormalizeStructuredLoop`, `ExecLoop`, `CollectLoop`, `WalkLoop` and `ParseInlineLoop`.

The output is modelled as docx blocks: paragraphs made of runs with properties, tables made of cells, and empty spacers. Spacing is kept in millimetres, as the source writes it before converting to twips.

**Behaviour of the code that the model keeps, though a reader may not expect it:**

- **`**bold**` gives four runs.** The italic pattern `\*(.*?)\*` also matches `**` at offsets 0 and 6. The walk therefore emits:
  - the bold capture;
  - an empty italic run;
  - the plain text `bold`, because `lastEnd` went back to 2;
  - a second empty italic run.

  `InlineExamples.BoldWordExample` proves this.
- **`lastEnd` is the end of the previous match, not the furthest end so far.** Overlapping matches therefore re-emit text. The model keeps this.
- **Heading levels outside 1–6.**
  - Level 0 (from `element.level || 1`) gets `HEADING_1`.
  - Levels above 6 get no heading level.
  - Every level other than 1 and 2 gets the 8 mm / 3 mm spacing. That includes H4–H6 and level 0.
- **Tables are always emitted**, even one with no header and no rows.
- **Unknown container tags** become one paragraph of their whole text. The parser does not recurse into them.
- **Nested lists.** `querySelectorAll('li')` finds nested `li` elements too, so a nested list item appears twice: inside its parent's text and as its own item.
- **A JSON/YAML block whose nesting count goes below zero** reaches `' '.repeat(negative)`, which throws a `RangeError`. The model makes this a `Failure(NegativeIndent(line))`, and the failure propagates out of the whole conversion. The `Math.max(0, …)` clamp only applies to lines that start with `}` or `]`. `CodeNormalizer.NegativeIndentExample` shows the input `["}", "x"]` failing on line 1.
- **TOC insertion checks two different patterns.**
  - The multi-line search `^#\s` also matches a `#` followed by a newline.
  - The per-line test needs a whitespace character after `#` inside the line.

  So for `"#\nx"` the marker goes to the top, after an empty line (`Toc.BareHashGoesToTop`).

## Model

| member | source | states |
|---|---|---|
| `Toc.SearchFrom` | src/lib/utils/converter.ts:68 | The search finds a hit exactly when some offset at or after `p` starts a line with `#` followed by whitespace |
| `Toc.FirstHeadingLine` | src/lib/utils/converter.ts:73-79 | Returns none exactly when no line from `i` on matches `^#\s`. Otherwise returns the first such line |
| `Toc.InsertToc` | src/lib/utils/converter.ts:59-87 | With TOC off, or the marker already present, the Markdown is unchanged. With no heading start, the result is `[[toc]]\n\n` followed by the input |
| `Toc.TocPresent` | src/lib/utils/converter.ts:66-86 | With TOC on, the result always contains the marker |
| `Toc.TocAfterFirstHeadingLine` | src/lib/utils/converter.ts:69-82 | When the marker is absent and a heading start exists, the result's lines are the input's lines with `""`, `[[toc]]`, `""` spliced in. The splice point is just after the first heading line, or at the top if no line passes the per-line test |
| `Toc.HeadingLineStartsHeading` | src/lib/utils/converter.ts:68-76 | A line passing the per-line test always makes the multi-line search succeed on the joined text |
| `Toc.HeadingLineMeansSearchHit` | src/lib/utils/converter.ts:68-76 | The same fact, stated on the lines of `split('\n')` |
| `Toc.BareHashGoesToTop` | src/lib/utils/converter.ts:68-86 | `"#\nx"` passes the search but no line passes the per-line test, so the marker is inserted at line 0 |
| `Toc.ContainsInSuffix` | src/lib/utils/converter.ts:67 | `includes` finds a pattern in a longer string when the pattern is in its suffix |
| `Toc.JoinHasPart` | src/lib/utils/converter.ts:82 | Every line is contained in the joined text |
| `Toc.TooShortToContain` | src/lib/utils/converter.ts:67 | A string shorter than the pattern does not contain it |
| `Strings.Trim` | src/lib/utils/converter.ts:743 | The result is no longer than the input, and neither of its ends is whitespace |
| `Strings.TrimStart` | src/lib/utils/converter.ts:800 | The result has no leading whitespace |
| `Strings.TrimEnd` | src/lib/utils/converter.ts:743-748 | The result has no trailing whitespace |
| `Strings.TrimStartDropsWhite` | src/lib/utils/converter.ts:800 | `trimStart` removes exactly a whitespace prefix |
| `Strings.TrimEndDropsWhite` | src/lib/utils/converter.ts:743-748 | `trimEnd` removes exactly a whitespace suffix |
| `Strings.TrimEmptyIffAllWhite` | src/lib/utils/converter.ts:743 | `trim() === ''` holds exactly when the line is all whitespace |
| `Strings.TrimPadded` | src/lib/utils/converter.ts:784 | Trimming a whitespace prefix off an already-trimmed text gives that text back |
| `Strings.TrimIdempotent` | src/lib/utils/converter.ts:784 | Trimming twice is the same as trimming once |
| `Strings.Spaces` | src/lib/utils/converter.ts:820 | `' '.repeat(n)` is `n` spaces |
| `Strings.Split` | src/lib/utils/converter.ts:70 | `split` gives at least one piece, and no piece holds the separator |
| `Strings.JoinSplit` | src/lib/utils/converter.ts:70-82 | Joining the pieces of a split gives back the original string |
| `Strings.SplitJoin` | src/lib/utils/converter.ts:70-82 | Splitting a join of separator-free pieces gives back the pieces |
| `Strings.SplitAfterPiece` | src/lib/utils/converter.ts:466 | Splitting `a + sep + b`, where `a` has no separator, gives `a` followed by the split of `b` |
| `Strings.NatToString` | src/lib/utils/converter.ts:435 | The decimal text of a number is a non-empty digit string with no leading zero, unless the number is 0 |
| `Strings.DecimalRoundTrip` | src/lib/utils/converter.ts:435 | Reading the decimal text back gives the number |
| `Styles.Style` | src/lib/utils/converter.ts:122-252 | The style for an id carries that id |
| `Styles.CatalogListsEachStyleOnce` | src/lib/utils/converter.ts:122-252 | Every style id appears in the catalog exactly once |
| `Styles.CatalogHasStyle` | src/lib/utils/converter.ts:122-252 | Every style id appears in the catalog |
| `Styles.CatalogIdsDistinct` | src/lib/utils/converter.ts:122-252 | No two catalog entries share an id |
| `Styles.ThemesShareLayout` | src/lib/utils/converter.ts:125-249 | The two themes differ only in colours, fonts and sizes. Spacing, indents, which borders exist and their widths, shading presence, bold and italics are the same |
| `Styles.CodeBlockIgnoresTheme` | src/lib/utils/converter.ts:190-219 | The CodeBlock style is identical in both themes |
| `Styles.HeadingsShrinkByLevel` | src/lib/utils/converter.ts:125-188 | Heading 1 is larger and more spaced than Heading 2, which is larger and more spaced than Heading 3. `elegant` is never smaller than `minimal` |
| `Styles.HeadingsUseBodyFont` | src/lib/utils/converter.ts:125-188 | Headings are bold and use the theme's body font |
| `Styles.HeadingSpacing` | src/lib/utils/converter.ts:405-408 | Every level from 3 up is spaced like level 3 |
| `Styles.HeadingSpacingMatchesCatalog` | src/lib/utils/converter.ts:125-188 | The spacing the assembler gives headings 1–3 equals the spacing of the catalog's heading styles |
| `Styles.InlineRun` | src/lib/utils/converter.ts:646-731 | A run is 11 pt (size 22). A plain run uses the body font in colour 374151. A code run uses Consolas, colour 2D3748 and shading F1F5F9. Each of bold, italics, strike and underline is on exactly for its own format |
| `Styles.ThemesShareRunShape` | src/lib/utils/converter.ts:436-611 | Run properties differ between themes only in font and colour |
| `ElementParser.TextContentConcat` | src/lib/utils/converter.ts:305 | The text content of a node list is the concatenation of the parts' text content |
| `ElementParser.TextContent` | src/lib/utils/converter.ts:305 | No contract of its own. `TextContentConcat` and `CommentsAddNoText` state its properties |
| `ElementParser.CommentsAddNoText` | src/lib/utils/converter.ts:305 | Comment nodes add nothing to `textContent` |
| `ElementParser.DescendantsAll` | src/lib/utils/converter.ts:317 | Lists only elements |
| `ElementParser.DescendantsComplete` | src/lib/utils/converter.ts:317 | A node is listed exactly when it is an element strictly below the queried element |
| `ElementParser.WithTag` | src/lib/utils/converter.ts:317 | Keeps only elements with the tag, drawn from the input |
| `ElementParser.WithTagMembers` | src/lib/utils/converter.ts:317 | A node is kept exactly when it is in the input and is an element with the tag |
| `ElementParser.QueryAllMembers` | src/lib/utils/converter.ts:317 | `querySelectorAll(tag)` returns exactly the descendant elements with the tag |
| `ElementParser.QueryAll` | src/lib/utils/converter.ts:317 | No contract of its own. `QueryAllMembers` states which nodes it returns |
| `ElementParser.QueryFirst` | src/lib/utils/converter.ts:327 | `querySelector` finds something exactly when `querySelectorAll` is non-empty, and it is the first of those |
| `ElementParser.ScopedInside` | src/lib/utils/converter.ts:340-349 | Inside a matching ancestor, a descendant selector `outer inner` keeps every `inner` descendant |
| `ElementParser.ScopedNeedsOuter` | src/lib/utils/converter.ts:340-349 | Without an `outer` element, `outer inner` finds nothing |
| `ElementParser.WithTagConcat` | src/lib/utils/converter.ts:317 | Filtering by tag distributes over concatenation |
| `ElementParser.Texts` | src/lib/utils/converter.ts:317-319 | Maps each node to its text content, in order |
| `ElementParser.WordRun` | src/lib/utils/converter.ts:328 | `(\w+)` takes the longest run of word characters at the position |
| `ElementParser.LanguageFrom` | src/lib/utils/converter.ts:328 | Finds a language exactly when `language-` followed by a word character occurs. The result is the word run after the first occurrence |
| `ElementParser.Language` | src/lib/utils/converter.ts:328 | The language is empty exactly when the class has no `language-\w` match. Otherwise it consists of word characters only |
| `ElementParser.RowCells` | src/lib/utils/converter.ts:346-353 | Each body row gives the text of its `td` cells, in order |
| `ElementParser.ParseElement` | src/lib/utils/converter.ts:292-385 | The result is null exactly for an unknown tag with blank text. Per tag: the heading level is the digit in the tag; `p` gives a paragraph and `blockquote` a blockquote of its text, and a non-blank unknown tag gives a paragraph of its text; lists give the text of every `li` below them, ordered for `ol`; `pre` gives its text and the first `code`'s language; tables give the `thead tr th` headers and, for each `tbody tr`, the texts of its `td` cells, rows of unequal length kept as they are; `hr` gives a rule |
| `ElementParser.ParseChildren` | src/lib/utils/converter.ts:279-290 | Never more parsed elements than children |
| `ElementParser.ParseElements` | src/lib/utils/converter.ts:279-290 | No contract of its own. It is `ParseChildren` of the container's children, whose lemmas `ParseChildrenConcat` and `ParseChildrenCount` apply |
| `ElementParser.Parsed` | src/lib/utils/converter.ts:283-286 | A child contributes at most one element |
| `ElementParser.ParseChildrenConcat` | src/lib/utils/converter.ts:279-290 | Parsing distributes over concatenation of children |
| `ElementParser.ParseChildrenCount` | src/lib/utils/converter.ts:279-290 | The number of parsed elements is the number of children that are not null-parsed |
| `ElementParser.WrapperIsNotEntered` | src/lib/utils/converter.ts:376-383 | An unknown container becomes one paragraph of all its text. Its children are not parsed |
| `ElementParser.NestedQuery` | src/lib/utils/converter.ts:316-318 | In a `ul` whose `li` holds a nested list, `querySelectorAll('li')` returns the outer item, then the inner one |
| `ElementParser.NestedTexts` | src/lib/utils/converter.ts:316-318 | In that list the outer item's text includes the inner item's |
| `ElementParser.NestedItemsListed` | src/lib/utils/converter.ts:314-324 | That list parses to the items `["ab", "b"]`: the nested item appears twice |
| `ElementParser.LanguageExample` | src/lib/utils/converter.ts:328 | The class `x language-py` gives the language `py` |
| `InlineFormatter.PatternRanks` | src/lib/utils/converter.ts:646-652 | The patterns run in the order bold, italic, code, strike, underline, and every delimiter is non-empty |
| `InlineFormatter.FindCloser` | src/lib/utils/converter.ts:647-651 | The lazy `(.*?)` finds the first closing delimiter on the same line, or reports that none exists |
| `InlineFormatter.MatchAt` | src/lib/utils/converter.ts:660-666 | A match found at `p` starts at `p`, ends inside the text, and carries the pattern's format |
| `InlineFormatter.MatchAtMeaning` | src/lib/utils/converter.ts:647-666 | A match exists at `p` exactly when the delimiter is there and a closer follows on the same line. The match then spans opener, capture and the first closer, and the capture is the text between them |
| `InlineFormatter.MatchAtExists` | src/lib/utils/converter.ts:647-666 | The if-and-only-if half of the same fact |
| `InlineFormatter.MatchAtShape` | src/lib/utils/converter.ts:647-666 | The shape half of the same fact |
| `InlineFormatter.ScanFrom` | src/lib/utils/converter.ts:658-668 | Every match of one global regex scan lies at or after the start and carries the pattern's format |
| `InlineFormatter.ScanAtEnd` | src/lib/utils/converter.ts:660 | At the end of the text the only valid scan is the empty one |
| `InlineFormatter.ScanAfterMatch` | src/lib/utils/converter.ts:660-666 | After a match, the scan resumes at the match's end, as `lastIndex` does |
| `InlineFormatter.ScanSkips` | src/lib/utils/converter.ts:660 | Where no match starts, the scan moves on by one position |
| `InlineFormatter.ScanFromIsScan` | src/lib/utils/converter.ts:658-668 | The computed scan meets the declarative description: every match is a real match, and no match starts in the gaps between them |
| `InlineFormatter.ScanIsUnique` | src/lib/utils/converter.ts:658-668 | Any sequence meeting that description is the computed scan |
| `InlineFormatter.ScanHead` | src/lib/utils/converter.ts:660 | A match at the scan's start is the scan's first element |
| `InlineFormatter.CollectMatches` | src/lib/utils/converter.ts:658-668 | Every collected match lies inside the text |
| `InlineFormatter.AllMatches` | src/lib/utils/converter.ts:658-668 | Every match lies inside the text and is formatted |
| `InlineFormatter.CollectMatchesFormats` | src/lib/utils/converter.ts:658-668 | Matches from the first `n` patterns carry one of those patterns' formats |
| `InlineFormatter.InsertCounts` | src/lib/utils/converter.ts:671 | Insertion adds exactly the inserted match |
| `InlineFormatter.InsertSorted` | src/lib/utils/converter.ts:671 | Insertion into a sorted sequence keeps it sorted |
| `InlineFormatter.InsertWithStart` | src/lib/utils/converter.ts:671 | Insertion puts the match after every other match with the same start |
| `InlineFormatter.SortFacts` | src/lib/utils/converter.ts:671 | The sort orders by start, is a permutation, and is stable: matches sharing a start keep their order |
| `InlineFormatter.SortSorted` | src/lib/utils/converter.ts:671 | The sort output is ordered by start |
| `InlineFormatter.SortPermutes` | src/lib/utils/converter.ts:671 | The sort output is a permutation of its input |
| `InlineFormatter.SortStable` | src/lib/utils/converter.ts:671 | The sort is stable |
| `InlineFormatter.ScanWithStart` | src/lib/utils/converter.ts:658-668 | One pattern yields at most one match per start offset |
| `InlineFormatter.CollectInPatternOrder` | src/lib/utils/converter.ts:658-668 | Matches sharing a start appear in pattern order |
| `InlineFormatter.SortedMatchesOrder` | src/lib/utils/converter.ts:658-671 | After the sort, matches sharing a start are still in pattern order, so bold comes before italic at the same offset |
| `InlineFormatter.SortedInText` | src/lib/utils/converter.ts:671 | The sorted matches lie inside the text, are formatted, and are as many as before |
| `InlineFormatter.CaptureSpans` | src/lib/utils/converter.ts:704-713 | Each match becomes a span of its capture in its format |
| `InlineFormatter.WalkFacts` | src/lib/utils/converter.ts:686-731 | The formatted spans of the walk are exactly the matches' captures, in order. There is at most one plain span per gap, and no plain span is empty |
| `InlineFormatter.PrevEnd` | src/lib/utils/converter.ts:686-715 | No contract of its own. It is the `lastEnd` the walk holds on reaching match `j`: the starting offset for the first match, and the previous match's end (not the furthest end) after that. `WalkGaps` connects it to the walk |
| `InlineFormatter.GapBefore` | src/lib/utils/converter.ts:689-702 | No contract of its own. The plain span in front of match `j` is `text[prev..start)`, emitted only when the match starts beyond `prev`. `WalkGaps` connects it to the walk |
| `InlineFormatter.TailAfter` | src/lib/utils/converter.ts:718-731 | No contract of its own. The trailing plain span is `text[e..]`, emitted only when the last end `e` is before the end of the text. `WalkGaps` connects it to the walk |
| `InlineFormatter.WalkGaps` | src/lib/utils/converter.ts:686-731 | For all inputs, the walk is: for each match in order, the plain gap from the previous match's end when the match starts beyond it, then the capture; after the last match, the rest of the text when any remains |
| `InlineFormatter.PiecesShift` | src/lib/utils/converter.ts:688-716 | After the first match, the walk carries on with `lastEnd` set to that match's end, so every later piece is unchanged |
| `InlineFormatter.Walk` | src/lib/utils/converter.ts:686-731 | No contract of its own. It is the recursive walk. `WalkGaps` gives its indexed description, `WalkFacts` its shape, and `WalkLoop` equates it with the source's loop |
| `InlineFormatter.WalkFormatted` | src/lib/utils/converter.ts:686-716 | The formatted spans are the captures in sorted order |
| `InlineFormatter.WalkPlainCount` | src/lib/utils/converter.ts:686-731 | There are at most one more plain spans than matches |
| `InlineFormatter.WalkPlainNonEmpty` | src/lib/utils/converter.ts:690-702 | No plain span is empty |
| `InlineFormatter.NoMatchSingleSpan` | src/lib/utils/converter.ts:674-683 | With no match, the text is one plain span |
| `InlineFormatter.ParseInlineShape` | src/lib/utils/converter.ts:642-734 | With no match: one plain span of the whole text. Otherwise the formatted spans are the sorted matches' captures, the span count is between `m` and `2m+1`, and no plain span is empty. The spans are exactly the indexed walk of `WalkGaps` over the sorted matches, starting from offset 0 |
| `InlineFormatter.ParseInline` | src/lib/utils/converter.ts:642-734 | No contract of its own. `ParseInlineShape` states its result and `ParseInlineLoop` equates it with the source's function |
| `InlineFormatter.SortByStart` | src/lib/utils/converter.ts:671 | No contract of its own. `SortFacts` states that it is ordered by start, is a permutation, and is stable |
| `InlineFormatter.Scan` | src/lib/utils/converter.ts:658-668 | No contract of its own. `ScanFromIsScan` and `ScanIsUnique` characterise it, and `ExecLoop` equates it with the `exec` loop |
| `InlineFormatter.ExecLoop` | src/lib/utils/converter.ts:659-667 | The `exec` loop computes the pattern's scan |
| `InlineFormatter.CollectStep` | src/lib/utils/converter.ts:658-668 | One more pattern appends exactly its scan |
| `InlineFormatter.CollectLoop` | src/lib/utils/converter.ts:655-668 | The loop over patterns computes all matches, pattern after pattern |
| `InlineFormatter.WalkLoop` | src/lib/utils/converter.ts:686-731 | The walk loop, with the unguarded `lastEnd`, computes the recursive walk |
| `InlineFormatter.ParseInlineLoop` | src/lib/utils/converter.ts:642-734 | The whole function computes the recursive model |
| `InlineExamples.AllMatchesSplit` | src/lib/utils/converter.ts:658-668 | All matches are the five scans, concatenated in pattern order |
| `InlineExamples.BoldWordBoldScan` | src/lib/utils/converter.ts:647 | In `**bold**` the bold pattern matches once, over the whole text |
| `InlineExamples.BoldWordItalicScan` | src/lib/utils/converter.ts:648 | In `**bold**` the italic pattern matches the two `**` pairs, each with an empty capture |
| `InlineExamples.BoldWordMatches` | src/lib/utils/converter.ts:658-668 | `**bold**` yields three matches |
| `InlineExamples.BoldWordOtherScans` | src/lib/utils/converter.ts:649-651 | The code, strike and underline patterns find nothing in `**bold**` |
| `InlineExamples.BoldWordSorted` | src/lib/utils/converter.ts:671 | Those three matches are already in order |
| `InlineExamples.BoldWordSpans` | src/lib/utils/converter.ts:686-731 | The walk over them gives bold `bold`, empty italic, plain `bold`, empty italic |
| `InlineExamples.BoldWordWalk` | src/lib/utils/converter.ts:642-734 | `**bold**` formats as those four spans |
| `InlineExamples.BoldWordExample` | src/lib/utils/converter.ts:642-734 | The same result, stated on the literal |
| `CodeNormalizer.NonBlankLinesConcat` | src/lib/utils/converter.ts:756-772 | The non-blank lines of a concatenation are the concatenation of the non-blank lines |
| `CodeNormalizer.LeadingBlankCount` | src/lib/utils/converter.ts:743-745 | The `shift` loop removes exactly the leading blank lines and stops at the first non-blank line |
| `CodeNormalizer.TrailingBlankCount` | src/lib/utils/converter.ts:746-748 | The `pop` loop removes exactly the trailing blank lines and stops at the last non-blank line |
| `CodeNormalizer.TrimBoundaryBlanksFacts` | src/lib/utils/converter.ts:743-748 | After trimming, neither end is blank. The result is empty exactly when every line was blank, and the non-blank lines are unchanged |
| `CodeNormalizer.TrimBoundaryFacts` | src/lib/utils/converter.ts:743-748 | Dropping blank prefixes and suffixes keeps the non-blank lines, and leaves non-blank ends |
| `CodeNormalizer.DroppingBlanksKeeps` | src/lib/utils/converter.ts:743-748 | Blank lines around a block contribute no non-blank lines |
| `CodeNormalizer.CollapseFrom` | src/lib/utils/converter.ts:756-772 | Collapsing never lengthens the lines |
| `CodeNormalizer.CollapseShape` | src/lib/utils/converter.ts:756-772 | After collapsing, no two blank lines are adjacent. A leading blank is the first line of a run |
| `CodeNormalizer.CollapseEnds` | src/lib/utils/converter.ts:756-772 | A non-blank first or last line stays first or last |
| `CodeNormalizer.CollapseKeepsNonBlank` | src/lib/utils/converter.ts:756-772 | Collapsing keeps every non-blank line, in order |
| `CodeNormalizer.CollapseBlankRunsLoop` | src/lib/utils/converter.ts:756-772 | The `consecutiveEmpty` loop computes the recursive collapse |
| `CodeNormalizer.CollapseAdvance` | src/lib/utils/converter.ts:759-770 | One loop step pushes exactly the line the collapse keeps |
| `CodeNormalizer.KeptBlankIsIsolated` | src/lib/utils/converter.ts:786-798 | A blank line kept in JSON/YAML has a non-blank line on both sides |
| `CodeNormalizer.StructuredLine` | src/lib/utils/converter.ts:783-822 | One line fails exactly when it is non-blank and its nesting count is negative, and the error names that line. Otherwise the line gives at most one output line |
| `CodeNormalizer.StructuredLineShape` | src/lib/utils/converter.ts:786-822 | A blank line gives `""` only between a closing line and a `"key": {` line, and nothing otherwise. A non-blank line gives its trimmed text after exactly two spaces per nesting level |
| `CodeNormalizer.StructuredLineCases` | src/lib/utils/converter.ts:786-822 | The three branches: blank line, negative repeat count (RangeError), and re-indented line |
| `CodeNormalizer.NormalizeStructuredFrom` | src/lib/utils/converter.ts:782-824 | On success, the output has at most one line per input line |
| `CodeNormalizer.FirstBadLine` | src/lib/utils/converter.ts:782-822 | Finds the first line whose repeat count is negative, or reports that none exists |
| `CodeNormalizer.StructuredFailsAtFirstBad` | src/lib/utils/converter.ts:782-822 | JSON/YAML normalisation fails exactly when some line has a negative count, and it reports the first such line |
| `CodeNormalizer.StructuredFailsLikeFirstBad` | src/lib/utils/converter.ts:782-822 | The failure is the error for that first bad line |
| `CodeNormalizer.StructuredFailStep` | src/lib/utils/converter.ts:782-822 | A bad line fails at once. A good line passes the outcome on to the next line |
| `CodeNormalizer.StructuredShape` | src/lib/utils/converter.ts:782-824 | A successful JSON/YAML output has no two adjacent blank lines, and every blank line in it is `""` |
| `CodeNormalizer.StructuredFirst` | src/lib/utils/converter.ts:782-824 | A non-blank first input line gives a non-blank first output line |
| `CodeNormalizer.StructuredLast` | src/lib/utils/converter.ts:782-824 | A non-blank last input line gives a non-blank last output line |
| `CodeNormalizer.StructuredStep` | src/lib/utils/converter.ts:782-822 | One pass of the `for` loop: a bad line fails the whole call, and a good line appends its output |
| `CodeNormalizer.NestingBefore` | src/lib/utils/converter.ts:800-812 | The inner `j` loop computes the nesting count of the preceding lines |
| `CodeNormalizer.StructuredLineLoop` | src/lib/utils/converter.ts:783-822 | The body of the outer loop computes one line's output |
| `CodeNormalizer.NormalizeStructuredLoop` | src/lib/utils/converter.ts:778-825 | The whole of `normalizeStructuredCode` computes the recursive model |
| `CodeNormalizer.NegativeIndentExample` | src/lib/utils/converter.ts:804-821 | For the JSON lines `["}", "x"]`, line 0 is clamped to 0 but line 1 has count -1, so the call fails on line 1 |
| `CodeNormalizer.ExampleKeepsBoundary` | src/lib/utils/converter.ts:743-748 | Those lines have no blank boundary to trim |
| `CodeNormalizer.ExampleLines` | src/lib/utils/converter.ts:815-821 | Line 0 succeeds and line 1 fails |
| `CodeNormalizer.ExampleDepths` | src/lib/utils/converter.ts:804-817 | The nesting levels of those two lines are 0 and -1 |
| `CodeNormalizer.NormalizeCodeSpacingFacts` | src/lib/utils/converter.ts:739-773 | Empty input is returned as is, and all-blank input gives `[]`. A result never has adjacent blank lines or blank ends. Only JSON/YAML can fail. For other languages the non-blank lines are exactly the input's |
| `CodeNormalizer.NormalizeCodeSpacing` | src/lib/utils/converter.ts:739-773 | No contract of its own, because its body unfolds into every caller. `NormalizeCodeSpacingFacts` states its guarantees |
| `CodeNormalizer.NormalizeStructured` | src/lib/utils/converter.ts:778-825 | No contract of its own. `StructuredFailsAtFirstBad`, `StructuredShape` and `NormalizeStructuredLoop` carry its properties |
| `CodeNormalizer.CollapseBlankRuns` | src/lib/utils/converter.ts:756-772 | No contract of its own. `CollapseShape`, `CollapseKeepsNonBlank` and `CollapseBlankRunsLoop` carry its properties |
| `CodeNormalizer.TrimBoundaryBlanks` | src/lib/utils/converter.ts:743-748 | No contract of its own. `TrimBoundaryBlanksFacts` states its guarantees |
| `CodeNormalizer.NormalizeTrimmedFacts` | src/lib/utils/converter.ts:751-772 | The same guarantees for the language dispatch after trimming |
| `CodeNormalizer.StructuredPath` | src/lib/utils/converter.ts:751-753 | The JSON/YAML branch keeps non-blank ends and never has adjacent blank lines |
| `CodeNormalizer.DefaultPath` | src/lib/utils/converter.ts:756-772 | The default branch keeps non-blank ends and every non-blank line, and never has adjacent blank lines |
| `Assembler.HeadingLevel` | src/lib/utils/converter.ts:393-405 | Levels 1–6 map to themselves. Any mapped level is in 1–6 |
| `Assembler.HeadingAnyLevel` | src/lib/utils/converter.ts:392-412 | A heading is one paragraph holding its text. Level 0 maps to HEADING_1 and levels above 6 to no heading. Every level from 3 up is spaced 8 mm / 3 mm |
| `Assembler.HeadingIsOneParagraph` | src/lib/utils/converter.ts:392-412 | Headings 1–3 are spaced like the catalog's heading styles |
| `Assembler.ParagraphKeptIffNotBlank` | src/lib/utils/converter.ts:414-426 | A paragraph emits nothing exactly when its text is blank. Otherwise it emits one paragraph of the formatter's runs, with bold and italics as the spans say |
| `Assembler.InlineRuns` | src/lib/utils/converter.ts:414-426 | Its ensures only spell out its `seq(...)` body element by element: one run per formatter span. `ParagraphKeptIffNotBlank` states what a paragraph gets |
| `Assembler.ListItemsNumbered` | src/lib/utils/converter.ts:428-461 | A list gives one paragraph per item, prefixed `i+1. ` if ordered or `• ` otherwise, followed by a 6 mm spacer |
| `Assembler.ListBlocks` | src/lib/utils/converter.ts:428-461 | No contract of its own. `ListItemsNumbered` states its result |
| `Assembler.CodeLinesShown` | src/lib/utils/converter.ts:464-500 | A code block gives one single-run paragraph per normalised line, followed by a 6 mm spacer. A run is never empty: an empty line shows as one space |
| `Assembler.ConvertCode` | src/lib/utils/converter.ts:464-500 | A code block converts to its line paragraphs plus the spacer |
| `Assembler.CodeLineBlocksShape` | src/lib/utils/converter.ts:470-500 | The shape of those paragraphs: one run each, the line text or `' '` |
| `Assembler.CodeLineBlocks` | src/lib/utils/converter.ts:470-500 | Its ensures only spell out its `seq(...)` body element by element. `CodeLineBlocksShape` and `CodeLinesShown` state what the code paragraphs hold |
| `Assembler.QuoteIsOneRun` | src/lib/utils/converter.ts:602-617 | A blockquote is one Quote-styled paragraph with one italic, non-bold run of its text |
| `Assembler.RuleIsOneParagraph` | src/lib/utils/converter.ts:619-635 | A rule is one centred paragraph of 47 underscores, spaced 8 mm before and after |
| `Assembler.TableShape` | src/lib/utils/converter.ts:503-600 | A table is a full-width grid followed by an 8 mm spacer. The grid has a bold, centred, shaded header row only when there are headers, then one row per body row, cell for cell |
| `Assembler.TableBlocks` | src/lib/utils/converter.ts:503-600 | No contract of its own. `TableShape` states its result |
| `Assembler.HeaderRow` | src/lib/utils/converter.ts:508-541 | Its ensures only spell out its `seq(...)` body element by element. `TableShape` states what the header row means |
| `Assembler.BodyRow` | src/lib/utils/converter.ts:544-570 | Its ensures only spell out its `seq(...)` body element by element. `TableShape` states what the body rows mean |
| `Assembler.Convert` | src/lib/utils/converter.ts:390-637 | An element fails exactly when it is a code block the normaliser rejects, and the error is the normaliser's |
| `Assembler.AssembleIsJoined` | src/lib/utils/converter.ts:387-640 | The document is the elements' outputs concatenated, stopping at the first failure |
| `Assembler.Assemble` | src/lib/utils/converter.ts:387-640 | No contract of its own. `AssembleIsJoined`, `AssembleFailsAtFirstCode`, `AssembleConcat` and `AssembleThemeFree` carry its properties |
| `Assembler.Converted` | src/lib/utils/converter.ts:390-637 | Its ensures only spell out its `seq(...)` body element by element: one conversion per element. `AssembleIsJoined` uses it |
| `Assembler.JoinedFailsAtFirst` | src/lib/utils/converter.ts:387-640 | Joining fails exactly when some part fails, with the first failure's error |
| `Assembler.AssembleFailsAtFirstCode` | src/lib/utils/converter.ts:387-640 | Conversion fails exactly when some code block is rejected by the normaliser, and it reports the first rejected block's error |
| `Assembler.AssembleConcat` | src/lib/utils/converter.ts:387-640 | Converting two element lists back to back gives the concatenation of their outputs |
| `Assembler.ConvertThemeFree` | src/lib/utils/converter.ts:390-637 | The theme never changes whether an element converts. With fonts and colours erased and shading reduced to present-or-absent, both themes give the same blocks |
| `Assembler.ListThemeFree` | src/lib/utils/converter.ts:428-461 | Lists are the same in both themes, up to fonts and colours |
| `Assembler.TableThemeFree` | src/lib/utils/converter.ts:503-600 | Tables are the same in both themes, up to fonts, colours and shading colour |
| `Assembler.AssembleThemeFree` | src/lib/utils/converter.ts:387-640 | The whole document has the same structure in both themes |

## Left out

- markdown-it rendering (Markdown to HTML) and its TOC plugin (`markerPattern`, container class). The model starts from the HTML element tree.
- `DOMParser`. The model takes an abstract tree of elements, text and comments. Tag names are taken as already lower-case. A scoped selector such as `thead tr` only sees ancestors below the queried element; in the browser, ancestors above it also count.
- docx object construction and serialisation, `convertMillimetersToTwip`, and the page-margin arithmetic. Spacing stays in millimetres.
- `convertMarkdownToDocx`'s `async`, `try`/`catch`, console logging and file download. The `RangeError` is a `Failure`, which ends the conversion as the thrown error does.
- The `includeTOC` parameter of `convertElementsToDocx`. It is never read.
- String lengths and offsets count characters, not UTF-16 code units. Characters outside the Basic Multilingual Plane therefore count once, where JavaScript counts them twice.
- `src/lib/stores.ts`, the routes and the tests are not part of this model.
