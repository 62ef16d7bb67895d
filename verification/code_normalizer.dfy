/** The code-block normaliser: `normalizeCodeSpacing` and
    `normalizeStructuredCode`. A code block arrives as its lines; blank lines
    at either end are dropped, then either runs of blank lines are collapsed
    (any language but JSON and YAML) or every line is re-indented from a
    bracket-depth count (JSON and YAML). */
module CodeNormalizer {
  import opened Wrappers
  import opened Strings

  /** The one way normalisation fails: the structured path asks for
      `' '.repeat` of a negative count, which throws a RangeError. The
      field is the index of the offending line. */
  datatype CodeError = NegativeIndent(line: nat)

  /** No two neighbouring lines are both blank. */
  predicate NoAdjacentBlanks(s: seq<string>) {
    forall k :: 0 <= k < |s| - 1 ==> !(IsBlank(s[k]) && IsBlank(s[k + 1]))
  }

  /** The non-blank lines of `s`, in order. */
  function NonBlankLines(s: seq<string>): seq<string>
  {
    if |s| == 0 then []
    else (if IsBlank(s[0]) then [] else [s[0]]) + NonBlankLines(s[1..])
  }

  lemma {:induction false} NonBlankLinesConcat(a: seq<string>, b: seq<string>)
    ensures NonBlankLines(a + b) == NonBlankLines(a) + NonBlankLines(b)
  {
    if |a| > 0 {
      assert (a + b)[1..] == a[1..] + b;
      NonBlankLinesConcat(a[1..], b);
    } else {
      assert a + b == b;
    }
  }

  lemma {:induction false} NonBlankLinesOfBlanks(a: seq<string>)
    requires forall k :: 0 <= k < |a| ==> IsBlank(a[k])
    ensures NonBlankLines(a) == []
  {
    if |a| > 0 {
      NonBlankLinesOfBlanks(a[1..]);
    }
  }

  // ---------------------------------------------------------------------
  // Boundary trimming (the two `while` loops that shift and pop)

  /** How many blank lines the `shift` loop removes from the front. */
  function LeadingBlankCount(lines: seq<string>): (k: nat)
    ensures k <= |lines|
    ensures forall j :: 0 <= j < k ==> IsBlank(lines[j])
    ensures k == |lines| || !IsBlank(lines[k])
  {
    if |lines| > 0 && Trim(lines[0]) == "" then 1 + LeadingBlankCount(lines[1..]) else 0
  }

  /** How many blank lines the `pop` loop removes from the back. */
  function TrailingBlankCount(lines: seq<string>): (k: nat)
    ensures k <= |lines|
    ensures forall j :: |lines| - k <= j < |lines| ==> IsBlank(lines[j])
    ensures k == |lines| || !IsBlank(lines[|lines| - k - 1])
  {
    if |lines| > 0 && Trim(lines[|lines| - 1]) == "" then 1 + TrailingBlankCount(lines[..|lines| - 1]) else 0
  }

  /** Both boundary loops: the blank lines in front are shifted off, then
      those at the back are popped. */
  function TrimBoundaryBlanks(lines: seq<string>): seq<string>
  {
    var front := lines[LeadingBlankCount(lines)..];
    front[..|front| - TrailingBlankCount(front)]
  }

  /** What the boundary loops leave starts and ends with a non-blank line,
      is empty exactly when every line was blank, and keeps every non-blank
      line of the input. */
  lemma {:induction false} TrimBoundaryBlanksFacts(lines: seq<string>)
    ensures var r := TrimBoundaryBlanks(lines);
      && (|r| == 0 || (!IsBlank(r[0]) && !IsBlank(r[|r| - 1])))
      && ((forall k :: 0 <= k < |lines| ==> IsBlank(lines[k])) <==> r == [])
      && NonBlankLines(r) == NonBlankLines(lines)
  {
    var a := LeadingBlankCount(lines);
    var front := lines[a..];
    var b := TrailingBlankCount(front);
    TrailingInLines(lines, a, b);
    assert TrimBoundaryBlanks(lines) == lines[a..|lines| - b];
    TrimBoundaryFacts(lines, a, b);
  }

  /** The trailing count taken on the suffix, read on the whole input. */
  lemma {:induction false} TrailingInLines(lines: seq<string>, a: nat, b: nat)
    requires a <= |lines| && b == TrailingBlankCount(lines[a..])
    ensures a + b <= |lines|
    ensures forall j :: |lines| - b <= j < |lines| ==> IsBlank(lines[j])
    ensures a + b < |lines| ==> !IsBlank(lines[|lines| - b - 1])
    ensures lines[a..][..|lines| - a - b] == lines[a..|lines| - b]
  {
    var front := lines[a..];
    if a + b < |lines| {
      assert front[|front| - b - 1] == lines[|lines| - b - 1];
    }
    forall j | |lines| - b <= j < |lines| ensures IsBlank(lines[j]) {
      assert lines[j] == front[j - a];
    }
  }

  /** Dropping `a` blank lines in front and `b` at the back keeps every
      non-blank line, and leaves nothing exactly when all lines are blank. */
  lemma {:induction false} TrimBoundaryFacts(lines: seq<string>, a: nat, b: nat)
    requires a + b <= |lines|
    requires forall j :: 0 <= j < a ==> IsBlank(lines[j])
    requires forall j :: |lines| - b <= j < |lines| ==> IsBlank(lines[j])
    requires a < |lines| ==> !IsBlank(lines[a])
    requires a + b < |lines| ==> !IsBlank(lines[|lines| - b - 1])
    ensures var mid := lines[a..|lines| - b]; |mid| == 0 || (!IsBlank(mid[0]) && !IsBlank(mid[|mid| - 1]))
    ensures (forall k :: 0 <= k < |lines| ==> IsBlank(lines[k])) <==> lines[a..|lines| - b] == []
    ensures NonBlankLines(lines[a..|lines| - b]) == NonBlankLines(lines)
  {
    var head, mid, tail := lines[..a], lines[a..|lines| - b], lines[|lines| - b..];
    if |mid| > 0 {
      assert mid[0] == lines[a] && mid[|mid| - 1] == lines[|lines| - b - 1];
    }
    assert lines == head + mid + tail;
    DroppingBlanksKeeps(head, mid, tail);
  }

  /** Blank lines around a middle part carry no non-blank line. */
  lemma {:induction false} DroppingBlanksKeeps(head: seq<string>, mid: seq<string>, tail: seq<string>)
    requires forall j :: 0 <= j < |head| ==> IsBlank(head[j])
    requires forall j :: 0 <= j < |tail| ==> IsBlank(tail[j])
    ensures NonBlankLines(head + mid + tail) == NonBlankLines(mid)
  {
    NonBlankLinesConcat(head + mid, tail);
    NonBlankLinesConcat(head, mid);
    NonBlankLinesOfBlanks(head);
    NonBlankLinesOfBlanks(tail);
  }

  // ---------------------------------------------------------------------
  // Default path: collapse runs of blank lines

  /** Line `i` survives the default path: it is non-blank, or it is the
      first blank line of its run. */
  predicate KeptByCollapse(lines: seq<string>, i: nat)
    requires i < |lines|
  {
    !IsBlank(lines[i]) || i == 0 || !IsBlank(lines[i - 1])
  }

  /** The surviving lines from index `i` on, in order. */
  function CollapseFrom(lines: seq<string>, i: nat): (r: seq<string>)
    requires i <= |lines|
    decreases |lines| - i
    ensures |r| <= |lines| - i
  {
    if i == |lines| then []
    else (if KeptByCollapse(lines, i) then [lines[i]] else []) + CollapseFrom(lines, i + 1)
  }

  /** The collapsed lines never hold two blank lines in a row, and a blank
      line comes first only when it is the input line `i` itself. */
  lemma {:induction false} CollapseShape(lines: seq<string>, i: nat)
    requires i <= |lines|
    decreases |lines| - i
    ensures var r := CollapseFrom(lines, i);
      && NoAdjacentBlanks(r)
      && (|r| > 0 && IsBlank(r[0]) ==> i < |lines| && r[0] == lines[i] && KeptByCollapse(lines, i))
  {
    if i < |lines| {
      CollapseShape(lines, i + 1);
      var piece := if KeptByCollapse(lines, i) then [lines[i]] else [];
      var rest := CollapseFrom(lines, i + 1);
      assert CollapseFrom(lines, i) == piece + rest;
    }
  }

  /** A non-blank first (last) input line is the first (last) collapsed
      line. */
  lemma {:induction false} CollapseEnds(lines: seq<string>, i: nat)
    requires i <= |lines|
    decreases |lines| - i
    ensures var r := CollapseFrom(lines, i);
      && (i < |lines| && !IsBlank(lines[i]) ==> |r| > 0 && r[0] == lines[i])
      && (i < |lines| && !IsBlank(lines[|lines| - 1]) ==> |r| > 0 && r[|r| - 1] == lines[|lines| - 1])
  {
    if i < |lines| {
      CollapseEnds(lines, i + 1);
      if i == |lines| - 1 {
        assert CollapseFrom(lines, i + 1) == [];
      }
    }
  }

  /** The collapsed lines have exactly the non-blank lines of the input, in
      order and verbatim. */
  lemma {:induction false} CollapseKeepsNonBlank(lines: seq<string>, i: nat)
    requires i <= |lines|
    decreases |lines| - i
    ensures NonBlankLines(CollapseFrom(lines, i)) == NonBlankLines(lines[i..])
  {
    if i < |lines| {
      var piece := if KeptByCollapse(lines, i) then [lines[i]] else [];
      CollapseKeepsNonBlank(lines, i + 1);
      assert lines[i..] == [lines[i]] + lines[i + 1..];
      NonBlankLinesConcat(piece, CollapseFrom(lines, i + 1));
      NonBlankLinesConcat([lines[i]], lines[i + 1..]);
    }
  }

  /** The default path: every non-blank line kept verbatim, and of each run
      of blank lines only the first. */
  function CollapseBlankRuns(lines: seq<string>): seq<string>
  {
    CollapseFrom(lines, 0)
  }

  /** The counting loop of the default path, as written: a counter of
      consecutive blank lines, and a blank line is pushed while the counter
      is at most one. */
  method CollapseBlankRunsLoop(lines: seq<string>) returns (normalized: seq<string>)
    ensures normalized == CollapseBlankRuns(lines)
  {
    normalized := [];
    var consecutiveEmpty := 0;
    var i := 0;
    while i < |lines|
      invariant 0 <= i <= |lines|
      invariant consecutiveEmpty >= 0
      invariant consecutiveEmpty == 0 <==> (i == 0 || !IsBlank(lines[i - 1]))
      invariant CollapseBlankRuns(lines) == normalized + CollapseFrom(lines, i)
    {
      var line := lines[i];
      var pushed: seq<string> := [];
      if Trim(line) == "" {
        consecutiveEmpty := consecutiveEmpty + 1;
        if consecutiveEmpty <= 1 {
          pushed := [line];
        }
      } else {
        consecutiveEmpty := 0;
        pushed := [line];
      }
      CollapseAdvance(lines, i, normalized, pushed);
      normalized := normalized + pushed;
      i := i + 1;
    }
    assert normalized + [] == normalized;
  }

  /** Pushing line `i`'s share moves it from the pending lines to the
      collected ones. */
  lemma {:induction false} CollapseAdvance(lines: seq<string>, i: nat, done: seq<string>, pushed: seq<string>)
    requires i < |lines|
    requires pushed == if KeptByCollapse(lines, i) then [lines[i]] else []
    ensures done + CollapseFrom(lines, i) == (done + pushed) + CollapseFrom(lines, i + 1)
  {
    assert CollapseFrom(lines, i) == pushed + CollapseFrom(lines, i + 1);
  }

  // ---------------------------------------------------------------------
  // Structured path (JSON and YAML)

  /** The trimmed line ends with an opening brace or bracket. */
  predicate OpensBlock(line: string) {
    EndsWith(Trim(line), "{") || EndsWith(Trim(line), "[")
  }

  /** The trimmed line starts with a closing brace or bracket. */
  predicate ClosesBlock(line: string) {
    StartsWith(Trim(line), "}") || StartsWith(Trim(line), "]")
  }

  /** What one earlier line adds to the nesting count; the ends-with test
      wins when both apply. */
  function DepthDelta(line: string): int {
    if OpensBlock(line) then 1 else if ClosesBlock(line) then -1 else 0
  }

  /** The nesting count before line `i`: the sum of the deltas of every
      earlier line, blank ones included. */
  function DepthBefore(lines: seq<string>, i: nat): int
    requires i <= |lines|
  {
    if i == 0 then 0 else DepthBefore(lines, i - 1) + DepthDelta(lines[i - 1])
  }

  /** The indentation level of line `i`: a closing line goes one level out,
      but not below zero. */
  function IndentLevel(lines: seq<string>, i: nat): int
    requires i < |lines|
  {
    var d := DepthBefore(lines, i);
    if ClosesBlock(lines[i]) then (if d - 1 < 0 then 0 else d - 1) else d
  }

  /** A non-blank line whose indentation level is negative: `repeat` throws. */
  predicate BadLine(lines: seq<string>, i: nat)
    requires i < |lines|
  {
    !IsBlank(lines[i]) && IndentLevel(lines, i) < 0
  }

  /** A blank line survives as `''` only between a line ending in `}` or
      `},` and a line that starts with a quote and contains `: {`. Missing
      neighbours count as the empty string. */
  predicate KeepsBlank(lines: seq<string>, i: nat)
    requires i < |lines|
  {
    var prev := if i > 0 then Trim(lines[i - 1]) else "";
    var next := if i < |lines| - 1 then Trim(lines[i + 1]) else "";
    (EndsWith(prev, "}") || EndsWith(prev, "},")) && StartsWith(next, "\"") && Contains(next, ": {")
  }

  /** A kept blank line has non-blank neighbours on both sides, so a run of
      two or more blank lines disappears entirely. */
  lemma {:induction false} KeptBlankIsIsolated(lines: seq<string>, i: nat)
    requires i < |lines| && KeepsBlank(lines, i)
    ensures 0 < i < |lines| - 1
    ensures !IsBlank(lines[i - 1]) && !IsBlank(lines[i + 1])
  {
  }

  /** What line `i` contributes: nothing or `''` for a blank line, otherwise
      one line whose trim is the input's trim and whose indentation is
      exactly twice the indentation level, in spaces. */
  function StructuredLine(lines: seq<string>, i: nat): (r: Result<seq<string>, CodeError>)
    requires i < |lines|
    ensures r.Failure? <==> BadLine(lines, i)
    ensures r.Failure? ==> r.error == NegativeIndent(i)
    ensures r.Success? ==> |r.value| <= 1
  {
    var trimmed := Trim(lines[i]);
    if trimmed == "" then
      Success(if KeepsBlank(lines, i) then [""] else [])
    else if IndentLevel(lines, i) * 2 < 0 then
      Failure(NegativeIndent(i))
    else
      Success([Spaces(IndentLevel(lines, i) * 2) + trimmed])
  }

  /** The shape of what a good line contributes. */
  lemma {:induction false} StructuredLineShape(lines: seq<string>, i: nat)
    requires i < |lines|
    ensures StructuredLine(lines, i).Success? && IsBlank(lines[i]) ==>
              StructuredLine(lines, i).value == (if KeepsBlank(lines, i) then [""] else [])
    ensures StructuredLine(lines, i).Success? && !IsBlank(lines[i]) ==>
              && |StructuredLine(lines, i).value| == 1
              && IndentLevel(lines, i) >= 0
              && Trim(StructuredLine(lines, i).value[0]) == Trim(lines[i])
              && |StructuredLine(lines, i).value[0]| - |TrimStart(StructuredLine(lines, i).value[0])| == 2 * IndentLevel(lines, i)
              && (forall j :: 0 <= j < 2 * IndentLevel(lines, i) ==> StructuredLine(lines, i).value[0][j] == ' ')
  {
    var trimmed := Trim(lines[i]);
    if trimmed != "" && IndentLevel(lines, i) * 2 >= 0 {
      var pad := Spaces(IndentLevel(lines, i) * 2);
      TrimPadded(pad, trimmed);
      TrimStartPadded(pad, trimmed);
    }
  }

  /** The structured output from line `i` on: the lines each input line
      contributes, in order. It fails exactly when some line from `i` on is
      bad, and then names the first one. */
  function NormalizeStructuredFrom(lines: seq<string>, i: nat): (r: Result<seq<string>, CodeError>)
    requires i <= |lines|
    decreases |lines| - i
    ensures r.Success? ==> |r.value| <= |lines| - i
  {
    if i == |lines| then Success([])
    else
      match StructuredLine(lines, i)
      case Failure(e) => Failure(e)
      case Success(piece) =>
        match NormalizeStructuredFrom(lines, i + 1)
        case Failure(e) => Failure(e)
        case Success(rest) => Success(piece + rest)
  }

  /** The first bad line from `i` on. */
  function FirstBadLine(lines: seq<string>, i: nat): (r: Option<nat>)
    requires i <= |lines|
    decreases |lines| - i
    ensures r.None? <==> forall j :: i <= j < |lines| ==> !BadLine(lines, j)
    ensures r.Some? ==> && i <= r.value < |lines| && BadLine(lines, r.value)
                        && forall j :: i <= j < r.value ==> !BadLine(lines, j)
  {
    if i == |lines| then None
    else if BadLine(lines, i) then Some(i)
    else FirstBadLine(lines, i + 1)
  }

  /** The structured output fails exactly when some line from `i` on is bad,
      and then it names the first bad line. */
  lemma {:induction false} StructuredFailsAtFirstBad(lines: seq<string>, i: nat)
    requires i <= |lines|
    ensures var r := NormalizeStructuredFrom(lines, i);
      && (r.Failure? <==> exists j :: i <= j < |lines| && BadLine(lines, j))
      && (r.Failure? ==>
            && i <= r.error.line < |lines|
            && BadLine(lines, r.error.line)
            && (forall j :: i <= j < r.error.line ==> !BadLine(lines, j)))
  {
    StructuredFailsLikeFirstBad(lines, i);
  }

  lemma {:induction false} StructuredFailsLikeFirstBad(lines: seq<string>, i: nat)
    requires i <= |lines|
    decreases |lines| - i
    ensures NormalizeStructuredFrom(lines, i).Failure? <==> FirstBadLine(lines, i).Some?
    ensures NormalizeStructuredFrom(lines, i).Failure? ==>
              NormalizeStructuredFrom(lines, i).error == NegativeIndent(FirstBadLine(lines, i).value)
  {
    if i < |lines| {
      StructuredFailsLikeFirstBad(lines, i + 1);
      StructuredFailStep(lines, i);
    }
  }

  /** One line of the structured output: a bad line fails at once, any
      other line passes on the outcome of the rest. */
  lemma {:induction false} StructuredFailStep(lines: seq<string>, i: nat)
    requires i < |lines|
    ensures BadLine(lines, i) ==> NormalizeStructuredFrom(lines, i) == Failure(NegativeIndent(i))
    ensures !BadLine(lines, i) ==>
              (NormalizeStructuredFrom(lines, i).Failure? <==> NormalizeStructuredFrom(lines, i + 1).Failure?)
    ensures !BadLine(lines, i) && NormalizeStructuredFrom(lines, i).Failure? ==>
              NormalizeStructuredFrom(lines, i).error == NormalizeStructuredFrom(lines, i + 1).error
  {
  }

  /** A successful structured output has its blank lines only as `''`
      and never two in a row. */
  lemma {:induction false} StructuredShape(lines: seq<string>, i: nat)
    requires i <= |lines|
    decreases |lines| - i
    requires NormalizeStructuredFrom(lines, i).Success?
    ensures var out := NormalizeStructuredFrom(lines, i).value;
      && NoAdjacentBlanks(out)
      && (forall k :: 0 <= k < |out| && IsBlank(out[k]) ==> out[k] == "")
  {
    if i < |lines| {
      StructuredSplit(lines, i);
      StructuredShape(lines, i + 1);
      var piece := StructuredLine(lines, i).value;
      var rest := NormalizeStructuredFrom(lines, i + 1).value;
      StructuredPieceBlank(lines, i);
      if |piece| == 1 && IsBlank(piece[0]) {
        KeptBlankIsIsolated(lines, i);
        StructuredFirst(lines, i + 1);
      }
      BlankFreeConcat(piece, rest);
    }
  }

  /** One step of the structured loop: a successful run from `i` is line
      `i`'s piece followed by the successful run from `i + 1`. */
  lemma {:induction false} StructuredSplit(lines: seq<string>, i: nat)
    requires i < |lines| && NormalizeStructuredFrom(lines, i).Success?
    ensures StructuredLine(lines, i).Success? && NormalizeStructuredFrom(lines, i + 1).Success?
    ensures NormalizeStructuredFrom(lines, i).value ==
              StructuredLine(lines, i).value + NormalizeStructuredFrom(lines, i + 1).value
  {
  }

  /** A blank piece is the single empty line kept for a blank input line. */
  lemma {:induction false} StructuredPieceBlank(lines: seq<string>, i: nat)
    requires i < |lines| && StructuredLine(lines, i).Success?
    ensures var piece := StructuredLine(lines, i).value;
      && (forall k :: 0 <= k < |piece| && IsBlank(piece[k]) ==> piece[k] == "")
      && (|piece| == 1 && IsBlank(piece[0]) ==> KeepsBlank(lines, i))
  {
    StructuredLineShape(lines, i);
  }

  /** Putting at most one line in front of a run-free sequence whose blank
      lines are all empty keeps it so, unless a blank goes in front of a
      blank. */
  lemma {:induction false} BlankFreeConcat(piece: seq<string>, rest: seq<string>)
    requires |piece| <= 1
    requires forall k :: 0 <= k < |piece| && IsBlank(piece[k]) ==> piece[k] == ""
    requires NoAdjacentBlanks(rest)
    requires forall k :: 0 <= k < |rest| && IsBlank(rest[k]) ==> rest[k] == ""
    requires |piece| == 1 && IsBlank(piece[0]) ==> |rest| > 0 && !IsBlank(rest[0])
    ensures NoAdjacentBlanks(piece + rest)
    ensures forall k :: 0 <= k < |piece + rest| && IsBlank((piece + rest)[k]) ==> (piece + rest)[k] == ""
  {
    var out := piece + rest;
    forall k | 0 <= k < |out| - 1 ensures !(IsBlank(out[k]) && IsBlank(out[k + 1])) {
      if k >= |piece| {
        assert out[k] == rest[k - |piece|] && out[k + 1] == rest[k + 1 - |piece|];
      }
    }
    forall k | 0 <= k < |out| && IsBlank(out[k]) ensures out[k] == "" {
      if k >= |piece| {
        assert out[k] == rest[k - |piece|];
      }
    }
  }

  /** A non-blank input line at `i` gives a non-blank first output line. */
  lemma {:induction false} StructuredFirst(lines: seq<string>, i: nat)
    requires i < |lines|
    requires NormalizeStructuredFrom(lines, i).Success?
    ensures !IsBlank(lines[i]) ==>
              |NormalizeStructuredFrom(lines, i).value| > 0 && !IsBlank(NormalizeStructuredFrom(lines, i).value[0])
  {
    StructuredLineShape(lines, i);
    var piece := StructuredLine(lines, i).value;
    var rest := NormalizeStructuredFrom(lines, i + 1).value;
    assert NormalizeStructuredFrom(lines, i).value == piece + rest;
  }

  /** A non-blank last input line gives a non-blank last output line. */
  lemma {:induction false} StructuredLast(lines: seq<string>, i: nat)
    requires i <= |lines|
    decreases |lines| - i
    requires NormalizeStructuredFrom(lines, i).Success?
    ensures var out := NormalizeStructuredFrom(lines, i).value;
      i < |lines| && !IsBlank(lines[|lines| - 1]) ==> |out| > 0 && !IsBlank(out[|out| - 1])
  {
    if i == |lines| - 1 {
      StructuredLastLine(lines);
    } else if i < |lines| - 1 {
      StructuredLastStep(lines, i);
      StructuredLast(lines, i + 1);
    }
  }

  /** The last line alone. */
  lemma {:induction false} StructuredLastLine(lines: seq<string>)
    requires |lines| > 0
    requires NormalizeStructuredFrom(lines, |lines| - 1).Success?
    ensures var out := NormalizeStructuredFrom(lines, |lines| - 1).value;
      !IsBlank(lines[|lines| - 1]) ==> |out| > 0 && !IsBlank(out[|out| - 1])
  {
    var i := |lines| - 1;
    assert NormalizeStructuredFrom(lines, i + 1) == Success([]);
    assert NormalizeStructuredFrom(lines, i).value == StructuredLine(lines, i).value + [];
    StructuredFirst(lines, i);
  }

  /** A non-empty rest supplies the last line. */
  lemma {:induction false} StructuredLastStep(lines: seq<string>, i: nat)
    requires i < |lines| && NormalizeStructuredFrom(lines, i).Success?
    ensures NormalizeStructuredFrom(lines, i + 1).Success?
    ensures var out, rest := NormalizeStructuredFrom(lines, i).value, NormalizeStructuredFrom(lines, i + 1).value;
      |rest| > 0 ==> |out| > 0 && out[|out| - 1] == rest[|rest| - 1]
  {
    var piece := StructuredLine(lines, i).value;
    var rest := NormalizeStructuredFrom(lines, i + 1).value;
    assert NormalizeStructuredFrom(lines, i).value == piece + rest;
    if |rest| > 0 {
      LastOfConcat(piece, rest);
    }
  }

  lemma {:induction false} LastOfConcat<T>(a: seq<T>, b: seq<T>)
    requires |b| > 0
    ensures |a + b| > 0 && (a + b)[|a + b| - 1] == b[|b| - 1]
  {
  }

  /** `normalizeStructuredCode`. */
  function NormalizeStructured(lines: seq<string>): Result<seq<string>, CodeError>
  {
    NormalizeStructuredFrom(lines, 0)
  }

  /** Puts already emitted lines in front of a result. */
  function Prefixed(out: seq<string>, r: Result<seq<string>, CodeError>): Result<seq<string>, CodeError>
  {
    match r
    case Success(rest) => Success(out + rest)
    case Failure(e) => Failure(e)
  }

  /** One step of the line-by-line definition, with output already emitted
      in front of it. */
  lemma {:induction false} StructuredStep(lines: seq<string>, i: nat, out: seq<string>)
    requires i < |lines|
    ensures StructuredLine(lines, i).Failure? ==>
              Prefixed(out, NormalizeStructuredFrom(lines, i)) == Failure(NegativeIndent(i))
    ensures StructuredLine(lines, i).Success? ==>
              Prefixed(out, NormalizeStructuredFrom(lines, i))
              == Prefixed(out + StructuredLine(lines, i).value, NormalizeStructuredFrom(lines, i + 1))
  {
    if StructuredLine(lines, i).Success? {
      var piece := StructuredLine(lines, i).value;
      match NormalizeStructuredFrom(lines, i + 1)
      case Success(rest) => assert out + (piece + rest) == (out + piece) + rest;
      case Failure(_) =>
    }
  }

  /** The three cases of one line, spelled out for the loop below. */
  lemma {:induction false} StructuredLineCases(lines: seq<string>, i: nat)
    requires i < |lines|
    ensures Trim(lines[i]) == "" ==>
              StructuredLine(lines, i) == Success(if KeepsBlank(lines, i) then [""] else [])
    ensures Trim(lines[i]) != "" && IndentLevel(lines, i) * 2 < 0 ==>
              StructuredLine(lines, i) == Failure(NegativeIndent(i))
    ensures Trim(lines[i]) != "" && IndentLevel(lines, i) * 2 >= 0 ==>
              StructuredLine(lines, i) == Success([Spaces(IndentLevel(lines, i) * 2) + Trim(lines[i])])
  {
  }

  /** The inner loop of `normalizeStructuredCode`: rescans every line before
      line `i` and counts openings up and closings down. */
  method NestingBefore(lines: seq<string>, i: nat) returns (indentLevel: int)
    requires i <= |lines|
    ensures indentLevel == DepthBefore(lines, i)
  {
    indentLevel := 0;
    var j := 0;
    while j < i
      invariant 0 <= j <= i
      invariant indentLevel == DepthBefore(lines, j)
    {
      var prevTrimmed := Trim(lines[j]);
      if EndsWith(prevTrimmed, "{") || EndsWith(prevTrimmed, "[") {
        indentLevel := indentLevel + 1;
      } else if StartsWith(prevTrimmed, "}") || StartsWith(prevTrimmed, "]") {
        indentLevel := indentLevel - 1;
      }
      j := j + 1;
    }
  }

  /** The body of the outer loop of `normalizeStructuredCode` for line `i`:
      the lines it pushes, or the RangeError `repeat` throws. */
  method StructuredLineLoop(lines: seq<string>, i: nat) returns (piece: Result<seq<string>, CodeError>)
    requires i < |lines|
    ensures piece == StructuredLine(lines, i)
  {
    var indentSize := 2;
    var trimmed := Trim(lines[i]);
    StructuredLineCases(lines, i);
    if trimmed == "" {
      var prevLine := if i > 0 then Trim(lines[i - 1]) else "";
      var nextLine := if i < |lines| - 1 then Trim(lines[i + 1]) else "";
      if (EndsWith(prevLine, "}") || EndsWith(prevLine, "},"))
         && StartsWith(nextLine, "\"") && Contains(nextLine, ": {")
      {
        return Success([""]);
      }
      return Success([]);
    }
    var indentLevel := NestingBefore(lines, i);
    if StartsWith(trimmed, "}") || StartsWith(trimmed, "]") {
      indentLevel := if indentLevel - 1 < 0 then 0 else indentLevel - 1;
    }
    assert indentLevel == IndentLevel(lines, i);
    if indentLevel * indentSize < 0 {
      return Failure(NegativeIndent(i));
    }
    var properIndent := Spaces(indentLevel * indentSize);
    return Success([properIndent + trimmed]);
  }

  /** `normalizeStructuredCode` as written: for every line the nesting count
      is recomputed by rescanning all earlier lines. It computes the
      structured output defined line by line above. */
  method NormalizeStructuredLoop(lines: seq<string>) returns (r: Result<seq<string>, CodeError>)
    ensures r == NormalizeStructured(lines)
  {
    var normalized: seq<string> := [];
    match NormalizeStructured(lines) {
      case Success(out) => assert [] + out == out;
      case Failure(_) =>
    }
    var i := 0;
    while i < |lines|
      invariant 0 <= i <= |lines|
      invariant NormalizeStructured(lines) == Prefixed(normalized, NormalizeStructuredFrom(lines, i))
    {
      StructuredStep(lines, i, normalized);
      var piece := StructuredLineLoop(lines, i);
      match piece {
        case Failure(e) => return Failure(e);
        case Success(pushed) => normalized := normalized + pushed;
      }
      i := i + 1;
    }
    assert normalized + [] == normalized;
    return Success(normalized);
  }

  /** A JSON block that closes before it opens: the second line sits at
      depth -1 and is not itself a closing line, so `repeat` is asked for
      -2 spaces and the normaliser fails on that line. */
  lemma {:induction false} NegativeIndentExample(lines: seq<string>)
    requires lines == ["}", "x"]
    ensures NormalizeCodeSpacing(lines, "json") == Failure(NegativeIndent(1))
  {
    ExampleKeepsBoundary(lines);
    ExampleLines(lines);
    assert NormalizeStructuredFrom(lines, 1) == Failure(NegativeIndent(1));
  }

  lemma {:induction false} ExampleTrims()
    ensures Trim("}") == "}" && Trim("x") == "x"
  {
    assert "" + "}" == "}" && "" + "x" == "x";
    TrimPadded("", "}");
    TrimPadded("", "x");
  }

  /** Neither line is blank, so the boundary loops leave both. */
  lemma {:induction false} ExampleKeepsBoundary(lines: seq<string>)
    requires lines == ["}", "x"]
    ensures TrimBoundaryBlanks(lines) == lines
  {
    ExampleTrims();
    assert LeadingBlankCount(lines) == 0;
    assert lines[0..] == lines;
    assert TrailingBlankCount(lines) == 0;
  }

  /** The closing line stays at level 0; the next one lands at -1. */
  lemma {:induction false} ExampleLines(lines: seq<string>)
    requires lines == ["}", "x"]
    ensures StructuredLine(lines, 0).Success?
    ensures StructuredLine(lines, 1) == Failure(NegativeIndent(1))
  {
    ExampleDepths(lines);
    assert !BadLine(lines, 0) && BadLine(lines, 1);
  }

  lemma {:induction false} ExampleDepths(lines: seq<string>)
    requires lines == ["}", "x"]
    ensures !IsBlank(lines[0]) && !IsBlank(lines[1])
    ensures IndentLevel(lines, 0) == 0 && IndentLevel(lines, 1) == -1
  {
    ExampleShapes();
    assert lines[0] == "}" && lines[1] == "x";
    assert DepthBefore(lines, 0) == 0;
    assert DepthDelta(lines[0]) == -1;
    assert DepthBefore(lines, 1) == -1;
  }

  lemma {:induction false} ExampleShapes()
    ensures !IsBlank("}") && !IsBlank("x")
    ensures !OpensBlock("}") && ClosesBlock("}") && !ClosesBlock("x")
  {
    ExampleTrims();
    assert "}"[0..] == "}" && "}"[..1] == "}" && "x"[..1] == "x";
    assert !EndsWith("}", "{") && !EndsWith("}", "[");
    assert StartsWith("}", "}");
    assert !StartsWith("x", "}") && !StartsWith("x", "]");
  }

  // ---------------------------------------------------------------------
  // Entry point

  /** The languages whose code is re-indented. */
  predicate IsStructured(language: string) {
    language == "json" || language == "yaml"
  }

  /** `normalizeCodeSpacing`: the boundary loops, then the path the
      language picks. */
  function NormalizeCodeSpacing(lines: seq<string>, language: string): Result<seq<string>, CodeError>
  {
    if |lines| == 0 then Success(lines)
    else NormalizeTrimmed(TrimBoundaryBlanks(lines), language)
  }

  /** Both paths, after the boundary loops have left `t`. */
  function NormalizeTrimmed(t: seq<string>, language: string): Result<seq<string>, CodeError>
  {
    if IsStructured(language) then NormalizeStructured(t) else Success(CollapseBlankRuns(t))
  }

  /** An empty input comes back as it is and an all-blank one as no lines;
      the result never starts or ends with a blank line and never has two
      blank lines in a row. Only the structured path can fail. On the
      default path every non-blank line is kept, in order. */
  lemma {:induction false} NormalizeCodeSpacingFacts(lines: seq<string>, language: string)
    ensures var r := NormalizeCodeSpacing(lines, language);
      && (lines == [] ==> r == Success(lines))
      && ((forall k :: 0 <= k < |lines| ==> IsBlank(lines[k])) ==> r == Success([]))
      && (r.Success? ==> NoAdjacentBlanks(r.value))
      && (r.Success? && |r.value| > 0 ==> !IsBlank(r.value[0]) && !IsBlank(r.value[|r.value| - 1]))
      && (r.Failure? ==> IsStructured(language))
      && (!IsStructured(language) ==> r.Success? && NonBlankLines(r.value) == NonBlankLines(lines))
  {
    if |lines| > 0 {
      TrimBoundaryBlanksFacts(lines);
      NormalizeTrimmedFacts(TrimBoundaryBlanks(lines), language);
    }
  }

  /** What the two paths promise of the lines `t` the boundary loops left. */
  lemma {:induction false} NormalizeTrimmedFacts(t: seq<string>, language: string)
    ensures var r := NormalizeTrimmed(t, language);
      && (t == [] ==> r == Success([]))
      && (r.Success? ==> NoAdjacentBlanks(r.value))
      && (r.Success? && |r.value| > 0 && |t| > 0 && !IsBlank(t[0]) && !IsBlank(t[|t| - 1]) ==>
            !IsBlank(r.value[0]) && !IsBlank(r.value[|r.value| - 1]))
      && (r.Failure? ==> IsStructured(language))
      && (!IsStructured(language) ==> r.Success? && NonBlankLines(r.value) == NonBlankLines(t))
  {
    if IsStructured(language) {
      StructuredPath(t, NormalizeStructured(t));
    } else {
      DefaultPath(t, CollapseBlankRuns(t));
    }
  }

  /** The structured path after the boundary loops. */
  lemma {:induction false} StructuredPath(t: seq<string>, r: Result<seq<string>, CodeError>)
    requires r == NormalizeStructured(t)
    ensures t == [] ==> r == Success([])
    ensures r.Success? ==> NoAdjacentBlanks(r.value)
    ensures r.Success? && |t| > 0 && !IsBlank(t[0]) && !IsBlank(t[|t| - 1]) ==>
              |r.value| > 0 && !IsBlank(r.value[0]) && !IsBlank(r.value[|r.value| - 1])
  {
    if r.Success? {
      StructuredShape(t, 0);
      if |t| > 0 {
        StructuredFirst(t, 0);
        StructuredLast(t, 0);
      }
    }
  }

  /** The default path after the boundary loops. */
  lemma {:induction false} DefaultPath(t: seq<string>, r: seq<string>)
    requires r == CollapseBlankRuns(t)
    ensures t == [] ==> r == []
    ensures NoAdjacentBlanks(r)
    ensures |t| > 0 && !IsBlank(t[0]) && !IsBlank(t[|t| - 1]) ==>
              |r| > 0 && !IsBlank(r[0]) && !IsBlank(r[|r| - 1])
    ensures NonBlankLines(r) == NonBlankLines(t)
  {
    assert t[0..] == t;
    CollapseShape(t, 0);
    CollapseEnds(t, 0);
    CollapseKeepsNonBlank(t, 0);
  }
}
