/** The table-of-contents marker insertion done before the markdown is
    rendered: when a table of contents is asked for and the text has no
    `[[toc]]` marker yet, one is put on its own line after the first level-1
    heading line, or at the very top when the text has no level-1 heading. */
module Toc {
  import opened Wrappers
  import opened Strings

  /** The marker the table-of-contents plugin replaces. */
  const Marker: string := "[[toc]]"

  /** `/^#\s/m` matches at offset `p`: a `#` at the start of the text or
      right after a line terminator, followed by white space. */
  predicate HeadingStartAt(s: string, p: nat) {
    p + 1 < |s| && s[p] == '#' && IsWhite(s[p + 1]) && (p == 0 || IsLineTerminator(s[p - 1]))
  }

  /** `markdown.search(/^#\s/m) !== -1`. */
  predicate HasHeadingStart(s: string) {
    exists p :: 0 <= p < |s| && HeadingStartAt(s, p)
  }

  /** The search, offset by offset from `p`. */
  function SearchFrom(s: string, p: nat): (r: bool)
    decreases |s| - p
    ensures r <==> exists q :: p <= q < |s| && HeadingStartAt(s, q)
  {
    if p >= |s| then false
    else if HeadingStartAt(s, p) then true
    else
      var r := SearchFrom(s, p + 1);
      assert forall q :: p <= q < |s| && HeadingStartAt(s, q) ==> q == p || p + 1 <= q;
      r
  }

  /** `/^#\s/` on one line: the line starts with `#` and white space. */
  predicate IsHeadingLine(line: string) {
    |line| >= 2 && line[0] == '#' && IsWhite(line[1])
  }

  /** The index of the first heading line from `i` on. */
  function FirstHeadingLine(lines: seq<string>, i: nat): (r: Option<nat>)
    requires i <= |lines|
    decreases |lines| - i
    ensures r.None? <==> forall j :: i <= j < |lines| ==> !IsHeadingLine(lines[j])
    ensures r.Some? ==> i <= r.value < |lines| && IsHeadingLine(lines[r.value])
                        && forall j :: i <= j < r.value ==> !IsHeadingLine(lines[j])
  {
    if i == |lines| then None
    else if IsHeadingLine(lines[i]) then Some(i)
    else FirstHeadingLine(lines, i + 1)
  }

  /** Where the loop leaves `insertIndex`: just after the first heading line,
      or 0 when no line is one. */
  function InsertIndex(lines: seq<string>): (k: nat)
    ensures k <= |lines|
  {
    match FirstHeadingLine(lines, 0)
    case None => 0
    case Some(i) => i + 1
  }

  /** The three lines spliced in. */
  const Inserted: seq<string> := ["", Marker, ""]

  /** The marker insertion, as a function of the text and the option. */
  function InsertToc(markdown: string, includeToc: bool): (r: string)
    ensures !includeToc || Contains(markdown, Marker) ==> r == markdown
    ensures includeToc && !Contains(markdown, Marker) && !HasHeadingStart(markdown) ==>
              r == Marker + "\n\n" + markdown
  {
    if !includeToc || Contains(markdown, Marker) then markdown
    else if SearchFrom(markdown, 0) then
      var lines := Split(markdown, '\n');
      var k := InsertIndex(lines);
      Join(lines[..k] + Inserted + lines[k..], '\n')
    else Marker + "\n\n" + markdown
  }

  // ---------------------------------------------------------------------
  // Properties

  /** Once a marker is asked for, the result has one. */
  lemma {:induction false} TocPresent(markdown: string)
    ensures Contains(InsertToc(markdown, true), Marker)
  {
    if !Contains(markdown, Marker) {
      if SearchFrom(markdown, 0) {
        var lines := Split(markdown, '\n');
        var k := InsertIndex(lines);
        var parts := lines[..k] + Inserted + lines[k..];
        assert parts[k + 1] == Marker;
        JoinHasPart(parts, k + 1, '\n');
      } else {
        ContainsAt(Marker + "\n\n" + markdown, Marker, 0);
      }
    }
  }

  /** When a heading start is found, the lines of the result are the
      lines of the text with `''`, `[[toc]]`, `''` spliced in after the first
      heading line, or at the top when no single line is one; the text's
      own lines are all kept, in order. */
  lemma {:induction false} TocAfterFirstHeadingLine(markdown: string)
    requires !Contains(markdown, Marker) && HasHeadingStart(markdown)
    ensures var lines, k := Split(markdown, '\n'), InsertIndex(Split(markdown, '\n'));
      && Split(InsertToc(markdown, true), '\n') == lines[..k] + Inserted + lines[k..]
      && Join(lines, '\n') == markdown
      && (k > 0 ==> IsHeadingLine(lines[k - 1]) && forall j :: 0 <= j < k - 1 ==> !IsHeadingLine(lines[j]))
      && (k == 0 ==> forall j :: 0 <= j < |lines| ==> !IsHeadingLine(lines[j]))
  {
    var lines := Split(markdown, '\n');
    var k := InsertIndex(lines);
    var parts := lines[..k] + Inserted + lines[k..];
    forall i | 0 <= i < |parts| ensures '\n' !in parts[i] {
      if i < k {
        assert parts[i] == lines[i];
      } else if i >= k + 3 {
        assert parts[i] == lines[i - 3];
      }
    }
    SplitJoin(parts, '\n');
    JoinSplit(markdown, '\n');
  }

  /** A heading line anywhere makes the multiline search match, so the
      marker goes to the top of the text only when no line is a heading
      line. */
  lemma {:induction false} HeadingLineStartsHeading(lines: seq<string>, i: nat)
    requires i < |lines| && IsHeadingLine(lines[i])
    decreases |lines|
    ensures HasHeadingStart(Join(lines, '\n'))
  {
    var s := Join(lines, '\n');
    if |lines| == 1 {
      assert HeadingStartAt(s, 0);
    } else {
      var rest := Join(lines[1..], '\n');
      assert s == lines[0] + ['\n'] + rest;
      if i == 0 {
        assert s[0] == lines[0][0] && s[1] == lines[0][1];
        assert HeadingStartAt(s, 0);
      } else {
        assert lines[1..][i - 1] == lines[i];
        HeadingLineStartsHeading(lines[1..], i - 1);
        var q :| 0 <= q < |rest| && HeadingStartAt(rest, q);
        var p := |lines[0]| + 1 + q;
        assert s[p] == rest[q] && s[p + 1] == rest[q + 1];
        assert s[p - 1] == (if q == 0 then '\n' else rest[q - 1]);
        assert HeadingStartAt(s, p);
      }
    }
  }

  /** The same, stated on the text: a heading line of the text means the
      search finds a heading start. */
  lemma {:induction false} HeadingLineMeansSearchHit(markdown: string, i: nat)
    requires i < |Split(markdown, '\n')| && IsHeadingLine(Split(markdown, '\n')[i])
    ensures HasHeadingStart(markdown)
  {
    HeadingLineStartsHeading(Split(markdown, '\n'), i);
    JoinSplit(markdown, '\n');
  }

  /** A bare `#` line: the multiline search matches at its `#` (the line
      break is the white space), yet no line matches on its own, so the
      marker lines go to the very top. */
  lemma {:induction false} BareHashGoesToTop(t: string)
    requires t == "#\nx"
    ensures InsertToc(t, true) == "\n[[toc]]\n\n#\nx"
  {
    assert HeadingStartAt(t, 0);
    TooShortToContain(t, Marker);
    assert Split(t, '\n') == ["#", "x"] by {
      assert t == "#" + ['\n'] + "x";
      SplitAfterPiece("#", "x", '\n');
      SplitNoSeparator("x", '\n');
    }
    assert InsertIndex(["#", "x"]) == 0;
    var parts := ["#", "x"][..0] + Inserted + ["#", "x"][0..];
    assert parts == ["", "[[toc]]", "", "#", "x"];
    assert Join(parts, '\n') == "\n[[toc]]\n\n#\nx" by {
      assert Join(["x"], '\n') == "x";
      assert Join(["#", "x"], '\n') == "#\nx";
      assert Join(["", "#", "x"], '\n') == "\n#\nx";
      assert Join(["[[toc]]", "", "#", "x"], '\n') == "[[toc]]\n\n#\nx";
    }
  }

  // ---------------------------------------------------------------------
  // Helpers on `includes` and `join`

  lemma {:induction false} TooShortToContain(s: string, p: string)
    requires |s| < |p|
    decreases |s|
    ensures !Contains(s, p)
  {
    if |s| > 0 {
      TooShortToContain(s[1..], p);
    }
  }

  lemma {:induction false} ContainsInSuffix(a: string, b: string, p: string)
    requires Contains(b, p)
    decreases |a|
    ensures Contains(a + b, p)
  {
    if |a| > 0 {
      assert (a + b)[1..] == a[1..] + b;
      ContainsInSuffix(a[1..], b, p);
    } else {
      assert a + b == b;
    }
  }

  /** Every piece occurs in the joined string. */
  lemma {:induction false} JoinHasPart(parts: seq<string>, j: nat, sep: char)
    requires j < |parts|
    decreases |parts|
    ensures Contains(Join(parts, sep), parts[j])
  {
    if |parts| == 1 {
      ContainsAt(parts[0], parts[0], 0);
    } else if j == 0 {
      ContainsAt(Join(parts, sep), parts[0], 0);
    } else {
      assert parts[1..][j - 1] == parts[j];
      JoinHasPart(parts[1..], j - 1, sep);
      ContainsInSuffix(parts[0] + [sep], Join(parts[1..], sep), parts[j]);
    }
  }
}
