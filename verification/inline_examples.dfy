/** Worked examples of `parseInlineFormatting`, computed from the model:
    they show the overlapping italic matches inside a bold span and the walk
    stepping back over them. */
module InlineExamples {
  import opened Wrappers
  import opened Strings
  import opened Styles
  import opened InlineFormatter

  lemma {:induction false} NotDelimAt(text: string, d: string, p: nat)
    requires |d| > 0 && p < |text| && text[p] != d[0]
    ensures !DelimAt(text, d, p)
  {
    if p + |d| <= |text| {
      assert text[p..p + |d|][0] == text[p];
    }
  }

  /** Offsets that do not hold the delimiter's first character start no
      match, so the scan passes over them. */
  lemma {:induction false} SkipNoDelim(text: string, pat: Pattern, from: nat, to: nat)
    requires |pat.delim| > 0 && from <= to <= |text|
    requires (forall p :: from <= p < to ==> text[p] != pat.delim[0])
    decreases |text| - from
    ensures ScanFrom(text, pat, from) == ScanFrom(text, pat, to)
  {
    if from < to {
      NotDelimAt(text, pat.delim, from);
      SkipNoDelim(text, pat, from + 1, to);
    }
  }

  /** The lazy capture runs on over characters that neither start the
      delimiter nor end the line. */
  lemma {:induction false} CloserSkip(text: string, d: string, from: nat, to: nat)
    requires |d| > 0 && from <= to <= |text|
    requires (forall p :: from <= p < to ==> text[p] != d[0] && !IsLineTerminator(text[p]))
    decreases |text| - from
    ensures FindCloser(text, d, from) == FindCloser(text, d, to)
  {
    if from < to {
      NotDelimAt(text, d, from);
      CloserSkip(text, d, from + 1, to);
    }
  }

  /** The matched patterns, collected pattern after pattern. */
  lemma {:induction false} AllMatchesSplit(text: string)
    ensures AllMatches(text)
            == Scan(text, Patterns[0]) + Scan(text, Patterns[1]) + Scan(text, Patterns[2])
               + Scan(text, Patterns[3]) + Scan(text, Patterns[4])
  {
    var s0, s1, s2, s3, s4 := Scan(text, Patterns[0]), Scan(text, Patterns[1]), Scan(text, Patterns[2]),
                              Scan(text, Patterns[3]), Scan(text, Patterns[4]);
    assert CollectMatches(text, Patterns[..1]) == s0 by {
      CollectStep(text, 0);
      assert Patterns[..0] == [];
    }
    assert CollectMatches(text, Patterns[..2]) == s0 + s1 by {
      CollectStep(text, 1);
    }
    assert CollectMatches(text, Patterns[..3]) == s0 + s1 + s2 by {
      CollectStep(text, 2);
    }
    assert CollectMatches(text, Patterns[..4]) == s0 + s1 + s2 + s3 by {
      CollectStep(text, 3);
    }
    assert CollectMatches(text, Patterns[..5]) == s0 + s1 + s2 + s3 + s4 by {
      CollectStep(text, 4);
    }
    assert Patterns[..5] == Patterns;
  }

  lemma {:induction false} BoldWordBoldScan(t: string)
    requires t == "**bold**"
    ensures Scan(t, Patterns[0]) == [Match(0, 8, Bold, "bold")]
  {
    var bold := Patterns[0];
    assert bold.delim == "**";
    assert FindCloser(t, "**", 2) == Some(6) by {
      CloserSkip(t, "**", 2, 6);
      assert DelimAt(t, "**", 6);
    }
    assert MatchAt(t, bold, 0) == Some(Match(0, 8, Bold, "bold")) by {
      assert DelimAt(t, "**", 0);
      assert t[2..6] == "bold";
    }
    assert ScanFrom(t, bold, 8) == [];
  }

  lemma {:induction false} BoldWordItalicScan(t: string)
    requires t == "**bold**"
    ensures Scan(t, Patterns[1]) == [Match(0, 2, Italic, ""), Match(6, 8, Italic, "")]
  {
    var ital := Patterns[1];
    assert ital.delim == "*";
    assert MatchAt(t, ital, 6) == Some(Match(6, 8, Italic, "")) by {
      assert DelimAt(t, "*", 6) && DelimAt(t, "*", 7);
      assert FindCloser(t, "*", 7) == Some(7);
      assert t[7..7] == "";
      assert MatchAt(t, ital, 6).value.end == 8;
    }
    assert ScanFrom(t, ital, 2) == [Match(6, 8, Italic, "")] by {
      SkipNoDelim(t, ital, 2, 6);
      assert ScanFrom(t, ital, 8) == [];
    }
    assert MatchAt(t, ital, 0) == Some(Match(0, 2, Italic, "")) by {
      assert DelimAt(t, "*", 0) && DelimAt(t, "*", 1);
      assert FindCloser(t, "*", 1) == Some(1);
      assert t[1..1] == "";
      assert MatchAt(t, ital, 0).value.end == 2;
    }
  }

  lemma {:induction false} BoldWordMatches(t: string)
    requires t == "**bold**"
    ensures AllMatches(t) == [Match(0, 8, Bold, "bold"), Match(0, 2, Italic, ""), Match(6, 8, Italic, "")]
  {
    AllMatchesSplit(t);
    BoldWordBoldScan(t);
    BoldWordItalicScan(t);
    BoldWordOtherScans(t);
    var b, i0, i6 := Match(0, 8, Bold, "bold"), Match(0, 2, Italic, ""), Match(6, 8, Italic, "");
    assert [b] + [i0, i6] + [] + [] + [] == [b, i0, i6];
  }

  /** No backtick, tilde or underscore occurs in `**bold**`, so the other three patterns find nothing. */
  lemma {:induction false} BoldWordOtherScans(t: string)
    requires t == "**bold**"
    ensures Scan(t, Patterns[2]) == [] && Scan(t, Patterns[3]) == [] && Scan(t, Patterns[4]) == []
  {
    SkipNoDelim(t, Patterns[2], 0, |t|);
    SkipNoDelim(t, Patterns[3], 0, |t|);
    SkipNoDelim(t, Patterns[4], 0, |t|);
  }

  /** `**bold**` is also two empty italic matches, one at each end; after
      the bold span the walk steps back from offset 8 to 2 and emits the
      word a second time, as plain text. */
  lemma {:induction false} BoldWordExample()
    ensures ParseInline("**bold**") == [Span("bold", Bold), Span("", Italic), Span("bold", Plain), Span("", Italic)]
  {
    BoldWordWalk("**bold**");
  }

  lemma {:induction false} BoldWordWalk(t: string)
    requires t == "**bold**"
    ensures ParseInline(t) == [Span("bold", Bold), Span("", Italic), Span("bold", Plain), Span("", Italic)]
  {
    var ms := [Match(0, 8, Bold, "bold"), Match(0, 2, Italic, ""), Match(6, 8, Italic, "")];
    assert AllMatches(t) == ms by {
      BoldWordMatches(t);
    }
    BoldWordSorted(ms);
    BoldWordSpans(t, ms);
  }

  /** The matches are already in start order, the bold one ahead of the
      italic one at the same offset. */
  lemma {:induction false} BoldWordSorted(ms: seq<Match>)
    requires ms == [Match(0, 8, Bold, "bold"), Match(0, 2, Italic, ""), Match(6, 8, Italic, "")]
    ensures SortByStart(ms) == ms
  {
    var b, i0, i6 := ms[0], ms[1], ms[2];
    assert ms[..2] == [b, i0] && [b, i0][..1] == [b] && [b][..0] == [];
    assert SortByStart([b]) == [b] by {
      assert SortByStart([b]) == Insert(b, SortByStart([]));
    }
    assert Insert(i0, [b]) == [b, i0] by {
      assert Insert(i0, [b]) == [b] + Insert(i0, []);
    }
    assert SortByStart([b, i0]) == [b, i0];
    assert Insert(i6, [i0]) == [i0, i6] by {
      assert Insert(i6, [i0]) == [i0] + Insert(i6, []);
    }
    assert Insert(i6, [b, i0]) == [b, i0, i6] by {
      assert [b, i0][1..] == [i0];
      assert Insert(i6, [b, i0]) == [b] + Insert(i6, [i0]);
    }
  }

  /** The walk over the sorted matches. */
  lemma {:induction false} BoldWordSpans(t: string, ms: seq<Match>)
    requires t == "**bold**"
    requires ms == [Match(0, 8, Bold, "bold"), Match(0, 2, Italic, ""), Match(6, 8, Italic, "")]
    ensures Walk(t, ms, 0) == [Span("bold", Bold), Span("", Italic), Span("bold", Plain), Span("", Italic)]
  {
    var i0, i6 := ms[1], ms[2];
    assert ms[1..] == [i0, i6] && [i0, i6][1..] == [i6] && [i6][1..] == [];
    assert Walk(t, [i6], 2) == [Span(t[2..6], Plain), Span("", Italic)];
    assert t[2..6] == "bold";
  }
}
