/** `parseInlineFormatting`: five delimiter patterns are scanned over the
    paragraph text, their matches are merged by a stable sort on the start
    offset, and a walk over the sorted matches emits formatted spans with
    plain gaps between them. The walk keeps the end of the last match seen,
    not the furthest one, so overlapping matches can make it step back and
    emit the same text twice. */
module InlineFormatter {
  import opened Wrappers
  import opened Strings
  import opened Styles

  /** One emitted text run: its text and its format. */
  datatype Span = Span(text: string, format: Format)

  /** One regular-expression match: the offsets of the whole match (start
      inclusive, end exclusive), the pattern's format and the capture
      between the delimiters. */
  datatype Match = Match(start: nat, end: nat, format: Format, inner: string)

  /** A pattern `/D(.*?)D/g`: its delimiter and the format it applies. */
  datatype Pattern = Pattern(delim: string, format: Format)

  /** The patterns in the order they are tried. */
  const Patterns: seq<Pattern> :=
    [Pattern("**", Bold), Pattern("*", Italic), Pattern("`", Code),
     Pattern("~~", Strike), Pattern("__", Underline)]

  /** The position of a format in the pattern list; `Plain` comes last. */
  function Rank(f: Format): nat {
    match f
    case Bold => 0
    case Italic => 1
    case Code => 2
    case Strike => 3
    case Underline => 4
    case Plain => 5
  }

  lemma {:induction false} PatternRanks(i: nat)
    requires i < |Patterns|
    ensures Rank(Patterns[i].format) == i
    ensures |Patterns[i].delim| > 0 && Patterns[i].format != Plain
  {
  }

  // ---------------------------------------------------------------------
  // One pattern: the lazy regular expression and its global scan

  /** The delimiter occurs in `text` at offset `p`. */
  predicate DelimAt(text: string, d: string, p: nat) {
    p + |d| <= |text| && text[p..p + |d|] == d
  }

  /** No line terminator lies in `text[a..b)`: `.` can match all of it. */
  predicate NoTerminatorIn(text: string, a: nat, b: nat)
    requires a <= b <= |text|
  {
    forall k :: a <= k < b ==> !IsLineTerminator(text[k])
  }

  /** A closing delimiter at `q` for a capture that starts at `from`. */
  predicate IsCloser(text: string, d: string, from: nat, q: nat) {
    from <= q && DelimAt(text, d, q) && NoTerminatorIn(text, from, q)
  }

  /** The lazy `(.*?)` followed by the delimiter, from offset `from`: the
      nearest closer, provided no line terminator comes first. */
  function FindCloser(text: string, d: string, from: nat): (r: Option<nat>)
    requires |d| > 0 && from <= |text|
    decreases |text| - from
    ensures r.Some? ==> IsCloser(text, d, from, r.value)
    ensures r.Some? ==> forall q :: from <= q < r.value ==> !DelimAt(text, d, q)
    ensures r.None? ==> forall q :: !IsCloser(text, d, from, q)
  {
    if DelimAt(text, d, from) then Some(from)
    else if from == |text| || IsLineTerminator(text[from]) then None
    else
      var r := FindCloser(text, d, from + 1);
      assert forall q :: IsCloser(text, d, from, q) ==> q == from || IsCloser(text, d, from + 1, q);
      r
  }

  /** Some closer exists for a capture that starts at `from`. */
  predicate HasCloser(text: string, d: string, from: nat) {
    exists q :: from <= q <= |text| && DelimAt(text, d, q) && NoTerminatorIn(text, from, q)
  }

  /** The regular expression tried exactly at offset `p`: an opening
      delimiter there, then the nearest closer. */
  function MatchAt(text: string, pat: Pattern, p: nat): (r: Option<Match>)
    requires |pat.delim| > 0 && p <= |text|
    ensures r.Some? ==> r.value.start == p < r.value.end <= |text| && r.value.format == pat.format
  {
    var d := pat.delim;
    if !DelimAt(text, d, p) then None
    else
      match FindCloser(text, d, p + |d|)
      case None => None
      case Some(q) => Some(Match(p, q + |d|, pat.format, text[p + |d|..q]))
  }

  /** What a match at `p` is: it exists exactly when the opening delimiter
      is at `p` and some closer follows on the same line; it then ends just
      after the nearest such closer and captures what lies between the
      delimiters, which holds no line terminator. */
  lemma {:induction false} MatchAtMeaning(text: string, pat: Pattern, p: nat)
    requires |pat.delim| > 0 && p <= |text|
    ensures MatchAt(text, pat, p).Some? <==> DelimAt(text, pat.delim, p) && HasCloser(text, pat.delim, p + |pat.delim|)
    ensures MatchAt(text, pat, p).Some? ==>
              var d, m := pat.delim, MatchAt(text, pat, p).value;
              && p + 2 * |d| <= m.end
              && IsCloser(text, d, p + |d|, m.end - |d|)
              && (forall q :: p + |d| <= q < m.end - |d| ==> !DelimAt(text, d, q))
              && m.inner == text[p + |d|..m.end - |d|]
  {
    MatchAtExists(text, pat, p);
    MatchAtShape(text, pat, p);
  }

  lemma {:induction false} MatchAtExists(text: string, pat: Pattern, p: nat)
    requires |pat.delim| > 0 && p <= |text|
    ensures MatchAt(text, pat, p).Some? <==> DelimAt(text, pat.delim, p) && HasCloser(text, pat.delim, p + |pat.delim|)
  {
    var d := pat.delim;
    if DelimAt(text, d, p) {
      var c := FindCloser(text, d, p + |d|);
      if c.Some? {
        assert IsCloser(text, d, p + |d|, c.value);
      } else if HasCloser(text, d, p + |d|) {
        var q :| p + |d| <= q <= |text| && DelimAt(text, d, q) && NoTerminatorIn(text, p + |d|, q);
        assert IsCloser(text, d, p + |d|, q);
        assert false;
      }
    }
  }

  lemma {:induction false} MatchAtShape(text: string, pat: Pattern, p: nat)
    requires |pat.delim| > 0 && p <= |text|
    ensures MatchAt(text, pat, p).Some? ==>
              var d, m := pat.delim, MatchAt(text, pat, p).value;
              && p + 2 * |d| <= m.end
              && IsCloser(text, d, p + |d|, m.end - |d|)
              && (forall q :: p + |d| <= q < m.end - |d| ==> !DelimAt(text, d, q))
              && m.inner == text[p + |d|..m.end - |d|]
  {
    var d := pat.delim;
    if MatchAt(text, pat, p).Some? {
      var q := FindCloser(text, d, p + |d|).value;
      assert MatchAt(text, pat, p).value == Match(p, q + |d|, pat.format, text[p + |d|..q]);
    }
  }

  /** No match of the pattern starts anywhere in `[a, b)`. */
  predicate NoMatchIn(text: string, pat: Pattern, a: nat, b: nat)
    requires |pat.delim| > 0 && b <= |text|
  {
    forall p :: a <= p < b ==> MatchAt(text, pat, p).None?
  }

  /** The repeated `exec` of a global regular expression from offset
      `from`: try each offset in turn, and after a match resume at its end. */
  function ScanFrom(text: string, pat: Pattern, from: nat): (r: seq<Match>)
    requires |pat.delim| > 0 && from <= |text|
    decreases |text| - from
    ensures forall i :: 0 <= i < |r| ==> from <= r[i].start < r[i].end <= |text| && r[i].format == pat.format
  {
    if from == |text| then []
    else
      match MatchAt(text, pat, from)
      case Some(m) => [m] + ScanFrom(text, pat, m.end)
      case None => ScanFrom(text, pat, from + 1)
  }

  /** Where the `i`-th gap of a scan from `from` begins: at `from`, then at
      the end of each match. */
  function GapStart(from: nat, ms: seq<Match>, i: nat): nat
    requires i <= |ms|
  {
    if i == 0 then from else ms[i - 1].end
  }

  /** Where the `i`-th gap ends: at the start of the next match, the last
      one at the end of the text. */
  function GapEnd(text: string, ms: seq<Match>, i: nat): nat
    requires i <= |ms|
  {
    if i == |ms| then |text| else ms[i].start
  }

  /** What a global scan from `from` is, independently of how it is
      computed: every element is the match at its own start, the matches
      come in order without overlapping, and none of the offsets between
      them starts a match. */
  predicate IsScan(text: string, pat: Pattern, from: nat, ms: seq<Match>)
    requires |pat.delim| > 0 && from <= |text|
  {
    && (forall i :: 0 <= i < |ms| ==> ms[i].start <= |text| && MatchAt(text, pat, ms[i].start) == Some(ms[i]))
    && (forall i :: 0 <= i <= |ms| ==>
          GapStart(from, ms, i) <= GapEnd(text, ms, i) && NoMatchIn(text, pat, GapStart(from, ms, i), GapEnd(text, ms, i)))
  }

  /** At the end of the text a scan is empty. */
  lemma {:induction false} ScanAtEnd(text: string, pat: Pattern, ms: seq<Match>)
    requires |pat.delim| > 0
    ensures IsScan(text, pat, |text|, ms) <==> ms == []
  {
    if |ms| > 0 {
      if ms[0].start <= |text| && MatchAt(text, pat, ms[0].start) == Some(ms[0]) {
        assert GapEnd(text, ms, 0) < GapStart(|text|, ms, 0);
      }
    }
  }

  /** A match at `from` must head the scan from `from`, and the scan goes
      on from its end. */
  lemma {:induction false} ScanAfterMatch(text: string, pat: Pattern, from: nat, m: Match, rest: seq<Match>)
    requires |pat.delim| > 0 && from <= |text|
    requires MatchAt(text, pat, from) == Some(m)
    ensures IsScan(text, pat, from, [m] + rest) <==> IsScan(text, pat, m.end, rest)
  {
    if IsScan(text, pat, from, [m] + rest) {
      ScanTail(text, pat, from, m, rest);
    }
    if IsScan(text, pat, m.end, rest) {
      ScanCons(text, pat, from, m, rest);
    }
  }

  lemma {:induction false} GapShift(text: string, from: nat, m: Match, rest: seq<Match>, i: nat)
    requires i <= |rest|
    ensures GapStart(from, [m] + rest, i + 1) == GapStart(m.end, rest, i)
    ensures GapEnd(text, [m] + rest, i + 1) == GapEnd(text, rest, i)
  {
    if i > 0 {
      assert ([m] + rest)[i] == rest[i - 1];
    }
    if i < |rest| {
      assert ([m] + rest)[i + 1] == rest[i];
    }
  }

  lemma {:induction false} ScanTail(text: string, pat: Pattern, from: nat, m: Match, rest: seq<Match>)
    requires |pat.delim| > 0 && from <= |text|
    requires MatchAt(text, pat, from) == Some(m)
    requires IsScan(text, pat, from, [m] + rest)
    ensures IsScan(text, pat, m.end, rest)
  {
    var ms := [m] + rest;
    forall i | 0 <= i < |rest|
      ensures rest[i].start <= |text| && MatchAt(text, pat, rest[i].start) == Some(rest[i])
    {
      assert ms[i + 1] == rest[i];
    }
    forall i | 0 <= i <= |rest|
      ensures GapStart(m.end, rest, i) <= GapEnd(text, rest, i)
      ensures NoMatchIn(text, pat, GapStart(m.end, rest, i), GapEnd(text, rest, i))
    {
      GapShift(text, from, m, rest, i);
      assert 0 <= i + 1 <= |ms|;
    }
  }

  lemma {:induction false} ScanCons(text: string, pat: Pattern, from: nat, m: Match, rest: seq<Match>)
    requires |pat.delim| > 0 && from <= |text|
    requires MatchAt(text, pat, from) == Some(m)
    requires IsScan(text, pat, m.end, rest)
    ensures IsScan(text, pat, from, [m] + rest)
  {
    var ms := [m] + rest;
    forall i | 0 <= i < |ms|
      ensures ms[i].start <= |text| && MatchAt(text, pat, ms[i].start) == Some(ms[i])
    {
      if i > 0 {
        assert ms[i] == rest[i - 1];
      }
    }
    forall i | 0 <= i <= |ms|
      ensures GapStart(from, ms, i) <= GapEnd(text, ms, i)
      ensures NoMatchIn(text, pat, GapStart(from, ms, i), GapEnd(text, ms, i))
    {
      if i > 0 {
        GapShift(text, from, m, rest, i - 1);
      }
    }
  }

  /** An offset without a match can be skipped. */
  lemma {:induction false} ScanSkips(text: string, pat: Pattern, from: nat, ms: seq<Match>)
    requires |pat.delim| > 0 && from < |text|
    requires MatchAt(text, pat, from).None?
    ensures IsScan(text, pat, from, ms) <==> IsScan(text, pat, from + 1, ms)
  {
    if IsScan(text, pat, from, ms) {
      ScanSkipsForward(text, pat, from, ms);
    }
    if IsScan(text, pat, from + 1, ms) {
      ScanSkipsBack(text, pat, from, ms);
    }
  }

  lemma {:induction false} ScanSkipsForward(text: string, pat: Pattern, from: nat, ms: seq<Match>)
    requires |pat.delim| > 0 && from < |text|
    requires MatchAt(text, pat, from).None?
    requires IsScan(text, pat, from, ms)
    ensures IsScan(text, pat, from + 1, ms)
  {
    forall i | 0 <= i <= |ms|
      ensures GapStart(from + 1, ms, i) <= GapEnd(text, ms, i)
      ensures NoMatchIn(text, pat, GapStart(from + 1, ms, i), GapEnd(text, ms, i))
    {
      assert GapStart(from, ms, i) <= GapEnd(text, ms, i);
      assert NoMatchIn(text, pat, GapStart(from, ms, i), GapEnd(text, ms, i));
      if i == 0 && |ms| > 0 {
        assert MatchAt(text, pat, ms[0].start) == Some(ms[0]);
      }
    }
  }

  lemma {:induction false} ScanSkipsBack(text: string, pat: Pattern, from: nat, ms: seq<Match>)
    requires |pat.delim| > 0 && from < |text|
    requires MatchAt(text, pat, from).None?
    requires IsScan(text, pat, from + 1, ms)
    ensures IsScan(text, pat, from, ms)
  {
    forall i | 0 <= i <= |ms|
      ensures GapStart(from, ms, i) <= GapEnd(text, ms, i)
      ensures NoMatchIn(text, pat, GapStart(from, ms, i), GapEnd(text, ms, i))
    {
      assert GapStart(from + 1, ms, i) <= GapEnd(text, ms, i);
      assert NoMatchIn(text, pat, GapStart(from + 1, ms, i), GapEnd(text, ms, i));
      if i == 0 {
        var e := GapEnd(text, ms, 0);
        forall p | from <= p < e ensures MatchAt(text, pat, p).None? {
          if p > from {
            assert from + 1 <= p < e;
          }
        }
      }
    }
  }

  /** The scan finds the leftmost matches and resumes after each. */
  lemma {:induction false} ScanFromIsScan(text: string, pat: Pattern, from: nat)
    requires |pat.delim| > 0 && from <= |text|
    decreases |text| - from
    ensures IsScan(text, pat, from, ScanFrom(text, pat, from))
  {
    if from == |text| {
      ScanAtEnd(text, pat, []);
    } else {
      match MatchAt(text, pat, from)
      case Some(m) =>
        ScanFromIsScan(text, pat, m.end);
        ScanAfterMatch(text, pat, from, m, ScanFrom(text, pat, m.end));
      case None =>
        ScanFromIsScan(text, pat, from + 1);
        ScanSkips(text, pat, from, ScanFrom(text, pat, from + 1));
    }
  }

  /** A scan is determined by the text: any sequence with the properties
      of a scan is the one the repeated `exec` produces. */
  lemma {:induction false} ScanIsUnique(text: string, pat: Pattern, from: nat, ms: seq<Match>)
    requires |pat.delim| > 0 && from <= |text|
    requires IsScan(text, pat, from, ms)
    decreases |text| - from
    ensures ms == ScanFrom(text, pat, from)
  {
    if from == |text| {
      ScanAtEnd(text, pat, ms);
    } else {
      match MatchAt(text, pat, from)
      case Some(m) =>
        ScanHead(text, pat, from, m, ms);
        assert ms == [m] + ms[1..];
        ScanTail(text, pat, from, m, ms[1..]);
        ScanIsUnique(text, pat, m.end, ms[1..]);
      case None =>
        ScanSkips(text, pat, from, ms);
        ScanIsUnique(text, pat, from + 1, ms);
    }
  }

  /** A match at the scan's start offset is the scan's first element. */
  lemma {:induction false} ScanHead(text: string, pat: Pattern, from: nat, m: Match, ms: seq<Match>)
    requires |pat.delim| > 0 && from <= |text|
    requires MatchAt(text, pat, from) == Some(m)
    requires IsScan(text, pat, from, ms)
    ensures |ms| > 0 && ms[0] == m
  {
    assert GapStart(from, ms, 0) <= GapEnd(text, ms, 0);
    assert NoMatchIn(text, pat, GapStart(from, ms, 0), GapEnd(text, ms, 0));
    if |ms| > 0 {
      assert MatchAt(text, pat, ms[0].start) == Some(ms[0]);
    }
  }

  /** All matches of one pattern. */
  function Scan(text: string, pat: Pattern): seq<Match>
    requires |pat.delim| > 0
  {
    ScanFrom(text, pat, 0)
  }

  /** Every delimiter is non-empty. */
  predicate ValidPatterns(pats: seq<Pattern>) {
    forall i :: 0 <= i < |pats| ==> |pats[i].delim| > 0
  }

  /** The matches of the first `|pats|` patterns, pattern after pattern, in
      the order each pattern's scan finds them. */
  function CollectMatches(text: string, pats: seq<Pattern>): (r: seq<Match>)
    requires ValidPatterns(pats)
    ensures forall i :: 0 <= i < |r| ==> r[i].start < r[i].end <= |text|
  {
    if |pats| == 0 then []
    else CollectMatches(text, pats[..|pats| - 1]) + Scan(text, pats[|pats| - 1])
  }

  /** The `formattedRuns` array before sorting. */
  function AllMatches(text: string): (r: seq<Match>)
    ensures forall i :: 0 <= i < |r| ==> r[i].start < r[i].end <= |text| && r[i].format != Plain
  {
    CollectMatchesFormats(text, |Patterns|);
    assert Patterns[..|Patterns|] == Patterns;
    assert forall f :: Rank(f) < |Patterns| ==> f != Plain;
    CollectMatches(text, Patterns)
  }

  lemma {:induction false} CollectMatchesFormats(text: string, n: nat)
    requires n <= |Patterns|
    ensures ValidPatterns(Patterns[..n])
    ensures forall i :: 0 <= i < |CollectMatches(text, Patterns[..n])| ==>
              Rank(CollectMatches(text, Patterns[..n])[i].format) < n
  {
    if n > 0 {
      CollectMatchesFormats(text, n - 1);
      assert Patterns[..n][..n - 1] == Patterns[..n - 1];
      PatternRanks(n - 1);
      var a := CollectMatches(text, Patterns[..n - 1]);
      var b := Scan(text, Patterns[n - 1]);
      var r := CollectMatches(text, Patterns[..n]);
      assert r == a + b;
      forall i | 0 <= i < |r| ensures Rank(r[i].format) < n {
        if i >= |a| {
          assert r[i] == b[i - |a|];
          assert b[i - |a|].format == Patterns[n - 1].format;
        } else {
          assert r[i] == a[i];
          assert Rank(a[i].format) < n - 1;
        }
      }
    }
  }

  // ---------------------------------------------------------------------
  // The stable sort on the start offset

  /** The matches of `s` that start at offset `k`, in order. */
  function WithStart(s: seq<Match>, k: nat): seq<Match>
  {
    if |s| == 0 then [] else (if s[0].start == k then [s[0]] else []) + WithStart(s[1..], k)
  }

  lemma {:induction false} WithStartConcat(a: seq<Match>, b: seq<Match>, k: nat)
    ensures WithStart(a + b, k) == WithStart(a, k) + WithStart(b, k)
  {
    if |a| > 0 {
      assert (a + b)[1..] == a[1..] + b;
      WithStartConcat(a[1..], b, k);
    } else {
      assert a + b == b;
    }
  }

  lemma {:induction false} WithStartNone(s: seq<Match>, k: nat)
    requires forall i :: 0 <= i < |s| ==> s[i].start != k
    ensures WithStart(s, k) == []
  {
    if |s| > 0 {
      WithStartNone(s[1..], k);
    }
  }

  predicate SortedByStart(s: seq<Match>) {
    forall i, j :: 0 <= i < j < |s| ==> s[i].start <= s[j].start
  }

  /** Inserts `m` into a sorted sequence after every element that starts no
      later than it. */
  function Insert(m: Match, s: seq<Match>): seq<Match>
  {
    if |s| == 0 then [m]
    else if m.start < s[0].start then [m] + s
    else [s[0]] + Insert(m, s[1..])
  }

  /** Inserting adds exactly `m`. */
  lemma {:induction false} InsertCounts(m: Match, s: seq<Match>)
    ensures multiset(Insert(m, s)) == multiset(s) + multiset{m}
  {
    if |s| > 0 && m.start >= s[0].start {
      InsertCounts(m, s[1..]);
      assert s == [s[0]] + s[1..];
    }
  }

  /** A lower bound on the starts survives insertion. */
  lemma {:induction false} InsertBound(m: Match, s: seq<Match>, lo: nat)
    requires lo <= m.start
    requires forall i :: 0 <= i < |s| ==> lo <= s[i].start
    ensures forall i :: 0 <= i < |Insert(m, s)| ==> lo <= Insert(m, s)[i].start
  {
    if |s| > 0 && m.start >= s[0].start {
      InsertBound(m, s[1..], lo);
      var r := Insert(m, s);
      forall i | 0 <= i < |r| ensures lo <= r[i].start {
        if i > 0 {
          assert r[i] == Insert(m, s[1..])[i - 1];
        }
      }
    }
  }

  /** Inserting into a sorted sequence keeps it sorted. */
  lemma {:induction false} InsertSorted(m: Match, s: seq<Match>)
    requires SortedByStart(s)
    ensures SortedByStart(Insert(m, s))
  {
    if |s| > 0 && m.start >= s[0].start {
      var t := Insert(m, s[1..]);
      assert SortedByStart(s[1..]) by {
        forall i, j | 0 <= i < j < |s[1..]| ensures s[1..][i].start <= s[1..][j].start {
          assert s[1..][i] == s[i + 1] && s[1..][j] == s[j + 1];
        }
      }
      InsertSorted(m, s[1..]);
      assert forall i :: 0 <= i < |s[1..]| ==> s[0].start <= s[1..][i].start by {
        forall i | 0 <= i < |s[1..]| ensures s[0].start <= s[1..][i].start {
          assert s[1..][i] == s[i + 1];
        }
      }
      InsertBound(m, s[1..], s[0].start);
      var r := [s[0]] + t;
      forall i, j | 0 <= i < j < |r| ensures r[i].start <= r[j].start {
        assert r[j] == t[j - 1];
        if i > 0 {
          assert r[i] == t[i - 1];
        }
      }
    }
  }

  /** Inserting puts `m` after every element with the same start. */
  lemma {:induction false} InsertWithStart(m: Match, s: seq<Match>, k: nat)
    requires SortedByStart(s)
    ensures WithStart(Insert(m, s), k) == WithStart(s, k) + (if m.start == k then [m] else [])
  {
    var extra := if m.start == k then [m] else [];
    if |s| == 0 {
      assert Insert(m, s) == [m];
      assert WithStart([m], k) == extra + WithStart([m][1..], k);
    } else if m.start < s[0].start {
      assert Insert(m, s) == [m] + s;
      assert ([m] + s)[1..] == s;
      if m.start == k {
        forall i | 0 <= i < |s| ensures s[i].start != k {
          assert s[0].start <= s[i].start;
        }
        WithStartNone(s, k);
      }
    } else {
      var head := if s[0].start == k then [s[0]] else [];
      assert SortedByStart(s[1..]) by {
        forall i, j | 0 <= i < j < |s[1..]| ensures s[1..][i].start <= s[1..][j].start {
          assert s[1..][i] == s[i + 1] && s[1..][j] == s[j + 1];
        }
      }
      var t := Insert(m, s[1..]);
      assert Insert(m, s) == [s[0]] + t;
      assert ([s[0]] + t)[1..] == t;
      calc {
        WithStart(Insert(m, s), k);
        head + WithStart(t, k);
        { InsertWithStart(m, s[1..], k); }
        head + (WithStart(s[1..], k) + extra);
        (head + WithStart(s[1..], k)) + extra;
        WithStart(s, k) + extra;
      }
    }
  }

  /** `formattedRuns.sort((a, b) => a.start - b.start)`: a stable sort,
      written as an insertion sort that takes the elements in order. */
  function SortByStart(ms: seq<Match>): seq<Match>
  {
    if |ms| == 0 then [] else Insert(ms[|ms| - 1], SortByStart(ms[..|ms| - 1]))
  }

  /** The sort orders by start, is a permutation, and keeps the matches
      that share a start in their original order. */
  lemma {:induction false} SortFacts(ms: seq<Match>, k: nat)
    ensures SortedByStart(SortByStart(ms))
    ensures multiset(SortByStart(ms)) == multiset(ms)
    ensures WithStart(SortByStart(ms), k) == WithStart(ms, k)
  {
    SortSorted(ms);
    SortPermutes(ms);
    SortStable(ms, k);
  }

  lemma {:induction false} SortSorted(ms: seq<Match>)
    ensures SortedByStart(SortByStart(ms))
  {
    if |ms| > 0 {
      SortSorted(ms[..|ms| - 1]);
      InsertSorted(ms[|ms| - 1], SortByStart(ms[..|ms| - 1]));
    }
  }

  lemma {:induction false} SortPermutes(ms: seq<Match>)
    ensures multiset(SortByStart(ms)) == multiset(ms)
  {
    if |ms| > 0 {
      var init, last := ms[..|ms| - 1], ms[|ms| - 1];
      SortPermutes(init);
      InsertCounts(last, SortByStart(init));
      assert ms == init + [last];
    }
  }

  lemma {:induction false} SortStable(ms: seq<Match>, k: nat)
    ensures WithStart(SortByStart(ms), k) == WithStart(ms, k)
  {
    if |ms| > 0 {
      var init, last := ms[..|ms| - 1], ms[|ms| - 1];
      SortStable(init, k);
      SortSorted(init);
      InsertWithStart(last, SortByStart(init), k);
      assert ms == init + [last];
      WithStartConcat(init, [last], k);
    }
  }

  /** A sequence of matches whose formats strictly follow pattern order. */
  predicate InPatternOrder(s: seq<Match>) {
    forall i, j :: 0 <= i < j < |s| ==> Rank(s[i].format) < Rank(s[j].format)
  }

  /** Within one pattern's scan, at most one match starts at a given offset. */
  lemma {:induction false} ScanWithStart(text: string, pat: Pattern, from: nat, k: nat)
    requires |pat.delim| > 0 && from <= |text|
    decreases |text| - from
    ensures var w := WithStart(ScanFrom(text, pat, from), k);
      |w| <= 1 && (|w| == 1 ==> w[0].format == pat.format)
  {
    if from < |text| {
      match MatchAt(text, pat, from)
      case Some(m) =>
        ScanWithStart(text, pat, m.end, k);
        var rest := ScanFrom(text, pat, m.end);
        assert ([m] + rest)[1..] == rest;
        if m.start == k {
          WithStartNone(rest, k);
        }
      case None =>
        ScanWithStart(text, pat, from + 1, k);
    }
  }

  /** Every match of `s` comes from one of the first `n` patterns. */
  predicate RanksBelow(s: seq<Match>, n: nat) {
    forall i :: 0 <= i < |s| ==> Rank(s[i].format) < n
  }

  lemma {:induction false} CollectInPatternOrder(text: string, n: nat, k: nat)
    requires n <= |Patterns|
    ensures ValidPatterns(Patterns[..n])
    ensures InPatternOrder(WithStart(CollectMatches(text, Patterns[..n]), k))
    ensures RanksBelow(WithStart(CollectMatches(text, Patterns[..n]), k), n)
  {
    CollectMatchesFormats(text, n);
    if n > 0 {
      CollectInPatternOrder(text, n - 1, k);
      CollectStep(text, n - 1);
      PatternRanks(n - 1);
      var a := CollectMatches(text, Patterns[..n - 1]);
      var b := Scan(text, Patterns[n - 1]);
      WithStartConcat(a, b, k);
      ScanWithStart(text, Patterns[n - 1], 0, k);
      OrderAppend(WithStart(a, k), WithStart(b, k), n);
    }
  }

  lemma {:induction false} OrderAppend(wa: seq<Match>, wb: seq<Match>, n: nat)
    requires n > 0 && InPatternOrder(wa) && RanksBelow(wa, n - 1)
    requires |wb| <= 1 && (|wb| == 1 ==> Rank(wb[0].format) == n - 1)
    ensures InPatternOrder(wa + wb) && RanksBelow(wa + wb, n)
  {
    var w := wa + wb;
    forall i, j | 0 <= i < j < |w| ensures Rank(w[i].format) < Rank(w[j].format) {
      if j >= |wa| {
        assert w[j] == wb[0];
        assert w[i] == wa[i];
      } else {
        assert w[i] == wa[i] && w[j] == wa[j];
      }
    }
    forall i | 0 <= i < |w| ensures Rank(w[i].format) < n {
      if i >= |wa| {
        assert w[i] == wb[0];
      } else {
        assert w[i] == wa[i];
      }
    }
  }

  /** The merged matches in sorted order: by start offset, and among the
      matches that start at the same offset, in pattern order (bold,
      italic, code, strike, underline). Each match of each pattern is there
      exactly once. */
  lemma {:induction false} SortedMatchesOrder(text: string, k: nat)
    ensures SortedByStart(SortByStart(AllMatches(text)))
    ensures multiset(SortByStart(AllMatches(text))) == multiset(AllMatches(text))
    ensures InPatternOrder(WithStart(SortByStart(AllMatches(text)), k))
  {
    SortFacts(AllMatches(text), k);
    CollectInPatternOrder(text, |Patterns|, k);
    assert Patterns[..|Patterns|] == Patterns;
  }

  // ---------------------------------------------------------------------
  // The walk

  /** Every match lies inside the text. */
  predicate InText(text: string, ms: seq<Match>) {
    forall i :: 0 <= i < |ms| ==> ms[i].start <= ms[i].end <= |text|
  }

  /** The gap-filling walk, `lastEnd` being the end of the previous match
      (not the furthest end so far): a plain span for the text between
      `lastEnd` and a later start, the match's capture in its format, and
      after the last match the rest of the text. */
  function Walk(text: string, ms: seq<Match>, lastEnd: nat): seq<Span>
    requires lastEnd <= |text| && InText(text, ms)
  {
    if |ms| == 0 then
      if lastEnd < |text| then [Span(text[lastEnd..], Plain)] else []
    else
      var m := ms[0];
      (if m.start > lastEnd then [Span(text[lastEnd..m.start], Plain)] else [])
      + [Span(m.inner, m.format)]
      + Walk(text, ms[1..], m.end)
  }

  /** `parseInlineFormatting`, as spans. */
  function ParseInline(text: string): seq<Span>
  {
    var ms := SortByStart(AllMatches(text));
    if |ms| == 0 then [Span(text, Plain)]
    else
      SortedInText(text);
      Walk(text, ms, 0)
  }

  lemma {:induction false} SortedInText(text: string)
    ensures InText(text, SortByStart(AllMatches(text)))
    ensures forall i :: 0 <= i < |SortByStart(AllMatches(text))| ==> SortByStart(AllMatches(text))[i].format != Plain
    ensures |SortByStart(AllMatches(text))| == |AllMatches(text)|
  {
    var ms := AllMatches(text);
    var s := SortByStart(ms);
    SortFacts(ms, 0);
    assert |s| == |multiset(s)| == |multiset(ms)| == |ms|;
    forall i | 0 <= i < |s| ensures s[i].start <= s[i].end <= |text| && s[i].format != Plain {
      assert s[i] in multiset(ms);
    }
  }

  /** The spans carrying a format, in order. */
  function Formatted(spans: seq<Span>): seq<Span>
  {
    if |spans| == 0 then []
    else (if spans[0].format != Plain then [spans[0]] else []) + Formatted(spans[1..])
  }

  lemma {:induction false} FormattedConcat(a: seq<Span>, b: seq<Span>)
    ensures Formatted(a + b) == Formatted(a) + Formatted(b)
  {
    if |a| > 0 {
      assert (a + b)[1..] == a[1..] + b;
      FormattedConcat(a[1..], b);
    } else {
      assert a + b == b;
    }
  }

  /** The capture of each match, in its format. */
  function CaptureSpans(ms: seq<Match>): (r: seq<Span>)
    ensures |r| == |ms|
    ensures forall i :: 0 <= i < |ms| ==> r[i] == Span(ms[i].inner, ms[i].format)
  {
    if |ms| == 0 then [] else [Span(ms[0].inner, ms[0].format)] + CaptureSpans(ms[1..])
  }

  /** The count of plain spans. */
  function PlainCount(spans: seq<Span>): nat
  {
    if |spans| == 0 then 0 else (if spans[0].format == Plain then 1 else 0) + PlainCount(spans[1..])
  }

  lemma {:induction false} PlainCountConcat(a: seq<Span>, b: seq<Span>)
    ensures PlainCount(a + b) == PlainCount(a) + PlainCount(b)
  {
    if |a| > 0 {
      assert (a + b)[1..] == a[1..] + b;
      PlainCountConcat(a[1..], b);
    } else {
      assert a + b == b;
    }
  }

  /** The walk emits one formatted span per match, in order and holding its
      capture only; at most one plain span before each match and one after
      the last; and no plain span is empty. */
  lemma {:induction false} WalkFacts(text: string, ms: seq<Match>, lastEnd: nat)
    requires lastEnd <= |text| && InText(text, ms)
    requires forall i :: 0 <= i < |ms| ==> ms[i].format != Plain
    ensures var w := Walk(text, ms, lastEnd);
      && Formatted(w) == CaptureSpans(ms)
      && PlainCount(w) <= |ms| + 1
      && |w| == |ms| + PlainCount(w)
      && (forall i :: 0 <= i < |w| && w[i].format == Plain ==> |w[i].text| > 0)
  {
    WalkFormatted(text, ms, lastEnd);
    WalkPlainCount(text, ms, lastEnd);
    WalkPlainNonEmpty(text, ms, lastEnd);
  }

  lemma {:induction false} WalkFormatted(text: string, ms: seq<Match>, lastEnd: nat)
    requires lastEnd <= |text| && InText(text, ms)
    requires forall i :: 0 <= i < |ms| ==> ms[i].format != Plain
    ensures Formatted(Walk(text, ms, lastEnd)) == CaptureSpans(ms)
  {
    if |ms| > 0 {
      var m := ms[0];
      var gap := if m.start > lastEnd then [Span(text[lastEnd..m.start], Plain)] else [];
      var rest := Walk(text, ms[1..], m.end);
      WalkFormatted(text, ms[1..], m.end);
      assert Walk(text, ms, lastEnd) == gap + ([Span(m.inner, m.format)] + rest);
      FormattedConcat(gap, [Span(m.inner, m.format)] + rest);
      FormattedConcat([Span(m.inner, m.format)], rest);
      assert CaptureSpans(ms) == [Span(m.inner, m.format)] + CaptureSpans(ms[1..]);
    }
  }

  lemma {:induction false} WalkPlainCount(text: string, ms: seq<Match>, lastEnd: nat)
    requires lastEnd <= |text| && InText(text, ms)
    requires forall i :: 0 <= i < |ms| ==> ms[i].format != Plain
    ensures PlainCount(Walk(text, ms, lastEnd)) <= |ms| + 1
    ensures |Walk(text, ms, lastEnd)| == |ms| + PlainCount(Walk(text, ms, lastEnd))
  {
    if |ms| > 0 {
      var m := ms[0];
      var gap := if m.start > lastEnd then [Span(text[lastEnd..m.start], Plain)] else [];
      var rest := Walk(text, ms[1..], m.end);
      WalkPlainCount(text, ms[1..], m.end);
      assert Walk(text, ms, lastEnd) == gap + ([Span(m.inner, m.format)] + rest);
      PlainCountConcat(gap, [Span(m.inner, m.format)] + rest);
      PlainCountConcat([Span(m.inner, m.format)], rest);
    }
  }

  /** No plain span of `w` is empty. */
  predicate PlainSpansNonEmpty(w: seq<Span>) {
    forall i :: 0 <= i < |w| && w[i].format == Plain ==> |w[i].text| > 0
  }

  lemma {:induction false} WalkPlainNonEmpty(text: string, ms: seq<Match>, lastEnd: nat)
    requires lastEnd <= |text| && InText(text, ms)
    requires forall i :: 0 <= i < |ms| ==> ms[i].format != Plain
    ensures PlainSpansNonEmpty(Walk(text, ms, lastEnd))
  {
    var w := Walk(text, ms, lastEnd);
    if |ms| > 0 {
      var m := ms[0];
      var gap := if m.start > lastEnd then [Span(text[lastEnd..m.start], Plain)] else [];
      var rest := Walk(text, ms[1..], m.end);
      WalkPlainNonEmpty(text, ms[1..], m.end);
      assert w == gap + ([Span(m.inner, m.format)] + rest);
      forall i | 0 <= i < |w| && w[i].format == Plain ensures |w[i].text| > 0 {
        if i >= |gap| + 1 {
          assert w[i] == rest[i - |gap| - 1];
        } else if i < |gap| {
          assert w[i] == gap[0] && |gap[0].text| == m.start - lastEnd;
        }
      }
    }
  }

  // The walk described by match index instead of by recursion: the end of
  // the match before match `j` (or the starting `lastEnd` for `j == 0`), the
  // plain gap in front of match `j`, and the plain tail after the last match.

  /** The `lastEnd` the walk holds when it reaches match `j`. */
  function PrevEnd(ms: seq<Match>, lastEnd: nat, j: nat): nat
    requires j <= |ms|
  {
    if j == 0 then lastEnd else ms[j - 1].end
  }

  /** The plain span emitted in front of match `j`: the text from the previous
      match's end to this match's start, only when that start lies beyond it. */
  function GapBefore(text: string, ms: seq<Match>, lastEnd: nat, j: nat): seq<Span>
    requires lastEnd <= |text| && InText(text, ms) && j < |ms|
  {
    var p := PrevEnd(ms, lastEnd, j);
    if ms[j].start > p then [Span(text[p..ms[j].start], Plain)] else []
  }

  /** The gap in front of match `j` followed by match `j`'s capture. */
  function Piece(text: string, ms: seq<Match>, lastEnd: nat, j: nat): seq<Span>
    requires lastEnd <= |text| && InText(text, ms) && j < |ms|
  {
    GapBefore(text, ms, lastEnd, j) + [Span(ms[j].inner, ms[j].format)]
  }

  /** The pieces from match `j` on, concatenated. */
  function PiecesFrom(text: string, ms: seq<Match>, lastEnd: nat, j: nat): seq<Span>
    requires lastEnd <= |text| && InText(text, ms) && j <= |ms|
    decreases |ms| - j
  {
    if j == |ms| then [] else Piece(text, ms, lastEnd, j) + PiecesFrom(text, ms, lastEnd, j + 1)
  }

  /** The plain span after the last match: the rest of the text from the last
      match's end (the starting `lastEnd` when there is no match), only when
      some text remains. */
  function TailAfter(text: string, ms: seq<Match>, lastEnd: nat): seq<Span>
    requires lastEnd <= |text| && InText(text, ms)
  {
    var e := PrevEnd(ms, lastEnd, |ms|);
    if e < |text| then [Span(text[e..], Plain)] else []
  }

  /** The recursive walk is the indexed description: for every match, in
      order, the plain gap from the previous match's end when the match starts
      beyond it, then the capture; after the last match, the rest of the text
      when any remains. */
  lemma {:induction false} WalkGaps(text: string, ms: seq<Match>, lastEnd: nat)
    requires lastEnd <= |text| && InText(text, ms)
    decreases |ms|
    ensures Walk(text, ms, lastEnd) == PiecesFrom(text, ms, lastEnd, 0) + TailAfter(text, ms, lastEnd)
  {
    if |ms| > 0 {
      var m := ms[0];
      WalkGaps(text, ms[1..], m.end);
      PiecesShift(text, ms, lastEnd, 1);
      assert TailAfter(text, ms[1..], m.end) == TailAfter(text, ms, lastEnd);
      assert Piece(text, ms, lastEnd, 0)
             == (if m.start > lastEnd then [Span(text[lastEnd..m.start], Plain)] else []) + [Span(m.inner, m.format)];
    }
  }

  /** Dropping the first match and starting from its end shifts every later
      piece down by one index. */
  lemma {:induction false} PiecesShift(text: string, ms: seq<Match>, lastEnd: nat, j: nat)
    requires lastEnd <= |text| && InText(text, ms) && 1 <= j <= |ms|
    decreases |ms| - j
    ensures PiecesFrom(text, ms, lastEnd, j) == PiecesFrom(text, ms[1..], ms[0].end, j - 1)
  {
    if j < |ms| {
      PiecesShift(text, ms, lastEnd, j + 1);
      assert PrevEnd(ms, lastEnd, j) == PrevEnd(ms[1..], ms[0].end, j - 1);
      assert Piece(text, ms, lastEnd, j) == Piece(text, ms[1..], ms[0].end, j - 1);
    }
  }

  /** Text without any match comes back as one plain span holding all of it. */
  lemma {:induction false} NoMatchSingleSpan(text: string)
    requires AllMatches(text) == []
    ensures ParseInline(text) == [Span(text, Plain)]
  {
  }

  /** With at least one match: the formatted spans are the captures of the
      matches in sorted order, every plain span is non-empty, the span count
      lies between the match count `m` and `2m + 1`, and the spans are the
      indexed walk over the sorted matches starting from offset 0. */
  lemma {:induction false} ParseInlineShape(text: string)
    ensures var spans, ms := ParseInline(text), SortByStart(AllMatches(text));
      && (|ms| == 0 ==> spans == [Span(text, Plain)])
      && (|ms| > 0 ==>
            && Formatted(spans) == CaptureSpans(ms)
            && |ms| <= |spans| <= 2 * |ms| + 1
            && (forall i :: 0 <= i < |spans| && spans[i].format == Plain ==> |spans[i].text| > 0)
            && InText(text, ms)
            && spans == PiecesFrom(text, ms, 0, 0) + TailAfter(text, ms, 0))
  {
    var ms := SortByStart(AllMatches(text));
    SortedInText(text);
    if |ms| > 0 {
      WalkFacts(text, ms, 0);
      WalkGaps(text, ms, 0);
    }
  }

  // ---------------------------------------------------------------------
  // The loops as written

  /** The `while ((match = pattern.regex.exec(text)) !== null)` loop of one
      pattern: each `exec` searches from `lastIndex` and moves it to the end
      of the match. */
  method ExecLoop(text: string, pat: Pattern) returns (found: seq<Match>)
    requires |pat.delim| > 0
    ensures found == Scan(text, pat)
  {
    found := [];
    var lastIndex := 0;
    while lastIndex < |text|
      invariant lastIndex <= |text|
      invariant Scan(text, pat) == found + ScanFrom(text, pat, lastIndex)
      decreases |text| - lastIndex
    {
      var m := MatchAt(text, pat, lastIndex);
      if m.Some? {
        assert ScanFrom(text, pat, lastIndex) == [m.value] + ScanFrom(text, pat, m.value.end);
        found := found + [m.value];
        lastIndex := m.value.end;
      } else {
        lastIndex := lastIndex + 1;
      }
    }
    assert found + [] == found;
  }

  /** One more pattern appends its scan. */
  lemma {:induction false} CollectStep(text: string, k: nat)
    requires k < |Patterns|
    ensures ValidPatterns(Patterns[..k])
    ensures ValidPatterns(Patterns[..k + 1])
    ensures |Patterns[k].delim| > 0
    ensures CollectMatches(text, Patterns[..k + 1]) == CollectMatches(text, Patterns[..k]) + Scan(text, Patterns[k])
  {
    CollectMatchesFormats(text, k);
    CollectMatchesFormats(text, k + 1);
    PatternRanks(k);
    assert Patterns[..k + 1][..k] == Patterns[..k];
  }

  /** The loop over the patterns: every pattern's matches, appended in
      pattern order. */
  method CollectLoop(text: string) returns (formattedRuns: seq<Match>)
    ensures formattedRuns == AllMatches(text)
  {
    formattedRuns := [];
    var k := 0;
    CollectMatchesFormats(text, 0);
    while k < |Patterns|
      invariant k <= |Patterns|
      invariant ValidPatterns(Patterns[..k])
      invariant formattedRuns == CollectMatches(text, Patterns[..k])
    {
      CollectStep(text, k);
      var found := ExecLoop(text, Patterns[k]);
      formattedRuns := formattedRuns + found;
      k := k + 1;
    }
    assert Patterns[..k] == Patterns;
  }

  /** The `for (const run of formattedRuns)` walk and the trailing text,
      with `lastEnd` set to each match's end in turn. */
  method WalkLoop(text: string, sorted: seq<Match>) returns (runs: seq<Span>)
    requires InText(text, sorted)
    ensures runs == Walk(text, sorted, 0)
  {
    runs := [];
    var lastEnd: nat := 0;
    var i := 0;
    while i < |sorted|
      invariant i <= |sorted| && lastEnd <= |text|
      invariant Walk(text, sorted, 0) == runs + Walk(text, sorted[i..], lastEnd)
    {
      var run := sorted[i];
      assert sorted[i..][0] == run && sorted[i..][1..] == sorted[i + 1..];
      var pushed: seq<Span> := [];
      if run.start > lastEnd {
        var plainText := text[lastEnd..run.start];
        pushed := [Span(plainText, Plain)];
      }
      pushed := pushed + [Span(run.inner, run.format)];
      ghost var rest := Walk(text, sorted[i + 1..], run.end);
      assert Walk(text, sorted[i..], lastEnd) == pushed + rest;
      assert (runs + pushed) + rest == runs + (pushed + rest);
      runs := runs + pushed;
      lastEnd := run.end;
      i := i + 1;
    }
    if lastEnd < |text| {
      var remainingText := text[lastEnd..];
      runs := runs + [Span(remainingText, Plain)];
    } else {
      assert runs + [] == runs;
    }
  }

  /** `parseInlineFormatting` as written: collect the matches pattern by
      pattern, sort them, return the whole text if there are none, and
      otherwise walk them. */
  method ParseInlineLoop(text: string) returns (runs: seq<Span>)
    ensures runs == ParseInline(text)
  {
    var formattedRuns := CollectLoop(text);
    var sorted := SortByStart(formattedRuns);
    if |sorted| == 0 {
      return [Span(text, Plain)];
    }
    SortedInText(text);
    runs := WalkLoop(text, sorted);
  }
}
