/** `parseElements` and `parseElement`: the rendered HTML, as a tree of
    nodes, is turned into the flat list of parsed elements the assembler
    consumes. Only the direct element children of the container are looked
    at; each becomes at most one parsed element. */
module ElementParser {
  import opened Wrappers
  import opened Strings

  /** A DOM node: text, a comment, or an element with its lower-case tag
      name, its `class` attribute and its children in document order. */
  datatype Node =
    | Text(data: string)
    | Comment(data: string)
    | Element(tag: string, className: string, children: seq<Node>)

  /** `textContent`: the data of every descendant text node, in document
      order; comments contribute nothing. */
  function TextContent(n: Node): string
    decreases n
  {
    match n
    case Text(data) => data
    case Comment(_) => ""
    case Element(_, _, children) => TextContentAll(children)
  }

  function TextContentAll(ns: seq<Node>): string
    decreases ns
  {
    if |ns| == 0 then "" else TextContent(ns[0]) + TextContentAll(ns[1..])
  }

  /** The text of a run of siblings is the text of its parts, in order. */
  lemma {:induction false} TextContentConcat(a: seq<Node>, b: seq<Node>)
    ensures TextContentAll(a + b) == TextContentAll(a) + TextContentAll(b)
  {
    if |a| > 0 {
      assert (a + b)[1..] == a[1..] + b;
      TextContentConcat(a[1..], b);
    } else {
      assert a + b == b;
    }
  }

  /** A comment child changes nothing in the text. */
  lemma {:induction false} CommentsAddNoText(before: seq<Node>, data: string, after: seq<Node>)
    ensures TextContentAll(before + [Comment(data)] + after) == TextContentAll(before + after)
  {
    TextContentConcat(before + [Comment(data)], after);
    TextContentConcat(before, [Comment(data)]);
    TextContentConcat(before, after);
    assert TextContentAll([Comment(data)]) == "";
  }

  // ---------------------------------------------------------------------
  // Selector queries as pre-order walks

  /** The element descendants of a run of siblings, in document (pre-)order:
      each element, then its own descendants, then its next sibling. */
  function DescendantsAll(ns: seq<Node>): (r: seq<Node>)
    decreases ns
    ensures forall i :: 0 <= i < |r| ==> r[i].Element?
  {
    if |ns| == 0 then []
    else
      (if ns[0].Element? then [ns[0]] + DescendantsAll(ns[0].children) else [])
      + DescendantsAll(ns[1..])
  }

  /** The element descendants of `n`, `n` itself excluded. */
  function Descendants(n: Node): seq<Node>
  {
    if n.Element? then DescendantsAll(n.children) else []
  }

  /** `x` is an element somewhere below the siblings `ns` (or one of them). */
  predicate Below(x: Node, ns: seq<Node>)
    decreases ns
  {
    exists i :: 0 <= i < |ns| && ((ns[i] == x && x.Element?) || (ns[i].Element? && Below(x, ns[i].children)))
  }

  lemma {:induction false} BelowSplit(x: Node, ns: seq<Node>)
    requires |ns| > 0
    ensures Below(x, ns) <==>
              ((ns[0] == x && x.Element?) || (ns[0].Element? && Below(x, ns[0].children)) || Below(x, ns[1..]))
  {
    if Below(x, ns[1..]) {
      var i :| 0 <= i < |ns[1..]| && ((ns[1..][i] == x && x.Element?) || (ns[1..][i].Element? && Below(x, ns[1..][i].children)));
      assert ns[i + 1] == ns[1..][i];
    }
    if Below(x, ns) {
      var i :| 0 <= i < |ns| && ((ns[i] == x && x.Element?) || (ns[i].Element? && Below(x, ns[i].children)));
      if i > 0 {
        assert ns[1..][i - 1] == ns[i];
      }
    }
  }

  /** The walk visits exactly the elements below the siblings. */
  lemma {:induction false} DescendantsComplete(x: Node, ns: seq<Node>)
    decreases ns
    ensures x in DescendantsAll(ns) <==> Below(x, ns)
  {
    if |ns| > 0 {
      BelowSplit(x, ns);
      DescendantsAll1(x, ns);
      if ns[0].Element? {
        DescendantsComplete(x, ns[0].children);
      }
      DescendantsComplete(x, ns[1..]);
    }
  }

  lemma {:induction false} DescendantsAll1(x: Node, ns: seq<Node>)
    requires |ns| > 0
    ensures x in DescendantsAll(ns) <==>
              ((ns[0].Element? && (x == ns[0] || x in DescendantsAll(ns[0].children))) || x in DescendantsAll(ns[1..]))
  {
  }

  /** The elements of `s` with tag `tag`, in order. */
  function WithTag(s: seq<Node>, tag: string): (r: seq<Node>)
    ensures |r| <= |s|
    ensures forall i :: 0 <= i < |r| ==> r[i] in s && r[i].Element? && r[i].tag == tag
  {
    if |s| == 0 then []
    else (if s[0].Element? && s[0].tag == tag then [s[0]] else []) + WithTag(s[1..], tag)
  }

  lemma {:induction false} WithTagMembers(s: seq<Node>, tag: string, x: Node)
    ensures x in WithTag(s, tag) <==> x in s && x.Element? && x.tag == tag
  {
    if |s| > 0 {
      WithTagMembers(s[1..], tag, x);
      assert s == [s[0]] + s[1..];
    }
  }

  /** `querySelectorAll(tag)` for a bare tag selector. */
  function QueryAll(n: Node, tag: string): seq<Node>
  {
    WithTag(Descendants(n), tag)
  }

  /** What `querySelectorAll(tag)` returns, independently of the walk: the
      elements with that tag anywhere below `n`, nested ones included. */
  lemma {:induction false} QueryAllMembers(n: Node, tag: string, x: Node)
    requires n.Element?
    ensures x in QueryAll(n, tag) <==> Below(x, n.children) && x.Element? && x.tag == tag
  {
    WithTagMembers(Descendants(n), tag, x);
    DescendantsComplete(x, n.children);
    if x in Descendants(n) {
      assert x.Element?;
    }
  }

  /** `querySelector(tag)`: the first such element, if any. */
  function QueryFirst(n: Node, tag: string): (r: Option<Node>)
    ensures r.Some? <==> |QueryAll(n, tag)| > 0
    ensures r.Some? ==> r.value == QueryAll(n, tag)[0]
  {
    var all := QueryAll(n, tag);
    if |all| == 0 then None else Some(all[0])
  }

  /** `querySelectorAll('outer inner')` below a run of siblings: the elements
      with tag `inner` that have an `outer` ancestor, in document order.
      `inside` says whether such an ancestor has already been passed. An
      ancestor above the element the query is made on is not seen. */
  function ScopedAll(ns: seq<Node>, outer: string, inner: string, inside: bool): seq<Node>
    decreases ns
  {
    if |ns| == 0 then []
    else
      (if ns[0].Element? then
         (if inside && ns[0].tag == inner then [ns[0]] else [])
         + ScopedAll(ns[0].children, outer, inner, inside || ns[0].tag == outer)
       else [])
      + ScopedAll(ns[1..], outer, inner, inside)
  }

  /** Once inside the outer element, the scoped query is the plain one. */
  lemma {:induction false} ScopedInside(ns: seq<Node>, outer: string, inner: string)
    decreases ns
    ensures ScopedAll(ns, outer, inner, true) == WithTag(DescendantsAll(ns), inner)
  {
    if |ns| > 0 {
      var a := if ns[0].Element? then [ns[0]] + DescendantsAll(ns[0].children) else [];
      ScopedInside(ns[1..], outer, inner);
      WithTagConcat(a, DescendantsAll(ns[1..]), inner);
      if ns[0].Element? {
        ScopedInside(ns[0].children, outer, inner);
        WithTagConcat([ns[0]], DescendantsAll(ns[0].children), inner);
      }
    }
  }

  /** Without any outer element the scoped query finds nothing. */
  lemma {:induction false} ScopedNeedsOuter(ns: seq<Node>, outer: string, inner: string)
    requires forall x :: x in DescendantsAll(ns) ==> x.tag != outer
    decreases ns
    ensures ScopedAll(ns, outer, inner, false) == []
  {
    if |ns| > 0 {
      DescendantsAll1(ns[0], ns);
      forall x | x in DescendantsAll(ns[1..]) ensures x.tag != outer {
        DescendantsAll1(x, ns);
      }
      ScopedNeedsOuter(ns[1..], outer, inner);
      if ns[0].Element? {
        forall x | x in DescendantsAll(ns[0].children) ensures x.tag != outer {
          DescendantsAll1(x, ns);
        }
        ScopedNeedsOuter(ns[0].children, outer, inner);
      }
    }
  }

  lemma {:induction false} WithTagConcat(a: seq<Node>, b: seq<Node>, tag: string)
    ensures WithTag(a + b, tag) == WithTag(a, tag) + WithTag(b, tag)
  {
    if |a| > 0 {
      assert (a + b)[1..] == a[1..] + b;
      WithTagConcat(a[1..], b, tag);
    } else {
      assert a + b == b;
    }
  }

  /** The `textContent` of each node, in order. */
  function Texts(s: seq<Node>): (r: seq<string>)
    ensures |r| == |s|
    ensures forall i :: 0 <= i < |s| ==> r[i] == TextContent(s[i])
  {
    if |s| == 0 then [] else [TextContent(s[0])] + Texts(s[1..])
  }

  // ---------------------------------------------------------------------
  // The code language

  /** A character `\w` matches. */
  predicate IsWordChar(c: char) {
    ('a' <= c <= 'z') || ('A' <= c <= 'Z') || ('0' <= c <= '9') || c == '_'
  }

  /** The greedy `\w+` from `j`: the longest run of word characters. */
  function WordRun(s: string, j: nat): (r: string)
    requires j <= |s|
    decreases |s| - j
    ensures j + |r| <= |s| && r == s[j..j + |r|]
    ensures forall k :: 0 <= k < |r| ==> IsWordChar(r[k])
    ensures j + |r| == |s| || !IsWordChar(s[j + |r|])
  {
    if j < |s| && IsWordChar(s[j]) then [s[j]] + WordRun(s, j + 1) else ""
  }

  const LanguagePrefix := "language-"

  /** `language-(\w+)` can match at offset `i`. */
  predicate LanguageAt(s: string, i: nat) {
    i + |LanguagePrefix| < |s| && s[i..i + |LanguagePrefix|] == LanguagePrefix && IsWordChar(s[i + |LanguagePrefix|])
  }

  /** The capture of the leftmost match of `language-(\w+)` from `i` on. */
  function LanguageFrom(s: string, i: nat): (r: Option<string>)
    requires i <= |s|
    decreases |s| - i
    ensures r.Some? <==> exists j :: i <= j <= |s| && LanguageAt(s, j)
    ensures r.Some? ==> exists j :: i <= j <= |s| && LanguageAt(s, j)
                          && (forall k :: i <= k < j ==> !LanguageAt(s, k))
                          && r.value == WordRun(s, j + |LanguagePrefix|)
  {
    if i == |s| then None
    else if LanguageAt(s, i) then Some(WordRun(s, i + |LanguagePrefix|))
    else
      var r := LanguageFrom(s, i + 1);
      assert forall j :: i <= j <= |s| && LanguageAt(s, j) ==> j == i || (i + 1 <= j <= |s| && LanguageAt(s, j));
      r
  }

  /** `className.match(/language-(\w+)/)?.[1] || ''`. */
  function Language(className: string): (r: string)
    ensures r == "" <==> forall j :: 0 <= j <= |className| ==> !LanguageAt(className, j)
    ensures r != "" ==> forall k :: 0 <= k < |r| ==> IsWordChar(r[k])
  {
    match LanguageFrom(className, 0)
    case None => ""
    case Some(w) => w
  }

  // ---------------------------------------------------------------------
  // Parsed elements

  /** `ParsedElement`. A list records whether its tag was `ol`; a code block
      its whole text and language; a table its header cells and the cells of
      each body row, ragged rows kept as they are. */
  datatype ParsedElement =
    | Heading(level: nat, content: string)
    | Paragraph(content: string)
    | List(ordered: bool, items: seq<string>)
    | Code(content: string, language: string)
    | Table(headers: seq<string>, rows: seq<seq<string>>)
    | Blockquote(content: string)
    | Rule

  /** `h1` to `h6`. */
  predicate IsHeadingTag(tag: string) {
    |tag| == 2 && tag[0] == 'h' && '1' <= tag[1] <= '6'
  }

  /** The tags `parseElement` has a case for. */
  predicate IsKnownTag(tag: string) {
    IsHeadingTag(tag) || tag in ["p", "ul", "ol", "pre", "table", "blockquote", "hr"]
  }

  /** The header cells: the `th` elements of the first `thead tr`. */
  function TableHeaders(n: Node): seq<string>
    requires n.Element?
  {
    var headerRows := ScopedAll(n.children, "thead", "tr", false);
    if |headerRows| == 0 then [] else Texts(QueryAll(headerRows[0], "th"))
  }

  /** The `td` cells of one row. */
  function RowCells(rows: seq<Node>): (r: seq<seq<string>>)
    ensures |r| == |rows|
    ensures forall i :: 0 <= i < |rows| ==> r[i] == Texts(QueryAll(rows[i], "td"))
  {
    if |rows| == 0 then [] else [Texts(QueryAll(rows[0], "td"))] + RowCells(rows[1..])
  }

  /** `parseElement` on an element. */
  function ParseElement(n: Node): (r: Option<ParsedElement>)
    requires n.Element?
    ensures r.None? <==> !IsKnownTag(n.tag) && IsBlank(TextContent(n))
    ensures IsHeadingTag(n.tag) ==>
              r == Some(Heading(n.tag[1] as int - '0' as int, TextContent(n)))
              && 1 <= r.value.level <= 6
    ensures n.tag == "p" ==> r == Some(Paragraph(TextContent(n)))
    ensures n.tag == "blockquote" ==> r == Some(Blockquote(TextContent(n)))
    ensures !IsKnownTag(n.tag) && !IsBlank(TextContent(n)) ==> r == Some(Paragraph(TextContent(n)))
    ensures n.tag in ["ul", "ol"] ==>
              r.Some? && r.value.List? && r.value.ordered == (n.tag == "ol")
              && r.value.items == Texts(QueryAll(n, "li"))
    ensures n.tag == "pre" ==>
              r.Some? && r.value.Code? && r.value.content == TextContent(n)
              && r.value.language == (match QueryFirst(n, "code") case None => "" case Some(c) => Language(c.className))
    ensures n.tag == "table" ==>
              r.Some? && r.value.Table? && r.value.headers == TableHeaders(n)
              && r.value.rows == RowCells(ScopedAll(n.children, "tbody", "tr", false))
    ensures n.tag == "hr" ==> r == Some(Rule)
  {
    var tag := n.tag;
    var text := TextContent(n);
    if IsHeadingTag(tag) then Some(Heading(tag[1] as int - '0' as int, text))
    else if tag == "p" then Some(Paragraph(text))
    else if tag == "ul" || tag == "ol" then Some(List(tag == "ol", Texts(QueryAll(n, "li"))))
    else if tag == "pre" then
      var language := match QueryFirst(n, "code") case None => "" case Some(c) => Language(c.className);
      Some(Code(text, language))
    else if tag == "table" then
      Some(Table(TableHeaders(n), RowCells(ScopedAll(n.children, "tbody", "tr", false))))
    else if tag == "blockquote" then Some(Blockquote(text))
    else if tag == "hr" then Some(Rule)
    else if !IsBlank(text) then Some(Paragraph(text))
    else None
  }

  /** `parseElements`: the parsed direct element children, in order. */
  function ParseChildren(ns: seq<Node>): (r: seq<ParsedElement>)
    ensures |r| <= |ns|
  {
    if |ns| == 0 then [] else Parsed(ns[0]) + ParseChildren(ns[1..])
  }

  /** What one child contributes: its parsed element, if it is an element
      that parses. */
  function Parsed(n: Node): (r: seq<ParsedElement>)
    ensures |r| <= 1
  {
    if n.Element? && ParseElement(n).Some? then [ParseElement(n).value] else []
  }

  function ParseElements(container: Node): seq<ParsedElement>
    requires container.Element?
  {
    ParseChildren(container.children)
  }

  /** The elements `parseElements` keeps: known tags, and unknown ones with
      some non-blank text. */
  predicate Kept(n: Node) {
    n.Element? && (IsKnownTag(n.tag) || !IsBlank(TextContent(n)))
  }

  function KeptCount(ns: seq<Node>): nat {
    if |ns| == 0 then 0 else (if Kept(ns[0]) then 1 else 0) + KeptCount(ns[1..])
  }

  /** Siblings parse independently: the parse of a concatenation is the
      concatenation of the parses. */
  lemma {:induction false} ParseChildrenConcat(a: seq<Node>, b: seq<Node>)
    ensures ParseChildren(a + b) == ParseChildren(a) + ParseChildren(b)
  {
    if |a| > 0 {
      assert (a + b)[0] == a[0] && (a + b)[1..] == a[1..] + b;
      calc {
        ParseChildren(a + b);
        Parsed(a[0]) + ParseChildren(a[1..] + b);
        { ParseChildrenConcat(a[1..], b); }
        Parsed(a[0]) + (ParseChildren(a[1..]) + ParseChildren(b));
        (Parsed(a[0]) + ParseChildren(a[1..])) + ParseChildren(b);
      }
    } else {
      assert a + b == b;
    }
  }

  /** One parsed element per kept child. */
  lemma {:induction false} ParseChildrenCount(a: seq<Node>)
    ensures |ParseChildren(a)| == KeptCount(a)
  {
    if |a| > 0 {
      ParseChildrenCount(a[1..]);
      if a[0].Element? {
        assert ParseElement(a[0]).Some? <==> Kept(a[0]);
      }
    }
  }

  /** Only direct children are parsed: an unknown wrapper element becomes
      one paragraph of all its text, whatever structure it holds. */
  lemma {:induction false} WrapperIsNotEntered(tag: string, cls: string, inside: seq<Node>)
    requires !IsKnownTag(tag) && !IsBlank(TextContentAll(inside))
    ensures ParseChildren([Element(tag, cls, inside)]) == [Paragraph(TextContentAll(inside))]
  {
    assert [Element(tag, cls, inside)][1..] == [];
  }

  /** The nested list of the example below: an item `a` holding a list
      with one item `b`. */
  predicate NestedList(inner: Node, sub: Node, outer: Node, n: Node) {
    && inner == Element("li", "", [Text("b")])
    && sub == Element("ul", "", [inner])
    && outer == Element("li", "", [Text("a"), sub])
    && n == Element("ul", "", [outer])
  }

  lemma {:induction false} NestedQuery(inner: Node, sub: Node, outer: Node, n: Node)
    requires NestedList(inner, sub, outer, n)
    ensures QueryAll(n, "li") == [outer, inner]
  {
    assert [inner][1..] == [] && [sub][1..] == [] && [outer][1..] == [];
    assert [Text("a"), sub][1..] == [sub];
    assert DescendantsAll([Text("b")]) == [] by {
      assert [Text("b")][1..] == [];
    }
    assert DescendantsAll([inner]) == [inner];
    assert DescendantsAll([sub]) == [sub, inner];
    assert DescendantsAll([Text("a"), sub]) == [sub, inner];
    assert Descendants(n) == [outer, sub, inner];
    assert [outer, sub, inner][1..] == [sub, inner] && [sub, inner][1..] == [inner];
    assert WithTag([inner], "li") == [inner];
    assert WithTag([sub, inner], "li") == [inner];
  }

  lemma {:induction false} NestedTexts(inner: Node, sub: Node, outer: Node, n: Node)
    requires NestedList(inner, sub, outer, n)
    ensures Texts([outer, inner]) == ["ab", "b"]
  {
    assert [Text("b")][1..] == [] && [inner][1..] == [] && [sub][1..] == [];
    assert [Text("a"), sub][1..] == [sub];
    assert TextContentAll([Text("b")]) == "b";
    assert TextContent(inner) == "b";
    assert TextContentAll([inner]) == "b";
    assert TextContent(sub) == "b";
    assert TextContentAll([sub]) == "b";
    assert TextContentAll([Text("a"), sub]) == "a" + "b";
    assert TextContent(outer) == "ab";
    assert [outer, inner][1..] == [inner];
  }

  /** Nested lists: every `li` below the list is an item, the nested ones
      too, and an outer item's text includes its nested items' text. */
  lemma {:induction false} NestedItemsListed(inner: Node, sub: Node, outer: Node, n: Node)
    requires NestedList(inner, sub, outer, n)
    ensures ParseElement(n) == Some(List(false, ["ab", "b"]))
  {
    NestedQuery(inner, sub, outer, n);
    NestedTexts(inner, sub, outer, n);
  }

  /** The language is the word after the first `language-`. */
  lemma {:induction false} LanguageExample(t: string)
    requires t == "x language-py"
    ensures Language(t) == "py"
  {
    assert !LanguageAt(t, 0) by {
      assert t[0] != 'l';
    }
    assert !LanguageAt(t, 1) by {
      assert t[1] != 'l';
    }
    assert t[2..11] == LanguagePrefix;
    assert LanguageAt(t, 2);
    assert WordRun(t, 13) == "";
    assert WordRun(t, 12) == "y";
    assert WordRun(t, 11) == "py";
  }
}
