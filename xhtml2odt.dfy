/** The XHTML to ODT conversion of pod/xhtml2odt.py. SAX events push and pop
    stacks of open elements, lists and tables; ODT markup goes into a global
    buffer or, inside a table, into the table's own sub-buffers, so that the
    column declarations can be written once the first row is known.

    The stacks hold values: an element or a table is only ever reached
    through the top of its stack, so replacing the top stands for updating
    the object in place. */
module Xhtml2Odt {
  import opened Wrappers
  import opened Text

  // ---------------------------------------------------------------------------
  // Tables of the module
  // ---------------------------------------------------------------------------

  /** The ODT element of each HTML element that has one. */
  const HTML_2_ODT: map<string, string> :=
    map["h1" := "h", "h2" := "h", "h3" := "h", "h4" := "h", "h5" := "h", "h6" := "h",
        "p" := "p", "b" := "span", "i" := "span", "strong" := "span", "em" := "span",
        "sub" := "span", "sup" := "span", "br" := "line-break", "div" := "span"]

  const DEFAULT_ODT_STYLES: map<string, string> :=
    map["b" := "podBold", "strong" := "podBold", "i" := "podItalic", "em" := "podItalic",
        "sup" := "podSup", "sub" := "podSub", "td" := "podCell", "th" := "podHeaderCell"]

  const INNER_TAGS: set<string> := {"b", "strong", "i", "em", "sup", "sub", "span", "div"}
  const TABLE_CELL_TAGS: set<string> := {"td", "th"}
  const OUTER_TAGS: set<string> := {"td", "th", "li"}
  /** Elements that cannot be rendered inside a paragraph. */
  const NOT_INSIDE_P: set<string> := {"table", "ol", "ul"}

  /** The constants of the pod package that this module uses. */
  const XHTML_HEADINGS: set<string> := {"h1", "h2", "h3", "h4", "h5", "h6"}
  const XHTML_LISTS: set<string> := {"ol", "ul"}
  const XHTML_PARAGRAPH_TAGS: set<string> := XHTML_HEADINGS + XHTML_LISTS + {"p"}

  const ITEM_STYLES: map<string, string> :=
    map["ul" := "podBulletItem", "ol" := "podNumberItem",
        "ul_kwn" := "podBulletItemKeepWithNext", "ol_kwn" := "podNumberItemKeepWithNext"]

  const LIST_STYLES: map<string, string> := map["ul" := "podBulletedList", "ol" := "podNumberedList"]

  /** The style name of a list item that must stay with the next one. */
  const KEEP_WITH_NEXT := "podItemKeepWithNext"

  /** Python truth of an optional string. */
  predicate Truthy(o: Option<string>) {
    o.Some? && o.value != []
  }

  function Last<T>(s: seq<T>): T
    requires s != []
  {
    s[|s| - 1]
  }

  function Init<T>(s: seq<T>): seq<T>
    requires s != []
  {
    s[..|s| - 1]
  }

  /** The three namespace prefixes the environment writes with. */
  datatype Namespaces = Namespaces(text: string, link: string, table: string)

  function Tag(prefix: string, name: string): string {
    "<" + prefix + ":" + name + ">"
  }

  function EndTag(prefix: string, name: string): string {
    "</" + prefix + ":" + name + ">"
  }

  function StyleNameAttr(prefix: string, name: string): string {
    " " + prefix + ":style-name=\"" + name + "\""
  }

  /** `XML_SPECIAL_CHARS` of the pod package, one character at a time. */
  function XmlEscapedChar(c: char): string {
    if c == '<' then "&lt;"
    else if c == '>' then "&gt;"
    else if c == '&' then "&amp;"
    else if c == '"' then "&quot;"
    else if c == '\'' then "&apos;"
    else [c]
  }

  function XmlEscaped(s: string): string
    decreases |s|
  {
    if s == [] then [] else XmlEscaped(Init(s)) + XmlEscapedChar(Last(s))
  }

  /** The characters Python 2.7's `unicode.strip()` removes: those
      `unicode.isspace` accepts in its Unicode 5.2 database (the C0
      separators, the space and no-break space, NEL, and the space
      separators, line and paragraph separators of the other blocks). */
  const UNICODE_SPACE: set<char> := {
    '\t', '\n', '\U{000B}', '\U{000C}', '\r', '\U{001C}', '\U{001D}', '\U{001E}', '\U{001F}',
    ' ', '\U{0085}', '\U{00A0}', '\U{1680}', '\U{180E}',
    '\U{2000}', '\U{2001}', '\U{2002}', '\U{2003}', '\U{2004}', '\U{2005}', '\U{2006}',
    '\U{2007}', '\U{2008}', '\U{2009}', '\U{200A}', '\U{2028}', '\U{2029}', '\U{202F}',
    '\U{205F}', '\U{3000}'}

  /** `unicode.strip()` of the current content. */
  function UStrip(s: string): string {
    RStrip(LStrip(s, UNICODE_SPACE), UNICODE_SPACE)
  }

  /** `s.strip('\n')`. */
  function StripNewlines(s: string): string {
    RStrip(LStrip(s, {'\n'}), {'\n'})
  }

  // ---------------------------------------------------------------------------
  // Xhtml2OdtConverter.findStyle
  // ---------------------------------------------------------------------------

  /** An ODT style: its name and, for a heading style, its outline level. */
  datatype Style = Style(name: string, outlineLevel: Option<int>)

  /** A styles mapping: CSS classes and HTML elements to styles, and the
      outline delta its `h*` key may give. */
  datatype StylesMapping = StylesMapping(styles: map<string, Style>, outlineDelta: Option<int>)

  /** What findStyle consults: the local and global mappings, the styles of
      the document, the pod-specific styles, and the paragraph style of each
      outline level (getParagraphStyleAtLevel of the styles manager). */
  datatype Styles = Styles(local: StylesMapping, global: StylesMapping,
                           odtStyles: map<string, Style>, podSpecific: map<string, Style>,
                           atLevel: int -> Option<Style>)

  /** `m.has_key(key)` with a key that may be None. */
  function Lookup(m: map<string, Style>, key: Option<string>): Option<Style> {
    if key.Some? && key.value in m then Some(m[key.value]) else None
  }

  /** The CSS class: the given class value when set, else the `class`
      attribute. */
  function CssStyleName(attrs: map<string, string>, classValue: Option<string>): Option<string> {
    if Truthy(classValue) then classValue
    else if "class" in attrs then Some(attrs["class"])
    else None
  }

  /** The outline level of a heading: its digit plus the local, else global,
      `h*` delta, and never below 1. */
  function OutlineLevel(st: Styles, elem: string): (level: int)
    requires elem in XHTML_HEADINGS
    ensures level >= 1
    ensures level == 1 || level == DigitValue(elem[1]) + st.local.outlineDelta.GetOr(st.global.outlineDelta.GetOr(0))
  {
    var delta := if st.local.outlineDelta.Some? then st.local.outlineDelta.value
                 else if st.global.outlineDelta.Some? then st.global.outlineDelta.value
                 else 0;
    var level := DigitValue(elem[1]) + delta;
    if level < 1 then 1 else level
  }

  /** findStyle: the first of the local mapping (class, then element), the
      global mapping (class, then element), the document styles and the
      pod-specific styles (class), and for a heading the style of its
      outline level. */
  function FindStyle(st: Styles, elem: string, attrs: map<string, string>, classValue: Option<string>): (r: Option<Style>)
    ensures Lookup(st.local.styles, CssStyleName(attrs, classValue)).Some? ==>
              r == Lookup(st.local.styles, CssStyleName(attrs, classValue))
    ensures r.None? ==> Lookup(st.local.styles, Some(elem)).None? && Lookup(st.global.styles, Some(elem)).None?
  {
    var css := CssStyleName(attrs, classValue);
    if Lookup(st.local.styles, css).Some? then Lookup(st.local.styles, css)
    else if elem in st.local.styles then Some(st.local.styles[elem])
    else if Lookup(st.global.styles, css).Some? then Lookup(st.global.styles, css)
    else if elem in st.global.styles then Some(st.global.styles[elem])
    else if Lookup(st.odtStyles, css).Some? then Lookup(st.odtStyles, css)
    else if Lookup(st.podSpecific, css).Some? then Lookup(st.podSpecific, css)
    else if elem in XHTML_HEADINGS then st.atLevel(OutlineLevel(st, elem))
    else None
  }

  /** The places findStyle searches, highest priority first. */
  function Candidates(st: Styles, elem: string, attrs: map<string, string>, classValue: Option<string>): seq<Option<Style>> {
    var css := CssStyleName(attrs, classValue);
    [Lookup(st.local.styles, css), Lookup(st.local.styles, Some(elem)),
     Lookup(st.global.styles, css), Lookup(st.global.styles, Some(elem)),
     Lookup(st.odtStyles, css), Lookup(st.podSpecific, css),
     if elem in XHTML_HEADINGS then st.atLevel(OutlineLevel(st, elem)) else None]
  }

  function FirstSome<T>(s: seq<Option<T>>): Option<T> {
    if s == [] then None else if s[0].Some? then s[0] else FirstSome(s[1..])
  }

  lemma FirstSomeStep<T>(s: seq<Option<T>>, i: nat)
    requires i < |s|
    ensures FirstSome(s[i..]) == if s[i].Some? then s[i] else FirstSome(s[i + 1..])
  {
    assert s[i..][0] == s[i] && s[i..][1..] == s[i + 1..];
  }

  /** findStyle answers with the first place, in priority order, that knows
      a style. */
  lemma FindStyleOrder(st: Styles, elem: string, attrs: map<string, string>, classValue: Option<string>)
    ensures FindStyle(st, elem, attrs, classValue) == FirstSome(Candidates(st, elem, attrs, classValue))
  {
    var c := Candidates(st, elem, attrs, classValue);
    assert FirstSome(c[6..]) == c[6] by {
      assert c[6..][0] == c[6] && c[6..][1..] == [];
    }
    FirstSomeStep(c, 5);
    FirstSomeStep(c, 4);
    FirstSomeStep(c, 3);
    FirstSomeStep(c, 2);
    FirstSomeStep(c, 1);
    FirstSomeStep(c, 0);
    assert c[0..] == c;
  }

  // ---------------------------------------------------------------------------
  // HtmlTable: a table sub-buffer
  // ---------------------------------------------------------------------------

  /** The table sub-buffer, the temporary buffer filled until the first row
      ends, whether it has ended, and the columns counted so far. */
  datatype HtmlTable = HtmlTable(res: string, tempRes: string, firstRowParsed: bool, nbOfColumns: int)

  const NEW_TABLE := HtmlTable([], [], false, 0)

  /** dumpString inside a table: into `res` while it is empty or once the
      first row is parsed, else into `tempRes`. */
  function TableDumped(t: HtmlTable, s: string): HtmlTable {
    if t.res == [] || t.firstRowParsed then t.(res := t.res + s) else t.(tempRes := t.tempRes + s)
  }

  /** `'<table:table-column/>' * n`: nothing for n <= 0. */
  function ColumnDecls(tablePrefix: string, n: int): string
    decreases n
  {
    if n <= 0 then [] else ColumnDecls(tablePrefix, n - 1) + "<" + tablePrefix + ":table-column/>"
  }

  /** The end of a row: at the end of the first one, the column declarations
      then the temporary buffer move into `res`. */
  function RowEnded(t: HtmlTable, tablePrefix: string): HtmlTable {
    if t.firstRowParsed then t
    else HtmlTable(t.res + ColumnDecls(tablePrefix, t.nbOfColumns) + t.tempRes, [], true, t.nbOfColumns)
  }

  /** A sequence of dumps into a table. */
  function TableDumpedAll(t: HtmlTable, ps: seq<string>): HtmlTable
    decreases |ps|
  {
    if ps == [] then t else TableDumped(TableDumpedAll(t, Init(ps)), Last(ps))
  }

  function Concat(ps: seq<string>): string
    decreases |ps|
  {
    if ps == [] then [] else Concat(Init(ps)) + Last(ps)
  }

  /** Once the table tag is in `res`, everything dumped before the first row
      ends waits in `tempRes`. */
  lemma {:induction false} DumpsBeforeFirstRow(t: HtmlTable, ps: seq<string>)
    requires t.res != [] && !t.firstRowParsed
    ensures TableDumpedAll(t, ps) == t.(tempRes := t.tempRes + Concat(ps))
    decreases |ps|
  {
    if ps != [] {
      DumpsBeforeFirstRow(t, Init(ps));
    }
  }

  /** After the first row, everything goes straight to `res`. */
  lemma {:induction false} DumpsAfterFirstRow(t: HtmlTable, ps: seq<string>)
    requires t.firstRowParsed
    ensures TableDumpedAll(t, ps) == t.(res := t.res + Concat(ps))
    decreases |ps|
  {
    if ps != [] {
      DumpsAfterFirstRow(t, Init(ps));
    }
  }

  /** The layout of a table: its opening, then one declaration per counted
      column, then the first row and everything after it, in order. */
  lemma TableLayout(t: HtmlTable, tablePrefix: string, firstRow: seq<string>, rest: seq<string>)
    requires t.res != [] && !t.firstRowParsed
    ensures var done := TableDumpedAll(RowEnded(TableDumpedAll(t, firstRow), tablePrefix), rest);
            done.res == t.res + ColumnDecls(tablePrefix, t.nbOfColumns) + t.tempRes + Concat(firstRow) + Concat(rest) &&
            done.tempRes == [] && done.firstRowParsed && done.nbOfColumns == t.nbOfColumns
  {
    DumpsBeforeFirstRow(t, firstRow);
    DumpsAfterFirstRow(RowEnded(TableDumpedAll(t, firstRow), tablePrefix), rest);
  }

  // ---------------------------------------------------------------------------
  // HtmlElement
  // ---------------------------------------------------------------------------

  /** An open element: its name, its `class` attribute, the tags to reopen
      once it is dumped and the tags to close before its end. */
  datatype HtmlElement = HtmlElement(elem: string, classAttr: Option<string>, tagsToReopen: string, tagsToClose: string)

  function NewElement(elem: string, attrs: map<string, string>): HtmlElement {
    HtmlElement(elem, if "class" in attrs then Some(attrs["class"]) else None, [], [])
  }

  /** isParagraph: a `p`, or a cell or item inside which a paragraph was
      opened. */
  predicate IsParagraph(e: HtmlElement, ns: Namespaces) {
    e.elem == "p" || (e.elem in OUTER_TAGS && e.tagsToClose == EndTag(ns.text, "p"))
  }

  /** anElementIsMissing: inner content or inline markup directly in a cell
      or item needs a paragraph around it. */
  predicate AnElementIsMissing(previousElem: Option<HtmlElement>, currentElem: Option<string>) {
    previousElem.Some? && previousElem.value.elem in OUTER_TAGS &&
    (currentElem.None? || currentElem.value in INNER_TAGS)
  }

  // ---------------------------------------------------------------------------
  // The environment
  // ---------------------------------------------------------------------------

  /** The state of XhtmlEnvironment. */
  datatype Env = Env(res: string, currentContent: string, elements: seq<HtmlElement>,
                     lists: seq<string>, tables: seq<HtmlTable>, creatingRootParagraph: bool)

  const INITIAL_ENV := Env([], [], [], [], [], false)

  /** getCurrentElement. */
  function Top(env: Env): Option<HtmlElement> {
    if env.elements == [] then None else Some(Last(env.elements))
  }

  /** What the dumps leave alone of an element: all but the closing tags
      of a cell or item. */
  function ElementShape(e: HtmlElement): HtmlElement {
    if e.elem in OUTER_TAGS then e.(tagsToClose := []) else e
  }

  function ElementShapes(es: seq<HtmlElement>): (r: seq<HtmlElement>)
    ensures |r| == |es|
    decreases |es|
  {
    if es == [] then [] else ElementShapes(Init(es)) + [ElementShape(Last(es))]
  }

  /** What the dumps leave alone of a table: the first-row flag and the
      columns counted. */
  function TableShapes(ts: seq<HtmlTable>): (r: seq<(bool, int)>)
    ensures |r| == |ts|
    decreases |ts|
  {
    if ts == [] then [] else TableShapes(Init(ts)) + [(Last(ts).firstRowParsed, Last(ts).nbOfColumns)]
  }

  /** What the dumps leave alone: the shape of the element and table stacks
      and the list stack. */
  predicate SameShape(a: Env, b: Env) {
    ElementShapes(a.elements) == ElementShapes(b.elements) && a.lists == b.lists &&
    TableShapes(a.tables) == TableShapes(b.tables)
  }

  lemma {:induction false} ElementShapesAt(es: seq<HtmlElement>, i: nat)
    requires i < |es|
    ensures ElementShapes(es)[i] == ElementShape(es[i])
    decreases |es|
  {
    if i < |es| - 1 {
      ElementShapesAt(Init(es), i);
    }
  }

  lemma {:induction false} TableShapesAt(ts: seq<HtmlTable>, i: nat)
    requires i < |ts|
    ensures TableShapes(ts)[i] == (ts[i].firstRowParsed, ts[i].nbOfColumns)
    decreases |ts|
  {
    if i < |ts| - 1 {
      TableShapesAt(Init(ts), i);
    }
  }

  /** The older elements of a stack `b` that grew from `a` keep their names
      and, unless they are cells or items, their closing tags. */
  predicate KeepsBelow(a: seq<HtmlElement>, b: seq<HtmlElement>) {
    |a| <= |b| &&
    forall i :: 0 <= i < |a| ==>
      b[i].elem == a[i].elem && (b[i].tagsToClose == a[i].tagsToClose || a[i].elem in OUTER_TAGS)
  }

  /** Stacks of the same shape keep each other's names and closing tags. */
  lemma ShapeKeepsBelow(a: seq<HtmlElement>, b: seq<HtmlElement>)
    requires ElementShapes(a) == ElementShapes(b)
    ensures |a| == |b| && KeepsBelow(a, b) && KeepsBelow(b, a)
  {
    forall i | 0 <= i < |a|
      ensures b[i].elem == a[i].elem && (b[i].tagsToClose == a[i].tagsToClose || a[i].elem in OUTER_TAGS)
    {
      ElementShapesAt(a, i);
      ElementShapesAt(b, i);
    }
  }

  /** The same shape has the same element on top and the same first-row
      flag in the current table. */
  lemma SameShapeTops(a: Env, b: Env)
    requires SameShape(a, b)
    ensures |a.elements| == |b.elements| && |a.tables| == |b.tables|
    ensures a.elements != [] ==> Last(b.elements).elem == Last(a.elements).elem
    ensures a.tables != [] ==> Last(b.tables).firstRowParsed == Last(a.tables).firstRowParsed
  {
    if a.elements != [] {
      ElementShapesAt(a.elements, |a.elements| - 1);
      ElementShapesAt(b.elements, |a.elements| - 1);
    }
    if a.tables != [] {
      TableShapesAt(a.tables, |a.tables| - 1);
      TableShapesAt(b.tables, |a.tables| - 1);
    }
  }

  /** dumpString: without an open table into the global buffer, else into the
      current table's `res` while it is empty or once its first row is
      parsed, else into its `tempRes`. */
  function Dumped(env: Env, s: string): (r: Env)
    ensures SameShape(env, r) && r.elements == env.elements
    ensures r.currentContent == env.currentContent && r.creatingRootParagraph == env.creatingRootParagraph
    ensures env.tables == [] ==> r.res == env.res + s && r.tables == []
    ensures env.tables != [] ==> r.res == env.res && Init(r.tables) == Init(env.tables)
    ensures env.tables != [] && (Last(env.tables).res == [] || Last(env.tables).firstRowParsed) ==>
              Last(r.tables).res == Last(env.tables).res + s && Last(r.tables).tempRes == Last(env.tables).tempRes
    ensures env.tables != [] && !(Last(env.tables).res == [] || Last(env.tables).firstRowParsed) ==>
              Last(r.tables).res == Last(env.tables).res && Last(r.tables).tempRes == Last(env.tables).tempRes + s
  {
    if env.tables == [] then env.(res := env.res + s)
    else env.(tables := Init(env.tables) + [TableDumped(Last(env.tables), s)])
  }

  /** Routing that cannot switch buffers: no open table, or a current table
      whose `res` is started or whose first row is parsed. */
  predicate SteadyRouting(env: Env) {
    env.tables == [] || Last(env.tables).res != [] || Last(env.tables).firstRowParsed
  }

  lemma DumpedTwice(env: Env, a: string, b: string)
    requires SteadyRouting(env)
    ensures SteadyRouting(Dumped(env, a))
    ensures Dumped(Dumped(env, a), b) == Dumped(env, a + b)
  {
    if env.tables != [] {
      var t := Last(env.tables);
      assert Dumped(Dumped(env, a), b).tables == Init(env.tables) + [TableDumped(TableDumped(t, a), b)];
      if t.res != [] && !t.firstRowParsed {
        assert TableDumped(TableDumped(t, a), b) == TableDumped(t, a + b);
      } else {
        assert TableDumped(TableDumped(t, a), b) == TableDumped(t, a + b);
      }
    }
  }

  /** The loop of dumpCurrentContent: one escaped character at a time. */
  function CharsDumped(env: Env, text: string): (r: Env)
    ensures SameShape(env, r) && r.elements == env.elements
    ensures r.currentContent == env.currentContent && r.creatingRootParagraph == env.creatingRootParagraph
    decreases |text|
  {
    if text == [] then env else Dumped(CharsDumped(env, Init(text)), XmlEscapedChar(Last(text)))
  }

  /** With steady routing, dumping the characters one by one is dumping the
      escaped text at once. */
  lemma {:induction false} CharsDumpedAtOnce(env: Env, text: string)
    requires SteadyRouting(env)
    ensures SteadyRouting(CharsDumped(env, text))
    ensures CharsDumped(env, text) == Dumped(env, XmlEscaped(text))
    decreases |text|
  {
    if text == [] {
      assert env.res + [] == env.res;
      if env.tables != [] {
        assert TableDumped(Last(env.tables), []) == Last(env.tables);
        assert Init(env.tables) + [Last(env.tables)] == env.tables;
      }
    } else {
      CharsDumpedAtOnce(env, Init(text));
      DumpedTwice(env, XmlEscaped(Init(text)), XmlEscapedChar(Last(text)));
    }
  }

  /** The element on top may need a list: an item uses the style of the
      enclosing list. */
  predicate TopListed(env: Env) {
    env.elements != [] && Last(env.elements).elem == "li" ==> env.lists != [] && Last(env.lists) in XHTML_LISTS
  }

  lemma SameShapeTopListed(a: Env, b: Env)
    requires SameShape(a, b) && TopListed(a)
    ensures TopListed(b)
  {
    SameShapeTops(a, b);
  }

  /** The item style of addInnerParagraph: that of the enclosing list, in
      its keep-with-next variant when the item's class maps to that style. */
  function ItemStyle(env: Env, e: HtmlElement, st: Styles): string
    requires env.lists != [] && Last(env.lists) in XHTML_LISTS
  {
    var keep := Truthy(e.classAttr) &&
                match FindStyle(st, e.elem, map[], e.classAttr)
                case Some(s) => s.name == KEEP_WITH_NEXT
                case None => false;
    ITEM_STYLES[ItemStyleKey(Last(env.lists), keep)]
  }

  /** `itemStyle`, with `_kwn` appended for a keep-with-next item. */
  function ItemStyleKey(list: string, keep: bool): (key: string)
    requires list in XHTML_LISTS
    ensures key in ITEM_STYLES
  {
    assert "ul" + "_kwn" == "ul_kwn" && "ol" + "_kwn" == "ol_kwn";
    if keep then list + "_kwn" else list
  }

  /** addInnerParagraph on the element on top: opens a paragraph inside it,
      unless one was already opened, and records that it must be closed. */
  function WithInnerParagraph(env: Env, ns: Namespaces, st: Styles): (r: Env)
    requires env.elements != [] && Last(env.elements).elem in OUTER_TAGS && TopListed(env)
    ensures SameShape(env, r)
    ensures r.currentContent == env.currentContent && r.creatingRootParagraph == env.creatingRootParagraph
    ensures Init(r.elements) == Init(env.elements)
    ensures Last(env.elements).tagsToClose != [] ==> r == env
    ensures Last(env.elements).tagsToClose == [] ==> Last(r.elements).tagsToClose == EndTag(ns.text, "p")
  {
    var e := Last(env.elements);
    if e.tagsToClose != [] then env
    else
      var e1 := Dumped(env, "<" + ns.text + ":p");
      var e2 := if e.elem == "li" then Dumped(e1, StyleNameAttr(ns.text, ItemStyle(env, e, st))) else e1;
      var e3 := Dumped(e2, ">");
      e3.(elements := Init(e3.elements) + [e.(tagsToClose := EndTag(ns.text, "p"))])
  }

  /** addInnerParagraph opens at most one paragraph: a second call changes
      nothing. */
  lemma InnerParagraphIdempotent(env: Env, ns: Namespaces, st: Styles)
    requires env.elements != [] && Last(env.elements).elem in OUTER_TAGS && TopListed(env)
    ensures var once := WithInnerParagraph(env, ns, st);
            TopListed(once) && WithInnerParagraph(once, ns, st) == once
  {
    SameShapeTopListed(env, WithInnerParagraph(env, ns, st));
  }

  /** dumpCurrentContent: nothing for content `unicode.strip()` empties
      (an `&nbsp;` alone, say); otherwise a paragraph is
      opened in a cell or item on top, the content without its surrounding
      newlines is dumped escaped, and the content is reset. */
  function ContentDumped(env: Env, ns: Namespaces, st: Styles): (r: Env)
    requires TopListed(env)
    ensures SameShape(env, r) && r.creatingRootParagraph == env.creatingRootParagraph
    ensures UStrip(env.currentContent) == [] ==> r == env
    ensures UStrip(env.currentContent) != [] ==> r.currentContent == []
  {
    if UStrip(env.currentContent) == [] then env
    else
      var e1 := if AnElementIsMissing(Top(env), None) then WithInnerParagraph(env, ns, st) else env;
      CharsDumped(e1, StripNewlines(env.currentContent)).(currentContent := [])
  }

  /** The style attribute dumpStyledElement writes, if any: the style found,
      else the default style of the element. */
  function StyleNameOf(odtStyle: Option<Style>, elem: string): Option<string> {
    if odtStyle.Some? then Some(odtStyle.value.name)
    else if elem in DEFAULT_ODT_STYLES then Some(DEFAULT_ODT_STYLES[elem])
    else None
  }

  /** dumpStyledElement: the ODT tag, its style when one is found or is the
      default, and for a heading style with an outline level that level. */
  function StyledElementDumped(env: Env, elem: string, attrs: map<string, string>, ns: Namespaces, st: Styles): (r: Env)
    requires elem in HTML_2_ODT
    ensures SameShape(env, r) && r.elements == env.elements
    ensures r.currentContent == env.currentContent && r.creatingRootParagraph == env.creatingRootParagraph
  {
    var e1 := Dumped(env, "<" + ns.text + ":" + HTML_2_ODT[elem]);
    var odtStyle := FindStyle(st, elem, attrs, None);
    var styleName := StyleNameOf(odtStyle, elem);
    var e2 :=
      if Truthy(styleName) then
        var e := Dumped(e1, StyleNameAttr(ns.text, styleName.value));
        // A heading has no default style, so a style name here was found.
        if elem in XHTML_HEADINGS && odtStyle.Some? && odtStyle.value.outlineLevel.Some? then
          Dumped(e, " " + ns.text + ":outline-level=\"" + IntToString(odtStyle.value.outlineLevel.value) + "\"")
        else e
      else e1;
    Dumped(e2, ">")
  }

  /** dumpRootParagraph: content outside any tag goes into a root paragraph,
      started unless one is being created and ended unless a non-paragraph
      element comes next; an empty paragraph is never written. */
  function RootParagraphDumped(env: Env, currentElem: Option<string>, ns: Namespaces, st: Styles): (r: Env)
    requires TopListed(env)
    ensures SameShape(env, r)
  {
    var mustStart := !env.creatingRootParagraph;
    var mustEnd := !(currentElem.Some? && currentElem.value != [] && currentElem.value !in XHTML_PARAGRAPH_TAGS);
    if mustStart && mustEnd && UStrip(env.currentContent) == [] then env
    else
      var e1 := if mustStart then StyledElementDumped(env, "p", map[], ns, st).(creatingRootParagraph := true) else env;
      SameShapeTopListed(env, e1);
      var e2 := ContentDumped(e1, ns, st);
      if mustEnd then Dumped(e2, EndTag(ns.text, "p")).(creatingRootParagraph := false) else e2
  }

  /** getConflictualElements: a table or list right inside a paragraph-like
      element conflicts with the paragraph. */
  function ConflictualElements(env: Env, elem: string, ns: Namespaces): (r: seq<string>)
    ensures r == [] || r == ["p"]
  {
    if env.elements != [] && IsParagraph(Last(env.elements), ns) && elem in NOT_INSIDE_P then ["p"] else []
  }

  /** The closing tags of the conflicting elements, innermost first. */
  function ClosingTags(ns: Namespaces, cs: seq<string>): string
    requires forall c :: c in cs ==> c in HTML_2_ODT
    decreases |cs|
  {
    if cs == [] then [] else EndTag(ns.text, HTML_2_ODT[Last(cs)]) + ClosingTags(ns, Init(cs))
  }

  /** Their opening tags, outermost first. */
  function OpeningTags(ns: Namespaces, cs: seq<string>): string
    requires forall c :: c in cs ==> c in HTML_2_ODT
    decreases |cs|
  {
    if cs == [] then [] else OpeningTags(ns, Init(cs)) + Tag(ns.text, HTML_2_ODT[Last(cs)])
  }

  /** The first step of onElementStart: a root paragraph under the root
      element, else the pending content. */
  function StartContentDumped(env: Env, elem: string, ns: Namespaces, st: Styles): (r: Env)
    requires TopListed(env)
    ensures SameShape(env, r)
  {
    var previousElem := Top(env);
    if previousElem.Some? && previousElem.value.elem == "podxhtml" then RootParagraphDumped(env, Some(elem), ns, st)
    else ContentDumped(env, ns, st)
  }

  /** The second step: conflicting elements are closed now and their tags
      are to be reopened after the new element. */
  function ConflictsClosed(env: Env, elem: string, ns: Namespaces): (r: (Env, string))
    ensures SameShape(env, r.0)
  {
    var cs := ConflictualElements(env, elem, ns);
    if cs != [] then (Dumped(env, ClosingTags(ns, cs)), OpeningTags(ns, cs)) else (env, [])
  }

  /** A table, list or item opened right inside a paragraph closes the
      paragraph first and reopens it once the new element is dumped. */
  lemma ParagraphSplitAround(env: Env, elem: string, ns: Namespaces)
    ensures var (after, reopen) := ConflictsClosed(env, elem, ns);
            if env.elements != [] && IsParagraph(Last(env.elements), ns) && elem in NOT_INSIDE_P then
              after == Dumped(env, EndTag(ns.text, "p")) && reopen == Tag(ns.text, "p")
            else after == env && reopen == []
  {
    var cs := ConflictualElements(env, elem, ns);
    if cs != [] {
      assert Init(cs) == [] && Last(cs) == "p" && HTML_2_ODT["p"] == "p";
      assert ClosingTags(ns, cs) == EndTag(ns.text, HTML_2_ODT[Last(cs)]) + ClosingTags(ns, Init(cs));
      assert ClosingTags(ns, cs) == EndTag(ns.text, "p") + [];
      assert OpeningTags(ns, cs) == OpeningTags(ns, Init(cs)) + Tag(ns.text, HTML_2_ODT[Last(cs)]);
      assert OpeningTags(ns, cs) == [] + Tag(ns.text, "p");
      assert EndTag(ns.text, "p") + [] == EndTag(ns.text, "p");
      assert [] + Tag(ns.text, "p") == Tag(ns.text, "p");
      assert ConflictsClosed(env, elem, ns) == (Dumped(env, EndTag(ns.text, "p")), Tag(ns.text, "p"));
    }
  }

  /** The column count of a cell: its colspan, 1 by default. */
  function Colspan(attrs: map<string, string>): int
    requires "colspan" in attrs ==> PyInt(attrs["colspan"]).Some?
  {
    if "colspan" in attrs then PyInt(attrs["colspan"]).value else 1
  }

  /** What onElementStart needs not to raise: a list around an item on top,
      an open table around a cell, and an integer colspan on a cell of the
      first row. */
  predicate StartAllowed(env: Env, elem: string, attrs: map<string, string>) {
    TopListed(env) &&
    (elem in TABLE_CELL_TAGS ==>
       env.tables != [] &&
       (!Last(env.tables).firstRowParsed && "colspan" in attrs ==> PyInt(attrs["colspan"]).Some?))
  }

  /** A state with the same shape allows the same start, and has the same
      element on top. */
  lemma SameShapeStart(a: Env, b: Env, elem: string, attrs: map<string, string>)
    requires SameShape(a, b) && StartAllowed(a, elem, attrs)
    ensures StartAllowed(b, elem, attrs)
    ensures a.elements != [] ==> Last(b.elements).elem == Last(a.elements).elem
  {
    SameShapeTopListed(a, b);
    SameShapeTops(a, b);
  }

  /** The third step of onElementStart: inline markup right inside a cell or
      item first opens a paragraph there. */
  function MissingOpened(env: Env, previousElem: Option<HtmlElement>, elem: string, ns: Namespaces, st: Styles): (r: Env)
    requires TopListed(env)
    requires previousElem.Some? ==> env.elements != [] && Last(env.elements).elem == previousElem.value.elem
    ensures SameShape(env, r)
  {
    if AnElementIsMissing(previousElem, Some(elem)) then WithInnerParagraph(env, ns, st) else env
  }

  /** The last step: the element is pushed, a list or a table also on its
      own stack, and a cell of the first row adds its colspan. */
  function Pushed(env: Env, elem: string, attrs: map<string, string>, reopen: string): (r: Env)
    requires StartAllowed(env, elem, attrs)
    ensures r.elements == env.elements + [NewElement(elem, attrs).(tagsToReopen := reopen)]
    ensures r.lists == env.lists + (if elem in XHTML_LISTS then [elem] else [])
    ensures |r.tables| == |env.tables| + (if elem == "table" then 1 else 0)
    ensures r.res == env.res && r.currentContent == env.currentContent && r.creatingRootParagraph == env.creatingRootParagraph
  {
    var e := env.(elements := env.elements + [NewElement(elem, attrs).(tagsToReopen := reopen)]);
    if elem in XHTML_LISTS then e.(lists := e.lists + [elem])
    else if elem == "table" then e.(tables := e.tables + [NEW_TABLE])
    else if elem in TABLE_CELL_TAGS then
      var t := Last(e.tables);
      if t.firstRowParsed then e
      else e.(tables := Init(e.tables) + [t.(nbOfColumns := t.nbOfColumns + Colspan(attrs))])
    else e
  }

  /** Each cell of the first row adds its colspan, 1 by default, to the
      columns of the current table; later cells count nothing. */
  lemma CellsCounted(env: Env, elem: string, attrs: map<string, string>, reopen: string)
    requires StartAllowed(env, elem, attrs) && elem in TABLE_CELL_TAGS
    ensures var r := Pushed(env, elem, attrs, reopen);
            Init(r.tables) == Init(env.tables) &&
            Last(r.tables).nbOfColumns ==
              Last(env.tables).nbOfColumns + (if Last(env.tables).firstRowParsed then 0
                                              else if "colspan" in attrs then PyInt(attrs["colspan"]).value else 1)
  {
  }

  /** onElementStart. */
  function ElementStarted(env: Env, elem: string, attrs: map<string, string>, ns: Namespaces, st: Styles): (r: Env)
    requires StartAllowed(env, elem, attrs)
    ensures |r.elements| == |env.elements| + 1 && KeepsBelow(env.elements, r.elements)
    ensures Last(r.elements).elem == elem && Last(r.elements).tagsToClose == []
    ensures r.lists == env.lists + (if elem in XHTML_LISTS then [elem] else [])
    ensures |r.tables| == |env.tables| + (if elem == "table" then 1 else 0)
  {
    var e1 := StartContentDumped(env, elem, ns, st);
    var (e2, reopen) := ConflictsClosed(e1, elem, ns);
    SameShapeStart(env, e2, elem, attrs);
    var e3 := MissingOpened(e2, Top(env), elem, ns, st);
    SameShapeStart(e2, e3, elem, attrs);
    ShapeKeepsBelow(env.elements, e3.elements);
    PushedOnTop(env, e3, elem, attrs, reopen);
    Pushed(e3, elem, attrs, reopen)
  }

  lemma PushedOnTop(env: Env, e: Env, elem: string, attrs: map<string, string>, reopen: string)
    requires StartAllowed(e, elem, attrs)
    requires |env.elements| == |e.elements| && KeepsBelow(env.elements, e.elements)
    requires e.lists == env.lists && |e.tables| == |env.tables|
    ensures var r := Pushed(e, elem, attrs, reopen);
            |r.elements| == |env.elements| + 1 && KeepsBelow(env.elements, r.elements) &&
            Last(r.elements).elem == elem && Last(r.elements).tagsToClose == [] &&
            r.lists == env.lists + (if elem in XHTML_LISTS then [elem] else []) &&
            |r.tables| == |env.tables| + (if elem == "table" then 1 else 0)
  {
  }

  /** What onElementEnd needs not to raise. */
  predicate EndAllowed(env: Env, elem: string) {
    TopListed(env) && env.elements != [] &&
    (elem in XHTML_LISTS ==> env.lists != []) &&
    (elem == "table" || elem == "tr" ==> env.tables != [])
  }

  lemma SameShapeEnd(a: Env, b: Env, elem: string)
    requires SameShape(a, b) && EndAllowed(a, elem)
    ensures EndAllowed(b, elem)
  {
    SameShapeTopListed(a, b);
  }

  /** The first step of onElementEnd: the root paragraph at the end of the
      root element, else the pending content. */
  function EndContentDumped(env: Env, elem: string, ns: Namespaces, st: Styles): (r: Env)
    requires TopListed(env)
    ensures SameShape(env, r)
  {
    if elem == "podxhtml" then RootParagraphDumped(env, None, ns, st) else ContentDumped(env, ns, st)
  }

  /** The stacks popped at the end of an element: a list leaves the list
      stack; a table leaves the table stack and its buffer goes into the
      parent buffer; a row ends its table's first row if it was the first. */
  function Popped(env: Env, elem: string, ns: Namespaces): (r: Env)
    requires EndAllowed(env, elem)
  {
    var e := env.(elements := Init(env.elements));
    if elem in XHTML_LISTS then e.(lists := Init(e.lists))
    else if elem == "table" then Dumped(e.(tables := Init(e.tables)), Last(e.tables).res)
    else if elem == "tr" then e.(tables := Init(e.tables) + [RowEnded(Last(e.tables), ns.table)])
    else e
  }

  /** onElementEnd: the new state and the tags to reopen after the end tag. */
  function ElementEnded(env: Env, elem: string, ns: Namespaces, st: Styles): (r: (Env, string))
    requires EndAllowed(env, elem)
    ensures |r.0.elements| == |env.elements| - 1 && KeepsBelow(r.0.elements, env.elements)
    ensures r.0.lists == if elem in XHTML_LISTS then Init(env.lists) else env.lists
    ensures |r.0.tables| == |env.tables| - (if elem == "table" then 1 else 0)
  {
    var e1 := EndContentDumped(env, elem, ns, st);
    SameShapeEnd(env, e1, elem);
    ShapeKeepsBelow(env.elements, e1.elements);
    var currentElem := Last(e1.elements);
    var e2 := Popped(e1, elem, ns);
    (if currentElem.tagsToClose != [] then Dumped(e2, currentElem.tagsToClose) else e2, currentElem.tagsToReopen)
  }

  /** The end of a table pops its buffer and dumps all of it into the parent
      buffer: the global one for an outermost table, else that of the
      enclosing table. */
  lemma TableEndDumpsIntoParent(env: Env, ns: Namespaces)
    requires EndAllowed(env, "table")
    ensures var r := Popped(env, "table", ns);
            var t := Last(env.tables);
            r.elements == Init(env.elements) && |r.tables| == |env.tables| - 1 &&
            (|env.tables| == 1 ==> r.res == env.res + t.res) &&
            (|env.tables| > 1 ==> r.res == env.res && Last(r.tables) == TableDumped(env.tables[|env.tables| - 2], t.res))
  {
  }

  /** The end of the first row of a table writes one declaration per counted
      column, then what was held back, and clears the temporary buffer; the
      end of a later row changes no buffer. */
  lemma FirstRowEndDeclaresColumns(env: Env, ns: Namespaces)
    requires EndAllowed(env, "tr")
    ensures var r := Popped(env, "tr", ns);
            var t := Last(env.tables);
            r.elements == Init(env.elements) && Init(r.tables) == Init(env.tables) &&
            (!t.firstRowParsed ==>
               Last(r.tables) == HtmlTable(t.res + ColumnDecls(ns.table, t.nbOfColumns) + t.tempRes, [], true, t.nbOfColumns)) &&
            (t.firstRowParsed ==> Last(r.tables) == t)
  {
  }

  // ---------------------------------------------------------------------------
  // The parser's tags
  // ---------------------------------------------------------------------------

  /** The start tag of a list: wrapped in a list item when it is nested in
      another list (`lists` already holds the new one). */
  function ListStart(ns: Namespaces, elem: string, lists: seq<string>): string
    requires elem in LIST_STYLES
  {
    (if |lists| >= 2 then Tag(ns.text, "list-item") else []) +
    "<" + ns.text + ":list " + ns.text + ":style-name=\"" + LIST_STYLES[elem] + "\">"
  }

  /** The end tag of a list: the wrapping item is closed when a list is still
      open (`lists` no longer holds the ended one). */
  function ListEnd(ns: Namespaces, lists: seq<string>): string {
    EndTag(ns.text, "list") + (if |lists| >= 1 then EndTag(ns.text, "list-item") else [])
  }

  /** A list opens a wrapping item exactly when its end closes one. */
  lemma ListWrappingBalanced(ns: Namespaces, elem: string, outer: seq<string>)
    requires elem in LIST_STYLES
    ensures StartsWith(ListStart(ns, elem, outer + [elem]), Tag(ns.text, "list-item")) <==> outer != []
    ensures EndsWith(ListEnd(ns, outer), EndTag(ns.text, "list-item")) <==> outer != []
  {
    var item := Tag(ns.text, "list-item");
    if outer == [] {
      var s := ListStart(ns, elem, outer + [elem]);
      assert s == "<" + ns.text + ":list " + ns.text + ":style-name=\"" + LIST_STYLES[elem] + "\">";
      var k := |ns.text| + 6;
      assert s[k] == ' ' && item[k] == '-';
      assert s[..|item|][k] != item[k];
      var e := ListEnd(ns, outer);
      assert e == EndTag(ns.text, "list");
      assert |e| < |EndTag(ns.text, "list-item")|;
    } else {
      var s := ListStart(ns, elem, outer + [elem]);
      assert s[..|item|] == item;
      var e := ListEnd(ns, outer);
      var close := EndTag(ns.text, "list-item");
      assert e[|e| - |close|..] == close;
    }
  }

  /** The markup startElement writes after onElementStart. */
  function StartTagsDumped(env: Env, elem: string, attrs: map<string, string>, ns: Namespaces, st: Styles): (r: Env)
    ensures SameShape(env, r) && r.elements == env.elements
    ensures r.currentContent == env.currentContent && r.creatingRootParagraph == env.creatingRootParagraph
  {
    if elem in HTML_2_ODT then StyledElementDumped(env, elem, attrs, ns, st)
    else if elem == "a" then
      var e1 := Dumped(env, "<" + ns.text + ":a " + ns.link + ":type=\"simple\"");
      var e2 := if "href" in attrs then Dumped(e1, " " + ns.link + ":href=\"" + attrs["href"] + "\"") else e1;
      Dumped(e2, ">")
    else if elem in XHTML_LISTS then Dumped(env, ListStart(ns, elem, env.lists))
    else if elem == "li" then Dumped(env, Tag(ns.text, "list-item"))
    else if elem == "table" then Dumped(env, "<" + ns.table + ":table " + ns.table + ":style-name=\"podTable\">")
    else if elem == "thead" then Dumped(env, Tag(ns.table, "table-header-rows"))
    else if elem == "tr" then Dumped(env, Tag(ns.table, "table-row"))
    else if elem in TABLE_CELL_TAGS then
      var e1 := Dumped(env, "<" + ns.table + ":table-cell " + ns.table + ":style-name=\"" + DEFAULT_ODT_STYLES[elem] + "\"");
      var e2 := if "colspan" in attrs then Dumped(e1, " " + ns.table + ":number-columns-spanned=\"" + attrs["colspan"] + "\"") else e1;
      Dumped(e2, ">")
    else env
  }

  /** The markup endElement writes after onElementEnd. */
  function EndTagsDumped(env: Env, elem: string, ns: Namespaces): (r: Env)
    ensures SameShape(env, r) && r.elements == env.elements
    ensures r.currentContent == env.currentContent && r.creatingRootParagraph == env.creatingRootParagraph
  {
    if elem in HTML_2_ODT then Dumped(env, EndTag(ns.text, HTML_2_ODT[elem]))
    else if elem == "a" then Dumped(env, EndTag(ns.text, "a"))
    else if elem in XHTML_LISTS then Dumped(env, ListEnd(ns, env.lists))
    else if elem == "li" then Dumped(env, EndTag(ns.text, "list-item"))
    else if elem == "table" then Dumped(env, EndTag(ns.table, "table"))
    else if elem == "thead" then Dumped(env, EndTag(ns.table, "table-header-rows"))
    else if elem == "tr" then Dumped(env, EndTag(ns.table, "table-row"))
    else if elem in TABLE_CELL_TAGS then Dumped(env, EndTag(ns.table, "table-cell"))
    else env
  }

  // ---------------------------------------------------------------------------
  // The parser: well-formed stacks
  // ---------------------------------------------------------------------------

  /** The open lists, in order. */
  function ListNames(es: seq<HtmlElement>): (r: seq<string>)
    ensures forall i :: 0 <= i < |r| ==> r[i] in XHTML_LISTS
    decreases |es|
  {
    if es == [] then [] else ListNames(Init(es)) + (if Last(es).elem in XHTML_LISTS then [Last(es).elem] else [])
  }

  /** The number of open tables. */
  function TableCount(es: seq<HtmlElement>): nat
    decreases |es|
  {
    if es == [] then 0 else TableCount(Init(es)) + (if Last(es).elem == "table" then 1 else 0)
  }

  /** Every item is inside a list. */
  predicate ItemsInLists(es: seq<HtmlElement>) {
    forall i :: 0 <= i < |es| && es[i].elem == "li" ==> ListNames(es[..i]) != []
  }

  /** Only a cell or an item has tags to close. */
  predicate OnlyOuterClose(es: seq<HtmlElement>) {
    forall i :: 0 <= i < |es| && es[i].elem !in OUTER_TAGS ==> es[i].tagsToClose == []
  }

  /** The environment's invariant: the list stack holds the open lists, the
      table stack one buffer per open table, items sit in lists and only cells
      and items have tags to close. */
  predicate Valid(env: Env) {
    env.lists == ListNames(env.elements) && |env.tables| == TableCount(env.elements) &&
    ItemsInLists(env.elements) && OnlyOuterClose(env.elements)
  }

  lemma {:induction false} NamesOnly(a: seq<HtmlElement>, b: seq<HtmlElement>)
    requires |a| == |b| && forall i :: 0 <= i < |a| ==> a[i].elem == b[i].elem
    ensures ListNames(a) == ListNames(b) && TableCount(a) == TableCount(b)
    decreases |a|
  {
    if a != [] {
      NamesOnly(Init(a), Init(b));
    }
  }

  /** Valid only looks at the names and closing tags of the open elements. */
  lemma KeepsValid(a: Env, b: Env)
    requires Valid(a) && |a.elements| == |b.elements| && KeepsBelow(a.elements, b.elements)
    requires b.lists == a.lists && |b.tables| == |a.tables|
    ensures Valid(b)
  {
    NamesOnly(a.elements, b.elements);
    forall i | 0 <= i < |b.elements| && b.elements[i].elem == "li"
      ensures ListNames(b.elements[..i]) != []
    {
      NamesOnly(a.elements[..i], b.elements[..i]);
    }
  }

  lemma ValidTopListed(env: Env)
    requires Valid(env)
    ensures TopListed(env)
  {
    var es := env.elements;
    if es != [] && Last(es).elem == "li" {
      assert es[..|es| - 1] == Init(es);
    }
  }

  /** What the parser needs of a start: the invariant, an item only inside
      a list, an open table around a cell, and an integer colspan on a cell
      of a first row. */
  predicate StartOk(env: Env, elem: string, attrs: map<string, string>) {
    Valid(env) && (elem == "li" ==> env.lists != []) &&
    (elem in TABLE_CELL_TAGS ==>
       env.tables != [] &&
       (!Last(env.tables).firstRowParsed && "colspan" in attrs ==> PyInt(attrs["colspan"]).Some?))
  }

  /** What the parser needs of an end: the invariant, the element on top
      being the one that ends (the XML is well formed), and an open table
      around a row. */
  predicate EndOk(env: Env, elem: string) {
    Valid(env) && env.elements != [] && Last(env.elements).elem == elem &&
    (elem == "tr" ==> env.tables != [])
  }

  /** startElement after lowering: onElementStart, then the element's
      markup. */
  function ElementStartSpec(env: Env, elem: string, attrs: map<string, string>, ns: Namespaces, st: Styles): (r: Env)
    requires StartOk(env, elem, attrs)
    ensures Valid(r)
  {
    ValidTopListed(env);
    var e1 := ElementStarted(env, elem, attrs, ns, st);
    ValidAfterStart(env, e1, elem);
    var r := StartTagsDumped(e1, elem, attrs, ns, st);
    KeepsValid(e1, r);
    r
  }

  lemma ValidAfterStart(env: Env, r: Env, elem: string)
    requires Valid(env) && (elem == "li" ==> env.lists != [])
    requires |r.elements| == |env.elements| + 1 && KeepsBelow(env.elements, r.elements)
    requires Last(r.elements).elem == elem && Last(r.elements).tagsToClose == []
    requires r.lists == env.lists + (if elem in XHTML_LISTS then [elem] else [])
    requires |r.tables| == |env.tables| + (if elem == "table" then 1 else 0)
    ensures Valid(r)
  {
    var n := |env.elements|;
    NamesOnly(env.elements, Init(r.elements));
    forall i | 0 <= i < |r.elements| && r.elements[i].elem == "li"
      ensures ListNames(r.elements[..i]) != []
    {
      if i < n {
        assert r.elements[..i] == Init(r.elements)[..i];
        NamesOnly(env.elements[..i], Init(r.elements)[..i]);
      } else {
        assert r.elements[..i] == Init(r.elements);
      }
    }
  }

  /** endElement after lowering: onElementEnd, the element's end markup,
      then the tags to reopen. */
  function ElementEndSpec(env: Env, elem: string, ns: Namespaces, st: Styles): (r: Env)
    requires EndOk(env, elem)
    ensures Valid(r)
  {
    ValidTopListed(env);
    ValidEndAllowed(env, elem);
    var (e1, reopen) := ElementEnded(env, elem, ns, st);
    ValidAfterEnd(env, e1, elem);
    var e2 := EndTagsDumped(e1, elem, ns);
    KeepsValid(e1, e2);
    var r := if reopen != [] then Dumped(e2, reopen) else e2;
    KeepsValid(e2, r);
    r
  }

  lemma ValidEndAllowed(env: Env, elem: string)
    requires EndOk(env, elem)
    ensures EndAllowed(env, elem)
  {
    ValidTopListed(env);
    assert Init(env.elements) + [Last(env.elements)] == env.elements;
  }

  lemma ValidAfterEnd(env: Env, r: Env, elem: string)
    requires Valid(env) && env.elements != [] && Last(env.elements).elem == elem
    requires |r.elements| == |env.elements| - 1 && KeepsBelow(r.elements, env.elements)
    requires elem in XHTML_LISTS ==> env.lists != []
    requires r.lists == if elem in XHTML_LISTS then Init(env.lists) else env.lists
    requires |r.tables| == |env.tables| - (if elem == "table" then 1 else 0)
    ensures Valid(r)
  {
    NamesOnly(r.elements, Init(env.elements));
    forall i | 0 <= i < |r.elements| && r.elements[i].elem == "li"
      ensures ListNames(r.elements[..i]) != []
    {
      assert env.elements[..i] == Init(env.elements)[..i];
      NamesOnly(r.elements[..i], env.elements[..i]);
    }
  }

  /** The start and end markup of a list agree on the wrapping item: with a
      valid state and a well-formed end, the lists open around a list are
      the same at its start and at its end. */
  lemma ListTagsAgree(env: Env, elem: string, attrs: map<string, string>, ns: Namespaces, st: Styles)
    requires StartOk(env, elem, attrs) && elem in XHTML_LISTS
    ensures var started := ElementStarted(env, elem, attrs, ns, st);
            started.lists == env.lists + [elem] &&
            (StartsWith(ListStart(ns, elem, started.lists), Tag(ns.text, "list-item")) <==>
             EndsWith(ListEnd(ns, Init(started.lists)), EndTag(ns.text, "list-item")))
  {
    ValidTopListed(env);
    var started := ElementStarted(env, elem, attrs, ns, st);
    assert Init(started.lists) == env.lists;
    ListWrappingBalanced(ns, elem, env.lists);
  }

  /** Lowered attributes: the names in lower case, a later attribute
      winning over an earlier one with the same lowered name. */
  function LoweredAttrs(attrs: seq<(string, string)>): (r: map<string, string>)
    decreases |attrs|
  {
    if attrs == [] then map[] else LoweredAttrs(Init(attrs))[Lower(Last(attrs).0) := Last(attrs).1]
  }

  /** Every attribute is kept under its lowered name, with its value unless
      a later one has the same lowered name; no other name appears. */
  lemma {:induction false} LoweredAttrsKeep(attrs: seq<(string, string)>, i: nat)
    requires i < |attrs|
    ensures Lower(attrs[i].0) in LoweredAttrs(attrs)
    ensures (forall j :: i < j < |attrs| ==> Lower(attrs[j].0) != Lower(attrs[i].0)) ==>
              LoweredAttrs(attrs)[Lower(attrs[i].0)] == attrs[i].1
    decreases |attrs|
  {
    if i < |attrs| - 1 {
      LoweredAttrsKeep(Init(attrs), i);
    }
  }

  lemma {:induction false} LoweredAttrsOnly(attrs: seq<(string, string)>, k: string)
    requires k in LoweredAttrs(attrs)
    ensures exists i :: 0 <= i < |attrs| && Lower(attrs[i].0) == k
    decreases |attrs|
  {
    if k != Lower(Last(attrs).0) {
      LoweredAttrsOnly(Init(attrs), k);
      var i :| 0 <= i < |Init(attrs)| && Lower(Init(attrs)[i].0) == k;
      assert attrs[i] == Init(attrs)[i];
    } else {
      assert attrs[|attrs| - 1] == Last(attrs);
    }
  }

  // ---------------------------------------------------------------------------
  // XhtmlEnvironment and XhtmlParser
  // ---------------------------------------------------------------------------

  /** The environment the parser updates; `styles` stands for the converter
      that finds styles. */
  class XhtmlEnvironment {
    const ns: Namespaces
    const styles: Styles
    var res: string
    var currentContent: string
    var currentElements: seq<HtmlElement>
    var currentLists: seq<string>
    var currentTables: seq<HtmlTable>
    var creatingRootParagraph: bool

    function State(): Env
      reads this
    {
      Env(res, currentContent, currentElements, currentLists, currentTables, creatingRootParagraph)
    }

    constructor (ns: Namespaces, styles: Styles)
      ensures this.ns == ns && this.styles == styles && State() == INITIAL_ENV
    {
      this.ns := ns;
      this.styles := styles;
      res := [];
      currentContent := [];
      currentElements := [];
      currentLists := [];
      currentTables := [];
      creatingRootParagraph := false;
    }

    method DumpString(s: string)
      modifies this
      ensures State() == Dumped(old(State()), s)
    {
      if currentTables != [] {
        var t := Last(currentTables);
        if t.res == [] || t.firstRowParsed {
          t := t.(res := t.res + s);
        } else {
          t := t.(tempRes := t.tempRes + s);
        }
        currentTables := Init(currentTables) + [t];
      } else {
        res := res + s;
      }
    }

    method AddInnerParagraph()
      requires currentElements != [] && Last(currentElements).elem in OUTER_TAGS && TopListed(State())
      modifies this
      ensures State() == WithInnerParagraph(old(State()), ns, styles)
    {
      var e := Last(currentElements);
      if e.tagsToClose == [] {
        var itemStyle := if e.elem == "li" then ItemStyle(State(), e, styles) else [];
        DumpString("<" + ns.text + ":p");
        if e.elem == "li" {
          DumpString(StyleNameAttr(ns.text, itemStyle));
        }
        DumpString(">");
        currentElements := Init(currentElements) + [e.(tagsToClose := EndTag(ns.text, "p"))];
      }
    }

    method DumpCurrentContent()
      requires TopListed(State())
      modifies this
      ensures State() == ContentDumped(old(State()), ns, styles)
    {
      ghost var env := State();
      if UStrip(currentContent) != [] {
        var content := currentContent;
        ghost var prepared := if AnElementIsMissing(Top(env), None) then WithInnerParagraph(env, ns, styles) else env;
        OpenMissingParagraph();
        DumpChars(StripNewlines(content));
        ghost var dumped := CharsDumped(prepared, StripNewlines(content));
        assert ContentDumped(env, ns, styles) == dumped.(currentContent := []);
        currentContent := [];
        assert State() == dumped.(currentContent := []);
      } else {
        assert ContentDumped(env, ns, styles) == env;
      }
    }

    method OpenMissingParagraph()
      requires TopListed(State())
      modifies this
      ensures State() == if AnElementIsMissing(Top(old(State())), None) then WithInnerParagraph(old(State()), ns, styles) else old(State())
    {
      if AnElementIsMissing(Top(State()), None) {
        AddInnerParagraph();
      }
    }

    /** The loop of dumpCurrentContent. */
    method DumpChars(text: string)
      modifies this
      ensures State() == CharsDumped(old(State()), text)
    {
      ghost var start := State();
      for i := 0 to |text|
        invariant State() == CharsDumped(start, text[..i])
      {
        assert Init(text[..i + 1]) == text[..i] && Last(text[..i + 1]) == text[i];
        DumpString(XmlEscapedChar(text[i]));
      }
      assert text[..|text|] == text;
    }

    method DumpStyledElement(elem: string, attrs: map<string, string>)
      requires elem in HTML_2_ODT
      modifies this
      ensures State() == StyledElementDumped(old(State()), elem, attrs, ns, styles)
    {
      DumpString("<" + ns.text + ":" + HTML_2_ODT[elem]);
      var odtStyle := FindStyle(styles, elem, attrs, None);
      var styleName := StyleNameOf(odtStyle, elem);
      if Truthy(styleName) {
        DumpString(StyleNameAttr(ns.text, styleName.value));
        if elem in XHTML_HEADINGS && odtStyle.Some? && odtStyle.value.outlineLevel.Some? {
          DumpString(" " + ns.text + ":outline-level=\"" + IntToString(odtStyle.value.outlineLevel.value) + "\"");
        }
      }
      DumpString(">");
    }

    method DumpRootParagraph(currentElem: Option<string>)
      requires TopListed(State())
      modifies this
      ensures State() == RootParagraphDumped(old(State()), currentElem, ns, styles)
    {
      var mustStart := !creatingRootParagraph;
      var mustEnd := !(currentElem.Some? && currentElem.value != [] && currentElem.value !in XHTML_PARAGRAPH_TAGS);
      if mustStart && mustEnd && UStrip(currentContent) == [] {
        return;
      }
      StartRootParagraph(mustStart);
      DumpCurrentContent();
      if mustEnd {
        DumpString(EndTag(ns.text, "p"));
        creatingRootParagraph := false;
      }
    }

    /** The start of dumpRootParagraph. */
    method StartRootParagraph(mustStart: bool)
      requires TopListed(State())
      modifies this
      ensures TopListed(State())
      ensures State() == if mustStart then StyledElementDumped(old(State()), "p", map[], ns, styles).(creatingRootParagraph := true) else old(State())
    {
      ghost var e0 := State();
      if mustStart {
        DumpStyledElement("p", map[]);
        creatingRootParagraph := true;
      }
      SameShapeTopListed(e0, State());
    }

    method OnElementStart(elem: string, attrs: map<string, string>)
      requires StartAllowed(State(), elem, attrs)
      modifies this
      ensures State() == ElementStarted(old(State()), elem, attrs, ns, styles)
    {
      ghost var e0 := State();
      var previousElem := Top(State());
      if previousElem.Some? && previousElem.value.elem == "podxhtml" {
        DumpRootParagraph(Some(elem));
      } else {
        DumpCurrentContent();
      }
      assert State() == StartContentDumped(e0, elem, ns, styles);
      ghost var e1 := State();
      var reopen := CloseConflicts(elem);
      assert (State(), reopen) == ConflictsClosed(e1, elem, ns);
      SameShapeStart(e0, State(), elem, attrs);
      ghost var e2 := State();
      if AnElementIsMissing(previousElem, Some(elem)) {
        AddInnerParagraph();
      }
      assert State() == MissingOpened(e2, previousElem, elem, ns, styles);
      SameShapeStart(e2, State(), elem, attrs);
      ghost var e3 := State();
      Push(elem, attrs, reopen);
    }

    /** The last step of onElementStart. */
    method Push(elem: string, attrs: map<string, string>, reopen: string)
      requires StartAllowed(State(), elem, attrs)
      modifies this
      ensures State() == Pushed(old(State()), elem, attrs, reopen)
    {
      ghost var e0 := State();
      currentElements := currentElements + [NewElement(elem, attrs).(tagsToReopen := reopen)];
      ghost var e := State();
      assert e == e0.(elements := e0.elements + [NewElement(elem, attrs).(tagsToReopen := reopen)]);
      if elem in XHTML_LISTS {
        currentLists := currentLists + [elem];
        assert State() == e.(lists := e.lists + [elem]);
      } else if elem == "table" {
        currentTables := currentTables + [NEW_TABLE];
        assert State() == e.(tables := e.tables + [NEW_TABLE]);
      } else if elem in TABLE_CELL_TAGS {
        var t := Last(currentTables);
        if !t.firstRowParsed {
          currentTables := Init(currentTables) + [t.(nbOfColumns := t.nbOfColumns + Colspan(attrs))];
          assert State() == e.(tables := Init(e.tables) + [t.(nbOfColumns := t.nbOfColumns + Colspan(attrs))]);
        }
      }
    }

    /** The stacks of onElementEnd. */
    method Pop(elem: string)
      requires EndAllowed(State(), elem)
      modifies this
      ensures State() == Popped(old(State()), elem, ns)
    {
      currentElements := Init(currentElements);
      if elem in XHTML_LISTS {
        currentLists := Init(currentLists);
      } else if elem == "table" {
        var lastTable := Last(currentTables);
        currentTables := Init(currentTables);
        DumpString(lastTable.res);
      } else if elem == "tr" {
        var lastTable := Last(currentTables);
        if !lastTable.firstRowParsed {
          lastTable := lastTable.(firstRowParsed := true);
          lastTable := lastTable.(res := lastTable.res + ColumnDecls(ns.table, lastTable.nbOfColumns));
          lastTable := lastTable.(res := lastTable.res + lastTable.tempRes);
          lastTable := lastTable.(tempRes := []);
        }
        currentTables := Init(currentTables) + [lastTable];
      }
    }

    /** The conflicting elements of onElementStart: their closing tags are
        dumped and their opening tags returned. */
    method CloseConflicts(elem: string) returns (reopen: string)
      modifies this
      ensures (State(), reopen) == ConflictsClosed(old(State()), elem, ns)
    {
      var conflictElems := ConflictualElements(State(), elem, ns);
      reopen := [];
      if conflictElems != [] {
        var closingTags := [];
        var openingTags := [];
        for i := 0 to |conflictElems|
          invariant closingTags == ClosingTags(ns, conflictElems[..i])
          invariant openingTags == OpeningTags(ns, conflictElems[..i])
        {
          assert Init(conflictElems[..i + 1]) == conflictElems[..i] && Last(conflictElems[..i + 1]) == conflictElems[i];
          var odtElem := HTML_2_ODT[conflictElems[i]];
          closingTags := EndTag(ns.text, odtElem) + closingTags;
          openingTags := openingTags + Tag(ns.text, odtElem);
        }
        assert conflictElems[..|conflictElems|] == conflictElems;
        DumpString(closingTags);
        reopen := openingTags;
      }
    }

    method OnElementEnd(elem: string) returns (reopen: string)
      requires EndAllowed(State(), elem)
      modifies this
      ensures (State(), reopen) == ElementEnded(old(State()), elem, ns, styles)
    {
      ghost var e0 := State();
      if elem == "podxhtml" {
        DumpRootParagraph(None);
      } else {
        DumpCurrentContent();
      }
      assert State() == EndContentDumped(e0, elem, ns, styles);
      SameShapeEnd(e0, State(), elem);
      var currentElem := Last(currentElements);
      Pop(elem);
      if currentElem.tagsToClose != [] {
        DumpString(currentElem.tagsToClose);
      }
      reopen := currentElem.tagsToReopen;
    }
  }

  /** The SAX handler: lowers tags and attribute names, drives the
      environment and writes the ODT markup of each tag. */
  class XhtmlParser {
    const env: XhtmlEnvironment

    constructor (env: XhtmlEnvironment)
      ensures this.env == env
    {
      this.env := env;
    }

    /** lowerizeInput on attributes, in the order SAX gives them. */
    method LowerizeAttrs(attrs: seq<(string, string)>) returns (r: map<string, string>)
      ensures r == LoweredAttrs(attrs)
    {
      r := map[];
      for i := 0 to |attrs|
        invariant r == LoweredAttrs(attrs[..i])
      {
        assert Init(attrs[..i + 1]) == attrs[..i] && Last(attrs[..i + 1]) == attrs[i];
        r := r[Lower(attrs[i].0) := attrs[i].1];
      }
      assert attrs[..|attrs|] == attrs;
    }

    /** startElement: a valid environment stays valid. */
    method StartElement(elem: string, attrs: seq<(string, string)>)
      requires StartOk(env.State(), Lower(elem), LoweredAttrs(attrs))
      modifies env
      ensures env.State() == ElementStartSpec(old(env.State()), Lower(elem), LoweredAttrs(attrs), env.ns, env.styles)
      ensures Valid(env.State())
    {
      var e := Lower(elem);
      var a := LowerizeAttrs(attrs);
      ValidTopListed(env.State());
      env.OnElementStart(e, a);
      DumpStartTags(e, a);
    }

    /** The markup of startElement, once onElementStart is done. */
    method DumpStartTags(elem: string, attrs: map<string, string>)
      modifies env
      ensures env.State() == StartTagsDumped(old(env.State()), elem, attrs, env.ns, env.styles)
    {
      var ns := env.ns;
      if elem in HTML_2_ODT {
        env.DumpStyledElement(elem, attrs);
      } else if elem == "a" {
        env.DumpString("<" + ns.text + ":a " + ns.link + ":type=\"simple\"");
        if "href" in attrs {
          env.DumpString(" " + ns.link + ":href=\"" + attrs["href"] + "\"");
        }
        env.DumpString(">");
      } else if elem in XHTML_LISTS {
        env.DumpString(ListStart(ns, elem, env.currentLists));
      } else if elem == "li" {
        env.DumpString(Tag(ns.text, "list-item"));
      } else if elem == "table" {
        env.DumpString("<" + ns.table + ":table " + ns.table + ":style-name=\"podTable\">");
      } else if elem == "thead" {
        env.DumpString(Tag(ns.table, "table-header-rows"));
      } else if elem == "tr" {
        env.DumpString(Tag(ns.table, "table-row"));
      } else if elem in TABLE_CELL_TAGS {
        env.DumpString("<" + ns.table + ":table-cell " + ns.table + ":style-name=\"" + DEFAULT_ODT_STYLES[elem] + "\"");
        if "colspan" in attrs {
          env.DumpString(" " + ns.table + ":number-columns-spanned=\"" + attrs["colspan"] + "\"");
        }
        env.DumpString(">");
      }
    }

    /** endElement: a valid environment stays valid. */
    method EndElement(elem: string)
      requires EndOk(env.State(), Lower(elem))
      modifies env
      ensures env.State() == ElementEndSpec(old(env.State()), Lower(elem), env.ns, env.styles)
      ensures Valid(env.State())
    {
      var e := Lower(elem);
      ValidTopListed(env.State());
      ValidEndAllowed(env.State(), e);
      var elemsToReopen := env.OnElementEnd(e);
      DumpEndTags(e);
      if elemsToReopen != [] {
        env.DumpString(elemsToReopen);
      }
    }

    /** The markup of endElement, once onElementEnd is done. */
    method DumpEndTags(elem: string)
      modifies env
      ensures env.State() == EndTagsDumped(old(env.State()), elem, env.ns)
    {
      var ns := env.ns;
      if elem in HTML_2_ODT {
        env.DumpString(EndTag(ns.text, HTML_2_ODT[elem]));
      } else if elem == "a" {
        env.DumpString(EndTag(ns.text, "a"));
      } else if elem in XHTML_LISTS {
        env.DumpString(ListEnd(ns, env.currentLists));
      } else if elem == "li" {
        env.DumpString(EndTag(ns.text, "list-item"));
      } else if elem == "table" {
        env.DumpString(EndTag(ns.table, "table"));
      } else if elem == "thead" {
        env.DumpString(EndTag(ns.table, "table-header-rows"));
      } else if elem == "tr" {
        env.DumpString(EndTag(ns.table, "table-row"));
      } else if elem in TABLE_CELL_TAGS {
        env.DumpString(EndTag(ns.table, "table-cell"));
      }
    }

    /** characters: the text is kept for the next dump. */
    method Characters(content: string)
      modifies env
      ensures env.State() == old(env.State()).(currentContent := old(env.currentContent) + content)
      ensures Valid(old(env.State())) ==> Valid(env.State())
    {
      env.currentContent := env.currentContent + content;
    }
  }
}
