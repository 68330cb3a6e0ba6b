/** The test framework of shared/test.py: the SAX handler that rewrites an
    XML result into a canonical, indented text before two results are
    compared, and the bookkeeping of the Tester that runs the suites of a
    test plan. */
module Testing {
  import opened Wrappers
  import opened Text
  import opened Lists
  import XmlParsers

  // ---------------------------------------------------------------------------
  // The order of Python strings
  // ---------------------------------------------------------------------------

  /** Python's `<=` on strings: lexicographic on the character codes. */
  predicate StrLeq(a: string, b: string)
    decreases |a|
  {
    a == [] || (b != [] && (a[0] < b[0] || (a[0] == b[0] && StrLeq(a[1..], b[1..]))))
  }

  lemma {:induction false} StrLeqTotal(a: string, b: string)
    ensures StrLeq(a, b) || StrLeq(b, a)
    decreases |a|
  {
    if a != [] && b != [] && a[0] == b[0] {
      StrLeqTotal(a[1..], b[1..]);
    }
  }

  lemma {:induction false} StrLeqAntisymmetric(a: string, b: string)
    requires StrLeq(a, b) && StrLeq(b, a)
    ensures a == b
    decreases |a|
  {
    if a != [] {
      StrLeqAntisymmetric(a[1..], b[1..]);
      assert a == [a[0]] + a[1..] && b == [b[0]] + b[1..];
    }
  }

  lemma {:induction false} StrLeqTransitive(a: string, b: string, c: string)
    requires StrLeq(a, b) && StrLeq(b, c)
    ensures StrLeq(a, c)
    decreases |a|
  {
    if a != [] && a[0] == b[0] && b[0] == c[0] {
      StrLeqTransitive(a[1..], b[1..], c[1..]);
    }
  }

  ghost predicate Sorted(s: seq<string>) {
    forall i, j :: 0 <= i < j < |s| ==> StrLeq(s[i], s[j])
  }

  /** Inserting into a sorted list. */
  function InsertSorted(s: seq<string>, x: string): (r: seq<string>)
    ensures multiset(r) == multiset(s) + multiset{x}
  {
    if s == [] then [x]
    else if StrLeq(x, s[0]) then [x] + s
    else
      assert s == [s[0]] + s[1..];
      [s[0]] + InsertSorted(s[1..], x)
  }

  /** The tail of a sorted list is sorted and follows its head. */
  lemma SortedTail(s: seq<string>)
    requires Sorted(s) && s != []
    ensures Sorted(s[1..]) && forall y :: y in s[1..] ==> StrLeq(s[0], y)
  {
    forall y | y in s[1..] ensures StrLeq(s[0], y) {
      var k :| 0 <= k < |s[1..]| && s[1..][k] == y;
      assert s[k + 1] == y;
    }
  }

  /** A head no greater than a sorted tail makes a sorted list. */
  lemma SortedCons(h: string, t: seq<string>)
    requires Sorted(t) && forall y :: y in t ==> StrLeq(h, y)
    ensures Sorted([h] + t)
  {
    var r := [h] + t;
    forall i, j | 0 <= i < j < |r| ensures StrLeq(r[i], r[j]) {
      if i == 0 {
        assert r[j] == t[j - 1] && r[j] in t;
      } else {
        assert r[i] == t[i - 1] && r[j] == t[j - 1];
      }
    }
  }

  lemma {:induction false} InsertSortedSorted(s: seq<string>, x: string)
    requires Sorted(s)
    ensures Sorted(InsertSorted(s, x))
  {
    if s == [] {
    } else if StrLeq(x, s[0]) {
      SortedTail(s);
      forall y | y in s ensures StrLeq(x, y) {
        if y != s[0] {
          assert y in s[1..] by { assert s == [s[0]] + s[1..]; }
          StrLeqTransitive(x, s[0], y);
        }
      }
      SortedCons(x, s);
    } else {
      StrLeqTotal(x, s[0]);
      SortedTail(s);
      InsertSortedSorted(s[1..], x);
      var t := InsertSorted(s[1..], x);
      forall y | y in t ensures StrLeq(s[0], y) {
        assert y in multiset(t);
        assert y == x || y in multiset(s[1..]);
      }
      SortedCons(s[0], t);
    }
  }

  /** Python's `list.sort()` on strings. */
  function SortStrings(s: seq<string>): (r: seq<string>)
    ensures multiset(r) == multiset(s)
    ensures Sorted(r)
  {
    if s == [] then []
    else
      var init := SortStrings(s[..|s| - 1]);
      InsertSortedSorted(init, s[|s| - 1]);
      assert s == s[..|s| - 1] + [s[|s| - 1]];
      InsertSorted(init, s[|s| - 1])
  }

  /** A sorted list without repeats is determined by its elements. */
  lemma {:induction false} SortedUnique(a: seq<string>, b: seq<string>)
    requires Sorted(a) && Sorted(b) && NoDup(a) && NoDup(b)
    requires forall x :: x in a <==> x in b
    ensures a == b
    decreases |a|
  {
    assert a != [] <==> b != [] by {
      if a != [] { assert a[0] in b; }
      if b != [] { assert b[0] in a; }
    }
    if a != [] {
      assert a[0] in b;
      assert b[0] in a;
      var i :| 0 <= i < |b| && b[i] == a[0];
      var j :| 0 <= j < |a| && a[j] == b[0];
      if i > 0 { assert StrLeq(b[0], b[i]); }
      if j > 0 { assert StrLeq(a[0], a[j]); }
      if i > 0 && j > 0 {
        StrLeqAntisymmetric(a[0], b[0]);
      }
      assert a[0] == b[0];
      forall x ensures x in a[1..] <==> x in b[1..] {
        if x in a[1..] {
          var k :| 1 <= k < |a| && a[k] == x;
          assert x != a[0];
          assert x in b;
          var l :| 0 <= l < |b| && b[l] == x;
          assert l != 0;
          assert b[1..][l - 1] == x;
        }
        if x in b[1..] {
          var k :| 1 <= k < |b| && b[k] == x;
          assert x != b[0];
          assert x in a;
          var l :| 0 <= l < |a| && a[l] == x;
          assert l != 0;
          assert a[1..][l - 1] == x;
        }
      }
      SortedUnique(a[1..], b[1..]);
      assert a == [a[0]] + a[1..] && b == [b[0]] + b[1..];
    }
  }

  // ---------------------------------------------------------------------------
  // XmlHandler
  // ---------------------------------------------------------------------------

  const XML_DECLARATION := "<?xml version=\"1.0\" encoding=\"UTF-8\"?>"
  const TAB_WIDTH := 3

  /** One SAX event, the attributes in document order. */
  datatype Event =
    | StartTag(elem: string, attrs: seq<(string, string)>)
    | EndTag(elem: string)
    | Chars(content: string)

  /** What the handler accumulates. */
  datatype HandlerState = HandlerState(res: string, namespaces: map<string, string>, indentLevel: int, ignoring: bool)

  /** The tags (namespace URI, name) and attributes left out of the text. */
  datatype HandlerConfig = HandlerConfig(tagsToIgnore: seq<(string, string)>, attrsToIgnore: seq<string>)

  const INITIAL := HandlerState(XML_DECLARATION, map[], -1, false)

  /** `prefix:name` for a URI with a declared prefix; the empty name for one
      without (the KeyError is caught). */
  function IgnoredFullName(namespaces: map<string, string>, uri: string, name: string): string {
    if uri in namespaces then namespaces[uri] + ":" + name else ""
  }

  predicate Ignorable(cfg: HandlerConfig, namespaces: map<string, string>, elem: string) {
    exists i :: 0 <= i < |cfg.tagsToIgnore| &&
      IgnoredFullName(namespaces, cfg.tagsToIgnore[i].0, cfg.tagsToIgnore[i].1) == elem
  }

  /** A tag whose URI has no declared prefix never matches a real (non-empty)
      element name. */
  lemma UndeclaredNeverIgnored(cfg: HandlerConfig, namespaces: map<string, string>, elem: string)
    requires elem != []
    requires forall i :: 0 <= i < |cfg.tagsToIgnore| ==> cfg.tagsToIgnore[i].0 !in namespaces
    ensures !Ignorable(cfg, namespaces, elem)
  {
  }

  /** `' ' * n`, empty for a negative `n`. */
  function Spaces(n: int): (r: string)
    ensures |r| == if n <= 0 then 0 else n
    ensures forall i :: 0 <= i < |r| ==> r[i] == ' '
    decreases n
  {
    if n <= 0 then [] else Spaces(n - 1) + " "
  }

  function Indent(level: int): string {
    "\n" + Spaces(level * TAB_WIDTH)
  }

  function Names(attrs: seq<(string, string)>): (r: seq<string>)
    ensures |r| == |attrs| && forall i :: 0 <= i < |attrs| ==> r[i] == attrs[i].0
  {
    if attrs == [] then [] else Names(attrs[..|attrs| - 1]) + [attrs[|attrs| - 1].0]
  }

  /** SAX gives every attribute once. */
  ghost predicate DistinctNames(attrs: seq<(string, string)>) {
    NoDup(Names(attrs))
  }

  /** `attrsNames.remove(a)` for every attribute to ignore that is present. */
  function RemoveAll(names: seq<string>, ignore: seq<string>): seq<string>
    decreases |ignore|
  {
    if ignore == [] then names else RemoveAll(RemoveFirst(names, ignore[0]), ignore[1..])
  }

  /** The attribute names written: sorted, the ignored ones removed. */
  function ShownNames(cfg: HandlerConfig, attrs: seq<(string, string)>): seq<string> {
    RemoveAll(SortStrings(Names(attrs)), cfg.attrsToIgnore)
  }

  /** ` name="value"` for every name. */
  function AttrsText(names: seq<string>, values: map<string, string>): string {
    if names == [] then []
    else
      var n := names[|names| - 1];
      AttrsText(names[..|names| - 1], values) + " " + n + "=\"" + (if n in values then values[n] else "") + "\""
  }

  /** The handler's reaction to one event. */
  function Step(cfg: HandlerConfig, st: HandlerState, ev: Event): HandlerState {
    match ev
    case StartTag(elem, attrs) =>
      var ns := XmlParsers.Declared(st.namespaces, attrs);
      if Ignorable(cfg, ns, elem) then st.(namespaces := ns, ignoring := true)
      else if st.ignoring then st.(namespaces := ns)
      else
        var level := st.indentLevel + 1;
        var text := "<" + elem + AttrsText(ShownNames(cfg, attrs), XmlParsers.MapOf(attrs)) + ">";
        HandlerState(st.res + Indent(level) + text, ns, level, false)
    case EndTag(elem) =>
      if Ignorable(cfg, st.namespaces, elem) then st.(ignoring := false)
      else if st.ignoring then st
      else st.(res := st.res + Indent(st.indentLevel) + "</" + elem + ">", indentLevel := st.indentLevel - 1)
    case Chars(content) =>
      if st.ignoring then st else st.(res := st.res + RemoveChar(content, '\n'))
  }

  /** The handler after a run of events. */
  function Run(cfg: HandlerConfig, st: HandlerState, evs: seq<Event>): HandlerState {
    if evs == [] then st else Step(cfg, Run(cfg, st, evs[..|evs| - 1]), evs[|evs| - 1])
  }

  /** The number of open elements after the events. */
  function Depth(evs: seq<Event>): int {
    if evs == [] then 0
    else Depth(evs[..|evs| - 1]) + (match evs[|evs| - 1] case StartTag(_, _) => 1 case EndTag(_) => -1 case Chars(_) => 0)
  }

  /** No tag of the run is ignorable when the handler meets it. */
  predicate NoneIgnored(cfg: HandlerConfig, st: HandlerState, evs: seq<Event>) {
    evs == [] ||
      (NoneIgnored(cfg, st, evs[..|evs| - 1]) &&
       var before := Run(cfg, st, evs[..|evs| - 1]);
       match evs[|evs| - 1]
       case StartTag(elem, attrs) => !Ignorable(cfg, XmlParsers.Declared(before.namespaces, attrs), elem)
       case EndTag(elem) => !Ignorable(cfg, before.namespaces, elem)
       case Chars(_) => true)
  }

  /** Outside ignored regions every start tag indents one level more and
      every end tag one level less. */
  lemma {:induction false} IndentFollowsDepth(cfg: HandlerConfig, st: HandlerState, evs: seq<Event>)
    requires !st.ignoring && NoneIgnored(cfg, st, evs)
    ensures !Run(cfg, st, evs).ignoring
    ensures Run(cfg, st, evs).indentLevel == st.indentLevel + Depth(evs)
  {
    if evs != [] {
      IndentFollowsDepth(cfg, st, evs[..|evs| - 1]);
    }
  }

  /** A balanced document with nothing ignored brings the level back to -1. */
  lemma BalancedDocument(cfg: HandlerConfig, evs: seq<Event>)
    requires NoneIgnored(cfg, INITIAL, evs) && Depth(evs) == 0
    ensures Run(cfg, INITIAL, evs).indentLevel == -1
  {
    IndentFollowsDepth(cfg, INITIAL, evs);
  }

  /** The names written are the attribute names, sorted, without the ignored
      ones, each once. */
  lemma {:induction false} ShownNamesSpec(cfg: HandlerConfig, attrs: seq<(string, string)>)
    requires DistinctNames(attrs)
    ensures var shown := ShownNames(cfg, attrs);
            Sorted(shown) && NoDup(shown) &&
            forall n :: n in shown <==> n in Names(attrs) && n !in cfg.attrsToIgnore
  {
    var sorted := SortStrings(Names(attrs));
    PermutationNoDup(Names(attrs), sorted);
    assert forall n :: n in sorted <==> n in multiset(sorted);
    assert forall n :: n in Names(attrs) <==> n in multiset(Names(attrs));
    RemoveAllSpec(sorted, cfg.attrsToIgnore);
  }

  /** A permutation of a list without repeats has none either. */
  lemma PermutationNoDup(s: seq<string>, t: seq<string>)
    requires NoDup(s) && multiset(s) == multiset(t)
    ensures NoDup(t)
  {
    forall i, j | 0 <= i < j < |t| ensures t[i] != t[j] {
      if t[i] == t[j] {
        TwiceCounted(t, i, j);
        MultiplicityNoDup(s, t[i]);
      }
    }
  }

  lemma TwiceCounted(t: seq<string>, i: nat, j: nat)
    requires i < j < |t| && t[i] == t[j]
    ensures multiset(t)[t[i]] >= 2
  {
    assert t == t[..j] + [t[j]] + t[j + 1..];
    assert t[..j][i] == t[i];
  }

  /** In a list without repeats every element occurs once. */
  lemma {:induction false} MultiplicityNoDup(s: seq<string>, x: string)
    requires NoDup(s)
    ensures multiset(s)[x] <= 1
  {
    if s != [] {
      var t := s[1..];
      assert NoDup(t) by {
        forall i, j | 0 <= i < j < |t| ensures t[i] != t[j] {
          assert t[i] == s[i + 1] && t[j] == s[j + 1];
        }
      }
      MultiplicityNoDup(t, x);
      assert s == [s[0]] + t;
      if x == s[0] {
        assert x !in t by {
          forall k | 0 <= k < |t| ensures t[k] != x { assert t[k] == s[k + 1]; }
        }
      }
    }
  }

  lemma {:induction false} RemoveAllSpec(names: seq<string>, ignore: seq<string>)
    requires Sorted(names) && NoDup(names)
    ensures var r := RemoveAll(names, ignore);
            Sorted(r) && NoDup(r) && forall n :: n in r <==> n in names && n !in ignore
    decreases |ignore|
  {
    if ignore != [] {
      var once := RemoveFirst(names, ignore[0]);
      RemoveSortedSpec(names, ignore[0]);
      RemoveAllSpec(once, ignore[1..]);
      assert forall n :: n in ignore <==> n == ignore[0] || n in ignore[1..];
    }
  }

  /** Removing an element keeps a list sorted. */
  lemma {:induction false} RemoveFirstSorted(names: seq<string>, x: string)
    requires Sorted(names)
    ensures Sorted(RemoveFirst(names, x))
  {
    if names != [] {
      SortedTail(names);
      if names[0] != x {
        RemoveFirstSorted(names[1..], x);
        RemoveFirstMembers(names[1..], x);
        SortedCons(names[0], RemoveFirst(names[1..], x));
      }
    }
  }

  /** Removing an element keeps a sorted list without repeats sorted and
      without repeats, and removes exactly that element. */
  lemma RemoveSortedSpec(names: seq<string>, x: string)
    requires Sorted(names) && NoDup(names)
    ensures var r := RemoveFirst(names, x);
            Sorted(r) && NoDup(r) && forall n :: n in r <==> n in names && n != x
  {
    var r := RemoveFirst(names, x);
    RemoveFirstNoDup(names, x);
    RemoveFirstSorted(names, x);
    RemoveFirstMembers(names, x);
    if x in names {
      RemoveFirstMultiset(names, x);
      forall n | n in names && n != x ensures n in r {
        assert n in multiset(r);
      }
    }
  }

  /** The SAX handler that rewrites an XML result into comparable text. */
  class XmlHandler {
    var res: string
    var namespaces: map<string, string>
    var indentLevel: int
    var ignoring: bool
    const cfg: HandlerConfig

    function State(): HandlerState
      reads this
    {
      HandlerState(res, namespaces, indentLevel, ignoring)
    }

    constructor(tagsToIgnore: seq<(string, string)>, attrsToIgnore: seq<string>)
      ensures State() == INITIAL && cfg == HandlerConfig(tagsToIgnore, attrsToIgnore)
    {
      res := XML_DECLARATION;
      namespaces := map[];
      indentLevel := -1;
      ignoring := false;
      cfg := HandlerConfig(tagsToIgnore, attrsToIgnore);
    }

    /** isIgnorable: the loop stops at the first tag to ignore whose full
        name is the element's. */
    method IsIgnorable(elem: string) returns (r: bool)
      ensures r == Ignorable(cfg, namespaces, elem)
    {
      r := false;
      for i := 0 to |cfg.tagsToIgnore|
        invariant forall k :: 0 <= k < i ==>
                    IgnoredFullName(namespaces, cfg.tagsToIgnore[k].0, cfg.tagsToIgnore[k].1) != elem
      {
        var (uri, name) := cfg.tagsToIgnore[i];
        var fullName := "";
        if uri in namespaces {
          fullName := namespaces[uri] + ":" + name;
        }
        if fullName == elem {
          return true;
        }
      }
    }

    method ManageNamespaces(attrs: seq<(string, string)>)
      modifies this
      ensures namespaces == XmlParsers.Declared(old(namespaces), attrs)
      ensures res == old(res) && indentLevel == old(indentLevel) && ignoring == old(ignoring)
    {
      for i := 0 to |attrs|
        invariant namespaces == XmlParsers.Declared(old(namespaces), attrs[..i])
        invariant res == old(res) && indentLevel == old(indentLevel) && ignoring == old(ignoring)
      {
        assert attrs[..i + 1][..i] == attrs[..i];
        var (n, v) := attrs[i];
        if StartsWith(n, XmlParsers.XMLNS) {
          namespaces := namespaces[v := n[|XmlParsers.XMLNS|..]];
        }
      }
      assert attrs[..|attrs|] == attrs;
    }

    /** The text of the kept attributes, sorted. */
    method AttributesText(attrs: seq<(string, string)>) returns (text: string)
      ensures text == AttrsText(ShownNames(cfg, attrs), XmlParsers.MapOf(attrs))
    {
      var names := SortStrings(Names(attrs));
      for k := 0 to |cfg.attrsToIgnore|
        invariant RemoveAll(names, cfg.attrsToIgnore[k..]) == ShownNames(cfg, attrs)
      {
        assert cfg.attrsToIgnore[k..][1..] == cfg.attrsToIgnore[k + 1..];
        var a := cfg.attrsToIgnore[k];
        if a in names {
          names := RemoveFirst(names, a);
        }
      }
      var values := XmlParsers.MapOf(attrs);
      text := "";
      for k := 0 to |names|
        invariant text == AttrsText(names[..k], values)
      {
        assert names[..k + 1][..k] == names[..k];
        var n := names[k];
        text := text + " " + n + "=\"" + (if n in values then values[n] else "") + "\"";
      }
      assert names[..|names|] == names;
    }

    method StartElement(elem: string, attrs: seq<(string, string)>)
      modifies this
      ensures State() == Step(cfg, old(State()), StartTag(elem, attrs))
    {
      ManageNamespaces(attrs);
      var ignorable := IsIgnorable(elem);
      if ignorable {
        ignoring := true;
      } else if !ignoring {
        indentLevel := indentLevel + 1;
        res := res + Indent(indentLevel);
        var text := AttributesText(attrs);
        res := res + "<" + elem + text + ">";
      }
    }

    method EndElement(elem: string)
      modifies this
      ensures State() == Step(cfg, old(State()), EndTag(elem))
    {
      var ignorable := IsIgnorable(elem);
      if ignorable {
        ignoring := false;
      } else if !ignoring {
        res := res + Indent(indentLevel);
        indentLevel := indentLevel - 1;
        res := res + "</" + elem + ">";
      }
    }

    method Characters(content: string)
      modifies this
      ensures State() == Step(cfg, old(State()), Chars(content))
    {
      if !ignoring {
        res := res + RemoveChar(content, '\n');
      }
    }
  }

  // ---------------------------------------------------------------------------
  // Test: reporting a line diff, checking an expected error
  // ---------------------------------------------------------------------------

  /** A line of a line diff that is not common to both files. */
  predicate IsChange(line: string) {
    line != [] && line[0] != ' '
  }

  predicate AnyChange(lines: seq<string>) {
    exists i :: 0 <= i < |lines| && IsChange(lines[i])
  }

  /** A changed line as reported: a text line loses its last character (the
      newline `readlines` keeps). */
  function Shown(line: string, areXml: bool): string {
    if areXml || line == [] then line else line[..|line| - 1]
  }

  /** What compareFiles writes for a line diff: the heading before the first
      change, `...` before every run of changes, and every changed line. */
  function DiffReport(heading: string, lines: seq<string>, areXml: bool): seq<string> {
    if lines == [] then []
    else
      var init := lines[..|lines| - 1];
      var line := lines[|lines| - 1];
      if !IsChange(line) then DiffReport(heading, init, areXml)
      else
        DiffReport(heading, init, areXml) +
        (if AnyChange(init) then [] else [heading]) +
        (if init != [] && IsChange(init[|init| - 1]) then [] else ["..."]) +
        [Shown(line, areXml)]
  }

  /** The report is empty exactly when the files do not differ, and
      otherwise opens with the heading and `...`. */
  lemma {:induction false} DiffReportShape(heading: string, lines: seq<string>, areXml: bool)
    ensures var r := DiffReport(heading, lines, areXml);
            (r == [] <==> !AnyChange(lines)) &&
            (AnyChange(lines) ==> |r| >= 3 && r[0] == heading && r[1] == "...")
  {
    if lines != [] {
      var init := lines[..|lines| - 1];
      DiffReportShape(heading, init, areXml);
      assert forall i :: 0 <= i < |init| ==> init[i] == lines[i];
      assert AnyChange(lines) <==> AnyChange(init) || IsChange(lines[|lines| - 1]);
    }
  }

  /** The loop of compareFiles over the diff: `res` tells whether the files
      differ, `said` is what it writes to the report. */
  method CompareReport(heading: string, lines: seq<string>, areXml: bool) returns (atLeastOneDiff: bool, said: seq<string>)
    ensures atLeastOneDiff <==> AnyChange(lines)
    ensures said == DiffReport(heading, lines, areXml)
  {
    atLeastOneDiff := false;
    var lastLinePrinted := false;
    said := [];
    for i := 0 to |lines|
      invariant atLeastOneDiff <==> AnyChange(lines[..i])
      invariant lastLinePrinted <==> i > 0 && IsChange(lines[i - 1])
      invariant said == DiffReport(heading, lines[..i], areXml)
    {
      var line := lines[i];
      assert lines[..i + 1][..i] == lines[..i];
      assert AnyChange(lines[..i + 1]) <==> AnyChange(lines[..i]) || IsChange(line) by {
        assert forall k :: 0 <= k < i ==> lines[..i + 1][k] == lines[..i][k];
      }
      if line != [] && line[0] != ' ' {
        if !atLeastOneDiff {
          said := said + [heading];
          atLeastOneDiff := true;
        }
        if !lastLinePrinted {
          said := said + ["..."];
        }
        said := said + [Shown(line, areXml)];
        lastLinePrinted := true;
      } else {
        lastLinePrinted := false;
      }
    }
    assert lines[..|lines|] == lines;
  }

  function NotFoundMessage(line: string): string {
    "\"" + line + "\" not found among error dump."
  }

  /** isExpectedError: every expected line occurs in the error dump; the
      first one missing is reported. */
  method IsExpectedError(errorDump: string, expected: seq<string>) returns (res: bool, said: seq<string>)
    ensures res <==> forall k :: 0 <= k < |expected| ==> Contains(errorDump, expected[k])
    ensures res ==> said == []
    ensures !res ==> exists k :: 0 <= k < |expected| && !Contains(errorDump, expected[k]) &&
                       (forall j :: 0 <= j < k ==> Contains(errorDump, expected[j])) &&
                       said == [NotFoundMessage(expected[k])]
  {
    res := true;
    said := [];
    for i := 0 to |expected|
      invariant forall j :: 0 <= j < i ==> Contains(errorDump, expected[j])
      invariant res && said == []
    {
      if !Contains(errorDump, expected[i]) {
        res := false;
        said := [NotFoundMessage(expected[i])];
        return;
      }
    }
  }

  // ---------------------------------------------------------------------------
  // Tester
  // ---------------------------------------------------------------------------

  /** A row of an RTF table, by column name. */
  type Row = map<string, string>

  /** The tables of a test plan, by name. */
  type Tables = map<string, seq<Row>>

  /** A Python value given as a flavour. */
  datatype PyArg = PyString(s: string) | PyOther

  /** Why a Tester stops: a TesterError, or a missing column. The lists of
      flavours in the messages are given as their text. */
  datatype TesterFailure =
    | WrongTestPlan
    | FlavoursNotList
    | FlavourNotString
    | WrongTestFactory
    | WrongArgs(flavours: string)
    | WrongFlavour(flavour: string, flavours: string)
    | MainTableNotFound(testPlan: string)
    | MainTableMalformed
    | TestSuiteNotFound(suite: string)
    | TestSuiteMalformed(suite: string)
    | KeyError(key: string)

  const FLAVOUR_TEXT := "A flavour represents a test configuration."

  function Message(f: TesterFailure): string {
    match f
    case WrongTestPlan => "The test plan you specified does not correspond to an existing RTF file."
    case FlavoursNotList => "The flavours specified must be a list or tuple of string. " + FLAVOUR_TEXT
    case FlavourNotString => "Each specified flavour must be a string. " + FLAVOUR_TEXT
    case WrongTestFactory => "You must give a test factory that inherits from the abstract \"appy.shared.test.TestFactory\" class."
    case WrongArgs(fs) => "You must specify as unique argument the configuration flavour you want, which may be one of " + fs + "."
    case WrongFlavour(f, fs) => "Wrong flavour \"" + f + "\". Flavour must be one of " + fs + "."
    case MainTableNotFound(p) => "No table \"TestSuites\" found in test plan \"" + p + "\"."
    case MainTableMalformed => "The \"TestSuites\" table must have at least two columns, named \"Name\" and \"Description\"."
    case TestSuiteNotFound(n) => "Table \"" + n + ".descriptions\" and/or \"" + n + ".data\" were not found."
    case TestSuiteMalformed(n) =>
      "Tables \"" + n + ".descriptions\" and \"" + n + ".data\" do not have the same length. For each test in \"" + n +
      ".data\", You should have one line in \"" + n + ".descriptions\" describing the test."
    case KeyError(k) => k
  }

  /** The checks of Tester.__init__ and getOptions, in their order: the test
      plan is an existing `.rtf` file, the flavours are a list of strings,
      the factory is a TestFactory, and with flavours the single command-line
      argument is one of them. The result is the chosen flavour. */
  function CheckTester(planExists: bool, planIsFile: bool, testPlan: string, flavours: Option<seq<PyArg>>,
                       isTestFactory: bool, flavoursText: string, args: seq<string>): (r: Result<Option<string>, TesterFailure>)
    ensures r.Ok? <==>
              planExists && planIsFile && EndsWith(testPlan, ".rtf") && flavours.Some? &&
              (forall k :: 0 <= k < |flavours.value| ==> flavours.value[k].PyString?) && isTestFactory &&
              (flavours.value != [] ==> |args| == 1 && PyString(args[0]) in flavours.value)
    ensures r.Ok? ==> (r.value.Some? <==> flavours.value != []) && (r.value.Some? ==> r.value.value == args[0])
    ensures r == Err(FlavourNotString) <==>
              planExists && planIsFile && EndsWith(testPlan, ".rtf") && flavours.Some? &&
              exists k :: 0 <= k < |flavours.value| && flavours.value[k].PyOther?
  {
    if !planExists || !planIsFile || !EndsWith(testPlan, ".rtf") then Err(WrongTestPlan)
    else if flavours.None? then Err(FlavoursNotList)
    else if PyOther in flavours.value then Err(FlavourNotString)
    else if !isTestFactory then Err(WrongTestFactory)
    else if flavours.value == [] then Ok(None)
    else if |args| != 1 then Err(WrongArgs(flavoursText))
    else if PyString(args[0]) !in flavours.value then Err(WrongFlavour(args[0], flavoursText))
    else Ok(Some(args[0]))
  }

  /** The configuration table of a flavour; the empty flavour is false in
      Python and has no suffix. */
  function ConfigTableName(flavour: Option<string>): (r: string)
    ensures StartsWith(r, "Configuration")
    ensures r == "Configuration" <==> flavour.None? || flavour.value == []
    ensures flavour.Some? && flavour.value != [] ==> r[|"Configuration"|..] == "." + flavour.value
  {
    if flavour.Some? && flavour.value != [] then "Configuration." + flavour.value else "Configuration"
  }

  /** The three counters of a Tester. */
  datatype Tally = Tally(tests: nat, successes: nat, ignored: nat)

  function Add(a: Tally, b: Tally): Tally {
    Tally(a.tests + b.tests, a.successes + b.successes, a.ignored + b.ignored)
  }

  predicate Consistent(t: Tally) {
    t.successes + t.ignored <= t.tests
  }

  /** A test (or suite) whose name starts with `_` is ignored. */
  predicate IgnoredName(name: string) {
    StartsWith(name, "_")
  }

  /** One test of a suite: it counts, as ignored when its name starts
      with `_`, else as a success unless `failed` says it failed (`failed`
      stands for creating and running the test from its data and
      description). A row without a name, or a run test without a
      description, raises a KeyError. */
  function TestDelta(row: Row, desc: Row, failed: (Row, string) -> bool): (r: Result<Tally, TesterFailure>)
    ensures r.Ok? ==> r.value.tests == 1 && Consistent(r.value)
  {
    if "Name" !in row then Err(KeyError("Name"))
    else if IgnoredName(row["Name"]) then Ok(Tally(1, 0, 1))
    else if "Description" !in desc then Err(KeyError("Description"))
    else Ok(Tally(1, if failed(row, desc["Description"]) then 0 else 1, 0))
  }

  /** runSuite over the first `n` tests of a suite. */
  function SuiteTally(data: seq<Row>, descs: seq<Row>, failed: (Row, string) -> bool, n: nat): (r: Result<Tally, TesterFailure>)
    requires n <= |data| <= |descs|
    ensures r.Ok? ==> r.value.tests == n && Consistent(r.value)
  {
    if n == 0 then Ok(Tally(0, 0, 0))
    else match SuiteTally(data, descs, failed, n - 1)
      case Err(e) => Err(e)
      case Ok(t) =>
        match TestDelta(data[n - 1], descs[n - 1], failed)
        case Err(e) => Err(e)
        case Ok(d) => Ok(Add(t, d))
  }

  /** The test `i` of a suite cannot be counted. */
  predicate BadTest(data: seq<Row>, descs: seq<Row>, i: nat)
    requires i < |data| <= |descs|
  {
    "Name" !in data[i] || (!IgnoredName(data[i]["Name"]) && "Description" !in descs[i])
  }

  /** The number of the first `n` indexes that `p` holds of. */
  function CountWhere(p: nat -> bool, n: nat): nat {
    if n == 0 then 0 else CountWhere(p, n - 1) + (if p(n - 1) then 1 else 0)
  }

  /** A suite fails exactly when one of its tests cannot be counted, and the
      first such test decides the error; otherwise the ignored tests are those
      named with `_` and the successes those run without failing. */
  lemma {:induction false} SuiteTallySpec(data: seq<Row>, descs: seq<Row>, failed: (Row, string) -> bool, n: nat)
    requires n <= |data| <= |descs|
    ensures SuiteTally(data, descs, failed, n).Err? <==> exists i :: 0 <= i < n && BadTest(data, descs, i)
    ensures SuiteTally(data, descs, failed, n).Ok? ==>
              var t := SuiteTally(data, descs, failed, n).value;
              t.ignored == CountWhere((i: nat) => i < |data| && "Name" in data[i] && IgnoredName(data[i]["Name"]), n) &&
              t.successes == CountWhere((i: nat) => i < |data| && i < |descs| && "Name" in data[i] && !IgnoredName(data[i]["Name"]) &&
                                             "Description" in descs[i] && !failed(data[i], descs[i]["Description"]), n)
  {
    if n > 0 {
      SuiteTallySpec(data, descs, failed, n - 1);
      if SuiteTally(data, descs, failed, n - 1).Ok? && TestDelta(data[n - 1], descs[n - 1], failed).Err? {
        assert BadTest(data, descs, n - 1);
      }
      if BadTest(data, descs, n - 1) {
        assert TestDelta(data[n - 1], descs[n - 1], failed).Err?;
      }
    }
  }

  lemma {:induction false} SuiteTallyErrExtends(data: seq<Row>, descs: seq<Row>, failed: (Row, string) -> bool, i: nat, n: nat)
    requires i <= n <= |data| <= |descs| && SuiteTally(data, descs, failed, i).Err?
    ensures SuiteTally(data, descs, failed, n) == SuiteTally(data, descs, failed, i)
    decreases n - i
  {
    if i < n {
      SuiteTallyErrExtends(data, descs, failed, i, n - 1);
    }
  }

  /** One row of the `TestSuites` table, as run() handles it. An ignored
      suite (named with `_`) counts all its tests as ignored without running
      them. */
  function SuiteOutcome(tables: Tables, failed: (Row, string) -> bool, suite: Row): (r: Result<Tally, TesterFailure>)
    ensures r.Ok? ==> Consistent(r.value)
  {
    if "Name" !in suite || "Description" !in suite then Err(MainTableMalformed)
    else
      var name := suite["Name"];
      var tsName := if IgnoredName(name) then name[1..] else name;
      if tsName + ".descriptions" !in tables || tsName + ".data" !in tables then Err(TestSuiteNotFound(tsName))
      else
        var data := tables[tsName + ".data"];
        var descs := tables[tsName + ".descriptions"];
        if |descs| != |data| then Err(TestSuiteMalformed(tsName))
        else if IgnoredName(name) then Ok(Tally(|data|, 0, |data|))
        else SuiteTally(data, descs, failed, |data|)
  }

  /** The first `n` suites, one after the other. */
  function PlanTally(tables: Tables, failed: (Row, string) -> bool, suites: seq<Row>, n: nat): (r: Result<Tally, TesterFailure>)
    requires n <= |suites|
    ensures r.Ok? ==> Consistent(r.value)
  {
    if n == 0 then Ok(Tally(0, 0, 0))
    else match PlanTally(tables, failed, suites, n - 1)
      case Err(e) => Err(e)
      case Ok(t) =>
        match SuiteOutcome(tables, failed, suites[n - 1])
        case Err(e) => Err(e)
        case Ok(s) => Ok(Add(t, s))
  }

  /** The plan fails exactly when one of its suites fails. */
  lemma {:induction false} PlanTallyFail(tables: Tables, failed: (Row, string) -> bool, suites: seq<Row>, n: nat)
    requires n <= |suites|
    ensures PlanTally(tables, failed, suites, n).Err? <==>
              exists i :: 0 <= i < n && SuiteOutcome(tables, failed, suites[i]).Err?
  {
    if n > 0 {
      PlanTallyFail(tables, failed, suites, n - 1);
    }
  }

  lemma {:induction false} PlanTallyErrExtends(tables: Tables, failed: (Row, string) -> bool, suites: seq<Row>, i: nat, n: nat)
    requires i <= n <= |suites| && PlanTally(tables, failed, suites, i).Err?
    ensures PlanTally(tables, failed, suites, n) == PlanTally(tables, failed, suites, i)
    decreases n - i
  {
    if i < n {
      PlanTallyErrExtends(tables, failed, suites, i, n - 1);
    }
  }

  /** The successes over the tests run. */
  function CountsText(t: Tally): string
    requires Consistent(t)
  {
    NatToString(t.successes) + "/" + NatToString(t.tests - t.ignored)
  }

  const SUCCESSFUL := " successful test(s)"
  const NOT_COUNTED := " ignored test(s) not counted."

  function IgnoredNote(t: Tally): string {
    if t.ignored > 0 then ", but " + NatToString(t.ignored) + NOT_COUNTED else "."
  }

  /** The closing line of the report. */
  function FinalMessage(t: Tally): string
    requires Consistent(t)
  {
    CountsText(t) + SUCCESSFUL + IgnoredNote(t)
  }

  lemma Affixes(a: string, b: string)
    ensures StartsWith(a + b, a) && EndsWith(a + b, b)
  {
    assert (a + b)[..|a|] == a;
    assert (a + b)[|a + b| - |b|..] == b;
  }

  /** The closing line counts the successes among the tests run, and
      mentions the ignored tests exactly when there are some. */
  lemma FinalMessageSpec(t: Tally)
    requires Consistent(t)
    ensures var m := FinalMessage(t);
            StartsWith(m, CountsText(t) + SUCCESSFUL) && (EndsWith(m, NOT_COUNTED) <==> t.ignored > 0)
  {
    var m := FinalMessage(t);
    Affixes(CountsText(t) + SUCCESSFUL, IgnoredNote(t));
    if t.ignored == 0 {
      var init := CountsText(t) + SUCCESSFUL;
      assert m == init + ".";
      assert m[|m| - 2] == init[|init| - 1] == ')';
      assert NOT_COUNTED[|NOT_COUNTED| - 2] == 'd';
    } else {
      var init := CountsText(t) + SUCCESSFUL + ", but " + NatToString(t.ignored);
      assert m == init + NOT_COUNTED;
      Affixes(init, NOT_COUNTED);
    }
  }

  /** The runner of a test plan, with its counters. */
  class Tester {
    const testPlan: string
    const tables: Tables
    var nbOfTests: nat
    var nbOfSuccesses: nat
    var nbOfIgnoredTests: nat

    function Counters(): Tally
      reads this
    {
      Tally(nbOfTests, nbOfSuccesses, nbOfIgnoredTests)
    }

    /** Successes and ignored tests are among the tests counted. */
    predicate Valid()
      reads this
    {
      Consistent(Counters())
    }

    /** What __init__ leaves once its checks pass and the plan is parsed. */
    constructor(plan: string, parsed: Tables)
      ensures testPlan == plan && tables == parsed && Counters() == Tally(0, 0, 0) && Valid()
    {
      testPlan := plan;
      tables := parsed;
      nbOfTests, nbOfSuccesses, nbOfIgnoredTests := 0, 0, 0;
    }

    /** runSuite: the counters grow by the suite's tally; a KeyError stops
        it. The callers check first that both tables exist and have the
        same length. */
    method RunSuite(name: string, failed: (Row, string) -> bool) returns (err: Option<TesterFailure>)
      requires Valid()
      requires name + ".data" in tables && name + ".descriptions" in tables
      requires |tables[name + ".data"]| == |tables[name + ".descriptions"]|
      modifies this
      ensures Valid()
      ensures var tally := SuiteTally(tables[name + ".data"], tables[name + ".descriptions"], failed, |tables[name + ".data"]|);
              (err.None? <==> tally.Ok?) && (tally.Err? ==> err == Some(tally.error)) &&
              (tally.Ok? ==> Counters() == Add(old(Counters()), tally.value))
    {
      var data := tables[name + ".data"];
      var descs := tables[name + ".descriptions"];
      ghost var start := Counters();
      for i := 0 to |data|
        invariant Valid()
        invariant SuiteTally(data, descs, failed, i).Ok?
        invariant Counters() == Add(start, SuiteTally(data, descs, failed, i).value)
      {
        err := CountTest(data[i], descs[i], failed);
        if err.Some? {
          SuiteTallyErrExtends(data, descs, failed, i + 1, |data|);
          return;
        }
      }
      err := None;
    }

    /** One turn of runSuite's loop. */
    method CountTest(row: Row, desc: Row, failed: (Row, string) -> bool) returns (err: Option<TesterFailure>)
      requires Valid()
      modifies this
      ensures Valid()
      ensures var d := TestDelta(row, desc, failed);
              (err.None? <==> d.Ok?) && (d.Err? ==> err == Some(d.error)) &&
              (d.Ok? ==> Counters() == Add(old(Counters()), d.value))
    {
      nbOfTests := nbOfTests + 1;
      if "Name" !in row {
        return Some(KeyError("Name"));
      }
      if IgnoredName(row["Name"]) {
        nbOfIgnoredTests := nbOfIgnoredTests + 1;
      } else {
        if "Description" !in desc {
          return Some(KeyError("Description"));
        }
        var testFailed := failed(row, desc["Description"]);
        if !testFailed {
          nbOfSuccesses := nbOfSuccesses + 1;
        }
      }
      err := None;
    }

    /** run: every suite of the `TestSuites` table, then the closing line
        of finalize. */
    method Run(failed: (Row, string) -> bool) returns (r: Result<string, TesterFailure>)
      requires Valid()
      modifies this
      ensures Valid()
      ensures "TestSuites" !in tables ==> r == Err(MainTableNotFound(testPlan))
      ensures "TestSuites" in tables ==>
                var p := PlanTally(tables, failed, tables["TestSuites"], |tables["TestSuites"]|);
                (r.Ok? <==> p.Ok?) && (p.Err? ==> r == Err(p.error)) &&
                (p.Ok? ==> Counters() == Add(old(Counters()), p.value) && r == Ok(FinalMessage(Counters())))
    {
      if "TestSuites" !in tables {
        return Err(MainTableNotFound(testPlan));
      }
      var err := RunSuites(tables["TestSuites"], failed);
      if err.Some? {
        return Err(err.value);
      }
      r := Ok(FinalMessage(Counters()));
    }

    /** The loop of run over the suites. */
    method RunSuites(suites: seq<Row>, failed: (Row, string) -> bool) returns (err: Option<TesterFailure>)
      requires Valid()
      modifies this
      ensures Valid()
      ensures var p := PlanTally(tables, failed, suites, |suites|);
              (err.None? <==> p.Ok?) && (p.Err? ==> err == Some(p.error)) &&
              (p.Ok? ==> Counters() == Add(old(Counters()), p.value))
    {
      ghost var start := Counters();
      for i := 0 to |suites|
        invariant Valid()
        invariant PlanTally(tables, failed, suites, i).Ok?
        invariant Counters() == Add(start, PlanTally(tables, failed, suites, i).value)
      {
        err := RunSuiteRow(suites[i], failed);
        if err.Some? {
          PlanTallyErrExtends(tables, failed, suites, i + 1, |suites|);
          return;
        }
      }
      err := None;
    }

    /** One turn of run's loop. */
    method RunSuiteRow(suite: Row, failed: (Row, string) -> bool) returns (err: Option<TesterFailure>)
      requires Valid()
      modifies this
      ensures Valid()
      ensures var o := SuiteOutcome(tables, failed, suite);
              (err.None? <==> o.Ok?) && (o.Err? ==> err == Some(o.error)) &&
              (o.Ok? ==> Counters() == Add(old(Counters()), o.value))
    {
      if "Name" !in suite || "Description" !in suite {
        return Some(MainTableMalformed);
      }
      var name := suite["Name"];
      var tsName := name;
      var tsIgnored := false;
      if StartsWith(name, "_") {
        tsName := name[1..];
        tsIgnored := true;
      }
      if tsName + ".descriptions" !in tables || tsName + ".data" !in tables {
        return Some(TestSuiteNotFound(tsName));
      }
      if |tables[tsName + ".descriptions"]| != |tables[tsName + ".data"]| {
        return Some(TestSuiteMalformed(tsName));
      }
      if tsIgnored {
        var n := |tables[tsName + ".data"]|;
        nbOfIgnoredTests := nbOfIgnoredTests + n;
        nbOfTests := nbOfTests + n;
        err := None;
      } else {
        err := RunSuite(name, failed);
      }
    }
  }
}
