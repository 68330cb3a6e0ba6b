/** The code generators (gen/generator.py for Zope, gen/plone25/generator.py
    for Plone 2.5): the matcher over parser trees, the build number of the
    generated product, the selection and ordering of the class descriptors
    for which wrappers are dumped, the path to an Appy type in generated code,
    the i18n labels of workflows and of translation pages, and the table of
    back references. Both generators share these algorithms; where they
    differ (the config classes, the wrappers module, what a referer holds)
    the generator's flavour says which one applies. */
module Generators {
  import opened Wrappers
  import opened Text
  import opened Lists
  import GenUtils
  import Po

  /** Which of the two generators: the Zope one or the Plone 2.5 one. */
  datatype Flavour = Zope | Plone25

  // ---------------------------------------------------------------------------
  // AstMatcher

  /** A node of the tree the Python parser produces: a token carries its text,
      any other node its symbol id and at least one child. */
  datatype Ast = Token(sym: int, text: string) | Node(sym: int, first: Ast, rest: seq<Ast>)

  /** The node reached from `node` by `k` steps down first children, if each
      of these steps finds a node with children. */
  function Descend(node: Ast, k: nat): Option<Ast>
    decreases k
  {
    if k == 0 then Some(node)
    else match node
      case Token(_, _) => None
      case Node(_, first, _) => Descend(first, k - 1)
  }

  /** `AstMatcher._match`: the node at the end of the chain of first children
      whose symbols are those of `pattern`. */
  function MatchNode(pattern: seq<int>, node: Ast): Option<Ast>
    requires |pattern| > 0
    decreases |pattern|
  {
    if pattern[0] != node.sym then None
    else if |pattern| == 1 then Some(node)
    else match node
      case Token(_, _) => None
      case Node(_, first, _) => MatchNode(pattern[1..], first)
  }

  /** The `k`-th step of the chain of first children from `node` exists and
      has the `k`-th symbol of the pattern. */
  predicate ChainAt(node: Ast, pattern: seq<int>, k: nat)
    requires k < |pattern|
  {
    Descend(node, k).Some? && Descend(node, k).value.sym == pattern[k]
  }

  /** `_match` finds a node exactly when the symbols along the first children
      spell the pattern, and the node found is the last of that chain. */
  lemma {:induction false} MatchNodeChain(pattern: seq<int>, node: Ast)
    requires |pattern| > 0
    ensures MatchNode(pattern, node).Some? <==> forall k :: 0 <= k < |pattern| ==> ChainAt(node, pattern, k)
    ensures MatchNode(pattern, node).Some? ==> MatchNode(pattern, node) == Descend(node, |pattern| - 1)
    decreases |pattern|
  {
    assert Descend(node, 0) == Some(node);
    if pattern[0] != node.sym {
      assert !ChainAt(node, pattern, 0);
    } else if |pattern| > 1 {
      match node
      case Token(_, _) =>
        assert MatchNode(pattern, node).None?;
        assert !ChainAt(node, pattern, 1);
      case Node(_, first, _) =>
        var tail := pattern[1..];
        MatchNodeChain(tail, first);
        assert MatchNode(pattern, node) == MatchNode(tail, first);
        forall k | 1 <= k < |pattern|
          ensures ChainAt(node, pattern, k) == ChainAt(first, tail, k - 1)
        {
          assert Descend(node, k) == Descend(first, k - 1) && pattern[k] == tail[k - 1];
        }
        forall j | 0 <= j < |tail|
          ensures ChainAt(first, tail, j) == ChainAt(node, pattern, j + 1)
        {
          assert Descend(first, j) == Descend(node, j + 1) && tail[j] == pattern[j + 1];
        }
    }
  }

  /** The children of a node as `node[1:]` lists them; a token's only item
      after its symbol is its text, which no pattern matches. */
  function Children(node: Ast): seq<Ast> {
    match node
    case Token(_, _) => []
    case Node(_, first, rest) => [first] + rest
  }

  /** The nodes `_match` finds among `subs`, in order. */
  function MatchesAmong(pattern: seq<int>, subs: seq<Ast>): seq<Ast>
    requires |pattern| > 0
  {
    if subs == [] then []
    else
      var last := MatchNode(pattern, subs[|subs| - 1]);
      MatchesAmong(pattern, subs[..|subs| - 1]) + (if last.Some? then [last.value] else [])
  }

  /** A node is among the matches exactly when it is the one `_match` finds
      in some child. */
  lemma {:induction false} MatchesAmongMembers(pattern: seq<int>, subs: seq<Ast>, x: Ast)
    requires |pattern| > 0
    ensures x in MatchesAmong(pattern, subs) <==> exists i :: 0 <= i < |subs| && MatchNode(pattern, subs[i]) == Some(x)
    decreases |subs|
  {
    if subs != [] {
      var init := subs[..|subs| - 1];
      MatchesAmongMembers(pattern, init, x);
      if exists i :: 0 <= i < |subs| && MatchNode(pattern, subs[i]) == Some(x) {
        var i :| 0 <= i < |subs| && MatchNode(pattern, subs[i]) == Some(x);
        if i < |init| { assert init[i] == subs[i]; }
      }
      if exists i :: 0 <= i < |init| && MatchNode(pattern, init[i]) == Some(x) {
        var i :| 0 <= i < |init| && MatchNode(pattern, init[i]) == Some(x);
        assert subs[i] == init[i];
      }
    }
  }

  /** `AstMatcher.match`: the matches of `pattern` among the direct children
      of `node`. */
  method Match(pattern: seq<int>, node: Ast) returns (res: seq<Ast>)
    requires |pattern| > 0
    ensures res == MatchesAmong(pattern, Children(node))
  {
    var subs := Children(node);
    res := [];
    for i := 0 to |subs|
      invariant res == MatchesAmong(pattern, subs[..i])
    {
      assert subs[..i + 1][..i] == subs[..i];
      var occurrence := MatchNode(pattern, subs[i]);
      if occurrence.Some? {
        res := res + [occurrence.value];
      }
    }
    assert subs[..|subs|] == subs;
  }

  // ---------------------------------------------------------------------------
  // The build number: `versionRex = (.*?\s+build)\s+(\d+)` and `initialize`

  const DefaultVersion := "0.1 build 1"

  /** The end of the run of whitespace starting at `i` (`\s+`, greedy). */
  function SpaceEnd(t: string, i: nat): (j: nat)
    requires i <= |t|
    ensures i <= j <= |t|
    ensures forall k :: i <= k < j ==> IsSpace(t[k])
    ensures j == |t| || !IsSpace(t[j])
    decreases |t| - i
  {
    if i < |t| && IsSpace(t[i]) then SpaceEnd(t, i + 1) else i
  }

  /** The end of the run of digits starting at `i` (`\d+`, greedy). */
  function DigitEnd(t: string, i: nat): (j: nat)
    requires i <= |t|
    ensures i <= j <= |t|
    ensures AllDigits(t[i..j])
    ensures j == |t| || !IsDigit(t[j])
    decreases |t| - i
  {
    if i < |t| && IsDigit(t[i]) then
      var j := DigitEnd(t, i + 1);
      assert t[i..j] == [t[i]] + t[i + 1..j];
      j
    else i
  }

  /** Where a match of the version pattern lies: group 1 is
      `t[start..groupEnd]`, group 2 `t[digitsStart..digitsEnd]`. */
  datatype BuildMatch = BuildMatch(start: nat, groupEnd: nat, digitsStart: nat, digitsEnd: nat)

  predicate WellPlaced(t: string, m: BuildMatch) {
    m.start <= m.groupEnd < m.digitsStart < m.digitsEnd <= |t| && AllDigits(t[m.digitsStart..m.digitsEnd])
  }

  /** `\s+build\s+(\d+)` tried at position `e`, after `.*?` consumed
      `t[s..e]`. */
  function BuildAt(t: string, s: nat, e: nat): (r: Option<BuildMatch>)
    requires s <= e <= |t|
    ensures r.Some? ==> WellPlaced(t, r.value) && r.value.start == s
  {
    var w := SpaceEnd(t, e);
    if w == e || w + 5 > |t| || t[w..w + 5] != "build" then None
    else
      var d0 := SpaceEnd(t, w + 5);
      if d0 == w + 5 then None
      else
        var d1 := DigitEnd(t, d0);
        if d1 == d0 then None else Some(BuildMatch(s, w + 5, d0, d1))
  }

  /** The lazy `.*?` from `s`: the shortest stretch without a line break after
      which the rest of the pattern matches, tried from `e` on. */
  function LazyFrom(t: string, s: nat, e: nat): (r: Option<BuildMatch>)
    requires s <= e <= |t|
    ensures r.Some? ==> WellPlaced(t, r.value) && r.value.start == s
    decreases |t| - e
  {
    match BuildAt(t, s, e)
    case Some(m) => Some(m)
    case None => if e < |t| && t[e] != '\n' then LazyFrom(t, s, e + 1) else None
  }

  /** `re.search`: the match starting at the smallest position. */
  function SearchFrom(t: string, s: nat): (r: Option<BuildMatch>)
    requires s <= |t|
    ensures r.Some? ==> WellPlaced(t, r.value)
    decreases |t| - s
  {
    match LazyFrom(t, s, s)
    case Some(m) => Some(m)
    case None => if s < |t| then SearchFrom(t, s + 1) else None
  }

  /** The version the generator gives the product, from the stripped contents
      of the previous `version.txt` (None when there is no such file): group 1
      of the first match, a space and the build number plus one. A file whose
      text does not match makes `initialize` fail. */
  function NextVersion(versionFile: Option<string>): (r: Result<string, string>)
    ensures versionFile.None? ==> r == Ok(DefaultVersion)
    ensures r.Err? <==> versionFile.Some? && SearchFrom(Strip(versionFile.value), 0).None?
  {
    match versionFile
    case None => Ok(DefaultVersion)
    case Some(content) =>
      var t := Strip(content);
      match SearchFrom(t, 0)
      case None => Err("the version file holds no build number")
      case Some(m) =>
        Ok(t[m.start..m.groupEnd] + " " + NatToString(DecimalValue(t[m.digitsStart..m.digitsEnd]) + 1))
  }

  /** No match can start inside a word: the lazy scan walks over it. */
  lemma {:induction false} LazySkipsWord(t: string, w: nat, e: nat)
    requires e <= w <= |t|
    requires forall i :: e <= i < w ==> !IsSpace(t[i])
    ensures LazyFrom(t, 0, e) == LazyFrom(t, 0, w)
    decreases w - e
  {
    if e < w {
      LazyStepOverWord(t, e);
      LazySkipsWord(t, w, e + 1);
    }
  }

  /** The lazy scan steps over a character that is not whitespace. */
  lemma LazyStepOverWord(t: string, e: nat)
    requires e < |t| && !IsSpace(t[e])
    ensures LazyFrom(t, 0, e) == LazyFrom(t, 0, e + 1)
  {
    assert SpaceEnd(t, e) == e;
    assert BuildAt(t, 0, e).None?;
    assert '\n' in WHITESPACE;
  }

  /** In `<x> build N`, `x` a single word, the first match spans the whole
      text, with group 1 ending after `build`. */
  lemma {:induction false} VersionMatch(x: string, digits: string)
    requires x != [] && forall i :: 0 <= i < |x| ==> !IsSpace(x[i])
    requires digits != [] && AllDigits(digits)
    ensures var t := x + " build " + digits;
      SearchFrom(t, 0) == Some(BuildMatch(0, |x| + 6, |x| + 7, |t|))
  {
    var t := x + " build " + digits;
    var g := |x| + 6;
    assert t[..|x|] == x;
    assert t[|x|] == ' ' && t[|x| + 1] == 'b';
    assert t[g] == ' ' && t[g + 1] == digits[0];
    assert t[|x| + 1..g] == "build";
    assert SpaceEnd(t, |x| + 1) == |x| + 1;
    assert SpaceEnd(t, |x|) == |x| + 1;
    assert SpaceEnd(t, g + 1) == g + 1;
    assert SpaceEnd(t, g) == g + 1;
    assert t[g + 1..] == digits;
    DigitsToEnd(t, g + 1);
    assert BuildAt(t, 0, |x|) == Some(BuildMatch(0, g, g + 1, |t|));
    assert forall i :: 0 <= i < |x| ==> t[i] == x[i];
    LazySkipsWord(t, |x|, 0);
  }

  /** A version `<x> build N`, `x` a single word, becomes `<x> build N+1`. */
  lemma {:induction false} VersionBumped(content: string, x: string, n: nat)
    requires x != [] && forall i :: 0 <= i < |x| ==> !IsSpace(x[i])
    requires Strip(content) == x + " build " + NatToString(n)
    ensures NextVersion(Some(content)) == Ok(x + " build " + NatToString(n + 1))
  {
    var digits := NatToString(n);
    var t := x + " build " + digits;
    VersionMatch(x, digits);
    assert t[0..|x| + 6] == x + " build";
    assert t[|x| + 7..|t|] == digits;
    NatToStringRoundTrip(n);
    var m := BuildMatch(0, |x| + 6, |x| + 7, |t|);
    assert NextVersion(Some(content)) == Ok(t[m.start..m.groupEnd] + " " + NatToString(DecimalValue(t[m.digitsStart..m.digitsEnd]) + 1));
    assert x + " build" + " " == x + " build ";
  }

  /** A run of digits reaching the end of the text ends there. */
  lemma {:induction false} DigitsToEnd(t: string, i: nat)
    requires i <= |t| && AllDigits(t[i..])
    ensures DigitEnd(t, i) == |t|
    decreases |t| - i
  {
    if i < |t| {
      assert t[i] == t[i..][0];
      assert t[i + 1..] == t[i..][1..];
      DigitsToEnd(t, i + 1);
    }
  }

  // ---------------------------------------------------------------------------
  // Class descriptors: `getClasses` and `getClassesInOrder`

  /** A Python class as the ordering sees it: its name and the names of its
      direct bases, in order. */
  datatype Klass = Klass(name: string, bases: seq<string>)

  /** A class descriptor: the class it describes and whether the developer
      subclassed it (only meaningful for the config classes). */
  datatype ClassDescr = ClassDescr(klass: Klass, customized: bool)

  /** The config-related classes of each generator, tool first. */
  function ConfigClasses(flavour: Flavour, tool: ClassDescr, user: ClassDescr, group: ClassDescr, translation: ClassDescr): (r: seq<ClassDescr>)
    ensures flavour == Zope ==> |r| == 4
    ensures flavour == Plone25 ==> |r| == 3
    ensures |r| > 0 && r[0] == tool
  {
    match flavour
    case Zope => [tool, user, group, translation]
    case Plone25 => [tool, user, translation]
  }

  /** The customized classes among `cs`, in order. */
  function Customized(cs: seq<ClassDescr>): (r: seq<ClassDescr>)
    ensures forall c :: c in r <==> c in cs && c.customized
    ensures |r| <= |cs|
  {
    if cs == [] then []
    else Customized(cs[..|cs| - 1]) + (if cs[|cs| - 1].customized then [cs[|cs| - 1]] else [])
  }

  /** `getClasses`: the application's classes, extended as the filter `which` says
      (the empty string stands for no filter). */
  function GetClasses(classes: seq<ClassDescr>, config: seq<ClassDescr>, which: string): seq<ClassDescr> {
    if which == "" then classes
    else if which == "all" then classes + config
    else if which == "allButTool" then classes + (if config == [] then [] else config[1..])
    else if which == "custom" then classes + Customized(config)
    else if which == "predefined" then config
    else classes
  }

  /** Every filter but `predefined` keeps the application's classes first and
      in order; `predefined` gives the config classes alone. */
  lemma GetClassesPrefix(classes: seq<ClassDescr>, config: seq<ClassDescr>, which: string)
    ensures which != "predefined" ==> GetClasses(classes, config, which)[..|classes|] == classes
    ensures which == "predefined" ==> GetClasses(classes, config, which) == config
    ensures which !in {"all", "allButTool", "custom", "predefined"} ==> GetClasses(classes, config, which) == classes
  {
  }

  /** What the filters add after the application's classes: `all` every config
      class, `allButTool` all of them but the tool (the first), `custom` the
      customized ones. */
  lemma {:induction false} GetClassesAdded(classes: seq<ClassDescr>, config: seq<ClassDescr>, which: string, c: ClassDescr)
    requires |config| > 0 && which in {"all", "allButTool", "custom"}
    ensures var added := GetClasses(classes, config, which)[|classes|..];
      c in added <==>
        (which == "all" && c in config) ||
        (which == "allButTool" && c in config[1..]) ||
        (which == "custom" && c in config && c.customized)
  {
    var r := GetClasses(classes, config, which);
    if which == "all" {
      assert r[|classes|..] == config;
    } else if which == "allButTool" {
      assert r[|classes|..] == config[1..];
    } else {
      assert r[|classes|..] == Customized(config);
    }
  }

  /** With the Zope generator `all` adds four classes and `allButTool` three;
      with the Plone 2.5 one, which has no group class, three and two. */
  lemma GetClassesCounts(flavour: Flavour, classes: seq<ClassDescr>, tool: ClassDescr, user: ClassDescr, group: ClassDescr, translation: ClassDescr)
    ensures var config := ConfigClasses(flavour, tool, user, group, translation);
      |GetClasses(classes, config, "all")| == |classes| + (if flavour == Zope then 4 else 3) &&
      |GetClasses(classes, config, "allButTool")| == |classes| + (if flavour == Zope then 3 else 2)
  {
  }

  /** Whether a class is a root: it has no base, or its first base is the
      model class every Appy class may inherit from. */
  predicate IsRoot(k: Klass) {
    |k.bases| == 0 || k.bases[0] == "ModelClass"
  }

  /** The position of the first descriptor in `res` whose class lists `name`
      as a direct base, or `|res|` when there is none. */
  function FirstChild(res: seq<ClassDescr>, name: string): (i: nat)
    ensures i <= |res|
    ensures i < |res| ==> name in res[i].klass.bases
    ensures forall k :: 0 <= k < i ==> name !in res[k].klass.bases
  {
    if res == [] then 0
    else if name in res[0].klass.bases then 0
    else 1 + FirstChild(res[1..], name)
  }

  /** Where `getClassesInOrder` inserts a descriptor: at the front for a root
      class, else before its first already-placed direct subclass, else at
      the end. */
  function PlaceIndex(res: seq<ClassDescr>, c: ClassDescr): nat {
    if IsRoot(c.klass) then 0 else FirstChild(res, c.klass.name)
  }

  /** The descriptors in the order `getClassesInOrder` produces. */
  function InOrder(all: seq<ClassDescr>): seq<ClassDescr> {
    if all == [] then []
    else
      var placed := InOrder(all[..|all| - 1]);
      InsertAt(placed, PlaceIndex(placed, all[|all| - 1]), all[|all| - 1])
  }

  /** Every descriptor comes out exactly as many times as it goes in. */
  lemma {:induction false} InOrderPermutation(all: seq<ClassDescr>)
    ensures multiset(InOrder(all)) == multiset(all)
    decreases |all|
  {
    if all != [] {
      InOrderPermutation(all[..|all| - 1]);
      assert all == all[..|all| - 1] + [all[|all| - 1]];
    }
  }

  /** One insertion: the new descriptor lands at its place, the ones already
      placed keep their order around it, so it precedes every already-placed
      class that lists it as a direct base; a root lands first and a class
      without placed subclass last. */
  lemma PlaceProperties(res: seq<ClassDescr>, c: ClassDescr)
    ensures var p := PlaceIndex(res, c); var r := InsertAt(res, p, c);
      p <= |res| && r[p] == c && r[..p] + r[p + 1..] == res &&
      (forall i :: 0 <= i < |res| && c.klass.name in res[i].klass.bases && !IsRoot(c.klass) ==> p <= i && r[i + 1] == res[i]) &&
      (IsRoot(c.klass) ==> p == 0) &&
      (!IsRoot(c.klass) && (forall i :: 0 <= i < |res| ==> c.klass.name !in res[i].klass.bases) ==> r == res + [c])
  {
    var p := PlaceIndex(res, c);
    var r := InsertAt(res, p, c);
    if p < |res| {
      assert r[..p] + r[p + 1..] == res[..p] + res[p..];
      assert res[..p] + res[p..] == res;
    } else {
      assert r[..p] == res;
    }
  }

  /** The insertion rule only looks at direct subclasses: processing a
      grandchild, then the grandparent, then the middle class puts the middle
      class before its own base. */
  lemma ParentAfterChildExample()
    ensures InOrder([Alpha, Bravo, Charlie]) == [Charlie, Alpha, Bravo]
    ensures Bravo.klass.name in Charlie.klass.bases
  {
    var all := [Alpha, Bravo, Charlie];
    ExampleFirstTwo();
    assert all[..2] == [Alpha, Bravo];
    assert PlaceIndex([Alpha, Bravo], Charlie) == 0 by {
      assert Charlie.klass.name in Alpha.klass.bases;
    }
    assert InOrder(all) == InsertAt([Alpha, Bravo], 0, Charlie);
  }

  /** The classes of the example: `Charlie` derives from `Bravo` and `Alpha`
      from `Charlie`. */
  const Alpha := ClassDescr(Klass("A", ["C"]), false)
  const Bravo := ClassDescr(Klass("B", ["Base"]), false)
  const Charlie := ClassDescr(Klass("C", ["B"]), false)

  /** The first two classes of the example keep their order. */
  lemma ExampleFirstTwo()
    ensures InOrder([Alpha, Bravo]) == [Alpha, Bravo]
  {
    var two := [Alpha, Bravo];
    assert two[..1] == [Alpha] && two[..1][..0] == [];
    assert InOrder([Alpha]) == [Alpha] by {
      assert PlaceIndex([], Alpha) == 0;
    }
    assert PlaceIndex([Alpha], Bravo) == 1 by {
      assert Bravo.klass.name !in Alpha.klass.bases;
      assert FirstChild([Alpha], "B") == 1;
    }
  }

  /** The list of classes runs parallel to the list of descriptors. */
  predicate Parallel(res: seq<ClassDescr>, resClasses: seq<Klass>) {
    |resClasses| == |res| && forall i :: 0 <= i < |res| ==> resClasses[i] == res[i].klass
  }

  /** `getClassesInOrder`: inserts each descriptor, and its class into the
      parallel list of classes, where `PlaceIndex` says. */
  method GetClassesInOrder(allClasses: seq<ClassDescr>) returns (res: seq<ClassDescr>)
    ensures res == InOrder(allClasses)
    ensures multiset(res) == multiset(allClasses)
  {
    res := [];
    var resClasses: seq<Klass> := [];
    for n := 0 to |allClasses|
      invariant res == InOrder(allClasses[..n])
      invariant Parallel(res, resClasses)
    {
      assert allClasses[..n + 1][..n] == allClasses[..n];
      res, resClasses := PlaceOne(res, resClasses, allClasses[n]);
    }
    assert allClasses[..|allClasses|] == allClasses;
    InOrderPermutation(allClasses);
  }

  /** The body of the loop of `getClassesInOrder`: one descriptor inserted
      into both lists. */
  method PlaceOne(res: seq<ClassDescr>, resClasses: seq<Klass>, classDescr: ClassDescr) returns (res': seq<ClassDescr>, resClasses': seq<Klass>)
    requires Parallel(res, resClasses)
    ensures res' == InsertAt(res, PlaceIndex(res, classDescr), classDescr)
    ensures Parallel(res', resClasses')
  {
    var klass := classDescr.klass;
    var p: nat;
    if IsRoot(klass) {
      p := 0;
      res' := InsertAt(res, 0, classDescr);
      resClasses' := InsertAt(resClasses, 0, klass);
    } else {
      var lowest := LowestChildIndex(resClasses, klass.name);
      if lowest.Some? {
        p := lowest.value;
        assert p == FirstChild(res, klass.name);
        res' := InsertAt(res, p, classDescr);
        resClasses' := InsertAt(resClasses, p, klass);
      } else {
        p := |res|;
        assert FirstChild(res, klass.name) == |res|;
        res' := res + [classDescr];
        resClasses' := resClasses + [klass];
      }
    }
    InsertParallel(res, resClasses, p, classDescr);
  }

  /** Inserting a descriptor and its class at the same place keeps the lists
      parallel. */
  lemma InsertParallel(res: seq<ClassDescr>, resClasses: seq<Klass>, p: nat, c: ClassDescr)
    requires Parallel(res, resClasses)
    ensures Parallel(InsertAt(res, p, c), InsertAt(resClasses, p, c.klass))
  {
    var r := InsertAt(res, p, c);
    var rc := InsertAt(resClasses, p, c.klass);
    forall i | 0 <= i < |r|
      ensures rc[i] == r[i].klass
    {
      if p >= |res| {
        if i < |res| { assert r[i] == res[i] && rc[i] == resClasses[i]; }
      } else if i < p {
        assert r[i] == r[..p][i] == res[..p][i];
        assert rc[i] == rc[..p][i] == resClasses[..p][i];
      } else if i > p {
        assert r[i] == r[p + 1..][i - p - 1] == res[p..][i - p - 1];
        assert rc[i] == rc[p + 1..][i - p - 1] == resClasses[p..][i - p - 1];
      }
    }
  }

  /** The inner loop of `getClassesInOrder`: the smallest index, as
      `resClasses.index` gives it, of a class listing `name` among its bases
      (None for the `sys.maxint` sentinel). */
  method LowestChildIndex(resClasses: seq<Klass>, name: string) returns (lowest: Option<nat>)
    ensures lowest.Some? ==> lowest.value < |resClasses| && name in resClasses[lowest.value].bases
    ensures lowest.Some? ==> forall k :: 0 <= k < lowest.value ==> name !in resClasses[k].bases
    ensures lowest.None? ==> forall k :: 0 <= k < |resClasses| ==> name !in resClasses[k].bases
  {
    lowest := None;
    for k := 0 to |resClasses|
      invariant lowest.Some? ==> lowest.value < k && name in resClasses[lowest.value].bases
      invariant forall j :: 0 <= j < k && name in resClasses[j].bases ==> lowest.Some? && lowest.value <= j
      invariant lowest.Some? ==> forall j :: 0 <= j < lowest.value ==> name !in resClasses[j].bases
    {
      if name in resClasses[k].bases {
        var index := FirstIndex(resClasses, resClasses[k]);
        assert resClasses[index] == resClasses[k];
        if lowest.None? || index < lowest.value {
          lowest := Some(index);
        }
      }
    }
  }

  // ---------------------------------------------------------------------------
  // getAppyTypePath

  /** The module generated code imports the model classes' wrappers from. */
  function WrappersModule(flavour: Flavour): string {
    match flavour
    case Zope => "wrappers"
    case Plone25 => "wraps"
  }

  /** `getAppyTypePath`: the dotted path of attribute `name` of a class in
      generated code, through the wrappers module for a model class and the
      class's own module otherwise, to its back reference when `isBack`. */
  function AppyTypePath(flavour: Flavour, name: string, moduleName: string, className: string, isModel: bool, isBack: bool): string {
    var prefix := if isModel then WrappersModule(flavour) else moduleName;
    prefix + "." + className + "." + name + (if isBack then ".back" else "")
  }

  /** Read back at its dots, the path gives the module's segments, then the
      class name, the attribute name and `back` for a back reference. */
  lemma {:induction false} AppyTypePathParts(flavour: Flavour, name: string, moduleName: string, className: string, isModel: bool, isBack: bool)
    requires '.' !in name && '.' !in className
    ensures var prefix := if isModel then WrappersModule(flavour) else moduleName;
      Split(AppyTypePath(flavour, name, moduleName, className, isModel, isBack), '.') ==
        Split(prefix, '.') + [className, name] + (if isBack then ["back"] else [])
  {
    var prefix := if isModel then WrappersModule(flavour) else moduleName;
    var a := prefix + "." + className;
    var b := a + "." + name;
    assert a == prefix + ['.'] + className;
    SplitAppend(prefix, className, '.');
    assert b == a + ['.'] + name;
    SplitAppend(a, name, '.');
    if isBack {
      assert b + ".back" == b + ['.'] + "back";
      SplitAppend(b, "back", '.');
    } else {
      assert b + "" == b;
    }
  }

  // ---------------------------------------------------------------------------
  // Workflow labels (`generateWorkflow`)

  /** What an attribute of a workflow class is, as the label generation sees
      it: a state, a transition with its `confirm` and `notify` flags, or
      anything else. */
  datatype WfAttr = StateAttr | TransitionAttr(confirm: bool, notify: bool) | OtherAttr

  /** The defaults of the mail labels, as gen/po.py defines them. */
  const EmailSubject := "${siteTitle} - Action \\\"${transitionName}\\\" has been performed on element entitled \\\"${objectTitle}\\\"."
  const EmailBody := "You can consult this element at ${objectUrl}."

  /** A label with no translation yet, as the generator creates them. */
  function Label(id: string, default: string): Po.PoMessage {
    Po.PoMessage(id, "", default, false, [])
  }

  /** The label of a state or transition: its id is the workflow's name and
      the element's, its default the element's name made readable. */
  function ElementLabel(wfName: string, name: string): Po.PoMessage {
    Label(wfName + "_" + name, GenUtils.NiceMessage(name))
  }

  /** The labels of one transition: its own, then the text of the confirm
      popup when it asks for confirmation, then the subject and body of the
      mail when it notifies. */
  function TransitionBlock(wfName: string, name: string, t: WfAttr, confirmText: string): seq<Po.PoMessage>
    requires t.TransitionAttr?
  {
    var base := wfName + "_" + name;
    [ElementLabel(wfName, name)]
      + (if t.confirm then [Label(base + "_confirm", confirmText)] else [])
      + (if t.notify then [Label(base + "_mail_subject", EmailSubject), Label(base + "_mail_body", EmailBody)] else [])
  }

  /** Whether one of `labels` has the given id. */
  predicate HasId(labels: seq<Po.PoMessage>, id: string) {
    exists l :: l in labels && l.id == id
  }

  /** A transition's block starts with the transition's own label and holds
      a confirm label exactly when the transition asks for confirmation, and
      the two mail labels exactly when it notifies. */
  lemma TransitionBlockLabels(wfName: string, name: string, t: WfAttr, confirmText: string)
    requires t.TransitionAttr?
    ensures var block := TransitionBlock(wfName, name, t, confirmText); var base := wfName + "_" + name;
      block[0] == ElementLabel(wfName, name) &&
      (HasId(block, base + "_confirm") <==> t.confirm) &&
      (HasId(block, base + "_mail_subject") <==> t.notify) &&
      (HasId(block, base + "_mail_body") <==> t.notify)
  {
    var block := TransitionBlock(wfName, name, t, confirmText);
    var base := wfName + "_" + name;
    forall l | l in block
      ensures l.id in {base, base + "_confirm", base + "_mail_subject", base + "_mail_body"}
      ensures l.id == base + "_confirm" ==> t.confirm
      ensures l.id == base + "_mail_subject" || l.id == base + "_mail_body" ==> t.notify
    {
    }
    if t.confirm { assert block[1].id == base + "_confirm"; }
    if t.notify { assert block[|block| - 2].id == base + "_mail_subject" && block[|block| - 1].id == base + "_mail_body"; }
  }

  /** The labels generated for the `i`-th attribute when scanning for states. */
  function StateLabelFn(wfName: string, attrs: seq<(string, WfAttr)>): nat -> seq<Po.PoMessage> {
    (i: nat) => if i < |attrs| && attrs[i].1.StateAttr? then [ElementLabel(wfName, attrs[i].0)] else []
  }

  /** The labels generated for the `i`-th attribute when scanning for
      transitions. */
  function TransitionLabelFn(wfName: string, attrs: seq<(string, WfAttr)>, confirmText: string): nat -> seq<Po.PoMessage> {
    (i: nat) => if i < |attrs| && attrs[i].1.TransitionAttr? then TransitionBlock(wfName, attrs[i].0, attrs[i].1, confirmText) else []
  }

  /** All labels of a workflow whose class has the attributes `attrs` (in
      `dir` order): the states' labels, then the transitions' blocks. */
  function WorkflowLabels(wfName: string, attrs: seq<(string, WfAttr)>, confirmText: string): seq<Po.PoMessage> {
    Flatten(StateLabelFn(wfName, attrs), |attrs|) + Flatten(TransitionLabelFn(wfName, attrs, confirmText), |attrs|)
  }

  /** A workflow's labels are one label per state and the block of each
      transition, nothing else. */
  lemma WorkflowLabelsMembers(wfName: string, attrs: seq<(string, WfAttr)>, confirmText: string, l: Po.PoMessage)
    ensures l in WorkflowLabels(wfName, attrs, confirmText) <==>
      (exists i :: 0 <= i < |attrs| && attrs[i].1.StateAttr? && l == ElementLabel(wfName, attrs[i].0)) ||
      (exists i :: 0 <= i < |attrs| && attrs[i].1.TransitionAttr? && l in TransitionBlock(wfName, attrs[i].0, attrs[i].1, confirmText))
  {
    var fs := StateLabelFn(wfName, attrs);
    var ft := TransitionLabelFn(wfName, attrs, confirmText);
    FlattenMembers(fs, |attrs|);
    FlattenMembers(ft, |attrs|);
    assert forall i :: 0 <= i < |attrs| ==> (l in fs(i) <==> attrs[i].1.StateAttr? && l == ElementLabel(wfName, attrs[i].0));
    assert forall i :: 0 <= i < |attrs| ==> (l in ft(i) <==> attrs[i].1.TransitionAttr? && l in TransitionBlock(wfName, attrs[i].0, attrs[i].1, confirmText));
  }

  /** Whether an attribute is a transition asking for confirmation. */
  predicate AsksConfirm(a: WfAttr) {
    a.TransitionAttr? && a.confirm
  }

  /** `generateWorkflow` as written: the confirm label's default is
      `PoMessage.CONFIRM`, which gen/po.py does not define, so a workflow with
      a transition asking for confirmation makes it fail; other workflows get
      their labels. */
  function WorkflowLabelsAsWritten(wfName: string, attrs: seq<(string, WfAttr)>): (r: Result<seq<Po.PoMessage>, string>)
    ensures r.Err? <==> exists i :: 0 <= i < |attrs| && AsksConfirm(attrs[i].1)
    ensures r.Ok? ==> r.value == WorkflowLabels(wfName, attrs, "")
  {
    if exists i :: 0 <= i < |attrs| && AsksConfirm(attrs[i].1) then Err("PoMessage has no attribute CONFIRM")
    else Ok(WorkflowLabels(wfName, attrs, ""))
  }

  /** A single transition that asks for confirmation is enough to make the
      label generation fail. */
  lemma ConfirmTransitionFails()
    ensures WorkflowLabelsAsWritten("validation", [("approve", TransitionAttr(true, false))]).Err?
  {
    var attrs := [("approve", TransitionAttr(true, false))];
    assert AsksConfirm(attrs[0].1);
  }

  // ---------------------------------------------------------------------------
  // Translation pages (`finalize`)

  /** The name of the `p`-th page of the translation form: `main`, then `2`,
      `3`, ... */
  function PageName(p: nat): string {
    if p == 0 then "main" else NatToString(p + 1)
  }

  /** The page holding the fields of the `j`-th message (from 0). */
  function PageOf(j: nat, perPage: nat): string
    requires perPage > 0
  {
    PageName(j / perPage)
  }

  /** The label of page number `k`. */
  function PageLabel(translationName: string, k: nat): Po.PoMessage {
    Label(translationName + "_page_" + NatToString(k), "Page " + NatToString(k))
  }

  /** The page labels `finalize` adds: one per page number from 2, as many as
      the number of messages divided by the page size, plus one. */
  method PageLabels(translationName: string, nbMessages: nat, perPage: nat) returns (labels: seq<Po.PoMessage>)
    requires perPage > 0
    ensures |labels| == nbMessages / perPage + 1
    ensures forall i :: 0 <= i < |labels| ==> labels[i] == PageLabel(translationName, i + 2)
  {
    var nbOfPages := nbMessages / perPage + 1;
    labels := [];
    for i := 0 to nbOfPages
      invariant |labels| == i
      invariant forall k :: 0 <= k < i ==> labels[k] == PageLabel(translationName, k + 2)
    {
      labels := labels + [PageLabel(translationName, i + 2)];
    }
  }

  /** One more message: the page changes exactly when the count of messages
      reaches a multiple of the page size. */
  lemma DivStep(i: nat, perPage: nat)
    requires perPage > 0
    ensures (i + 1) / perPage == if (i + 1) % perPage == 0 then i / perPage + 1 else i / perPage
  {
    var q := i / perPage;
    var r := i % perPage;
    if r + 1 == perPage {
      assert i + 1 == (q + 1) * perPage;
      DivInBatch(q + 1, i + 1, perPage);
    } else {
      assert i + 1 == q * perPage + (r + 1);
      DivInBatch(q, i + 1, perPage);
    }
  }

  /** The loop of `finalize` that puts the fields of each message on a page
      of the translation form: the `j`-th message goes on page
      `j / perPage`. */
  method FieldPages(ids: seq<string>, perPage: nat) returns (fields: seq<(string, string)>)
    requires perPage > 0
    ensures |fields| == |ids|
    ensures forall j :: 0 <= j < |ids| ==> fields[j] == (ids[j], PageOf(j, perPage))
  {
    var page := "main";
    var i := 0;
    fields := [];
    while i < |ids|
      invariant 0 <= i <= |ids| && |fields| == i
      invariant page == PageName(i / perPage)
      invariant forall j :: 0 <= j < i ==> fields[j] == (ids[j], PageOf(j, perPage))
    {
      fields := fields + [(ids[i], page)];
      DivStep(i, perPage);
      i := i + 1;
      if i % perPage == 0 {
        if page == "main" {
          assert (i - 1) / perPage == 0 by {
            if (i - 1) / perPage > 0 { NumberNotMain((i - 1) / perPage + 1); }
          }
          assert NatToString(2) == "2";
          page := "2";
        } else {
          NatToStringRoundTrip((i - 1) / perPage + 1);
          page := NatToString(DecimalValue(page) + 1);
        }
      }
    }
  }

  /** A number written out is never the name of the first page. */
  lemma NumberNotMain(n: nat)
    ensures NatToString(n) != "main"
  {
    var s := NatToString(n);
    assert IsDigit(s[0]) && !IsDigit('m');
  }

  /** Different page numbers have different names. */
  lemma PageNamesDiffer(p: nat, q: nat)
    requires p != q
    ensures PageName(p) != PageName(q)
  {
    if p > 0 && q > 0 {
      NatToStringRoundTrip(p + 1);
      NatToStringRoundTrip(q + 1);
    } else if p > 0 {
      NumberNotMain(p + 1);
    } else {
      NumberNotMain(q + 1);
    }
  }

  /** The number of messages the field loop of `finalize` walks: the
      `nbMessages` counted for the page labels, then the page labels
      themselves, which `potFile.update` has added (as new ids) in between. */
  function PlacedCount(nbMessages: nat, perPage: nat): nat
    requires perPage > 0
  {
    nbMessages + (nbMessages / perPage + 1)
  }

  /** The number of the last page holding a message (1 being `main`). */
  function LastPage(nbMessages: nat, perPage: nat): nat
    requires perPage > 0
  {
    (PlacedCount(nbMessages, perPage) - 1) / perPage + 1
  }

  /** Every message the loop places is on a page up to the last one, and a
      page after `main` is named by its number. */
  lemma PlacedPages(nbMessages: nat, perPage: nat, j: nat)
    requires perPage > 0 && j < PlacedCount(nbMessages, perPage)
    ensures j / perPage + 1 <= LastPage(nbMessages, perPage)
    ensures j / perPage > 0 ==> PageOf(j, perPage) == NatToString(j / perPage + 1)
  {
    DivMonotone(j, PlacedCount(nbMessages, perPage) - 1, perPage);
  }

  /** The last page: the labels' count of pages, plus what the remainder and
      the added labels spill over. */
  lemma LastPageValue(n: nat, p: nat)
    requires p > 0
    ensures LastPage(n, p) == n / p + 1 + (n % p + n / p) / p
  {
    var q, r := n / p, n % p;
    var s := r + q;
    assert PlacedCount(n, p) - 1 == q * p + s;
    assert q * p + s == (q + s / p) * p + s % p;
    DivInBatch(q + s / p, q * p + s, p);
  }

  /** The page labels number the pages 2 to `n / p + 2`. Every page the loop
      fills has a label exactly when the remainder and the quotient of the
      count stay below two pages: 1800 messages at 30 per page fill page 63,
      while the labels stop at page 62. */
  lemma PagesLabelled(n: nat, p: nat)
    requires p > 0
    ensures LastPage(n, p) <= n / p + 2 <==> n % p + n / p < 2 * p
  {
    LastPageValue(n, p);
    var s := n % p + n / p;
    if s < 2 * p {
      DivMonotone(s, 2 * p - 1, p);
      DivInBatch(1, 2 * p - 1, p);
    } else {
      DivMonotone(2 * p, s, p);
      DivInBatch(2, 2 * p, p);
    }
  }

  /** The last page label names a page that holds messages exactly when the
      remainder and the quotient of the count reach a page. */
  lemma LastPageLabelUsed(n: nat, p: nat)
    requires p > 0
    ensures LastPage(n, p) >= n / p + 2 <==> n % p + n / p >= p
  {
    LastPageValue(n, p);
    var s := n % p + n / p;
    if s < p {
      DivInBatch(0, s, p);
    } else {
      DivMonotone(p, s, p);
      DivInBatch(1, p, p);
    }
  }

  lemma DivMonotone(a: nat, b: nat, d: nat)
    requires d > 0 && a <= b
    ensures a / d <= b / d
  {
    if a / d > b / d {
      var k := a / d - b / d;
      MulAtLeast(d, k);
      assert false;
    }
  }

  // ---------------------------------------------------------------------------
  // Back references (`addReferer`)

  /** What the table of back references holds for one Ref field: the field
      (the Zope generator) or the field and its relationship (the Plone 2.5
      one). */
  datatype Referer = Referer(field: string, relationship: Option<string>)

  /** A table with `r` appended under `k`, the list created on first use. */
  function Added(table: map<string, seq<Referer>>, k: string, r: Referer): map<string, seq<Referer>> {
    table[k := (if k in table then table[k] else []) + [r]]
  }

  /** The table after the referers of `adds` were added one by one. */
  function RefererTable(adds: seq<(string, Referer)>): map<string, seq<Referer>> {
    if adds == [] then map[]
    else Added(RefererTable(adds[..|adds| - 1]), adds[|adds| - 1].0, adds[|adds| - 1].1)
  }

  /** The referers added under `k`, in order. */
  function AddedUnder(adds: seq<(string, Referer)>, k: string): (r: seq<Referer>)
    ensures |r| <= |adds|
  {
    if adds == [] then []
    else AddedUnder(adds[..|adds| - 1], k) + (if adds[|adds| - 1].0 == k then [adds[|adds| - 1].1] else [])
  }

  /** A class name has an entry exactly when something was added under it,
      and its entry lists what was added under it, in the order added. */
  lemma {:induction false} RefererTableEntries(adds: seq<(string, Referer)>, k: string)
    ensures k in RefererTable(adds) <==> exists i :: 0 <= i < |adds| && adds[i].0 == k
    ensures k in RefererTable(adds) ==> RefererTable(adds)[k] == AddedUnder(adds, k)
    decreases |adds|
  {
    if adds != [] {
      var init := adds[..|adds| - 1];
      RefererTableEntries(init, k);
      if exists i :: 0 <= i < |init| && init[i].0 == k {
        var i :| 0 <= i < |init| && init[i].0 == k;
        assert adds[i] == init[i];
      }
      if exists i :: 0 <= i < |adds| && adds[i].0 == k {
        var i :| 0 <= i < |adds| && adds[i].0 == k;
        if i < |init| { assert init[i] == adds[i]; }
      }
      if k !in RefererTable(init) {
        assert AddedUnder(init, k) == [] by { AddedUnderAbsent(init, k); }
      }
    }
  }

  /** Nothing is listed under a name nothing was added under. */
  lemma {:induction false} AddedUnderAbsent(adds: seq<(string, Referer)>, k: string)
    requires forall i :: 0 <= i < |adds| ==> adds[i].0 != k
    ensures AddedUnder(adds, k) == []
    decreases |adds|
  {
    if adds != [] {
      AddedUnderAbsent(adds[..|adds| - 1], k);
    }
  }

  // ---------------------------------------------------------------------------
  // The generator's state

  /** The state a generator updates while it runs: the product's version, the
      i18n labels to generate and the table of back references, with the
      additions that built the table. */
  class Generator {
    const flavour: Flavour
    var version: string
    var labels: seq<Po.PoMessage>
    var referers: map<string, seq<Referer>>
    ghost var additions: seq<(string, Referer)>

    ghost predicate Valid()
      reads this
    {
      referers == RefererTable(additions)
    }

    constructor(flavour: Flavour)
      ensures this.flavour == flavour && labels == [] && referers == map[] && additions == []
      ensures Valid()
    {
      this.flavour := flavour;
      version := "";
      labels := [];
      referers := map[];
      additions := [];
    }

    /** `initialize`: the version becomes the default, then the bumped version
      of `version.txt` if that file exists; a file without build number makes
      it fail with the default version set. */
    method Initialize(versionFile: Option<string>) returns (error: Option<string>)
      modifies this
      ensures labels == old(labels) && referers == old(referers) && additions == old(additions)
      ensures NextVersion(versionFile).Ok? ==> version == NextVersion(versionFile).value && error.None?
      ensures NextVersion(versionFile).Err? ==> version == DefaultVersion && error == Some(NextVersion(versionFile).error)
    {
      version := DefaultVersion;
      error := None;
      var next := NextVersion(versionFile);
      if next.Ok? {
        version := next.value;
      } else {
        error := Some(next.error);
      }
    }

    /** `addReferer`: records a Ref field under the name of the class it
      refers to, with its relationship for the Plone 2.5 generator. */
    method AddReferer(refClassName: string, field: string, relationship: Option<string>)
      requires Valid()
      requires relationship.Some? <==> flavour == Plone25
      modifies this
      ensures Valid()
      ensures additions == old(additions) + [(refClassName, Referer(field, relationship))]
      ensures referers == Added(old(referers), refClassName, Referer(field, relationship))
      ensures version == old(version) && labels == old(labels)
    {
      if refClassName !in referers {
        referers := referers[refClassName := []];
      }
      referers := referers[refClassName := referers[refClassName] + [Referer(field, relationship)]];
      additions := additions + [(refClassName, Referer(field, relationship))];
      assert additions[..|additions| - 1] == old(additions);
    }

    /** `generateWorkflow`, with `confirmText` the default of confirm labels:
      appends the labels of every state, then the block of every transition,
      scanning the workflow's attributes in `dir` order. */
    method GenerateWorkflow(wfName: string, attrs: seq<(string, WfAttr)>, confirmText: string)
      modifies this
      ensures labels == old(labels) + WorkflowLabels(wfName, attrs, confirmText)
      ensures version == old(version) && referers == old(referers) && additions == old(additions)
    {
      ghost var states := Flatten(StateLabelFn(wfName, attrs), |attrs|);
      ghost var transitions := Flatten(TransitionLabelFn(wfName, attrs, confirmText), |attrs|);
      AddStateLabels(wfName, attrs);
      AddTransitionLabels(wfName, attrs, confirmText);
      assert labels == old(labels) + states + transitions;
      assert WorkflowLabels(wfName, attrs, confirmText) == states + transitions;
      ConcatAssoc(old(labels), states, transitions);
    }

    /** The first loop of `generateWorkflow`: one label per state. */
    method AddStateLabels(wfName: string, attrs: seq<(string, WfAttr)>)
      modifies this
      ensures labels == old(labels) + Flatten(StateLabelFn(wfName, attrs), |attrs|)
      ensures version == old(version) && referers == old(referers) && additions == old(additions)
    {
      var fs := StateLabelFn(wfName, attrs);
      for i := 0 to |attrs|
        invariant labels == old(labels) + Flatten(fs, i)
        invariant version == old(version) && referers == old(referers) && additions == old(additions)
      {
        AddStateLabel(wfName, attrs, i);
        assert Flatten(fs, i + 1) == Flatten(fs, i) + fs(i);
        ConcatAssoc(old(labels), Flatten(fs, i), fs(i));
      }
    }

    /** One step of the first loop: the `i`-th attribute's label if it is a
      state. */
    method AddStateLabel(wfName: string, attrs: seq<(string, WfAttr)>, i: nat)
      requires i < |attrs|
      modifies this
      ensures labels == old(labels) + StateLabelFn(wfName, attrs)(i)
      ensures version == old(version) && referers == old(referers) && additions == old(additions)
    {
      if attrs[i].1.StateAttr? {
        labels := labels + [ElementLabel(wfName, attrs[i].0)];
      }
    }

    /** The second loop of `generateWorkflow`: the block of each transition. */
    method AddTransitionLabels(wfName: string, attrs: seq<(string, WfAttr)>, confirmText: string)
      modifies this
      ensures labels == old(labels) + Flatten(TransitionLabelFn(wfName, attrs, confirmText), |attrs|)
      ensures version == old(version) && referers == old(referers) && additions == old(additions)
    {
      var ft := TransitionLabelFn(wfName, attrs, confirmText);
      for i := 0 to |attrs|
        invariant labels == old(labels) + Flatten(ft, i)
        invariant version == old(version) && referers == old(referers) && additions == old(additions)
      {
        AddTransitionLabel(wfName, attrs, confirmText, i);
        assert Flatten(ft, i + 1) == Flatten(ft, i) + ft(i);
        ConcatAssoc(old(labels), Flatten(ft, i), ft(i));
      }
    }

    /** One step of the second loop: the `i`-th attribute's block if it is a
      transition. */
    method AddTransitionLabel(wfName: string, attrs: seq<(string, WfAttr)>, confirmText: string, i: nat)
      requires i < |attrs|
      modifies this
      ensures labels == old(labels) + TransitionLabelFn(wfName, attrs, confirmText)(i)
      ensures version == old(version) && referers == old(referers) && additions == old(additions)
    {
      var (name, t) := attrs[i];
      if t.TransitionAttr? {
        AddTransitionBlock(wfName, name, t, confirmText);
      }
    }

    /** The labels of one transition, appended one by one. */
    method AddTransitionBlock(wfName: string, name: string, t: WfAttr, confirmText: string)
      requires t.TransitionAttr?
      modifies this
      ensures labels == old(labels) + TransitionBlock(wfName, name, t, confirmText)
      ensures version == old(version) && referers == old(referers) && additions == old(additions)
    {
      labels := labels + [ElementLabel(wfName, name)];
      if t.confirm {
        labels := labels + [Label(wfName + "_" + name + "_confirm", confirmText)];
      }
      if t.notify {
        labels := labels + [Label(wfName + "_" + name + "_mail_subject", EmailSubject)];
        labels := labels + [Label(wfName + "_" + name + "_mail_body", EmailBody)];
      }
    }
  }
}
