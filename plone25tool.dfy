/** Helpers of the Plone 2.5 tool (gen/plone25/mixins/ToolMixin.py): finding
    the flavour of a portal type, the portal types a query covers, the result
    columns shared by several content types, and the label of a referenced
    object in a list box. The tool's flavours, the catalogue and the objects'
    field values are parameters. */
module Plone25Tool {
  import opened Wrappers
  import opened Text

  /** A flavour of the application, known by its number. */
  datatype Flavour = Flavour(number: int, title: string)

  /** What `getFlavour` is given: a portal type name, or an object with its
      portal type and its own wrapper (used when the object is a flavour). */
  datatype FlavourContext =
    | PortalTypeName(name: string)
    | ContextObject(portalType: string, wrapper: Flavour)

  function PortalTypeOf(c: FlavourContext): string {
    match c
    case PortalTypeName(name) => name
    case ContextObject(portalType, _) => portalType
  }

  /** The flavour number a portal type name carries: the integer after its
      last `_`, when there is a `_`. */
  function FlavourNumberOf(portalType: string): (n: Option<int>)
    ensures |Split(portalType, '_')| <= 1 ==> n.None?
  {
    var elems := Split(portalType, '_');
    if |elems| > 1 then PyInt(elems[|elems| - 1]) else None
  }

  /** The last flavour with number `n`, as a loop without `break` finds it. */
  function LastNumbered(flavours: seq<Flavour>, n: int): (r: Option<Flavour>)
    ensures r.Some? ==> r.value in flavours && r.value.number == n
    ensures r.None? <==> forall f :: f in flavours ==> f.number != n
  {
    if flavours == [] then None
    else if flavours[|flavours| - 1].number == n then Some(flavours[|flavours| - 1])
    else
      assert forall f :: f in flavours ==> f in flavours[..|flavours| - 1] || f == flavours[|flavours| - 1];
      LastNumbered(flavours[..|flavours| - 1], n)
  }

  /** `getFlavour`: the flavour whose number the portal type carries; for the
      flavour portal type itself, the context object's wrapper (an
      AttributeError when only a name was given); else the first flavour, or
      None when there is none. */
  method GetFlavour(context: FlavourContext, flavours: seq<Flavour>, appName: string)
    returns (res: Result<Option<Flavour>, string>)
    ensures var n := FlavourNumberOf(PortalTypeOf(context));
      (n.Some? && LastNumbered(flavours, n.value).Some? ==> res == Ok(LastNumbered(flavours, n.value))) &&
      (n.None? && PortalTypeOf(context) == appName + "Flavour" ==>
        res == (if context.ContextObject? then Ok(Some(context.wrapper)) else Err("AttributeError"))) &&
      ((n.Some? && LastNumbered(flavours, n.value).None?) ||
       (n.None? && PortalTypeOf(context) != appName + "Flavour") ==>
        res == Ok(if flavours == [] then None else Some(flavours[0])))
  {
    var portalTypeName := PortalTypeOf(context);
    var found: Option<Flavour> := None;
    var flavourNumber := FlavourNumberOf(portalTypeName);
    if flavourNumber.Some? {
      var i := 0;
      while i < |flavours|
        invariant 0 <= i <= |flavours|
        invariant found == LastNumbered(flavours[..i], flavourNumber.value)
      {
        assert flavours[..i + 1][..i] == flavours[..i];
        if flavours[i].number == flavourNumber.value {
          found := Some(flavours[i]);
        }
        i := i + 1;
      }
      assert flavours[..i] == flavours;
    } else if portalTypeName == appName + "Flavour" {
      if context.PortalTypeName? {
        return Err("AttributeError");
      }
      found := Some(context.wrapper);
    }
    if found.None? && flavours != [] {
      found := Some(flavours[0]);
    }
    return Ok(found);
  }

  // ---------------------------------------------------------------------------
  // Portal types of a query

  /** The portal types a query covers: one name, or a list of names. */
  datatype PortalTypes = OneType(name: string) | TypeList(names: seq<string>)

  /** A type name within flavour `n`: `name_n`. */
  function Suffixed(name: string, n: int): string {
    name + "_" + IntToString(n)
  }

  /** `executeQuery`'s portal types: a comma-separated query name is split,
      each part suffixed with `_N` unless the flavour is 1; a single name is
      used as is. */
  function QueryPortalTypes(queryName: string, flavourNumber: int): (r: PortalTypes)
    ensures ',' !in queryName ==> r == OneType(queryName)
    ensures ',' in queryName ==> r.TypeList? && |r.names| == |Split(queryName, ',')|
    ensures ',' in queryName && flavourNumber == 1 ==> r == TypeList(Split(queryName, ','))
    ensures ',' in queryName && flavourNumber != 1 ==>
      forall i :: 0 <= i < |r.names| ==> r.names[i] == Suffixed(Split(queryName, ',')[i], flavourNumber)
  {
    if ',' in queryName then
      var types := Split(queryName, ',');
      if flavourNumber != 1 then
        TypeList(seq(|types|, i requires 0 <= i < |types| => Suffixed(types[i], flavourNumber)))
      else TypeList(types)
    else OneType(queryName)
  }

  /** Python `s.rsplit(c, 1)[0]`: what precedes the last `c`, or `s`. */
  function BeforeLast(s: string, c: char): (r: string)
    ensures |r| <= |s| && r == s[..|r|]
  {
    var i := LastIndexOf(s, c);
    if i >= 0 then s[..i] else s
  }

  /** The flavour suffix added to a type name is removed again by
      `rsplit('_', 1)[0]`, as `getResultColumnsNames` does. */
  lemma SuffixRoundTrip(name: string, n: int)
    ensures BeforeLast(Suffixed(name, n), '_') == name
  {
    var s := Suffixed(name, n);
    var digits := IntToString(n);
    assert forall k :: |name| < k < |s| ==> s[k] == digits[k - |name| - 1];
    assert forall k :: 0 <= k < |digits| ==> digits[k] != '_' by {
      if n < 0 {
        assert digits == "-" + NatToString(-n);
        assert forall k :: 1 <= k < |digits| ==> digits[k] == NatToString(-n)[k - 1];
      }
    }
    LastUnderscore(s, |name|);
  }

  lemma {:induction false} LastUnderscore(s: string, i: nat)
    requires i < |s| && s[i] == '_' && forall k :: i < k < |s| ==> s[k] != '_'
    ensures LastIndexOf(s, '_') == i
    decreases |s|
  {
    if i < |s| - 1 {
      LastUnderscore(s[..|s| - 1], i);
    }
  }

  // ---------------------------------------------------------------------------
  // Result columns

  /** The content types of a query name: `queryName.strip(',').split(',')`. */
  function ContentTypes(queryName: string): (ts: seq<string>)
    ensures |ts| >= 1
  {
    Split(RStrip(LStrip(queryName, {','}), {','}), ',')
  }

  /** The type name whose columns are read: without its flavour suffix unless
      the flavour is 1. */
  function BaseType(cType: string, flavourNumber: int): string {
    if flavourNumber != 1 then BeforeLast(cType, '_') else cType
  }

  /** The type names of all content types of a query. */
  function BaseTypes(queryName: string, flavourNumber: int): (ts: seq<string>)
    ensures |ts| == |ContentTypes(queryName)| >= 1
    ensures forall i :: 0 <= i < |ts| ==> ts[i] == BaseType(ContentTypes(queryName)[i], flavourNumber)
  {
    var cs := ContentTypes(queryName);
    seq(|cs|, i requires 0 <= i < |cs| => BaseType(cs[i], flavourNumber))
  }

  /** The names of a list, as a set. */
  function Elems(names: seq<string>): set<string> {
    set x | x in names
  }

  /** The names of `names` that `keep` holds, in their order. */
  function Kept(names: seq<string>, keep: set<string>): (r: seq<string>)
    ensures forall x :: x in r <==> x in names && x in keep
    ensures |r| <= |names|
  {
    if names == [] then []
    else
      var init := names[..|names| - 1];
      var last := names[|names| - 1];
      assert names == init + [last];
      Kept(init, keep) + (if last in keep then [last] else [])
  }

  /** The columns shared by all the types. */
  function Shared(types: seq<string>, columns: string -> seq<string>): set<string>
    requires |types| >= 1
  {
    if |types| == 1 then Elems(columns(types[0]))
    else Shared(types[..|types| - 1], columns) * Elems(columns(types[|types| - 1]))
  }

  lemma {:induction false} SharedMeans(types: seq<string>, columns: string -> seq<string>, x: string)
    requires |types| >= 1
    ensures x in Shared(types, columns) <==> forall i :: 0 <= i < |types| ==> x in columns(types[i])
    decreases |types|
  {
    if |types| > 1 {
      var init := types[..|types| - 1];
      SharedMeans(init, columns, x);
      if x in Shared(types, columns) {
        forall i | 0 <= i < |types| ensures x in columns(types[i]) {
          if i < |init| { assert types[i] == init[i]; }
        }
      }
    }
  }

  /** The set `getResultColumnsNames` builds as written: the first type's
      columns, then an intersection per type, except that an empty set is
      falsy in Python, so after an empty intersection the next type's columns
      start again. */
  function SharedAsWritten(types: seq<string>, columns: string -> seq<string>): set<string>
    requires |types| >= 1
  {
    if |types| == 1 then Elems(columns(types[0]))
    else
      var before := SharedAsWritten(types[..|types| - 1], columns);
      var here := Elems(columns(types[|types| - 1]));
      if before == {} then here else before * here
  }

  /** The final loop of `getResultColumnsNames`: the names of the last type
      that the set holds, in the last type's order. */
  method KeepInOrder(fieldNames: seq<string>, resSet: set<string>) returns (res: seq<string>)
    ensures res == Kept(fieldNames, resSet)
  {
    res := [];
    var j := 0;
    while j < |fieldNames|
      invariant 0 <= j <= |fieldNames|
      invariant res == Kept(fieldNames[..j], resSet)
    {
      assert fieldNames[..j + 1][..j] == fieldNames[..j];
      if fieldNames[j] in resSet {
        res := res + [fieldNames[j]];
      }
      j := j + 1;
    }
    assert fieldNames[..j] == fieldNames;
  }

  /** `getResultColumnsNames` as written, with `if not resSet` restarting
      after an empty intersection. */
  method GetResultColumnsNamesAsWritten(queryName: string, flavourNumber: int, columns: string -> seq<string>)
    returns (res: seq<string>)
    ensures var types := BaseTypes(queryName, flavourNumber);
      res == Kept(columns(types[|types| - 1]), SharedAsWritten(types, columns))
  {
    var contentTypes := ContentTypes(queryName);
    ghost var types := BaseTypes(queryName, flavourNumber);
    var resSet: set<string> := {};
    var fieldNames: seq<string> := [];
    var i := 0;
    while i < |contentTypes|
      invariant 0 <= i <= |contentTypes|
      invariant i == 0 ==> resSet == {}
      invariant i > 0 ==> fieldNames == columns(types[i - 1]) && resSet == SharedAsWritten(types[..i], columns)
    {
      var cType := BaseType(contentTypes[i], flavourNumber);
      assert cType == types[i] && types[..i + 1][..i] == types[..i];
      fieldNames := columns(cType);
      assert i > 0 ==>
        SharedAsWritten(types[..i + 1], columns) == (if resSet == {} then Elems(fieldNames) else resSet * Elems(fieldNames));
      if resSet == {} {
        resSet := Elems(fieldNames);
      } else {
        resSet := resSet * Elems(fieldNames);
      }
      i := i + 1;
    }
    assert types[..i] == types;
    res := KeepInOrder(fieldNames, resSet);
  }

  /** `getResultColumnsNames` with the intended intersection: the names of
      the last type's columns that every type has, in the last type's order. */
  method GetResultColumnsNames(queryName: string, flavourNumber: int, columns: string -> seq<string>)
    returns (res: seq<string>)
    ensures var types := BaseTypes(queryName, flavourNumber);
      res == Kept(columns(types[|types| - 1]), Shared(types, columns))
  {
    var contentTypes := ContentTypes(queryName);
    ghost var types := BaseTypes(queryName, flavourNumber);
    var resSet: set<string> := {};
    var fieldNames: seq<string> := [];
    var i := 0;
    while i < |contentTypes|
      invariant 0 <= i <= |contentTypes|
      invariant i > 0 ==> fieldNames == columns(types[i - 1]) && resSet == Shared(types[..i], columns)
    {
      var cType := BaseType(contentTypes[i], flavourNumber);
      assert cType == types[i] && types[..i + 1][..i] == types[..i];
      fieldNames := columns(cType);
      if i == 0 {
        resSet := Elems(fieldNames);
      } else {
        resSet := resSet * Elems(fieldNames);
      }
      i := i + 1;
    }
    assert types[..i] == types;
    res := KeepInOrder(fieldNames, resSet);
  }

  /** The intended result holds exactly the names every type has, in the
      order of the last type's columns. */
  lemma ResultColumnsCommon(types: seq<string>, columns: string -> seq<string>, x: string)
    requires |types| >= 1
    ensures x in Kept(columns(types[|types| - 1]), Shared(types, columns)) <==>
      forall i :: 0 <= i < |types| ==> x in columns(types[i])
  {
    SharedMeans(types, columns, x);
  }

  /** As written, a type with no column in common with the types before it
      does not empty the result: for the query `A,B` where `A` has no result
      column and `B` has `y`, the result is `[y]`, a column `A` lacks; the
      intended intersection is empty. */
  lemma ResultColumnsResetExample(columns: string -> seq<string>)
    requires columns("A") == [] && columns("B") == ["y"]
    ensures Kept(columns("B"), SharedAsWritten(["A", "B"], columns)) == ["y"]
    ensures Kept(columns("B"), Shared(["A", "B"], columns)) == []
  {
    var ts := ["A", "B"];
    assert ts[..1] == ["A"];
    assert Elems(columns("A")) == {};
    assert Elems(columns("B")) == {"y"};
    assert SharedAsWritten(ts, columns) == {"y"};
    assert Shared(ts, columns) == {};
    assert ["y"][..0] == [];
  }

  // ---------------------------------------------------------------------------
  // getReferenceLabel

  /** The label built from `start`, adding each value after ` | ` once the
      label is non-empty. */
  function Label(start: string, values: seq<string>): string {
    if values == [] then start
    else
      var before := Label(start, values[..|values| - 1]);
      before + (if before != [] then " | " else "") + values[|values| - 1]
  }

  /** From a non-empty start, the label is the start and the values joined
      by ` | `. */
  lemma {:induction false} LabelIsJoin(start: string, values: seq<string>)
    requires start != []
    ensures Label(start, values) == Join([start] + values, " | ")
    ensures Label(start, values) != []
    decreases |values|
  {
    if values != [] {
      var init := values[..|values| - 1];
      LabelIsJoin(start, init);
      var all := [start] + values;
      assert all[..|all| - 1] == [start] + init;
    }
  }

  /** `getReferenceLabel`: the title, unless `title` is among the shown
      fields (then it starts empty), followed by the shown values separated by
      ` | `; a label longer than `maxWidth` is cut to `maxWidth - 2`
      characters plus `...`. The values are given already converted to text. */
  method GetReferenceLabel(title: string, shownInfo: seq<string>, values: seq<string>, maxWidth: int)
    returns (res: string)
    requires |values| == |shownInfo|
    ensures var text := Label(if "title" in shownInfo then "" else title, values);
      res == (if |text| > maxWidth then Head(text, maxWidth - 2) + "..." else text)
  {
    res := title;
    if "title" in shownInfo {
      res := "";
    }
    ghost var start := res;
    var i := 0;
    while i < |values|
      invariant 0 <= i <= |values|
      invariant res == Label(start, values[..i])
    {
      assert values[..i + 1][..i] == values[..i];
      var prefix := "";
      if res != [] {
        prefix := " | ";
      }
      res := res + prefix + values[i];
      i := i + 1;
    }
    assert values[..i] == values;
    if |res| > maxWidth {
      res := Head(res, maxWidth - 2) + "...";
    }
  }

  /** A truncated label keeps its first `maxWidth - 2` characters, so it is
      `maxWidth + 1` characters long. */
  lemma TruncatedLabel(text: string, maxWidth: int)
    requires 2 <= maxWidth < |text|
    ensures |Head(text, maxWidth - 2) + "..."| == maxWidth + 1
    ensures StartsWith(text, Head(text, maxWidth - 2))
  {
  }
}
