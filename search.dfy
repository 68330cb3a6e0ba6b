/** Searches (fields/search.py): a `Search` names the criteria of a catalog
    query on one class; `UiSearch` wraps it for the user interface, possibly
    on behalf of an initiator Ref field that selects objects in a popup. */
module Searches {
  import opened Wrappers
  import opened Text
  import Fields
  import GenInit

  /** What the class tells about one of its fields: whether it has a sort
      index of its own and the type of its catalog index. */
  datatype ClassField = ClassField(hasSortIndex: bool, indexType: string)

  /** Attribute names are Python identifiers, hence never empty. */
  predicate WellFormedClass(klass: map<string, ClassField>) {
    forall n :: n in klass ==> n != ""
  }

  /** A search: its sort parameters, its checkbox settings and its field
      criteria, in the order the dictionary gives them. */
  datatype Search<T> = Search(
    name: string, sortBy: string, sortOrder: string,
    checkboxes: bool, checkboxesDefault: bool,
    fields: seq<(string, GenInit.SearchInput<T>)>)

  // ---------------------------------------------------------------------------
  // Search.getIndexName and Search.getSearchValue

  /** `Search.getIndexName`: "created" and "modified" have indexes of their
      own, the default indexes (a parameter here) keep their name, a field
      of the class asks the field; anything else has no index. */
  function IndexName(name: string, klass: map<string, ClassField>, defaults: set<string>, sort: bool): (r: Option<string>)
    requires WellFormedClass(klass)
    ensures name == "created" ==> r == Some("Created")
    ensures name == "modified" ==> r == Some("Modified")
    ensures name !in {"created", "modified"} && name in defaults ==> r == Some(name)
    ensures name !in {"created", "modified"} && name !in defaults && name in klass ==>
      r == Some(Fields.IndexName(name, sort, klass[name].hasSortIndex))
    ensures r.None? <==> name !in {"created", "modified"} && name !in defaults && name !in klass
  {
    if name == "created" then Some("Created")
    else if name == "modified" then Some("Modified")
    else if name in defaults then Some(name)
    else if name in klass then Some(Fields.IndexName(name, sort, klass[name].hasSortIndex))
    else None
  }

  /** A text index is queried by keywords: the fields whose index type is
      "TextIndex", and "SearchableText". */
  predicate HasTextIndex(name: string, klass: map<string, ClassField>) {
    (name in klass && klass[name].indexType == "TextIndex") || name == "SearchableText"
  }

  /** `Search.getSearchValue`. */
  function SearchValue<T>(name: string, v: GenInit.SearchInput<T>, klass: map<string, ClassField>)
    : (r: Result<GenInit.SearchValue<T>, string>)
    ensures HasTextIndex(name, klass) ==> (r.Ok? <==> v.Str?)
    ensures !HasTextIndex(name, klass) && v.Str? && EndsWith(v.s, "*") ==>
      r == Ok(GenInit.PrefixRange(v.s[..|v.s| - 1], v.s[..|v.s| - 1] + "z"))
    ensures !HasTextIndex(name, klass) && v.Strings? ==> (r.Ok? <==> v.items != [])
    ensures !HasTextIndex(name, klass) && v.Pair? ==> r.Ok?
    ensures !HasTextIndex(name, klass) && v.Pair? && v.lo.None? ==> r == Ok(GenInit.AtMost(v.hi))
    ensures !HasTextIndex(name, klass) && v.Pair? && v.lo.Some? && v.hi.None? ==> r == Ok(GenInit.AtLeast(v.lo.value))
    ensures !HasTextIndex(name, klass) && v.Pair? && v.lo.Some? && v.hi.Some? ==>
      r == Ok(GenInit.MinMax(v.lo.value, v.hi.value))
  {
    GenInit.SearchValueFor(HasTextIndex(name, klass), v)
  }

  // ---------------------------------------------------------------------------
  // Search.updateSearchCriteria

  /** A value put in the criteria: a search value, a value kept raw for an
      advanced search, or a name (None standing for Python's None). */
  datatype Criterion<T> =
    | Query(value: GenInit.SearchValue<T>)
    | Raw(input: GenInit.SearchInput<T>)
    | Name(text: Option<string>)

  /** Criteria keys: index names may be None when a field has no index. */
  type Key = Option<string>

  /** The criteria once the fields from the first on are added; an error
      (the search value cannot be computed) stops the loop, leaving what was
      already added. */
  function AddFields<T>(m: map<Key, Criterion<T>>, items: seq<(string, GenInit.SearchInput<T>)>,
                        klass: map<string, ClassField>, defaults: set<string>, advanced: bool)
    : (r: (map<Key, Criterion<T>>, Option<string>))
    requires WellFormedClass(klass)
    decreases |items|
  {
    if items == [] then (m, None)
    else
      var (name, value) := items[0];
      if name == "_ref" then AddFields(m, items[1..], klass, defaults, advanced)
      else if advanced then AddFields(m[Some(name) := Raw(value)], items[1..], klass, defaults, advanced)
      else
        match SearchValue(name, value, klass)
        case Err(e) => (m, Some(e))
        case Ok(sv) =>
          AddFields(m[IndexName(name, klass, defaults, false) := Query(sv)], items[1..], klass, defaults, advanced)
  }

  /** The fields without the "_ref" entries. */
  function WithoutRef<T>(items: seq<(string, GenInit.SearchInput<T>)>): (r: seq<(string, GenInit.SearchInput<T>)>)
    ensures forall i :: 0 <= i < |r| ==> r[i].0 != "_ref"
    ensures forall i :: 0 <= i < |items| && items[i].0 != "_ref" ==> items[i] in r
  {
    if items == [] then []
    else (if items[0].0 == "_ref" then [] else [items[0]]) + WithoutRef(items[1..])
  }

  /** Searches restricted to tied objects are not implemented: the "_ref"
      criterion is never copied, so dropping it changes nothing. */
  lemma {:induction false} RefNeverCopied<T>(m: map<Key, Criterion<T>>, items: seq<(string, GenInit.SearchInput<T>)>,
                                             klass: map<string, ClassField>, defaults: set<string>, advanced: bool)
    requires WellFormedClass(klass)
    ensures AddFields(m, items, klass, defaults, advanced) == AddFields(m, WithoutRef(items), klass, defaults, advanced)
    decreases |items|
  {
    if items != [] {
      var w := WithoutRef(items[1..]);
      if items[0].0 == "_ref" {
        RefNeverCopied(m, items[1..], klass, defaults, advanced);
        assert WithoutRef(items) == w;
      } else {
        assert WithoutRef(items) == [items[0]] + w;
        assert WithoutRef(items)[1..] == w;
        var m' := if advanced then m[Some(items[0].0) := Raw(items[0].1)]
          else if SearchValue(items[0].0, items[0].1, klass).Ok? then
            m[IndexName(items[0].0, klass, defaults, false) := Query(SearchValue(items[0].0, items[0].1, klass).value)]
          else m;
        RefNeverCopied(m', items[1..], klass, defaults, advanced);
      }
    }
  }

  /** In advanced mode nothing can fail and the criteria gain exactly the
      raw names of the fields other than "_ref". */
  lemma {:induction false} AdvancedKeepsNames<T>(m: map<Key, Criterion<T>>, items: seq<(string, GenInit.SearchInput<T>)>,
                                                 klass: map<string, ClassField>, defaults: set<string>)
    requires WellFormedClass(klass)
    ensures var r := AddFields(m, items, klass, defaults, true);
      r.1.None? &&
      (forall k :: k in r.0 <==> k in m || exists i :: 0 <= i < |items| && items[i].0 != "_ref" && k == Some(items[i].0))
    decreases |items|
  {
    if items != [] {
      var (name, value) := items[0];
      var m' := if name == "_ref" then m else m[Some(name) := Raw(value)];
      AdvancedKeepsNames(m', items[1..], klass, defaults);
      var r := AddFields(m, items, klass, defaults, true);
      forall k | k in r.0
        ensures k in m || exists i :: 0 <= i < |items| && items[i].0 != "_ref" && k == Some(items[i].0)
      {
        if k !in m' {
          var j :| 0 <= j < |items[1..]| && items[1..][j].0 != "_ref" && k == Some(items[1..][j].0);
          assert items[j + 1] == items[1..][j];
        }
      }
      forall k | k in m || exists i :: 0 <= i < |items| && items[i].0 != "_ref" && k == Some(items[i].0)
        ensures k in r.0
      {
        if k !in m {
          var i :| 0 <= i < |items| && items[i].0 != "_ref" && k == Some(items[i].0);
          if i > 0 {
            assert items[1..][i - 1] == items[i];
          }
        }
      }
    }
  }

  /** Otherwise every criterion added is keyed by the index of a field other
      than "_ref". */
  lemma {:induction false} KeysAreIndexNames<T>(m: map<Key, Criterion<T>>, items: seq<(string, GenInit.SearchInput<T>)>,
                                                klass: map<string, ClassField>, defaults: set<string>)
    requires WellFormedClass(klass)
    ensures forall k :: k in AddFields(m, items, klass, defaults, false).0 ==>
      k in m || exists i :: 0 <= i < |items| && items[i].0 != "_ref" && k == IndexName(items[i].0, klass, defaults, false)
    decreases |items|
  {
    if items != [] {
      var (name, value) := items[0];
      var sv := SearchValue(name, value, klass);
      var m' := if name == "_ref" || sv.Err? then m else m[IndexName(name, klass, defaults, false) := Query(sv.value)];
      KeysAreIndexNames(m', items[1..], klass, defaults);
      forall k | k in AddFields(m, items, klass, defaults, false).0
        ensures k in m || exists i :: 0 <= i < |items| && items[i].0 != "_ref" && k == IndexName(items[i].0, klass, defaults, false)
      {
        if k !in m' {
          var j :| 0 <= j < |items[1..]| && items[1..][j].0 != "_ref" &&
            k == IndexName(items[1..][j].0, klass, defaults, false);
          assert items[j + 1] == items[1..][j];
        }
      }
    }
  }

  /** The sort criteria: the index to sort on and "reverse" exactly for a
      descending order; an advanced search keeps the Appy names. */
  function SortCriteria<T>(m: map<Key, Criterion<T>>, sortBy: string, sortOrder: string,
                           klass: map<string, ClassField>, defaults: set<string>, advanced: bool)
    : (r: map<Key, Criterion<T>>)
    requires WellFormedClass(klass)
    ensures sortBy == "" ==> r == m
    ensures sortBy != "" && !advanced ==>
      r == m[Some("sort_on") := Name(IndexName(sortBy, klass, defaults, true))]
            [Some("sort_order") := Name(if sortOrder == "desc" then Some("reverse") else None)]
    ensures sortBy != "" && !advanced ==> (r[Some("sort_order")] == Name(Some("reverse")) <==> sortOrder == "desc")
    ensures sortBy != "" && advanced ==>
      r == m[Some("sortBy") := Name(Some(sortBy))][Some("sortOrder") := Name(Some(sortOrder))]
  {
    if sortBy == "" then m
    else if !advanced then
      m[Some("sort_on") := Name(IndexName(sortBy, klass, defaults, true))]
       [Some("sort_order") := Name(if sortOrder == "desc" then Some("reverse") else None)]
    else m[Some("sortBy") := Name(Some(sortBy))][Some("sortOrder") := Name(Some(sortOrder))]
  }

  /** The caller's criteria dictionary, updated in place. */
  class Criteria<T> {
    var entries: map<Key, Criterion<T>>

    constructor (entries: map<Key, Criterion<T>>)
      ensures this.entries == entries
    {
      this.entries := entries;
    }
  }

  /** `Search.updateSearchCriteria`: the fields are added one by one (an
      error raised by a search value stops it there), then the sort
      criteria. */
  method UpdateSearchCriteria<T>(search: Search<T>, criteria: Criteria<T>, klass: map<string, ClassField>,
                                 defaults: set<string>, advanced: bool)
    returns (err: Option<string>)
    requires WellFormedClass(klass)
    modifies criteria
    ensures var added := AddFields(old(criteria.entries), search.fields, klass, defaults, advanced);
      err == added.1 &&
      criteria.entries == (if err.Some? then added.0
        else SortCriteria(added.0, search.sortBy, search.sortOrder, klass, defaults, advanced))
  {
    var items := search.fields;
    var i := 0;
    while i < |items|
      invariant 0 <= i <= |items|
      invariant AddFields(old(criteria.entries), items, klass, defaults, advanced) ==
        AddFields(criteria.entries, items[i..], klass, defaults, advanced)
    {
      assert items[i..][1..] == items[i + 1..];
      var (name, value) := items[i];
      if name != "_ref" {
        if !advanced {
          var indexName := IndexName(name, klass, defaults, false);
          match SearchValue(name, value, klass)
          case Err(e) =>
            return Some(e);
          case Ok(sv) =>
            criteria.entries := criteria.entries[indexName := Query(sv)];
        } else {
          criteria.entries := criteria.entries[Some(name) := Raw(value)];
        }
      }
      i := i + 1;
    }
    assert items[i..] == [];
    criteria.entries := SortCriteria(criteria.entries, search.sortBy, search.sortOrder, klass, defaults, advanced);
    return None;
  }

  // ---------------------------------------------------------------------------
  // Search.getSessionKey

  /** `Search.getSessionKey`: the class name for the search of all instances
      (unless it is empty, `and`/`or` then falling back to the search name),
      else the search name; prefixed with "search_" when the full key is
      asked. */
  function SessionKey(searchName: string, className: string, full: bool): (r: string)
    ensures !full ==> r == (if searchName == "allSearch" && className != "" then className else searchName)
    ensures full ==> r == "search_" + SessionKey(searchName, className, false)
  {
    var res := if searchName == "allSearch" && className != "" then className else searchName;
    if full then "search_" + res else res
  }

  /** The suffix of a full key is the short key, so keys of different
      searches of one class never collide. */
  lemma SessionKeyInjective(n1: string, n2: string, className: string)
    requires n1 != "allSearch" && n2 != "allSearch"
    requires SessionKey(n1, className, true) == SessionKey(n2, className, true)
    ensures n1 == n2
  {
    var k1 := SessionKey(n1, className, true);
    assert k1[7..] == n1;
    assert SessionKey(n2, className, true)[7..] == n2;
  }

  // ---------------------------------------------------------------------------
  // UiSearch

  /** `UiSearch.getResultMode`: the mode in the request when there is a
      non-empty one, else the first of the class's result modes, ("list",)
      by default; an empty tuple of modes has no first one. */
  function ResultMode(requested: Option<string>, classModes: Option<seq<string>>): (r: Result<string, string>)
    ensures requested.Some? && requested.value != "" ==> r == Ok(requested.value)
    ensures (requested.None? || requested.value == "") && classModes.None? ==> r == Ok("list")
    ensures (requested.None? || requested.value == "") && classModes.Some? ==>
      (r.Ok? <==> classModes.value != []) && (r.Ok? ==> r.value == classModes.value[0])
  {
    if requested.Some? && requested.value != "" then Ok(requested.value)
    else
      var modes := classModes.GetOr(["list"]);
      if modes == [] then Err("IndexError") else Ok(modes[0])
  }

  /** The Ref field on whose behalf a search runs in a popup. */
  datatype Initiator = Initiator(uid: string, fieldName: string, fieldMultiValued: bool, mode: string)

  /** `UiSearch.showCheckboxes` as written: with checkboxes on, it reads
      `self.initiator`, an attribute only `setInitiator` creates. None means
      the bare `return` (checkboxes off). */
  function ShowCheckboxesAsWritten(checkboxes: bool, initiator: Option<Initiator>): (r: Result<Option<bool>, string>)
    ensures !checkboxes ==> r == Ok(None)
    ensures checkboxes && initiator.None? ==> r.Err?
    ensures checkboxes && initiator.Some? ==> r == Ok(Some(initiator.value.fieldMultiValued))
  {
    if !checkboxes then Ok(None)
    else if initiator.None? then Err("AttributeError: initiator")
    else Ok(Some(initiator.value.fieldMultiValued))
  }

  /** A search with checkboxes shown outside any popup: the source raises. */
  lemma CheckboxesWithoutInitiatorFail()
    ensures ShowCheckboxesAsWritten(true, None).Err?
  {
  }

  /** A search as the user interface handles it. */
  class UiSearch<T> {
    const search: Search<T>
    const name: string
    const className: string
    var initiator: Option<Initiator>
    var initiatorHook: Option<string>

    constructor (search: Search<T>, className: string)
      ensures this.search == search && name == search.name && this.className == className
      ensures initiator.None? && initiatorHook.None?
    {
      this.search := search;
      name := search.name;
      this.className := className;
      initiator := None;
      initiatorHook := None;
    }

    /** `UiSearch.setInitiator`: the hook is the initiator's uid and the
        field name joined by '_'. */
    method SetInitiator(init: Initiator)
      modifies this
      ensures initiator == Some(init) && initiatorHook == Some(init.uid + "_" + init.fieldName)
    {
      initiator := Some(init);
      initiatorHook := Some(init.uid + "_" + init.fieldName);
    }

    /** `UiSearch.getRootHookId`: the initiator hook when there is one, else
        the search name. */
    function RootHookId(): (r: string)
      reads this
      ensures initiatorHook.Some? ==> r == initiatorHook.value
      ensures initiatorHook.None? ==> r == name
    {
      initiatorHook.GetOr(name)
    }

    /** `UiSearch.showCheckboxes`, reading a missing initiator as none:
        checkboxes are shown when they are enabled and either there is no
        initiator or its Ref field accepts several objects. */
    function ShowCheckboxes(): (r: Option<bool>)
      reads this
      ensures r.None? <==> !search.checkboxes
      ensures r == Some(true) <==> search.checkboxes && (initiator.None? || initiator.value.fieldMultiValued)
      ensures initiator.Some? ==> ShowCheckboxesAsWritten(search.checkboxes, initiator) == Ok(r)
    {
      if !search.checkboxes then None
      else Some(initiator.None? || initiator.value.fieldMultiValued)
    }
  }
}
