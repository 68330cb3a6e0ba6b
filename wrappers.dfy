/** The abstract wrapper Appy puts around every stored object
    (gen/wrappers/__init__.py): how a class finds an attribute inherited from
    its base classes (its workflow, its page layouts), the catalog indexes a
    class declares, the first search result, the number of objects a Ref
    field holds, and the reading and editing of an object's workflow
    history. */
module AppyWrappers {
  import opened Wrappers
  import opened Lists
  import Text
  import Layout

  // ---------------------------------------------------------------------------
  // Attributes inherited from base classes
  // ---------------------------------------------------------------------------

  /** Base `i` carries the attribute with a truthy value. `bases[i]` is `None`
      when the base class does not define the attribute (`getattr(.., None)`). */
  function Defines<V>(bases: seq<Option<V>>, truthy: V -> bool): nat -> bool {
    (i: nat) => i < |bases| && bases[i].Some? && truthy(bases[i].value)
  }

  function BaseValue<V>(bases: seq<Option<V>>): nat -> Option<V> {
    (i: nat) => if i < |bases| then bases[i] else None
  }

  /** What `_getParentAttr` returns: the value of the last base class whose
      value is truthy, or `None`. */
  function ParentAttr<V>(bases: seq<Option<V>>, truthy: V -> bool): Option<V> {
    LastWhere(Defines(bases, truthy), BaseValue(bases), None, |bases|)
  }

  /** `_getParentAttr` scans the bases from the last one to the first one and
      stops at the first truthy value; without one it gives `None`. */
  lemma ParentAttrSpec<V>(bases: seq<Option<V>>, truthy: V -> bool)
    ensures ParentAttr(bases, truthy).None? <==>
              forall i :: 0 <= i < |bases| ==> !(bases[i].Some? && truthy(bases[i].value))
    ensures ParentAttr(bases, truthy).Some? ==>
              exists i :: 0 <= i < |bases| && bases[i] == ParentAttr(bases, truthy)
                && truthy(bases[i].value)
                && forall k :: i < k < |bases| ==> !(bases[k].Some? && truthy(bases[k].value))
  {
    var m := Defines(bases, truthy);
    assert forall i: nat :: m(i) <==> i < |bases| && bases[i].Some? && truthy(bases[i].value);
    if i :| 0 <= i < |bases| && m(i) {
      LastWhereFound(m, BaseValue(bases), None, |bases|, i);
      var k: nat :| i <= k < |bases| && m(k) && ParentAttr(bases, truthy) == BaseValue(bases)(k)
                    && forall j: nat :: k < j < |bases| ==> !m(j);
      assert bases[k] == ParentAttr(bases, truthy) && truthy(bases[k].value);
      assert forall j :: k < j < |bases| ==> !(bases[j].Some? && truthy(bases[j].value));
    } else {
      LastWhereNone(m, BaseValue(bases), None, |bases|);
    }
  }

  /** AbstractWrapper._getParentAttr: a decrementing scan of the bases. */
  method GetParentAttr<V>(bases: seq<Option<V>>, truthy: V -> bool) returns (res: Option<V>)
    ensures res == ParentAttr(bases, truthy)
  {
    var i: int := |bases| - 1;
    while i >= 0
      invariant -1 <= i < |bases|
      invariant forall k: nat :: i < k < |bases| ==> !Defines(bases, truthy)(k)
    {
      res := bases[i];
      if res.Some? && truthy(res.value) {
        LastWhereLast(Defines(bases, truthy), BaseValue(bases), None, |bases|, i);
        return;
      }
      i := i - 1;
    }
    LastWhereNone(Defines(bases, truthy), BaseValue(bases), None, |bases|);
    res := None;
  }

  /** A workflow is a class: always truthy once defined. */
  function WorkflowDefined(w: string): bool { true }

  const WORKFLOW_ANONYMOUS := "WorkflowAnonymous"

  /** AbstractWrapper.getWorkflow: the workflows of the bases are given by
      name. */
  function GetWorkflow(workflows: seq<Option<string>>): string {
    match ParentAttr(workflows, WorkflowDefined)
    case Some(w) => w
    case None => WORKFLOW_ANONYMOUS
  }

  /** The workflow comes from the last base class defining one, and is the
      anonymous workflow when no base class does. */
  lemma GetWorkflowSpec(workflows: seq<Option<string>>)
    ensures GetWorkflow(workflows) == WORKFLOW_ANONYMOUS <==>
              (forall i :: 0 <= i < |workflows| ==> workflows[i].None?) ||
              (exists i :: 0 <= i < |workflows| && workflows[i] == Some(WORKFLOW_ANONYMOUS)
                 && forall k :: i < k < |workflows| ==> workflows[k].None?)
    ensures forall i ::
              (0 <= i < |workflows| && workflows[i].Some? && forall k :: i < k < |workflows| ==> workflows[k].None?) ==>
              GetWorkflow(workflows) == workflows[i].value
  {
    ParentAttrSpec(workflows, WorkflowDefined);
    forall i | 0 <= i < |workflows| && workflows[i].Some?
        && (forall k :: i < k < |workflows| ==> workflows[k].None?)
      ensures GetWorkflow(workflows) == workflows[i].value
    {
      LastWhereLast(Defines(workflows, WorkflowDefined), BaseValue(workflows), None, |workflows|, i);
    }
  }

  /** A page layout: the layout string of its table and the table's other
      parameters. */
  datatype PageLayout = PageLayout(layoutString: string, params: Layout.TableParams)

  /** `defaultPageLayouts` (gen/layout.py): the "view" table is centred, the
      "edit" one has no width; everything else keeps Table's defaults. */
  const DEFAULT_PAGE_LAYOUTS: map<string, PageLayout> := map[
    "view" := PageLayout("w|-b|", Layout.TableParams(None, "", 0, 0, Some("100%"), "center")),
    "edit" := PageLayout("w|-b|", Layout.TableParams(None, "", 0, 0, None, "left"))]

  /** A dict of layouts is truthy when it is not empty. */
  function LayoutsDefined(layouts: map<string, PageLayout>): bool { |layouts| > 0 }

  /** AbstractWrapper.getPageLayouts. */
  function GetPageLayouts(layouts: seq<Option<map<string, PageLayout>>>): map<string, PageLayout> {
    match ParentAttr(layouts, LayoutsDefined)
    case Some(l) => l
    case None => DEFAULT_PAGE_LAYOUTS
  }

  /** The page layouts are never empty: those of the last base class defining
      non-empty ones, else the two defaults. */
  lemma GetPageLayoutsSpec(layouts: seq<Option<map<string, PageLayout>>>)
    ensures |GetPageLayouts(layouts)| > 0
    ensures (forall i :: 0 <= i < |layouts| ==> !(layouts[i].Some? && |layouts[i].value| > 0)) ==>
              GetPageLayouts(layouts) == DEFAULT_PAGE_LAYOUTS
    ensures forall i ::
              (0 <= i < |layouts| && layouts[i].Some? && |layouts[i].value| > 0 &&
               forall k :: i < k < |layouts| ==> !(layouts[k].Some? && |layouts[k].value| > 0)) ==>
              GetPageLayouts(layouts) == layouts[i].value
  {
    ParentAttrSpec(layouts, LayoutsDefined);
    assert "view" in DEFAULT_PAGE_LAYOUTS;
    forall i | 0 <= i < |layouts| && layouts[i].Some? && |layouts[i].value| > 0
        && (forall k :: i < k < |layouts| ==> !(layouts[k].Some? && |layouts[k].value| > 0))
      ensures GetPageLayouts(layouts) == layouts[i].value
    {
      LastWhereLast(Defines(layouts, LayoutsDefined), BaseValue(layouts), None, |layouts|, i);
    }
  }

  // ---------------------------------------------------------------------------
  // Catalog indexes
  // ---------------------------------------------------------------------------

  /** What getIndexes reads from a field: its name, whether it is indexed and
      the type of its index (Field.getIndexType). */
  datatype IndexedField = IndexedField(name: string, indexed: bool, indexType: string)

  /** The field gets an index of its own: `title` is among the defaults. */
  predicate GetsIndex(f: IndexedField) { f.indexed && f.name != "title" }

  /** Python takes `n[0]`: an indexed field needs a non-empty name. */
  predicate IndexableFields(fields: seq<IndexedField>) {
    forall i :: 0 <= i < |fields| && GetsIndex(fields[i]) ==> fields[i].name != ""
  }

  /** Field `f` gets the index called `key`. */
  predicate NamesIndex(f: IndexedField, key: string) {
    GetsIndex(f) && f.name != "" && IndexName(f.name) == key
  }

  /** The index of field `name`: `get` and the capitalized name. */
  function IndexName(name: string): string
    requires name != ""
  {
    "get" + Text.Capitalize(name)
  }

  /** The dict getIndexes builds, field after field. */
  function Indexes(start: map<string, string>, fields: seq<IndexedField>): map<string, string>
    requires IndexableFields(fields)
  {
    if fields == [] then start
    else
      var res := Indexes(start, fields[..|fields| - 1]);
      var f := fields[|fields| - 1];
      if GetsIndex(f) then res[IndexName(f.name) := f.indexType] else res
  }

  /** Some field of `fields` gets the index called `key`. */
  predicate SomeNames(fields: seq<IndexedField>, key: string) {
    exists i :: 0 <= i < |fields| && NamesIndex(fields[i], key)
  }

  lemma SomeNamesLast(fields: seq<IndexedField>, key: string)
    requires fields != [] && IndexableFields(fields)
    ensures IndexableFields(fields[..|fields| - 1])
    ensures SomeNames(fields, key) <==>
              SomeNames(fields[..|fields| - 1], key) || NamesIndex(fields[|fields| - 1], key)
  {
    var init := fields[..|fields| - 1];
    assert forall i :: 0 <= i < |init| ==> init[i] == fields[i];
    if SomeNames(fields, key) && !NamesIndex(fields[|fields| - 1], key) {
      var i :| 0 <= i < |fields| && NamesIndex(fields[i], key);
      assert NamesIndex(init[i], key);
    }
  }

  /** The indexes are the starting ones plus `get<Name>` for every indexed
      field other than `title`. */
  lemma {:induction false} IndexesKeys(start: map<string, string>, fields: seq<IndexedField>, key: string)
    requires IndexableFields(fields)
    ensures key in Indexes(start, fields) <==> key in start || SomeNames(fields, key)
  {
    if fields != [] {
      SomeNamesLast(fields, key);
      IndexesKeys(start, fields[..|fields| - 1], key);
    }
  }

  /** An index's type is that of the last indexed field giving it its name;
      an index no field names keeps its starting type. */
  lemma {:induction false} IndexesValue(start: map<string, string>, fields: seq<IndexedField>, key: string)
    requires IndexableFields(fields)
    requires key in Indexes(start, fields)
    ensures forall i ::
              (0 <= i < |fields| && NamesIndex(fields[i], key) && forall k :: i < k < |fields| ==> !NamesIndex(fields[k], key)) ==>
              Indexes(start, fields)[key] == fields[i].indexType
    ensures (forall i :: 0 <= i < |fields| ==> !NamesIndex(fields[i], key)) ==>
              key in start && Indexes(start, fields)[key] == start[key]
  {
    if fields != [] {
      var init := fields[..|fields| - 1];
      var f := fields[|fields| - 1];
      if !NamesIndex(f, key) {
        IndexesValue(start, init, key);
        forall i | 0 <= i < |fields| && NamesIndex(fields[i], key)
            && (forall k :: i < k < |fields| ==> !NamesIndex(fields[k], key))
          ensures Indexes(start, fields)[key] == fields[i].indexType
        {
          assert init[i] == fields[i];
          assert forall k :: i < k < |init| ==> init[k] == fields[k];
        }
        if forall i :: 0 <= i < |fields| ==> !NamesIndex(fields[i], key) {
          assert forall i :: 0 <= i < |init| ==> init[i] == fields[i];
        }
      }
    }
  }

  /** AbstractWrapper.getIndexes: the class's fields in declaration order and
      the standard indexes, which gen/indexer.py supplies. */
  method GetIndexes(fields: seq<IndexedField>, includeDefaults: bool, defaultIndexes: map<string, string>)
    returns (res: map<string, string>)
    requires IndexableFields(fields)
    ensures res == Indexes(if includeDefaults then defaultIndexes else map[], fields)
  {
    res := if includeDefaults then defaultIndexes else map[];
    ghost var start := res;
    for i := 0 to |fields|
      invariant res == Indexes(start, fields[..i])
    {
      assert fields[..i + 1][..i] == fields[..i];
      var field := fields[i];
      if !field.indexed || field.name == "title" {
        continue;
      }
      res := res[IndexName(field.name) := field.indexType];
    }
    assert fields[..|fields|] == fields;
  }

  // ---------------------------------------------------------------------------
  // Searches and references
  // ---------------------------------------------------------------------------

  /** AbstractWrapper.search1: the first result of the search, if any. */
  function Search1<T>(results: seq<T>): (r: Option<T>)
    ensures r.None? <==> results == []
    ensures r.Some? ==> r.value == results[0] && r.value in results
  {
    if results != [] then Some(results[0]) else None
  }

  /** AbstractWrapper.ids: the stored uid list, or the empty tuple when the
      field has never been set (`None` here). */
  function Ids(uids: Option<seq<string>>): (r: seq<string>)
    ensures uids.Some? ==> r == uids.value
    ensures uids.None? ==> r == []
  {
    if uids.Some? then uids.value else []
  }

  /** AbstractWrapper.countRefs: 0 for a missing or empty uid list. */
  function CountRefs(uids: Option<seq<string>>): (n: nat)
    ensures n == 0 <==> uids.None? || uids.value == []
  {
    if uids.None? || uids.value == [] then 0 else |uids.value|
  }

  /** countRefs counts exactly what ids returns. */
  lemma CountRefsIsIds(uids: Option<seq<string>>)
    ensures CountRefs(uids) == |Ids(uids)|
  {
  }

  // ---------------------------------------------------------------------------
  // Workflow history
  // ---------------------------------------------------------------------------

  /** One entry of an object's workflow history. */
  datatype Event = Event(action: string, time: int, reviewState: Option<string>, actor: string)

  const DATA_CHANGE := "_datachange_"

  /** The `transition` argument of getLastEvent: a name or a list of names. */
  datatype TransitionQuery = OneTransition(name: string) | AnyTransition(names: seq<string>)

  predicate Matches(q: TransitionQuery, action: string) {
    match q
    case OneTransition(n) => action == n
    case AnyTransition(ns) => action in ns
  }

  /** Event `i` is where the backwards scan stops: an occurrence of
      `notBefore` (an empty `notBefore` is Python-false and never stops it) or
      a matching event. */
  function StopsAt(history: seq<Event>, q: TransitionQuery, notBefore: string): nat -> bool {
    (i: nat) => i < |history| && ((notBefore != "" && history[i].action == notBefore) || Matches(q, history[i].action))
  }

  function FoundAt(history: seq<Event>, notBefore: string): nat -> Option<Event> {
    (i: nat) => if i < |history| && !(notBefore != "" && history[i].action == notBefore) then Some(history[i]) else None
  }

  /** What getLastEvent returns. */
  function LastEvent(history: seq<Event>, q: TransitionQuery, notBefore: string): Option<Event> {
    LastWhere(StopsAt(history, q, notBefore), FoundAt(history, notBefore), None, |history|)
  }

  /** getLastEvent returns an event iff it matches, is not itself `notBefore`,
      and no later event matches or is `notBefore`. */
  lemma LastEventSpec(history: seq<Event>, q: TransitionQuery, notBefore: string, e: Event)
    ensures LastEvent(history, q, notBefore) == Some(e) <==>
              exists i :: 0 <= i < |history| && history[i] == e && Matches(q, e.action)
                && !(notBefore != "" && e.action == notBefore)
                && forall k :: i < k < |history| ==> !StopsAt(history, q, notBefore)(k)
  {
    var m := StopsAt(history, q, notBefore);
    var v := FoundAt(history, notBefore);
    if LastEvent(history, q, notBefore) == Some(e) {
      if i :| 0 <= i < |history| && m(i) {
        LastWhereFound(m, v, None, |history|, i);
      } else {
        LastWhereNone(m, v, None, |history|);
      }
    }
    if exists i :: 0 <= i < |history| && history[i] == e && Matches(q, e.action)
         && !(notBefore != "" && e.action == notBefore)
         && forall k :: i < k < |history| ==> !m(k) {
      var i :| 0 <= i < |history| && history[i] == e && Matches(q, e.action)
         && !(notBefore != "" && e.action == notBefore)
         && forall k :: i < k < |history| ==> !m(k);
      LastWhereLast(m, v, None, |history|, i);
    }
  }

  /** Without a matching event after the last `notBefore`, getLastEvent
      finds nothing. */
  lemma LastEventNone(history: seq<Event>, q: TransitionQuery, notBefore: string)
    ensures LastEvent(history, q, notBefore).None? <==>
              forall i ::
                (0 <= i < |history| && Matches(q, history[i].action) && !(notBefore != "" && history[i].action == notBefore)) ==>
                exists k :: i < k < |history| && StopsAt(history, q, notBefore)(k)
  {
    var m := StopsAt(history, q, notBefore);
    var v := FoundAt(history, notBefore);
    if LastEvent(history, q, notBefore).None? {
      forall i | 0 <= i < |history| && Matches(q, history[i].action)
          && !(notBefore != "" && history[i].action == notBefore)
        ensures exists k :: i < k < |history| && m(k)
      {
        LastWhereFound(m, v, None, |history|, i);
      }
    } else {
      LastEventSpec(history, q, notBefore, LastEvent(history, q, notBefore).value);
    }
  }

  /** Rewriting of a kept event: a data change takes the state of the event
      kept before it. */
  function Restated(e: Event, lastState: Option<string>): (r: Event)
    ensures r.action == e.action && r.time == e.time && r.actor == e.actor
    ensures e.action != DATA_CHANGE ==> r == e
  {
    if e.action == DATA_CHANGE then e.(reviewState := lastState) else e
  }

  /** removeEvent drops the events with the same action and time. */
  predicate SameEvent(e: Event, event: Event) {
    e.action == event.action && e.time == event.time
  }

  /** The history removeEvent stores, `lastState` being the state of the
      event kept last. */
  function RemoveFrom(history: seq<Event>, event: Event, lastState: Option<string>): seq<Event> {
    if history == [] then []
    else if SameEvent(history[0], event) then RemoveFrom(history[1..], event, lastState)
    else
      var e := Restated(history[0], lastState);
      [e] + RemoveFrom(history[1..], event, e.reviewState)
  }

  /** The events removeEvent keeps, before any rewriting. */
  function Kept(history: seq<Event>, event: Event): (r: seq<Event>)
    ensures |r| <= |history|
  {
    if history == [] then []
    else if SameEvent(history[0], event) then Kept(history[1..], event)
    else [history[0]] + Kept(history[1..], event)
  }

  /** The kept events are those of the history other than the removed one. */
  lemma {:induction false} KeptMembers(history: seq<Event>, event: Event, e: Event)
    ensures e in Kept(history, event) <==> e in history && !SameEvent(e, event)
  {
    if history != [] {
      KeptMembers(history[1..], event, e);
      assert history == [history[0]] + history[1..];
    }
  }

  /** The new history is the kept events in order, each data change carrying
      the state of the event before it (`lastState` for the first one). */
  /** The state of the event before position `j` of `r`. */
  function StateBefore(r: seq<Event>, j: nat, lastState: Option<string>): Option<string>
    requires j <= |r|
  {
    if j == 0 then lastState else r[j - 1].reviewState
  }

  /** `r` is `k` with each data change taking the state of the event before
      it in `r`. */
  predicate RestatedFrom(r: seq<Event>, k: seq<Event>, lastState: Option<string>) {
    |r| == |k| && forall j :: 0 <= j < |r| ==> r[j] == Restated(k[j], StateBefore(r, j, lastState))
  }

  lemma {:induction false} RestatedAt(r: seq<Event>, k: seq<Event>, lastState: Option<string>, j: nat)
    requires RestatedFrom(r, k, lastState) && j < |r|
    ensures j < |k| && r[j] == Restated(k[j], StateBefore(r, j, lastState))
  {
  }

  lemma {:induction false} RemoveFromShape(history: seq<Event>, event: Event, lastState: Option<string>)
    ensures RestatedFrom(RemoveFrom(history, event, lastState), Kept(history, event), lastState)
  {
    if history != [] {
      var tail := history[1..];
      if SameEvent(history[0], event) {
        RemoveFromShape(tail, event, lastState);
        assert RemoveFrom(history, event, lastState) == RemoveFrom(tail, event, lastState);
        assert Kept(history, event) == Kept(tail, event);
      } else {
        var e := Restated(history[0], lastState);
        RemoveFromShape(tail, event, e.reviewState);
        RestatedCons(history[0], lastState, RemoveFrom(tail, event, e.reviewState), Kept(tail, event));
      }
    }
  }

  /** Putting one rewritten event in front keeps the shape. */
  lemma RestatedCons(first: Event, lastState: Option<string>, r: seq<Event>, k: seq<Event>)
    requires RestatedFrom(r, k, Restated(first, lastState).reviewState)
    ensures RestatedFrom([Restated(first, lastState)] + r, [first] + k, lastState)
  {
    var e := Restated(first, lastState);
    var r1 := [e] + r;
    var k1 := [first] + k;
    forall j | 0 <= j < |r1|
      ensures r1[j] == Restated(k1[j], StateBefore(r1, j, lastState))
    {
      if j > 0 {
        assert r1[j] == r[j - 1] && k1[j] == k[j - 1];
        RestatedAt(r, k, e.reviewState, j - 1);
        assert r1[j - 1] == if j == 1 then e else r[j - 2];
      }
    }
  }

  /** After removeEvent no event with the removed action and time is left, and
      the others are still there in order, their review state aside. */
  lemma RemovedEvents(history: seq<Event>, event: Event)
    ensures var r := RemoveFrom(history, event, None);
            var k := Kept(history, event);
            |r| == |k|
            && (forall j :: 0 <= j < |r| ==> !SameEvent(r[j], event))
            && (forall j :: 0 <= j < |r| ==> r[j].(reviewState := k[j].reviewState) == k[j])
            && (forall j :: 0 <= j < |r| && r[j].action != DATA_CHANGE ==> r[j] == k[j])
            && (|r| > 0 && r[0].action == DATA_CHANGE ==> r[0].reviewState.None?)
  {
    RemoveFromShape(history, event, None);
    assert RestatedFrom(RemoveFrom(history, event, None), Kept(history, event), None);
    var r := RemoveFrom(history, event, None);
    var k := Kept(history, event);
    forall j | 0 <= j < |r|
      ensures !SameEvent(r[j], event) && r[j].(reviewState := k[j].reviewState) == k[j]
      ensures r[j].action != DATA_CHANGE ==> r[j] == k[j]
    {
      RestatedAt(r, k, None, j);
      assert k[j] in k;
      KeptMembers(history, event, k[j]);
    }
  }

  /** The wrapper of one object, reduced to the object's workflow history
      (`o.workflow_history['appy']`). */
  class AbstractWrapper {
    var history: seq<Event>

    constructor (history: seq<Event>)
      ensures this.history == history
    {
      this.history := history;
    }

    /** AbstractWrapper.getLastEvent: a backwards scan of the history. */
    method GetLastEvent(transition: TransitionQuery, notBefore: string) returns (res: Option<Event>)
      ensures res == LastEvent(history, transition, notBefore)
    {
      var h := history;
      var i: int := |h| - 1;
      while i >= 0
        invariant -1 <= i < |h|
        invariant forall k: nat :: i < k < |h| ==> !StopsAt(h, transition, notBefore)(k)
      {
        var event := h[i];
        if notBefore != "" && event.action == notBefore {
          LastWhereLast(StopsAt(h, transition, notBefore), FoundAt(h, notBefore), None, |h|, i);
          return None;
        }
        var condition := match transition
          case OneTransition(n) => event.action == n
          case AnyTransition(ns) => event.action in ns;
        if condition {
          LastWhereLast(StopsAt(h, transition, notBefore), FoundAt(h, notBefore), None, |h|, i);
          return Some(event);
        }
        i := i - 1;
      }
      LastWhereNone(StopsAt(h, transition, notBefore), FoundAt(h, notBefore), None, |h|);
      return None;
    }

    /** AbstractWrapper.removeEvent: one forward pass that keeps the other
        events and rewrites the state of the data changes. */
    method RemoveEvent(event: Event)
      modifies this
      ensures history == RemoveFrom(old(history), event, None)
    {
      var h := history;
      var res: seq<Event> := [];
      var lastState: Option<string> := None;
      for i := 0 to |h|
        invariant res + RemoveFrom(h[i..], event, lastState) == RemoveFrom(h, event, None)
      {
        assert h[i..][1..] == h[i + 1..];
        var e := h[i];
        if e.action == event.action && e.time == event.time {
          continue;
        }
        if e.action == DATA_CHANGE {
          e := e.(reviewState := lastState);
        }
        ConcatAssoc(res, [e], RemoveFrom(h[i + 1..], event, e.reviewState));
        res := res + [e];
        lastState := e.reviewState;
      }
      history := res;
    }
  }
}
