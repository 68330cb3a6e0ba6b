/** The descriptors the code generator builds for every Appy class and every
    workflow it finds in an application (gen/descriptors.py): the ordered
    fields of a class, its subclasses and phases, and the states and
    "concrete" transitions of a workflow. */
module Descriptors {
  import opened Wrappers
  import opened Text
  import opened Lists
  import GenInit

  // ===========================================================================
  // ClassDescriptor

  /** The parts of an Appy field (`Type`) a class descriptor looks at. */
  datatype Field = Field(move: int, phase: string)

  /** An attribute named in `orderedAttributes`: its name, its value when that
      value is an Appy field, and the class (the class itself or its model
      class) the value was found on. */
  datatype Member = Member(name: string, value: Option<Field>, hook: string)

  /** The `(name, appyType, hookClass)` triples the descriptor returns. */
  datatype Attr = Attr(name: string, field: Field, hook: string)

  /** A class descriptor: the name of its Python class, its declared
      attributes in order and the names of its direct base classes. */
  datatype ClassDescr = ClassDescr(klass: string, members: seq<Member>, bases: seq<string>)

  /** The optional condition of `getOrderedAppyAttributes`; the evaluated
      Python expression becomes a predicate on the candidate triple. */
  predicate Accepts(cond: Option<Attr -> bool>, a: Attr) {
    cond.None? || cond.value(a)
  }

  /** The triple for a member whose value is an Appy field. */
  function AttrOf(m: Member): Attr
    requires m.value.Some?
  {
    Attr(m.name, m.value.value, m.hook)
  }

  /** The fields a class declares itself, in declaration order, kept when
      the condition accepts them. */
  function OwnFields(ms: seq<Member>, cond: Option<Attr -> bool>): (r: seq<Attr>)
    ensures |r| <= |ms|
    ensures forall a :: a in r ==> Accepts(cond, a)
    ensures forall i :: 0 <= i < |ms| && ms[i].value.Some? && Accepts(cond, AttrOf(ms[i])) ==> AttrOf(ms[i]) in r
  {
    if ms == [] then []
    else
      var front := OwnFields(ms[..|ms| - 1], cond);
      var m := ms[|ms| - 1];
      assert forall i :: 0 <= i < |ms| - 1 ==> ms[i] == ms[..|ms| - 1][i];
      if m.value.Some? && Accepts(cond, AttrOf(m)) then front + [AttrOf(m)] else front
  }

  /** The descriptor the generator holds for the class named `base`: the
      first one whose class it is, or None. */
  function Lookup(classes: seq<ClassDescr>, base: string): (r: Option<ClassDescr>)
    ensures r.None? <==> forall i :: 0 <= i < |classes| ==> classes[i].klass != base
    ensures r.Some? ==> exists i :: 0 <= i < |classes| && classes[i] == r.value && r.value.klass == base &&
                                    forall k :: 0 <= k < i ==> classes[k].klass != base
  {
    if classes == [] then None
    else if classes[0].klass == base then Some(classes[0])
    else
      var r := Lookup(classes[1..], base);
      assert forall i :: 1 <= i < |classes| ==> classes[i] == classes[1..][i - 1];
      r
  }

  /** The search of the generator's descriptors for one base class; it stops
      at the first match. */
  method FindDescr(classes: seq<ClassDescr>, base: string) returns (res: Option<ClassDescr>)
    ensures res == Lookup(classes, base)
  {
    res := None;
    var i := 0;
    while i < |classes|
      invariant 0 <= i <= |classes|
      invariant forall k :: 0 <= k < i ==> classes[k].klass != base
    {
      if classes[i].klass == base {
        res := Some(classes[i]);
        LookupFirst(classes, base, i);
        return;
      }
      i := i + 1;
    }
  }

  lemma {:induction false} LookupFirst(classes: seq<ClassDescr>, base: string, i: nat)
    requires i < |classes| && classes[i].klass == base
    requires forall k :: 0 <= k < i ==> classes[k].klass != base
    ensures Lookup(classes, base) == Some(classes[i])
  {
    if i > 0 {
      assert classes[1..][i - 1] == classes[i];
      forall k | 0 <= k < i - 1 ensures classes[1..][k].klass != base {
        assert classes[1..][k] == classes[k + 1];
      }
      LookupFirst(classes[1..], base, i - 1);
    }
  }

  /** The position a field with a non-zero `move` is inserted at in a list of
      length `len`: `len - |move|`, or 0 when that is not positive. */
  function NewPosition(len: nat, move: int): (p: nat)
    ensures p <= len
    ensures p == 0 || p == len - (if move < 0 then -move else move)
  {
    var d := len - (if move < 0 then -move else move);
    if d <= 0 then 0 else d
  }

  /** One step of the final pass: an unmoved field is appended, a moved one
      inserted `|move|` places from the end. */
  function Placed(res: seq<Attr>, a: Attr): seq<Attr> {
    if a.field.move != 0 then InsertAt(res, NewPosition(|res|, a.field.move), a) else res + [a]
  }

  /** The final pass of `getOrderedAppyAttributes` over the gathered fields. */
  function Moved(attrs: seq<Attr>): (r: seq<Attr>)
    ensures |r| == |attrs|
  {
    if attrs == [] then [] else Placed(Moved(attrs[..|attrs| - 1]), attrs[|attrs| - 1])
  }

  /** Moving fields around neither loses nor duplicates any of them. */
  lemma {:induction false} MovedPermutation(attrs: seq<Attr>)
    ensures multiset(Moved(attrs)) == multiset(attrs)
    ensures |Moved(attrs)| == |attrs|
  {
    if attrs != [] {
      var front := attrs[..|attrs| - 1];
      MovedPermutation(front);
      assert attrs == front + [attrs[|attrs| - 1]];
    }
  }

  /** None of the triples asks to be moved. */
  predicate Unmoved(attrs: seq<Attr>) {
    forall i :: 0 <= i < |attrs| ==> attrs[i].field.move == 0
  }

  /** Without any `move`, the final pass keeps the gathered order. */
  lemma {:induction false} MovedStill(attrs: seq<Attr>)
    requires Unmoved(attrs)
    ensures Moved(attrs) == attrs
  {
    if attrs != [] {
      var front := attrs[..|attrs| - 1];
      MovedStill(front);
      assert attrs == front + [attrs[|attrs| - 1]];
    }
  }

  /** A field with `move = m` lands at `max(0, len - |m|)` of the list built
      so far; the fields before it stay and those after it shift by one. */
  lemma MovedLast(attrs: seq<Attr>, a: Attr)
    requires a.field.move != 0
    ensures var before := Moved(attrs);
            var r := Moved(attrs + [a]);
            var p := NewPosition(|attrs|, a.field.move);
            r[p] == a && r[..p] == before[..p] && r[p + 1..] == before[p..]
  {
    MovedPermutation(attrs);
    assert (attrs + [a])[..|attrs|] == attrs;
  }

  lemma MovedStep(attrs: seq<Attr>, i: nat)
    requires i < |attrs|
    ensures Moved(attrs[..i + 1]) == Placed(Moved(attrs[..i]), attrs[i])
  {
    assert attrs[..i + 1][..i] == attrs[..i];
  }

  /** The final pass, as the loop over the gathered triples. */
  method ApplyMoves(attrs: seq<Attr>) returns (res: seq<Attr>)
    ensures res == Moved(attrs)
    ensures multiset(res) == multiset(attrs)
  {
    res := [];
    var i := 0;
    while i < |attrs|
      invariant 0 <= i <= |attrs|
      invariant res == Moved(attrs[..i])
    {
      var a := attrs[i];
      MovedStep(attrs, i);
      if a.field.move != 0 {
        var newPosition := |res| - (if a.field.move < 0 then -a.field.move else a.field.move);
        if newPosition <= 0 {
          newPosition := 0;
        }
        assert newPosition == NewPosition(|res|, a.field.move);
        res := InsertAt(res, newPosition, a);
      } else {
        res := res + [a];
      }
      i := i + 1;
    }
    assert attrs[..i] == attrs;
    MovedPermutation(attrs);
  }

  /** The triples of a class before the final pass: for the bases in order,
      each base's own ordered fields are put in front of what was gathered
      so far, so the fields of every base come before the class's own.
      `fuel` bounds the depth of the class hierarchy. */
  function WithBases(classes: seq<ClassDescr>, bs: seq<string>, own: seq<Attr>, fuel: nat): seq<Attr>
    decreases fuel, 0, |bs|
  {
    if bs == [] then own
    else
      var rest := WithBases(classes, bs[..|bs| - 1], own, fuel);
      match Lookup(classes, bs[|bs| - 1])
      case None => rest
      case Some(d) => (if fuel == 0 then [] else Ordered(classes, d, None, fuel - 1)) + rest
  }

  /** `ClassDescriptor.getOrderedAppyAttributes`. */
  function Ordered(classes: seq<ClassDescr>, c: ClassDescr, cond: Option<Attr -> bool>, fuel: nat): seq<Attr>
    decreases fuel, 1
  {
    Moved(WithBases(classes, c.bases, OwnFields(c.members, cond), fuel))
  }

  /** Without bases that the generator knows, the gathered triples are the
      class's own fields and nothing else. */
  lemma {:induction false} WithUnknownBases(classes: seq<ClassDescr>, bs: seq<string>, own: seq<Attr>, fuel: nat)
    requires forall j :: 0 <= j < |bs| ==> Lookup(classes, bs[j]).None?
    ensures WithBases(classes, bs, own, fuel) == own
  {
    if bs != [] {
      WithUnknownBases(classes, bs[..|bs| - 1], own, fuel);
    }
  }

  /** Parent fields come first: the triples gathered for a class are the
      inherited ones followed by the class's own fields, whatever the bases. */
  lemma {:induction false} OwnFieldsLast(classes: seq<ClassDescr>, bs: seq<string>, own: seq<Attr>, fuel: nat)
    ensures var g := WithBases(classes, bs, own, fuel);
            |g| >= |own| && g[|g| - |own|..] == own
  {
    if bs != [] {
      OwnFieldsLast(classes, bs[..|bs| - 1], own, fuel);
      var rest := WithBases(classes, bs[..|bs| - 1], own, fuel);
      match Lookup(classes, bs[|bs| - 1])
      case None =>
      case Some(d) =>
        var inherited := if fuel == 0 then [] else Ordered(classes, d, None, fuel - 1);
        SuffixOfAppend(inherited, rest, own);
    }
  }

  lemma SuffixOfAppend<T>(a: seq<T>, b: seq<T>, c: seq<T>)
    requires |b| >= |c| && b[|b| - |c|..] == c
    ensures |a + b| >= |c| && (a + b)[|a + b| - |c|..] == c
  {
    assert (a + b)[|a + b| - |c|..] == b[|b| - |c|..];
  }

  /** With a single known base and no `move` anywhere, a class's ordered
      fields are its base's ordered fields followed by its own. */
  lemma SingleBaseOrder(classes: seq<ClassDescr>, c: ClassDescr, cond: Option<Attr -> bool>, fuel: nat, d: ClassDescr)
    requires fuel > 0 && |c.bases| == 1 && Lookup(classes, c.bases[0]) == Some(d)
    requires Unmoved(WithBases(classes, c.bases, OwnFields(c.members, cond), fuel))
    ensures Ordered(classes, c, cond, fuel) == Ordered(classes, d, None, fuel - 1) + OwnFields(c.members, cond)
  {
    var own := OwnFields(c.members, cond);
    assert c.bases[..0] == [];
    assert WithBases(classes, c.bases[..0], own, fuel) == own;
    MovedStill(WithBases(classes, c.bases, own, fuel));
  }

  /** The loop over the class's own `orderedAttributes`. */
  method CollectOwn(ms: seq<Member>, cond: Option<Attr -> bool>) returns (attrs: seq<Attr>)
    ensures attrs == OwnFields(ms, cond)
  {
    attrs := [];
    var i := 0;
    while i < |ms|
      invariant 0 <= i <= |ms|
      invariant attrs == OwnFields(ms[..i], cond)
    {
      var m := ms[i];
      assert ms[..i + 1][..i] == ms[..i];
      if m.value.Some? {
        var a := Attr(m.name, m.value.value, m.hook);
        if cond.None? || cond.value(a) {
          attrs := attrs + [a];
        }
      }
      i := i + 1;
    }
    assert ms[..i] == ms;
  }

  lemma WithBasesStep(classes: seq<ClassDescr>, bs: seq<string>, own: seq<Attr>, fuel: nat, j: nat)
    requires j < |bs|
    ensures Lookup(classes, bs[j]).None? ==>
              WithBases(classes, bs[..j + 1], own, fuel) == WithBases(classes, bs[..j], own, fuel)
    ensures Lookup(classes, bs[j]).Some? && fuel == 0 ==>
              WithBases(classes, bs[..j + 1], own, fuel) == WithBases(classes, bs[..j], own, fuel)
    ensures Lookup(classes, bs[j]).Some? && fuel > 0 ==>
              WithBases(classes, bs[..j + 1], own, fuel) ==
              Ordered(classes, Lookup(classes, bs[j]).value, None, fuel - 1) + WithBases(classes, bs[..j], own, fuel)
  {
    assert bs[..j + 1][..j] == bs[..j];
  }

  /** The loop over the base classes: each known base's ordered fields are
      put in front of the triples gathered so far. */
  method GatherBases(classes: seq<ClassDescr>, bs: seq<string>, own: seq<Attr>, fuel: nat)
    returns (attrs: seq<Attr>)
    ensures attrs == WithBases(classes, bs, own, fuel)
    decreases fuel, 1
  {
    attrs := own;
    var j := 0;
    while j < |bs|
      invariant 0 <= j <= |bs|
      invariant attrs == WithBases(classes, bs[..j], own, fuel)
    {
      WithBasesStep(classes, bs, own, fuel, j);
      var d := FindDescr(classes, bs[j]);
      var inherited := BaseContribution(classes, d, fuel);
      attrs := inherited + attrs;
      j := j + 1;
    }
    assert bs[..j] == bs;
  }

  /** What one base class contributes to the loop over the bases, for the
      descriptor found for it, if any. */
  method BaseContribution(classes: seq<ClassDescr>, d: Option<ClassDescr>, fuel: nat) returns (res: seq<Attr>)
    ensures res == if d.Some? && fuel > 0 then Ordered(classes, d.value, None, fuel - 1) else []
    decreases fuel, 0
  {
    res := [];
    if d.Some? && fuel > 0 {
      res := GetOrderedAppyAttributes(classes, d.value, None, fuel - 1);
    }
  }

  /** The ordered fields of a class are the inherited-then-own fields
      rearranged: none lost, none duplicated. */
  lemma OrderedPermutation(classes: seq<ClassDescr>, c: ClassDescr, cond: Option<Attr -> bool>, fuel: nat)
    ensures multiset(Ordered(classes, c, cond, fuel)) ==
            multiset(WithBases(classes, c.bases, OwnFields(c.members, cond), fuel))
  {
    MovedPermutation(WithBases(classes, c.bases, OwnFields(c.members, cond), fuel));
  }

  /** `ClassDescriptor.getOrderedAppyAttributes`: the class's own fields
      accepted by the condition, preceded by the ordered fields of every base
      class the generator knows (the last base first), then rearranged by the
      fields' `move`. */
  method GetOrderedAppyAttributes(classes: seq<ClassDescr>, c: ClassDescr, cond: Option<Attr -> bool>, fuel: nat)
    returns (res: seq<Attr>)
    ensures res == Ordered(classes, c, cond, fuel)
    decreases fuel, 2
  {
    var own := CollectOwn(c.members, cond);
    var attrs := GatherBases(classes, c.bases, own, fuel);
    res := ApplyMoves(attrs);
  }

  /** The classes among the generator's that `sub` calls subclasses of
      `self`, except `self`'s own class. */
  function ChildrenOf(classes: seq<ClassDescr>, self: ClassDescr, sub: (string, string) -> bool): (r: seq<ClassDescr>)
    ensures forall d :: d in r <==> d in classes && d.klass != self.klass && sub(d.klass, self.klass)
  {
    if classes == [] then []
    else
      var front := ChildrenOf(classes[..|classes| - 1], self, sub);
      var d := classes[|classes| - 1];
      assert classes == classes[..|classes| - 1] + [d];
      if d.klass != self.klass && sub(d.klass, self.klass) then front + [d] else front
  }

  /** `ClassDescriptor.getChildren`; `sub` stands for Python's `issubclass`. */
  method GetChildren(classes: seq<ClassDescr>, self: ClassDescr, sub: (string, string) -> bool)
    returns (res: seq<ClassDescr>)
    ensures res == ChildrenOf(classes, self, sub)
  {
    res := [];
    var i := 0;
    while i < |classes|
      invariant 0 <= i <= |classes|
      invariant res == ChildrenOf(classes[..i], self, sub)
    {
      assert classes[..i + 1][..i] == classes[..i];
      if classes[i].klass != self.klass && sub(classes[i].klass, self.klass) {
        res := res + [classes[i]];
      }
      i := i + 1;
    }
    assert classes[..i] == classes;
  }

  /** The distinct elements of `s`, in the order of their first occurrence. */
  function Distinct(s: seq<string>): (r: seq<string>)
    ensures NoDup(r)
    ensures forall x :: x in r <==> x in s
  {
    if s == [] then []
    else
      var front := s[..|s| - 1];
      var r := Distinct(front);
      assert s == front + [s[|s| - 1]];
      if s[|s| - 1] in r then r else r + [s[|s| - 1]]
  }

  /** The first occurrence of an element of a prefix is the same in any
      extension of that prefix. */
  lemma FirstIndexExtend(p: seq<string>, x: string, y: string)
    requires y in p
    ensures FirstIndex(p + [x], y) == FirstIndex(p, y)
  {
    var s := p + [x];
    var j := FirstIndex(p, y);
    assert s[..j] == p[..j] && s[j] == y;
  }

  /** An element absent from a prefix first occurs where it is appended. */
  lemma FirstIndexAppended(p: seq<string>, x: string)
    requires x !in p
    ensures FirstIndex(p + [x], x) == |p|
  {
    assert (p + [x])[..|p|] == p;
  }

  /** `Distinct` keeps the order of first occurrences. */
  lemma {:induction false} DistinctOrder(s: seq<string>)
    ensures forall i, j :: 0 <= i < j < |Distinct(s)| ==> FirstIndex(s, Distinct(s)[i]) < FirstIndex(s, Distinct(s)[j])
  {
    if s != [] {
      var front := s[..|s| - 1];
      var x := s[|s| - 1];
      assert s == front + [x];
      DistinctOrder(front);
      var r := Distinct(s);
      var rf := Distinct(front);
      if x !in rf {
        assert r == rf + [x];
        FirstIndexAppended(front, x);
        forall i, j | 0 <= i < j < |r| ensures FirstIndex(s, r[i]) < FirstIndex(s, r[j]) {
          assert r[i] == rf[i];
          FirstIndexExtend(front, x, rf[i]);
          if j < |rf| {
            assert r[j] == rf[j];
            FirstIndexExtend(front, x, rf[j]);
            assert FirstIndex(front, rf[i]) < FirstIndex(front, rf[j]);
          }
        }
      } else {
        assert r == rf;
        forall i, j | 0 <= i < j < |r| ensures FirstIndex(s, r[i]) < FirstIndex(s, r[j]) {
          FirstIndexExtend(front, x, rf[i]);
          FirstIndexExtend(front, x, rf[j]);
          assert FirstIndex(front, rf[i]) < FirstIndex(front, rf[j]);
        }
      }
    }
  }

  /** The phase of every triple, in order. */
  function PhaseList(attrs: seq<Attr>): (r: seq<string>)
    ensures |r| == |attrs|
    ensures forall i :: 0 <= i < |attrs| ==> r[i] == attrs[i].field.phase
  {
    seq(|attrs|, i requires 0 <= i < |attrs| => attrs[i].field.phase)
  }

  /** `ClassDescriptor.getPhases`: the distinct phases of the class's ordered
      fields, each once, in the order they first appear. */
  method GetPhases(classes: seq<ClassDescr>, c: ClassDescr, fuel: nat) returns (res: seq<string>)
    ensures res == Distinct(PhaseList(Ordered(classes, c, None, fuel)))
  {
    var attrs := GetOrderedAppyAttributes(classes, c, None, fuel);
    var phases := PhaseList(attrs);
    res := [];
    var i := 0;
    while i < |attrs|
      invariant 0 <= i <= |attrs|
      invariant res == Distinct(phases[..i])
    {
      assert phases[..i + 1][..i] == phases[..i];
      if attrs[i].field.phase !in res {
        res := res + [attrs[i].field.phase];
      }
      i := i + 1;
    }
    assert phases[..i] == phases;
  }

  // ===========================================================================
  // WorkflowDescriptor

  /** The value of a workflow class attribute. Python compares these objects
      by identity; `id` stands for that identity. The states a transition
      links are given by the ids of their `State` objects. */
  datatype Elem =
    | StateObj(id: string, initial: bool)
    | TransitionObj(id: string, states: GenInit.TransitionStates)
    | OtherObj(id: string)

  /** `dir(klass)`: the attribute names of a workflow class, with their
      values, in the order `dir` lists them. */
  type Dir = seq<(string, Elem)>

  /** The kinds `_getWorkflowElements` accepts; any other string selects
      nothing. */
  datatype ElemType = States | Transitions | All | Unknown

  predicate Selected(kind: ElemType, e: Elem) {
    match kind
    case States => e.StateObj?
    case Transitions => e.TransitionObj?
    case All => e.StateObj? || e.TransitionObj?
    case Unknown => false
  }

  /** The values of the selected kind, in `dir` order. */
  function Elements(attrs: Dir, kind: ElemType): (r: seq<Elem>)
    ensures forall e :: e in r ==> Selected(kind, e)
    ensures forall i :: 0 <= i < |attrs| && Selected(kind, attrs[i].1) ==> attrs[i].1 in r
  {
    if attrs == [] then []
    else
      var front := Elements(attrs[..|attrs| - 1], kind);
      var e := attrs[|attrs| - 1].1;
      assert forall i :: 0 <= i < |attrs| - 1 ==> attrs[i] == attrs[..|attrs| - 1][i];
      if Selected(kind, e) then front + [e] else front
  }

  /** `_getWorkflowElements`, which `getStates` and `getTransitions` call
      with `States` and `Transitions`. */
  method WorkflowElements(attrs: Dir, kind: ElemType) returns (res: seq<Elem>)
    ensures res == Elements(attrs, kind)
  {
    res := [];
    var i := 0;
    while i < |attrs|
      invariant 0 <= i <= |attrs|
      invariant res == Elements(attrs[..i], kind)
    {
      assert attrs[..i + 1][..i] == attrs[..i];
      var attrValue := attrs[i].1;
      var condition := false;
      if kind == States {
        condition := attrValue.StateObj?;
      } else if kind == Transitions {
        condition := attrValue.TransitionObj?;
      } else if kind == All {
        condition := attrValue.StateObj? || attrValue.TransitionObj?;
      }
      if condition {
        res := res + [attrValue];
      }
      i := i + 1;
    }
    assert attrs[..i] == attrs;
  }

  /** The names `dir` lists. */
  function Names(attrs: Dir): (r: seq<string>)
    ensures |r| == |attrs|
    ensures forall i :: 0 <= i < |attrs| ==> r[i] == attrs[i].0
  {
    seq(|attrs|, i requires 0 <= i < |attrs| => attrs[i].0)
  }

  /** `getattr(klass, name)` for a name `dir` lists. */
  function Get(attrs: Dir, name: string): (e: Elem)
    requires name in Names(attrs)
    ensures exists i :: 0 <= i < |attrs| && attrs[i] == (name, e)
  {
    if attrs[0].0 == name then attrs[0].1
    else
      var rest := attrs[1..];
      assert name in Names(rest) by {
        var k :| 0 <= k < |attrs| && Names(attrs)[k] == name;
        assert Names(rest)[k - 1] == name;
      }
      var e := Get(rest, name);
      assert exists i :: 0 <= i < |attrs| && attrs[i] == (name, e) by {
        var j :| 0 <= j < |rest| && rest[j] == (name, e);
        assert attrs[j + 1] == (name, e);
      }
      e
  }

  predicate IsState(attrs: Dir, name: string)
    requires name in Names(attrs)
  {
    Get(attrs, name).StateObj?
  }

  /** The names among `names` that hold a state, in order. */
  function StatesAmong(attrs: Dir, names: seq<string>): seq<string>
    requires forall n :: n in names ==> n in Names(attrs)
  {
    if names == [] then []
    else
      var r := StatesAmong(attrs, names[..|names| - 1]);
      if IsState(attrs, names[|names| - 1]) then r + [names[|names| - 1]] else r
  }

  lemma {:induction false} StatesAmongMembers(attrs: Dir, names: seq<string>)
    requires forall n :: n in names ==> n in Names(attrs)
    ensures forall n :: n in StatesAmong(attrs, names) <==> n in names && IsState(attrs, n)
  {
    if names != [] {
      var front := names[..|names| - 1];
      assert names == front + [names[|names| - 1]];
      StatesAmongMembers(attrs, front);
    }
  }

  /** The inherited states: the state names of `all` missing from `listed`,
      each put in front of the previous ones, so in reverse order. */
  function Inherited(attrs: Dir, all: seq<string>, listed: seq<string>): seq<string>
    requires forall n :: n in all ==> n in Names(attrs)
  {
    if all == [] then []
    else
      var r := Inherited(attrs, all[..|all| - 1], listed);
      var n := all[|all| - 1];
      if IsState(attrs, n) && n !in listed then [n] + r else r
  }

  lemma {:induction false} InheritedMembers(attrs: Dir, all: seq<string>, listed: seq<string>)
    requires forall n :: n in all ==> n in Names(attrs)
    ensures forall n :: n in Inherited(attrs, all, listed) <==> n in all && IsState(attrs, n) && n !in listed
  {
    if all != [] {
      var front := all[..|all| - 1];
      assert all == front + [all[|all| - 1]];
      InheritedMembers(attrs, front, listed);
    }
  }

  /** `getStateNames`: the states of `orderedAttributes` (or of `dir` when
      `ordered` is false) in that order, preceded by the remaining states. */
  function StateNames(attrs: Dir, orderedAttributes: seq<string>, ordered: bool): seq<string>
    requires ordered ==> forall n :: n in orderedAttributes ==> n in Names(attrs)
  {
    var listed := if ordered then orderedAttributes else Names(attrs);
    Inherited(attrs, Names(attrs), listed) + StatesAmong(attrs, listed)
  }

  /** Either way, every state of the workflow is named, and nothing else. */
  lemma StateNamesComplete(attrs: Dir, orderedAttributes: seq<string>, ordered: bool)
    requires ordered ==> forall n :: n in orderedAttributes ==> n in Names(attrs)
    ensures forall n :: n in StateNames(attrs, orderedAttributes, ordered) <==> n in Names(attrs) && IsState(attrs, n)
  {
    var listed := if ordered then orderedAttributes else Names(attrs);
    InheritedMembers(attrs, Names(attrs), listed);
    StatesAmongMembers(attrs, listed);
  }

  /** Unordered, the result is exactly the states in `dir` order. */
  lemma {:induction false} StateNamesUnordered(attrs: Dir, orderedAttributes: seq<string>)
    ensures StateNames(attrs, orderedAttributes, false) == StatesAmong(attrs, Names(attrs))
  {
    NoneInherited(attrs, Names(attrs), Names(attrs));
  }

  lemma {:induction false} NoneInherited(attrs: Dir, all: seq<string>, listed: seq<string>)
    requires forall n :: n in all ==> n in Names(attrs)
    requires forall n :: n in all ==> n in listed
    ensures Inherited(attrs, all, listed) == []
  {
    if all != [] {
      NoneInherited(attrs, all[..|all| - 1], listed);
    }
  }

  lemma StatesAmongStep(attrs: Dir, names: seq<string>, i: nat)
    requires i < |names| && forall n :: n in names ==> n in Names(attrs)
    ensures StatesAmong(attrs, names[..i + 1]) ==
            StatesAmong(attrs, names[..i]) + (if IsState(attrs, names[i]) then [names[i]] else [])
  {
    assert names[..i + 1][..i] == names[..i];
  }

  lemma InheritedStep(attrs: Dir, all: seq<string>, listed: seq<string>, j: nat)
    requires j < |all| && forall n :: n in all ==> n in Names(attrs)
    ensures Inherited(attrs, all[..j + 1], listed) ==
            (if IsState(attrs, all[j]) && all[j] !in listed then [all[j]] else []) + Inherited(attrs, all[..j], listed)
  {
    assert all[..j + 1][..j] == all[..j];
  }

  /** `list.insert(0, x)` puts `x` in front. */
  lemma InsertAtFront<T>(s: seq<T>, x: T)
    ensures InsertAt(s, 0, x) == [x] + s
  {
    if s != [] {
      assert s[0..] == s;
    }
  }

  lemma ConsAppend<T>(x: T, a: seq<T>, b: seq<T>)
    ensures [x] + (a + b) == [x] + a + b
  {
  }

  /** The first loop of `getStateNames`: the states among `names`. */
  method ListedStates(attrs: Dir, names: seq<string>) returns (res: seq<string>)
    requires forall n :: n in names ==> n in Names(attrs)
    ensures res == StatesAmong(attrs, names)
  {
    res := [];
    var i := 0;
    while i < |names|
      invariant 0 <= i <= |names|
      invariant res == StatesAmong(attrs, names[..i])
    {
      StatesAmongStep(attrs, names, i);
      if Get(attrs, names[i]).StateObj? {
        res := res + [names[i]];
      }
      i := i + 1;
    }
    assert names[..i] == names;
  }

  /** The second loop of `getStateNames`: every state of `allAttrs` missing
      from `names` is inserted at the front. */
  method PrependInherited(attrs: Dir, allAttrs: seq<string>, names: seq<string>, own: seq<string>) returns (res: seq<string>)
    requires forall n :: n in allAttrs ==> n in Names(attrs)
    ensures res == Inherited(attrs, allAttrs, names) + own
  {
    res := own;
    var j := 0;
    while j < |allAttrs|
      invariant 0 <= j <= |allAttrs|
      invariant res == Inherited(attrs, allAttrs[..j], names) + own
    {
      InheritedStep(attrs, allAttrs, names, j);
      ghost var before := Inherited(attrs, allAttrs[..j], names);
      var n := allAttrs[j];
      if Get(attrs, n).StateObj? && n !in names {
        InsertAtFront(res, n);
        ConsAppend(n, before, own);
        res := InsertAt(res, 0, n);
        assert res == [n] + before + own;
      } else {
        assert Inherited(attrs, allAttrs[..j + 1], names) == before;
      }
      j := j + 1;
    }
    assert allAttrs[..j] == allAttrs;
  }

  /** `WorkflowDescriptor.getStateNames`; the names of `orderedAttributes`
      must be attributes of the class (`getattr` raises otherwise). */
  method GetStateNames(attrs: Dir, orderedAttributes: seq<string>, ordered: bool) returns (res: seq<string>)
    requires ordered ==> forall n :: n in orderedAttributes ==> n in Names(attrs)
    ensures res == StateNames(attrs, orderedAttributes, ordered)
  {
    var names := Names(attrs);
    var allAttrs := names;
    if ordered {
      names := orderedAttributes;
    }
    var own := ListedStates(attrs, names);
    res := PrependInherited(attrs, allAttrs, names, own);
  }

  /** `getInitialStateName`: the first attribute holding a state flagged
      initial, or None. */
  function InitialState(attrs: Dir): (r: Option<string>)
    ensures r.None? <==> forall i :: 0 <= i < |attrs| ==> !(attrs[i].1.StateObj? && attrs[i].1.initial)
    ensures r.Some? ==> exists i :: 0 <= i < |attrs| && attrs[i].0 == r.value && attrs[i].1.StateObj? && attrs[i].1.initial &&
                                    forall k :: 0 <= k < i ==> !(attrs[k].1.StateObj? && attrs[k].1.initial)
  {
    if attrs == [] then None
    else if attrs[0].1.StateObj? && attrs[0].1.initial then Some(attrs[0].0)
    else
      var r := InitialState(attrs[1..]);
      assert forall i :: 1 <= i < |attrs| ==> attrs[i] == attrs[1..][i - 1];
      r
  }

  /** `WorkflowDescriptor.getInitialStateName`. */
  method GetInitialStateName(attrs: Dir) returns (res: Option<string>)
    ensures res == InitialState(attrs)
  {
    res := None;
    var i := 0;
    while i < |attrs|
      invariant 0 <= i <= |attrs|
      invariant forall k :: 0 <= k < i ==> !(attrs[k].1.StateObj? && attrs[k].1.initial)
    {
      if attrs[i].1.StateObj? && attrs[i].1.initial {
        res := Some(attrs[i].0);
        InitialStateAt(attrs, i);
        return;
      }
      i := i + 1;
    }
  }

  lemma {:induction false} InitialStateAt(attrs: Dir, i: nat)
    requires i < |attrs| && attrs[i].1.StateObj? && attrs[i].1.initial
    requires forall k :: 0 <= k < i ==> !(attrs[k].1.StateObj? && attrs[k].1.initial)
    ensures InitialState(attrs) == Some(attrs[i].0)
  {
    if i > 0 {
      assert attrs[1..][i - 1] == attrs[i];
      forall k | 0 <= k < i - 1 ensures !(attrs[1..][k].1.StateObj? && attrs[1..][k].1.initial) {
        assert attrs[1..][k] == attrs[k + 1];
      }
      InitialStateAt(attrs[1..], i - 1);
    }
  }

  /** `getNameOf`: the first attribute holding the object `x`, or None. */
  function NameOf(attrs: Dir, x: string): Option<string> {
    if attrs == [] then None
    else if attrs[0].1.id == x then Some(attrs[0].0)
    else NameOf(attrs[1..], x)
  }

  /** `getNameOf` finds the object exactly when an attribute holds it, and
      then gives the first such attribute. */
  lemma {:induction false} NameOfSpec(attrs: Dir, x: string)
    ensures NameOf(attrs, x).None? <==> forall i :: 0 <= i < |attrs| ==> attrs[i].1.id != x
    ensures NameOf(attrs, x).Some? ==>
              exists i :: 0 <= i < |attrs| && attrs[i].0 == NameOf(attrs, x).value && attrs[i].1.id == x &&
                          forall k :: 0 <= k < i ==> attrs[k].1.id != x
  {
    if attrs != [] && attrs[0].1.id != x {
      NameOfSpec(attrs[1..], x);
      assert forall i :: 1 <= i < |attrs| ==> attrs[i] == attrs[1..][i - 1];
      if NameOf(attrs, x).Some? {
        var j :| 0 <= j < |attrs| - 1 && attrs[1..][j].0 == NameOf(attrs, x).value && attrs[1..][j].1.id == x &&
                 forall k :: 0 <= k < j ==> attrs[1..][k].1.id != x;
        assert attrs[j + 1] == attrs[1..][j];
        forall k | 0 <= k < j + 1 ensures attrs[k].1.id != x {
          if k > 0 { assert attrs[k] == attrs[1..][k - 1]; }
        }
      }
    }
  }

  /** `WorkflowDescriptor.getNameOf`. */
  method GetNameOf(attrs: Dir, x: string) returns (res: Option<string>)
    ensures res == NameOf(attrs, x)
  {
    res := None;
    var i := 0;
    while i < |attrs|
      invariant 0 <= i <= |attrs|
      invariant forall k :: 0 <= k < i ==> attrs[k].1.id != x
    {
      if attrs[i].1.id == x {
        res := Some(attrs[i].0);
        NameOfAt(attrs, x, i);
        return;
      }
      i := i + 1;
    }
    NameOfSpec(attrs, x);
  }

  lemma {:induction false} NameOfAt(attrs: Dir, x: string, i: nat)
    requires i < |attrs| && attrs[i].1.id == x
    requires forall k :: 0 <= k < i ==> attrs[k].1.id != x
    ensures NameOf(attrs, x) == Some(attrs[i].0)
  {
    if i > 0 {
      assert attrs[1..][i - 1] == attrs[i];
      forall k | 0 <= k < i - 1 ensures attrs[1..][k].1.id != x {
        assert attrs[1..][k] == attrs[k + 1];
      }
      NameOfAt(attrs[1..], x, i - 1);
    }
  }

  // ---------------------------------------------------------------------------
  // Folds over lists, stated once for any element type

  /** The images under `f` of those of the first `n` elements of `xs` that
      `keep` keeps, in order. */
  function FilterMap<A, B>(xs: seq<A>, keep: A -> bool, f: A -> B, n: nat): (r: seq<B>)
    requires n <= |xs|
    ensures (forall i :: 0 <= i < n ==> keep(xs[i])) ==> |r| == n
  {
    if n == 0 then [] else FilterMap(xs, keep, f, n - 1) + (if keep(xs[n - 1]) then [f(xs[n - 1])] else [])
  }

  /** When every element is kept, the k-th result is the image of the k-th
      element. */
  lemma {:induction false} FilterMapAt<A, B>(xs: seq<A>, keep: A -> bool, f: A -> B, n: nat, k: nat)
    requires n <= |xs| && k < n
    requires forall i :: 0 <= i < n ==> keep(xs[i])
    ensures |FilterMap(xs, keep, f, n)| == n && FilterMap(xs, keep, f, n)[k] == f(xs[k])
  {
    if k < n - 1 {
      FilterMapAt(xs, keep, f, n - 1, k);
    }
  }

  /** The results are exactly the images of the kept elements. */
  lemma {:induction false} FilterMapMembers<A, B>(xs: seq<A>, keep: A -> bool, f: A -> B, n: nat)
    requires n <= |xs|
    ensures forall y :: y in FilterMap(xs, keep, f, n) <==> exists k :: 0 <= k < n && keep(xs[k]) && y == f(xs[k])
  {
    if n > 0 {
      FilterMapMembers(xs, keep, f, n - 1);
    }
  }

  // ---------------------------------------------------------------------------
  // Concrete transitions

  /** The name of the concrete transition of `tName` from `from` to `to`:
      both state names capitalised. Both are non-empty, since the source
      indexes their first letter. */
  function ConcreteName(tName: string, from: string, to: string): string
    requires from != [] && to != []
  {
    tName + Capitalize(from) + "To" + Capitalize(to)
  }

  /** `limitToFromState` keeps a pair when absent, or when it starts the pair. */
  predicate Keeps(limit: Option<string>, p: (string, string)) {
    limit.None? || p.0 == limit.value
  }

  /** The object `x` is an attribute with a non-empty name. */
  predicate Named(attrs: Dir, x: string) {
    NameOf(attrs, x).Some? && NameOf(attrs, x).value != []
  }

  /** Every state of a kept pair has a name; otherwise the source fails on
      `None[0]`. */
  predicate PairsNamed(attrs: Dir, pairs: seq<(string, string)>, limit: Option<string>) {
    forall k :: 0 <= k < |pairs| && Keeps(limit, pairs[k]) ==> Named(attrs, pairs[k].0) && Named(attrs, pairs[k].1)
  }

  /** The concrete name of one pair (empty for a pair whose states have no
      names, which `PairsNamed` rules out wherever it is used). */
  function PairName(attrs: Dir, tName: string, p: (string, string)): string {
    if Named(attrs, p.0) && Named(attrs, p.1) then ConcreteName(tName, NameOf(attrs, p.0).value, NameOf(attrs, p.1).value)
    else []
  }

  function KeepFrom(limit: Option<string>): ((string, string)) -> bool {
    p => Keeps(limit, p)
  }

  function NameFor(attrs: Dir, tName: string): ((string, string)) -> string {
    p => PairName(attrs, tName, p)
  }

  /** `getTransitionNamesOf`: a transition with a single pair keeps its own
      name; otherwise one name per kept pair, in order. */
  function ConcreteNames(attrs: Dir, tName: string, t: GenInit.TransitionStates, limit: Option<string>): (r: seq<string>)
    requires t.MultiMove? ==> PairsNamed(attrs, t.pairs, limit)
    ensures t.SingleMove? ==> r == [tName]
  {
    if t.SingleMove? then [tName] else FilterMap(t.pairs, KeepFrom(limit), NameFor(attrs, tName), |t.pairs|)
  }

  /** Without a limit, there is one name per pair, and the k-th name is that
      of the k-th pair: the name of the transition, then its capitalised
      start state, "To" and its capitalised end state. */
  lemma PairNamesAt(attrs: Dir, tName: string, pairs: seq<(string, string)>, k: nat)
    requires PairsNamed(attrs, pairs, None) && k < |pairs|
    ensures var names := ConcreteNames(attrs, tName, GenInit.MultiMove(pairs), None);
            var from := NameOf(attrs, pairs[k].0).value;
            var to := NameOf(attrs, pairs[k].1).value;
            |names| == |pairs| && names[k] == PairName(attrs, tName, pairs[k]) &&
            names[k] == tName + Capitalize(from) + "To" + Capitalize(to)
  {
    assert forall i :: 0 <= i < |pairs| ==> KeepFrom(None)(pairs[i]);
    FilterMapAt(pairs, KeepFrom(None), NameFor(attrs, tName), |pairs|, k);
  }

  /** With a limit, the names are exactly those of the pairs that start at
      the limiting state. */
  lemma PairNamesKept(attrs: Dir, tName: string, pairs: seq<(string, string)>, limit: Option<string>)
    requires PairsNamed(attrs, pairs, limit)
    ensures forall m :: m in ConcreteNames(attrs, tName, GenInit.MultiMove(pairs), limit) <==>
              exists k :: 0 <= k < |pairs| && Keeps(limit, pairs[k]) && m == PairName(attrs, tName, pairs[k])
  {
    FilterMapMembers(pairs, KeepFrom(limit), NameFor(attrs, tName), |pairs|);
  }

  lemma FilterMapStep<A, B>(xs: seq<A>, keep: A -> bool, f: A -> B, k: nat)
    requires k < |xs|
    ensures keep(xs[k]) ==> FilterMap(xs, keep, f, k + 1) == FilterMap(xs, keep, f, k) + [f(xs[k])]
    ensures !keep(xs[k]) ==> FilterMap(xs, keep, f, k + 1) == FilterMap(xs, keep, f, k)
  {
  }

  /** The text the source builds for a pair whose states are named. */
  lemma PairNameText(attrs: Dir, tName: string, p: (string, string), from: string, to: string)
    requires NameOf(attrs, p.0) == Some(from) && NameOf(attrs, p.1) == Some(to) && from != [] && to != []
    ensures PairName(attrs, tName, p) == tName + [ToUpperChar(from[0])] + from[1..] + "To" + [ToUpperChar(to[0])] + to[1..]
  {
    assert Capitalize(from) == [ToUpperChar(from[0])] + from[1..];
    assert Capitalize(to) == [ToUpperChar(to[0])] + to[1..];
  }

  /** The loop of `getTransitionNamesOf` over the pairs of a transition. */
  method PairsWalk(attrs: Dir, tName: string, pairs: seq<(string, string)>, limit: Option<string>)
    returns (res: seq<string>)
    requires PairsNamed(attrs, pairs, limit)
    ensures res == FilterMap(pairs, KeepFrom(limit), NameFor(attrs, tName), |pairs|)
  {
    res := [];
    var k := 0;
    while k < |pairs|
      invariant 0 <= k <= |pairs|
      invariant res == FilterMap(pairs, KeepFrom(limit), NameFor(attrs, tName), k)
    {
      FilterMapStep(pairs, KeepFrom(limit), NameFor(attrs, tName), k);
      var (fromState, toState) := pairs[k];
      if limit.None? || fromState == limit.value {
        assert KeepFrom(limit)(pairs[k]);
        var fromStateName := GetNameOf(attrs, fromState);
        var toStateName := GetNameOf(attrs, toState);
        PairNameText(attrs, tName, pairs[k], fromStateName.value, toStateName.value);
        var name := tName + [ToUpperChar(fromStateName.value[0])] + fromStateName.value[1..] +
                    "To" + [ToUpperChar(toStateName.value[0])] + toStateName.value[1..];
        assert name == NameFor(attrs, tName)(pairs[k]);
        res := res + [name];
      } else {
        assert !KeepFrom(limit)(pairs[k]);
      }
      k := k + 1;
    }
  }

  /** `WorkflowDescriptor.getTransitionNamesOf`. */
  method GetTransitionNamesOf(attrs: Dir, tName: string, t: GenInit.TransitionStates, limit: Option<string>)
    returns (res: seq<string>)
    requires t.MultiMove? ==> PairsNamed(attrs, t.pairs, limit)
    ensures res == ConcreteNames(attrs, tName, t, limit)
  {
    if t.SingleMove? {
      res := [tName];
    } else {
      res := PairsWalk(attrs, tName, t.pairs, limit);
    }
  }

  /** The transition at position `i` names the states of all its pairs. */
  predicate TransitionNamed(attrs: Dir, i: nat)
    requires i < |attrs|
  {
    attrs[i].1.TransitionObj? && attrs[i].1.states.MultiMove? ==> PairsNamed(attrs, attrs[i].1.states.pairs, None)
  }

  /** Every transition of the workflow names the states of all its pairs. */
  predicate WellNamed(attrs: Dir) {
    forall i :: 0 <= i < |attrs| ==> TransitionNamed(attrs, i)
  }

  /** `Transition.hasState(state, isFrom=True)`. */
  predicate StartsAt(t: GenInit.TransitionStates, state: string) {
    match t
    case SingleMove(f, _) => f == state
    case MultiMove(pairs) => exists k :: 0 <= k < |pairs| && pairs[k].0 == state
  }

  /** `e` is a transition that `limitToTransitions` (a missing or empty list
      keeps every transition) and `limitToFromState` both keep. */
  predicate Wanted(e: Elem, limitTo: seq<string>, limitFrom: Option<string>) {
    e.TransitionObj? && (limitTo == [] || e.id in limitTo) && (limitFrom.None? || StartsAt(e.states, limitFrom.value))
  }

  /** An entry of `getTransitionNames`: a concrete name, with the name of its
      Appy transition when labels are asked for. */
  datatype Label = Plain(name: string) | Labelled(name: string, appyName: string)

  function LabelOf(name: string, tName: string, withLabels: bool): Label {
    if withLabels then Labelled(name, tName) else Plain(name)
  }

  function Labels(names: seq<string>, tName: string, withLabels: bool): (r: seq<Label>)
    ensures |r| == |names|
    ensures forall k :: 0 <= k < |names| ==> r[k] == LabelOf(names[k], tName, withLabels)
  {
    seq(|names|, k requires 0 <= k < |names| => LabelOf(names[k], tName, withLabels))
  }

  /** The entries the attribute at position `i` adds: the concrete names of
      a wanted transition. */
  function EntriesOf(attrs: Dir, limitTo: seq<string>, limitFrom: Option<string>, withLabels: bool, i: nat): seq<Label> {
    if i < |attrs| && Wanted(attrs[i].1, limitTo, limitFrom) &&
       (attrs[i].1.states.MultiMove? ==> PairsNamed(attrs, attrs[i].1.states.pairs, limitFrom))
    then Labels(ConcreteNames(attrs, attrs[i].0, attrs[i].1.states, limitFrom), attrs[i].0, withLabels)
    else []
  }

  function EntriesFn(attrs: Dir, limitTo: seq<string>, limitFrom: Option<string>, withLabels: bool): nat -> seq<Label> {
    (i: nat) => EntriesOf(attrs, limitTo, limitFrom, withLabels, i)
  }

  /** `getTransitionNames` over the first `n` attributes. */
  function TransitionNames(attrs: Dir, limitTo: seq<string>, limitFrom: Option<string>, withLabels: bool, n: nat): seq<Label> {
    Flatten(EntriesFn(attrs, limitTo, limitFrom, withLabels), n)
  }

  /** A transition that names its states names them under any limit. */
  lemma NamedUnderLimit(attrs: Dir, i: nat, limitFrom: Option<string>)
    requires i < |attrs| && TransitionNamed(attrs, i) && attrs[i].1.TransitionObj? && attrs[i].1.states.MultiMove?
    ensures PairsNamed(attrs, attrs[i].1.states.pairs, limitFrom)
  {
  }

  /** `l` is an entry for the attribute at position `i`: a concrete name of
      that wanted transition, labelled with its name when asked. */
  predicate EntryFor(attrs: Dir, limitTo: seq<string>, limitFrom: Option<string>, withLabels: bool, i: nat, l: Label) {
    i < |attrs| && Wanted(attrs[i].1, limitTo, limitFrom) &&
    (attrs[i].1.states.MultiMove? ==> PairsNamed(attrs, attrs[i].1.states.pairs, limitFrom)) &&
    l.name in ConcreteNames(attrs, attrs[i].0, attrs[i].1.states, limitFrom) &&
    l == LabelOf(l.name, attrs[i].0, withLabels)
  }

  lemma EntriesOfMembers(attrs: Dir, limitTo: seq<string>, limitFrom: Option<string>, withLabels: bool, i: nat, l: Label)
    ensures l in EntriesOf(attrs, limitTo, limitFrom, withLabels, i) <==> EntryFor(attrs, limitTo, limitFrom, withLabels, i, l)
  {
    if i < |attrs| && Wanted(attrs[i].1, limitTo, limitFrom) &&
       (attrs[i].1.states.MultiMove? ==> PairsNamed(attrs, attrs[i].1.states.pairs, limitFrom)) {
      var names := ConcreteNames(attrs, attrs[i].0, attrs[i].1.states, limitFrom);
      var ls := Labels(names, attrs[i].0, withLabels);
      if l in ls {
        var k :| 0 <= k < |ls| && ls[k] == l;
        assert l.name == names[k];
      }
      if l.name in names && l == LabelOf(l.name, attrs[i].0, withLabels) {
        var k :| 0 <= k < |names| && names[k] == l.name;
        assert ls[k] == l;
      }
    }
  }

  /** The entries are exactly the concrete names of the wanted transitions,
      labelled with their transition's name when asked. */
  lemma TransitionNamesMembers(attrs: Dir, limitTo: seq<string>, limitFrom: Option<string>, withLabels: bool)
    ensures forall l :: l in TransitionNames(attrs, limitTo, limitFrom, withLabels, |attrs|) <==>
              exists i :: 0 <= i < |attrs| && EntryFor(attrs, limitTo, limitFrom, withLabels, i, l)
  {
    var f := EntriesFn(attrs, limitTo, limitFrom, withLabels);
    FlattenMembers(f, |attrs|);
    forall i: nat, l | i < |attrs| ensures l in f(i) <==> EntryFor(attrs, limitTo, limitFrom, withLabels, i, l) {
      EntriesOfMembers(attrs, limitTo, limitFrom, withLabels, i, l);
    }
  }

  /** The entries of one wanted transition, appended one by one. */
  method AppendLabels(res0: seq<Label>, tNames: seq<string>, tName: string, withLabels: bool) returns (res: seq<Label>)
    ensures res == res0 + Labels(tNames, tName, withLabels)
  {
    res := res0;
    var k := 0;
    while k < |tNames|
      invariant 0 <= k <= |tNames|
      invariant res == res0 + Labels(tNames[..k], tName, withLabels)
    {
      assert Labels(tNames[..k + 1], tName, withLabels) == Labels(tNames[..k], tName, withLabels) + [LabelOf(tNames[k], tName, withLabels)];
      if withLabels {
        res := res + [Labelled(tNames[k], tName)];
      } else {
        res := res + [Plain(tNames[k])];
      }
      k := k + 1;
    }
    assert tNames[..k] == tNames;
  }

  /** The two limits of `getTransitionNames`, checked for one transition. */
  method IsWanted(e: Elem, limitTo: seq<string>, limitFrom: Option<string>) returns (wanted: bool)
    requires e.TransitionObj?
    ensures wanted == Wanted(e, limitTo, limitFrom)
  {
    wanted := limitTo == [] || e.id in limitTo;
    if wanted && limitFrom.Some? {
      wanted := GenInit.HasState(e.states, limitFrom.value, true);
      assert wanted <==> StartsAt(e.states, limitFrom.value);
    }
  }

  /** `WorkflowDescriptor.getTransitionNames`. */
  method GetTransitionNames(attrs: Dir, limitTo: seq<string>, limitFrom: Option<string>, withLabels: bool)
    returns (res: seq<Label>)
    requires WellNamed(attrs)
    ensures res == TransitionNames(attrs, limitTo, limitFrom, withLabels, |attrs|)
  {
    res := [];
    var i := 0;
    while i < |attrs|
      invariant 0 <= i <= |attrs|
      invariant res == TransitionNames(attrs, limitTo, limitFrom, withLabels, i)
    {
      var (tName, t) := attrs[i];
      assert TransitionNames(attrs, limitTo, limitFrom, withLabels, i + 1) ==
             res + EntriesOf(attrs, limitTo, limitFrom, withLabels, i);
      if t.TransitionObj? {
        var wanted := IsWanted(t, limitTo, limitFrom);
        if wanted {
          if t.states.MultiMove? {
            assert TransitionNamed(attrs, i);
            NamedUnderLimit(attrs, i, limitFrom);
          }
          var tNames := GetTransitionNamesOf(attrs, tName, t.states, limitFrom);
          res := AppendLabels(res, tNames, tName, withLabels);
        }
      }
      i := i + 1;
    }
  }

  // ---------------------------------------------------------------------------
  // getEndStateName

  /** The attribute at position `i` is a transition one of whose concrete
      names is `tn`. */
  predicate Matches(attrs: Dir, tn: string, i: nat) {
    i < |attrs| && TransitionNamed(attrs, i) && attrs[i].1.TransitionObj? &&
    (attrs[i].1.states.SingleMove? ==> attrs[i].0 == tn) &&
    (attrs[i].1.states.MultiMove? ==> tn in ConcreteNames(attrs, attrs[i].0, attrs[i].1.states, None))
  }

  /** The end state a matching transition gives: the name of the target of
      its pair, or of the pair at the position of `tn` among its concrete
      names. */
  function EndOf(attrs: Dir, tn: string, i: nat): Option<string> {
    if !Matches(attrs, tn, i) then None
    else match attrs[i].1.states
      case SingleMove(_, to) => NameOf(attrs, to)
      case MultiMove(pairs) =>
        var names := ConcreteNames(attrs, attrs[i].0, attrs[i].1.states, None);
        var k := FirstIndex(names, tn);
        if k < |pairs| then NameOf(attrs, pairs[k].1) else None
  }

  function MatchFn(attrs: Dir, tn: string): nat -> bool {
    (i: nat) => Matches(attrs, tn, i)
  }

  function EndFn(attrs: Dir, tn: string): nat -> Option<string> {
    (i: nat) => EndOf(attrs, tn, i)
  }

  /** `getEndStateName` over the first `n` attributes: there is no `break`,
      so the last matching transition decides. */
  function EndState(attrs: Dir, tn: string, n: nat): Option<string> {
    LastWhere(MatchFn(attrs, tn), EndFn(attrs, tn), None, n)
  }

  /** The end state is None when no transition has the concrete name `tn`,
      and otherwise is given by the last transition that has it. */
  lemma EndStateNone(attrs: Dir, tn: string)
    requires forall i: nat :: i < |attrs| ==> !Matches(attrs, tn, i)
    ensures EndState(attrs, tn, |attrs|).None?
  {
    LastWhereNone(MatchFn(attrs, tn), EndFn(attrs, tn), None, |attrs|);
  }

  lemma EndStateLast(attrs: Dir, tn: string, i: nat)
    requires i < |attrs| && Matches(attrs, tn, i)
    requires forall k: nat :: i < k < |attrs| ==> !Matches(attrs, tn, k)
    ensures EndState(attrs, tn, |attrs|) == EndOf(attrs, tn, i)
  {
    LastWhereLast(MatchFn(attrs, tn), EndFn(attrs, tn), None, |attrs|, i);
  }

  /** For a transition with several pairs, the end state is the name of the
      target of the pair whose concrete name is `tn`. */
  lemma EndOfPair(attrs: Dir, tn: string, i: nat)
    requires Matches(attrs, tn, i) && attrs[i].1.states.MultiMove?
    ensures var pairs := attrs[i].1.states.pairs;
            exists k :: 0 <= k < |pairs| && tn == PairName(attrs, attrs[i].0, pairs[k]) &&
                        EndOf(attrs, tn, i) == NameOf(attrs, pairs[k].1)
  {
    var pairs := attrs[i].1.states.pairs;
    var names := ConcreteNames(attrs, attrs[i].0, attrs[i].1.states, None);
    var k := FirstIndex(names, tn);
    PairNamesAt(attrs, attrs[i].0, pairs, k);
  }

  /** `WorkflowDescriptor.getEndStateName`. */
  method GetEndStateName(attrs: Dir, tn: string) returns (res: Option<string>)
    requires WellNamed(attrs)
    ensures res == EndState(attrs, tn, |attrs|)
  {
    res := None;
    var i := 0;
    while i < |attrs|
      invariant 0 <= i <= |attrs|
      invariant res == EndState(attrs, tn, i)
    {
      var (tName, t) := attrs[i];
      assert TransitionNamed(attrs, i);
      if t.TransitionObj? {
        if t.states.SingleMove? {
          if tn == tName {
            res := GetNameOf(attrs, t.states.to);
          }
        } else {
          var transNames := GetTransitionNamesOf(attrs, tName, t.states, None);
          if tn in transNames {
            PairNamesAt(attrs, tName, t.states.pairs, 0);
            res := GetNameOf(attrs, t.states.pairs[FirstIndex(transNames, tn)].1);
          }
        }
      }
      i := i + 1;
    }
  }
}
