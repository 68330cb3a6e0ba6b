/** The `Ref` field of fields/ref.py: an ordered list of tied object uids,
    kept without duplicates, stored on the object under the field's name and
    mirrored by the back reference on each tied object. */
module Refs {
  import opened Wrappers
  import opened Text
  import opened Lists

  // ---------------------------------------------------------------------------
  // Field definition and constructor defaults

  /** What `add` evaluates to: false, true, or "start". */
  datatype AddValue = AddNo | AddYes | AddStart

  /** The `add` parameter: a value, or a method together with what it
      returns on the current object. */
  datatype AddSpec = Add(v: AddValue) | AddMethod(result: AddValue)

  function EvalAdd(a: AddSpec): AddValue {
    match a
    case Add(v) => v
    case AddMethod(res) => res
  }

  /** Python's `bool(add)`: a method is always true. */
  predicate AddTruthy(a: AddSpec) {
    a.AddMethod? || a.v != AddNo
  }

  /** The `link` parameter: False, True, "list" or "popup". */
  datatype LinkMode = LinkNo | LinkYes | LinkList | LinkPopup

  /** The options the constructor derives from its parameters. */
  datatype RefOptions = RefOptions(delete: bool, unlink: bool, checkboxesDefault: bool,
                                   shownInfo: seq<string>, validable: bool)

  /** `Ref.__init__`: `delete` defaults to `bool(add)`, `unlink` and
      `checkboxesDefault` to `bool(link)`, an empty `shownInfo` becomes
      ['title'], and only a linkable Ref is validated. */
  function NewRefOptions(add: AddSpec, delete: Option<bool>, link: LinkMode, unlink: Option<bool>,
                         checkboxesDefault: Option<bool>, shownInfo: seq<string>): (r: RefOptions)
    ensures r.delete == (if delete.Some? then delete.value else AddTruthy(add))
    ensures r.unlink == (if unlink.Some? then unlink.value else link != LinkNo)
    ensures r.checkboxesDefault == (if checkboxesDefault.Some? then checkboxesDefault.value else link != LinkNo)
    ensures r.shownInfo == (if shownInfo == [] then ["title"] else shownInfo)
    ensures r.validable <==> link != LinkNo
  {
    RefOptions(
      if delete.Some? then delete.value else AddTruthy(add),
      if unlink.Some? then unlink.value else link != LinkNo,
      if checkboxesDefault.Some? then checkboxesDefault.value else link != LinkNo,
      if shownInfo == [] then ["title"] else shownInfo,
      link != LinkNo)
  }

  /** A Ref as the link operations see it: the attribute names of the
      forward and back references and how each adds. */
  datatype RefField = RefField(name: string, backName: string, add: AddSpec, backAdd: AddSpec)

  // ---------------------------------------------------------------------------
  // Visibility and creation rights

  /** `Ref.isShowable`: on top of the field rule, an addable or non-selectable
      ("list" or no link) Ref is not edited, and a back reference is never
      edited and is shown only when it holds something. */
  function RefIsShowable(fieldShowable: bool, layoutType: string, mayAdd: bool, link: LinkMode,
                         isBack: bool, hasValue: bool): (r: bool)
    ensures r ==> fieldShowable
    ensures layoutType == "edit" && (mayAdd || link == LinkNo || link == LinkList || isBack) ==> !r
    ensures fieldShowable && isBack && layoutType != "edit" ==> (r <==> hasValue)
    ensures fieldShowable && !isBack && layoutType != "edit" ==> r
    ensures fieldShowable && !isBack && layoutType == "edit" && !mayAdd && (link == LinkYes || link == LinkPopup) ==> r
  {
    if !fieldShowable then false
    else if layoutType == "edit" && (mayAdd || link == LinkNo || link == LinkList) then false
    else if isBack then layoutType != "edit" && hasValue
    else true
  }

  /** The answer of `mayAdd`: yes, or no with the reason. */
  datatype Answer = Yes | No(msg: string)

  /** `Ref.mayAdd`: the reasons are checked in this order: back reference,
      not addable, maximum reached, no write permission, no creation right. */
  function MayAdd(isBack: bool, add: AddSpec, max: Option<int>, refCount: nat,
                  mayWrite: bool, mayCreate: bool): (r: Answer)
    ensures r.Yes? <==> !isBack && EvalAdd(add) != AddNo && (max.None? || refCount < max.value)
                        && mayWrite && mayCreate
    ensures isBack ==> r == No("is_back")
    ensures !isBack && EvalAdd(add) == AddNo ==> r == No("no_add")
    ensures !isBack && EvalAdd(add) != AddNo && max.Some? && refCount >= max.value ==> r == No("max_reached")
  {
    if isBack then No("is_back")
    else if EvalAdd(add) == AddNo then No("no_add")
    else if max.Some? && refCount >= max.value then No("max_reached")
    else if !mayWrite then No("no_write_perm")
    else if !mayCreate then No("no_add_perm")
    else Yes
  }

  // ---------------------------------------------------------------------------
  // Reading the tied objects

  /** A batch of tied objects (the source's SomeObjects). */
  datatype Batch = Batch(objects: seq<string>, totalNumber: nat, batchSize: nat, startNumber: nat)

  /** `Ref.getValue`: all tied uids (the default ones when none is stored),
      or, from `startNumber`, at most `maxPerPage` of them. */
  method GetValue(uids: seq<string>, defaultUids: seq<string>, startNumber: Option<nat>, maxPerPage: nat)
    returns (r: Batch)
    ensures var all := if uids == [] then defaultUids else uids;
      r.totalNumber == |all| &&
      r.batchSize == (if startNumber.Some? then maxPerPage else |all|) &&
      r.startNumber == startNumber.GetOr(0) &&
      r.objects == Slice(all, r.startNumber, r.startNumber + r.batchSize)
    ensures startNumber.None? ==> r.objects == (if uids == [] then defaultUids else uids)
    ensures |r.objects| <= r.batchSize
  {
    var all := if uids == [] then defaultUids else uids;
    var total := |all|;
    var batch := total;
    if startNumber.Some? {
      batch := maxPerPage;
    }
    var start := startNumber.GetOr(0);
    var objects: seq<string> := [];
    var i := start;
    while i < start + batch
      invariant start <= i <= start + batch
      invariant i <= total || i == start
      invariant objects == Slice(all, start, i)
    {
      if i >= total {
        break;
      }
      objects := objects + [all[i]];
      i := i + 1;
    }
    r := Batch(objects, total, batch, start);
  }

  /** The objects whose uid is not linked yet, in their order. */
  function WithoutLinked(objects: seq<string>, linked: seq<string>): (r: seq<string>)
    ensures |r| <= |objects|
  {
    if objects == [] then []
    else (if objects[0] in linked then [] else [objects[0]]) + WithoutLinked(objects[1..], linked)
  }

  /** The filter keeps exactly the objects that are not linked. */
  lemma {:induction false} WithoutLinkedMembers(objects: seq<string>, linked: seq<string>)
    ensures forall x :: x in WithoutLinked(objects, linked) <==> x in objects && x !in linked
  {
    if objects != [] {
      WithoutLinkedMembers(objects[1..], linked);
      assert objects == [objects[0]] + objects[1..];
    }
  }

  /** The removal loop of `Ref.getPossibleValues`: scanning from the end,
      every object whose uid is linked is deleted. */
  method RemoveLinked(objects: seq<string>, linked: seq<string>) returns (cur: seq<string>)
    ensures cur == WithoutLinked(objects, linked)
  {
    cur := objects;
    var i := |objects| - 1;
    while i >= 0
      invariant -1 <= i < |objects|
      invariant cur == objects[..i + 1] + WithoutLinked(objects[i + 1..], linked)
    {
      RemoveStep(objects, linked, i, cur);
      if cur[i] in linked {
        cur := cur[..i] + cur[i + 1..];
      }
      i := i - 1;
    }
    assert objects[..0] == [] && objects[0..] == objects;
  }

  /** `Ref.getPossibleValues` once the candidate objects are known: with
      `removeLinked`, the linked ones are dropped; the total is counted
      before the batch is cut out. */
  method PossibleValues(objects: seq<string>, linked: seq<string>, removeLinked: bool,
                        startNumber: Option<nat>, maxPerPage: nat)
    returns (r: seq<string>, total: nat)
    ensures var kept := if removeLinked then WithoutLinked(objects, linked) else objects;
      total == |kept| &&
      r == (if startNumber.Some? then Slice(kept, startNumber.value, startNumber.value + maxPerPage) else kept)
  {
    var cur := objects;
    if removeLinked {
      if linked != [] {
        cur := RemoveLinked(objects, linked);
      } else {
        NothingLinked(objects, linked);
      }
    }
    total := |cur|;
    if startNumber.Some? {
      cur := Slice(cur, startNumber.value, startNumber.value + maxPerPage);
    }
    r := cur;
  }

  lemma WithoutLinkedStep(objects: seq<string>, linked: seq<string>, i: nat)
    requires i < |objects|
    ensures WithoutLinked(objects[i..], linked) ==
      (if objects[i] in linked then [] else [objects[i]]) + WithoutLinked(objects[i + 1..], linked)
  {
    assert objects[i..][1..] == objects[i + 1..];
  }

  /** One step of the removal loop: deleting position `i` when it is linked
      extends the filtered tail by one position. */
  lemma RemoveStep(objects: seq<string>, linked: seq<string>, i: nat, cur: seq<string>)
    requires i < |objects|
    requires cur == objects[..i + 1] + WithoutLinked(objects[i + 1..], linked)
    ensures i < |cur| && cur[i] == objects[i]
    ensures cur[i] in linked ==> cur[..i] + cur[i + 1..] == objects[..i] + WithoutLinked(objects[i..], linked)
    ensures cur[i] !in linked ==> cur == objects[..i] + WithoutLinked(objects[i..], linked)
  {
    WithoutLinkedStep(objects, linked, i);
    ghost var tail := WithoutLinked(objects[i + 1..], linked);
    ghost var pre := objects[..i];
    assert objects[..i + 1] == pre + [objects[i]];
    assert cur == pre + ([objects[i]] + tail);
    if objects[i] in linked {
      assert cur[..i] == pre;
      assert cur[i + 1..] == tail;
      assert WithoutLinked(objects[i..], linked) == tail;
    } else {
      assert WithoutLinked(objects[i..], linked) == [objects[i]] + tail;
    }
  }

  lemma {:induction false} NothingLinked(objects: seq<string>, linked: seq<string>)
    requires linked == []
    ensures WithoutLinked(objects, linked) == objects
  {
    if objects != [] {
      NothingLinked(objects[1..], linked);
      assert [objects[0]] + objects[1..] == objects;
    }
  }

  /** The master values found in the request: none (blank), one uid, or
      several uids separated by '*'. */
  datatype MasterValues = NoMasterValue | OneMaster(uid: string) | ManyMasters(uids: seq<string>)

  function ParseMasterValues(s: string): (r: MasterValues)
    ensures Strip(s) == "" <==> r.NoMasterValue?
    ensures r.OneMaster? ==> r.uid == Strip(s) && '*' !in Strip(s)
    ensures r.ManyMasters? ==> |r.uids| >= 2 && Join(r.uids, "*") == Strip(s)
  {
    var t := Strip(s);
    if t == "" then NoMasterValue
    else
      var parts := Split(t, '*');
      SplitJoin(t, '*');
      if |parts| == 1 then OneMaster(parts[0]) else ManyMasters(parts)
  }

  // ---------------------------------------------------------------------------
  // Grouping tied objects into menus

  datatype Menu = Menu(id: string, objects: seq<string>)

  function MenuIds(menus: seq<Menu>): (r: seq<string>)
    ensures |r| == |menus| && forall k :: 0 <= k < |menus| ==> r[k] == menus[k].id
  {
    seq(|menus|, k requires 0 <= k < |menus| => menus[k].id)
  }

  /** The position of the menu with this id, or the number of menus. */
  function MenuIndex(menus: seq<Menu>, id: string): (k: nat)
    ensures k <= |menus|
    ensures k < |menus| ==> menus[k].id == id
    ensures k == |menus| ==> id !in MenuIds(menus)
  {
    if menus == [] then 0
    else if menus[|menus| - 1].id == id && MenuIndex(menus[..|menus| - 1], id) == |menus| - 1 then |menus| - 1
    else
      var k := MenuIndex(menus[..|menus| - 1], id);
      if k < |menus| - 1 then k
      else if menus[|menus| - 1].id == id then |menus| - 1
      else
        assert MenuIds(menus) == MenuIds(menus[..|menus| - 1]) + [menus[|menus| - 1].id];
        |menus|
  }

  /** Grouping as a function: each object joins the menu of its id, a new
      menu being opened the first time an id is met. */
  function GroupByMenu(objects: seq<string>, menuId: string -> string): seq<Menu> {
    if objects == [] then []
    else
      var g := GroupByMenu(objects[..|objects| - 1], menuId);
      var o := objects[|objects| - 1];
      var k := MenuIndex(g, menuId(o));
      if k < |g| then g[k := Menu(menuId(o), g[k].objects + [o])]
      else g + [Menu(menuId(o), [o])]
  }

  /** The ids in order of first appearance. */
  function Dedup(ids: seq<string>): (r: seq<string>)
    ensures forall x :: x in r <==> x in ids
    ensures NoDup(r)
  {
    if ids == [] then []
    else
      var d := Dedup(ids[..|ids| - 1]);
      var x := ids[|ids| - 1];
      assert forall y :: y in ids <==> y in ids[..|ids| - 1] || y == x by {
        assert ids == ids[..|ids| - 1] + [x];
      }
      if x in d then d else d + [x]
  }

  function Ids(objects: seq<string>, menuId: string -> string): (r: seq<string>)
    ensures |r| == |objects| && forall i :: 0 <= i < |objects| ==> r[i] == menuId(objects[i])
  {
    seq(|objects|, i requires 0 <= i < |objects| => menuId(objects[i]))
  }

  /** The objects of one menu, in their order. */
  function InMenu(objects: seq<string>, menuId: string -> string, id: string): seq<string> {
    if objects == [] then []
    else InMenu(objects[..|objects| - 1], menuId, id)
         + (if menuId(objects[|objects| - 1]) == id then [objects[|objects| - 1]] else [])
  }

  lemma {:induction false} InMenuAbsent(objects: seq<string>, menuId: string -> string, id: string)
    requires id !in Ids(objects, menuId)
    ensures InMenu(objects, menuId, id) == []
  {
    if objects != [] {
      var front := objects[..|objects| - 1];
      assert forall i :: 0 <= i < |front| ==> Ids(front, menuId)[i] == Ids(objects, menuId)[i];
      InMenuAbsent(front, menuId, id);
      assert Ids(objects, menuId)[|objects| - 1] == menuId(objects[|objects| - 1]);
    }
  }

  /** `getLinkedObjectsByMenu` lists the menus in order of first appearance,
      and each menu holds exactly the objects of its id, in their order: every
      object lands in exactly one menu. */
  lemma GroupByMenuSpec(objects: seq<string>, menuId: string -> string)
    ensures MenuIds(GroupByMenu(objects, menuId)) == Dedup(Ids(objects, menuId))
    ensures forall k :: 0 <= k < |GroupByMenu(objects, menuId)| ==>
      GroupByMenu(objects, menuId)[k].objects == InMenu(objects, menuId, GroupByMenu(objects, menuId)[k].id)
  {
    GroupByMenuIds(objects, menuId);
    GroupByMenuObjects(objects, menuId);
  }

  lemma {:induction false} GroupByMenuIds(objects: seq<string>, menuId: string -> string)
    ensures MenuIds(GroupByMenu(objects, menuId)) == Dedup(Ids(objects, menuId))
  {
    if objects != [] {
      var front := objects[..|objects| - 1];
      var o := objects[|objects| - 1];
      GroupByMenuIds(front, menuId);
      var g := GroupByMenu(front, menuId);
      var ids := Ids(objects, menuId);
      assert ids[..|ids| - 1] == Ids(front, menuId);
      var k := MenuIndex(g, menuId(o));
      var g' := GroupByMenu(objects, menuId);
      if k < |g| {
        assert MenuIds(g') == MenuIds(g);
      } else {
        assert MenuIds(g') == MenuIds(g) + [menuId(o)];
      }
    }
  }

  lemma {:induction false} GroupByMenuObjects(objects: seq<string>, menuId: string -> string)
    ensures forall k :: 0 <= k < |GroupByMenu(objects, menuId)| ==>
      GroupByMenu(objects, menuId)[k].objects == InMenu(objects, menuId, GroupByMenu(objects, menuId)[k].id)
  {
    if objects != [] {
      var front := objects[..|objects| - 1];
      var o := objects[|objects| - 1];
      GroupByMenuObjects(front, menuId);
      var g := GroupByMenu(front, menuId);
      var k := MenuIndex(g, menuId(o));
      GroupByMenuIds(front, menuId);
      if k == |g| {
        InMenuAbsent(front, menuId, menuId(o));
      }
      var g' := GroupByMenu(objects, menuId);
      forall j | 0 <= j < |g'|
        ensures g'[j].objects == InMenu(objects, menuId, g'[j].id)
      {
        var id := g'[j].id;
        assert InMenu(objects, menuId, id) == InMenu(front, menuId, id) + (if menuId(o) == id then [o] else []);
        if j < |g| {
          assert MenuIds(g)[j] == id;
        }
      }
    }
  }

  /** A menu with its text and icon. */
  datatype ShownMenu = ShownMenu(menu: Menu, text: string, icon: Option<string>)

  /** The menus' ids are distinct. */
  lemma GroupByMenuNoDup(objects: seq<string>, menuId: string -> string)
    ensures NoDup(MenuIds(GroupByMenu(objects, menuId)))
  {
    GroupByMenuSpec(objects, menuId);
  }

  /** The dict of `getLinkedObjectsByMenu` gives the position of each menu. */
  ghost predicate Positions(positions: map<string, nat>, res: seq<Menu>) {
    (forall id :: id in positions <==> id in MenuIds(res)) &&
    (forall id :: id in positions ==> positions[id] < |res| && res[positions[id]].id == id)
  }

  lemma PositionsKeep(positions: map<string, nat>, res: seq<Menu>, id: string, o: string)
    requires Positions(positions, res) && id in positions
    ensures var k := positions[id];
      Positions(positions, res[k := Menu(id, res[k].objects + [o])])
  {
    var k := positions[id];
    var res' := res[k := Menu(id, res[k].objects + [o])];
    assert MenuIds(res') == MenuIds(res);
  }

  lemma PositionsAdd(positions: map<string, nat>, res: seq<Menu>, id: string, o: string)
    requires Positions(positions, res) && id !in positions
    ensures Positions(positions[id := |res|], res + [Menu(id, [o])])
  {
    assert MenuIds(res + [Menu(id, [o])]) == MenuIds(res) + [id];
  }

  /** The grouping loop of `Ref.getLinkedObjectsByMenu`: a dict remembers the
      position of each menu already opened. */
  method GroupMenus(objects: seq<string>, menuId: string -> string) returns (res: seq<Menu>)
    ensures res == GroupByMenu(objects, menuId)
  {
    res := [];
    var positions: map<string, nat> := map[];
    for i := 0 to |objects|
      invariant res == GroupByMenu(objects[..i], menuId)
      invariant Positions(positions, res)
    {
      var id := menuId(objects[i]);
      GroupByMenuStep(objects, menuId, i);
      if id in positions {
        var k := positions[id];
        GroupByMenuNoDup(objects[..i], menuId);
        MenuIndexUnique(res, id, k);
        PositionsKeep(positions, res, id, objects[i]);
        res := res[k := Menu(id, res[k].objects + [objects[i]])];
      } else {
        assert id !in MenuIds(res);
        PositionsAdd(positions, res, id, objects[i]);
        positions := positions[id := |res|];
        res := res + [Menu(id, [objects[i]])];
      }
    }
    assert objects[..|objects|] == objects;
  }

  /** `Ref.getLinkedObjectsByMenu`: groups the objects into menus, then asks
      each menu's text and icon. */
  method LinkedObjectsByMenu(objects: seq<string>, menuId: string -> string,
                             menuInfo: string -> (string, Option<string>))
    returns (r: seq<ShownMenu>)
    ensures var g := GroupByMenu(objects, menuId);
      |r| == |g| &&
      forall k :: 0 <= k < |g| ==> r[k] == ShownMenu(g[k], menuInfo(g[k].id).0, menuInfo(g[k].id).1)
  {
    var res := GroupMenus(objects, menuId);
    r := [];
    for k := 0 to |res|
      invariant |r| == k
      invariant forall j :: 0 <= j < k ==> r[j] == ShownMenu(res[j], menuInfo(res[j].id).0, menuInfo(res[j].id).1)
    {
      var info := menuInfo(res[k].id);
      r := r + [ShownMenu(res[k], info.0, info.1)];
    }
  }

  lemma GroupByMenuStep(objects: seq<string>, menuId: string -> string, i: nat)
    requires i < |objects|
    ensures var g := GroupByMenu(objects[..i], menuId);
      var o := objects[i];
      var k := MenuIndex(g, menuId(o));
      GroupByMenu(objects[..i + 1], menuId) ==
        if k < |g| then g[k := Menu(menuId(o), g[k].objects + [o])] else g + [Menu(menuId(o), [o])]
  {
    assert objects[..i + 1][..i] == objects[..i];
  }

  /** With distinct ids, the position of an id is the one `MenuIndex` finds. */
  lemma MenuIndexUnique(menus: seq<Menu>, id: string, k: nat)
    requires NoDup(MenuIds(menus)) && k < |menus| && menus[k].id == id
    ensures MenuIndex(menus, id) == k
  {
    var j := MenuIndex(menus, id);
    if j < |menus| {
      assert MenuIds(menus)[j] == MenuIds(menus)[k];
    }
  }

  // ---------------------------------------------------------------------------
  // Linking and unlinking

  /** The uids a Ref stores on an object; a missing attribute reads as []. */
  function RefsAt(refs: map<string, seq<string>>, name: string): seq<string> {
    if name in refs then refs[name] else []
  }

  /** `linkObject` on one list: a uid already present changes nothing;
      otherwise it goes first for `add == "start"`, last otherwise. */
  function Linked(uids: seq<string>, uid: string, atStart: bool): (r: seq<string>)
    ensures uid in r
    ensures forall x :: x in r <==> x in uids || x == uid
    ensures uid in uids ==> r == uids
    ensures uid !in uids ==> r == (if atStart then [uid] + uids else uids + [uid])
    ensures NoDup(uids) ==> NoDup(r)
  {
    if uid in uids then uids
    else
      InsertAtNoDupIf(uids, uid, atStart);
      if atStart then [uid] + uids else uids + [uid]
  }

  lemma InsertAtNoDupIf(uids: seq<string>, uid: string, atStart: bool)
    requires uid !in uids
    ensures NoDup(uids) ==> NoDup(if atStart then [uid] + uids else uids + [uid])
  {
    if NoDup(uids) {
      InsertAtNoDup(uids, if atStart then 0 else |uids|, uid);
      if atStart { assert InsertAt(uids, 0, uid) == [uid] + uids; }
    }
  }

  /** `unlinkObject` on one list: the uid is removed when present. */
  function Unlinked(uids: seq<string>, uid: string): (r: seq<string>)
    ensures uid !in uids ==> r == uids
    ensures uid in uids ==> multiset(r) == multiset(uids) - multiset{uid}
    ensures NoDup(uids) ==> NoDup(r) && uid !in r
  {
    RemoveFirstNoDupIf(uids, uid);
    if uid in uids then
      RemoveFirstMultiset(uids, uid);
      RemoveFirst(uids, uid)
    else uids
  }

  lemma RemoveFirstNoDupIf(uids: seq<string>, uid: string)
    ensures NoDup(uids) ==> NoDup(RemoveFirst(uids, uid)) && uid !in RemoveFirst(uids, uid)
  {
    if NoDup(uids) { RemoveFirstNoDup(uids, uid); }
  }

  /** Linking then unlinking a new uid gives the list back. */
  lemma LinkUnlink(uids: seq<string>, uid: string, atStart: bool)
    requires uid !in uids
    ensures Unlinked(Linked(uids, uid, atStart), uid) == uids
  {
    if !atStart {
      UnlinkLast(uids, uid);
    }
  }

  lemma {:induction false} UnlinkLast(uids: seq<string>, uid: string)
    requires uid !in uids
    ensures RemoveFirst(uids + [uid], uid) == uids
  {
    var s := uids + [uid];
    if uids == [] {
      assert s[1..] == [];
    } else {
      UnlinkLast(uids[1..], uid);
      assert s[0] == uids[0] && s[0] != uid;
      assert s[1..] == uids[1..] + [uid];
      assert RemoveFirst(s, uid) == [s[0]] + RemoveFirst(s[1..], uid);
      assert [uids[0]] + uids[1..] == uids;
    }
  }

  /** An object holding Ref attributes: its uid and, per attribute, the
      list of tied uids. */
  class PersistentObject {
    const uid: string
    var refs: map<string, seq<string>>

    constructor(uid: string)
      ensures this.uid == uid && refs == map[]
    {
      this.uid := uid;
      refs := map[];
    }
  }

  /** Inserts `uid` into one list of `obj`, creating the list when missing. */
  method LinkOne(obj: PersistentObject, name: string, uid: string, atStart: bool)
    modifies obj
    ensures obj.refs == old(obj.refs)[name := Linked(RefsAt(old(obj.refs), name), uid, atStart)]
  {
    var refs := RefsAt(obj.refs, name);
    if uid !in refs {
      if atStart {
        refs := [uid] + refs;
      } else {
        refs := refs + [uid];
      }
    }
    obj.refs := obj.refs[name := refs];
  }

  /** `Ref.linkObject` for one object: links `value` from `obj` and, unless
      this is already the mirrored call, `obj` from `value` through the back
      reference. Without `noSecurity`, a user lacking the write permission
      is refused (Unauthorized) and nothing changes. */
  method LinkObject(f: RefField, obj: PersistentObject, value: PersistentObject, back: bool,
                    noSecurity: bool, mayWrite: bool)
    returns (unauthorized: bool)
    requires f.name != f.backName
    modifies obj, value
    ensures unauthorized <==> !noSecurity && !mayWrite
    ensures unauthorized ==> obj.refs == old(obj.refs) && value.refs == old(value.refs)
    ensures var fwd := Linked(RefsAt(old(obj.refs), f.name), value.uid, EvalAdd(f.add) == AddStart);
      var mirrored := !back && value.uid !in RefsAt(old(obj.refs), f.name);
      var bwd := Linked(RefsAt(old(value.refs), f.backName), obj.uid, EvalAdd(f.backAdd) == AddStart);
      !unauthorized ==>
        (obj != value ==> obj.refs == old(obj.refs)[f.name := fwd]) &&
        (obj != value ==> value.refs == if mirrored then old(value.refs)[f.backName := bwd] else old(value.refs)) &&
        (obj == value ==> obj.refs == if mirrored then old(obj.refs)[f.name := fwd][f.backName := bwd]
                                       else old(obj.refs)[f.name := fwd])
  {
    if !noSecurity && !mayWrite {
      return true;
    }
    unauthorized := false;
    var present := value.uid in RefsAt(obj.refs, f.name);
    LinkOne(obj, f.name, value.uid, EvalAdd(f.add) == AddStart);
    if !present && !back {
      LinkOne(value, f.backName, obj.uid, EvalAdd(f.backAdd) == AddStart);
    }
  }

  /** `Ref.linkObject` for a list of objects: the security check is made
      once, then every object is linked; all of them end up tied, and a list
      free of duplicates stays so. */
  method LinkObjects(f: RefField, obj: PersistentObject, values: seq<PersistentObject>, back: bool,
                     noSecurity: bool, mayWrite: bool)
    returns (unauthorized: bool)
    requires f.name != f.backName
    modifies obj, set v | v in values
    ensures unauthorized <==> !noSecurity && !mayWrite
    ensures unauthorized ==> obj.refs == old(obj.refs)
    ensures !unauthorized && values != [] ==>
      f.name in obj.refs && forall i :: 0 <= i < |values| ==> values[i].uid in obj.refs[f.name]
    ensures !unauthorized ==> forall x :: x in RefsAt(old(obj.refs), f.name) ==> x in RefsAt(obj.refs, f.name)
    ensures !unauthorized && NoDup(RefsAt(old(obj.refs), f.name)) ==> NoDup(RefsAt(obj.refs, f.name))
  {
    if !noSecurity && !mayWrite {
      return true;
    }
    unauthorized := false;
    var i := 0;
    while i < |values|
      invariant 0 <= i <= |values|
      invariant i > 0 ==> f.name in obj.refs
      invariant forall j :: 0 <= j < i ==> values[j].uid in RefsAt(obj.refs, f.name)
      invariant forall x :: x in RefsAt(old(obj.refs), f.name) ==> x in RefsAt(obj.refs, f.name)
      invariant NoDup(RefsAt(old(obj.refs), f.name)) ==> NoDup(RefsAt(obj.refs, f.name))
    {
      var _ := LinkObject(f, obj, values[i], back, true, mayWrite);
      i := i + 1;
    }
  }

  /** `Ref.unlinkObject` for one object: an object with no (or an empty)
      list is left alone; a tied `value` is removed, and `obj` is removed
      from `value`'s back reference unless this is the mirrored call. */
  method UnlinkObject(f: RefField, obj: PersistentObject, value: PersistentObject, back: bool,
                      noSecurity: bool, mayWrite: bool)
    returns (unauthorized: bool)
    requires f.name != f.backName
    modifies obj, value
    ensures unauthorized <==> !noSecurity && !mayWrite
    ensures var present := value.uid in RefsAt(old(obj.refs), f.name);
      var mirrored := present && !back && f.backName in old(value.refs) && old(value.refs)[f.backName] != [];
      var fwd := Unlinked(RefsAt(old(obj.refs), f.name), value.uid);
      var bwd := Unlinked(RefsAt(old(value.refs), f.backName), obj.uid);
      (unauthorized || !present ==> obj.refs == old(obj.refs) && value.refs == old(value.refs)) &&
      (!unauthorized && present && obj != value ==>
         obj.refs == old(obj.refs)[f.name := fwd] &&
         value.refs == if mirrored then old(value.refs)[f.backName := bwd] else old(value.refs)) &&
      (!unauthorized && present && obj == value ==>
         obj.refs == if mirrored then old(obj.refs)[f.name := fwd][f.backName := bwd]
                     else old(obj.refs)[f.name := fwd])
  {
    if !noSecurity && !mayWrite {
      return true;
    }
    unauthorized := false;
    var refs := RefsAt(obj.refs, f.name);
    if refs == [] {
      return;
    }
    if value.uid in refs {
      obj.refs := obj.refs[f.name := RemoveFirst(refs, value.uid)];
      if !back {
        var backRefs := RefsAt(value.refs, f.backName);
        if backRefs != [] && obj.uid in backRefs {
          value.refs := value.refs[f.backName := RemoveFirst(backRefs, obj.uid)];
        }
      }
    }
  }

  // ---------------------------------------------------------------------------
  // Changing the order of tied objects

  /** The number an "index..." move carries, minus one: the text after the
      first '_' read as an integer, -1 when it is not one; without '_' there
      is nothing to read (IndexError). */
  function IndexNumber(move: string): (r: Result<int, string>)
    ensures r.Err? <==> '_' !in move
  {
    var parts := Split(move, '_');
    SplitLength(move, '_');
    CountZero(move, '_');
    if |parts| < 2 then Err("IndexError") else Ok(PositionOf(parts[1]))
  }

  /** The position an index text asks for: its number minus one, -1 when it
      is not a number. */
  function PositionOf(text: string): int {
    match PyInt(text)
    case Some(n) => n - 1
    case None => -1
  }

  lemma {:induction false} CountZero(s: string, c: char)
    ensures Count(s, c) == 0 <==> c !in s
  {
    if s != [] {
      CountZero(s[..|s| - 1], c);
      assert s == s[..|s| - 1] + [s[|s| - 1]];
    }
  }

  /** The new position asked by a move, or an error: an unknown move leaves
      the position unset. */
  function NewIndex(move: string, oldIndex: nat, count: nat): (r: Result<int, string>)
    ensures move == "up" ==> r == Ok(oldIndex - 1)
    ensures move == "down" ==> r == Ok(oldIndex + 1)
    ensures move == "top" ==> r == Ok(0)
    ensures move == "bottom" ==> r == Ok(count - 1)
    ensures move !in {"up", "down", "top", "bottom"} && StartsWith(move, "index") ==> r == IndexNumber(move)
    ensures move !in {"up", "down", "top", "bottom"} && !StartsWith(move, "index") ==> r.Err?
  {
    if move == "up" then Ok(oldIndex - 1)
    else if move == "down" then Ok(oldIndex + 1)
    else if move == "top" then Ok(0)
    else if move == "bottom" then Ok(count - 1)
    else if StartsWith(move, "index") then IndexNumber(move)
    else Err("UnboundLocalError")
  }

  /** "index_<text>" carries the number `text` reads as. */
  lemma IndexNumberOf(text: string)
    requires '_' !in text
    ensures IndexNumber("index_" + text) == Ok(PositionOf(text))
  {
    var move := "index_" + text;
    assert move == "index" + ['_'] + text;
    SplitNoSep("index", '_');
    SplitAppend("index", text, '_');
    assert Split(move, '_') == ["index", text];
  }

  /** "index_N" reads back the number N. */
  lemma IndexMoveNumber(n: nat)
    ensures IndexNumber("index_" + NatToString(n)) == Ok(n - 1)
    ensures StartsWith("index_" + NatToString(n), "index")
    ensures "index_" + NatToString(n) !in {"up", "down", "top", "bottom"}
  {
    var s := NatToString(n);
    var move := "index_" + s;
    NoUnderscoreInNumber(n);
    IndexNumberOf(s);
    PyIntOfNat(n);
    assert move[..5] == "index";
    assert |move| > 6;
  }

  lemma NoUnderscoreInNumber(n: nat)
    ensures '_' !in NatToString(n)
  {
    var s := NatToString(n);
    forall i | 0 <= i < |s| ensures s[i] != '_' { assert IsDigit(s[i]); }
  }

  /** Takes `uid` out and puts it back at position `n` (at the end when `n`
      is past it); a negative position leaves the list as is. */
  function MoveTo(uids: seq<string>, uid: string, n: int): (r: seq<string>)
    requires uid in uids
    ensures multiset(r) == multiset(uids) && |r| == |uids|
    ensures n <= -1 ==> r == uids
    ensures n > -1 ==> r[if n < |uids| - 1 then n else |uids| - 1] == uid
  {
    if n > -1 then
      RemoveFirstMultiset(uids, uid);
      InsertAt(RemoveFirst(uids, uid), n, uid)
    else uids
  }

  /** `Ref.doChangeOrder` on a list of uids: the uid is moved to the position
      the move asks for; an absent uid is a ValueError. */
  function ChangeOrder(uids: seq<string>, uid: string, move: string): (r: Result<seq<string>, string>)
    ensures uid !in uids ==> r.Err?
    ensures r.Ok? ==> multiset(r.value) == multiset(uids) && |r.value| == |uids|
  {
    if uid !in uids then Err("ValueError")
    else
      match NewIndex(move, FirstIndex(uids, uid), |uids|)
      case Err(e) => Err(e)
      case Ok(n) => Ok(MoveTo(uids, uid, n))
  }

  /** Moving keeps the list free of duplicates. */
  lemma ChangeOrderNoDup(uids: seq<string>, uid: string, move: string)
    requires NoDup(uids) && ChangeOrder(uids, uid, move).Ok?
    ensures NoDup(ChangeOrder(uids, uid, move).value)
  {
    var n := NewIndex(move, FirstIndex(uids, uid), |uids|).value;
    if n > -1 {
      RemoveFirstNoDup(uids, uid);
      InsertAtNoDup(RemoveFirst(uids, uid), n, uid);
    }
  }

  /** "top" puts the uid first and "bottom" last. */
  lemma TopBottomPositions(uids: seq<string>, uid: string)
    requires uid in uids
    ensures ChangeOrder(uids, uid, "top").Ok? && ChangeOrder(uids, uid, "top").value[0] == uid
    ensures ChangeOrder(uids, uid, "bottom").Ok? &&
      ChangeOrder(uids, uid, "bottom").value[|uids| - 1] == uid
  {
  }

  /** "up" and "down" move the uid by one place when there is room. */
  lemma UpDownPositions(uids: seq<string>, uid: string)
    requires uid in uids
    ensures var k := FirstIndex(uids, uid);
      k > 0 ==> ChangeOrder(uids, uid, "up").Ok? && ChangeOrder(uids, uid, "up").value[k - 1] == uid
    ensures var k := FirstIndex(uids, uid);
      k + 1 < |uids| ==> ChangeOrder(uids, uid, "down").Ok? && ChangeOrder(uids, uid, "down").value[k + 1] == uid
  {
  }

  /** "index_N" puts the uid at position N-1 (N counting from 1). */
  lemma IndexPosition(uids: seq<string>, uid: string, n: nat)
    requires uid in uids && 1 <= n <= |uids|
    ensures ChangeOrder(uids, uid, "index_" + NatToString(n)).Ok?
    ensures ChangeOrder(uids, uid, "index_" + NatToString(n)).value[n - 1] == uid
  {
    IndexMoveNumber(n);
  }

  /** "up" from the first position changes nothing. */
  lemma UpFromTopNoop(uids: seq<string>, uid: string)
    requires uid in uids && FirstIndex(uids, uid) == 0
    ensures ChangeOrder(uids, uid, "up") == Ok(uids)
  {
  }

  /** "index_0" changes nothing. */
  lemma IndexZeroNoop(uids: seq<string>, uid: string)
    requires uid in uids
    ensures ChangeOrder(uids, uid, "index_0") == Ok(uids)
  {
    IndexMoveNumber(0);
    assert "index_" + NatToString(0) == "index_0";
  }

  /** An index that is not a number changes nothing. */
  lemma IndexNotNumberNoop(uids: seq<string>, uid: string, text: string)
    requires uid in uids
    requires '_' !in text && PyInt(text).None?
    ensures ChangeOrder(uids, uid, "index_" + text) == Ok(uids)
  {
    IndexNumberOf(text);
    var move := "index_" + text;
    assert move[..5] == "index";
    assert |move| > 5 && move[5] == '_';
    assert move !in {"up", "down", "top", "bottom"};
    assert NewIndex(move, FirstIndex(uids, uid), |uids|) == Ok(-1);
  }

  /** `Ref.doChangeOrder` on the object: a missing attribute is an
      AttributeError; otherwise the list is reordered as `ChangeOrder` says. */
  method DoChangeOrder(obj: PersistentObject, name: string, move: string, uid: string)
    returns (err: Option<string>)
    modifies obj
    ensures name !in old(obj.refs) ==> err == Some("AttributeError") && obj.refs == old(obj.refs)
    ensures name in old(obj.refs) ==>
      match ChangeOrder(old(obj.refs)[name], uid, move)
      case Ok(r) => err.None? && obj.refs == old(obj.refs)[name := r]
      case Err(e) => err == Some(e) && obj.refs == old(obj.refs)
  {
    if name !in obj.refs {
      return Some("AttributeError");
    }
    var uids := obj.refs[name];
    if uid !in uids {
      return Some("ValueError");
    }
    var oldIndex := FirstIndex(uids, uid);
    var newIndex := NewIndex(move, oldIndex, |uids|);
    if newIndex.Err? {
      return Some(newIndex.error);
    }
    err := None;
    if newIndex.value > -1 {
      uids := InsertAt(RemoveFirst(uids, uid), newIndex.value, uid);
    }
    obj.refs := obj.refs[name := uids];
  }

  // ---------------------------------------------------------------------------
  // Actions on many tied objects

  /** The uids the request carries: commas around are dropped, and what is
      left is split on ','; nothing left means no uid. */
  function TargetUids(s: string): (r: seq<string>)
    ensures RStrip(LStrip(s, {','}), {','}) == "" <==> r == []
    ensures r != [] ==> Join(r, ",") == RStrip(LStrip(s, {','}), {','})
  {
    var t := RStrip(LStrip(s, {','}), {','});
    if t == "" then []
    else
      SplitJoin(t, ',');
      Split(t, ',')
  }

  /** `onUiRequest`: the objects an action applies to: with "unchecked"
      semantics, those whose uid is not among the checked ones; otherwise
      those whose uid is. */
  function Targets(values: seq<string>, uids: seq<string>, unchecked: bool): (r: seq<string>)
    ensures forall v :: v in r <==> v in values && (if unchecked then v !in uids else v in uids)
    ensures |r| <= |values|
  {
    if values == [] then []
    else
      (if (values[0] in uids) != unchecked then [values[0]] else [])
      + Targets(values[1..], uids, unchecked)
  }

  /** The two semantics split the values between them. */
  lemma {:induction false} TargetsPartition(values: seq<string>, uids: seq<string>)
    ensures |Targets(values, uids, true)| + |Targets(values, uids, false)| == |values|
  {
    if values != [] {
      TargetsPartition(values[1..], uids);
    }
  }

  /** How many targets cannot be deleted. */
  function Failed(targets: seq<string>, mayDelete: string -> bool): (n: nat)
    ensures n <= |targets|
  {
    if targets == [] then 0
    else (if mayDelete(targets[0]) then 0 else 1) + Failed(targets[1..], mayDelete)
  }

  /** The message `onUiRequest` ends with: nothing to do, some deletions
      refused, or done (links and unlinks do not fail). */
  function UiMessage(action: string, targets: seq<string>, mayDelete: string -> bool): (r: string)
    ensures !EndsWith(action, "_many") ==> r == "action_done"
    ensures EndsWith(action, "_many") && targets == [] ==> r == "action_null"
    ensures r == "action_partial" <==>
      EndsWith(action, "_many") && action == "delete_many" && Failed(targets, mayDelete) > 0
  {
    if !EndsWith(action, "_many") then "action_done"
    else if targets == [] then "action_null"
    else if action == "delete_many" && Failed(targets, mayDelete) > 0 then "action_partial"
    else "action_done"
  }
}
