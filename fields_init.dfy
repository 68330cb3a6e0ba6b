/** The base `Field` of fields/__init__.py: multiplicity, visibility rules,
    i18n mappings, catalog index names, master/slave relationships, the CSS
    and Javascript files a widget needs, and storage. */
module Fields {
  import opened Wrappers
  import opened Text
  import opened Lists
  import GenInit
  import GenUtils

  // ---------------------------------------------------------------------------
  // Constructor checks

  /** The `mustIndex` parameter: a boolean-like value or a method. */
  datatype MustIndex = MustIndexFlag(flag: bool) | MustIndexMethod

  /** A falsy `mustIndex` that is not a method makes the constructor raise. */
  function MustIndexError(m: MustIndex): (r: Option<string>)
    ensures r.Some? <==> m == MustIndexFlag(false)
    ensures r.Some? ==> r.value == "Value for param \"mustIndex\" must be a method."
  {
    if m == MustIndexFlag(false) then Some("Value for param \"mustIndex\" must be a method.")
    else None
  }

  // ---------------------------------------------------------------------------
  // Visibility

  /** What `show` evaluates to: a flag (None being false), a sequence of
      layout types, or a string (a layout type name or any other string). */
  datatype ShowValue = ShowFlag(flag: bool) | ShowLayouts(layouts: seq<string>) | ShowName(name: string)

  /** Layout types `show` may name directly. */
  const NAMED_LAYOUTS: set<string> := {"view", "edit", "result", "buttons", "xml"}

  /** The permission checked for a layout: the write one on "edit", else the
      read one. */
  function PermissionFor(layoutType: string, readPermission: string, writePermission: string): (p: string)
    ensures layoutType == "edit" ==> p == writePermission
    ensures layoutType != "edit" ==> p == readPermission
  {
    if layoutType == "edit" then writePermission else readPermission
  }

  /** `Field.isShowable`, `show` being given already evaluated (a method
      `show` is called by the caller) and `allows` standing for the user's
      permissions on the object. */
  function IsShowable(allows: string -> bool, readPermission: string, writePermission: string,
                      show: ShowValue, layoutType: string): (r: bool)
    ensures !allows(PermissionFor(layoutType, readPermission, writePermission)) ==> !r
    ensures allows(PermissionFor(layoutType, readPermission, writePermission)) ==>
      match show
      case ShowLayouts(ls) => r <==> layoutType in ls
      case ShowName(s) =>
        if s in NAMED_LAYOUTS then r <==> s == layoutType
        else r <==> layoutType != "buttons" && s != ""
      case ShowFlag(b) => r <==> layoutType != "buttons" && b
  {
    if !allows(PermissionFor(layoutType, readPermission, writePermission)) then false
    else
      match show
      case ShowLayouts(ls) => layoutType in ls
      case ShowName(s) =>
        if s in NAMED_LAYOUTS then s == layoutType
        else layoutType != "buttons" && s != ""
      case ShowFlag(b) => layoutType != "buttons" && b
  }

  /** A field appears on the "buttons" layout only when `show` names that
      layout explicitly, alone or in a sequence. */
  lemma ButtonsNeedExplicitMention(allows: string -> bool, readPermission: string,
                                   writePermission: string, show: ShowValue)
    ensures IsShowable(allows, readPermission, writePermission, show, "buttons") <==>
      allows(readPermission) &&
      (show == ShowName("buttons") || (show.ShowLayouts? && "buttons" in show.layouts))
  {
  }

  /** A field shown on one named layout is hidden on every other layout. */
  lemma NamedLayoutExclusive(allows: string -> bool, readPermission: string, writePermission: string,
                             s: string, layoutType: string)
    requires s in NAMED_LAYOUTS && layoutType != s
    ensures !IsShowable(allows, readPermission, writePermission, ShowName(s), layoutType)
  {
  }

  // ---------------------------------------------------------------------------
  // Translation mappings

  /** The mapping parameter: a string, a dict (possibly of dicts), a method,
      or None. */
  datatype MappingValue =
    | MapStr(s: string)
    | MapDict(entries: map<string, MappingValue>)
    | MapMethod
    | MapNone

  const LABEL_TYPES: set<string> := {"label", "descr", "help"}

  /** True when the dict is a mapping in itself (a key that is no label type,
      or a string value), rather than one mapping per label type. */
  predicate IsDirectMapping(d: map<string, MappingValue>) {
    exists k :: k in d && (k !in LABEL_TYPES || d[k].MapStr?)
  }

  /** `Field.formatMapping`: one entry per label type. A dict keyed only by
      label types with non-string values is kept and completed with None; any
      other value is the mapping of all three label types. */
  function FormatMapping(mapping: MappingValue): (r: map<string, MappingValue>)
    ensures r.Keys == LABEL_TYPES
    ensures !(mapping.MapDict? && !IsDirectMapping(mapping.entries)) ==>
      forall t :: t in LABEL_TYPES ==> r[t] == mapping
    ensures mapping.MapDict? && !IsDirectMapping(mapping.entries) ==>
      forall t :: t in LABEL_TYPES ==>
        r[t] == if t in mapping.entries then mapping.entries[t] else MapNone
  {
    if mapping.MapDict? && !IsDirectMapping(mapping.entries) then
      map t | t in LABEL_TYPES :: if t in mapping.entries then mapping.entries[t] else MapNone
    else
      map t | t in LABEL_TYPES :: mapping
  }

  /** Formatting an already formatted per-label-type mapping changes nothing
      when none of its entries is a string. */
  lemma FormatMappingIdempotent(mapping: MappingValue)
    requires mapping.MapDict? && !IsDirectMapping(mapping.entries)
    ensures FormatMapping(MapDict(FormatMapping(mapping))) == FormatMapping(mapping)
  {
    var f := FormatMapping(mapping);
    assert !IsDirectMapping(f) by {
      forall k | k in f ensures k in LABEL_TYPES && !f[k].MapStr? {
        assert k in mapping.entries ==> !mapping.entries[k].MapStr?;
      }
    }
  }

  // ---------------------------------------------------------------------------
  // Catalog index names

  /** `Field.getIndexName` for a named field: "Title"/"SortableTitle" for
      the title, "State" and "SearchableText" as is, else "get" followed by
      the capitalised name, with "_sort" for sorting on a field having a
      sort index of its own. */
  function IndexName(name: string, sort: bool, hasSortIndex: bool): (r: string)
    requires name != ""
    ensures name == "title" ==> r == (if sort then "SortableTitle" else "Title")
    ensures name == "state" ==> r == "State"
    ensures name == "SearchableText" ==> r == "SearchableText"
    ensures name !in {"title", "state", "SearchableText"} ==>
      |r| == |name| + 3 + (if sort && hasSortIndex then 5 else 0) &&
      r[..3] == "get" && r[3] == ToUpperChar(name[0]) && r[4..|name| + 3] == name[1..] &&
      r[|name| + 3..] == (if sort && hasSortIndex then "_sort" else "")
  {
    if name == "title" then (if sort then "SortableTitle" else "Title")
    else if name == "state" then "State"
    else if name == "SearchableText" then "SearchableText"
    else
      var res := "get" + [ToUpperChar(name[0])] + name[1..];
      if sort && hasSortIndex then res + "_sort" else res
  }

  /** Two ordinary fields whose names start with a lower-case letter never
      share an index. */
  lemma IndexNameInjective(n1: string, n2: string, sort: bool, hasSortIndex: bool)
    requires n1 != "" && n2 != "" && IsLower(n1[0]) && IsLower(n2[0])
    requires n1 !in {"title", "state", "SearchableText"} && n2 !in {"title", "state", "SearchableText"}
    requires IndexName(n1, sort, hasSortIndex) == IndexName(n2, sort, hasSortIndex)
    ensures n1 == n2
  {
    var r := IndexName(n1, sort, hasSortIndex);
    assert |n1| == |n2|;
    assert ToUpperChar(n1[0]) == ToUpperChar(n2[0]) == r[3];
    assert n1[0] == n2[0];
    assert n1[1..] == r[4..|n1| + 3] == n2[1..];
    assert n1 == [n1[0]] + n1[1..] && n2 == [n2[0]] + n2[1..];
  }

  // ---------------------------------------------------------------------------
  // Master and slave fields

  /** The master value of a slave: the list of master values that show it,
      or a method computing the slave's values. */
  datatype SlaveValue = MasterValues(values: seq<string>) | MasterMethod

  /** `Field.getSlaveCss`: '' without a master, else "slave*<master>*"
      followed by the values joined with '*', or '+' for a method. */
  function SlaveCss(masterName: Option<string>, masterValue: SlaveValue): (r: string)
    ensures masterName.None? <==> r == ""
    ensures masterName.Some? ==> StartsWith(r, "slave*" + masterName.value + "*")
  {
    if masterName.None? then ""
    else
      "slave*" + masterName.value + "*" +
      (if masterValue.MasterMethod? then "+" else Join(masterValue.values, "*"))
  }

  /** Reading a slave CSS class back: the master name and the values. */
  function ParseSlaveCss(css: string): (r: Option<(string, seq<string>)>)
    ensures r.Some? ==> StartsWith(css, "slave*")
  {
    var parts := Split(css, '*');
    if |parts| >= 2 && parts[0] == "slave" then
      JoinSplitHead(css);
      Some((parts[1], parts[2..]))
    else None
  }

  lemma JoinSplitHead(css: string)
    requires var parts := Split(css, '*'); |parts| >= 2 && parts[0] == "slave"
    ensures StartsWith(css, "slave*")
  {
    var parts := Split(css, '*');
    SplitJoin(css, '*');
    JoinPrepend(parts[0], parts[1..], "*");
    assert [parts[0]] + parts[1..] == parts;
  }

  /** Joining a head to a non-empty tail puts the separator between them. */
  lemma {:induction false} JoinPrepend(x: string, ps: seq<string>, sep: string)
    requires ps != []
    ensures Join([x] + ps, sep) == x + sep + Join(ps, sep)
    decreases |ps|
  {
    if |ps| > 1 {
      var front := ps[..|ps| - 1];
      JoinPrepend(x, front, sep);
      assert ([x] + ps)[..|ps|] == [x] + front;
    }
  }

  /** The CSS class of a slave with values is the '*'-join of "slave", the
      master name and the values. */
  lemma SlaveCssJoined(masterName: string, values: seq<string>)
    requires values != []
    ensures SlaveCss(Some(masterName), MasterValues(values)) == Join(["slave", masterName] + values, "*")
  {
    JoinHeads("slave", masterName, values, "*");
    assert "slave" + "*" == "slave*";
  }

  /** Joining two heads to a non-empty tail. */
  lemma JoinHeads(a: string, b: string, values: seq<string>, sep: string)
    requires values != []
    ensures Join([a, b] + values, sep) == a + sep + b + sep + Join(values, sep)
  {
    var rest := Join(values, sep);
    JoinPrepend(b, values, sep);
    JoinPrepend(a, [b] + values, sep);
    assert [a] + ([b] + values) == [a, b] + values;
    ConcatAssoc(a + sep, b + sep, rest);
    ConcatAssoc(a + sep, b, sep);
  }

  /** The CSS class of a slave gives its master and master values back,
      provided none contains '*' and there is at least one value. */
  lemma SlaveCssRoundTrip(masterName: string, values: seq<string>)
    requires '*' !in masterName && values != []
    requires forall i :: 0 <= i < |values| ==> '*' !in values[i]
    ensures ParseSlaveCss(SlaveCss(Some(masterName), MasterValues(values))) == Some((masterName, values))
  {
    var parts := ["slave", masterName] + values;
    SlaveCssJoined(masterName, values);
    assert '*' !in "slave";
    HeadsAvoid("slave", masterName, values, '*');
    JoinSplit(parts, '*');
    assert parts[2..] == values;
  }

  /** No part of two heads and a tail holds `c` when none of them does. */
  lemma HeadsAvoid(a: string, b: string, values: seq<string>, c: char)
    requires c !in a && c !in b && forall i :: 0 <= i < |values| ==> c !in values[i]
    ensures forall i :: 0 <= i < |[a, b] + values| ==> c !in ([a, b] + values)[i]
  {
    var parts := [a, b] + values;
    forall i | 0 <= i < |parts| ensures c !in parts[i] {
      if i >= 2 { assert parts[i] == values[i - 2]; }
    }
  }

  /** The label of a field: none, a translation prefix, or a pair of an
      optional prefix and an optional name. */
  datatype Label = NoLabel | PrefixLabel(prefix: string) | PairLabel(first: Option<string>, second: Option<string>)

  /** A specific permission: none (or False), True, or a named permission. */
  datatype SpecificPermission = NoSpecific | GeneratedPermission | NamedPermission(perm: string)

  /** The read or write permission `init` derives: a generated name for True,
      the named permission when it is a non-empty string, else the default. */
  function DerivedPermission(sp: SpecificPermission, kind: string, default: string,
                             appName: string, prefix: string, name: string): (r: string)
    ensures sp.GeneratedPermission? ==> r == appName + ": " + kind + " " + prefix + " " + name
    ensures sp.NamedPermission? && sp.perm != "" ==> r == sp.perm
    ensures sp.NoSpecific? || sp == NamedPermission("") ==> r == default
  {
    match sp
    case GeneratedPermission => appName + ": " + kind + " " + prefix + " " + name
    case NamedPermission(p) => if p != "" then p else default
    case NoSpecific => default
  }

  /** The i18n label id `init` derives: "<prefix>_<name>", both parts being
      overridable by the field's label. */
  function LabelId(lbl: Label, prefix: string, name: string): (r: string)
    ensures lbl.NoLabel? ==> r == prefix + "_" + name
    ensures lbl.PrefixLabel? ==> r == (if lbl.prefix != "" then lbl.prefix else prefix) + "_" + name
    ensures lbl.PairLabel? ==>
      r == (if lbl.first.Some? && lbl.first.value != "" then lbl.first.value else prefix)
           + "_" + (if lbl.second.Some? && lbl.second.value != "" then lbl.second.value else name)
  {
    var labelName :=
      if lbl.PairLabel? && lbl.second.Some? && lbl.second.value != "" then lbl.second.value else name;
    var trPrefix :=
      match lbl
      case NoLabel => prefix
      case PrefixLabel(p) => if p != "" then p else prefix
      case PairLabel(f, _) => if f.Some? && f.value != "" then f.value else prefix;
    trPrefix + "_" + labelName
  }

  /** The settings a field is declared with, as they were before the call. */
  twostate predicate KeptSettings(f: Field)
    reads f
  {
    f.multiplicity == old(f.multiplicity) && f.required == old(f.required) && f.show == old(f.show) &&
    f.persist == old(f.persist) && f.maxChars == old(f.maxChars) && f.colspan == old(f.colspan) &&
    f.mapping == old(f.mapping) && f.fieldLabel == old(f.fieldLabel) &&
    f.specificReadPermission == old(f.specificReadPermission) &&
    f.specificWritePermission == old(f.specificWritePermission)
  }

  /** Everything of a field but its master/slave links, as it was before
      the call. */
  twostate predicate KeptButLinks(f: Field)
    reads f
  {
    KeptSettings(f) && f.name == old(f.name) && f.labelId == old(f.labelId) && f.descrId == old(f.descrId) &&
    f.helpId == old(f.helpId) && f.readPermission == old(f.readPermission) &&
    f.writePermission == old(f.writePermission)
  }

  /** The loop of `Field.init` that gives every slave its master's name;
      nothing else of the slaves changes. */
  method NameMaster(slaves: seq<Field>, n: string)
    modifies slaves
    ensures forall i :: 0 <= i < |slaves| ==> slaves[i].masterName == Some(n)
    ensures forall s | s in slaves ::
      KeptButLinks(s) && s.master == old(s.master) && s.masterValue == old(s.masterValue) && s.slaves == old(s.slaves)
  {
    var i := 0;
    while i < |slaves|
      invariant 0 <= i <= |slaves|
      invariant forall j :: 0 <= j < i ==> slaves[j].masterName == Some(n)
      invariant forall s | s in slaves ::
        KeptButLinks(s) && s.master == old(s.master) && s.masterValue == old(s.masterValue) && s.slaves == old(s.slaves)
    {
      slaves[i].masterName := Some(n);
      i := i + 1;
    }
  }

  /** A field definition, as far as the rules above use it. */
  class Field {
    var name: Option<string>
    var multiplicity: GenInit.Multiplicity
    var required: bool
    var show: ShowValue
    var persist: bool
    var maxChars: Option<nat>
    var colspan: nat
    var mapping: map<string, MappingValue>
    var fieldLabel: Label
    var labelId: string
    var descrId: string
    var helpId: string
    var specificReadPermission: SpecificPermission
    var specificWritePermission: SpecificPermission
    var readPermission: string
    var writePermission: string
    var master: Field?
    var masterName: Option<string>
    var masterValue: SlaveValue
    var slaves: seq<Field>

    /** `Field.__init__`: `required` follows the multiplicity, a missing
        colspan is 1, the mapping is formatted, and a field with a master
        registers itself among the master's slaves. A falsy non-method
        `mustIndex` is refused (`MustIndexError`). */
    constructor(multiplicity: GenInit.Multiplicity, show: ShowValue, mustIndex: MustIndex,
                maxChars: Option<nat>, colspan: nat, master: Field?, masterValue: SlaveValue,
                mapping: MappingValue, fieldLabel: Label, specificReadPermission: SpecificPermission,
                specificWritePermission: SpecificPermission, persist: bool)
      requires MustIndexError(mustIndex).None?
      modifies master
      ensures this.name.None? && this.multiplicity == multiplicity
      ensures required <==> GenInit.IsRequired(multiplicity)
      ensures this.show == show && this.persist == persist && this.maxChars == maxChars
      ensures this.colspan == (if colspan == 0 then 1 else colspan)
      ensures this.mapping == FormatMapping(mapping)
      ensures this.fieldLabel == fieldLabel
      ensures this.specificReadPermission == specificReadPermission
      ensures this.specificWritePermission == specificWritePermission
      ensures this.master == master && this.masterValue == masterValue && this.masterName.None?
      ensures slaves == []
      ensures master != null ==> master.slaves == old(master.slaves) + [this]
      ensures master != null && NoDup(old(master.slaves)) ==> NoDup(master.slaves)
    {
      this.name := None;
      this.multiplicity := multiplicity;
      this.required := multiplicity.min > 0;
      this.show := show;
      this.persist := persist;
      this.maxChars := maxChars;
      this.colspan := if colspan == 0 then 1 else colspan;
      this.mapping := FormatMapping(mapping);
      this.fieldLabel := fieldLabel;
      this.labelId := "";
      this.descrId := "";
      this.helpId := "";
      this.specificReadPermission := specificReadPermission;
      this.specificWritePermission := specificWritePermission;
      this.readPermission := "";
      this.writePermission := "";
      this.master := master;
      this.masterName := None;
      this.masterValue := masterValue;
      this.slaves := [];
      new;
      if master != null {
        master.slaves := master.slaves + [this];
      }
    }

    /** `Field.isMultiValued`. */
    function IsMultiValued(): (r: bool)
      reads this
      ensures r <==> multiplicity.max.None? || multiplicity.max.value > 1
    {
      GenInit.IsMultiValued(multiplicity)
    }

    /** `Field.init`: on its first call, names the field, derives its i18n
        ids and permissions and tells every slave its master's name; later
        calls change nothing. Nothing else of the field or its slaves moves. */
    method Init(n: string, prefix: string, appName: string)
      modifies this, slaves
      ensures old(name).Some? ==> unchanged(this) && forall s | s in slaves :: unchanged(s)
      ensures old(name).None? ==> name == Some(n)
      ensures old(name).None? ==>
        labelId == LabelId(fieldLabel, prefix, n) && descrId == labelId + "_descr" && helpId == labelId + "_help"
      ensures old(name).None? ==>
        readPermission == DerivedPermission(specificReadPermission, "Read", "read", appName, prefix, n) &&
        writePermission == DerivedPermission(specificWritePermission, "Write", "write", appName, prefix, n)
      ensures KeptSettings(this) && slaves == old(slaves)
      ensures master == old(master) && masterValue == old(masterValue)
      ensures this !in slaves ==> masterName == old(masterName)
      ensures old(name).None? ==> forall i :: 0 <= i < |slaves| ==> slaves[i].masterName == Some(n)
      ensures forall s | s in slaves && s != this ::
        KeptButLinks(s) && s.master == old(s.master) && s.masterValue == old(s.masterValue) && s.slaves == old(s.slaves)
    {
      if name.Some? { return; }
      NameMaster(slaves, n);
      var id := LabelId(fieldLabel, prefix, n);
      var read := DerivedPermission(specificReadPermission, "Read", "read", appName, prefix, n);
      var write := DerivedPermission(specificWritePermission, "Write", "write", appName, prefix, n);
      var descr, help := id + "_descr", id + "_help";
      Name(n, id, descr, help);
      Permit(read, write);
    }

    /** The part of `Field.init` that names the field and stores the i18n
        ids derived from the name. */
    method Name(n: string, id: string, descr: string, help: string)
      modifies this
      ensures name == Some(n) && labelId == id && descrId == descr && helpId == help
      ensures readPermission == old(readPermission) && writePermission == old(writePermission)
      ensures KeptSettings(this) && slaves == old(slaves)
      ensures master == old(master) && masterValue == old(masterValue) && masterName == old(masterName)
    {
      name := Some(n);
      labelId := id;
      descrId := descr;
      helpId := help;
    }

    /** The part of `Field.init` that stores the permissions derived from
        the name. */
    method Permit(read: string, write: string)
      modifies this
      ensures readPermission == read && writePermission == write
      ensures name == old(name) && labelId == old(labelId) && descrId == old(descrId) && helpId == old(helpId)
      ensures KeptSettings(this) && slaves == old(slaves)
      ensures master == old(master) && masterValue == old(masterValue) && masterName == old(masterName)
    {
      readPermission := read;
      writePermission := write;
    }

    /** `Field.setSlave`: makes `slave` a slave of this field, adding it to
        the slaves at most once; the rest of both fields is left as it was. */
    method SetSlave(slave: Field, masterValue: SlaveValue)
      modifies this, slave
      ensures slave.master == this && slave.masterValue == masterValue
      ensures slave.masterName == name
      ensures slaves == if slave in old(slaves) then old(slaves) else old(slaves) + [slave]
      ensures NoDup(old(slaves)) ==> NoDup(slaves)
      ensures slave in slaves
      ensures KeptButLinks(this) && KeptButLinks(slave)
      ensures slave != this ==>
        master == old(master) && this.masterValue == old(this.masterValue) && masterName == old(masterName)
      ensures slave != this ==> slave.slaves == old(slave.slaves)
    {
      var kept, ownName := slaves, name;
      var grown := if slave in kept then kept else kept + [slave];
      slave.Follow(this, masterValue, ownName);
      slaves := grown;
    }

    /** The part of `Field.setSlave` that links this field to its master. */
    method Follow(m: Field, v: SlaveValue, n: Option<string>)
      modifies this
      ensures master == m && masterValue == v && masterName == n
      ensures KeptButLinks(this) && slaves == old(slaves)
    {
      master := m;
      masterValue := v;
      masterName := n;
    }

    /** `Field.store`: writes the value on the object only for a persistent
        field. */
    method Store(obj: GenInit.StoredObject, value: GenInit.StringValue)
      requires name.Some?
      modifies obj
      ensures persist ==> obj.attrs == old(obj.attrs)[name.value := value]
      ensures !persist ==> obj.attrs == old(obj.attrs)
    {
      if persist {
        obj.attrs := obj.attrs[name.value := value];
      }
    }
  }

  // ---------------------------------------------------------------------------
  // CSS and Javascript files

  /** `Field.getCss` and `Field.getJs`: completes `res` with the files the
      widget needs on `layoutType`, skipping those already there. */
  method AddRequiredFiles(files: map<string, seq<string>>, layoutType: string, res: seq<string>)
    returns (r: seq<string>)
    ensures layoutType !in files ==> r == res
    ensures layoutType in files ==> r == GenUtils.Merged(res, files[layoutType], true)
    ensures |res| <= |r| && r[..|res|] == res
    ensures forall f :: f in r <==> f in res || (layoutType in files && f in files[layoutType])
    ensures NoDup(res) ==> NoDup(r)
  {
    r := res;
    if layoutType in files {
      var names := files[layoutType];
      var i := 0;
      while i < |names|
        invariant 0 <= i <= |names|
        invariant r == GenUtils.Merged(res, names[..i], true)
      {
        assert names[..i + 1][..i] == names[..i];
        if names[i] !in r {
          r := r + [names[i]];
        }
        i := i + 1;
      }
      assert names[..|names|] == names;
      GenUtils.MergedAppendPrefix(res, names);
      GenUtils.MergedContents(res, names, true);
      if NoDup(res) { GenUtils.MergedNoDup(res, names, true); }
    }
  }
}
