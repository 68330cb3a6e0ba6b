/** Master and slave widgets in the browser (gen/ui/appy.js for the ui skin,
    gen/plone25/skin/appy.js for the Plone skin): a slave table is shown
    only while its master holds one of the values the slave waits for. */
module Slaves {
  import opened Wrappers
  import Text
  import Fields

  // ---------------------------------------------------------------------
  // JavaScript string operations the scripts rely on

  function Clamp(x: int, len: nat): (r: nat)
    ensures r <= len
  {
    if x < 0 then 0 else if x > len then len else x
  }

  /** `s.substring(start, end)`: both ends clamped to the string, and
      swapped when the end comes first. */
  function JsSubstring(s: string, start: int, end: int): (r: string)
    ensures |r| <= |s|
  {
    var a, b := Clamp(start, |s|), Clamp(end, |s|);
    if a <= b then s[a..b] else s[b..a]
  }

  /** `s.replace(' ', '')`: only the first space goes. */
  function RemoveFirstSpace(s: string): string {
    var i := Text.IndexOf(s, ' ');
    if i < |s| then s[..i] + s[i + 1..] else s
  }

  /** A quoted value without its quotes: `v.substring(1, v.length-1)`. */
  function Unquote(v: string): string {
    JsSubstring(v, 1, |v| - 1)
  }

  /** The values of a master written as a list, `(...)` or `[...]`: the
      comma-separated pieces, each without its first space and its quotes. */
  function ListValues(s: string): (r: seq<string>)
    ensures |r| == |Text.Split(JsSubstring(s, 1, |s| - 1), ',')|
  {
    var pieces := Text.Split(JsSubstring(s, 1, |s| - 1), ',');
    seq(|pieces|, k requires 0 <= k < |pieces| => Unquote(RemoveFirstSpace(pieces[k])))
  }

  predicate IsList(s: string) {
    |s| > 0 && (s[0] == '(' || s[0] == '[')
  }

  /** The values a text input or a SPAN id holds: a list is split, anything
      else is one value. */
  function MasterValueList(s: string): seq<string> {
    if IsList(s) then ListValues(s) else [s]
  }

  /** How Python writes a list of strings. */
  function Quoted(vals: seq<string>): (r: seq<string>)
    ensures |r| == |vals|
  {
    seq(|vals|, i requires 0 <= i < |vals| => "'" + vals[i] + "'")
  }

  function ListRepr(vals: seq<string>): string {
    "[" + Text.Join(Quoted(vals), ", ") + "]"
  }

  /** The pieces of a ", " join as a "," split sees them. */
  function Spaced(q: seq<string>): (r: seq<string>)
    ensures |r| == |q|
  {
    seq(|q|, i requires 0 <= i < |q| => if i == 0 then q[0] else " " + q[i])
  }

  lemma {:induction false} JoinSpaced(q: seq<string>)
    ensures Text.Join(q, ", ") == Text.Join(Spaced(q), ",")
    decreases |q|
  {
    if |q| > 1 {
      var front := q[..|q| - 1];
      JoinSpaced(front);
      assert Spaced(q)[..|q| - 1] == Spaced(front);
      var a := Text.Join(front, ", ");
      var x := q[|q| - 1];
      assert a + ", " + x == a + "," + (" " + x);
    }
  }

  /** One piece of the split: the quotes go, and so does the space that
      follows a comma. */
  lemma PieceValue(v: string, spaced: bool)
    requires ' ' !in v
    ensures Unquote(RemoveFirstSpace((if spaced then " " else "") + ("'" + v + "'"))) == v
  {
    var q := "'" + v + "'";
    assert ' ' !in q;
    if spaced {
      var p := " " + q;
      assert Text.IndexOf(p, ' ') == 0;
      assert p[1..] == q;
    }
    assert q[1..|q| - 1] == v;
  }

  /** A list of values written the Python way reads back as those values,
      when none holds a comma or a space. */
  lemma ListRoundTrip(vals: seq<string>)
    requires |vals| > 0
    requires forall i :: 0 <= i < |vals| ==> ',' !in vals[i] && ' ' !in vals[i]
    ensures MasterValueList(ListRepr(vals)) == vals
  {
    var s := ListRepr(vals);
    var q := Quoted(vals);
    var sp := Spaced(q);
    ListPieces(vals);
    assert IsList(s);
    var r := MasterValueList(s);
    assert |r| == |vals|;
    forall k | 0 <= k < |vals| ensures r[k] == vals[k] {
      if k == 0 {
        PieceValue(vals[0], false);
        assert "" + q[0] == q[0];
      } else {
        PieceValue(vals[k], true);
      }
    }
  }

  /** The `,` split of the inside of a written list gives the quoted values,
      each after the first preceded by a space. */
  lemma ListPieces(vals: seq<string>)
    requires |vals| > 0
    requires forall i :: 0 <= i < |vals| ==> ',' !in vals[i]
    ensures var s := ListRepr(vals);
      Text.Split(JsSubstring(s, 1, |s| - 1), ',') == Spaced(Quoted(vals))
  {
    var q := Quoted(vals);
    var j := Text.Join(q, ", ");
    var s := ListRepr(vals);
    assert s[1..|s| - 1] == j;
    JoinSpaced(q);
    var sp := Spaced(q);
    forall k | 0 <= k < |sp| ensures ',' !in sp[k] {
      assert ',' !in q[k];
    }
    Text.JoinSplit(sp, ',');
  }

  // ---------------------------------------------------------------------
  // Masters

  datatype SelectOption = SelectOption(value: string, selected: bool)

  /** A master widget: a text input, a checkbox or a select list. */
  datatype Master = TextInput(value: string) | Checkbox(checked: bool) | Select(options: seq<SelectOption>)

  /** `checked + ''` with its first letter upper-cased. */
  function CheckboxValue(checked: bool): string {
    if checked then "True" else "False"
  }

  /** The values of the selected options, in order. */
  function SelectedValues(options: seq<SelectOption>): seq<string> {
    if options == [] then []
    else
      var last := options[|options| - 1];
      SelectedValues(options[..|options| - 1]) + (if last.selected then [last.value] else [])
  }

  lemma {:induction false} SelectedMembers(options: seq<SelectOption>, v: string)
    ensures v in SelectedValues(options) <==> exists i :: 0 <= i < |options| && options[i].selected && options[i].value == v
  {
    if options != [] {
      var front := options[..|options| - 1];
      SelectedMembers(front, v);
      if v in SelectedValues(front) {
        var i :| 0 <= i < |front| && front[i].selected && front[i].value == v;
        assert options[i] == front[i];
      }
      if exists i :: 0 <= i < |options| && options[i].selected && options[i].value == v {
        var i :| 0 <= i < |options| && options[i].selected && options[i].value == v;
        if i < |front| {
          assert front[i] == options[i];
        }
      }
    }
  }

  /** `getMasterValues(master)` of the ui skin. */
  function MasterValues(master: Master): seq<string> {
    match master
    case TextInput(value) => MasterValueList(value)
    case Checkbox(checked) => [CheckboxValue(checked)]
    case Select(options) => SelectedValues(options)
  }

  /** A checkbox yields its state; a select yields exactly its selected
      values. */
  lemma MasterValuesMeaning(master: Master, v: string)
    ensures master.Checkbox? ==> MasterValues(master) == [if master.checked then "True" else "False"]
    ensures master.Select? ==> (v in MasterValues(master) <==>
      exists i :: 0 <= i < |master.options| && master.options[i].selected && master.options[i].value == v)
  {
    if master.Select? {
      SelectedMembers(master.options, v);
    }
  }

  method GetSelected(options: seq<SelectOption>) returns (values: seq<string>)
    ensures values == SelectedValues(options)
  {
    values := [];
    var i := 0;
    while i < |options|
      invariant 0 <= i <= |options|
      invariant values == SelectedValues(options[..i])
    {
      assert options[..i + 1][..i] == options[..i];
      if options[i].selected {
        values := values + [options[i].value];
      }
      i := i + 1;
    }
    assert options[..|options|] == options;
  }

  /** The loop that splits a list value. */
  method SplitList(s: string) returns (values: seq<string>)
    requires IsList(s)
    ensures values == MasterValueList(s)
  {
    var pieces := Text.Split(JsSubstring(s, 1, |s| - 1), ',');
    values := [];
    var i := 0;
    while i < |pieces|
      invariant 0 <= i <= |pieces|
      invariant values == ListValues(s)[..i]
    {
      var v := RemoveFirstSpace(pieces[i]);
      values := values + [Unquote(v)];
      i := i + 1;
    }
  }

  /** `getMasterValues(master)`. */
  method GetMasterValues(master: Master) returns (values: seq<string>)
    ensures values == MasterValues(master)
  {
    match master
    case TextInput(value) =>
      if IsList(value) {
        values := SplitList(value);
      } else {
        values := [value];
      }
    case Checkbox(checked) =>
      values := [CheckboxValue(checked)];
    case Select(options) =>
      values := GetSelected(options);
  }

  // ---------------------------------------------------------------------
  // Slaves of the ui skin

  /** The first class of `classes`, from `j` on, that starts with `prefix`. */
  function FirstWithPrefix(classes: seq<string>, prefix: string, j: nat): (r: Option<string>)
    ensures r.Some? ==> Text.StartsWith(r.value, prefix)
    decreases |classes| - j
  {
    if j >= |classes| then None
    else if Text.StartsWith(classes[j], prefix) then Some(classes[j])
    else FirstWithPrefix(classes, prefix, j + 1)
  }

  /** `getSlaveInfo` as written: the first class starting with `slave_`,
      split on `_` into master name and master values. */
  function SlaveInfoAsWritten(className: string): Option<(string, seq<string>)> {
    match FirstWithPrefix(Text.Split(className, ' '), "slave_", 0)
    case None => None
    case Some(c) =>
      var parts := Text.Split(c, '_');
      if |parts| >= 2 then Some((parts[1], parts[2..])) else None
  }

  lemma {:induction false} NoPrefixFound(classes: seq<string>, prefix: string, j: nat)
    requires forall k :: j <= k < |classes| ==> !Text.StartsWith(classes[k], prefix)
    ensures FirstWithPrefix(classes, prefix, j) == None
    decreases |classes| - j
  {
    if j < |classes| {
      NoPrefixFound(classes, prefix, j + 1);
    }
  }

  /** The class a slave field carries (`Field.getSlaveCss`) starts with
      `slave*`, so the script as written finds no slave information in it:
      `updateSlaves` then fails on an undefined list. */
  lemma SlaveCssUnread(masterName: string, values: seq<string>)
    requires ' ' !in masterName && forall i :: 0 <= i < |values| ==> ' ' !in values[i]
    ensures SlaveInfoAsWritten(Fields.SlaveCss(Some(masterName), Fields.MasterValues(values))) == None
  {
    var css := Fields.SlaveCss(Some(masterName), Fields.MasterValues(values));
    NoSpaceInCss(masterName, values);
    Text.SplitNoSep(css, ' ');
    assert css[5] == '*';
    NoPrefixFound([css], "slave_", 0);
  }

  /** `getSlaveInfo`, reading the class `Field.getSlaveCss` writes: the first
      class starting with `slave*`, split on `*`. */
  function SlaveInfo(className: string): Option<(string, seq<string>)> {
    match FirstWithPrefix(Text.Split(className, ' '), "slave*", 0)
    case None => None
    case Some(c) => Fields.ParseSlaveCss(c)
  }

  /** The slave information read from a slave's class is the master name
      and values the class was written with. */
  lemma SlaveInfoRoundTrip(masterName: string, values: seq<string>)
    requires '*' !in masterName && ' ' !in masterName && values != []
    requires forall i :: 0 <= i < |values| ==> '*' !in values[i] && ' ' !in values[i]
    ensures SlaveInfo(Fields.SlaveCss(Some(masterName), Fields.MasterValues(values))) == Some((masterName, values))
  {
    var css := Fields.SlaveCss(Some(masterName), Fields.MasterValues(values));
    NoSpaceInCss(masterName, values);
    Text.SplitNoSep(css, ' ');
    Fields.SlaveCssRoundTrip(masterName, values);
  }

  lemma {:induction false} NoSpaceJoin(values: seq<string>)
    requires forall i :: 0 <= i < |values| ==> ' ' !in values[i]
    ensures ' ' !in Text.Join(values, "*")
    decreases |values|
  {
    if |values| > 1 {
      NoSpaceJoin(values[..|values| - 1]);
    }
  }

  lemma NoSpaceInCss(masterName: string, values: seq<string>)
    requires ' ' !in masterName
    requires forall i :: 0 <= i < |values| ==> ' ' !in values[i]
    ensures ' ' !in Fields.SlaveCss(Some(masterName), Fields.MasterValues(values))
  {
    NoSpaceJoin(values);
  }

  /** `getSlaveInfo(slave, 'masterValues')`: the loop over the classes. */
  method GetSlaveInfo(className: string) returns (info: Option<(string, seq<string>)>)
    ensures info == SlaveInfo(className)
  {
    var cssClasses := Text.Split(className, ' ');
    var j := 0;
    while j < |cssClasses|
      invariant 0 <= j <= |cssClasses|
      invariant FirstWithPrefix(cssClasses, "slave*", j) == FirstWithPrefix(cssClasses, "slave*", 0)
    {
      if Text.StartsWith(cssClasses[j], "slave*") {
        return Fields.ParseSlaveCss(cssClasses[j]);
      }
      j := j + 1;
    }
    return None;
  }

  predicate Intersects(a: seq<string>, b: seq<string>) {
    exists j, k :: 0 <= j < |a| && 0 <= k < |b| && a[j] == b[k]
  }

  /** The nested loops of `updateSlaves` that decide whether a slave shows. */
  method AnyCommon(a: seq<string>, b: seq<string>) returns (show: bool)
    ensures show <==> Intersects(a, b)
  {
    show := false;
    var j := 0;
    while j < |a|
      invariant 0 <= j <= |a|
      invariant show <==> exists j', k :: 0 <= j' < j && 0 <= k < |b| && a[j'] == b[k]
    {
      var k := 0;
      while k < |b|
        invariant 0 <= k <= |b|
        invariant show <==>
          (exists j', k' :: 0 <= j' < j && 0 <= k' < |b| && a[j'] == b[k']) || (exists k' :: 0 <= k' < k && a[j] == b[k'])
      {
        if a[j] == b[k] {
          show := true;
        }
        k := k + 1;
      }
      j := j + 1;
    }
  }

  /** The first slave, from `i` on, whose class carries no slave information. */
  function FirstUnreadable(classNames: seq<string>, i: nat): (n: nat)
    ensures i <= n || n == |classNames|
    ensures n <= |classNames| || n == i
    ensures forall t :: i <= t < n && t < |classNames| ==> SlaveInfo(classNames[t]).Some?
    ensures n < |classNames| ==> SlaveInfo(classNames[n]).None?
    decreases |classNames| - i
  {
    if i >= |classNames| then i
    else if SlaveInfo(classNames[i]).None? then i
    else FirstUnreadable(classNames, i + 1)
  }

  /** The display style `updateSlaves` gives a slave. */
  function SlaveDisplay(masterValues: seq<string>, info: (string, seq<string>)): string {
    if Intersects(info.1, masterValues) then "" else "none"
  }

  /** `updateSlaves(master, slave)` of the ui skin, over the slaves given
      (one slave, or all slaves of the master), slave information being read
      by the corrected `SlaveInfo`: each slave is shown exactly when one of
      the values it waits for is a current master value; a slave without
      slave information stops the loop. */
  method UpdateSlaves(master: Master, classNames: seq<string>, display: array<string>) returns (ok: bool)
    requires display.Length == |classNames|
    modifies display
    ensures var n := FirstUnreadable(classNames, 0);
      && (ok <==> n == |classNames|)
      && forall t :: 0 <= t < display.Length ==>
           display[t] == if t < n then SlaveDisplay(MasterValues(master), SlaveInfo(classNames[t]).value) else old(display[t])
  {
    var masterValues := GetMasterValues(master);
    var i := 0;
    while i < |classNames|
      invariant 0 <= i <= |classNames|
      invariant FirstUnreadable(classNames, 0) == FirstUnreadable(classNames, i)
      invariant forall t :: 0 <= t < display.Length ==>
        display[t] == if t < i then SlaveDisplay(masterValues, SlaveInfo(classNames[t]).value) else old(display[t])
    {
      var info := GetSlaveInfo(classNames[i]);
      if info.None? {
        return false;
      }
      var show := AnyCommon(info.value.1, masterValues);
      display[i] := if show then "" else "none";
      i := i + 1;
    }
    return true;
  }

  // ---------------------------------------------------------------------
  // Slaves of the Plone skin

  /** `getMasterValue(widget)`: a checkbox gives its state, a select its
      selected values; anything else has no options to read. */
  function PloneMasterValue(widget: Master): Option<seq<string>> {
    match widget
    case Checkbox(checked) => Some([CheckboxValue(checked)])
    case Select(options) => Some(SelectedValues(options))
    case TextInput(_) => None
  }

  method GetMasterValue(widget: Master) returns (values: Option<seq<string>>)
    ensures values == PloneMasterValue(widget)
  {
    match widget
    case Checkbox(checked) =>
      values := Some([CheckboxValue(checked)]);
    case Select(options) =>
      var selected := GetSelected(options);
      values := Some(selected);
    case TextInput(_) =>
      values := None;
  }

  function SlaveClass(typeId: string): string {
    "slave_" + typeId
  }

  function SlaveValueClass(typeId: string, value: string): string {
    "slaveValue_" + typeId + "_" + value
  }

  /** Whether one of the first `n` master values tags a table. */
  predicate TaggedBy(classes: seq<string>, typeId: string, masterValues: seq<string>, n: nat) {
    exists k :: 0 <= k < n && k < |masterValues| && SlaveValueClass(typeId, masterValues[k]) in classes
  }

  /** The display of a table after `updateSlaves(masterValues, typeId)`. */
  function PloneSlaveDisplay(classes: seq<string>, current: string, masterValues: seq<string>, typeId: string): string {
    if TaggedBy(classes, typeId, masterValues, |masterValues|) then ""
    else if SlaveClass(typeId) in classes then "none"
    else current
  }

  function SlaveDisplays(classes: seq<seq<string>>, display: seq<string>, masterValues: seq<string>, typeId: string): (r: seq<string>)
    requires |display| == |classes|
    ensures |r| == |display|
  {
    seq(|display|, t requires 0 <= t < |display| => PloneSlaveDisplay(classes[t], display[t], masterValues, typeId))
  }

  /** Updating the slaves twice with the same values changes nothing more:
      every slave of the type ends shown or hidden whatever its display was. */
  lemma SlaveDisplaysIdempotent(classes: seq<seq<string>>, display: seq<string>, display': seq<string>, masterValues: seq<string>, typeId: string)
    requires |display| == |classes| == |display'|
    ensures SlaveDisplays(classes, SlaveDisplays(classes, display, masterValues, typeId), masterValues, typeId) ==
            SlaveDisplays(classes, display, masterValues, typeId)
    ensures forall t :: 0 <= t < |classes| && SlaveClass(typeId) in classes[t] ==>
      SlaveDisplays(classes, display, masterValues, typeId)[t] == SlaveDisplays(classes, display', masterValues, typeId)[t]
  {
  }

  /** `updateSlaves(masterValues, appyTypeId)`: hides every table of class
      `slave_<id>`, then shows every table of class `slaveValue_<id>_<v>`
      for each master value `v`. */
  method PloneUpdateSlaves(masterValues: seq<string>, typeId: string, classes: seq<seq<string>>, display: array<string>)
    requires display.Length == |classes|
    modifies display
    ensures display[..] == SlaveDisplays(classes, old(display[..]), masterValues, typeId)
  {
    var i := 0;
    while i < display.Length
      invariant 0 <= i <= display.Length
      invariant forall t :: 0 <= t < display.Length ==>
        display[t] == if t < i && SlaveClass(typeId) in classes[t] then "none" else old(display[t])
    {
      if SlaveClass(typeId) in classes[i] {
        display[i] := "none";
      }
      i := i + 1;
    }
    ghost var hidden := display[..];
    i := 0;
    while i < |masterValues|
      invariant 0 <= i <= |masterValues|
      invariant forall t :: 0 <= t < display.Length ==>
        display[t] == if TaggedBy(classes[t], typeId, masterValues, i) then "" else hidden[t]
    {
      var active := SlaveValueClass(typeId, masterValues[i]);
      var j := 0;
      while j < display.Length
        invariant 0 <= j <= display.Length
        invariant forall t :: 0 <= t < display.Length ==>
          display[t] == if TaggedBy(classes[t], typeId, masterValues, i) || (t < j && active in classes[t]) then "" else hidden[t]
      {
        if active in classes[j] {
          display[j] := "";
        }
        j := j + 1;
      }
      i := i + 1;
    }
  }

  /** A master on a Plone page: its classes, its id when it is a SPAN, and
      otherwise its widget. */
  datatype MasterElement = MasterElement(className: string, spanId: Option<string>, widget: Master)

  /** The values `initSlaves` reads from a master. */
  function ElementValues(el: MasterElement): Option<seq<string>> {
    if el.spanId.Some? then Some(MasterValueList(el.spanId.value)) else PloneMasterValue(el.widget)
  }

  lemma {:induction false} CountPositive(s: string, c: char)
    requires c in s
    ensures Text.Count(s, c) > 0
  {
    if s[|s| - 1] != c {
      assert c in s[..|s| - 1];
      CountPositive(s[..|s| - 1], c);
    }
  }

  /** The type id a `master_<id>` class names. */
  function AppyId(c: string): string
    requires Text.StartsWith(c, "master_")
  {
    assert c[6] == '_';
    CountPositive(c, '_');
    Text.SplitLength(c, '_');
    Text.Split(c, '_')[1]
  }

  /** The inner loop of `initSlaves` over the classes of one master, from
      class `j` on; None when a master without readable values stops it. */
  function ClassesFrom(values: Option<seq<string>>, cssClasses: seq<string>, classes: seq<seq<string>>, display: seq<string>, j: nat): (r: Option<seq<string>>)
    requires |display| == |classes|
    ensures r.Some? ==> |r.value| == |display|
    decreases |cssClasses| - j
  {
    if j >= |cssClasses| then Some(display)
    else if !Text.StartsWith(cssClasses[j], "master_") then ClassesFrom(values, cssClasses, classes, display, j + 1)
    else if values.None? then None
    else ClassesFrom(values, cssClasses, classes, SlaveDisplays(classes, display, values.value, AppyId(cssClasses[j])), j + 1)
  }

  /** The outer loop of `initSlaves`, from master `i` on. */
  function InitFrom(masters: seq<MasterElement>, classes: seq<seq<string>>, display: seq<string>, i: nat): (r: Option<seq<string>>)
    requires |display| == |classes|
    ensures r.Some? ==> |r.value| == |display|
    decreases |masters| - i, 0
  {
    if i >= |masters| then Some(display)
    else ContinueFrom(masters, classes, ClassesFrom(ElementValues(masters[i]), Text.Split(masters[i].className, ' '), classes, display, 0), i + 1)
  }

  function ContinueFrom(masters: seq<MasterElement>, classes: seq<seq<string>>, display: Option<seq<string>>, i: nat): (r: Option<seq<string>>)
    requires display.Some? ==> |display.value| == |classes|
    ensures r.Some? ==> |r.value| == |classes|
    decreases |masters| - i, 1
  {
    if display.None? then None else InitFrom(masters, classes, display.value, i)
  }

  /** `initSlaves()`: every class `master_<id>` of every master updates the
      slaves of type `<id>` with the master's values. */
  method InitSlaves(masters: seq<MasterElement>, classes: seq<seq<string>>, display: array<string>) returns (ok: bool)
    requires display.Length == |classes|
    modifies display
    ensures ok <==> InitFrom(masters, classes, old(display[..]), 0).Some?
    ensures ok ==> display[..] == InitFrom(masters, classes, old(display[..]), 0).value
  {
    var i := 0;
    while i < |masters|
      invariant 0 <= i <= |masters|
      invariant InitFrom(masters, classes, display[..], i) == InitFrom(masters, classes, old(display[..]), 0)
    {
      var cssClasses := Text.Split(masters[i].className, ' ');
      var j := 0;
      while j < |cssClasses|
        invariant 0 <= j <= |cssClasses|
        invariant ContinueFrom(masters, classes, ClassesFrom(ElementValues(masters[i]), cssClasses, classes, display[..], j), i + 1)
          == InitFrom(masters, classes, old(display[..]), 0)
      {
        if Text.StartsWith(cssClasses[j], "master_") {
          var appyId := AppyId(cssClasses[j]);
          var masterValue: Option<seq<string>>;
          if masters[i].spanId.Some? {
            var idField := masters[i].spanId.value;
            if IsList(idField) {
              var vs := SplitList(idField);
              masterValue := Some(vs);
            } else {
              masterValue := Some([idField]);
            }
          } else {
            masterValue := GetMasterValue(masters[i].widget);
          }
          if masterValue.None? {
            return false;
          }
          PloneUpdateSlaves(masterValue.value, appyId, classes, display);
        }
        j := j + 1;
      }
      i := i + 1;
    }
    return true;
  }
}
