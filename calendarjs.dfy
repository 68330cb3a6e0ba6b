/** The browser side of the calendar field (gen/ui/calendar.js): showing and
    hiding parts of the month view, restricting the options of the event
    popup, checking an event before it is sent, and collecting the events a
    user validates or discards. */
module CalendarScripts {
  import opened Wrappers
  import Text
  import JsEscape

  // ---------------------------------------------------------------------
  // toggleVisibility

  /** The visibility `toggleVisibility` gives an element: a hidden one
      becomes visible, any other becomes hidden. */
  function Flipped(visibility: string): string {
    if visibility == "hidden" then "visible" else "hidden"
  }

  /** `toggleVisibility(node, nodeType)` over the matching elements. */
  method ToggleVisibility(visibility: array<string>)
    modifies visibility
    ensures forall i :: 0 <= i < visibility.Length ==> visibility[i] == Flipped(old(visibility[i]))
  {
    var i := 0;
    while i < visibility.Length
      invariant 0 <= i <= visibility.Length
      invariant forall t :: 0 <= t < visibility.Length ==>
        visibility[t] == if t < i then Flipped(old(visibility[t])) else old(visibility[t])
    {
      if visibility[i] == "hidden" {
        visibility[i] := "visible";
      } else {
        visibility[i] := "hidden";
      }
      i := i + 1;
    }
  }

  /** Toggling twice restores a hidden or visible element; an element with
      no visibility yet ends visible. */
  lemma FlippedTwice(visibility: string)
    ensures Flipped(visibility) in {"hidden", "visible"}
    ensures visibility in {"hidden", "visible"} ==> Flipped(Flipped(visibility)) == visibility
    ensures visibility !in {"hidden", "visible"} ==> Flipped(Flipped(visibility)) == "visible"
  {
  }

  // ---------------------------------------------------------------------
  // enableOptions

  datatype CalOption = CalOption(value: string, selected: bool, disabled: bool, title: string)

  /** The names `enabled` lists, as the keys of the dictionary built from it. */
  function EnabledNames(enabled: string): set<string> {
    var l := Text.Split(enabled, ',');
    set j | 0 <= j < |l| :: l[j]
  }

  /** The names every plain Javascript object inherits from
      `Object.prototype`, which the `in` operator finds too. */
  const OBJECT_PROTOTYPE_NAMES: set<string> :=
    {"constructor", "hasOwnProperty", "isPrototypeOf", "propertyIsEnumerable", "toLocaleString",
     "toString", "valueOf", "__proto__", "__defineGetter__", "__defineSetter__", "__lookupGetter__",
     "__lookupSetter__"}

  /** The names for which `name in d` holds, `d` being the dictionary built
      from `enabled`: its keys and the inherited names. */
  function DictNames(enabled: string): (r: set<string>)
    ensures EnabledNames(enabled) <= r && OBJECT_PROTOTYPE_NAMES <= r
    ensures forall x :: x in r ==> x in EnabledNames(enabled) || x in OBJECT_PROTOTYPE_NAMES
  {
    EnabledNames(enabled) + OBJECT_PROTOTYPE_NAMES
  }

  /** An option `enableOptions` may select: it has a value, and the value is
      enabled. */
  predicate Eligible(o: CalOption, names: set<string>) {
    o.value != "" && o.value in names
  }

  function FirstEligible(options: seq<CalOption>, names: set<string>, i: nat): (r: Option<nat>)
    ensures r.Some? ==> i <= r.value < |options| && Eligible(options[r.value], names)
    ensures r.Some? ==> forall j :: i <= j < r.value ==> !Eligible(options[j], names)
    ensures r.None? ==> forall j :: i <= j < |options| ==> !Eligible(options[j], names)
    decreases |options| - i
  {
    if i >= |options| then None
    else if Eligible(options[i], names) then Some(i)
    else FirstEligible(options, names, i + 1)
  }

  /** One option after `enableOptions`: deselected unless it is the one to
      select; an option with a value is enabled with no title when its value
      is enabled, else disabled with the message. */
  function Treated(o: CalOption, names: set<string>, message: string, select: bool): CalOption {
    if o.value == "" then o.(selected := false)
    else if o.value in names then o.(selected := select, disabled := false, title := "")
    else o.(selected := false, disabled := true, title := message)
  }

  function EnabledOptions(options: seq<CalOption>, names: set<string>, selectFirst: bool, message: string): (r: seq<CalOption>)
    ensures |r| == |options|
  {
    var first := FirstEligible(options, names, 0);
    seq(|options|, i requires 0 <= i < |options| =>
      Treated(options[i], names, message, selectFirst && first == Some(i)))
  }

  /** Every value keeps its option; with `selectFirst` exactly the first
      eligible option ends selected, without it none; and an option ends
      enabled exactly when it is eligible or has no value and was enabled. */
  lemma EnabledOptionsSpec(options: seq<CalOption>, names: set<string>, selectFirst: bool, message: string, i: nat)
    requires i < |options|
    ensures var r := EnabledOptions(options, names, selectFirst, message);
      && r[i].value == options[i].value
      && (r[i].selected <==> selectFirst && Eligible(options[i], names) && forall j :: 0 <= j < i ==> !Eligible(options[j], names))
      && (!r[i].disabled <==> Eligible(options[i], names) || (options[i].value == "" && !options[i].disabled))
      && (options[i].value != "" ==> r[i].title == if options[i].value in names then "" else message)
  {
    var first := FirstEligible(options, names, 0);
    if selectFirst && Eligible(options[i], names) && forall j :: 0 <= j < i ==> !Eligible(options[j], names) {
      assert first == Some(i);
    }
  }

  /** `enableOptions(select, enabled, selectFirst, message)`. */
  method EnableOptions(options: array<CalOption>, enabled: string, selectFirst: bool, message: string)
    modifies options
    ensures options[..] == EnabledOptions(old(options[..]), DictNames(enabled), selectFirst, message)
  {
    var l := Text.Split(enabled, ',');
    var d: set<string> := {};
    var k := 0;
    while k < |l|
      invariant 0 <= k <= |l|
      invariant d == set j | 0 <= j < k :: l[j]
    {
      d := d + {l[k]};
      k := k + 1;
    }
    TreatOptions(options, d + OBJECT_PROTOTYPE_NAMES, selectFirst, message);
  }

  /** The loop of `enableOptions` over the options, `d` holding every name
      for which `value in d` holds. */
  method TreatOptions(options: array<CalOption>, d: set<string>, selectFirst: bool, message: string)
    modifies options
    ensures options[..] == EnabledOptions(old(options[..]), d, selectFirst, message)
  {
    ghost var opts := options[..];
    ghost var first := FirstEligible(opts, d, 0);
    var isSelected := false;
    var i := 0;
    while i < options.Length
      invariant 0 <= i <= options.Length
      invariant isSelected <==> selectFirst && first.Some? && first.value < i
      invariant forall t :: 0 <= t < options.Length ==>
        options[t] == if t < i then Treated(opts[t], d, message, selectFirst && first == Some(t)) else opts[t]
    {
      var o := options[i].(selected := false);
      if o.value != "" {
        if o.value in d {
          o := o.(disabled := false, title := "");
          if selectFirst && !isSelected {
            o := o.(selected := true);
            isSelected := true;
          }
        } else {
          o := o.(disabled := true, title := message);
        }
      }
      assert o == Treated(opts[i], d, message, selectFirst && first == Some(i));
      options[i] := o;
      i := i + 1;
    }
  }

  /** An option whose value is an inherited name, such as `toString`, is
      enabled whatever `enabled` lists. */
  lemma PrototypeNameEnabled(options: seq<CalOption>, enabled: string, selectFirst: bool, message: string, i: nat)
    requires i < |options| && options[i].value in OBJECT_PROTOTYPE_NAMES
    ensures var r := EnabledOptions(options, DictNames(enabled), selectFirst, message);
      !r[i].disabled && r[i].title == ""
  {
    EnabledOptionsSpec(options, DictNames(enabled), selectFirst, message, i);
  }

  // ---------------------------------------------------------------------
  // triggerCalendarEvent

  /** The white space `parseInt` skips (the Unicode space separators other
      than these are not modelled). */
  const JS_SPACE: set<char> := Text.WHITESPACE + {'\U{00A0}', '\U{FEFF}', '\U{2028}', '\U{2029}'}

  predicate IsRadixDigit(c: char, radix: nat) {
    if radix == 16 then JsEscape.IsHexChar(c) else Text.IsDigit(c)
  }

  /** The length of the longest prefix made of digits of the radix. */
  function DigitPrefix(s: string, radix: nat): (n: nat)
    ensures n <= |s|
    ensures forall i :: 0 <= i < n ==> IsRadixDigit(s[i], radix)
    ensures n < |s| ==> !IsRadixDigit(s[n], radix)
  {
    if s == [] || !IsRadixDigit(s[0], radix) then 0 else 1 + DigitPrefix(s[1..], radix)
  }

  /** The digits of the radix a string starts with, as a number; None when
      there are none. */
  function ParseDigits(w: string, radix: nat): Option<nat> {
    var n := DigitPrefix(w, radix);
    if n == 0 then None
    else if radix == 16 then Some(JsEscape.HexNumber(w[..n]))
    else Some(Text.DecimalValue(w[..n]))
  }

  function SignOf(t: string): int {
    if |t| > 0 && t[0] == '-' then -1 else 1
  }

  function AfterSign(t: string): string {
    if |t| > 0 && (t[0] == '-' || t[0] == '+') then t[1..] else t
  }

  predicate HexStart(u: string) {
    |u| >= 2 && u[0] == '0' && (u[1] == 'x' || u[1] == 'X')
  }

  /** JavaScript `parseInt(s)` with no radix: leading white space, a sign,
      `0x` for hex, then as many digits as there are; None stands for NaN. */
  function JsParseInt(s: string): Option<int> {
    var t := Text.LStrip(s, JS_SPACE);
    var u := AfterSign(t);
    var digits := if HexStart(u) then ParseDigits(u[2..], 16) else ParseDigits(u, 10);
    if digits.None? then None else Some(SignOf(t) * digits.value)
  }

  lemma {:induction false} DigitPrefixConcat(w: string, rest: string)
    requires Text.AllDigits(w) && (rest == [] || !Text.IsDigit(rest[0]))
    ensures DigitPrefix(w + rest, 10) == |w|
    decreases |w|
  {
    if w != [] {
      DigitPrefixConcat(w[1..], rest);
      assert (w + rest)[1..] == w[1..] + rest;
    }
  }

  /** A string starting with a digit has no blank and no sign to skip. */
  lemma DigitStart(s: string, c: char)
    requires |s| > 0 && s[0] == c && Text.IsDigit(c)
    ensures Text.LStrip(s, JS_SPACE) == s
    ensures AfterSign(s) == s && SignOf(s) == 1
  {
    DigitNotJsSpace(c);
  }

  lemma DigitNotJsSpace(c: char)
    requires Text.IsDigit(c)
    ensures c !in JS_SPACE
  {
    assert c !in Text.WHITESPACE;
  }

  /** Digits followed by anything but `x` after a lone `0` are read in
      decimal. */
  lemma NotHexStart(w: string, rest: string)
    requires |w| > 0 && Text.AllDigits(w)
    requires w[0] != '0' || |w| > 1 || rest == [] || (rest[0] != 'x' && rest[0] != 'X')
    ensures !HexStart(w + rest)
  {
    var s := w + rest;
    if |s| >= 2 && s[0] == '0' {
      if |w| > 1 {
        var d := w[1];
        assert Text.IsDigit(d);
        assert s[1] == d;
      } else {
        assert s[1] == rest[0];
      }
    }
  }

  /** `parseInt` reads the decimal digits a string starts with, whatever
      follows them. */
  lemma JsParseIntPrefix(w: string, rest: string)
    requires |w| > 0 && Text.AllDigits(w) && (rest == [] || !Text.IsDigit(rest[0]))
    requires w[0] != '0' || |w| > 1 || rest == [] || (rest[0] != 'x' && rest[0] != 'X')
    ensures JsParseInt(w + rest) == Some(Text.DecimalValue(w))
  {
    var s := w + rest;
    DigitStart(s, w[0]);
    NotHexStart(w, rest);
    DigitPrefixConcat(w, rest);
    assert s[..|w|] == w;
    assert ParseDigits(s, 10) == Some(Text.DecimalValue(w));
  }

  /** A number written in decimal reads back as itself. */
  lemma JsParseIntOfNat(n: nat)
    ensures JsParseInt(Text.NatToString(n)) == Some(n)
  {
    var s := Text.NatToString(n);
    Text.NatToStringRoundTrip(n);
    JsParseIntPrefix(s, "");
    assert s + "" == s;
  }

  /** What checking the event popup leads to. */
  datatype Outcome = WrongType | WrongSpan | Sent

  /** `triggerCalendarEvent` as written: a new event needs an event type; a
      span, once its first space is gone, must be empty or start with a
      number no larger than the maximum. */
  function TriggerOutcome(action: string, selectedIndex: int, eventSpan: Option<string>, maxEventLength: int): Outcome {
    if action != "new" then Sent
    else if selectedIndex == 0 then WrongType
    else if eventSpan.None? then Sent
    else
      var spanNumber := RemoveFirstSpace(eventSpan.value);
      if spanNumber == "" then Sent
      else match JsParseInt(spanNumber)
        case None => WrongSpan
        case Some(n) => if n > maxEventLength then WrongSpan else Sent
  }

  /** `s.replace(' ', '')`: only the first space goes. */
  function RemoveFirstSpace(s: string): string {
    var i := Text.IndexOf(s, ' ');
    if i < |s| then s[..i] + s[i + 1..] else s
  }

  /** The check as written lets through spans the server's `int(eventSpan)`
      rejects (fields/calendar.py:761): a number followed by letters, and two
      numbers separated by a space. */
  lemma TriggerAcceptsUnreadableSpan()
    ensures TriggerOutcome("new", 1, Some("3x"), 10) == Sent && Text.PyInt("3x") == None
    ensures TriggerOutcome("new", 1, Some("1 2"), 20) == Sent && Text.PyInt("1 2") == None
  {
    ParsesThree();
    ParsesTwelve();
    var a, b := "3x", "1 2";
    assert a[0] == '3' && a[1] == 'x' && b[0] == '1' && b[2] == '2';
    NoSpaceEnds(a);
    NoSpaceEnds(b);
    assert !Text.AllDigits("3x") by { assert !Text.IsDigit("3x"[1]); }
    assert !Text.AllDigits("1 2") by { assert !Text.IsDigit("1 2"[1]); }
  }

  lemma ParsesThree()
    ensures RemoveFirstSpace("3x") == "3x" && JsParseInt("3x") == Some(3)
  {
    var w, rest := "3", "x";
    assert w + rest == "3x";
    SpacelessKept(w + rest);
    JsParseIntPrefix(w, rest);
    assert Text.DecimalValue(w) == 3 by {
      assert w[..0] == [];
    }
  }

  /** A string without a space has no space to remove. */
  lemma SpacelessKept(s: string)
    requires forall i :: 0 <= i < |s| ==> s[i] != ' '
    ensures RemoveFirstSpace(s) == s
  {
  }

  lemma ParsesTwelve()
    ensures RemoveFirstSpace("1 2") == "12" && JsParseInt("12") == Some(12)
  {
    assert Text.IndexOf("1 2", ' ') == 1;
    assert "12" == "12" + "";
    JsParseIntPrefix("12", "");
    assert Text.DecimalValue("12") == 12 by {
      assert "12"[..1] == "1";
    }
  }

  lemma NoSpaceEnds(s: string)
    requires |s| > 0 && Text.IsAlnum(s[0]) && Text.IsAlnum(s[|s| - 1])
    ensures Text.Strip(s) == s
  {
    assert s[0] !in Text.WHITESPACE && s[|s| - 1] !in Text.WHITESPACE;
    assert Text.LStrip(s, Text.WHITESPACE) == s;
  }

  /** The check the server side needs: a new event needs an event type, and
      a non-empty span must be an integer no larger than the maximum. */
  function CheckedOutcome(action: string, selectedIndex: int, eventSpan: Option<string>, maxEventLength: int): Outcome {
    if action != "new" then Sent
    else if selectedIndex == 0 then WrongType
    else if eventSpan.None? || eventSpan.value == "" then Sent
    else match Text.PyInt(eventSpan.value)
      case None => WrongSpan
      case Some(n) => if n > maxEventLength then WrongSpan else Sent
  }

  /** A new event the corrected check sends has a type, and a span the
      server reads as a number within the maximum. */
  lemma CheckedOutcomeSpec(action: string, selectedIndex: int, eventSpan: Option<string>, maxEventLength: int)
    ensures action == "new" && CheckedOutcome(action, selectedIndex, eventSpan, maxEventLength) == Sent ==>
      selectedIndex != 0 &&
      (eventSpan.None? || eventSpan.value == "" ||
       (Text.PyInt(eventSpan.value).Some? && Text.PyInt(eventSpan.value).value <= maxEventLength))
    ensures (action == "new" && selectedIndex != 0 && eventSpan.Some? && Text.PyInt(eventSpan.value).Some? &&
             Text.PyInt(eventSpan.value).value <= maxEventLength) ==>
            CheckedOutcome(action, selectedIndex, eventSpan, maxEventLength) == Sent
    ensures action != "new" ==> CheckedOutcome(action, selectedIndex, eventSpan, maxEventLength) == Sent
  {
  }

  // ---------------------------------------------------------------------
  // validateEvents

  datatype Input = Input(isCheckbox: bool, checked: bool, id: string)

  /** The ids of the checkboxes that are (or are not) checked, in order. */
  function CheckboxIds(inputs: seq<Input>, checked: bool): seq<string> {
    if inputs == [] then []
    else
      var last := inputs[|inputs| - 1];
      CheckboxIds(inputs[..|inputs| - 1], checked) + (if last.isCheckbox && last.checked == checked then [last.id] else [])
  }

  /** The ids of all checkboxes, in order. */
  function AllCheckboxIds(inputs: seq<Input>): seq<string> {
    if inputs == [] then []
    else
      var last := inputs[|inputs| - 1];
      AllCheckboxIds(inputs[..|inputs| - 1]) + (if last.isCheckbox then [last.id] else [])
  }

  /** Every checkbox goes to exactly one of the two lists: together they
      hold the ids of all checkboxes, as many times as they occur. */
  lemma {:induction false} PartitionSpec(inputs: seq<Input>)
    ensures multiset(CheckboxIds(inputs, true)) + multiset(CheckboxIds(inputs, false)) == multiset(AllCheckboxIds(inputs))
    ensures |CheckboxIds(inputs, true)| + |CheckboxIds(inputs, false)| == |AllCheckboxIds(inputs)|
  {
    if inputs != [] {
      PartitionSpec(inputs[..|inputs| - 1]);
    }
  }

  lemma {:induction false} CheckboxIdsMembers(inputs: seq<Input>, checked: bool, id: string)
    ensures id in CheckboxIds(inputs, checked) <==>
      exists i :: 0 <= i < |inputs| && inputs[i].isCheckbox && inputs[i].checked == checked && inputs[i].id == id
  {
    if inputs != [] {
      var front := inputs[..|inputs| - 1];
      CheckboxIdsMembers(front, checked, id);
      if id in CheckboxIds(front, checked) {
        var i :| 0 <= i < |front| && front[i].isCheckbox && front[i].checked == checked && front[i].id == id;
        assert inputs[i] == front[i];
      }
      if exists i :: 0 <= i < |inputs| && inputs[i].isCheckbox && inputs[i].checked == checked && inputs[i].id == id {
        var i :| 0 <= i < |inputs| && inputs[i].isCheckbox && inputs[i].checked == checked && inputs[i].id == id;
        if i < |front| {
          assert front[i] == inputs[i];
        }
      }
    }
  }

  /** The request parameters `validateEvents` sends. */
  function ValidateParams(inputs: seq<Input>): map<string, string> {
    map["action" := "validateEvents",
        "validated" := Text.Join(CheckboxIds(inputs, true), ","),
        "discarded" := Text.Join(CheckboxIds(inputs, false), ","),
        "mode" := "POST"]
  }

  /** The server gets the validated ids back by splitting on commas, when
      no id holds a comma. */
  lemma ValidatedRoundTrip(inputs: seq<Input>)
    requires forall i :: 0 <= i < |inputs| ==> ',' !in inputs[i].id
    requires CheckboxIds(inputs, true) != []
    ensures Text.Split(ValidateParams(inputs)["validated"], ',') == CheckboxIds(inputs, true)
  {
    var ids := CheckboxIds(inputs, true);
    forall k | 0 <= k < |ids| ensures ',' !in ids[k] {
      CheckboxIdsMembers(inputs, true, ids[k]);
    }
    ValidatedEntry(inputs);
    Text.JoinSplit(ids, ',');
  }

  lemma ValidatedEntry(inputs: seq<Input>)
    ensures ValidateParams(inputs)["validated"] == Text.Join(CheckboxIds(inputs, true), ",")
  {
    var v, d, m := "validated", "discarded", "mode";
    assert v[0] != d[0] && |v| != |m|;
  }

  /** `validateEvents(hookId)`: the loop over the inputs of the month view. */
  method ValidateEvents(inputs: seq<Input>) returns (params: map<string, string>)
    ensures params == ValidateParams(inputs)
  {
    var validated: seq<string> := [];
    var discarded: seq<string> := [];
    var i := 0;
    while i < |inputs|
      invariant 0 <= i <= |inputs|
      invariant validated == CheckboxIds(inputs[..i], true)
      invariant discarded == CheckboxIds(inputs[..i], false)
    {
      assert inputs[..i + 1][..i] == inputs[..i];
      if inputs[i].isCheckbox {
        if inputs[i].checked {
          validated := validated + [inputs[i].id];
        } else {
          discarded := discarded + [inputs[i].id];
        }
      }
      i := i + 1;
    }
    assert inputs[..|inputs|] == inputs;
    params := map["action" := "validateEvents", "validated" := Text.Join(validated, ","),
                  "discarded" := Text.Join(discarded, ","), "mode" := "POST"];
  }
}
