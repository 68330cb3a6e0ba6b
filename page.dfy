/** The page-side state the browser scripts of both skins keep
    (gen/ui/appy.js, gen/plone25/skin/appy.js): the cookie jar behind
    `document.cookie`, the zones a cookie shows or hides, and the tabs of a
    tabbed page. */
module BrowserPage {
  import opened Wrappers
  import Text
  import JsEscape
  import AjaxPool

  /** A cookie as the browser keeps it: its name and its stored value. */
  type Cookie = (string, string)

  /** A name the browser reads back as written: no `=` or `;` in it and no
      leading space. */
  predicate PlainName(name: string) {
    '=' !in name && ';' !in name && (name == [] || name[0] != ' ')
  }

  /** A jar whose cookies have plain, distinct names and values without `;`. */
  predicate Plain(jar: seq<Cookie>) {
    && (forall i :: 0 <= i < |jar| ==> PlainName(jar[i].0) && ';' !in jar[i].1)
    && (forall i, j :: 0 <= i < j < |jar| ==> jar[i].0 != jar[j].0)
  }

  /** The pieces of `document.cookie`: `name=value` in the order the cookies
      were first set, every one after the first preceded by a space (the
      browser joins them with "; "). */
  function Entries(jar: seq<Cookie>): (r: seq<string>)
    ensures |r| == |jar|
  {
    seq(|jar|, i requires 0 <= i < |jar| => (if i == 0 then "" else " ") + jar[i].0 + "=" + jar[i].1)
  }

  function CookieString(jar: seq<Cookie>): string {
    Text.Join(Entries(jar), ";")
  }

  /** The first cookie at or after `i` with this name. */
  function IndexOfName(jar: seq<Cookie>, name: string, i: nat): (r: Option<nat>)
    ensures r.Some? ==> i <= r.value < |jar| && jar[r.value].0 == name
    ensures r.Some? ==> forall j :: i <= j < r.value ==> jar[j].0 != name
    ensures r.None? ==> forall j :: i <= j < |jar| ==> jar[j].0 != name
    decreases |jar| - i
  {
    if i >= |jar| then None
    else if jar[i].0 == name then Some(i)
    else IndexOfName(jar, name, i + 1)
  }

  /** The stored value of a cookie. */
  function Stored(jar: seq<Cookie>, name: string): Option<string> {
    match IndexOfName(jar, name, 0)
    case Some(k) => Some(jar[k].1)
    case None => None
  }

  /** Assigning `name=value; path=/;` to `document.cookie`: a cookie of that
      name keeps its place and takes the new value, otherwise a new one comes
      last. */
  function SetCookie(jar: seq<Cookie>, name: string, value: string): seq<Cookie> {
    match IndexOfName(jar, name, 0)
    case Some(k) => jar[k := (name, value)]
    case None => jar + [(name, value)]
  }

  /** The `readCookie` loop from piece `i` on: the first piece that, once
      its leading spaces are gone, starts with `nameEQ` gives the unescaped
      rest. */
  function LookupFrom(parts: seq<string>, nameEQ: string, i: nat): Option<string>
    decreases |parts| - i
  {
    if i >= |parts| then None
    else
      var c := Text.LStrip(parts[i], {' '});
      if Text.StartsWith(c, nameEQ) then Some(JsEscape.Unescape(c[|nameEQ|..]))
      else LookupFrom(parts, nameEQ, i + 1)
  }

  /** `readCookie(name)` on a jar. */
  function Read(jar: seq<Cookie>, name: string): Option<string> {
    LookupFrom(Text.Split(CookieString(jar), ';'), name + "=", 0)
  }

  /** With `=` in neither name, `a=...` starts with `n=` exactly when the
      names are equal. */
  lemma NamePrefix(a: string, v: string, n: string)
    requires '=' !in a && '=' !in n
    ensures Text.StartsWith(a + "=" + v, n + "=") <==> a == n
  {
    var s := a + "=" + v;
    var p := n + "=";
    if Text.StartsWith(s, p) {
      var m := if |a| < |n| then |a| else |n|;
      assert s[m] == p[m];
      assert s[m] == '=' ==> m == |a|;
      assert p[m] == '=' ==> m == |n|;
      assert a == s[..|a|] && n == p[..|n|];
    }
  }

  lemma EntryStripped(jar: seq<Cookie>, i: nat)
    requires Plain(jar) && i < |jar|
    ensures Text.LStrip(Entries(jar)[i], {' '}) == jar[i].0 + "=" + jar[i].1
  {
    var body := jar[i].0 + "=" + jar[i].1;
    assert body[0] != ' ';
    if i > 0 {
      assert Entries(jar)[i] == " " + body;
      assert (" " + body)[1..] == body;
    }
  }

  /** Reading the cookie string from piece `i` finds the first stored
      cookie of that name at or after `i`. */
  lemma {:induction false} LookupEntries(jar: seq<Cookie>, n: string, i: nat)
    requires Plain(jar) && PlainName(n)
    ensures LookupFrom(Entries(jar), n + "=", i) ==
      match IndexOfName(jar, n, i)
      case Some(k) => Some(JsEscape.Unescape(jar[k].1))
      case None => None
    decreases |jar| - i
  {
    if i < |jar| {
      EntryStripped(jar, i);
      NamePrefix(jar[i].0, jar[i].1, n);
      if jar[i].0 == n {
        assert (jar[i].0 + "=" + jar[i].1)[|n + "="|..] == jar[i].1;
      } else {
        LookupEntries(jar, n, i + 1);
      }
    }
  }

  /** `readCookie` returns the unescaped stored value, or null. */
  lemma ReadStored(jar: seq<Cookie>, n: string)
    requires Plain(jar) && PlainName(n)
    ensures Read(jar, n) == match Stored(jar, n)
      case Some(v) => Some(JsEscape.Unescape(v))
      case None => None
  {
    if jar == [] {
      assert Text.Split(CookieString(jar), ';') == [""];
    } else {
      var e := Entries(jar);
      forall i | 0 <= i < |e| ensures ';' !in e[i] {
        assert PlainName(jar[i].0) && ';' !in jar[i].1;
      }
      Text.JoinSplit(e, ';');
      LookupEntries(jar, n, 0);
    }
  }

  lemma SetCookiePlain(jar: seq<Cookie>, name: string, value: string)
    requires Plain(jar) && PlainName(name) && ';' !in value
    ensures Plain(SetCookie(jar, name, value))
  {
  }

  lemma {:induction false} IndexOfNameFirst(jar: seq<Cookie>, name: string, i: nat, k: nat)
    requires i <= k < |jar| && jar[k].0 == name
    requires forall j :: i <= j < k ==> jar[j].0 != name
    ensures IndexOfName(jar, name, i) == Some(k)
    decreases k - i
  {
    if i < k {
      IndexOfNameFirst(jar, name, i + 1, k);
    }
  }

  lemma {:induction false} IndexOfNameAgrees(jar: seq<Cookie>, jar': seq<Cookie>, name: string, i: nat)
    requires |jar| <= |jar'|
    requires forall j :: 0 <= j < |jar'| ==> (jar'[j].0 == name <==> j < |jar| && jar[j].0 == name)
    ensures IndexOfName(jar', name, i) == IndexOfName(jar, name, i)
    decreases |jar'| - i
  {
    if i < |jar| {
      IndexOfNameAgrees(jar, jar', name, i + 1);
    }
  }

  lemma SetCookieSame(jar: seq<Cookie>, name: string, value: string)
    ensures Stored(SetCookie(jar, name, value), name) == Some(value)
  {
    var jar' := SetCookie(jar, name, value);
    var k := IndexOfName(jar, name, 0);
    if k.Some? {
      IndexOfNameFirst(jar', name, 0, k.value);
    } else {
      IndexOfNameFirst(jar', name, 0, |jar|);
    }
  }

  lemma SetCookieOther(jar: seq<Cookie>, name: string, value: string, other: string)
    requires other != name
    ensures Stored(SetCookie(jar, name, value), other) == Stored(jar, other)
  {
    var jar' := SetCookie(jar, name, value);
    IndexOfNameAgrees(jar, jar', other, 0);
    var k := IndexOfName(jar, other, 0);
    if k.Some? {
      assert jar'[k.value] == jar[k.value];
    }
  }

  /** A value written by `createCookie` reads back as it was written, and the
      other cookies read as before. */
  lemma ReadAfterCreate(jar: seq<Cookie>, name: string, value: string, other: string)
    requires Plain(jar) && PlainName(name) && PlainName(other)
    ensures Plain(SetCookie(jar, name, JsEscape.Escape(value)))
    ensures Read(SetCookie(jar, name, JsEscape.Escape(value)), name) == Some(value)
    ensures other != name ==> Read(SetCookie(jar, name, JsEscape.Escape(value)), other) == Read(jar, other)
  {
    JsEscape.EscapedIsPlain(value);
    var jar' := SetCookie(jar, name, JsEscape.Escape(value));
    SetCookiePlain(jar, name, JsEscape.Escape(value));
    SetCookieSame(jar, name, JsEscape.Escape(value));
    if other != name {
      SetCookieOther(jar, name, JsEscape.Escape(value), other);
    }
    ReadStored(jar', name);
    JsEscape.EscapeRoundTrip(value);
    ReadStored(jar', other);
    ReadStored(jar, other);
  }

  // ---------------------------------------------------------------------
  // Zones a cookie shows or hides

  /** The state `toggleCookie` stores next: anything but "expanded",
      including no cookie, counts as collapsed. */
  function Toggled(state: Option<string>): string {
    if state == Some("expanded") then "collapsed" else "expanded"
  }

  /** The display style of a zone whose cookie holds `state`. */
  function ZoneDisplay(state: string): string {
    if state == "expanded" then "block" else "none"
  }

  /** The icon shown beside a zone whose cookie holds `state`. */
  function ZoneIcon(skin: AjaxPool.Skin, state: string): string {
    AjaxPool.Folder(skin) + (if state == "expanded" then "/collapse.gif" else "/expand.gif")
  }

  /** The jar after a complete `toggleCookie(id)`. */
  function ToggledJar(jar: seq<Cookie>, id: string): seq<Cookie> {
    var state := Read(jar, id);
    var jar1 := if state == Some("collapsed") || state == Some("expanded") then jar
                else SetCookie(jar, id, JsEscape.Escape("collapsed"));
    SetCookie(jar1, id, JsEscape.Escape(Toggled(state)))
  }

  lemma ToggleOnce(jar: seq<Cookie>, id: string)
    requires Plain(jar) && PlainName(id)
    ensures Plain(ToggledJar(jar, id))
    ensures Read(ToggledJar(jar, id), id) == Some(Toggled(Read(jar, id)))
  {
    var state := Read(jar, id);
    if state == Some("collapsed") || state == Some("expanded") {
      ReadAfterCreate(jar, id, Toggled(state), id);
    } else {
      var jar1 := SetCookie(jar, id, JsEscape.Escape("collapsed"));
      ReadAfterCreate(jar, id, "collapsed", id);
      ReadAfterCreate(jar1, id, Toggled(state), id);
    }
  }

  /** After a toggle the cookie reads the other state, and toggling twice
      restores a collapsed or expanded zone; a zone with no such cookie ends
      collapsed. */
  lemma ToggleReads(jar: seq<Cookie>, id: string)
    requires Plain(jar) && PlainName(id)
    ensures Plain(ToggledJar(jar, id))
    ensures Read(ToggledJar(jar, id), id) == Some(Toggled(Read(jar, id)))
    ensures Read(ToggledJar(ToggledJar(jar, id), id), id) ==
      (if Read(jar, id) == Some("expanded") then Some("expanded") else Some("collapsed"))
  {
    ToggleOnce(jar, id);
    ToggleOnce(ToggledJar(jar, id), id);
  }

  // ---------------------------------------------------------------------
  // Tabs

  /** The four elements of a tab: the content row's display style, the
      left and right images and the tab's background. */
  datatype TabLook = TabLook(content: string, left: string, background: string, right: string)

  /** What `manageTab` gives a tab it shows or hides. */
  function Look(skin: AjaxPool.Skin, show: bool): TabLook {
    var f := AjaxPool.Folder(skin);
    if show then TabLook("table-row", f + "/tabLeft.png", "url(" + f + "/tabBg.png)", f + "/tabRight.png")
    else TabLook("none", f + "/tabLeftu.png", "url(" + f + "/tabBgu.png)", f + "/tabRightu.png")
  }

  /** The number of tabs `showTab` reads from the third `_`-separated part
      of the id (`idParts[2]*1`); None stands for NaN. */
  function TabCount(tabId: string): Option<nat> {
    var parts := Text.Split(tabId, '_');
    if |parts| >= 3 && Text.AllDigits(parts[2]) then Some(Text.DecimalValue(parts[2])) else None
  }

  /** The id of tab `i` of `nb` in a group. */
  function TabId(prefix: string, i: nat, nb: nat): string {
    prefix + Text.NatToString(i) + "_" + Text.NatToString(nb)
  }

  /** The hiding loop of `showTab` from iteration `i`: every tab of the group
      but the shown one is hidden, and a missing one stops it. */
  function HideFrom(skin: AjaxPool.Skin, tabs: map<string, TabLook>, prefix: string, nb: nat, tabId: string, i: nat): (r: (map<string, TabLook>, bool))
    decreases nb - i
  {
    if i >= nb then (tabs, true)
    else
      var id := TabId(prefix, i + 1, nb);
      if id == tabId then HideFrom(skin, tabs, prefix, nb, tabId, i + 1)
      else if id !in tabs then (tabs, false)
      else HideFrom(skin, tabs[id := Look(skin, false)], prefix, nb, tabId, i + 1)
  }

  /** The tabs the hiding loop hides from iteration `i` on. */
  function HiddenFrom(prefix: string, nb: nat, tabId: string, i: nat): set<string> {
    (set j | i < j <= nb :: TabId(prefix, j, nb)) - {tabId}
  }

  /** The effect of `showTab(tabId)` on the jar and the tabs, and whether it
      ran to its end. */
  function ShowTabEffect(skin: AjaxPool.Skin, jar: seq<Cookie>, tabs: map<string, TabLook>, tabId: string): (seq<Cookie>, map<string, TabLook>, bool) {
    if tabId !in tabs then (jar, tabs, false)
    else
      var group := Text.Split(tabId, '_')[0];
      var jar' := SetCookie(jar, "tab_" + group, JsEscape.Escape(tabId));
      var shown := tabs[tabId := Look(skin, true)];
      match TabCount(tabId)
      case None => (jar', shown, true)
      case Some(nb) =>
        var (tabs', ok) := HideFrom(skin, shown, group + "_", nb, tabId, 0);
        (jar', tabs', ok)
  }

  lemma HiddenStep(prefix: string, nb: nat, tabId: string, i: nat)
    requires i < nb
    ensures HiddenFrom(prefix, nb, tabId, i) ==
      HiddenFrom(prefix, nb, tabId, i + 1) + ({TabId(prefix, i + 1, nb)} - {tabId})
  {
    var a := HiddenFrom(prefix, nb, tabId, i);
    var b := HiddenFrom(prefix, nb, tabId, i + 1) + ({TabId(prefix, i + 1, nb)} - {tabId});
    forall k | k in a ensures k in b {
      var j :| i < j <= nb && k == TabId(prefix, j, nb);
    }
  }

  /** The hiding loop runs to its end exactly when every tab it hides
      exists; then those tabs are hidden, the others are as they were. */
  lemma {:induction false} HideFromSpec(skin: AjaxPool.Skin, tabs: map<string, TabLook>, prefix: string, nb: nat, tabId: string, i: nat)
    ensures HideFrom(skin, tabs, prefix, nb, tabId, i).1 <==> HiddenFrom(prefix, nb, tabId, i) <= tabs.Keys
    ensures HideFrom(skin, tabs, prefix, nb, tabId, i).0.Keys == tabs.Keys
    ensures var (tabs', ok) := HideFrom(skin, tabs, prefix, nb, tabId, i);
      ok ==> forall k :: k in tabs' ==> tabs'[k] == if k in HiddenFrom(prefix, nb, tabId, i) then Look(skin, false) else tabs[k]
    decreases nb - i
  {
    if i < nb {
      HiddenStep(prefix, nb, tabId, i);
      var id := TabId(prefix, i + 1, nb);
      if id == tabId {
        HideFromSpec(skin, tabs, prefix, nb, tabId, i + 1);
      } else if id in tabs {
        HideFromSpec(skin, tabs[id := Look(skin, false)], prefix, nb, tabId, i + 1);
      }
    }
  }

  /** `showTab` shows its tab, remembers it in the cookie of its group, and,
      when it runs to its end, has hidden every other tab of the group and
      left the other tabs alone. */
  lemma ShowTabShape(skin: AjaxPool.Skin, jar: seq<Cookie>, tabs: map<string, TabLook>, tabId: string)
    requires tabId in tabs
    ensures var (jar', tabs', ok) := ShowTabEffect(skin, jar, tabs, tabId);
      && jar' == SetCookie(jar, "tab_" + Text.Split(tabId, '_')[0], JsEscape.Escape(tabId))
      && tabs'.Keys == tabs.Keys
      && tabs'[tabId] == (if ok then Look(skin, true) else tabs'[tabId])
      && (TabCount(tabId).None? ==> ok)
      && (TabCount(tabId).Some? ==>
           (ok <==> HiddenFrom(Text.Split(tabId, '_')[0] + "_", TabCount(tabId).value, tabId, 0) <= tabs.Keys))
      && (ok ==> forall k :: k in tabs' && k != tabId ==>
           tabs'[k] == (if TabCount(tabId).Some? && k in HiddenFrom(Text.Split(tabId, '_')[0] + "_", TabCount(tabId).value, tabId, 0)
                        then Look(skin, false) else tabs[k]))
  {
    var shown := tabs[tabId := Look(skin, true)];
    if TabCount(tabId).Some? {
      HideFromSpec(skin, shown, Text.Split(tabId, '_')[0] + "_", TabCount(tabId).value, tabId, 0);
    }
  }

  /** The value `initTab` shows: the cookie's, unless it is missing or empty. */
  function TabToSelect(stored: Option<string>, default: string): string {
    if stored.None? || stored.value == "" then default else stored.value
  }

  // ---------------------------------------------------------------------
  // The page

  class Page {
    const skin: AjaxPool.Skin
    var jar: seq<Cookie>
    /** The display style of every zone a cookie shows or hides, by id. */
    var zones: map<string, string>
    /** The `src` of the icon `<id>_img` beside each zone, by zone id. */
    var icons: map<string, string>
    /** The tabs, by tab id. */
    var tabs: map<string, TabLook>

    constructor (skin: AjaxPool.Skin, jar: seq<Cookie>, zones: map<string, string>, icons: map<string, string>, tabs: map<string, TabLook>)
      ensures this.skin == skin && this.jar == jar && this.zones == zones && this.icons == icons && this.tabs == tabs
    {
      this.skin := skin;
      this.jar := jar;
      this.zones := zones;
      this.icons := icons;
      this.tabs := tabs;
    }

    /** `createCookie(name, value)`: stores the escaped value. */
    method CreateCookie(name: string, value: string)
      modifies this
      ensures jar == SetCookie(old(jar), name, JsEscape.Escape(value))
      ensures zones == old(zones) && icons == old(icons) && tabs == old(tabs)
    {
      jar := SetCookie(jar, name, JsEscape.Escape(value));
    }

    /** `readCookie(name)`: scans the pieces of the cookie string. */
    method ReadCookie(name: string) returns (r: Option<string>)
      ensures r == Read(jar, name)
    {
      var nameEQ := name + "=";
      var ca := Text.Split(CookieString(jar), ';');
      var i := 0;
      while i < |ca|
        invariant 0 <= i <= |ca|
        invariant LookupFrom(ca, nameEQ, 0) == LookupFrom(ca, nameEQ, i)
        decreases |ca| - i
      {
        var c := ca[i];
        while |c| > 0 && c[0] == ' '
          invariant Text.LStrip(c, {' '}) == Text.LStrip(ca[i], {' '})
          decreases |c|
        {
          c := c[1..];
        }
        if Text.StartsWith(c, nameEQ) {
          return Some(JsEscape.Unescape(c[|nameEQ|..]));
        }
        i := i + 1;
      }
      return None;
    }

    /** `toggleCookie(cookieId)`: flips the zone's cookie and shows the zone
        when it becomes expanded; a missing zone or icon stops it half-way. */
    method ToggleCookie(cookieId: string) returns (ok: bool)
      modifies this
      ensures var state := Read(old(jar), cookieId);
        var jar1 := if state == Some("collapsed") || state == Some("expanded") then old(jar)
                    else SetCookie(old(jar), cookieId, JsEscape.Escape("collapsed"));
        && tabs == old(tabs)
        && (cookieId !in old(zones) ==> !ok && jar == jar1 && zones == old(zones) && icons == old(icons))
        && (cookieId in old(zones) ==> zones == old(zones)[cookieId := ZoneDisplay(Toggled(state))])
        && (cookieId in old(zones) && cookieId !in old(icons) ==> !ok && jar == jar1 && icons == old(icons))
        && (cookieId in old(zones) && cookieId in old(icons) ==>
              ok && jar == ToggledJar(old(jar), cookieId)
              && icons == old(icons)[cookieId := ZoneIcon(skin, Toggled(state))])
    {
      var state := ReadCookie(cookieId);
      if state != Some("collapsed") && state != Some("expanded") {
        CreateCookie(cookieId, "collapsed");
        state := Some("collapsed");
      }
      if cookieId !in zones {
        return false;
      }
      var newState := if state == Some("collapsed") then "expanded" else "collapsed";
      zones := zones[cookieId := ZoneDisplay(newState)];
      if cookieId !in icons {
        return false;
      }
      icons := icons[cookieId := ZoneIcon(skin, newState)];
      CreateCookie(cookieId, newState);
      return true;
    }

    /** `manageTab(tabId, action)` for a tab that exists. */
    method ManageTab(tabId: string, show: bool) returns (ok: bool)
      modifies this
      ensures ok <==> tabId in old(tabs)
      ensures tabs == if ok then old(tabs)[tabId := Look(skin, show)] else old(tabs)
      ensures jar == old(jar) && zones == old(zones) && icons == old(icons)
    {
      if tabId !in tabs {
        return false;
      }
      tabs := tabs[tabId := Look(skin, show)];
      return true;
    }

    /** `showTab(tabId)`. */
    method ShowTab(tabId: string) returns (ok: bool)
      modifies this
      ensures (jar, tabs, ok) == ShowTabEffect(skin, old(jar), old(tabs), tabId)
      ensures zones == old(zones) && icons == old(icons)
    {
      ok := ManageTab(tabId, true);
      if !ok {
        return;
      }
      var idParts := Text.Split(tabId, '_');
      var prefix := idParts[0] + "_";
      CreateCookie("tab_" + idParts[0], tabId);
      var count := TabCount(tabId);
      if count.None? {
        return;
      }
      var nb := count.value;
      ghost var shown := tabs;
      var i := 0;
      while i < nb
        invariant 0 <= i <= nb
        invariant jar == SetCookie(old(jar), "tab_" + idParts[0], JsEscape.Escape(tabId))
        invariant zones == old(zones) && icons == old(icons)
        invariant HideFrom(skin, tabs, prefix, nb, tabId, i) == HideFrom(skin, shown, prefix, nb, tabId, 0)
        decreases nb - i
      {
        var idTab := TabId(prefix, i + 1, nb);
        if idTab != tabId {
          ok := ManageTab(idTab, false);
          if !ok {
            return;
          }
        }
        i := i + 1;
      }
    }

    /** `initTab(cookieId, defaultValue)`: shows the tab the cookie names,
        or the default one. */
    method InitTab(cookieId: string, default: string) returns (ok: bool)
      modifies this
      ensures (jar, tabs, ok) == ShowTabEffect(skin, old(jar), old(tabs), TabToSelect(Read(old(jar), cookieId), default))
      ensures zones == old(zones) && icons == old(icons)
    {
      var toSelect := ReadCookie(cookieId);
      if toSelect.None? || toSelect.value == "" {
        ok := ShowTab(default);
      } else {
        ok := ShowTab(toSelect.value);
      }
    }
  }
}
