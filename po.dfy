/** Translation files (gen/po.py): the messages of a `.po`/`.pot` file, how a
    file's messages are brought up to date with the messages the generator
    produces, the naming convention of translation files, the parser of their
    lines and the writer of their text, each the partner of the other. A
    missing default or message id (Python `None`) is the empty string here. */
module Po {
  import opened Wrappers
  import opened Text
  import opened Lists
  import opened Paths

  /** One i18n message: its id, its translation, the default text and whether
      the translation may need to be redone. */
  datatype PoMessage = PoMessage(id: string, msg: string, default: string, fuzzy: bool, comments: seq<string>)

  /** One header line of a file. */
  datatype PoHeader = PoHeader(name: string, value: string)

  // ---------------------------------------------------------------------------
  // Updating one message

  /** `PoMessage.update`: the message after being brought up to date with
      `newMsg`, the message of the same id in the freshly generated pot file. */
  function UpdateMessage(m: PoMessage, newMsg: PoMessage, isPot: bool, language: string): (r: PoMessage)
    ensures r.id == m.id && r.comments == m.comments
    // A pot file carries no translation; its default is only ever filled in.
    ensures isPot ==> r.msg == "" && r.fuzzy == m.fuzzy
    ensures isPot ==> r.default == (if m.default == "" then newMsg.default else m.default)
    // A po file always adopts the pot's default.
    ensures !isPot ==> r.default == newMsg.default
    // Outside English, only the fuzzy flag may change, and only with the default.
    ensures !isPot && language != "en" ==> r.msg == m.msg
    ensures !isPot && language != "en" && m.default != newMsg.default ==> (r.fuzzy <==> Strip(m.msg) != "")
    ensures !isPot && language != "en" && m.default == newMsg.default ==> r.fuzzy == m.fuzzy
    // In English the translation is never left empty while there is a default.
    ensures !isPot && language == "en" && r.msg == "" ==> newMsg.default == ""
  {
    if isPot then
      m.(msg := "", default := if m.default == "" then newMsg.default else m.default)
    else
      var oldDefault := m.default;
      var m1 := if m.default != newMsg.default
                then m.(default := newMsg.default, fuzzy := Strip(m.msg) != "")
                else m;
      if language == "en" then
        var m2 := if m1.msg == "" then m1.(msg := m1.default) else m1;
        if m2.fuzzy && m2.msg == oldDefault then m2.(fuzzy := false, msg := m2.default) else m2
      else m1
  }

  /** Bringing a pot message up to date twice is bringing it up to date once. */
  lemma PotUpdateIdempotent(m: PoMessage, newMsg: PoMessage, language: string)
    ensures UpdateMessage(UpdateMessage(m, newMsg, true, language), newMsg, true, language) == UpdateMessage(m, newMsg, true, language)
  {
  }

  /** An English translation the user never changed (it still equals the old
      default) follows the new default and is not fuzzy. */
  lemma EnglishFollowsDefault(m: PoMessage, newMsg: PoMessage)
    requires m.msg == m.default && m.default != newMsg.default && Strip(m.msg) != ""
    ensures UpdateMessage(m, newMsg, false, "en").msg == newMsg.default
    ensures !UpdateMessage(m, newMsg, false, "en").fuzzy
  {
  }

  /** An English translation the user did change is kept, and it becomes fuzzy
      when the default changes. */
  lemma EnglishKeepsOwnTranslation(m: PoMessage, newMsg: PoMessage)
    requires m.msg != m.default && m.default != newMsg.default && Strip(m.msg) != ""
    ensures UpdateMessage(m, newMsg, false, "en").msg == m.msg
    ensures UpdateMessage(m, newMsg, false, "en").fuzzy
  {
    assert m.msg != "";
  }

  /** An empty English translation is filled with the (new) default. */
  lemma EnglishFillsEmpty(m: PoMessage, newMsg: PoMessage)
    requires m.msg == ""
    ensures UpdateMessage(m, newMsg, false, "en").msg == newMsg.default
  {
  }

  // ---------------------------------------------------------------------------
  // Cloning a message for another flavour

  /** The part of `s` after its first `_` (`s.split('_', 1)[1]`). */
  function AfterFirstUnderscore(s: string): (r: string)
    requires '_' in s
    ensures EndsWith(s, r) && |r| < |s|
  {
    var i := IndexOf(s, '_');
    s[i + 1..]
  }

  /** `PoMessage.clone`: the same message under an id where `oldPrefix` is
      replaced by `newPrefix`; an id that does not start with `oldPrefix` keeps
      what follows its first `_`, and one without `_` raises IndexError. The
      clone is not fuzzy. */
  function Clone(m: PoMessage, oldPrefix: string, newPrefix: string): (r: Result<PoMessage, string>)
    ensures r.Err? <==> !StartsWith(m.id, oldPrefix) && '_' !in m.id
    ensures r.Ok? ==> r.value.msg == m.msg && r.value.default == m.default
    ensures r.Ok? ==> r.value.comments == m.comments && !r.value.fuzzy
    ensures r.Ok? ==> StartsWith(r.value.id, newPrefix)
    ensures StartsWith(m.id, oldPrefix) ==> r.Ok? && r.value.id == newPrefix + m.id[|oldPrefix|..]
    ensures !StartsWith(m.id, oldPrefix) && '_' in m.id ==>
      r.Ok? && r.value.id == newPrefix + "_" + AfterFirstUnderscore(m.id)
  {
    if StartsWith(m.id, oldPrefix) then
      Ok(PoMessage(newPrefix + m.id[|oldPrefix|..], m.msg, m.default, false, m.comments))
    else if '_' in m.id then
      Ok(PoMessage(newPrefix + "_" + AfterFirstUnderscore(m.id), m.msg, m.default, false, m.comments))
    else Err("IndexError")
  }

  /** Cloning with the prefixes swapped gives the original id back. */
  lemma CloneRoundTrip(m: PoMessage, oldPrefix: string, newPrefix: string)
    requires StartsWith(m.id, oldPrefix)
    ensures Clone(m, oldPrefix, newPrefix).Ok?
    ensures Clone(Clone(m, oldPrefix, newPrefix).value, newPrefix, oldPrefix).Ok?
    ensures Clone(Clone(m, oldPrefix, newPrefix).value, newPrefix, oldPrefix).value.id == m.id
  {
    var c := Clone(m, oldPrefix, newPrefix).value;
    assert c.id[|newPrefix|..] == m.id[|oldPrefix|..];
    assert m.id == oldPrefix + m.id[|oldPrefix|..];
  }

  // ---------------------------------------------------------------------------
  // File names

  /** What a file name says: pot or po, application, domain and language. */
  datatype FileInfo = FileInfo(isPot: bool, app: string, domain: string, language: string)

  /** The name parsing of `PoFile.__init__`: the base name without extension is
      `app` or `app-domain` for a pot file, `app-lang` or `app-domain-lang` for
      a po file; a po name without `-` raises IndexError. */
  function ParseFileName(fileName: string): (r: Result<FileInfo, string>)
    ensures r.Ok? ==> r.value.isPot == EndsWith(fileName, ".pot")
    ensures r.Err? <==> !EndsWith(fileName, ".pot") && |Split(SplitExt(Basename(fileName)).0, '-')| == 1
    ensures r.Ok? ==> '-' !in r.value.app && '-' !in r.value.language
    ensures r.Ok? && r.value.isPot ==> r.value.language == ""
  {
    var baseName := SplitExt(Basename(fileName)).0;
    var elems := Split(baseName, '-');
    if EndsWith(fileName, ".pot") then
      if |elems| == 1 then
        SplitJoin(baseName, '-');
        Ok(FileInfo(true, baseName, baseName, ""))
      else Ok(FileInfo(true, elems[0], elems[1], ""))
    else if |elems| == 1 then Err("IndexError")
    else if |elems| == 2 then Ok(FileInfo(false, elems[0], elems[0], elems[1]))
    else Ok(FileInfo(false, elems[0], elems[1], elems[2]))
  }

  /** `getPoFileName`: the po file of a pot file for a language. */
  function GetPoFileName(info: FileInfo, language: string): (r: string)
    ensures EndsWith(r, ".po") && !EndsWith(r, ".pot")
  {
    var stem := if info.app == info.domain then info.app + "-" + language
                else info.app + "-" + info.domain + "-" + language;
    var r := stem + ".po";
    assert r[|r| - 3..] == ".po";
    assert r[|r| - 1] == 'o';
    r
  }

  /** A name part usable in a file name: no separator of any kind. */
  predicate Plain(s: string) {
    s != [] && '-' !in s && '.' !in s && '/' !in s
  }

  /** Splitting `stem.ext` at its extension and at `-` gives back the parts. */
  lemma {:induction false} PartsOfName(name: string, parts: seq<string>, ext: string)
    requires |parts| > 0 && forall i :: 0 <= i < |parts| ==> Plain(parts[i])
    requires Plain(ext) && name == Join(parts, "-") + "." + ext
    ensures SplitExt(Basename(name)).0 == Join(parts, "-")
    ensures Split(SplitExt(Basename(name)).0, '-') == parts
  {
    var stem := Join(parts, "-");
    JoinSplit(parts, '-');
    JoinPlain(parts);
    if |parts| == 1 {
      assert stem == parts[0];
      assert stem[0] in parts[0];
    } else {
      JoinShape(parts);
    }
    assert '/' !in name;
    SplitExtSimple(stem, ext);
  }

  /** Joining plain parts with `-` adds no dot and no slash. */
  lemma {:induction false} JoinPlain(parts: seq<string>)
    requires forall i :: 0 <= i < |parts| ==> Plain(parts[i])
    ensures '.' !in Join(parts, "-") && '/' !in Join(parts, "-")
    decreases |parts|
  {
    if |parts| > 1 {
      JoinPlain(parts[..|parts| - 1]);
    }
  }

  /** Several parts joined with `-` contain a `-`, so never start with a dot
      (nor are empty). */
  lemma {:induction false} JoinShape(parts: seq<string>)
    requires |parts| > 1 && forall i :: 0 <= i < |parts| ==> Plain(parts[i])
    ensures Join(parts, "-") != [] && Join(parts, "-")[0] != '.'
  {
    JoinPlain(parts);
    assert Join(parts, "-") != [];
    assert Join(parts, "-")[0] in Join(parts, "-");
  }

  /** A pot file named after its application alone serves the domain of the
      same name. */
  lemma PotNameApp(app: string)
    requires Plain(app)
    ensures ParseFileName(app + ".pot") == Ok(FileInfo(true, app, app, ""))
  {
    assert Join([app], "-") == app;
    PartsOfName(app + ".pot", [app], "pot");
  }

  /** A pot file `app-domain.pot` names both. */
  lemma PotNameDomain(app: string, domain: string)
    requires Plain(app) && Plain(domain)
    ensures ParseFileName(app + "-" + domain + ".pot") == Ok(FileInfo(true, app, domain, ""))
  {
    assert Join([app, domain], "-") == app + "-" + domain;
    PartsOfName(app + "-" + domain + ".pot", [app, domain], "pot");
  }

  /** `getPoFileName` inverts the parsing: the po name made for a language
      parses back to the pot's application and domain and that language. */
  lemma PoFileNameRoundTrip(info: FileInfo, language: string)
    requires Plain(info.app) && Plain(info.domain) && Plain(language)
    ensures ParseFileName(GetPoFileName(info, language)) == Ok(FileInfo(false, info.app, info.domain, language))
  {
    if info.app == info.domain {
      assert Join([info.app, language], "-") == info.app + "-" + language;
      PartsOfName(GetPoFileName(info, language), [info.app, language], "po");
    } else {
      var parts := [info.app, info.domain, language];
      assert Join(parts[..2], "-") == info.app + "-" + info.domain;
      assert Join(parts, "-") == info.app + "-" + info.domain + "-" + language;
      PartsOfName(GetPoFileName(info, language), parts, "po");
    }
  }

  // ---------------------------------------------------------------------------
  // The messages of a file

  /** The ids of messages, in order (`[m.id for m in messages]`). */
  function Ids(ns: seq<PoMessage>): (r: seq<string>)
    ensures |r| == |ns| && forall i :: 0 <= i < |ns| ==> r[i] == ns[i].id
  {
    if ns == [] then [] else Ids(ns[..|ns| - 1]) + [ns[|ns| - 1].id]
  }

  /** The ids of `ids` that are in `newIds`, in order. */
  function KeepIn(ids: seq<string>, newIds: seq<string>): (r: seq<string>)
  {
    if ids == [] then [] else (if ids[0] in newIds then [ids[0]] else []) + KeepIn(ids[1..], newIds)
  }

  /** The ids of `ids` that are not in `newIds`, in order. */
  function NotIn(ids: seq<string>, newIds: seq<string>): (r: seq<string>)
  {
    if ids == [] then [] else (if ids[0] !in newIds then [ids[0]] else []) + NotIn(ids[1..], newIds)
  }

  /** The ids of `ids` that are not in `newIds`, last one first: the order in
      which a walk from the end removes them. */
  function DropRev(ids: seq<string>, newIds: seq<string>): (r: seq<string>)
  {
    if ids == [] then [] else DropRev(ids[1..], newIds) + (if ids[0] !in newIds then [ids[0]] else [])
  }

  /** `KeepIn` keeps exactly the ids that are new. */
  lemma {:induction false} KeepInMembers(ids: seq<string>, newIds: seq<string>)
    ensures forall x :: x in KeepIn(ids, newIds) <==> x in ids && x in newIds
    decreases |ids|
  {
    if ids != [] {
      KeepInMembers(ids[1..], newIds);
      assert ids == [ids[0]] + ids[1..];
    }
  }

  /** `NotIn` keeps exactly the ids that are not new. */
  lemma {:induction false} NotInMembers(ids: seq<string>, newIds: seq<string>)
    ensures forall x :: x in NotIn(ids, newIds) <==> x in ids && x !in newIds
    decreases |ids|
  {
    if ids != [] {
      NotInMembers(ids[1..], newIds);
      assert ids == [ids[0]] + ids[1..];
    }
  }

  /** `DropRev` collects exactly the ids that are not new. */
  lemma {:induction false} DropRevMembers(ids: seq<string>, newIds: seq<string>)
    ensures forall x :: x in DropRev(ids, newIds) <==> x in ids && x !in newIds
    decreases |ids|
  {
    if ids != [] {
      DropRevMembers(ids[1..], newIds);
      assert ids == [ids[0]] + ids[1..];
    }
  }

  /** The entries of `d` whose key is in `newIds`. */
  function Restrict(d: map<string, PoMessage>, newIds: seq<string>): (r: map<string, PoMessage>)
    ensures forall k :: k in r <==> k in d && k in newIds
    ensures forall k :: k in r ==> r[k] == d[k]
  {
    map k | k in d && k in newIds :: d[k]
  }

  /** A file's list and dictionary agree: the list has no repeated id, both
      hold the same ids and every message is filed under its own id. */
  ghost predicate Consistent(order: seq<string>, d: map<string, PoMessage>) {
    NoDup(order) && (forall k :: k in d <==> k in order) && (forall k :: k in d ==> d[k].id == k)
  }

  /** The dictionary after each new message has updated the message of its id,
      or has been added and updated with itself. */
  function DictFold(d: map<string, PoMessage>, ns: seq<PoMessage>, isPot: bool, language: string): (r: map<string, PoMessage>)
    ensures forall k :: k in r <==> k in d || k in Ids(ns)
    ensures forall k :: k in d && k !in Ids(ns) ==> r[k] == d[k]
    ensures (forall k :: k in d ==> d[k].id == k) ==> forall k :: k in r ==> r[k].id == k
  {
    if ns == [] then d
    else
      var p := DictFold(d, ns[..|ns| - 1], isPot, language);
      var n := ns[|ns| - 1];
      assert Ids(ns) == Ids(ns[..|ns| - 1]) + [n.id];
      p[n.id := UpdateMessage(if n.id in p then p[n.id] else n, n, isPot, language)]
  }

  /** The list when the existing order is kept: an id is appended when its
      message is not yet in the dictionary. */
  function KeepOrder(order: seq<string>, d: map<string, PoMessage>, ns: seq<PoMessage>, isPot: bool, language: string): (r: seq<string>)
    ensures |order| <= |r| && r[..|order|] == order
  {
    if ns == [] then order
    else
      var p := KeepOrder(order, d, ns[..|ns| - 1], isPot, language);
      var n := ns[|ns| - 1];
      if n.id in DictFold(d, ns[..|ns| - 1], isPot, language) then p
      else
        assert (p + [n.id])[..|order|] == p[..|order|];
        p + [n.id]
  }

  /** The file's state after the optional removal of old messages. */
  function AfterRemoval(order: seq<string>, d: map<string, PoMessage>, newIds: seq<string>, remove: bool): (r: (seq<string>, map<string, PoMessage>))
    ensures !remove ==> r == (order, d)
    ensures remove ==> forall x :: x in r.0 ==> x in newIds
    ensures remove ==> forall k :: k in r.1 ==> k in newIds
  {
    KeepInMembers(order, newIds);
    if remove then (KeepIn(order, newIds), Restrict(d, newIds)) else (order, d)
  }

  /** Keeping some ids of a list without repeats gives a list without repeats. */
  lemma {:induction false} KeepInNoDup(ids: seq<string>, newIds: seq<string>)
    requires NoDup(ids)
    ensures NoDup(KeepIn(ids, newIds))
    decreases |ids|
  {
    if ids != [] {
      assert NoDup(ids[1..]) by {
        forall i, j | 0 <= i < j < |ids[1..]| ensures ids[1..][i] != ids[1..][j] {
          assert ids[1..][i] == ids[i + 1] && ids[1..][j] == ids[j + 1];
        }
      }
      assert ids[0] !in ids[1..] by {
        forall j | 0 <= j < |ids[1..]| ensures ids[1..][j] != ids[0] {
          assert ids[1..][j] == ids[j + 1];
        }
      }
      KeepInNoDup(ids[1..], newIds);
      KeepInMembers(ids[1..], newIds);
      NoDupConcat(if ids[0] in newIds then [ids[0]] else [], KeepIn(ids[1..], newIds));
    }
  }

  /** Leaving out some ids of a list without repeats gives a list without repeats. */
  lemma {:induction false} NotInNoDup(ids: seq<string>, newIds: seq<string>)
    requires NoDup(ids)
    ensures NoDup(NotIn(ids, newIds))
    decreases |ids|
  {
    if ids != [] {
      assert NoDup(ids[1..]) by {
        forall i, j | 0 <= i < j < |ids[1..]| ensures ids[1..][i] != ids[1..][j] {
          assert ids[1..][i] == ids[i + 1] && ids[1..][j] == ids[j + 1];
        }
      }
      assert ids[0] !in ids[1..] by {
        forall j | 0 <= j < |ids[1..]| ensures ids[1..][j] != ids[0] {
          assert ids[1..][j] == ids[j + 1];
        }
      }
      NotInNoDup(ids[1..], newIds);
      NotInMembers(ids[1..], newIds);
      NoDupConcat(if ids[0] !in newIds then [ids[0]] else [], NotIn(ids[1..], newIds));
    }
  }

  /** Removing the messages that are not new keeps list and dictionary in
      agreement. */
  lemma RemovalConsistent(order: seq<string>, d: map<string, PoMessage>, newIds: seq<string>)
    requires Consistent(order, d)
    ensures Consistent(KeepIn(order, newIds), Restrict(d, newIds))
  {
    KeepInNoDup(order, newIds);
    KeepInMembers(order, newIds);
  }

  /** Keeping the existing order keeps list and dictionary in agreement: the
      old list comes first, and exactly the ids not yet known are appended. */
  lemma {:induction false} KeepOrderConsistent(order: seq<string>, d: map<string, PoMessage>, ns: seq<PoMessage>, isPot: bool, language: string)
    requires Consistent(order, d)
    ensures Consistent(KeepOrder(order, d, ns, isPot, language), DictFold(d, ns, isPot, language))
    ensures forall x :: x in KeepOrder(order, d, ns, isPot, language) <==> x in order || x in Ids(ns)
    decreases |ns|
  {
    if ns != [] {
      var init := ns[..|ns| - 1];
      var n := ns[|ns| - 1];
      KeepOrderConsistent(order, d, init, isPot, language);
      assert Ids(ns) == Ids(init) + [n.id];
      var p := KeepOrder(order, d, init, isPot, language);
      var dp := DictFold(d, init, isPot, language);
      if n.id !in dp {
        NoDupConcat(p, [n.id]);
      }
    }
  }

  /** The ids of several messages, listed in their order, are the dictionary's
      new ids. */
  lemma ReorderConsistent(order: seq<string>, d: map<string, PoMessage>, ns: seq<PoMessage>, isPot: bool, language: string)
    requires Consistent(order, d) && NoDup(Ids(ns))
    ensures Consistent(Ids(ns) + NotIn(order, Ids(ns)), DictFold(d, ns, isPot, language))
  {
    NotInNoDup(order, Ids(ns));
    NotInMembers(order, Ids(ns));
    NoDupConcat(Ids(ns), NotIn(order, Ids(ns)));
  }

  /** A message whose id occurs once among the new messages ends up as the
      existing message of that id, or the new message itself, brought up to
      date with the new message. */
  lemma {:induction false} DictFoldUpdated(d: map<string, PoMessage>, ns: seq<PoMessage>, j: nat, isPot: bool, language: string)
    requires j < |ns| && forall i :: 0 <= i < |ns| && i != j ==> ns[i].id != ns[j].id
    ensures DictFold(d, ns, isPot, language)[ns[j].id]
      == UpdateMessage(if ns[j].id in d then d[ns[j].id] else ns[j], ns[j], isPot, language)
    decreases |ns|
  {
    var init := ns[..|ns| - 1];
    if j < |ns| - 1 {
      DictFoldUpdated(d, init, j, isPot, language);
    } else {
      assert ns[j].id !in Ids(init);
    }
  }

  /** `PoFile`: a po or pot file in memory. The list of messages holds the
      messages of the dictionary, by id. */
  class PoFile {
    const fileName: string
    const isPot: bool
    const applicationName: string
    const domain: string
    const language: string
    var messages: seq<string>
    var messagesDict: map<string, PoMessage>
    var headers: seq<PoHeader>
    var headersDict: map<string, PoHeader>
    var generated: bool

    /** List and dictionary agree. */
    ghost predicate Valid()
      reads this
    {
      Consistent(messages, messagesDict)
    }

    /** An empty file whose application, domain and language come from its name. */
    constructor (fileName: string)
      requires ParseFileName(fileName).Ok?
      ensures this.fileName == fileName
      ensures ParseFileName(fileName).value == FileInfo(isPot, applicationName, domain, language)
      ensures messages == [] && messagesDict == map[] && headers == [] && headersDict == map[]
      ensures !generated && Valid()
    {
      var info := ParseFileName(fileName).value;
      this.fileName := fileName;
      isPot := info.isPot;
      applicationName := info.app;
      domain := info.domain;
      language := info.language;
      messages := [];
      messagesDict := map[];
      headers := [];
      headersDict := map[];
      generated := false;
    }

    /** `addMessage`: a copy of the message goes at the end of the list and
        under its id in the dictionary. */
    method AddMessage(newMsg: PoMessage) returns (res: PoMessage)
      modifies this
      ensures res == newMsg
      ensures messages == old(messages) + [newMsg.id]
      ensures messagesDict == old(messagesDict)[newMsg.id := newMsg]
      ensures headers == old(headers) && headersDict == old(headersDict) && generated == old(generated)
    {
      res := newMsg;
      messages := messages + [res.id];
      messagesDict := messagesDict[res.id := res];
    }

    /** `addHeader`: the header goes at the end and under its name. */
    method AddHeader(newHeader: PoHeader)
      modifies this
      ensures headers == old(headers) + [newHeader]
      ensures headersDict == old(headersDict)[newHeader.name := newHeader]
      ensures messages == old(messages) && messagesDict == old(messagesDict) && generated == old(generated)
    {
      headers := headers + [newHeader];
      headersDict := headersDict[newHeader.name := newHeader];
    }

    /** The first part of `update` with `removeNotNewMessages`: walking the list
        from its end, every message whose id is not new is deleted from list
        and dictionary; the removed ids are returned in that order. */
    method RemoveNotNewMessages(newIds: seq<string>) returns (removedIds: seq<string>)
      requires Valid()
      modifies this
      ensures removedIds == DropRev(old(messages), newIds)
      ensures messages == KeepIn(old(messages), newIds)
      ensures messagesDict == Restrict(old(messagesDict), newIds)
      ensures headers == old(headers) && headersDict == old(headersDict) && generated == old(generated)
      ensures Valid()
    {
      RemovalConsistent(messages, messagesDict, newIds);
      var msgs, dict;
      msgs, dict, removedIds := RemovalWalk(messages, messagesDict, newIds);
      messages, messagesDict := msgs, dict;
    }

    /** The second part of `update` when the existing order is kept: each new
        message updates the message of its id, which is first added when
        missing. */
    method MergeKeepingOrder(newMessages: seq<PoMessage>)
      modifies this
      ensures messages == KeepOrder(old(messages), old(messagesDict), newMessages, isPot, language)
      ensures messagesDict == DictFold(old(messagesDict), newMessages, isPot, language)
      ensures headers == old(headers) && headersDict == old(headersDict) && generated == old(generated)
    {
      var o, d := messages, messagesDict;
      var msgs, dict := o, d;
      for i := 0 to |newMessages|
        invariant msgs == KeepOrder(o, d, newMessages[..i], isPot, language)
        invariant dict == DictFold(d, newMessages[..i], isPot, language)
        invariant unchanged(this)
      {
        var newMsg := newMessages[i];
        DictFoldStep(d, newMessages, i, isPot, language);
        KeepOrderStep(o, d, newMessages, i, isPot, language);
        var msg;
        if newMsg.id in dict {
          msg := dict[newMsg.id];
        } else {
          msg := newMsg;
          msgs := msgs + [newMsg.id];
        }
        dict := dict[newMsg.id := UpdateMessage(msg, newMsg, isPot, language)];
      }
      assert newMessages[..|newMessages|] == newMessages;
      messages, messagesDict := msgs, dict;
    }

    /** The second part of `update` when the order is the new messages' one:
        the list is rebuilt from the new messages' ids, then the old messages
        that are not new follow. */
    method MergeInNewOrder(newMessages: seq<PoMessage>)
      modifies this
      ensures messages == Ids(newMessages) + NotIn(old(messages), Ids(newMessages))
      ensures messagesDict == DictFold(old(messagesDict), newMessages, isPot, language)
      ensures headers == old(headers) && headersDict == old(headersDict) && generated == old(generated)
    {
      var newIds := Ids(newMessages);
      var notNewMessages := NotIn(messages, newIds);
      var msgs, dict := NewOrderWalk(messagesDict, newMessages, isPot, language);
      messages, messagesDict := msgs + notNewMessages, dict;
    }

    /** `update`: optionally drop the messages that are not new (their ids are
        returned), then bring every new message in, keeping the existing order
        or following the new messages' order. The list and the dictionary
        still agree afterwards, except when new messages repeat an id and the
        list is rebuilt in their order. */
    method Update(newMessages: seq<PoMessage>, removeNotNewMessages: bool, keepExistingOrder: bool)
      returns (removedIds: seq<string>)
      requires Valid()
      modifies this
      ensures removedIds == if removeNotNewMessages then DropRev(old(messages), Ids(newMessages)) else []
      ensures var s0 := AfterRemoval(old(messages), old(messagesDict), Ids(newMessages), removeNotNewMessages);
        && (keepExistingOrder ==> messages == KeepOrder(s0.0, s0.1, newMessages, isPot, language))
        && (!keepExistingOrder ==> messages == Ids(newMessages) + NotIn(s0.0, Ids(newMessages)))
        && messagesDict == DictFold(s0.1, newMessages, isPot, language)
      ensures keepExistingOrder || NoDup(Ids(newMessages)) ==> Valid()
      ensures headers == old(headers) && headersDict == old(headersDict) && generated == old(generated)
    {
      var newIds := Ids(newMessages);
      removedIds := [];
      if removeNotNewMessages {
        removedIds := RemoveNotNewMessages(newIds);
      }
      ghost var o0, d0 := messages, messagesDict;
      assert Consistent(o0, d0);
      if keepExistingOrder {
        MergeKeepingOrder(newMessages);
        KeepOrderConsistent(o0, d0, newMessages, isPot, language);
      } else {
        MergeInNewOrder(newMessages);
        if NoDup(newIds) {
          ReorderConsistent(o0, d0, newMessages, isPot, language);
        }
      }
    }

    /** `generateHeaders`: the header entry, written from the file's own
        headers, or from the template (with the file's application, language
        and domain, and the given creation time) when it has none. */
    method GenerateHeaders(creationTime: string) returns (text: string)
      ensures text == LinesText(HeaderEntryLines(headers, isPot, applicationName, creationTime, language, domain))
    {
      if headers == [] {
        text := DefaultHeaderText(isPot, applicationName, creationTime, language, domain);
        DefaultEntry(isPot, applicationName, creationTime, language, domain);
      } else {
        var lines := HeadersWalk(headers);
        text := EmptyEntry + lines + "\n";
        BlockText(headers);
        KnownHeadersEntry(headers, isPot, applicationName, creationTime, language, domain);
      }
    }

    /** The messages of `generate`, each written and followed by a blank line,
        in the order of the list. Each message is written with its comments
        (`MessageText`); the source's `PoMessage.generate` drops them
        (`MessageTextAsWritten`, `AsWrittenLosesComments`). */
    method GenerateMessages() returns (text: string)
      requires Valid()
      ensures text == LinesText(EntriesLines(Listed(messages, messagesDict)))
    {
      text := "";
      for i := 0 to |messages|
        invariant text == LinesText(EntriesLines(Listed(messages[..i], messagesDict)))
      {
        var msg := messagesDict[messages[i]];
        ListedStep(messages, messagesDict, i);
        WrittenText(Listed(messages[..i], messagesDict), msg);
        text := text + MessageText(msg) + "\n";
      }
      assert messages[..|messages|] == messages;
    }

    /** `generate`: the header entry then the messages; the file is marked
        generated. Its text is the file's lines written out, and those lines
        read back as its messages and the headers written (see WrittenRead). */
    method Generate(creationTime: string) returns (content: string)
      requires Valid()
      modifies this
      ensures messages == old(messages) && messagesDict == old(messagesDict)
      ensures headers == old(headers) && headersDict == old(headersDict)
      ensures generated && Valid()
      ensures content == LinesText(WrittenLines(headers, Listed(messages, messagesDict), isPot, applicationName, creationTime, language, domain))
    {
      var head := GenerateHeaders(creationTime);
      var body := GenerateMessages();
      content := head + body;
      LinesTextConcat(HeaderEntryLines(headers, isPot, applicationName, creationTime, language, domain),
                      EntriesLines(Listed(messages, messagesDict)));
      generated := true;
    }
  }

  /** The loop of `update` with `removeNotNewMessages`, on the list `o` and the
      dictionary `d` of a consistent file: walking from the end, every id that
      is not new is cut out of the list and the dictionary and collected. */
  method RemovalWalk(o: seq<string>, d: map<string, PoMessage>, newIds: seq<string>)
    returns (msgs: seq<string>, dict: map<string, PoMessage>, removed: seq<string>)
    requires Consistent(o, d)
    ensures msgs == KeepIn(o, newIds) && dict == Restrict(d, newIds) && removed == DropRev(o, newIds)
  {
    msgs, dict := o, d;
    removed := [];
    var i := |msgs| - 1;
    assert o[i + 1..] == [];
    while i >= 0
      invariant RemovalInv(o, d, newIds, i, msgs, dict, removed)
    {
      RemovalAt(o, d, newIds, i, msgs, dict, removed);
      var oldId := msgs[i];
      var msgs', dict', removed' := msgs, dict, removed;
      if oldId !in newIds {
        msgs' := msgs[..i] + msgs[i + 1..];
        dict' := dict - {oldId};
        removed' := removed + [oldId];
      }
      RemovalAdvance(o, d, newIds, i, msgs, dict, removed, msgs', dict', removed');
      msgs, dict, removed := msgs', dict', removed';
      i := i - 1;
    }
    assert o[0..] == o;
    RestrictIs(dict, d, o, newIds);
  }

  /** The loop of `update` that follows the new messages' order: each new
      message updates the message of its id in `d`, or is added and updated
      with itself, and its id is listed. */
  method NewOrderWalk(d: map<string, PoMessage>, newMessages: seq<PoMessage>, isPot: bool, language: string)
    returns (msgs: seq<string>, dict: map<string, PoMessage>)
    ensures msgs == Ids(newMessages) && dict == DictFold(d, newMessages, isPot, language)
  {
    msgs, dict := [], d;
    for i := 0 to |newMessages|
      invariant msgs == Ids(newMessages[..i])
      invariant dict == DictFold(d, newMessages[..i], isPot, language)
    {
      var newMsg := newMessages[i];
      DictFoldStep(d, newMessages, i, isPot, language);
      IdsStep(newMessages, i);
      var msg;
      if newMsg.id in dict {
        msg := dict[newMsg.id];
      } else {
        msg := newMsg;
      }
      msgs := msgs + [newMsg.id];
      dict := dict[newMsg.id := UpdateMessage(msg, newMsg, isPot, language)];
    }
    assert newMessages[..|newMessages|] == newMessages;
  }

  /** The state of the walk from the end of list `o` (dictionary `d`) once
      the positions after `i` are done: the list holds the untouched prefix and
      the kept ids, the removed ids are collected backwards, and the dictionary
      holds the entries of `d` whose id was not removed. */
  ghost predicate RemovalInv(o: seq<string>, d: map<string, PoMessage>, newIds: seq<string>, i: int,
                             msgs: seq<string>, dict: map<string, PoMessage>, removed: seq<string>) {
    -1 <= i < |o| && msgs == o[..i + 1] + KeepIn(o[i + 1..], newIds)
    && removed == DropRev(o[i + 1..], newIds)
    && (forall k :: k in dict <==> k in d && k !in removed)
    && (forall k :: k in dict ==> dict[k] == d[k])
  }

  /** During the walk the list still holds `o[i]` at position `i`. */
  lemma RemovalAt(o: seq<string>, d: map<string, PoMessage>, newIds: seq<string>, i: int,
                  msgs: seq<string>, dict: map<string, PoMessage>, removed: seq<string>)
    requires RemovalInv(o, d, newIds, i, msgs, dict, removed) && 0 <= i
    ensures i < |msgs| && msgs[i] == o[i]
  {
    assert msgs[..i + 1] == o[..i + 1];
  }

  /** Keeping or removing `o[i]` moves the walk one position back. */
  lemma RemovalAdvance(o: seq<string>, d: map<string, PoMessage>, newIds: seq<string>, i: int,
                       msgs: seq<string>, dict: map<string, PoMessage>, removed: seq<string>,
                       msgs': seq<string>, dict': map<string, PoMessage>, removed': seq<string>)
    requires NoDup(o) && RemovalInv(o, d, newIds, i, msgs, dict, removed) && 0 <= i
    requires o[i] in newIds ==> msgs' == msgs && dict' == dict && removed' == removed
    requires o[i] !in newIds ==>
      i < |msgs| && msgs' == msgs[..i] + msgs[i + 1..] && dict' == dict - {o[i]} && removed' == removed + [o[i]]
    ensures RemovalInv(o, d, newIds, i - 1, msgs', dict', removed')
  {
    RemovalStepIds(o, i, newIds);
    if o[i] in newIds {
      RemovalKeep(o, i, newIds, msgs);
    } else {
      RemovalCut(o, i, newIds, msgs);
    }
  }

  /** One step of the walk from the end: a new `o[i]` stays in the list. */
  lemma RemovalKeep(o: seq<string>, i: int, newIds: seq<string>, msgs: seq<string>)
    requires 0 <= i < |o| && o[i] in newIds
    requires msgs == o[..i + 1] + KeepIn(o[i + 1..], newIds)
    ensures msgs == o[..i] + KeepIn(o[i..], newIds)
  {
    KeepInStep(o, i, newIds);
    var a, b := o[..i], KeepIn(o[i + 1..], newIds);
    assert o[..i + 1] == a + [o[i]];
    assert (a + [o[i]]) + b == a + ([o[i]] + b);
  }

  /** One step of the walk from the end: an `o[i]` that is not new is cut out. */
  lemma RemovalCut(o: seq<string>, i: int, newIds: seq<string>, msgs: seq<string>)
    requires 0 <= i < |o| && o[i] !in newIds
    requires msgs == o[..i + 1] + KeepIn(o[i + 1..], newIds)
    ensures i < |msgs| && msgs[..i] + msgs[i + 1..] == o[..i] + KeepIn(o[i..], newIds)
  {
    KeepInStep(o, i, newIds);
    var a, b := o[..i], KeepIn(o[i + 1..], newIds);
    assert o[..i + 1] == a + [o[i]];
    RemovalSplice(a, o[i], b, msgs);
  }

  /** The filter advances by one position. */
  lemma KeepInStep(o: seq<string>, i: int, newIds: seq<string>)
    requires 0 <= i < |o|
    ensures KeepIn(o[i..], newIds) == (if o[i] in newIds then [o[i]] else []) + KeepIn(o[i + 1..], newIds)
  {
    assert o[i..][1..] == o[i + 1..];
  }

  /** The id at the walk's position is unique, and the removed ids grow by it
      when it is not new. */
  lemma RemovalStepIds(o: seq<string>, i: int, newIds: seq<string>)
    requires NoDup(o) && 0 <= i < |o|
    ensures o[i] !in o[i + 1..]
    ensures DropRev(o[i..], newIds) == DropRev(o[i + 1..], newIds) + (if o[i] !in newIds then [o[i]] else [])
  {
    var t := o[i + 1..];
    forall k | 0 <= k < |t| ensures t[k] != o[i] {
      assert t[k] == o[i + 1 + k];
    }
    assert o[i..][1..] == t;
  }

  /** Cutting `x` out of the seam of `a + [x] + b` leaves `a + b`. */
  lemma RemovalSplice(a: seq<string>, x: string, b: seq<string>, m: seq<string>)
    requires m == (a + [x]) + b
    ensures |a| < |m| && m[..|a|] + m[|a| + 1..] == a + b
  {
    assert m[..|a|] == a;
    assert m[|a| + 1..] == b;
  }

  /** The dictionary left by the walk is the old one restricted to the new ids. */
  lemma RestrictIs(r: map<string, PoMessage>, d: map<string, PoMessage>, o: seq<string>, newIds: seq<string>)
    requires Consistent(o, d)
    requires forall k :: k in r <==> k in d && k !in DropRev(o, newIds)
    requires forall k :: k in r ==> r[k] == d[k]
    ensures r == Restrict(d, newIds)
  {
    DropRevMembers(o, newIds);
    assert forall k :: k in r <==> k in Restrict(d, newIds);
  }

  /** One more new message: how the dictionary grows. */
  lemma DictFoldStep(d: map<string, PoMessage>, ns: seq<PoMessage>, i: nat, isPot: bool, language: string)
    requires i < |ns|
    ensures var p := DictFold(d, ns[..i], isPot, language); var n := ns[i];
      DictFold(d, ns[..i + 1], isPot, language)
        == p[n.id := UpdateMessage(if n.id in p then p[n.id] else n, n, isPot, language)]
  {
    assert ns[..i + 1][..i] == ns[..i];
  }

  /** One more new message: how the list grows when the order is kept. */
  lemma KeepOrderStep(o: seq<string>, d: map<string, PoMessage>, ns: seq<PoMessage>, i: nat, isPot: bool, language: string)
    requires i < |ns|
    ensures KeepOrder(o, d, ns[..i + 1], isPot, language)
      == KeepOrder(o, d, ns[..i], isPot, language)
         + (if ns[i].id in DictFold(d, ns[..i], isPot, language) then [] else [ns[i].id])
  {
    assert ns[..i + 1][..i] == ns[..i];
  }

  /** One more new message: how the rebuilt list grows. */
  lemma IdsStep(ns: seq<PoMessage>, i: nat)
    requires i < |ns|
    ensures Ids(ns[..i + 1]) == Ids(ns[..i]) + [ns[i].id]
  {
    assert ns[..i + 1][..i] == ns[..i];
  }


  // ---------------------------------------------------------------------------
  // Parsing a file

  /** What Python's `\s` matches. */
  predicate NoOuterSpace(s: string) {
    s == [] || (s[0] !in WHITESPACE && s[|s| - 1] !in WHITESPACE)
  }

  /** The text after the leading whitespace (what `\\s*` consumes). */
  function SkipSpaces(s: string): string {
    if s != [] && s[0] in WHITESPACE then SkipSpaces(s[1..]) else s
  }

  /** `"(.*)"` at the start of `s`: the text between the first character, a
      quote, and the last quote of `s` (the group is greedy). */
  function Quoted(s: string): (r: Option<string>)
    ensures r.Some? ==> StartsWith(s, "\"" + r.value + "\"")
  {
    var last := LastIndexOf(s, '"');
    if s != [] && s[0] == '"' && last > 0 then
      assert s[..last + 1] == "\"" + s[1..last] + "\"";
      Some(s[1..last])
    else None
  }

  /** `keyword\s+"(.*)"` matched at the start of a line (the msgid and msgstr
      expressions). */
  function MatchKeyword(line: string, keyword: string): Option<string> {
    if StartsWith(line, keyword) then
      var rest := line[|keyword|..];
      var t := SkipSpaces(rest);
      if |t| < |rest| then Quoted(t) else None
    else None
  }

  /** `#\.\s+Default\s*:\s*"(.*)"` matched at the start of a line. */
  function MatchDefault(line: string): Option<string> {
    if StartsWith(line, "#.") then
      var r1 := line[2..];
      var t1 := SkipSpaces(r1);
      if |t1| < |r1| && StartsWith(t1, "Default") then
        var t2 := SkipSpaces(t1[7..]);
        if t2 != [] && t2[0] == ':' then Quoted(SkipSpaces(t2[1..])) else None
      else None
    else None
  }

  /** `#,\s+fuzzy` matched at the start of a line. */
  predicate MatchFuzzy(line: string) {
    StartsWith(line, "#,") &&
    var t := SkipSpaces(line[2..]);
    |t| < |line[2..]| && StartsWith(t, "fuzzy")
  }

  /** What the parser has read of the message in progress. */
  datatype Pending = Pending(default: Option<string>, fuzzy: bool, id: Option<string>, str: Option<string>, comments: seq<string>)

  const Fresh := Pending(None, false, None, None, [])

  /** What the parser has read so far. */
  datatype Parsed = Parsed(pending: Pending, messages: seq<PoMessage>, headers: seq<PoHeader>)

  /** A stripped line that is not a header line, read into the pending message:
      a default, the fuzzy flag, the id, the translation or a comment, tried in
      that order; other lines are ignored. */
  function Classify(p: Pending, c: string): Pending {
    match MatchDefault(c)
    case Some(v) => p.(default := Some(v))
    case None =>
      if MatchFuzzy(c) then p.(fuzzy := true)
      else match MatchKeyword(c, "msgid")
        case Some(v) => p.(id := Some(v))
        case None => match MatchKeyword(c, "msgstr")
          case Some(v) => p.(str := Some(v))
          case None => if StartsWith(c, "#") then p.(comments := p.comments + [Strip(c)]) else p
  }

  /** The messages a completed entry adds: none for the header entry, whose id
      and translation are both empty. */
  function Recorded(p: Pending): (r: seq<PoMessage>)
    requires p.str.Some?
    ensures r == [] <==> p.id == Some("") && p.str == Some("")
    ensures r != [] ==> r == [PoMessage(p.id.GetOr(""), p.str.value, p.default.GetOr(""), p.fuzzy, p.comments)]
  {
    if p.id == Some("") && p.str == Some("") then []
    else [PoMessage(p.id.GetOr(""), p.str.value, p.default.GetOr(""), p.fuzzy, p.comments)]
  }

  /** A header line `"name: value\n"`: the quotes around it go, the name is
      what precedes the first colon, a trailing `\n` escape leaves the value,
      and both are stripped. A header line without colon raises ValueError. */
  function HeaderOf(c: string): (r: Result<PoHeader, string>)
    ensures r.Err? <==> ':' !in RStrip(LStrip(c, {'"'}), {'"'})
    ensures r.Ok? ==> ':' !in r.value.name
  {
    SplitHeader(RStrip(LStrip(c, {'"'}), {'"'}))
  }

  /** The unquoted text of a header line, cut at its first colon. */
  function SplitHeader(inner: string): (r: Result<PoHeader, string>)
    ensures r.Err? <==> ':' !in inner
    ensures r.Ok? ==> ':' !in r.value.name
  {
    var i := IndexOf(inner, ':');
    if i == |inner| then Err("ValueError")
    else
      var value := inner[i + 1..];
      var value' := if EndsWith(value, "\\n") then value[..|value| - 2] else value;
      StripSubset(inner[..i]);
      Ok(PoHeader(Strip(inner[..i]), Strip(value')))
  }

  /** Stripping adds no character. */
  lemma StripSubset(s: string)
    ensures forall x :: x in Strip(s) ==> x in s
  {
    var l := LStrip(s, WHITESPACE);
    LStripSuffix(s, WHITESPACE);
    RStripPrefix(l, WHITESPACE);
  }

  /** Left-stripping leaves a suffix. */
  lemma LStripSuffix(s: string, chars: set<char>)
    ensures LStrip(s, chars) == s[|s| - |LStrip(s, chars)|..]
  {
  }

  /** Right-stripping leaves a prefix. */
  lemma RStripPrefix(s: string, chars: set<char>)
    ensures RStrip(s, chars) == s[..|RStrip(s, chars)|]
  {
  }

  /** One line of the file: the stripped line is read into the pending message,
      which is recorded and reset once it has a translation; a line starting
      with a quote is a header line; blank lines are skipped. */
  function ParseStep(st: Parsed, line: string): Result<Parsed, string> {
    var c := Strip(line);
    if c != [] && c[0] != '"' then
      var p := Classify(st.pending, c);
      if p.str.Some? then Ok(Parsed(Fresh, st.messages + Recorded(p), st.headers))
      else Ok(Parsed(p, st.messages, st.headers))
    else if c != [] then
      match HeaderOf(c)
      case Err(e) => Err(e)
      case Ok(h) => Ok(Parsed(st.pending, st.messages, st.headers + [h]))
    else Ok(st)
  }

  /** The lines of a file read one after the other; the first error stops it. */
  function ParseLines(lines: seq<string>): Result<Parsed, string> {
    if lines == [] then Ok(Parsed(Fresh, [], []))
    else match ParseLines(lines[..|lines| - 1])
      case Err(e) => Err(e)
      case Ok(st) => ParseStep(st, lines[|lines| - 1])
  }

  /** The dictionary after filing each message under its id, in order. */
  function Filed(d: map<string, PoMessage>, ms: seq<PoMessage>): map<string, PoMessage> {
    if ms == [] then d
    else Filed(d, ms[..|ms| - 1])[ms[|ms| - 1].id := ms[|ms| - 1]]
  }

  /** The header dictionary after filing each header under its name. */
  function FiledHeaders(d: map<string, PoHeader>, hs: seq<PoHeader>): map<string, PoHeader> {
    if hs == [] then d
    else FiledHeaders(d, hs[..|hs| - 1])[hs[|hs| - 1].name := hs[|hs| - 1]]
  }

  /** Reading one more line. */
  lemma ParseLinesStep(lines: seq<string>, i: nat)
    requires i < |lines|
    ensures ParseLines(lines[..i + 1]) ==
      match ParseLines(lines[..i])
      case Err(e) => Err(e)
      case Ok(st) => ParseStep(st, lines[i])
  {
    assert lines[..i + 1][..i] == lines[..i];
  }

  /** An error stops the reading: the whole file fails with it. */
  lemma {:induction false} ParseErrorSticks(lines: seq<string>, k: nat)
    requires k <= |lines| && ParseLines(lines[..k]).Err?
    ensures ParseLines(lines) == ParseLines(lines[..k])
    decreases |lines| - k
  {
    if k == |lines| {
      assert lines[..k] == lines;
    } else {
      ParseLinesStep(lines, k);
      ParseErrorSticks(lines, k + 1);
    }
  }

  /** Filing one more message. */
  lemma FiledStep(d: map<string, PoMessage>, ms: seq<PoMessage>, m: PoMessage)
    ensures Filed(d, ms + [m]) == Filed(d, ms)[m.id := m]
    ensures Ids(ms + [m]) == Ids(ms) + [m.id]
  {
    assert (ms + [m])[..|ms|] == ms;
  }

  /** Filing one more header. */
  lemma FiledHeadersStep(hd: map<string, PoHeader>, hs: seq<PoHeader>, h: PoHeader)
    ensures FiledHeaders(hd, hs + [h]) == FiledHeaders(hd, hs)[h.name := h]
  {
    assert (hs + [h])[..|hs|] == hs;
  }

  /** `PoParser`: reads a file into a `PoFile`. */
  class PoParser {
    const res: PoFile

    constructor (fileName: string)
      requires ParseFileName(fileName).Ok?
      ensures fresh(res) && res.fileName == fileName
      ensures ParseFileName(fileName).value == FileInfo(res.isPot, res.applicationName, res.domain, res.language)
      ensures res.messages == [] && res.messagesDict == map[] && res.headers == [] && res.headersDict == map[]
    {
      res := new PoFile(fileName);
    }

    /** `parse`: every message read is added to the file, every header line
        becomes a header; the file is returned, or the error that stopped the
        reading. */
    method Parse(lines: seq<string>) returns (r: Result<PoFile, string>)
      modifies res
      ensures r.Err? <==> ParseLines(lines).Err?
      ensures r.Ok? ==> r.value == res
      ensures r.Ok? ==> res.messages == old(res.messages) + Ids(ParseLines(lines).value.messages)
      ensures r.Ok? ==> res.messagesDict == Filed(old(res.messagesDict), ParseLines(lines).value.messages)
      ensures r.Ok? ==> res.headers == old(res.headers) + ParseLines(lines).value.headers
      ensures r.Ok? ==> res.headersDict == FiledHeaders(old(res.headersDict), ParseLines(lines).value.headers)
    {
      var pending := Fresh;
      ghost var msgs: seq<PoMessage> := [];
      ghost var hs: seq<PoHeader> := [];
      ghost var m0, d0, h0, hd0 := res.messages, res.messagesDict, res.headers, res.headersDict;
      for i := 0 to |lines|
        invariant ParseLines(lines[..i]) == Ok(Parsed(pending, msgs, hs))
        invariant res.messages == m0 + Ids(msgs) && res.messagesDict == Filed(d0, msgs)
        invariant res.headers == h0 + hs && res.headersDict == FiledHeaders(hd0, hs)
      {
        ParseLinesStep(lines, i);
        var err;
        pending, msgs, hs, err := ReadLine(pending, msgs, hs, lines[i], m0, d0, h0, hd0);
        if err.Some? {
          ParseErrorSticks(lines, i + 1);
          return Err(err.value);
        }
      }
      assert lines[..|lines|] == lines;
      return Ok(res);
    }

    /** The body of `parse` for one line. */
    method ReadLine(pending: Pending, ghost msgs: seq<PoMessage>, ghost hs: seq<PoHeader>, line: string,
                    ghost m0: seq<string>, ghost d0: map<string, PoMessage>, ghost h0: seq<PoHeader>, ghost hd0: map<string, PoHeader>)
      returns (pending': Pending, ghost msgs': seq<PoMessage>, ghost hs': seq<PoHeader>, err: Option<string>)
      requires res.messages == m0 + Ids(msgs) && res.messagesDict == Filed(d0, msgs)
      requires res.headers == h0 + hs && res.headersDict == FiledHeaders(hd0, hs)
      modifies res
      ensures err.Some? ==> ParseStep(Parsed(pending, msgs, hs), line) == Err(err.value)
      ensures err.None? ==> ParseStep(Parsed(pending, msgs, hs), line) == Ok(Parsed(pending', msgs', hs'))
      ensures err.None? ==> res.messages == m0 + Ids(msgs') && res.messagesDict == Filed(d0, msgs')
      ensures err.None? ==> res.headers == h0 + hs' && res.headersDict == FiledHeaders(hd0, hs')
    {
      pending', msgs', hs', err := pending, msgs, hs, None;
      var lineContent := Strip(line);
      if lineContent != [] && lineContent[0] != '"' {
        var p := Classify(pending, lineContent);
        pending' := p;
        if p.str.Some? {
          msgs' := RecordEntry(p, msgs, m0, d0);
          pending' := Fresh;
        }
      } else if lineContent != [] {
        var header := HeaderOf(lineContent);
        if header.Err? {
          return pending', msgs', hs', Some(header.error);
        }
        hs' := RecordHeader(header.value, hs, h0, hd0);
      }
    }

    /** A message whose translation has been read is added to the file, unless
        it is the header entry. */
    method RecordEntry(p: Pending, ghost msgs: seq<PoMessage>, ghost m0: seq<string>, ghost d0: map<string, PoMessage>)
      returns (ghost msgs': seq<PoMessage>)
      requires p.str.Some?
      requires res.messages == m0 + Ids(msgs) && res.messagesDict == Filed(d0, msgs)
      modifies res
      ensures msgs' == msgs + Recorded(p)
      ensures res.messages == m0 + Ids(msgs') && res.messagesDict == Filed(d0, msgs')
      ensures res.headers == old(res.headers) && res.headersDict == old(res.headersDict)
    {
      msgs' := msgs;
      if !(p.id == Some("") && p.str == Some("")) {
        var poMsg := PoMessage(p.id.GetOr(""), p.str.value, p.default.GetOr(""), p.fuzzy, p.comments);
        var _ := res.AddMessage(poMsg);
        FiledStep(d0, msgs, poMsg);
        ghost var ids := Ids(msgs);
        assert (m0 + ids) + [poMsg.id] == m0 + (ids + [poMsg.id]);
        msgs' := msgs + [poMsg];
      }
    }

    /** A header read from a header line is added to the file. */
    method RecordHeader(header: PoHeader, ghost hs: seq<PoHeader>, ghost h0: seq<PoHeader>, ghost hd0: map<string, PoHeader>)
      returns (ghost hs': seq<PoHeader>)
      requires res.headers == h0 + hs && res.headersDict == FiledHeaders(hd0, hs)
      modifies res
      ensures hs' == hs + [header]
      ensures res.headers == h0 + hs' && res.headersDict == FiledHeaders(hd0, hs')
      ensures res.messages == old(res.messages) && res.messagesDict == old(res.messagesDict)
    {
      res.AddHeader(header);
      FiledHeadersStep(hd0, hs, header);
      assert (h0 + hs) + [header] == h0 + (hs + [header]);
      hs' := hs + [header];
    }
  }

  // ---------------------------------------------------------------------------
  // What the parser reads from well-formed entries

  /** The lines of an entry as the generator writes them. */
  function DefaultLine(d: string): string { "#. Default: \"" + d + "\"" }
  function IdLine(id: string): string { "msgid \"" + id + "\"" }
  function StrLine(str: string): string { "msgstr \"" + str + "\"" }
  function HeaderLine(name: string, value: string): string { "\"" + name + ": " + value + "\\n\"" }

  /** A string that neither starts nor ends with whitespace is its own strip. */
  lemma StripNoOuterSpace(s: string)
    requires NoOuterSpace(s)
    ensures Strip(s) == s
  {
    if s != [] {
      assert LStrip(s, WHITESPACE) == s;
    }
  }

  /** One leading blank before a non-blank start is skipped. */
  lemma SkipOneSpace(t: string)
    requires t != [] && t[0] !in WHITESPACE
    ensures SkipSpaces(" " + t) == t && SkipSpaces(t) == t
  {
    assert (" " + t)[1..] == t;
  }

  /** A quoted text is read back whole, whatever quotes it holds. */
  lemma QuotedOf(v: string)
    ensures Quoted("\"" + v + "\"") == Some(v)
  {
    var s := "\"" + v + "\"";
    LastIndexOfIs(s, '"', |s| - 1);
    assert s[1..|s| - 1] == v;
  }

  /** `msgid` and `msgstr` lines are read by their own expressions only. */
  lemma KeywordLine(keyword: string, v: string, line: string)
    requires keyword == "msgid" || keyword == "msgstr"
    requires line == keyword + " \"" + v + "\""
    ensures KeywordRead(line, keyword, v)
  {
    KeywordLineParts(keyword, v, line);
    if keyword == "msgstr" {
      MsgstrNotMsgid(v, line);
    }
  }

  /** A msgstr line is no msgid line. */
  lemma MsgstrNotMsgid(v: string, line: string)
    requires line == "msgstr" + " \"" + v + "\""
    ensures MatchKeyword(line, "msgid") == None
  {
    assert line[..5] != "msgid" by {
      assert line[3] == 's';
    }
    NotMsgid(line);
  }

  /** A keyword line matches its keyword's expression only, and is already
      stripped. */
  lemma KeywordLineParts(keyword: string, v: string, line: string)
    requires keyword == "msgid" || keyword == "msgstr"
    requires line == keyword + " \"" + v + "\""
    ensures MatchKeyword(line, keyword) == Some(v)
    ensures MatchDefault(line) == None && !MatchFuzzy(line)
    ensures Strip(line) == line && line != [] && line[0] == 'm'
  {
    KeywordLineMatch(keyword, v);
    assert line[0] == 'm' && line[|line| - 1] == '"';
    NotComment(line);
    StripNoOuterSpace(line);
  }

  /** A line that does not start with `msgid` is no msgid line. */
  lemma NotMsgid(line: string)
    requires |line| >= 5 && line[..5] != "msgid"
    ensures MatchKeyword(line, "msgid") == None
  {
  }

  /** The keyword's own expression reads the quoted text. */
  lemma KeywordLineMatch(keyword: string, v: string)
    ensures MatchKeyword(keyword + " \"" + v + "\"", keyword) == Some(v)
  {
    var line := keyword + " \"" + v + "\"";
    var q := "\"" + v + "\"";
    assert line[|keyword|..] == " " + q;
    SkipOneSpace(q);
    QuotedOf(v);
  }

  /** A line that does not start with `#` is neither a default nor a fuzzy flag. */
  lemma NotComment(line: string)
    requires line != [] && line[0] != '#'
    ensures MatchDefault(line) == None && !MatchFuzzy(line)
  {
  }

  /** A default line is read as the default. */
  lemma DefaultLineRead(d: string)
    ensures MatchDefault(DefaultLine(d)) == Some(d)
    ensures Strip(DefaultLine(d)) == DefaultLine(d)
  {
    DefaultLineMatch(d);
    var line := DefaultLine(d);
    assert line[0] == '#' && line[|line| - 1] == '"';
    assert NoOuterSpace(line);
    StripNoOuterSpace(line);
  }

  /** The default expression reads the quoted text. */
  lemma DefaultLineMatch(d: string)
    ensures MatchDefault(DefaultLine(d)) == Some(d)
  {
    var q := "\"" + d + "\"";
    DefaultLineParts(d);
    DefaultAfterMarker(q);
  }

  /** A default line is the marker `#.`, a blank, then `Default: ` and the
      quoted text. */
  lemma DefaultLineParts(d: string)
    ensures StartsWith(DefaultLine(d), "#.")
    ensures DefaultLine(d)[2..] == " " + ("Default: " + ("\"" + d + "\""))
  {
  }

  /** What follows the marker is read as the quoted text. */
  lemma DefaultAfterMarker(q: string)
    requires q != [] && q[0] == '"'
    ensures SkipSpaces(" " + ("Default: " + q)) == "Default: " + q
    ensures StartsWith("Default: " + q, "Default")
    ensures SkipSpaces(("Default: " + q)[7..]) == ": " + q
    ensures SkipSpaces((": " + q)[1..]) == q
  {
    var t1 := "Default: " + q;
    SkipOneSpace(t1);
    var t2 := ": " + q;
    assert t1[7..] == t2;
    SkipOneSpace(t2);
    assert t2[1..] == " " + q;
    SkipOneSpace(q);
  }

  /** Reading a default line. */
  lemma DefaultStep(st: Parsed, d: string)
    requires st.pending.str.None?
    ensures ParseStep(st, DefaultLine(d)) == Ok(st.(pending := st.pending.(default := Some(d))))
  {
    DefaultLineRead(d);
    assert DefaultLine(d)[0] == '#';
  }

  /** A stripped line that reads as keyword `keyword` with text `v`: it is
      not a header line, not a default, not the fuzzy flag, and a msgstr line
      is no msgid line. */
  predicate KeywordRead(line: string, keyword: string, v: string) {
    Strip(line) == line && line != [] && line[0] != '"'
    && MatchDefault(line) == None && !MatchFuzzy(line)
    && MatchKeyword(line, keyword) == Some(v)
    && (keyword == "msgstr" ==> MatchKeyword(line, "msgid") == None)
  }

  /** A msgid line reads as its id. */
  lemma IdLineRead(id: string)
    ensures KeywordRead(IdLine(id), "msgid", id)
  {
    KeywordLine("msgid", id, IdLine(id));
  }

  /** A msgstr line reads as its translation. */
  lemma StrLineRead(str: string)
    ensures KeywordRead(StrLine(str), "msgstr", str)
  {
    KeywordLine("msgstr", str, StrLine(str));
  }

  /** Reading a msgid line. */
  lemma IdStep(st: Parsed, id: string)
    requires st.pending.str.None?
    ensures ParseStep(st, IdLine(id)) == Ok(st.(pending := st.pending.(id := Some(id))))
  {
    IdLineRead(id);
    IdRead(st, IdLine(id), id);
  }

  /** Reading a line that reads as a msgid. */
  lemma IdRead(st: Parsed, line: string, id: string)
    requires st.pending.str.None? && KeywordRead(line, "msgid", id)
    ensures ParseStep(st, line) == Ok(st.(pending := st.pending.(id := Some(id))))
  {
  }

  /** Reading a msgstr line completes the entry. */
  lemma StrStep(st: Parsed, str: string)
    requires st.pending.str.None?
    ensures ParseStep(st, StrLine(str))
      == Ok(Parsed(Fresh, st.messages + Recorded(st.pending.(str := Some(str))), st.headers))
  {
    StrLineRead(str);
    StrRead(st, StrLine(str), str);
  }

  /** Reading a line that reads as a msgstr. */
  lemma StrRead(st: Parsed, line: string, str: string)
    requires st.pending.str.None? && KeywordRead(line, "msgstr", str)
    ensures ParseStep(st, line)
      == Ok(Parsed(Fresh, st.messages + Recorded(st.pending.(str := Some(str))), st.headers))
  {
  }

  /** An entry written as a default, an id and a translation line is recorded
      as one message, unless it is the header entry (empty id and translation),
      which is skipped. */
  lemma {:induction false} EntryRecorded(lines: seq<string>, d: string, id: string, str: string)
    requires ParseLines(lines).Ok? && ParseLines(lines).value.pending == Fresh
    ensures ParseLines(lines + [DefaultLine(d), IdLine(id), StrLine(str)])
      == Ok(Parsed(Fresh, ParseLines(lines).value.messages + (if id == "" && str == "" then [] else [PoMessage(id, str, d, false, [])]),
                   ParseLines(lines).value.headers))
  {
    var st := ParseLines(lines).value;
    DefaultStep(st, d);
    var st1 := st.(pending := Fresh.(default := Some(d)));
    IdStep(st1, id);
    var st2 := st1.(pending := st1.pending.(id := Some(id)));
    StrStep(st2, str);
    ParseThree(lines, DefaultLine(d), IdLine(id), StrLine(str), st, st1, st2);
  }

  /** Three more lines are read one after the other. */
  lemma ParseThree(lines: seq<string>, l1: string, l2: string, l3: string, st: Parsed, st1: Parsed, st2: Parsed)
    requires ParseLines(lines) == Ok(st) && ParseStep(st, l1) == Ok(st1) && ParseStep(st1, l2) == Ok(st2)
    ensures ParseLines(lines + [l1, l2, l3]) == ParseStep(st2, l3)
  {
    ParseOne(lines, l1, st);
    ParseOne(lines + [l1], l2, st1);
    ParseOne(lines + [l1] + [l2], l3, st2);
    SnocThree(lines, l1, l2, l3);
  }

  /** Three lines appended one at a time are the three appended at once. */
  lemma SnocThree<T>(s: seq<T>, a: T, b: T, c: T)
    ensures s + [a] + [b] + [c] == s + [a, b, c]
  {
  }

  /** One more line is read from the state the earlier ones left. */
  lemma ParseOne(lines: seq<string>, l: string, st: Parsed)
    requires ParseLines(lines) == Ok(st)
    ensures ParseLines(lines + [l]) == ParseStep(st, l)
  {
    assert (lines + [l])[..|lines|] == lines;
  }

  /** The requirements on a header's name and value for its line to read
      back as written. */
  predicate PlainHeader(name: string, value: string) {
    PlainName(name) && NoOuterSpace(value)
  }

  /** The name of a header line that reads back. */
  predicate PlainName(name: string) {
    name != [] && name[0] != '"' && ':' !in name && NoOuterSpace(name)
  }

  /** A header line `"name: value\n"` is read as that header. */
  lemma HeaderLineRead(name: string, value: string)
    requires PlainHeader(name, value)
    ensures Strip(HeaderLine(name, value)) == HeaderLine(name, value)
    ensures HeaderOf(HeaderLine(name, value)) == Ok(PoHeader(name, value))
  {
    var c := HeaderLine(name, value);
    assert c[0] == '"' && c[|c| - 1] == '"';
    StripNoOuterSpace(c);
    HeaderLineParsed(c, name, value);
  }

  /** The header read from a header line. */
  lemma HeaderLineParsed(c: string, name: string, value: string)
    requires PlainHeader(name, value) && c == HeaderLine(name, value)
    ensures HeaderOf(c) == Ok(PoHeader(name, value))
  {
    HeaderQuotesGo(name, value);
    HeaderBodySplit(RStrip(LStrip(c, {'"'}), {'"'}), name, value);
  }

  /** The unquoted text `name: value\n` splits into that header. */
  lemma HeaderBodySplit(body: string, name: string, value: string)
    requires PlainHeader(name, value) && body == name + ": " + value + "\\n"
    ensures SplitHeader(body) == Ok(PoHeader(name, value))
  {
    HeaderBodyFacts(body, name, value);
    SplitHeaderAt(body, |name|, name, value);
  }

  /** In the unquoted text `name: value\n` the first colon ends the name,
      and the name and the value come out of stripping as they are. */
  lemma HeaderBodyFacts(body: string, name: string, value: string)
    requires PlainHeader(name, value) && body == name + ": " + value + "\\n"
    ensures SplitsAt(body, |name|, name, value)
  {
    HeaderSplit(body, name, value);
    HeaderNamePart(body, name);
    HeaderValuePart(body[|name| + 1..], value);
  }

  /** The name, already stripped, is its own stripped prefix. */
  lemma HeaderNamePart(body: string, name: string)
    requires |name| <= |body| && body[..|name|] == name && NoOuterSpace(name)
    ensures Strip(body[..|name|]) == name
  {
    StripNoOuterSpace(name);
  }

  /** After the colon come a blank, the value and the `\n` escape. */
  lemma HeaderValuePart(v: string, value: string)
    requires |v| >= 2 && v[..|v| - 2] == " " + value && NoOuterSpace(value)
    ensures Strip(v[..|v| - 2]) == value
  {
    SpaceThenValue(value);
  }

  /** The first colon of `inner` is at `i`, the text before it strips to
      `name`, and the text after it ends in the `\n` escape and, without it,
      strips to `value`. */
  predicate SplitsAt(inner: string, i: nat, name: string, value: string) {
    i < |inner| && IndexOf(inner, ':') == i
    && Strip(inner[..i]) == name && EndsWith(inner[i + 1..], "\\n")
    && Strip(inner[i + 1..][..|inner[i + 1..]| - 2]) == value
  }

  /** What the split yields, given where the first colon is and what the
      two stripped parts are. */
  lemma SplitHeaderAt(inner: string, i: nat, name: string, value: string)
    requires SplitsAt(inner, i, name, value)
    ensures SplitHeader(inner) == Ok(PoHeader(name, value))
  {
    var v := inner[i + 1..];
    assert SplitHeader(inner) == Ok(PoHeader(Strip(inner[..i]), Strip(v[..|v| - 2])));
  }

  /** The quotes around a header line go, and only they. */
  lemma HeaderQuotesGo(name: string, value: string)
    requires name != [] && name[0] != '"'
    ensures RStrip(LStrip(HeaderLine(name, value), {'"'}), {'"'}) == name + ": " + value + "\\n"
  {
    var body := name + ": " + value + "\\n";
    var c := HeaderLine(name, value);
    var b1 := body + "\"";
    assert c == "\"" + b1;
    QuoteGoes(b1, name[0]);
    assert body[|body| - 1] == 'n';
    QuoteGoesAtEnd(body);
  }

  /** One leading quote before a non-quote goes. */
  lemma QuoteGoes(b: string, first: char)
    requires b != [] && b[0] == first && first != '"'
    ensures LStrip("\"" + b, {'"'}) == b
  {
    assert ("\"" + b)[1..] == b;
  }

  /** One trailing quote after a non-quote goes. */
  lemma QuoteGoesAtEnd(b: string)
    requires b != [] && b[|b| - 1] != '"'
    ensures RStrip(b + "\"", {'"'}) == b
  {
    assert (b + "\"")[..|b|] == b;
  }

  /** The name is what precedes the first colon; the value, with its trailing
      `\n` escape removed, follows a blank. */
  lemma HeaderSplit(body: string, name: string, value: string)
    requires ':' !in name && body == name + ": " + value + "\\n"
    ensures IndexOf(body, ':') == |name| && body[..|name|] == name
    ensures EndsWith(body[|name| + 1..], "\\n")
    ensures body[|name| + 1..][..|body[|name| + 1..]| - 2] == " " + value
  {
    assert body[..|name|] == name;
    IndexOfIs(body, ':', |name|);
    var v := body[|name| + 1..];
    assert v == " " + value + "\\n";
    assert v[..|v| - 2] == " " + value;
  }

  /** A blank before a value that is already stripped goes. */
  lemma SpaceThenValue(value: string)
    requires NoOuterSpace(value)
    ensures Strip(" " + value) == value
  {
    if value == [] {
      assert LStrip(" ", WHITESPACE) == [];
    } else {
      assert (" " + value)[1..] == value;
      assert LStrip(value, WHITESPACE) == value;
      assert LStrip(" " + value, WHITESPACE) == value;
      StripNoOuterSpace(value);
    }
  }

  /** Where the first occurrence is. */
  lemma IndexOfIs(s: string, c: char, i: nat)
    requires i < |s| && s[i] == c && c !in s[..i]
    ensures IndexOf(s, c) == i
  {
    if i > 0 {
      assert s[1..][..i - 1] == s[..i][1..];
      IndexOfIs(s[1..], c, i - 1);
    }
  }

  /** A header line, read after any lines, adds its header. */
  lemma HeaderRecorded(lines: seq<string>, name: string, value: string)
    requires ParseLines(lines).Ok? && PlainHeader(name, value)
    ensures ParseLines(lines + [HeaderLine(name, value)])
      == Ok(ParseLines(lines).value.(headers := ParseLines(lines).value.headers + [PoHeader(name, value)]))
  {
    var all := lines + [HeaderLine(name, value)];
    assert all[..|lines|] == lines;
    HeaderStep(ParseLines(lines).value, name, value);
    ParseLinesStep(all, |lines|);
    assert all[..|lines| + 1] == all;
  }

  /** Reading a header line. */
  lemma HeaderStep(st: Parsed, name: string, value: string)
    requires PlainHeader(name, value)
    ensures ParseStep(st, HeaderLine(name, value)) == Ok(st.(headers := st.headers + [PoHeader(name, value)]))
  {
    HeaderLineRead(name, value);
    assert HeaderLine(name, value)[0] == '"';
  }

  // ---------------------------------------------------------------------------
  // Writing a file

  /** Lines written to a file, each followed by a newline. */
  function LinesText(ls: seq<string>): (r: string)
    ensures |r| >= |ls|
  {
    if ls == [] then "" else LinesText(ls[..|ls| - 1]) + ls[|ls| - 1] + "\n"
  }

  /** Writing one list of lines after another writes their concatenation. */
  lemma {:induction false} LinesTextConcat(a: seq<string>, b: seq<string>)
    ensures LinesText(a + b) == LinesText(a) + LinesText(b)
    decreases |b|
  {
    if b == [] {
      assert a + b == a;
    } else {
      var b' := b[..|b| - 1];
      assert (a + b)[..|a + b| - 1] == a + b';
      LinesTextConcat(a, b');
    }
  }

  /** The lines of a message as it appears in a file: its comments, then the
      rest of its entry. */
  function EntryLines(m: PoMessage): (r: seq<string>)
    ensures |r| == |m.comments| + (if m.fuzzy then 4 else 3)
    ensures r[..|m.comments|] == m.comments && r[|r| - 2..] == [IdLine(m.id), StrLine(m.msg)]
  {
    m.comments + TailLines(m)
  }

  /** The entry after the comments: the default, the fuzzy flag when it is
      set, the id and the translation. */
  function TailLines(m: PoMessage): seq<string> {
    [DefaultLine(m.default)] + (if m.fuzzy then [FuzzyLine] else []) + [IdLine(m.id), StrLine(m.msg)]
  }

  const FuzzyLine := "#, fuzzy"

  /** `PoMessage.generate` with its comments kept: the comment lines, then
      the rest of the entry; this is the entry's lines written out. */
  function MessageText(m: PoMessage): (r: string)
    ensures r == LinesText(EntryLines(m))
  {
    LinesTextConcat(m.comments, TailLines(m));
    MessageRest(m);
    LinesText(m.comments) + MessageTextAsWritten(m)
  }

  /** `PoMessage.generate` as written: the comment lines are collected first,
      then the default line replaces them instead of being appended. */
  function MessageTextAsWritten(m: PoMessage): string {
    DefaultLine(m.default) + "\n" + (if m.fuzzy then FuzzyLine + "\n" else "")
      + IdLine(m.id) + "\n" + StrLine(m.msg) + "\n"
  }

  /** Written as lines, everything after the comments is the text as written. */
  lemma MessageRest(m: PoMessage)
    ensures LinesText(TailLines(m)) == MessageTextAsWritten(m)
  {
    var d, i, t := DefaultLine(m.default), IdLine(m.id), StrLine(m.msg);
    var f := if m.fuzzy then [FuzzyLine] else [];
    assert TailLines(m) == ([d] + f) + [i, t];
    LinesTextConcat([d] + f, [i, t]);
    LinesTextConcat([d], f);
    LinesOne(d);
    assert LinesText(f) == (if m.fuzzy then FuzzyLine + "\n" else "") by {
      if m.fuzzy {
        LinesOne(FuzzyLine);
      }
    }
    LinesTwo(i, t);
    Glue(d + "\n", LinesText(f), i + "\n", t + "\n");
  }

  /** Two lines written out. */
  lemma LinesTwo(x: string, y: string)
    ensures LinesText([x, y]) == x + "\n" + (y + "\n")
  {
    assert [x, y][..1] == [x];
    LinesOne(x);
  }

  /** Four texts in a row. */
  lemma Glue(a: string, b: string, c: string, d: string)
    ensures a + b + (c + d) == a + b + c + d
  {
  }

  /** As written, the comments never reach the file: two messages that differ
      only in their comments are written alike. */
  lemma CommentsDropped(m: PoMessage, comments: seq<string>)
    ensures MessageTextAsWritten(m) == MessageTextAsWritten(m.(comments := comments))
  {
  }

  /** A message with the comment `# note` is written without it, while the
      corrected text starts with it. */
  lemma CommentsDroppedExample()
    ensures var m := PoMessage("label", "Label", "Label", false, ["# note"]);
      MessageText(m) != MessageTextAsWritten(m) && MessageText(m)[..7] == "# note\n"
  {
    var m := PoMessage("label", "Label", "Label", false, ["# note"]);
    var c := LinesText(m.comments);
    assert c == "# note\n" by {
      assert m.comments[..0] == [];
    }
    assert |MessageText(m)| == |c| + |MessageTextAsWritten(m)|;
  }

  /** As written, a message read back from its own text has lost its
      comments: the entry the source writes reads as the message without them. */
  lemma AsWrittenLosesComments(m: PoMessage)
    requires WellWritten(m)
    ensures ParseLines(TailLines(m)) == Ok(Parsed(Fresh, [m.(comments := [])], []))
    ensures m.comments != [] ==> ParseLines(TailLines(m)) != Ok(Parsed(Fresh, [m], []))
  {
    var bare := m.(comments := []);
    var lines := EntryLines(bare);
    assert lines == TailLines(m);
    EntryRead([], bare, Parsed(Fresh, [], []));
    assert [] + lines == lines;
    assert [] + [bare] == [bare];
    assert ParseLines(lines) == Ok(Parsed(Fresh, [bare], []));
    assert m.comments != [] ==> bare != m;
  }

  /** `PoHeader.generate`: the header line followed by a newline. */
  function HeaderText(h: PoHeader): (r: string)
    ensures r == LinesText([HeaderLine(h.name, h.value)])
  {
    assert [HeaderLine(h.name, h.value)][..0] == [];
    "\"" + h.name + ": " + h.value + "\\n\"\n"
  }

  /** The header lines of headers, in order. */
  function HeaderLines(hs: seq<PoHeader>): (r: seq<string>)
    ensures |r| == |hs| && forall i :: 0 <= i < |hs| ==> r[i] == HeaderLine(hs[i].name, hs[i].value)
  {
    if hs == [] then [] else HeaderLines(hs[..|hs| - 1]) + [HeaderLine(hs[|hs| - 1].name, hs[|hs| - 1].value)]
  }

  /** The header entry written for headers already known: an empty id and an
      empty translation, the header lines, then a blank line. */
  function HeaderBlockLines(hs: seq<PoHeader>): seq<string> {
    [IdLine(""), StrLine("")] + HeaderLines(hs) + [""]
  }

  /** The languages with fallback languages, and those fallbacks. */
  function Fallback(language: string): Option<string> {
    if language == "en" then Some("en-us en-ca")
    else if language == "fr" then Some("fr-be fr-ca fr-lu fr-mc fr-ch fr-fr")
    else None
  }

  /** The headers of the header entry written for a file without headers. */
  function DefaultHeaders(app: string, creationTime: string, language: string, domain: string): (r: seq<PoHeader>)
    ensures |r| == 10 && r[0] == PoHeader("Project-Id-Version", app) && r[9] == PoHeader("Domain", domain)
  {
    [PoHeader("Project-Id-Version", app), PoHeader("POT-Creation-Date", creationTime),
     PoHeader("MIME-Version", "1.0"), PoHeader("Content-Type", "text/plain; charset=utf-8"),
     PoHeader("Content-Transfer-Encoding", "8bit"), PoHeader("Plural-Forms", "nplurals=1; plural=0"),
     PoHeader("Language-code", language), PoHeader("Language-name", language),
     PoHeader("Preferred-encodings", "utf-8 latin1"), PoHeader("Domain", domain)]
  }

  /** The header entry of a file without headers, from the template: the
      header entry's empty id and translation, one line per default header, a
      fallback line for a po file of a language with fallbacks (an empty line
      for any other file), and a blank line. */
  function DefaultHeaderText(isPot: bool, app: string, creationTime: string, language: string, domain: string): string {
    var fb := if !isPot && Fallback(language).Some? then HeaderLine("X-is-fallback-for", Fallback(language).value) else "";
    EmptyEntry + LinesText(HeaderLines(DefaultHeaders(app, creationTime, language, domain))) + fb + "\n\n"
  }

  /** The fallback header of a po file whose language has fallbacks. */
  function FallbackHeaders(isPot: bool, language: string): (r: seq<PoHeader>)
    ensures |r| <= 1
  {
    if !isPot && Fallback(language).Some? then [PoHeader("X-is-fallback-for", Fallback(language).value)] else []
  }

  /** The template is the header entry those headers would be written as,
      with one more blank line when there is no fallback line. */
  lemma DefaultHeaderBlock(isPot: bool, app: string, creationTime: string, language: string, domain: string)
    ensures DefaultHeaderText(isPot, app, creationTime, language, domain)
      == LinesText(HeaderBlockLines(DefaultHeaders(app, creationTime, language, domain) + FallbackHeaders(isPot, language)))
         + (if FallbackHeaders(isPot, language) == [] then "\n" else "")
  {
    var hs := DefaultHeaders(app, creationTime, language, domain);
    var fs := FallbackHeaders(isPot, language);
    var fb := if fs == [] then "" else HeaderLine(fs[0].name, fs[0].value);
    TemplateBlock(hs, fs, fb, EmptyEntry, DefaultHeaderText(isPot, app, creationTime, language, domain));
    BlockText(hs + fs);
  }

  /** A prefix, headers, then a fallback line or an empty line, then a blank
      line: the prefix, the headers and the fallback header, a blank line, and
      a second one when there is no fallback line. */
  lemma TemplateBlock(hs: seq<PoHeader>, fs: seq<PoHeader>, fb: string, p: string, text: string)
    requires text == p + LinesText(HeaderLines(hs)) + fb + "\n\n"
    requires (fs == [] && fb == "") || (|fs| == 1 && fb == HeaderLine(fs[0].name, fs[0].value))
    ensures text == p + LinesText(HeaderLines(hs + fs)) + "\n" + (if fs == [] then "\n" else "")
  {
    if fs == [] {
      assert hs + fs == hs;
      TemplateNoFallback(LinesText(HeaderLines(hs)), p, text);
    } else {
      assert fs == [fs[0]];
      FallbackAppended(hs, fs[0], fb);
      TemplateFallback(LinesText(HeaderLines(hs)), LinesText(HeaderLines(hs + fs)), fb, p, text);
    }
  }

  /** Without fallback, the empty line and the blank line end the template. */
  lemma TemplateNoFallback(l: string, p: string, text: string)
    requires text == p + l + "" + "\n\n"
    ensures text == p + l + "\n" + "\n"
  {
    assert "" + "\n\n" == "\n" + "\n";
  }

  /** With a fallback, its line and the blank line end the template. */
  lemma TemplateFallback(l: string, l': string, fb: string, p: string, text: string)
    requires text == p + l + fb + "\n\n" && l' == l + (fb + "\n")
    ensures text == p + l' + "\n" + ""
  {
    assert "\n\n" == "\n" + "\n";
    assert text == (p + l + (fb + "\n")) + "\n";
  }

  /** The fallback header's line written after the others. */
  lemma FallbackAppended(hs: seq<PoHeader>, f: PoHeader, fb: string)
    requires fb == HeaderLine(f.name, f.value)
    ensures LinesText(HeaderLines(hs + [f])) == LinesText(HeaderLines(hs)) + (fb + "\n")
  {
    assert HeaderLines(hs + [f]) == HeaderLines(hs) + [fb];
    LinesTextConcat(HeaderLines(hs), [fb]);
    LinesOne(fb);
  }

  /** One line written out. */
  lemma LinesOne(x: string)
    ensures LinesText([x]) == x + "\n"
  {
    assert [x][..0] == [];
  }

  /** The header entry of known headers, written out. */
  lemma BlockText(hs: seq<PoHeader>)
    ensures LinesText(HeaderBlockLines(hs)) == EmptyEntry + LinesText(HeaderLines(hs)) + "\n"
  {
    var two := [IdLine(""), StrLine("")];
    LinesTextConcat(two + HeaderLines(hs), [""]);
    LinesTextConcat(two, HeaderLines(hs));
    EmptyEntryLines();
    LinesOne("");
  }

  /** The start of a header entry: an empty id and an empty translation. */
  const EmptyEntry := "msgid \"\"\nmsgstr \"\"\n"

  /** The start of a header entry is the lines of an empty id and translation. */
  lemma EmptyEntryLines()
    ensures LinesText([IdLine(""), StrLine("")]) == EmptyEntry
  {
    assert [IdLine(""), StrLine("")] == [IdLine("")] + [StrLine("")];
    LinesTextConcat([IdLine("")], [StrLine("")]);
    LinesOne(IdLine(""));
    LinesOne(StrLine(""));
  }

  /** The header lines of two lists of headers, written one after the other. */
  lemma HeaderLinesSnoc(a: seq<PoHeader>, b: seq<PoHeader>)
    ensures LinesText(HeaderLines(a + b)) == LinesText(HeaderLines(a)) + LinesText(HeaderLines(b))
  {
    assert HeaderLines(a + b) == HeaderLines(a) + HeaderLines(b);
    LinesTextConcat(HeaderLines(a), HeaderLines(b));
  }

  // ---------------------------------------------------------------------------
  // A written file read back

  /** The lines of messages written one after the other, each entry followed
      by a blank line. */
  function EntriesLines(ms: seq<PoMessage>): (r: seq<string>)
    ensures |r| >= |ms|
  {
    if ms == [] then [] else EntriesLines(ms[..|ms| - 1]) + EntryLines(ms[|ms| - 1]) + [""]
  }

  /** A comment line that the parser keeps as a comment: stripped, starting
      with `#`, and neither a default nor the fuzzy flag. */
  predicate CommentLine(c: string) {
    c != [] && c[0] == '#' && NoOuterSpace(c) && MatchDefault(c) == None && !MatchFuzzy(c)
  }

  /** A message that reads back as written: it is not the header entry, and
      each of its comments is a comment line. */
  predicate WellWritten(m: PoMessage) {
    (m.id != "" || m.msg != "") && forall c | c in m.comments :: CommentLine(c)
  }

  /** Reading a blank line changes nothing. */
  lemma BlankStep(st: Parsed)
    ensures ParseStep(st, "") == Ok(st)
  {
  }

  /** Reading the fuzzy flag. */
  lemma FuzzyStep(st: Parsed)
    requires st.pending.str.None?
    ensures ParseStep(st, FuzzyLine) == Ok(st.(pending := st.pending.(fuzzy := true)))
  {
    FuzzyLineRead();
  }

  /** The fuzzy flag is stripped, read by the fuzzy expression only. */
  lemma FuzzyLineRead()
    ensures Strip(FuzzyLine) == FuzzyLine && FuzzyLine != [] && FuzzyLine[0] == '#'
    ensures MatchDefault(FuzzyLine) == None && MatchFuzzy(FuzzyLine)
  {
    var f := FuzzyLine;
    assert f[1] == ',' && f[2..] == " " + "fuzzy";
    SkipOneSpace("fuzzy");
    assert NoOuterSpace(f);
    StripNoOuterSpace(f);
  }

  /** Reading a comment line. */
  lemma CommentStep(st: Parsed, c: string)
    requires st.pending.str.None? && CommentLine(c)
    ensures ParseStep(st, c) == Ok(st.(pending := st.pending.(comments := st.pending.comments + [c])))
  {
    StripNoOuterSpace(c);
    assert !StartsWith(c, "msgid") && !StartsWith(c, "msgstr");
  }

  /** Comment lines are collected in order. */
  lemma {:induction false} CommentsRead(lines: seq<string>, cs: seq<string>, st: Parsed)
    requires ParseLines(lines) == Ok(st) && st.pending.str.None?
    requires forall c | c in cs :: CommentLine(c)
    ensures ParseLines(lines + cs) == Ok(st.(pending := st.pending.(comments := st.pending.comments + cs)))
    decreases |cs|
  {
    if cs == [] {
      assert lines + cs == lines && st.pending.comments + cs == st.pending.comments;
    } else {
      var cs', c := cs[..|cs| - 1], cs[|cs| - 1];
      CommentsRead(lines, cs', st);
      var st1 := st.(pending := st.pending.(comments := st.pending.comments + cs'));
      CommentStep(st1, c);
      ParseOne(lines + cs', c, st1);
      AppendLast(lines, cs);
      AppendLast(st.pending.comments, cs);
    }
  }

  /** The id and translation lines complete the entry read so far as the
      message `m`. */
  lemma IdStrRead(lines: seq<string>, m: PoMessage, st: Parsed)
    requires m.id != "" || m.msg != ""
    requires ParseLines(lines) == Ok(st) && st.pending == Pending(Some(m.default), m.fuzzy, None, None, m.comments)
    ensures ParseLines(lines + [IdLine(m.id), StrLine(m.msg)]) == Ok(Parsed(Fresh, st.messages + [m], st.headers))
  {
    IdStrPair(lines, st, m.id, m.msg);
  }

  /** An id line then a translation line complete the pending entry. */
  lemma IdStrPair(lines: seq<string>, st: Parsed, id: string, str: string)
    requires ParseLines(lines) == Ok(st) && st.pending.str.None?
    ensures ParseLines(lines + [IdLine(id), StrLine(str)])
      == Ok(Parsed(Fresh, st.messages + Recorded(st.pending.(id := Some(id), str := Some(str))), st.headers))
  {
    IdStep(st, id);
    var st1 := st.(pending := st.pending.(id := Some(id)));
    StrStep(st1, str);
    ParseOne(lines, IdLine(id), st);
    ParseOne(lines + [IdLine(id)], StrLine(str), st1);
    Pair(lines, IdLine(id), StrLine(str));
  }

  /** Two lines appended one at a time. */
  lemma Pair(lines: seq<string>, x: string, y: string)
    ensures lines + [x] + [y] == lines + [x, y]
  {
  }

  /** The lines after the comments complete the entry as the message `m`. */
  lemma TailRead(lines: seq<string>, m: PoMessage, st: Parsed)
    requires ParseLines(lines) == Ok(st) && (m.id != "" || m.msg != "")
    requires st.pending == Fresh.(comments := m.comments)
    ensures ParseLines(lines + TailLines(m)) == Ok(Parsed(Fresh, st.messages + [m], st.headers))
  {
    var d := DefaultLine(m.default);
    DefaultStep(st, m.default);
    var st1 := st.(pending := st.pending.(default := Some(m.default)));
    ParseOne(lines, d, st);
    if m.fuzzy {
      FuzzyStep(st1);
      var st2 := st1.(pending := st1.pending.(fuzzy := true));
      ParseOne(lines + [d], FuzzyLine, st1);
      IdStrRead(lines + [d] + [FuzzyLine], m, st2);
      Regroup(lines, [d], [FuzzyLine], [IdLine(m.id), StrLine(m.msg)]);
    } else {
      IdStrRead(lines + [d], m, st1);
      Regroup(lines, [d], [], [IdLine(m.id), StrLine(m.msg)]);
      assert lines + [d] + [] == lines + [d];
    }
  }

  /** Lines appended, then one more. */
  lemma Snoc(lines: seq<string>, a: seq<string>, x: string)
    ensures lines + (a + [x]) == lines + a + [x]
  {
  }

  /** Lines appended in three parts. */
  lemma Regroup(lines: seq<string>, a: seq<string>, b: seq<string>, c: seq<string>)
    ensures lines + (a + b + c) == lines + a + b + c
  {
  }

  /** A well-written message's entry reads back as that message. */
  lemma EntryRead(lines: seq<string>, m: PoMessage, st: Parsed)
    requires ParseLines(lines) == Ok(st) && st.pending == Fresh && WellWritten(m)
    ensures ParseLines(lines + EntryLines(m)) == Ok(Parsed(Fresh, st.messages + [m], st.headers))
  {
    CommentsRead(lines, m.comments, st);
    assert Fresh.comments + m.comments == m.comments;
    TailRead(lines + m.comments, m, st.(pending := Fresh.(comments := m.comments)));
    Regroup(lines, m.comments, TailLines(m), []);
    assert m.comments + TailLines(m) + [] == EntryLines(m);
    assert lines + m.comments + TailLines(m) + [] == lines + m.comments + TailLines(m);
  }

  /** Well-written messages, written one after the other, read back as
      themselves, in order. */
  lemma {:induction false} EntriesRead(lines: seq<string>, ms: seq<PoMessage>, st: Parsed)
    requires ParseLines(lines) == Ok(st) && st.pending == Fresh
    requires forall m | m in ms :: WellWritten(m)
    ensures ParseLines(lines + EntriesLines(ms)) == Ok(Parsed(Fresh, st.messages + ms, st.headers))
    decreases |ms|
  {
    if ms == [] {
      assert lines + EntriesLines(ms) == lines && st.messages + ms == st.messages;
    } else {
      var ms', m := ms[..|ms| - 1], ms[|ms| - 1];
      EntriesRead(lines, ms', st);
      var pre := lines + EntriesLines(ms');
      EntryRead(pre, m, Parsed(Fresh, st.messages + ms', st.headers));
      var st2 := Parsed(Fresh, st.messages + ms' + [m], st.headers);
      ParseOne(pre + EntryLines(m), "", st2);
      BlankStep(st2);
      assert EntriesLines(ms) == EntriesLines(ms') + EntryLines(m) + [""];
      Regroup(lines, EntriesLines(ms'), EntryLines(m), [""]);
      AppendLast(st.messages, ms);
    }
  }

  /** Header lines read back as their headers, in order. */
  lemma {:induction false} HeaderLinesRead(lines: seq<string>, hs: seq<PoHeader>, st: Parsed)
    requires ParseLines(lines) == Ok(st)
    requires forall h | h in hs :: PlainHeader(h.name, h.value)
    ensures ParseLines(lines + HeaderLines(hs)) == Ok(st.(headers := st.headers + hs))
    decreases |hs|
  {
    if hs == [] {
      assert lines + HeaderLines(hs) == lines && st.headers + hs == st.headers;
    } else {
      var hs', h := hs[..|hs| - 1], hs[|hs| - 1];
      HeaderLinesRead(lines, hs', st);
      var st1 := st.(headers := st.headers + hs');
      HeaderStep(st1, h.name, h.value);
      ParseOne(lines + HeaderLines(hs'), HeaderLine(h.name, h.value), st1);
      assert HeaderLines(hs) == HeaderLines(hs') + [HeaderLine(h.name, h.value)];
      Snoc(lines, HeaderLines(hs'), HeaderLine(h.name, h.value));
      AppendLast(st.headers, hs);
    }
  }

  /** The header entry reads back as no message and its headers. */
  lemma HeaderBlockRead(hs: seq<PoHeader>)
    requires forall h | h in hs :: PlainHeader(h.name, h.value)
    ensures ParseLines(HeaderBlockLines(hs)) == Ok(Parsed(Fresh, [], hs))
  {
    var st := Parsed(Fresh, [], []);
    var two := [IdLine(""), StrLine("")];
    HeaderEntryStart();
    HeaderLinesRead(two, hs, st);
    EmptyFirst(hs);
    var st1 := Parsed(Fresh, [], hs);
    ParseOne(two + HeaderLines(hs), "", st1);
    BlankStep(st1);
  }

  /** The empty id and translation that open the header entry record nothing. */
  lemma HeaderEntryStart()
    ensures ParseLines([IdLine(""), StrLine("")]) == Ok(Parsed(Fresh, [], []))
  {
    var st := Parsed(Fresh, [], []);
    var two := [IdLine(""), StrLine("")];
    IdStrPair([], st, "", "");
    var p := Fresh.(id := Some(""), str := Some(""));
    assert Recorded(p) == [];
    EmptyFirst(two);
    EmptyFirst(Recorded(p));
  }

  /** A non-empty sequence is its front and its last element. */
  lemma AppendLast<T>(a: seq<T>, c: seq<T>)
    requires c != []
    ensures a + c[..|c| - 1] + [c[|c| - 1]] == a + c
  {
  }

  /** Nothing before a sequence. */
  lemma EmptyFirst<T>(s: seq<T>)
    ensures [] + s == s
  {
  }

  /** The headers a file is written with: its own, or, when it has none, the
      default ones and the fallback header. */
  function WrittenHeaders(headers: seq<PoHeader>, isPot: bool, app: string, creationTime: string, language: string, domain: string): (r: seq<PoHeader>)
    ensures r != []
  {
    if headers != [] then headers else DefaultHeaders(app, creationTime, language, domain) + FallbackHeaders(isPot, language)
  }

  /** The lines of a written file: the header entry (the template adds a
      blank line when it has no fallback line), then the messages. */
  function WrittenLines(headers: seq<PoHeader>, ms: seq<PoMessage>, isPot: bool, app: string, creationTime: string, language: string, domain: string): seq<string> {
    HeaderEntryLines(headers, isPot, app, creationTime, language, domain) + EntriesLines(ms)
  }

  /** The messages of a file in the order of its list. */
  function Listed(ids: seq<string>, d: map<string, PoMessage>): (r: seq<PoMessage>)
    requires forall id | id in ids :: id in d
    ensures |r| == |ids| && forall i :: 0 <= i < |ids| ==> r[i] == d[ids[i]]
  {
    if ids == [] then [] else Listed(ids[..|ids| - 1], d) + [d[ids[|ids| - 1]]]
  }

  /** Reading a written file gives back its messages, in order, and the
      headers it was written with. */
  lemma WrittenRead(headers: seq<PoHeader>, ms: seq<PoMessage>, isPot: bool, app: string, creationTime: string, language: string, domain: string)
    requires forall h | h in WrittenHeaders(headers, isPot, app, creationTime, language, domain) :: PlainHeader(h.name, h.value)
    requires forall m | m in ms :: WellWritten(m)
    ensures ParseLines(WrittenLines(headers, ms, isPot, app, creationTime, language, domain))
      == Ok(Parsed(Fresh, ms, WrittenHeaders(headers, isPot, app, creationTime, language, domain)))
  {
    var ws := WrittenHeaders(headers, isPot, app, creationTime, language, domain);
    var extra := if headers == [] && FallbackHeaders(isPot, language) == [] then [""] else [];
    var st := Parsed(Fresh, [], ws);
    HeaderBlockRead(ws);
    if extra != [] {
      ParseOne(HeaderBlockLines(ws), "", st);
      BlankStep(st);
    } else {
      assert HeaderBlockLines(ws) + extra == HeaderBlockLines(ws);
    }
    BlockThenEntries(HeaderBlockLines(ws) + extra, ms, ws);
  }

  /** Messages written after a header entry that reads as `hs` read back. */
  lemma BlockThenEntries(block: seq<string>, ms: seq<PoMessage>, hs: seq<PoHeader>)
    requires ParseLines(block) == Ok(Parsed(Fresh, [], hs))
    requires forall m | m in ms :: WellWritten(m)
    ensures ParseLines(block + EntriesLines(ms)) == Ok(Parsed(Fresh, ms, hs))
  {
    EntriesRead(block, ms, Parsed(Fresh, [], hs));
    EmptyFirst(ms);
  }

  /** One more message written after the others. */
  lemma WrittenText(ms: seq<PoMessage>, m: PoMessage)
    ensures LinesText(EntriesLines(ms + [m])) == LinesText(EntriesLines(ms)) + MessageText(m) + "\n"
  {
    assert (ms + [m])[..|ms|] == ms;
    var a, e := EntriesLines(ms), EntryLines(m);
    assert EntriesLines(ms + [m]) == (a + e) + [""];
    LinesTextConcat(a + e, [""]);
    LinesTextConcat(a, e);
    LinesOne("");
  }

  /** The header entry of a file: the entry of the headers it is written with,
      and the template's extra blank line when it has no fallback line. */
  function HeaderEntryLines(headers: seq<PoHeader>, isPot: bool, app: string, creationTime: string, language: string, domain: string): seq<string> {
    HeaderBlockLines(WrittenHeaders(headers, isPot, app, creationTime, language, domain))
      + (if headers == [] && FallbackHeaders(isPot, language) == [] then [""] else [])
  }

  /** A file with headers is written with its own header entry. */
  lemma KnownHeadersEntry(headers: seq<PoHeader>, isPot: bool, app: string, creationTime: string, language: string, domain: string)
    requires headers != []
    ensures HeaderEntryLines(headers, isPot, app, creationTime, language, domain) == HeaderBlockLines(headers)
  {
    assert HeaderBlockLines(headers) + [] == HeaderBlockLines(headers);
  }

  /** A file without headers is written with the template, which is the
      default header entry written out. */
  lemma DefaultEntry(isPot: bool, app: string, creationTime: string, language: string, domain: string)
    ensures DefaultHeaderText(isPot, app, creationTime, language, domain)
      == LinesText(HeaderEntryLines([], isPot, app, creationTime, language, domain))
  {
    DefaultHeaderBlock(isPot, app, creationTime, language, domain);
    DefaultEntryText(HeaderBlockLines(WrittenHeaders([], isPot, app, creationTime, language, domain)),
                     FallbackHeaders(isPot, language) == []);
  }

  /** Known headers, each written in turn. */
  method HeadersWalk(hs: seq<PoHeader>) returns (text: string)
    ensures text == LinesText(HeaderLines(hs))
  {
    text := "";
    for i := 0 to |hs|
      invariant text == LinesText(HeaderLines(hs[..i]))
    {
      HeaderTextStep(hs, i);
      text := text + HeaderText(hs[i]);
    }
    assert hs[..|hs|] == hs;
  }

  /** One more header line written. */
  lemma HeaderTextStep(hs: seq<PoHeader>, i: nat)
    requires i < |hs|
    ensures LinesText(HeaderLines(hs[..i + 1])) == LinesText(HeaderLines(hs[..i])) + HeaderText(hs[i])
  {
    assert hs[..i + 1][..i] == hs[..i];
  }

  /** The template's text is its lines written out, with its extra blank line. */
  lemma DefaultEntryText(block: seq<string>, extra: bool)
    ensures LinesText(block) + (if extra then "\n" else "") == LinesText(block + (if extra then [""] else []))
  {
    if extra {
      LinesTextConcat(block, [""]);
      LinesOne("");
    } else {
      assert block + [] == block;
    }
  }

  /** One more message listed. */
  lemma ListedStep(ids: seq<string>, d: map<string, PoMessage>, i: nat)
    requires i < |ids| && forall id | id in ids :: id in d
    ensures Listed(ids[..i + 1], d) == Listed(ids[..i], d) + [d[ids[i]]]
  {
    assert ids[..i + 1][..i] == ids[..i];
  }
}
