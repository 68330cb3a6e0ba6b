/** The logic of the release script bin/publish.py that does not talk to
    the FTP server, the shell or the terminal: the `FtpFolder` proxies of the
    distant site and how a directory listing fills them, the yes/no
    questions, the folders kept out of the distribution, and `Text2Html`,
    which turns a text file with titles and `-` items into HTML. */
module Publish {
  import opened Wrappers
  import Text

  // ---------------------------------------------------------------------------
  // FTP folder proxies
  // ---------------------------------------------------------------------------

  /** One `FtpFolder`. Folders refer to each other by their index in the
      table of proxies: `parent` is the index of the parent folder (None for
      the root) and `subFolders` the indices of the sub-folders. */
  datatype FtpFolder = FtpFolder(name: string, parent: Option<nat>, subFolders: seq<nat>, files: seq<string>, isComplete: bool)

  /** A folder always comes after its parent in the table. */
  predicate ParentsBefore(t: seq<FtpFolder>) {
    forall i :: 0 <= i < |t| && t[i].parent.Some? ==> t[i].parent.value < i
  }

  /** The proxies form a tree: a root, parents before their sub-folders,
      and `c` is listed among the sub-folders of `p` exactly when `p` is the
      parent of `c`. */
  predicate WellFormed(t: seq<FtpFolder>) {
    && |t| > 0
    && ParentsBefore(t)
    && (forall i, k :: 0 <= i < |t| && 0 <= k < |t[i].subFolders| ==> i < t[i].subFolders[k] < |t|)
    && (forall c, p :: 0 <= c < |t| && 0 <= p < |t| ==> (t[c].parent == Some(p) <==> c in t[p].subFolders))
  }

  /** `getFullName`: `.` for the root, else the parent's full name, a
      slash and the folder's name. */
  function FullName(t: seq<FtpFolder>, i: nat): string
    requires ParentsBefore(t) && i < |t|
    decreases i
  {
    match t[i].parent
    case None => "."
    case Some(p) => FullName(t, p) + "/" + t[i].name
  }

  /** The names on the way from the root down to folder `i`. */
  function NamePath(t: seq<FtpFolder>, i: nat): seq<string>
    requires ParentsBefore(t) && i < |t|
    decreases i
  {
    match t[i].parent
    case None => ["."]
    case Some(p) => NamePath(t, p) + [t[i].name]
  }

  /** A full name is read back into the names of the folders above it, as
      long as no folder name holds a slash. */
  lemma {:induction false} FullNameSplits(t: seq<FtpFolder>, i: nat)
    requires ParentsBefore(t) && i < |t|
    requires forall j :: 0 <= j < |t| ==> '/' !in t[j].name
    ensures Text.Split(FullName(t, i), '/') == NamePath(t, i)
    decreases i
  {
    match t[i].parent
    case None =>
      Text.SplitNoSep(".", '/');
    case Some(p) =>
      FullNameSplits(t, p);
      Text.SplitAppend(FullName(t, p), t[i].name, '/');
      assert FullName(t, p) + "/" + t[i].name == FullName(t, p) + ['/'] + t[i].name;
  }

  /** Whether `d` lies below `i`: following parents from `d` reaches `i`. */
  predicate Under(t: seq<FtpFolder>, i: nat, d: nat)
    requires ParentsBefore(t) && d < |t|
    decreases d
  {
    t[d].parent.Some? && (t[d].parent.value == i || Under(t, i, t[d].parent.value))
  }

  lemma {:induction false} UnderAfter(t: seq<FtpFolder>, i: nat, d: nat)
    requires ParentsBefore(t) && d < |t| && Under(t, i, d)
    ensures i < d
    decreases d
  {
    var p := t[d].parent.value;
    if p != i {
      UnderAfter(t, i, p);
    }
  }

  /** Whether every folder strictly between `i` and `d` is complete. */
  predicate CompleteBetween(t: seq<FtpFolder>, i: nat, d: nat)
    requires ParentsBefore(t) && d < |t| && Under(t, i, d)
    decreases d
  {
    var p := t[d].parent.value;
    p == i || (t[p].isComplete && CompleteBetween(t, i, p))
  }

  /** `isFullyComplete`: the folder and every sub-folder, recursively, were
      analysed. */
  predicate FullyComplete(t: seq<FtpFolder>, i: nat)
    requires WellFormed(t) && i < |t|
    decreases |t| - i
  {
    t[i].isComplete && forall k :: 0 <= k < |t[i].subFolders| ==> FullyComplete(t, t[i].subFolders[k])
  }

  lemma ChildUnder(t: seq<FtpFolder>, i: nat, c: nat)
    requires WellFormed(t) && i < |t| && c in t[i].subFolders
    ensures c < |t| && t[c].parent == Some(i) && Under(t, i, c)
  {
  }

  /** Everything below a fully complete folder is fully complete. */
  lemma {:induction false} FullyCompleteBelow(t: seq<FtpFolder>, i: nat, d: nat)
    requires WellFormed(t) && i < |t| && d < |t|
    requires FullyComplete(t, i) && Under(t, i, d)
    ensures FullyComplete(t, d)
    decreases d
  {
    var p := t[d].parent.value;
    if p != i {
      FullyCompleteBelow(t, i, p);
    }
    assert d in t[p].subFolders;
  }

  lemma {:induction false} UnderThrough(t: seq<FtpFolder>, i: nat, c: nat, d: nat)
    requires ParentsBefore(t) && c < |t| && d < |t|
    requires t[c].parent == Some(i) && Under(t, c, d)
    ensures Under(t, i, d)
    decreases d
  {
    var p := t[d].parent.value;
    if p != c {
      UnderThrough(t, i, c, p);
    }
  }

  /** A folder all of whose descendants are complete is fully complete. */
  lemma {:induction false} CompleteBelowFully(t: seq<FtpFolder>, i: nat)
    requires WellFormed(t) && i < |t| && t[i].isComplete
    requires forall d :: 0 <= d < |t| && Under(t, i, d) ==> t[d].isComplete
    ensures FullyComplete(t, i)
    decreases |t| - i
  {
    var subs := t[i].subFolders;
    forall k | 0 <= k < |subs|
      ensures FullyComplete(t, subs[k])
    {
      var c := subs[k];
      ChildUnder(t, i, c);
      forall d | 0 <= d < |t| && Under(t, c, d)
        ensures t[d].isComplete
      {
        UnderThrough(t, i, c, d);
      }
      CompleteBelowFully(t, c);
    }
  }

  /** `isFullyComplete` holds exactly when the folder and all the folders
      below it are complete. */
  lemma FullyCompleteMeaning(t: seq<FtpFolder>, i: nat)
    requires WellFormed(t) && i < |t|
    ensures FullyComplete(t, i) <==> t[i].isComplete && forall d :: 0 <= d < |t| && Under(t, i, d) ==> t[d].isComplete
  {
    if FullyComplete(t, i) {
      forall d | 0 <= d < |t| && Under(t, i, d)
        ensures t[d].isComplete
      {
        FullyCompleteBelow(t, i, d);
      }
    } else if t[i].isComplete && forall d :: 0 <= d < |t| && Under(t, i, d) ==> t[d].isComplete {
      CompleteBelowFully(t, i);
    }
  }

  /** What `getIncompleteSubFolders` collects: the nearest incomplete
      folders below `i`. */
  predicate NearestIncomplete(t: seq<FtpFolder>, i: nat, d: nat)
    requires ParentsBefore(t)
  {
    d < |t| && Under(t, i, d) && !t[d].isComplete && CompleteBetween(t, i, d)
  }

  /** Lifts what a complete sub-folder `s` of `i` collects to `i`. */
  lemma {:induction false} NearestThrough(t: seq<FtpFolder>, i: nat, s: nat, d: nat)
    requires ParentsBefore(t) && s < |t| && d < |t|
    requires t[s].parent == Some(i) && t[s].isComplete
    requires Under(t, s, d) && CompleteBetween(t, s, d)
    ensures Under(t, i, d) && CompleteBetween(t, i, d)
    decreases d
  {
    var p := t[d].parent.value;
    if p != s {
      NearestThrough(t, i, s, p);
      UnderAfter(t, s, p);
    }
  }

  /** `getIncompleteSubFolders` of folder `i`. */
  function IncompleteSubFolders(t: seq<FtpFolder>, i: nat): (r: seq<nat>)
    requires WellFormed(t) && i < |t|
    ensures forall k :: 0 <= k < |r| ==> NearestIncomplete(t, i, r[k])
    decreases |t| - i, |t[i].subFolders| + 1
  {
    IncompleteAmong(t, i, t[i].subFolders)
  }

  /** The loop of `getIncompleteSubFolders` over the sub-folders `subs`. */
  function IncompleteAmong(t: seq<FtpFolder>, i: nat, subs: seq<nat>): (r: seq<nat>)
    requires WellFormed(t) && i < |t|
    requires forall k :: 0 <= k < |subs| ==> subs[k] in t[i].subFolders
    ensures forall k :: 0 <= k < |r| ==> NearestIncomplete(t, i, r[k])
    decreases |t| - i, |subs|
  {
    if subs == [] then []
    else IncompleteAmong(t, i, subs[..|subs| - 1]) + Contribution(t, i, subs[|subs| - 1])
  }

  /** What one sub-folder `s` adds: itself when incomplete, else what it
      collects when something below it is incomplete. */
  function Contribution(t: seq<FtpFolder>, i: nat, s: nat): (r: seq<nat>)
    requires WellFormed(t) && i < |t| && s in t[i].subFolders
    ensures forall k :: 0 <= k < |r| ==> NearestIncomplete(t, i, r[k])
    decreases |t| - i, 0
  {
    ChildUnder(t, i, s);
    if !t[s].isComplete then [s]
    else if !FullyComplete(t, s) then
      var below := IncompleteSubFolders(t, s);
      LiftAll(t, i, s, below);
      below
    else []
  }

  lemma LiftAll(t: seq<FtpFolder>, i: nat, s: nat, below: seq<nat>)
    requires ParentsBefore(t) && s < |t|
    requires t[s].parent == Some(i) && t[s].isComplete
    requires forall k :: 0 <= k < |below| ==> NearestIncomplete(t, s, below[k])
    ensures forall k :: 0 <= k < |below| ==> NearestIncomplete(t, i, below[k])
  {
    forall k | 0 <= k < |below|
      ensures NearestIncomplete(t, i, below[k])
    {
      NearestThrough(t, i, s, below[k]);
    }
  }

  /** Nothing is collected exactly when every sub-folder is fully complete:
      for a complete folder, when the folder itself is fully complete. This
      is what ends the loop of `createFolderProxies`. */
  lemma {:induction false} IncompleteEmpty(t: seq<FtpFolder>, i: nat)
    requires WellFormed(t) && i < |t|
    ensures IncompleteSubFolders(t, i) == [] <==> forall k :: 0 <= k < |t[i].subFolders| ==> FullyComplete(t, t[i].subFolders[k])
    ensures t[i].isComplete ==> (IncompleteSubFolders(t, i) == [] <==> FullyComplete(t, i))
    decreases |t| - i
  {
    var subs := t[i].subFolders;
    IncompleteAmongEmpty(t, i, subs);
  }

  lemma {:induction false} IncompleteAmongEmpty(t: seq<FtpFolder>, i: nat, subs: seq<nat>)
    requires WellFormed(t) && i < |t|
    requires forall k :: 0 <= k < |subs| ==> subs[k] in t[i].subFolders
    ensures IncompleteAmong(t, i, subs) == [] <==> forall k :: 0 <= k < |subs| ==> FullyComplete(t, subs[k])
    decreases |t| - i, |subs|
  {
    if subs != [] {
      var front := subs[..|subs| - 1];
      var s := subs[|subs| - 1];
      IncompleteAmongEmpty(t, i, front);
      ChildUnder(t, i, s);
      if t[s].isComplete && !FullyComplete(t, s) {
        IncompleteEmpty(t, s);
      }
      assert forall k :: 0 <= k < |subs| ==> subs[k] == if k < |front| then front[k] else s;
    }
  }

  /** The sub-folder of `i` on the way down to `d`: `d` itself, or a
      complete folder with `d` as one of its nearest incomplete folders. */
  lemma {:induction false} TopChild(t: seq<FtpFolder>, i: nat, d: nat) returns (s: nat)
    requires ParentsBefore(t) && d < |t| && Under(t, i, d) && CompleteBetween(t, i, d)
    ensures s < |t| && t[s].parent == Some(i)
    ensures s == d || (t[s].isComplete && Under(t, s, d) && CompleteBetween(t, s, d))
    decreases d
  {
    var p := t[d].parent.value;
    if p == i {
      s := d;
    } else {
      s := TopChild(t, i, p);
    }
  }

  lemma {:induction false} NotFullyAbove(t: seq<FtpFolder>, s: nat, d: nat)
    requires WellFormed(t) && s < |t| && d < |t|
    requires Under(t, s, d) && !FullyComplete(t, d)
    ensures !FullyComplete(t, s)
    decreases d
  {
    var p := t[d].parent.value;
    assert d in t[p].subFolders;
    if p != s {
      NotFullyAbove(t, s, p);
    }
  }

  lemma {:induction false} AmongIncludes(t: seq<FtpFolder>, i: nat, subs: seq<nat>, s: nat)
    requires WellFormed(t) && i < |t|
    requires forall k :: 0 <= k < |subs| ==> subs[k] in t[i].subFolders
    requires s in subs
    ensures forall x :: x in Contribution(t, i, s) ==> x in IncompleteAmong(t, i, subs)
    decreases |subs|
  {
    if subs[|subs| - 1] != s {
      assert s in subs[..|subs| - 1];
      AmongIncludes(t, i, subs[..|subs| - 1], s);
    }
  }

  /** `getIncompleteSubFolders` collects exactly the nearest incomplete
      folders below `i`: no complete one, and none it misses. */
  lemma {:induction false} IncompleteSubFoldersExact(t: seq<FtpFolder>, i: nat, d: nat)
    requires WellFormed(t) && i < |t|
    ensures d in IncompleteSubFolders(t, i) <==> NearestIncomplete(t, i, d)
    decreases |t| - i
  {
    if NearestIncomplete(t, i, d) {
      var s := TopChild(t, i, d);
      assert s in t[i].subFolders;
      if s != d {
        UnderAfter(t, i, s);
        NotFullyAbove(t, s, d);
        IncompleteSubFoldersExact(t, s, d);
      }
      AmongIncludes(t, i, t[i].subFolders, s);
    }
  }

  /** `addSubFolder` with a new `FtpFolder(name)`: the folder is appended to
      the table, with `i` as its parent and as the last sub-folder of `i`. */
  function AddedSubFolder(t: seq<FtpFolder>, i: nat, name: string): seq<FtpFolder>
    requires i < |t|
  {
    t[i := t[i].(subFolders := t[i].subFolders + [|t|])] + [FtpFolder(name, Some(i), [], [], false)]
  }

  /** The first `|t|` folders of `u` have the names and parents they have
      in `t`. */
  predicate Extends(u: seq<FtpFolder>, t: seq<FtpFolder>) {
    |t| <= |u| && forall j :: 0 <= j < |t| ==> u[j].name == t[j].name && u[j].parent == t[j].parent
  }

  /** Growing the table does not change the full names already there. */
  lemma {:induction false} FullNameKept(t: seq<FtpFolder>, u: seq<FtpFolder>, j: nat)
    requires ParentsBefore(t) && ParentsBefore(u) && Extends(u, t) && j < |t|
    ensures FullName(u, j) == FullName(t, j)
    decreases j
  {
    if t[j].parent.Some? {
      FullNameKept(t, u, t[j].parent.value);
    }
  }

  /** Adding a sub-folder keeps the tree well formed, names the new folder
      after its parent, and changes no other full name. */
  lemma AddedSubFolderSpec(t: seq<FtpFolder>, i: nat, name: string)
    requires WellFormed(t) && i < |t|
    ensures WellFormed(AddedSubFolder(t, i, name)) && Extends(AddedSubFolder(t, i, name), t)
    ensures FullName(AddedSubFolder(t, i, name), |t|) == FullName(t, i) + "/" + name
    ensures forall j :: 0 <= j < |t| ==> FullName(AddedSubFolder(t, i, name), j) == FullName(t, j)
  {
    var u := AddedSubFolder(t, i, name);
    var n := |t|;
    assert forall j :: 0 <= j < n ==> u[j].parent == t[j].parent;
    assert forall j :: 0 <= j < n && j != i ==> u[j].subFolders == t[j].subFolders;
    assert u[i].subFolders == t[i].subFolders + [n];
    assert ParentsBefore(u);
    forall c, p | 0 <= c < |u| && 0 <= p < |u|
      ensures u[c].parent == Some(p) <==> c in u[p].subFolders
    {
      if c == n {
        assert p < n ==> n !in t[p].subFolders;
      } else if p == n {
        assert u[p].subFolders == [];
      }
    }
    forall j | 0 <= j < n
      ensures FullName(u, j) == FullName(t, j)
    {
      FullNameKept(t, u, j);
    }
  }

  /** `files.append(name)` on folder `i`. */
  function AddedFile(t: seq<FtpFolder>, i: nat, name: string): seq<FtpFolder>
    requires i < |t|
  {
    t[i := t[i].(files := t[i].files + [name])]
  }

  /** What an `ls` entry of the listing is, according to its last word and
      the first letter of its permissions. */
  datatype EntryKind = Ignored | SubFolder(name: string) | File(name: string)

  /** Hidden or private names are ignored, except the `__init__.py` files. */
  predicate Hidden(name: string) {
    (Text.StartsWith(name, ".") || Text.StartsWith(name, "_")) && !Text.StartsWith(name, "__init__.py")
  }

  function Classify(entry: string): EntryKind {
    var elems := Text.Split(entry, ' ');
    var name := elems[|elems| - 1];
    if Hidden(name) then Ignored
    else if Text.StartsWith(elems[0], "d") then SubFolder(name)
    else File(name)
  }

  lemma {:induction false} SplitFirst(a: string, b: string, sep: char)
    requires sep !in a
    ensures |Text.Split(a + [sep] + b, sep)| >= 2 && Text.Split(a + [sep] + b, sep)[0] == a
    decreases |b|
  {
    var s := a + [sep] + b;
    if b == [] {
      Text.SplitNoSep(a, sep);
      assert s[..|s| - 1] == a;
    } else {
      SplitFirst(a, b[..|b| - 1], sep);
      assert s[..|s| - 1] == a + [sep] + b[..|b| - 1];
    }
  }

  /** On an entry of the form `permissions info name`, the entry is read by
      its name and the first letter of its permissions. */
  lemma ClassifyListing(perms: string, info: string, name: string)
    requires ' ' !in perms && ' ' !in name
    ensures Classify(perms + " " + info + " " + name) ==
      if Hidden(name) then Ignored
      else if Text.StartsWith(perms, "d") then SubFolder(name)
      else File(name)
  {
    var front := perms + " " + info;
    SplitFirst(perms, info, ' ');
    Text.SplitAppend(front, name, ' ');
    assert perms + " " + info + " " + name == front + [' '] + name;
    assert front == perms + [' '] + info;
  }

  /** `analyseFolderEntry` on the folder `current`. */
  function Analysed(t: seq<FtpFolder>, current: nat, entry: string): (u: seq<FtpFolder>)
    requires current < |t|
    ensures |u| >= |t|
  {
    match Classify(entry)
    case Ignored => t
    case SubFolder(name) => AddedSubFolder(t, current, name)
    case File(name) => AddedFile(t, current, name)
  }

  /** Analysing every entry of a listing in turn. */
  function AnalysedAll(t: seq<FtpFolder>, current: nat, entries: seq<string>): (u: seq<FtpFolder>)
    requires current < |t|
    ensures |u| >= |t|
  {
    if entries == [] then t
    else Analysed(AnalysedAll(t, current, entries[..|entries| - 1]), current, entries[|entries| - 1])
  }

  lemma AnalysedSpec(t: seq<FtpFolder>, current: nat, entry: string)
    requires WellFormed(t) && current < |t|
    ensures WellFormed(Analysed(t, current, entry)) && Extends(Analysed(t, current, entry), t)
  {
    match Classify(entry)
    case Ignored =>
    case SubFolder(name) => AddedSubFolderSpec(t, current, name);
    case File(name) =>
      var u := AddedFile(t, current, name);
      assert forall j :: 0 <= j < |t| ==> u[j].parent == t[j].parent && u[j].subFolders == t[j].subFolders;
  }

  lemma ExtendsTrans(a: seq<FtpFolder>, b: seq<FtpFolder>, c: seq<FtpFolder>)
    requires Extends(b, a) && Extends(c, b)
    ensures Extends(c, a)
  {
  }

  /** Analysing a listing keeps the tree well formed and only adds folders. */
  lemma {:induction false} AnalysedAllSpec(t: seq<FtpFolder>, current: nat, entries: seq<string>)
    requires WellFormed(t) && current < |t|
    ensures WellFormed(AnalysedAll(t, current, entries)) && Extends(AnalysedAll(t, current, entries), t)
  {
    if entries != [] {
      var before := AnalysedAll(t, current, entries[..|entries| - 1]);
      AnalysedAllSpec(t, current, entries[..|entries| - 1]);
      AnalysedSpec(before, current, entries[|entries| - 1]);
      ExtendsTrans(t, before, AnalysedAll(t, current, entries));
    }
  }

  /** Setting `isComplete` on folder `i`. */
  function Completed(t: seq<FtpFolder>, i: nat): seq<FtpFolder>
    requires i < |t|
  {
    t[i := t[i].(isComplete := true)]
  }

  lemma CompletedSpec(t: seq<FtpFolder>, i: nat)
    requires WellFormed(t) && i < |t|
    ensures WellFormed(Completed(t, i)) && Extends(Completed(t, i), t)
  {
    var u := Completed(t, i);
    assert forall j :: 0 <= j < |t| ==> u[j].parent == t[j].parent && u[j].subFolders == t[j].subFolders;
  }

  /** The proxies `createFolderProxies` builds: the folders found so far on
      the site, the root first. */
  class FolderProxies {
    var folders: seq<FtpFolder>

    /** The root `FtpFolder('.')`, not yet analysed. */
    constructor()
      ensures folders == [FtpFolder(".", None, [], [], false)]
      ensures WellFormed(folders)
    {
      folders := [FtpFolder(".", None, [], [], false)];
    }

    /** `addSubFolder` of a new folder named `name` under `i`. */
    method AddSubFolder(i: nat, name: string) returns (child: nat)
      requires WellFormed(folders) && i < |folders|
      modifies this
      ensures folders == AddedSubFolder(old(folders), i, name) && child == old(|folders|)
      ensures WellFormed(folders) && FullName(folders, child) == FullName(folders, i) + "/" + name
    {
      AddedSubFolderSpec(folders, i, name);
      child := |folders|;
      var parent := folders[i];
      folders := folders[i := parent.(subFolders := parent.subFolders + [child])] + [FtpFolder(name, Some(i), [], [], false)];
      FullNameKept(old(folders), folders, i);
    }

    /** `analyseFolderEntry` while visiting folder `current`. */
    method AnalyseFolderEntry(current: nat, entry: string)
      requires WellFormed(folders) && current < |folders|
      modifies this
      ensures folders == Analysed(old(folders), current, entry)
      ensures WellFormed(folders) && Extends(folders, old(folders))
    {
      AnalysedSpec(folders, current, entry);
      var elems := Text.Split(entry, ' ');
      var elemName := elems[|elems| - 1];
      if Hidden(elemName) {
        return;
      }
      if Text.StartsWith(elems[0], "d") {
        var _ := AddSubFolder(current, elemName);
      } else {
        var folder := folders[current];
        folders := folders[current := folder.(files := folder.files + [elemName])];
      }
    }

    /** One turn of the loop of `createFolderProxies`: the entries the
        site lists for folder `i` are analysed, then the folder is marked
        complete. */
    method Visit(i: nat, entries: seq<string>)
      requires WellFormed(folders) && i < |folders|
      modifies this
      ensures folders == Completed(AnalysedAll(old(folders), i, entries), i)
      ensures WellFormed(folders) && Extends(folders, old(folders)) && folders[i].isComplete
    {
      var k := 0;
      while k < |entries|
        invariant 0 <= k <= |entries|
        invariant folders == AnalysedAll(old(folders), i, entries[..k])
        invariant WellFormed(folders) && Extends(folders, old(folders))
      {
        AnalysedAllSpec(old(folders), i, entries[..k + 1]);
        assert entries[..k + 1][..k] == entries[..k];
        AnalyseFolderEntry(i, entries[k]);
        k := k + 1;
      }
      assert entries[..k] == entries;
      CompletedSpec(folders, i);
      ExtendsTrans(old(folders), folders, Completed(folders, i));
      folders := folders[i := folders[i].(isComplete := true)];
    }

    /** `isFullyComplete`. */
    method IsFullyComplete(i: nat) returns (res: bool)
      requires WellFormed(folders) && i < |folders|
      ensures res == FullyComplete(folders, i)
      decreases |folders| - i
    {
      res := folders[i].isComplete;
      var subs := folders[i].subFolders;
      var k := 0;
      while k < |subs|
        invariant 0 <= k <= |subs|
        invariant res == (folders[i].isComplete && forall j :: 0 <= j < k ==> FullyComplete(folders, subs[j]))
      {
        if res {
          res := IsFullyComplete(subs[k]);
        }
        k := k + 1;
      }
    }

    /** `getIncompleteSubFolders`. */
    method GetIncompleteSubFolders(i: nat) returns (res: seq<nat>)
      requires WellFormed(folders) && i < |folders|
      ensures res == IncompleteSubFolders(folders, i)
      decreases |folders| - i
    {
      res := [];
      var subs := folders[i].subFolders;
      var k := 0;
      while k < |subs|
        invariant 0 <= k <= |subs|
        invariant res == IncompleteAmong(folders, i, subs[..k])
      {
        var s := subs[k];
        assert subs[..k + 1][..k] == subs[..k];
        if !folders[s].isComplete {
          res := res + [s];
        } else {
          var complete := IsFullyComplete(s);
          if !complete {
            var below := GetIncompleteSubFolders(s);
            res := res + below;
          }
        }
        k := k + 1;
      }
      assert subs[..k] == subs;
    }
  }

  // ---------------------------------------------------------------------------
  // Questions and the distribution
  // ---------------------------------------------------------------------------

  const YES: set<string> := {"y", "yes"}
  const NO: set<string> := {"n", "no"}

  /** `askQuestion`, the answer being the line read from the terminal. In
      silent mode the default is taken as it is written; otherwise the
      answer is trimmed and lower-cased, an empty answer takes the default
      and an unknown one means no. */
  function AskQuestion(silent: bool, default: string, line: string): bool {
    if silent then default == "yes"
    else
      var defaultIsYes := Text.Lower(default) in YES;
      var response := Text.Lower(Text.Strip(line));
      if response in YES then true
      else if response in NO then false
      else if response == "" then defaultIsYes
      else false
  }

  lemma LowerKeepsSpace(c: char)
    ensures Text.ToLowerChar(c) in Text.WHITESPACE <==> c in Text.WHITESPACE
  {
  }

  lemma NoOuterSpace(s: string)
    requires s == [] || (s[0] !in Text.WHITESPACE && s[|s| - 1] !in Text.WHITESPACE)
    ensures Text.Strip(s) == s
  {
  }

  lemma LowerTwice(s: string)
    ensures Text.Lower(Text.Lower(s)) == Text.Lower(s)
  {
    assert forall i :: 0 <= i < |s| ==> Text.ToLowerChar(Text.ToLowerChar(s[i])) == Text.ToLowerChar(s[i]);
  }

  /** The answer counts only once trimmed and lower-cased: typing it that
      way gives the same result. */
  lemma AnswerNormalised(default: string, line: string)
    ensures AskQuestion(false, default, line) == AskQuestion(false, default, Text.Lower(Text.Strip(line)))
  {
    var s := Text.Strip(line);
    var l := Text.Lower(s);
    var t := Text.LStrip(line, Text.WHITESPACE);
    assert s == Text.RStrip(t, Text.WHITESPACE);
    if s != [] {
      assert s[0] == t[0];
      LowerKeepsSpace(s[0]);
      LowerKeepsSpace(s[|s| - 1]);
    }
    NoOuterSpace(l);
    LowerTwice(s);
  }

  /** An interactive `y`, `yes`, `n` or `no` decides in any case and with
      surrounding blanks; a blank line gives the default and any other
      answer means no. In silent mode only the default `yes`, exactly as
      written, means yes. */
  lemma AnswerMeaning(default: string, line: string)
    ensures Text.Lower(Text.Strip(line)) in YES ==> AskQuestion(false, default, line)
    ensures Text.Lower(Text.Strip(line)) in NO ==> !AskQuestion(false, default, line)
    ensures Text.Lower(Text.Strip(line)) == "" ==> AskQuestion(false, default, line) == (Text.Lower(default) in YES)
    ensures Text.Lower(Text.Strip(line)) !in YES + NO + {""} ==> !AskQuestion(false, default, line)
    ensures AskQuestion(true, default, line) <==> default == "yes"
  {
    var response := Text.Lower(Text.Strip(line));
    AnswersDistinct(response);
  }

  /** No answer is both a yes and a no, and neither is empty. */
  lemma AnswersDistinct(r: string)
    ensures r in YES ==> r !in NO && r != ""
    ensures r in NO ==> r != ""
  {
    var y, yes, n, no := "y", "yes", "n", "no";
    assert y[0] != n[0] && y[0] != no[0] && yes[0] != n[0] && yes[0] != no[0];
    assert |y| > 0 && |yes| > 0 && |n| > 0 && |no| > 0;
  }

  const DIST_EXCLUDED: seq<string> := ["appy/doc", "appy/temp", "appy/versions", "appy/gen/test"]

  /** The folders kept out of the distribution: Bazaar folders and the
      folders under `distExcluded`. */
  predicate Excluded(name: string) {
    Text.Contains(name, ".bzr") || exists k :: 0 <= k < |DIST_EXCLUDED| && Text.StartsWith(name, DIST_EXCLUDED[k])
  }

  /** `isDistExcluded` (its `None` is false here). */
  method IsDistExcluded(name: string) returns (r: bool)
    ensures r <==> Excluded(name)
  {
    if Text.Contains(name, ".bzr") {
      return true;
    }
    var k := 0;
    while k < |DIST_EXCLUDED|
      invariant 0 <= k <= |DIST_EXCLUDED|
      invariant forall j :: 0 <= j < k ==> !Text.StartsWith(name, DIST_EXCLUDED[j])
    {
      if Text.StartsWith(name, DIST_EXCLUDED[k]) {
        return true;
      }
      k := k + 1;
    }
    return false;
  }

  lemma {:induction false} ContainsExtended(a: string, b: string, sub: string)
    requires Text.Contains(a, sub)
    ensures Text.Contains(a + b, sub)
    decreases |a|
  {
    if Text.StartsWith(a, sub) {
      assert (a + b)[..|sub|] == a[..|sub|];
    } else {
      ContainsExtended(a[1..], b, sub);
      assert (a + b)[1..] == a[1..] + b;
    }
  }

  /** Everything inside an excluded folder is excluded too. */
  lemma ExcludedInherited(a: string, b: string)
    requires Excluded(a)
    ensures Excluded(a + b)
  {
    if Text.Contains(a, ".bzr") {
      ContainsExtended(a, b, ".bzr");
    } else {
      var k :| 0 <= k < |DIST_EXCLUDED| && Text.StartsWith(a, DIST_EXCLUDED[k]);
      assert (a + b)[..|DIST_EXCLUDED[k]|] == a[..|DIST_EXCLUDED[k]|];
    }
  }

  // ---------------------------------------------------------------------------
  // Text2Html
  // ---------------------------------------------------------------------------

  /** What `Text2Html.run` writes, one write at a time. */
  datatype Piece = Raw(text: string) | OpenList | CloseList | Item(text: string) | Heading(text: string)

  function Render(p: Piece): string {
    match p
    case Raw(s) => s
    case OpenList => "<ul>\n"
    case CloseList => "</ul>\n"
    case Item(s) => "<li>" + s + "</li>\n"
    case Heading(s) => "<h1>" + s + "</h1>\n"
  }

  /** The text of the HTML file. */
  function Rendered(ps: seq<Piece>): string {
    if ps == [] then "" else Rendered(ps[..|ps| - 1]) + Render(ps[|ps| - 1])
  }

  /** The list depth after `ps`, starting at `depth`: a list opens only
      outside a list, items and closings come only inside one, and titles
      only outside; None once a tag is out of place. */
  function Nesting(ps: seq<Piece>, depth: nat): Option<nat>
    decreases |ps|
  {
    if ps == [] then Some(depth)
    else match ps[0]
      case Raw(_) => Nesting(ps[1..], depth)
      case OpenList => if depth == 0 then Nesting(ps[1..], 1) else None
      case CloseList => if depth == 1 then Nesting(ps[1..], 0) else None
      case Item(_) => if depth == 1 then Nesting(ps[1..], 1) else None
      case Heading(_) => if depth == 0 then Nesting(ps[1..], 0) else None
  }

  /** Every `<ul>` closed, nothing closed that was not open. */
  predicate WellNested(ps: seq<Piece>) {
    Nesting(ps, 0) == Some(0)
  }

  lemma {:induction false} NestingConcat(a: seq<Piece>, b: seq<Piece>, depth: nat)
    ensures Nesting(a + b, depth) == match Nesting(a, depth) case None => None case Some(d) => Nesting(b, d)
    decreases |a|
  {
    if a != [] {
      assert (a + b)[0] == a[0] && (a + b)[1..] == a[1..] + b;
      match a[0]
      case Raw(_) => NestingConcat(a[1..], b, depth);
      case OpenList => NestingConcat(a[1..], b, 1);
      case CloseList => NestingConcat(a[1..], b, 0);
      case Item(_) => NestingConcat(a[1..], b, 1);
      case Heading(_) => NestingConcat(a[1..], b, 0);
    } else {
      assert a + b == b;
    }
  }

  /** `getCleanLine`: `line[start:-1]`, the line without its first
      characters and its final newline. */
  function CleanLine(line: string, start: nat): (r: string)
    ensures |r| == if start + 1 < |line| then |line| - 1 - start else 0
  {
    if start + 1 < |line| then line[start..|line| - 1] else ""
  }

  /** The lines the converter keeps have a character at `firstChar`. */
  predicate Readable(lines: seq<string>, firstChar: nat, retain: string -> bool) {
    forall k :: 0 <= k < |lines| && retain(lines[k]) ==> firstChar < |lines[k]|
  }

  function Depth(inList: bool): nat {
    if inList then 1 else 0
  }

  /** One line of the loop: a `-` line is an item, opening a list first
      when needed; a line starting with a blank is skipped; any other kept
      line is a title, closing an open list first. */
  function LineStep(line: string, inList: bool, firstChar: nat, retain: string -> bool): (seq<Piece>, bool)
    requires retain(line) ==> firstChar < |line|
  {
    if !retain(line) then ([], inList)
    else if line[firstChar] == '-' then
      ((if inList then [] else [OpenList]) + [Item(CleanLine(line, firstChar + 1))], true)
    else if line[firstChar] == ' ' then ([], inList)
    else ((if inList then [CloseList] else []) + [Heading(CleanLine(line, firstChar))], false)
  }

  /** What the loop writes for `lines`, and whether a list is open after. */
  function Body(lines: seq<string>, firstChar: nat, retain: string -> bool): (seq<Piece>, bool)
    requires Readable(lines, firstChar, retain)
  {
    if lines == [] then ([], false)
    else
      var (before, inList) := Body(lines[..|lines| - 1], firstChar, retain);
      var (step, after) := LineStep(lines[|lines| - 1], inList, firstChar, retain);
      (before + step, after)
  }

  lemma StepNesting(line: string, inList: bool, firstChar: nat, retain: string -> bool)
    requires retain(line) ==> firstChar < |line|
    ensures Nesting(LineStep(line, inList, firstChar, retain).0, Depth(inList)) == Some(Depth(LineStep(line, inList, firstChar, retain).1))
  {
    if retain(line) && line[firstChar] != ' ' {
      var last := if line[firstChar] == '-' then Item(CleanLine(line, firstChar + 1)) else Heading(CleanLine(line, firstChar));
      var d := if line[firstChar] == '-' then 1 else 0;
      assert Nesting([last], d) == Some(d);
      if line[firstChar] == '-' && !inList {
        assert [OpenList, last][1..] == [last];
      } else if line[firstChar] != '-' && inList {
        assert [CloseList, last][1..] == [last];
      }
    }
  }

  /** The loop leaves the list depth at one exactly when a list is open. */
  lemma {:induction false} BodyNesting(lines: seq<string>, firstChar: nat, retain: string -> bool)
    requires Readable(lines, firstChar, retain)
    ensures Nesting(Body(lines, firstChar, retain).0, 0) == Some(Depth(Body(lines, firstChar, retain).1))
  {
    if lines != [] {
      var front := lines[..|lines| - 1];
      var (before, inList) := Body(front, firstChar, retain);
      BodyNesting(front, firstChar, retain);
      StepNesting(lines[|lines| - 1], inList, firstChar, retain);
      NestingConcat(before, LineStep(lines[|lines| - 1], inList, firstChar, retain).0, 0);
    }
  }

  function Header(title: string): Piece {
    Raw("<html>\n\n<head><title>" + title + "</title></head>\n\n<body>\n")
  }

  const END: string := "</body>\n</html>"

  /** The end of the file as the script writes it: a `</ul>` whether or
      not a list is open. */
  const ClosingAsWritten: seq<Piece> := [Raw("\n"), CloseList, Raw(END)]

  /** The end of the file closing the list only when one is open. */
  function Closing(inList: bool): seq<Piece> {
    (if inList then [Raw("\n"), CloseList] else [Raw("\n")]) + [Raw(END)]
  }

  /** The whole file `run` writes, as written. */
  function DocumentAsWritten(lines: seq<string>, firstChar: nat, retain: string -> bool, title: string, prolog: string): seq<Piece>
    requires Readable(lines, firstChar, retain)
  {
    [Header(title), Raw(prolog)] + Body(lines, firstChar, retain).0 + ClosingAsWritten
  }

  /** The whole file, with the last list closed only when it is open. */
  function Document(lines: seq<string>, firstChar: nat, retain: string -> bool, title: string, prolog: string): seq<Piece>
    requires Readable(lines, firstChar, retain)
  {
    var (body, inList) := Body(lines, firstChar, retain);
    [Header(title), Raw(prolog)] + body + Closing(inList)
  }

  /** A text whose last kept line is not an item (or that keeps no line)
      gets a `</ul>` with no `<ul>` to close. */
  lemma StrayCloseAsWritten(lines: seq<string>, firstChar: nat, retain: string -> bool, title: string, prolog: string)
    requires Readable(lines, firstChar, retain) && !Body(lines, firstChar, retain).1
    ensures !WellNested(DocumentAsWritten(lines, firstChar, retain, title, prolog))
  {
    var head := [Header(title), Raw(prolog)];
    var body := Body(lines, firstChar, retain).0;
    BodyNesting(lines, firstChar, retain);
    NestingConcat(head, body, 0);
    NestingConcat(head + body, ClosingAsWritten, 0);
  }

  /** Closing the list only when one is open gives a well-nested file for
      every text, and the same file as the script when a list is open. */
  lemma DocumentWellNested(lines: seq<string>, firstChar: nat, retain: string -> bool, title: string, prolog: string)
    requires Readable(lines, firstChar, retain)
    ensures WellNested(Document(lines, firstChar, retain, title, prolog))
    ensures Body(lines, firstChar, retain).1 ==> Document(lines, firstChar, retain, title, prolog) == DocumentAsWritten(lines, firstChar, retain, title, prolog)
  {
    var head := [Header(title), Raw(prolog)];
    var (body, inList) := Body(lines, firstChar, retain);
    BodyNesting(lines, firstChar, retain);
    NestingConcat(head, body, 0);
    NestingConcat(head + body, Closing(inList), 0);
    var end := [Raw(END)];
    assert Nesting(end, 0) == Some(0);
    if inList {
      assert Closing(inList)[1..] == [CloseList] + end && ([CloseList] + end)[1..] == end;
    } else {
      assert Closing(inList)[1..] == end;
    }
  }

  /** A `Text2Html` converter: the lines of the text file, the hooks a
      subclass provides (which lines to keep, where their first relevant
      character is, the title and the prolog), and the writes made to the
      HTML file. */
  class Text2Html {
    const lines: seq<string>
    const firstChar: nat
    const retain: string -> bool
    const title: string
    const prolog: string
    var written: seq<Piece>

    constructor(lines: seq<string>, firstChar: nat, retain: string -> bool, title: string, prolog: string)
      ensures this.lines == lines && this.firstChar == firstChar && this.retain == retain
      ensures this.title == title && this.prolog == prolog && written == []
    {
      this.lines := lines;
      this.firstChar := firstChar;
      this.retain := retain;
      this.title := title;
      this.prolog := prolog;
      written := [];
    }

    /** `run`, closing the last list only when it is open. */
    method Run()
      requires Readable(lines, firstChar, retain)
      modifies this
      ensures written == old(written) + Document(lines, firstChar, retain, title, prolog)
    {
      var head := [Header(title), Raw(prolog)];
      written := written + head;
      var inList := false;
      var k := 0;
      while k < |lines|
        invariant 0 <= k <= |lines|
        invariant written == old(written) + head + Body(lines[..k], firstChar, retain).0
        invariant inList == Body(lines[..k], firstChar, retain).1
      {
        var line := lines[k];
        assert lines[..k + 1][..k] == lines[..k];
        var step: seq<Piece> := [];
        if retain(line) {
          var c := line[firstChar];
          if c == '-' {
            if !inList {
              step := [OpenList];
              inList := true;
            }
            step := step + [Item(CleanLine(line, firstChar + 1))];
          } else if c == ' ' {
          } else {
            if inList {
              step := [CloseList];
              inList := false;
            }
            step := step + [Heading(CleanLine(line, firstChar))];
          }
        }
        written := written + step;
        k := k + 1;
      }
      assert lines[..k] == lines;
      if inList {
        written := written + [Raw("\n"), CloseList];
      } else {
        written := written + [Raw("\n")];
      }
      written := written + [Raw(END)];
    }
  }
}
