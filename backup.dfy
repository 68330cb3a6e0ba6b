/** The decisions of the nightly ZODB backup script bin/backup.py: how
    backup file names are read as dates, which backups `removeOldBackups`
    deletes, how the SMTP option is read, and which command lines
    `checkArgs` accepts. Dates are the six numbers year, month, day, hour,
    minute and second, compared in that order, as Zope's `DateTime`
    compares the moments they stand for. */
module Backups {
  import opened Wrappers
  import Text
  import AppyPackage
  import Lists

  // ---------------------------------------------------------------------------
  // Backup file names
  // ---------------------------------------------------------------------------

  /** The extensions of full backups made by repozo. */
  const FULL_BACKUP_EXTS: set<string> := {".fs", ".fsz"}

  /** `os.path.splitext` on a file name: the extension starts at the last
      dot, unless only dots come before that dot. */
  function SplitExt(name: string): (r: (string, string))
    ensures r.0 + r.1 == name
    ensures r.1 == [] || r.1[0] == '.'
  {
    var i := Text.LastIndexOf(name, '.');
    if i <= 0 || forall k :: 0 <= k < i ==> name[k] == '.' then (name, "")
    else
      assert name[..i] + name[i..] == name;
      (name[..i], name[i..])
  }

  function Stem(name: string): string { SplitExt(name).0 }
  function Ext(name: string): string { SplitExt(name).1 }

  predicate IsFullBackup(name: string) {
    Ext(name) in FULL_BACKUP_EXTS
  }

  /** `getDate`: `YYYY-MM-DD-HH-MM-SS` read as six numbers; None where the
      script raises (not six parts, or a part that is not a number). */
  function GetDate(dateString: string): (r: Option<seq<int>>)
    ensures r.Some? ==> |r.value| == 6
  {
    var parts := Text.Split(dateString, '-');
    if |parts| != 6 then None else AppyPackage.ParseAll(parts)
  }

  /** The date of a backup file, read from its name without extension. */
  function DateOf(name: string): Option<seq<int>> {
    GetDate(Stem(name))
  }

  /** The default threshold, 1980/01/01. */
  const EIGHTIES: seq<int> := [1980, 1, 1, 0, 0, 0]

  /** `n` written with at least `w` digits, as repozo pads its numbers. */
  function Padded(n: nat, w: nat): (s: string)
    ensures |s| > 0 && Text.AllDigits(s)
  {
    var digits := Text.NatToString(n);
    Zeros(w - |digits|) + digits
  }

  function Zeros(k: int): (s: string)
    ensures Text.AllDigits(s)
    decreases k
  {
    if k <= 0 then "" else Zeros(k - 1) + "0"
  }

  lemma {:induction false} ZerosValue(k: int)
    ensures Text.DecimalValue(Zeros(k)) == 0
    decreases k
  {
    if k > 0 {
      var z := Zeros(k);
      ZerosValue(k - 1);
      assert z == Zeros(k - 1) + "0";
      assert z[..|z| - 1] == Zeros(k - 1) && z[|z| - 1] == '0';
    }
  }

  lemma ZerosFirst(k: int, digits: string)
    requires Text.AllDigits(digits)
    ensures Text.AllDigits(Zeros(k) + digits)
    ensures Text.DecimalValue(Zeros(k) + digits) == Text.DecimalValue(digits)
  {
    var z := Zeros(k);
    Text.DecimalValueConcat(z, digits);
    ZerosValue(k);
    var zv, shift := Text.DecimalValue(z), Text.Pow10(|digits|);
    assert zv * shift == 0;
  }

  lemma PaddedValue(n: nat, w: nat)
    ensures Text.PyInt(Padded(n, w)) == Some(n)
  {
    var digits := Text.NatToString(n);
    ZerosFirst(w - |digits|, digits);
    Text.NatToStringRoundTrip(n);
    var p := Padded(n, w);
    assert Text.DecimalValue(p) == n;
    DigitsValue(p, n);
  }

  lemma DigitsValue(t: string, n: nat)
    requires |t| > 0 && Text.AllDigits(t) && Text.DecimalValue(t) == n
    ensures Text.PyInt(t) == Some(n)
  {
    Text.PyIntOfDigits(t);
  }

  /** The name repozo gives the files of a backup made at `date`. */
  function DateString(date: seq<nat>): string
    requires |date| == 6
  {
    Text.Join(DateParts(date), "-")
  }

  function DateParts(date: seq<nat>): (parts: seq<string>)
    requires |date| == 6
    ensures |parts| == 6 && forall k :: 0 <= k < 6 ==> parts[k] == Padded(date[k], if k == 0 then 4 else 2)
  {
    [Padded(date[0], 4), Padded(date[1], 2), Padded(date[2], 2), Padded(date[3], 2), Padded(date[4], 2), Padded(date[5], 2)]
  }

  lemma {:induction false} ParseAllOf(parts: seq<string>, values: seq<int>)
    requires |parts| == |values|
    requires forall k :: 0 <= k < |parts| ==> Text.PyInt(parts[k]) == Some(values[k])
    ensures AppyPackage.ParseAll(parts) == Some(values)
    decreases |parts|
  {
    if parts != [] {
      ParseAllOf(parts[1..], values[1..]);
      assert [values[0]] + values[1..] == values;
    }
  }

  /** `getDate` reads back the date in the name of a backup file. */
  lemma GetDateRoundTrip(date: seq<nat>)
    requires |date| == 6
    ensures GetDate(DateString(date)) == Some(date)
  {
    var parts := DateParts(date);
    forall k | 0 <= k < 6
      ensures '-' !in parts[k] && Text.PyInt(parts[k]) == Some(date[k])
    {
      PaddedValue(date[k], if k == 0 then 4 else 2);
      assert forall i :: 0 <= i < |parts[k]| ==> Text.IsDigit(parts[k][i]);
    }
    Text.JoinSplit(parts, '-');
    ParseAllOf(parts, date);
  }

  // ---------------------------------------------------------------------------
  // removeOldBackups
  // ---------------------------------------------------------------------------

  /** The first loop of `removeOldBackups`: the date of the newest full
      backup, 1980/01/01 when there is none; None when the name of a full
      backup is not a date. */
  function NewestFull(files: seq<string>): Option<seq<int>> {
    if files == [] then Some(EIGHTIES)
    else
      match NewestFull(files[..|files| - 1])
      case None => None
      case Some(newest) =>
        var name := files[|files| - 1];
        if !IsFullBackup(name) then Some(newest)
        else
          match DateOf(name)
          case None => None
          case Some(date) => Some(if AppyPackage.ListLess(newest, date) then date else newest)
  }

  /** Every full backup of `files` has a readable date. */
  predicate FullDated(files: seq<string>) {
    forall k :: 0 <= k < |files| && IsFullBackup(files[k]) ==> DateOf(files[k]).Some?
  }

  /** `newest` is the date of the newest full backup of `files`, or 1980/01/01
      when they are all older or there is none. */
  predicate IsNewest(files: seq<string>, newest: seq<int>) {
    && AppyPackage.ListGeq(newest, EIGHTIES)
    && (forall k :: 0 <= k < |files| && IsFullBackup(files[k]) && DateOf(files[k]).Some? ==> AppyPackage.ListGeq(newest, DateOf(files[k]).value))
    && (newest == EIGHTIES || exists k :: 0 <= k < |files| && IsFullBackup(files[k]) && DateOf(files[k]) == Some(newest))
  }

  /** The threshold is found exactly when every full backup has a date. */
  lemma {:induction false} NewestFullDefined(files: seq<string>)
    ensures NewestFull(files).Some? <==> FullDated(files)
  {
    if files != [] {
      var front := files[..|files| - 1];
      var name := files[|files| - 1];
      NewestFullDefined(front);
      assert files == front + [name];
      FullDatedSnoc(front, name);
    }
  }

  lemma FullDatedSnoc(front: seq<string>, name: string)
    ensures FullDated(front + [name]) <==> FullDated(front) && (IsFullBackup(name) ==> DateOf(name).Some?)
  {
    var files := front + [name];
    assert forall k :: 0 <= k < |front| ==> files[k] == front[k];
    assert files[|front|] == name;
  }

  /** One more file keeps the newest date newest. */
  lemma NewestExtended(front: seq<string>, name: string, newest: seq<int>, r: seq<int>)
    requires IsNewest(front, newest)
    requires !IsFullBackup(name) ==> r == newest
    requires IsFullBackup(name) ==> DateOf(name).Some?
    requires IsFullBackup(name) ==> r == (if AppyPackage.ListLess(newest, DateOf(name).value) then DateOf(name).value else newest)
    ensures IsNewest(front + [name], r)
  {
    if IsFullBackup(name) {
      var date := DateOf(name).value;
      AppyPackage.ListGeqOrder(newest, date, EIGHTIES);
      assert AppyPackage.ListGeq(r, newest) && AppyPackage.ListGeq(r, date);
      AppyPackage.ListGeqOrder(r, newest, EIGHTIES);
    }
    NewestBounds(front, name, newest, r);
    NewestWitness(front, name, newest, r);
  }

  /** A date above the old newest one and above the new file's date is
      above every full backup of the longer list. */
  lemma NewestBounds(front: seq<string>, name: string, newest: seq<int>, r: seq<int>)
    requires IsNewest(front, newest) && AppyPackage.ListGeq(r, newest)
    requires IsFullBackup(name) && DateOf(name).Some? ==> AppyPackage.ListGeq(r, DateOf(name).value)
    ensures var files := front + [name];
      forall k :: 0 <= k < |files| && IsFullBackup(files[k]) && DateOf(files[k]).Some? ==> AppyPackage.ListGeq(r, DateOf(files[k]).value)
  {
    var files := front + [name];
    forall k | 0 <= k < |files| && IsFullBackup(files[k]) && DateOf(files[k]).Some?
      ensures AppyPackage.ListGeq(r, DateOf(files[k]).value)
    {
      if k < |front| {
        assert files[k] == front[k];
        AppyPackage.ListGeqOrder(r, newest, DateOf(files[k]).value);
      } else {
        assert files[k] == name;
      }
    }
  }

  /** The old newest date, or the new file's date, is still the date of a
      full backup of the longer list. */
  lemma NewestWitness(front: seq<string>, name: string, newest: seq<int>, r: seq<int>)
    requires IsNewest(front, newest)
    requires r == newest || (IsFullBackup(name) && DateOf(name) == Some(r))
    ensures var files := front + [name];
      r == EIGHTIES || exists k :: 0 <= k < |files| && IsFullBackup(files[k]) && DateOf(files[k]) == Some(r)
  {
    var files := front + [name];
    if r != EIGHTIES {
      if r == newest {
        var k :| 0 <= k < |front| && IsFullBackup(front[k]) && DateOf(front[k]) == Some(newest);
        assert files[k] == front[k];
      } else {
        assert files[|front|] == name;
      }
    }
  }

  /** The threshold is then the date of the newest full backup (or
      1980/01/01). */
  lemma {:induction false} NewestFullSpec(files: seq<string>)
    requires NewestFull(files).Some?
    ensures IsNewest(files, NewestFull(files).value)
  {
    if files == [] {
      AppyPackage.ListGeqOrder(EIGHTIES, EIGHTIES, EIGHTIES);
    } else {
      var front := files[..|files| - 1];
      var name := files[|files| - 1];
      NewestFullSpec(front);
      assert front + [name] == files;
      NewestExtended(front, name, NewestFull(front).value, NewestFull(files).value);
    }
  }

  /** There is only one newest date. */
  lemma NewestUnique(files: seq<string>, a: seq<int>, b: seq<int>)
    requires IsNewest(files, a) && IsNewest(files, b)
    ensures a == b
  {
    assert AppyPackage.ListGeq(a, b) && AppyPackage.ListGeq(b, a);
    AppyPackage.ListGeqOrder(a, b, a);
  }

  /** The second loop of `removeOldBackups`, in folder order: the files
      left and whether the loop got through. A file older than the
      threshold is removed; the first file whose name is not a date stops
      the script, leaving it and the files after it. */
  function Removal(files: seq<string>, threshold: seq<int>): (seq<string>, bool) {
    if files == [] then ([], true)
    else
      match DateOf(files[0])
      case None => (files, false)
      case Some(date) =>
        var (rest, ok) := Removal(files[1..], threshold);
        ((if AppyPackage.ListLess(date, threshold) then [] else [files[0]]) + rest, ok)
  }

  /** Nothing is added; when every file is dated, exactly the files older
      than the threshold are gone. */
  lemma RemovalSpec(files: seq<string>, threshold: seq<int>)
    ensures forall f :: f in Removal(files, threshold).0 ==> f in files
    ensures Removal(files, threshold).1 <==> forall f :: f in files ==> DateOf(f).Some?
    ensures Removal(files, threshold).1 ==> forall f :: f in files ==>
              (f in Removal(files, threshold).0 <==> !AppyPackage.ListLess(DateOf(f).value, threshold))
  {
    RemovalSubset(files, threshold);
    RemovalOk(files, threshold);
    if Removal(files, threshold).1 {
      RemovalKept(files, threshold);
    }
  }

  /** The file that heads the list, if kept, then what the rest keeps. */
  lemma RemovalStep(files: seq<string>, threshold: seq<int>)
    requires files != [] && DateOf(files[0]).Some?
    ensures var date := DateOf(files[0]).value;
      Removal(files, threshold) ==
        ((if AppyPackage.ListLess(date, threshold) then [] else [files[0]]) + Removal(files[1..], threshold).0,
         Removal(files[1..], threshold).1)
  {
  }

  lemma {:induction false} RemovalSubset(files: seq<string>, threshold: seq<int>)
    ensures forall f :: f in Removal(files, threshold).0 ==> f in files
    decreases |files|
  {
    if files != [] && DateOf(files[0]).Some? {
      var tail := files[1..];
      RemovalSubset(tail, threshold);
      RemovalStep(files, threshold);
      assert files == [files[0]] + tail;
    }
  }

  lemma {:induction false} RemovalOk(files: seq<string>, threshold: seq<int>)
    ensures Removal(files, threshold).1 <==> AllDated(files)
    decreases |files|
  {
    if files != [] {
      AllDatedCons(files);
      if DateOf(files[0]).Some? {
        RemovalOk(files[1..], threshold);
        RemovalStep(files, threshold);
      }
    }
  }

  /** Every file name is a date. */
  predicate AllDated(files: seq<string>) {
    forall f :: f in files ==> DateOf(f).Some?
  }

  lemma AllDatedCons(files: seq<string>)
    requires files != []
    ensures AllDated(files) <==> DateOf(files[0]).Some? && AllDated(files[1..])
  {
    var tail := files[1..];
    assert files == [files[0]] + tail;
    assert forall f :: f in files <==> f == files[0] || f in tail;
  }

  lemma {:induction false} RemovalKept(files: seq<string>, threshold: seq<int>)
    requires forall f :: f in files ==> DateOf(f).Some?
    ensures forall f :: f in files ==>
              (f in Removal(files, threshold).0 <==> !AppyPackage.ListLess(DateOf(f).value, threshold))
    decreases |files|
  {
    if files != [] {
      var tail := files[1..];
      assert files == [files[0]] + tail;
      assert DateOf(files[0]).Some?;
      RemovalKept(tail, threshold);
      RemovalSubset(tail, threshold);
      RemovalStep(files, threshold);
      var rest := Removal(tail, threshold).0;
      var date := DateOf(files[0]).value;
      var head := if AppyPackage.ListLess(date, threshold) then [] else [files[0]];
      forall f | f in files
        ensures f in head + rest <==> !AppyPackage.ListLess(DateOf(f).value, threshold)
      {
        if f != files[0] {
          assert f in tail;
        }
      }
    }
  }

  /** Files that are all dated and none older than the threshold stay. */
  lemma {:induction false} RemovalKeepsAll(files: seq<string>, threshold: seq<int>)
    requires forall f :: f in files ==> DateOf(f).Some? && !AppyPackage.ListLess(DateOf(f).value, threshold)
    ensures Removal(files, threshold) == (files, true)
    decreases |files|
  {
    if files != [] {
      RemovalKeepsAll(files[1..], threshold);
      assert [files[0]] + files[1..] == files;
    }
  }

  lemma FullDatedSubset(files: seq<string>, kept: seq<string>)
    requires FullDated(files)
    requires forall f :: f in kept ==> f in files
    ensures FullDated(kept)
  {
    forall k | 0 <= k < |kept| && IsFullBackup(kept[k])
      ensures DateOf(kept[k]).Some?
    {
      assert kept[k] in files;
    }
  }

  /** Pruning again changes nothing: the newest full backup survives, so
      the threshold stays the same and every file left is not older. */
  lemma PruneTwice(files: seq<string>, newest: seq<int>, kept: seq<string>)
    requires NewestFull(files) == Some(newest) && Removal(files, newest) == (kept, true)
    ensures NewestFull(kept) == Some(newest)
    ensures Removal(kept, newest) == (kept, true)
  {
    NewestFullDefined(files);
    NewestFullSpec(files);
    RemovalSpec(files, newest);
    FullDatedSubset(files, kept);
    NewestFullDefined(kept);
    NewestFullSpec(kept);
    forall k | 0 <= k < |kept| && IsFullBackup(kept[k]) && DateOf(kept[k]).Some?
      ensures AppyPackage.ListGeq(newest, DateOf(kept[k]).value)
    {
      assert kept[k] in files;
      var j :| 0 <= j < |files| && files[j] == kept[k];
    }
    if newest != EIGHTIES {
      var j :| 0 <= j < |files| && IsFullBackup(files[j]) && DateOf(files[j]) == Some(newest);
      AppyPackage.ListLessIrreflexive(newest);
      assert files[j] in kept;
      var k :| 0 <= k < |kept| && kept[k] == files[j];
    }
    assert IsNewest(kept, newest);
    NewestUnique(kept, NewestFull(kept).value, newest);
    RemovalKeepsAll(kept, newest);
  }

  /** The newest full backup is never removed. */
  lemma NewestKept(files: seq<string>, newest: seq<int>, k: nat)
    requires NewestFull(files) == Some(newest) && Removal(files, newest).1
    requires k < |files| && IsFullBackup(files[k]) && DateOf(files[k]) == Some(newest)
    ensures files[k] in Removal(files, newest).0
  {
    RemovalSpec(files, newest);
    AppyPackage.ListLessIrreflexive(newest);
  }

  /** The backup script's view of the backup folder: the names
      `os.listdir` gives, in its order. */
  class ZodbBackuper {
    var backups: seq<string>

    constructor(backups: seq<string>)
      ensures this.backups == backups
    {
      this.backups := backups;
    }

    /** `removeOldBackups`; false when a file name is not a date (the
        script raises). */
    method RemoveOldBackups() returns (ok: bool)
      modifies this
      ensures NewestFull(old(backups)).None? ==> !ok && backups == old(backups)
      ensures NewestFull(old(backups)).Some? ==> (backups, ok) == Removal(old(backups), NewestFull(old(backups)).value)
    {
      var newest := FindNewest(backups);
      if newest.None? {
        return false;
      }
      ok := RemoveOlderThan(newest.value);
    }

    /** The second loop of `removeOldBackups`. */
    method RemoveOlderThan(threshold: seq<int>) returns (ok: bool)
      modifies this
      ensures (backups, ok) == Removal(old(backups), threshold)
    {
      var files := backups;
      var kept: seq<string> := [];
      var k := 0;
      assert files[k..] == files;
      assert kept + Removal(files, threshold).0 == Removal(files, threshold).0;
      while k < |files|
        invariant 0 <= k <= |files|
        invariant backups == kept + files[k..]
        invariant Removal(files, threshold).0 == kept + Removal(files[k..], threshold).0
        invariant Removal(files, threshold).1 == Removal(files[k..], threshold).1
      {
        RemovalAt(files, k, threshold);
        var date := DateOf(files[k]);
        if date.None? {
          return false;
        }
        var rest := Removal(files[k + 1..], threshold).0;
        if AppyPackage.ListLess(date.value, threshold) {
          DropAt(kept, files[k], files[k + 1..]);
          backups := backups[..|kept|] + backups[|kept| + 1..];
          assert [] + rest == rest;
        } else {
          Lists.ConcatAssoc(kept, [files[k]], rest);
          kept := kept + [files[k]];
          Lists.ConcatAssoc(kept[..|kept| - 1], [files[k]], files[k + 1..]);
          assert files[k..] == [files[k]] + files[k + 1..];
        }
        k := k + 1;
      }
      return true;
    }
  }

  /** The first loop of `removeOldBackups`; None when the script raises. */
  method FindNewest(files: seq<string>) returns (res: Option<seq<int>>)
    ensures res == NewestFull(files)
  {
    var newest := EIGHTIES;
    var k := 0;
    while k < |files|
      invariant 0 <= k <= |files|
      invariant NewestFull(files[..k]) == Some(newest)
    {
      assert files[..k + 1][..k] == files[..k];
      var name := files[k];
      if IsFullBackup(name) {
        var date := DateOf(name);
        if date.None? {
          NewestFullNone(files, k + 1);
          return None;
        }
        if AppyPackage.ListLess(newest, date.value) {
          newest := date.value;
        }
      }
      k := k + 1;
    }
    assert files[..k] == files;
    return Some(newest);
  }

  lemma RemovalAt(files: seq<string>, k: nat, threshold: seq<int>)
    requires k < |files|
    ensures Removal(files[k..], threshold) ==
      match DateOf(files[k])
      case None => (files[k..], false)
      case Some(date) =>
        ((if AppyPackage.ListLess(date, threshold) then [] else [files[k]]) + Removal(files[k + 1..], threshold).0,
         Removal(files[k + 1..], threshold).1)
  {
    assert files[k..][0] == files[k] && files[k..][1..] == files[k + 1..];
  }

  lemma DropAt(kept: seq<string>, x: string, rest: seq<string>)
    ensures (kept + [x] + rest)[..|kept|] + (kept + [x] + rest)[|kept| + 1..] == kept + rest
  {
  }

  lemma {:induction false} NewestFullNone(files: seq<string>, k: nat)
    requires k <= |files| && NewestFull(files[..k]).None?
    ensures NewestFull(files).None?
    decreases |files| - k
  {
    if k < |files| {
      assert files[..k + 1][..k] == files[..k];
      NewestFullNone(files, k + 1);
    } else {
      assert files[..k] == files;
    }
  }

  // ---------------------------------------------------------------------------
  // The SMTP option
  // ---------------------------------------------------------------------------

  /** Python `s.split(sep, maxsplit)`: at most `maxsplit` cuts, the rest
      kept whole. */
  function SplitMax(s: string, sep: char, maxsplit: nat): (parts: seq<string>)
    ensures 0 < |parts| <= maxsplit + 1 || (maxsplit == 0 && |parts| == 1)
  {
    var all := Text.Split(s, sep);
    if |all| <= maxsplit + 1 then all
    else all[..maxsplit] + [Text.Join(all[maxsplit..], [sep])]
  }

  /** How the mails are sent: the SMTP server, its port and, when given,
      the login and password. */
  datatype SmtpSettings = SmtpSettings(server: string, port: int, login: Option<string>, password: Option<string>)

  /** The errors the script does not catch: a tuple that does not unpack,
      and a port `int()` cannot read. */
  datatype SmtpError = CannotUnpack(parts: nat) | BadPort(port: string)

  /** The SMTP part of `sendEmails`: `server:port` or
      `server:port:login:password`, the password keeping any further
      colons. */
  function SmtpInfo(spec: string): Result<SmtpSettings, SmtpError> {
    var info := SplitMax(spec, ':', 3);
    if |info| != 2 && |info| != 4 then Err(CannotUnpack(|info|))
    else
      match Text.PyInt(info[1])
      case None => Err(BadPort(info[1]))
      case Some(port) =>
        if |info| == 2 then Ok(SmtpSettings(info[0], port, None, None))
        else Ok(SmtpSettings(info[0], port, Some(info[2]), Some(info[3])))
  }

  /** Whether the script logs in: only with a non-empty login. */
  predicate LogsIn(settings: SmtpSettings) {
    settings.login.Some? && settings.login.value != ""
  }

  /** Splitting around a separator splits each side. */
  lemma {:induction false} SplitConcat(a: string, b: string, sep: char)
    ensures Text.Split(a + [sep] + b, sep) == Text.Split(a, sep) + Text.Split(b, sep)
    decreases |b|, 1
  {
    if b == [] {
      SplitSnoc(a, sep, sep);
      assert a + [sep] + b == a + [sep];
      assert Text.Split(b, sep) == [[]];
    } else {
      SplitConcatSnoc(a, b, sep);
    }
  }

  /** The step of SplitConcat for a non-empty right side. */
  lemma {:induction false} SplitConcatSnoc(a: string, b: string, sep: char)
    requires b != []
    ensures Text.Split(a + [sep] + b, sep) == Text.Split(a, sep) + Text.Split(b, sep)
    decreases |b|, 0
  {
    var left := Text.Split(a, sep);
    var b', c := b[..|b| - 1], b[|b| - 1];
    var s' := a + [sep] + b';
    SplitConcat(a, b', sep);
    assert a + [sep] + b == s' + [c];
    assert b == b' + [c];
    SplitSnoc(s', c, sep);
    SplitSnoc(b', c, sep);
    var right := Text.Split(b', sep);
    if c == sep {
      Lists.ConcatAssoc(left, right, [[]]);
    } else {
      ExtendLast(left, right, c);
    }
  }

  /** Extending the last piece of two lists of pieces joined is extending
      the last piece of the second. */
  lemma ExtendLast(left: seq<string>, right: seq<string>, c: char)
    requires right != []
    ensures var init := left + right;
      init[..|init| - 1] + [init[|init| - 1] + [c]] == left + (right[..|right| - 1] + [right[|right| - 1] + [c]])
  {
    var init := left + right;
    var last := right[|right| - 1];
    assert init[..|init| - 1] == left + right[..|right| - 1];
    assert init[|init| - 1] == last;
    Lists.ConcatAssoc(left, right[..|right| - 1], [last + [c]]);
  }

  /** One more character either opens a new piece or extends the last. */
  lemma SplitSnoc(s: string, c: char, sep: char)
    ensures var init := Text.Split(s, sep);
      Text.Split(s + [c], sep) ==
        if c == sep then init + [[]] else init[..|init| - 1] + [init[|init| - 1] + [c]]
  {
    var t := s + [c];
    assert t[..|t| - 1] == s && t[|t| - 1] == c;
  }

  /** A number written in decimal holds no colon. */
  lemma NoColonInNumber(port: nat)
    ensures ':' !in Text.NatToString(port)
  {
    var p := Text.NatToString(port);
    assert forall i :: 0 <= i < |p| ==> Text.IsDigit(p[i]);
  }

  /** The cuts of `server:port:login:password`: the password stays whole. */
  lemma SmtpCuts(server: string, p: string, login: string, password: string)
    requires ':' !in server && ':' !in p && ':' !in login
    ensures SplitMax(server + ":" + p + ":" + login + ":" + password, ':', 3) == [server, p, login, password]
  {
    Text.SplitNoSep(server, ':');
    Text.SplitNoSep(p, ':');
    Text.SplitNoSep(login, ':');
    var sp := server + [':'] + p;
    SplitConcat(server, p, ':');
    var front := sp + [':'] + login;
    SplitConcat(sp, login, ':');
    assert Text.Split(front, ':') == [server, p, login];
    SplitConcat(front, password, ':');
    assert server + ":" + p + ":" + login + ":" + password == front + [':'] + password;
    var pw := Text.Split(password, ':');
    var all := [server, p, login] + pw;
    assert all[..3] == [server, p, login] && all[3..] == pw;
    Text.SplitJoin(password, ':');
    if |all| <= 4 {
      assert pw == [pw[0]];
    }
  }

  /** The settings written as the option documents them are read back,
      the password whole even when it holds colons. */
  lemma SmtpRoundTrip(server: string, port: nat, login: string, password: string)
    requires ':' !in server && ':' !in login
    ensures SmtpInfo(server + ":" + Text.NatToString(port)) == Ok(SmtpSettings(server, port, None, None))
    ensures SmtpInfo(server + ":" + Text.NatToString(port) + ":" + login + ":" + password) ==
              Ok(SmtpSettings(server, port, Some(login), Some(password)))
  {
    var p := Text.NatToString(port);
    Text.PyIntOfNat(port);
    NoColonInNumber(port);
    SmtpPair(server, p);
    SmtpCuts(server, p, login, password);
  }

  /** `server:port` splits into its two parts. */
  lemma SmtpPair(server: string, p: string)
    requires ':' !in server && ':' !in p
    ensures SplitMax(server + ":" + p, ':', 3) == [server, p]
  {
    Text.SplitNoSep(server, ':');
    Text.SplitNoSep(p, ':');
    SplitConcat(server, p, ':');
    assert server + ":" + p == server + [':'] + p;
  }

  // ---------------------------------------------------------------------------
  // checkArgs
  // ---------------------------------------------------------------------------

  /** What the script sees of the file system: the regular files, the
      folders, the folders where a file can be created, and those where a
      created file can be removed again. */
  datatype FileSystem = FileSystem(files: set<string>, folders: set<string>, creatable: set<string>, removable: set<string>)

  /** The options `checkArgs` looks at; an empty string is an option not
      given. */
  datatype ScriptOptions = ScriptOptions(logsFolder: string, tempFolder: string, dayFullBackup: string, command: string)

  /** The `BackupError`s of `checkArgs`. */
  datatype BackupError =
    | WrongArgCount
    | NotAFile(path: string)
    | NotAFolder(path: string)
    | LogsNotAFolder(path: string)
    | CannotWrite(path: string)
    | TempNotAFolder(path: string)
    | BadDay
    | BadCommand

  /** How `checkArgs` ends: the arguments pass, a `BackupError` is raised,
      or an exception the script does not catch escapes. */
  datatype CheckOutcome = Passed | Rejected(error: BackupError) | Crashed(exception: string)

  const WEEK_DAYS: seq<string> := ["Mon", "Tue", "Wed", "Thu", "Fri", "Sat", "Sun"]

  /** A command `<ZopeAdmin>:<PloneInstancePath>:<ApplicationName>:<ToolMethodName>[:<args>]`. */
  predicate CommandWellFormed(command: string) {
    var n := |Text.Split(command, ':')|;
    n == 4 || n == 5
  }

  /** Every check before the write check passes. */
  predicate PathsExist(fs: FileSystem, options: ScriptOptions, args: seq<string>) {
    && |args| == 2
    && args[0] in fs.files
    && args[1] in fs.folders
    && (options.logsFolder == "" || options.logsFolder in fs.folders)
  }

  /** The checks after it. */
  predicate OptionsValid(fs: FileSystem, options: ScriptOptions) {
    && options.tempFolder in fs.folders
    && options.dayFullBackup in WEEK_DAYS
    && (options.command == "" || CommandWellFormed(options.command))
  }

  /** The first failing check among the path checks, in the script's order. */
  function PathError(fs: FileSystem, options: ScriptOptions, args: seq<string>): Option<BackupError> {
    if |args| != 2 then Some(WrongArgCount)
    else if args[0] !in fs.files then Some(NotAFile(args[0]))
    else if args[1] !in fs.folders then Some(NotAFolder(args[1]))
    else if options.logsFolder != "" && options.logsFolder !in fs.folders then Some(LogsNotAFolder(options.logsFolder))
    else None
  }

  /** The first failing check among the option checks. */
  function OptionError(fs: FileSystem, options: ScriptOptions): Option<BackupError> {
    if options.tempFolder !in fs.folders then Some(TempNotAFolder(options.tempFolder))
    else if options.dayFullBackup !in WEEK_DAYS then Some(BadDay)
    else if options.command != "" && !CommandWellFormed(options.command) then Some(BadCommand)
    else None
  }

  /** `checkArgs` as written: the test file is opened inside a `try` that
      only catches `OSError`, while Python 2 reports a file that cannot be
      created with an `IOError`, which escapes. */
  function CheckArgsAsWritten(fs: FileSystem, options: ScriptOptions, args: seq<string>): CheckOutcome {
    match PathError(fs, options, args)
    case Some(e) => Rejected(e)
    case None =>
      if args[1] !in fs.creatable then Crashed("IOError")
      else if args[1] !in fs.removable then Rejected(CannotWrite(args[1]))
      else
        match OptionError(fs, options)
        case Some(e) => Rejected(e)
        case None => Passed
  }

  /** A backup folder where nothing can be written makes the script stop
      with an uncaught `IOError` instead of its message. */
  lemma ReadOnlyFolderCrashes(fs: FileSystem, options: ScriptOptions, args: seq<string>)
    requires PathsExist(fs, options, args) && args[1] !in fs.creatable
    ensures CheckArgsAsWritten(fs, options, args) == Crashed("IOError")
  {
  }

  /** `checkArgs` with the write check reporting both failures as a
      `BackupError`. */
  function CheckArgs(fs: FileSystem, options: ScriptOptions, args: seq<string>): CheckOutcome {
    match PathError(fs, options, args)
    case Some(e) => Rejected(e)
    case None =>
      if args[1] !in fs.creatable || args[1] !in fs.removable then Rejected(CannotWrite(args[1]))
      else
        match OptionError(fs, options)
        case Some(e) => Rejected(e)
        case None => Passed
  }

  /** The arguments pass exactly when every condition holds, a refused
      command line is always reported as a `BackupError`, and a folder
      where the script cannot write is reported as such. */
  lemma CheckArgsSpec(fs: FileSystem, options: ScriptOptions, args: seq<string>)
    ensures CheckArgs(fs, options, args) == Passed <==>
              PathsExist(fs, options, args) && args[1] in fs.creatable && args[1] in fs.removable && OptionsValid(fs, options)
    ensures !CheckArgs(fs, options, args).Crashed?
    ensures PathsExist(fs, options, args) && args[1] !in fs.creatable ==> CheckArgs(fs, options, args) == Rejected(CannotWrite(args[1]))
  {
    assert PathError(fs, options, args).None? <==> PathsExist(fs, options, args);
    assert OptionError(fs, options).None? <==> OptionsValid(fs, options);
  }

  /** A command with four parts, or five with the arguments, passes. */
  lemma CommandAccepted(admin: string, path: string, app: string, toolMethod: string, args: Option<string>)
    requires ':' !in admin && ':' !in path && ':' !in app && ':' !in toolMethod
    requires args.Some? ==> ':' !in args.value
    ensures CommandWellFormed(Text.Join([admin, path, app, toolMethod] + (if args.Some? then [args.value] else []), ":"))
  {
    var parts := [admin, path, app, toolMethod] + (if args.Some? then [args.value] else []);
    assert forall k :: 0 <= k < |parts| ==> ':' !in parts[k];
    Text.JoinSplit(parts, ':');
  }
}
