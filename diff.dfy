/** The HTML differ of shared/diff.py: where two strings start and stop
    differing, how two lists of lines are matched into deletions, insertions
    and replacements, and how a changed chunk is highlighted. */
module HtmlDiffs {
  import opened Wrappers
  import opened Text
  import opened Lists

  /** What getModifiedChunk reads from an HtmlDiff: the title and the CSS
      class of each kind of change (an empty class is Python's `None`). */
  datatype DiffConfig = DiffConfig(insertMsg: string, deleteMsg: string, insertCss: string, deleteCss: string)

  datatype ChangeKind = Inserted | Deleted

  const INSERT_STYLE := "color: blue; cursor: help"
  const DELETE_STYLE := "color: red; text-decoration: line-through; cursor: help"

  /** Lines are highlighted with a `div`, parts of a line with a `span`. */
  function ChunkTag(sep: string): (tag: string)
    ensures tag == "div" <==> sep == "\n"
    ensures tag == "div" || tag == "span"
  {
    if sep == "\n" then "div" else "span"
  }

  /** The attribute carrying the highlighting: the configured CSS class when
      there is one, else the default inline style of the kind of change. */
  function ChunkStyle(cfg: DiffConfig, kind: ChangeKind): (attr: string)
    ensures kind.Inserted? && cfg.insertCss != "" ==> attr == "class=\"" + cfg.insertCss + "\""
    ensures kind.Deleted? && cfg.deleteCss != "" ==> attr == "class=\"" + cfg.deleteCss + "\""
    ensures kind.Inserted? && cfg.insertCss == "" ==> attr == "style=\"" + INSERT_STYLE + "\""
    ensures kind.Deleted? && cfg.deleteCss == "" ==> attr == "style=\"" + DELETE_STYLE + "\""
  {
    var css := if kind.Inserted? then cfg.insertCss else cfg.deleteCss;
    if css != "" then "class=\"" + css + "\""
    else "style=\"" + (if kind.Inserted? then INSERT_STYLE else DELETE_STYLE) + "\""
  }

  function ChunkTitle(cfg: DiffConfig, kind: ChangeKind): string {
    if kind.Inserted? then cfg.insertMsg else cfg.deleteMsg
  }

  /** HtmlDiff.getModifiedChunk: the joined chunk inside an element opened
      with the tag, the highlighting and the title of the change, and closed
      with the same tag. */
  function ModifiedChunk(cfg: DiffConfig, chunk: seq<string>, kind: ChangeKind, sep: string): (r: string)
    ensures var open := "<" + ChunkTag(sep) + " " + ChunkStyle(cfg, kind) + " title=\"" + ChunkTitle(cfg, kind) + "\">";
            var close := "</" + ChunkTag(sep) + ">";
            |open| + |close| <= |r| && r[..|open|] == open && r[|r| - |close|..] == close &&
            r[|open|..|r| - |close|] == Join(chunk, sep)
  {
    var tag := ChunkTag(sep);
    var open := "<" + tag + " " + ChunkStyle(cfg, kind) + " title=\"" + ChunkTitle(cfg, kind) + "\">";
    var close := "</" + tag + ">";
    var r := open + Join(chunk, sep) + close;
    assert r[..|open|] == open;
    assert r[|r| - |close|..] == close;
    assert r[|open|..|r| - |close|] == Join(chunk, sep);
    r
  }

  // ---------------------------------------------------------------------------
  // Differing part of two strings
  // ---------------------------------------------------------------------------

  /** The two strings differ at an index below both lengths. */
  predicate DifferSomewhere(before: string, after: string) {
    exists i :: 0 <= i < |before| && i < |after| && before[i] != after[i]
  }

  /** The first loop of HtmlDiff.getStringDiff as written, from index `i`:
      it reads both strings at every index until they differ, so `None`
      stands for the IndexError raised when one runs out first. */
  function FirstDifferenceAsWritten(before: string, after: string, i: nat): Option<nat>
    decreases |before| - i
  {
    if i >= |before| || i >= |after| then None
    else if before[i] != after[i] then Some(i)
    else FirstDifferenceAsWritten(before, after, i + 1)
  }

  /** The loop as written fails exactly when the strings agree from `i` to
      the end of the shorter one: from 0, when one is a prefix of the
      other. */
  lemma {:induction false} FirstDifferenceAsWrittenFails(before: string, after: string, i: nat)
    ensures FirstDifferenceAsWritten(before, after, i).None? <==>
            forall d :: i <= d < |before| && d < |after| ==> before[d] == after[d]
    decreases |before| - i
  {
    if i < |before| && i < |after| && before[i] == after[i] {
      FirstDifferenceAsWrittenFails(before, after, i + 1);
    }
  }

  /** Two lines differing only by a character added at the end, which
      HtmlDiff.isSimilar accepts as similar, make the loop fail. */
  lemma PrefixLineFails()
    ensures FirstDifferenceAsWritten("ab", "abc", 0).None?
  {
  }

  /** `before[ja..]` and `after[jb..]` are the same text. */
  predicate CommonTail(before: string, after: string, ja: nat, jb: nat) {
    ja <= |before| && jb <= |after| && |before| - ja == |after| - jb &&
    forall p :: ja <= p < |before| ==> before[p] == after[p - ja + jb]
  }

  /** HtmlDiff.getStringDiff, its first loop stopping at the end of the
      shorter string: `i` is the length of the longest common start, and
      `before[ja..]`, `after[jb..]` is their longest common end that does not
      reach back before `i`. */
  method GetStringDiff(before: string, after: string) returns (i: nat, ja: nat, jb: nat)
    ensures i <= |before| && i <= |after| && before[..i] == after[..i]
    ensures i < |before| && i < |after| ==> before[i] != after[i]
    ensures i <= ja && i <= jb && CommonTail(before, after, ja, jb)
    ensures ja == i || jb == i || before[ja - 1] != after[jb - 1]
  {
    i := 0;
    while i < |before| && i < |after| && before[i] == after[i]
      invariant i <= |before| && i <= |after| && before[..i] == after[..i]
    {
      assert before[..i + 1] == before[..i] + [before[i]] && after[..i + 1] == after[..i] + [after[i]];
      i := i + 1;
    }
    var jo := |before|;
    var jn := |after|;
    while true
      invariant i <= jo <= |before| && i <= jn <= |after|
      invariant CommonTail(before, after, jo, jn)
      decreases jo
    {
      if jo == i || jn == i {
        return i, jo, jn;
      }
      jo := jo - 1;
      jn := jn - 1;
      if before[jo] != after[jn] {
        return i, jo + 1, jn + 1;
      }
    }
  }

  // ---------------------------------------------------------------------------
  // Differences between two lists of lines
  // ---------------------------------------------------------------------------

  /** One entry of getSeqDiff's result. */
  datatype Change<T> = Delete(lines: seq<T>) | Insert(lines: seq<T>) | Replace(lineA: T, lineB: T)

  /** The lines of the first list an entry accounts for. */
  function SideA<T>(c: Change<T>): seq<T> {
    match c
    case Delete(ls) => ls
    case Insert(_) => []
    case Replace(a, _) => [a]
  }

  /** The lines of the second list an entry accounts for. */
  function SideB<T>(c: Change<T>): seq<T> {
    match c
    case Delete(_) => []
    case Insert(ls) => ls
    case Replace(_, b) => [b]
  }

  function ProjectA<T>(cs: seq<Change<T>>): seq<T> {
    if cs == [] then [] else ProjectA(cs[..|cs| - 1]) + SideA(cs[|cs| - 1])
  }

  function ProjectB<T>(cs: seq<Change<T>>): seq<T> {
    if cs == [] then [] else ProjectB(cs[..|cs| - 1]) + SideB(cs[|cs| - 1])
  }

  lemma ProjectSnoc<T>(cs: seq<Change<T>>, c: Change<T>)
    ensures ProjectA(cs + [c]) == ProjectA(cs) + SideA(c)
    ensures ProjectB(cs + [c]) == ProjectB(cs) + SideB(c)
  {
    assert (cs + [c])[..|cs|] == cs;
  }

  /** Every replacement pairs similar lines, and no deletion or insertion is
      empty. */
  predicate WellFormed<T>(cs: seq<Change<T>>, similar: (T, T) -> bool) {
    forall n :: 0 <= n < |cs| ==>
      (cs[n].Replace? ==> similar(cs[n].lineA, cs[n].lineB)) && (!cs[n].Replace? ==> cs[n].lines != [])
  }

  lemma WellFormedSnoc<T>(cs: seq<Change<T>>, c: Change<T>, similar: (T, T) -> bool)
    requires WellFormed(cs, similar)
    requires c.Replace? ==> similar(c.lineA, c.lineB)
    requires !c.Replace? ==> c.lines != []
    ensures WellFormed(cs + [c], similar)
  {
  }

  /** The index of the first line of `seqB` from index `k` on that is
      similar to `line`, if any. */
  function FirstSimilarFrom<T>(line: T, seqB: seq<T>, k: nat, similar: (T, T) -> bool): (r: Option<nat>)
    ensures r.Some? ==> k <= r.value < |seqB| && similar(line, seqB[r.value])
    ensures r.Some? ==> forall m :: k <= m < r.value ==> !similar(line, seqB[m])
    ensures r.None? ==> forall m :: k <= m < |seqB| ==> !similar(line, seqB[m])
    decreases |seqB| - k
  {
    if k >= |seqB| then None
    else if similar(line, seqB[k]) then Some(k)
    else FirstSimilarFrom(line, seqB, k + 1, similar)
  }

  /** The loop of getSeqDiff that looks for the first line of `seqB` from
      index `k` on that is similar to `line`. */
  method FirstSimilar<T>(line: T, seqB: seq<T>, k: nat, similar: (T, T) -> bool)
    returns (found: bool, j: nat)
    requires k <= |seqB|
    ensures found <==> FirstSimilarFrom(line, seqB, k, similar).Some?
    ensures found ==> j == FirstSimilarFrom(line, seqB, k, similar).value
    ensures found ==> k <= j < |seqB| && similar(line, seqB[j])
    ensures found ==> forall m :: k <= m < j ==> !similar(line, seqB[m])
    ensures !found ==> forall m :: k <= m < |seqB| ==> !similar(line, seqB[m])
  {
    j := k;
    while j < |seqB|
      invariant k <= j <= |seqB|
      invariant forall m :: k <= m < j ==> !similar(line, seqB[m])
      invariant FirstSimilarFrom(line, seqB, j, similar) == FirstSimilarFrom(line, seqB, k, similar)
    {
      if similar(line, seqB[j]) {
        return true, j;
      }
      j := j + 1;
    }
    return false, j;
  }

  /** Appends one entry to the differences. */
  method Append<T>(res: seq<Change<T>>, c: Change<T>, ghost similar: (T, T) -> bool) returns (r: seq<Change<T>>)
    requires WellFormed(res, similar)
    requires c.Replace? ==> similar(c.lineA, c.lineB)
    requires !c.Replace? ==> c.lines != []
    ensures r == res + [c]
    ensures ProjectA(r) == ProjectA(res) + SideA(c) && ProjectB(r) == ProjectB(res) + SideB(c)
    ensures WellFormed(r, similar)
  {
    ProjectSnoc(res, c);
    WellFormedSnoc(res, c, similar);
    r := res + [c];
  }

  /** The entries with the lines flagged as deleted dumped, if any. */
  function Flushed<T>(res: seq<Change<T>>, deleted: seq<T>): seq<Change<T>> {
    if deleted == [] then res else res + [Delete(deleted)]
  }

  /** An insertion of `lines`, when there are any. */
  function Inserted<T>(lines: seq<T>): seq<Change<T>> {
    if lines == [] then [] else [Insert(lines)]
  }

  /** Dumps the lines flagged as deleted, if any. */
  method FlushDeleted<T>(res: seq<Change<T>>, deleted: seq<T>, ghost similar: (T, T) -> bool)
    returns (r: seq<Change<T>>)
    requires WellFormed(res, similar)
    ensures r == Flushed(res, deleted)
    ensures ProjectA(r) == ProjectA(res) + deleted && ProjectB(r) == ProjectB(res)
    ensures WellFormed(r, similar)
    ensures deleted == [] ==> r == res
  {
    r := res;
    if deleted != [] {
      r := Append(res, Delete(deleted), similar);
    }
  }

  /** The projections of an insertion followed by a replacement. */
  lemma ProjectInsertReplace<T>(res: seq<Change<T>>, skipped: seq<T>, a: T, b: T)
    ensures ProjectA(res + [Insert(skipped)] + [Replace(a, b)]) == ProjectA(res) + [a]
    ensures ProjectB(res + [Insert(skipped)] + [Replace(a, b)]) == ProjectB(res) + (skipped + [b])
  {
    ProjectSnoc(res, Insert(skipped));
    ProjectSnoc(res + [Insert(skipped)], Replace(a, b));
    assert ProjectA(res) + [] == ProjectA(res);
    ConcatAssoc(ProjectB(res), skipped, [b]);
  }

  /** Records `seqB[j]` as replacing `line`, the lines of `seqB` skipped
      before it as inserted. */
  method AddReplace<T>(res: seq<Change<T>>, line: T, seqB: seq<T>, k: nat, j: nat,
                       similar: (T, T) -> bool)
    returns (r: seq<Change<T>>)
    requires WellFormed(res, similar)
    requires k <= j < |seqB| && similar(line, seqB[j])
    ensures r == res + Inserted(seqB[k..j]) + [Replace(line, seqB[j])]
    ensures ProjectA(r) == ProjectA(res) + [line] && ProjectB(r) == ProjectB(res) + seqB[k..j + 1]
    ensures WellFormed(r, similar)
  {
    var skipped := seqB[k..j];
    assert skipped + [seqB[j]] == seqB[k..j + 1];
    if k < j {
      WellFormedSnoc(res, Insert(skipped), similar);
      WellFormedSnoc(res + [Insert(skipped)], Replace(line, seqB[j]), similar);
      ProjectInsertReplace(res, skipped, line, seqB[j]);
      r := res + [Insert(skipped)] + [Replace(line, seqB[j])];
    } else {
      WellFormedSnoc(res, Replace(line, seqB[j]), similar);
      ProjectSnoc(res, Replace(line, seqB[j]));
      r := res + [Replace(line, seqB[j])];
      assert res + [] == res;
    }
  }

  /** The greedy rule of getSeqDiff, from line `i` of `seqA` and line `k` of
      `seqB` on, `res` and `deleted` being what is recorded so far: a line of
      `seqA` is paired with the first similar line of `seqB` not yet used,
      the lines of `seqB` skipped on the way being inserted; it is deleted
      only when no such line exists; once `seqB` is used up, the rest of
      `seqA` is one deletion, and what remains of `seqB` at the end is one
      insertion. */
  function GreedyDiff<T>(seqA: seq<T>, seqB: seq<T>, similar: (T, T) -> bool, i: nat, k: nat,
                         res: seq<Change<T>>, deleted: seq<T>): seq<Change<T>>
    requires k <= |seqB|
    decreases |seqA| - i
  {
    if i >= |seqA| then Flushed(res, deleted) + Inserted(seqB[k..])
    else if k == |seqB| then Flushed(res, deleted) + [Delete(seqA[i..])]
    else
      match FirstSimilarFrom(seqA[i], seqB, k, similar)
      case Some(j) =>
        GreedyDiff(seqA, seqB, similar, i + 1, j + 1,
                   Flushed(res, deleted) + Inserted(seqB[k..j]) + [Replace(seqA[i], seqB[j])], [])
      case None => GreedyDiff(seqA, seqB, similar, i + 1, k, res, deleted + [seqA[i]])
  }

  /** One step of the greedy rule, for a line of `seqA` paired with line `j` of `seqB`. */
  lemma GreedyPaired<T>(seqA: seq<T>, seqB: seq<T>, similar: (T, T) -> bool, i: nat, k: nat,
                        res: seq<Change<T>>, deleted: seq<T>, j: nat)
    requires i < |seqA| && k < |seqB| && FirstSimilarFrom(seqA[i], seqB, k, similar) == Some(j)
    ensures GreedyDiff(seqA, seqB, similar, i, k, res, deleted)
         == GreedyDiff(seqA, seqB, similar, i + 1, j + 1,
                       Flushed(res, deleted) + Inserted(seqB[k..j]) + [Replace(seqA[i], seqB[j])], [])
  {
  }

  /** The loop state of getSeqDiff after the first `i` lines of `seqA`: the
      entries and the pending deletions account for them and for the first
      `k` lines of `seqB`. */
  ghost predicate Accounted<T>(res: seq<Change<T>>, deleted: seq<T>, seqA: seq<T>, i: nat, seqB: seq<T>, k: nat,
                         similar: (T, T) -> bool) {
    i <= |seqA| && k <= |seqB| && ProjectA(res) + deleted == seqA[..i] && ProjectB(res) == seqB[..k]
    && WellFormed(res, similar) && (deleted != [] ==> k < |seqB|)
  }

  /** One turn of getSeqDiff's loop, for line `i` of `seqA`, when lines of
      `seqB` remain. */
  method MatchLine<T>(res: seq<Change<T>>, deleted: seq<T>, seqA: seq<T>, i: nat, seqB: seq<T>, k: nat,
                      similar: (T, T) -> bool)
    returns (res': seq<Change<T>>, deleted': seq<T>, k': nat)
    requires i < |seqA| && k < |seqB|
    requires Accounted(res, deleted, seqA, i, seqB, k, similar)
    ensures Accounted(res', deleted', seqA, i + 1, seqB, k', similar)
    ensures GreedyDiff(seqA, seqB, similar, i + 1, k', res', deleted') == GreedyDiff(seqA, seqB, similar, i, k, res, deleted)
    ensures match FirstSimilarFrom(seqA[i], seqB, k, similar)
      case Some(j) =>
        k' == j + 1 && deleted' == [] && res' == Flushed(res, deleted) + Inserted(seqB[k..j]) + [Replace(seqA[i], seqB[j])]
      case None => k' == k && res' == res && deleted' == deleted + [seqA[i]]
  {
    var found, j := FirstSimilar(seqA[i], seqB, k, similar);
    if found {
      res' := Paired(res, deleted, seqA, i, seqB, k, j, similar);
      deleted', k' := [], j + 1;
    } else {
      PrefixSnoc(seqA, i);
      ConcatAssoc(ProjectA(res), deleted, [seqA[i]]);
      res', deleted', k' := res, deleted + [seqA[i]], k;
    }
  }

  /** The turn of getSeqDiff's loop in which line `i` of `seqA` is paired
      with line `j` of `seqB`. */
  method Paired<T>(res: seq<Change<T>>, deleted: seq<T>, seqA: seq<T>, i: nat, seqB: seq<T>, k: nat, j: nat,
                   similar: (T, T) -> bool)
    returns (r: seq<Change<T>>)
    requires i < |seqA| && k < |seqB| && FirstSimilarFrom(seqA[i], seqB, k, similar) == Some(j)
    requires Accounted(res, deleted, seqA, i, seqB, k, similar)
    ensures r == Flushed(res, deleted) + Inserted(seqB[k..j]) + [Replace(seqA[i], seqB[j])]
    ensures Accounted(r, [], seqA, i + 1, seqB, j + 1, similar)
    ensures GreedyDiff(seqA, seqB, similar, i + 1, j + 1, r, []) == GreedyDiff(seqA, seqB, similar, i, k, res, deleted)
  {
    PrefixSnoc(seqA, i);
    r := FlushDeleted(res, deleted, similar);
    r := AddReplace(r, seqA[i], seqB, k, j, similar);
    SliceJoin(seqB, k, j + 1);
    assert ProjectA(r) + [] == ProjectA(r);
    GreedyPaired(seqA, seqB, similar, i, k, res, deleted, j);
  }

  /** The end of getSeqDiff once `seqB` is used up: the rest of `seqA` is
      one deletion. */
  method DeleteRest<T>(res: seq<Change<T>>, deleted: seq<T>, seqA: seq<T>, i: nat, seqB: seq<T>,
                       similar: (T, T) -> bool)
    returns (r: seq<Change<T>>)
    requires i < |seqA| && Accounted(res, deleted, seqA, i, seqB, |seqB|, similar)
    ensures r == GreedyDiff(seqA, seqB, similar, i, |seqB|, res, deleted)
    ensures ProjectA(r) == seqA && ProjectB(r) == seqB && WellFormed(r, similar)
  {
    assert ProjectA(res) == seqA[..i] && ProjectB(res) + [] == seqB;
    r := Append(res, Delete(seqA[i..]), similar);
    PrefixSplit(seqA, i);
  }

  /** The end of getSeqDiff once `seqA` is used up: the pending deletions
      are dumped and the rest of `seqB` is one insertion. */
  method InsertRest<T>(res: seq<Change<T>>, deleted: seq<T>, seqA: seq<T>, seqB: seq<T>, k: nat,
                       similar: (T, T) -> bool)
    returns (r: seq<Change<T>>)
    requires Accounted(res, deleted, seqA, |seqA|, seqB, k, similar)
    ensures r == GreedyDiff(seqA, seqB, similar, |seqA|, k, res, deleted)
    ensures ProjectA(r) == seqA && ProjectB(r) == seqB && WellFormed(r, similar)
  {
    assert seqA[..|seqA|] == seqA;
    r := FlushDeleted(res, deleted, similar);
    if k < |seqB| {
      r := Append(r, Insert(seqB[k..]), similar);
      PrefixSplit(seqB, k);
    } else {
      assert seqB[..k] == seqB && r + [] == r;
    }
  }

  /** With either list empty, the greedy rule makes one deletion of all of
      `seqA` or one insertion of all of `seqB`. */
  lemma GreedyDiffEdges<T>(seqA: seq<T>, seqB: seq<T>, similar: (T, T) -> bool)
    ensures seqB == [] && seqA != [] ==> GreedyDiff(seqA, seqB, similar, 0, 0, [], []) == [Delete(seqA)]
    ensures seqA == [] ==> GreedyDiff(seqA, seqB, similar, 0, 0, [], []) == (if seqB == [] then [] else [Insert(seqB)])
  {
    assert seqA[0..] == seqA && seqB[0..] == seqB;
  }

  /** HtmlDiff.getSeqDiff, `similar` being HtmlDiff.isSimilar: read in order,
      the entries account for every line of `seqA` (deleted or replaced) and
      for every line of `seqB` (inserted or replacing), each replacement pairs
      similar lines, and with nothing left in `seqB` all of `seqA` is one
      deletion. */
  method GetSeqDiff<T>(seqA: seq<T>, seqB: seq<T>, similar: (T, T) -> bool)
    returns (res: seq<Change<T>>)
    ensures res == GreedyDiff(seqA, seqB, similar, 0, 0, [], [])
    ensures ProjectA(res) == seqA && ProjectB(res) == seqB
    ensures WellFormed(res, similar)
    ensures seqB == [] && seqA != [] ==> res == [Delete(seqA)]
    ensures seqA == [] ==> res == (if seqB == [] then [] else [Insert(seqB)])
  {
    GreedyDiffEdges(seqA, seqB, similar);
    ghost var greedy := GreedyDiff(seqA, seqB, similar, 0, 0, [], []);
    res := [];
    var i: nat := 0;
    var k: nat := 0;
    var deleted: seq<T> := [];
    while i < |seqA|
      invariant Accounted(res, deleted, seqA, i, seqB, k, similar)
      invariant GreedyDiff(seqA, seqB, similar, i, k, res, deleted) == greedy
    {
      if k == |seqB| {
        res := DeleteRest(res, deleted, seqA, i, seqB, similar);
        return;
      }
      res, deleted, k := MatchLine(res, deleted, seqA, i, seqB, k, similar);
      i := i + 1;
    }
    res := InsertRest(res, deleted, seqA, seqB, k, similar);
  }
}
