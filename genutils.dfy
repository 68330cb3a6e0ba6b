/** Descriptors and small helpers of gen/utils.py: group and page names,
    phase status, human-readable messages, batches of objects and the
    keywords of a full-text search. */
module GenUtils {
  import opened Wrappers
  import opened Text
  import opened Lists

  // ---------------------------------------------------------------------------
  // GroupDescr

  /** `GroupDescr.computeRows`: Python 2 floor division of the number of
      fields by the number of columns, plus one when there is a remainder.
      A zero column count raises ZeroDivisionError (None). */
  function ComputeRows(nbOfFields: nat, cols: int): (r: Option<int>)
    ensures r.None? <==> cols == 0
  {
    if cols == 0 then None
    else Some(FloorDiv(nbOfFields, cols) + (if PyMod(nbOfFields, cols) != 0 then 1 else 0))
  }

  /** For a positive column count the rows are the ceiling of fields / cols:
      they hold every field and no row is entirely empty. */
  lemma ComputeRowsIsCeiling(nbOfFields: nat, cols: int)
    requires cols > 0
    ensures ComputeRows(nbOfFields, cols).Some?
    ensures var rows := ComputeRows(nbOfFields, cols).value;
      rows >= 0 && (rows - 1) * cols < nbOfFields <= rows * cols
  {
    var q := nbOfFields / cols;
    var m := nbOfFields % cols;
    assert nbOfFields == q * cols + m;
    if m != 0 {
      assert (q + 1 - 1) * cols < nbOfFields;
      assert nbOfFields <= (q + 1) * cols;
    }
  }

  /** `GroupDescr.getGroupInfo`: "name_3" is group "name" on 3 columns.
      The name is split at its last '_'; without one the whole name is used
      with 1 column; a suffix that is not an integer also gives 1 column
      (while the prefix alone stays the name). */
  function GetGroupInfo(groupName: string): (r: (string, int))
    ensures '_' !in groupName ==> r == (groupName, 1)
    ensures '_' in groupName ==>
      var i := LastIndexOf(groupName, '_');
      r.0 == groupName[..i] &&
      r.1 == PyInt(groupName[i + 1..]).GetOr(1)
  {
    var i := LastIndexOf(groupName, '_');
    if i < 0 then (groupName, 1)
    else (groupName[..i], PyInt(groupName[i + 1..]).GetOr(1))
  }

  /** Appending "_<n>" to any group name gives back that name and n columns. */
  lemma {:induction false} GroupInfoRoundTrip(name: string, n: nat)
    ensures GetGroupInfo(name + "_" + NatToString(n)) == (name, n)
  {
    var s := NatToString(n);
    var full := name + "_" + s;
    NatToStringRoundTrip(n);
    assert '_' !in s by {
      forall k | 0 <= k < |s| ensures s[k] != '_' { assert IsDigit(s[k]); }
    }
    var i := LastIndexOf(full, '_');
    assert full[|name|] == '_';
    assert i == |name| by {
      forall k | |name| < k < |full| ensures full[k] != '_' {
        assert full[k] == s[k - |name| - 1];
      }
    }
    assert full[..i] == name;
    assert full[i + 1..] == s;
    PyIntOfNat(n);
  }

  // ---------------------------------------------------------------------------
  // PageDescr

  /** How a page is shown: always, or decided by application code that is
      not part of this model. */
  datatype Show = Always | Custom(id: string)

  /** A page given as an instance of the Page class or as a name. */
  datatype PageOrName = PageObject(name: string, phase: string, show: Show) | PageName(text: string)

  datatype PageInfo = PageInfo(name: string, phase: string, show: Show)

  /** `PageDescr.getPageInfo`: a Page instance gives its own attributes; a
      string "page_phase" is split at its last '_', the phase defaulting to
      "main", and the page is always shown. */
  function GetPageInfo(p: PageOrName): (r: PageInfo)
    ensures p.PageObject? ==> r == PageInfo(p.name, p.phase, p.show)
    ensures p.PageName? ==> r.show == Always
    ensures p.PageName? && '_' !in p.text ==> r == PageInfo(p.text, "main", Always)
    ensures p.PageName? && '_' in p.text ==>
      var i := LastIndexOf(p.text, '_');
      r.name == p.text[..i] && r.phase == p.text[i + 1..]
  {
    match p
    case PageObject(n, ph, sh) => PageInfo(n, ph, sh)
    case PageName(t) =>
      var i := LastIndexOf(t, '_');
      if i < 0 then PageInfo(t, "main", Always) else PageInfo(t[..i], t[i + 1..], Always)
  }

  /** A page name and a phase name without '_' come back from "page_phase". */
  lemma {:induction false} PageInfoRoundTrip(page: string, phase: string)
    requires '_' !in phase
    ensures GetPageInfo(PageName(page + "_" + phase)) == PageInfo(page, phase, Always)
  {
    var full := page + "_" + phase;
    var i := LastIndexOf(full, '_');
    assert full[|page|] == '_';
    assert i == |page| by {
      forall k | |page| < k < |full| ensures full[k] != '_' {
        assert full[k] == phase[k - |page| - 1];
      }
    }
    assert full[..i] == page;
    assert full[i + 1..] == phase;
  }

  // ---------------------------------------------------------------------------
  // PhaseDescr

  /** The status shared by all states of a phase, or "Current" as soon as two
      of them differ. */
  function StatesStatus(statuses: seq<string>): string
    requires |statuses| > 0
  {
    if forall i :: 0 <= i < |statuses| ==> statuses[i] == statuses[0] then statuses[0] else "Current"
  }

  /** The loop of `PhaseDescr.computeStatus` over the states of a phase: it
      starts from the first state's status and falls back to "Current" at the
      first state whose status differs. */
  method UniformStatus(statuses: seq<string>) returns (res: string)
    requires |statuses| > 0
    ensures res == StatesStatus(statuses)
  {
    res := statuses[0];
    var i := 1;
    while i < |statuses|
      invariant 1 <= i <= |statuses|
      invariant forall k :: 0 <= k < i ==> statuses[k] == statuses[0]
    {
      if res != statuses[i] {
        res := "Current";
        return;
      }
      i := i + 1;
    }
  }

  /** The request parameters `computeStatus` looks at. */
  datatype Request = Request(fieldset: Option<string>, pageName: Option<string>)

  /** The page currently shown: the "fieldset" parameter ("default" meaning
      "main" outside Plone), else the "pageName" parameter, else "main". */
  function CurrentPage(rq: Request, forPlone: bool): (page: string)
    ensures rq.fieldset.None? ==> page == rq.pageName.GetOr("main")
    ensures rq.fieldset.Some? && (forPlone || rq.fieldset.value != "default") ==> page == rq.fieldset.value
    ensures rq.fieldset == Some("default") && !forPlone ==> page == "main"
  {
    match rq.fieldset
    case Some(f) => if !forPlone && f == "default" then "main" else f
    case None => rq.pageName.GetOr("main")
  }

  /** A phase: its states' statuses, the pages it groups and its status. */
  class PhaseDescr {
    var name: string
    var states: seq<string>
    var forPlone: bool
    var phaseStatus: Option<string>
    var pages: seq<string>

    /** The pages of a phase are distinct. */
    ghost predicate Valid()
      reads this
    {
      NoDup(pages)
    }

    constructor(name: string, states: seq<string>, forPlone: bool)
      ensures this.name == name && this.states == states && this.forPlone == forPlone
      ensures phaseStatus.None? && pages == []
      ensures Valid()
    {
      this.name := name;
      this.states := states;
      this.forPlone := forPlone;
      phaseStatus := None;
      pages := [];
    }

    /** `PhaseDescr.addPage`: page "main" is called "default" in Plone; the
        page is added when absent and shown (`shown` is what the object's
        `_appy_showPage` answers for it). */
    method AddPage(page: string, shown: bool)
      requires Valid()
      modifies this
      ensures Valid()
      ensures var toAdd := if page == "main" && forPlone then "default" else page;
        pages == if toAdd !in old(pages) && shown then old(pages) + [toAdd] else old(pages)
      ensures name == old(name) && states == old(states) && forPlone == old(forPlone)
      ensures phaseStatus == old(phaseStatus)
    {
      var toAdd := page;
      if page == "main" && forPlone {
        toAdd := "default";
      }
      if toAdd !in pages && shown {
        pages := pages + [toAdd];
      }
    }

    /** `PhaseDescr.computeStatus`: from the states when there are some, else
        "Current" iff the page being shown belongs to the phase. */
    method ComputeStatus(rq: Request)
      modifies this
      ensures states != [] ==> phaseStatus == Some(StatesStatus(states))
      ensures states == [] ==>
        phaseStatus == Some(if CurrentPage(rq, forPlone) in pages then "Current" else "Deselected")
      ensures name == old(name) && states == old(states) && forPlone == old(forPlone)
      ensures pages == old(pages)
    {
      var res: string;
      if states != [] {
        res := UniformStatus(states);
      } else {
        var pageName := CurrentPage(rq, forPlone);
        res := if pageName in pages then "Current" else "Deselected";
      }
      phaseStatus := Some(res);
    }
  }

  // ---------------------------------------------------------------------------
  // produceNiceMessage

  /** What a character after the first becomes: '_' a space, an ASCII capital
      a space followed by its lower case, anything else itself. */
  function NiceChar(c: char): string {
    if c == '_' then " " else if IsUpper(c) then [' ', ToLowerChar(c)] else [c]
  }

  /** The translated characters after the first, in order. */
  function NiceTail(t: string): string {
    Translated(NiceChar, t)
  }

  /** A string translated character by character, in order. */
  function Translated(f: char -> string, t: string): string {
    if t == [] then [] else Translated(f, t[..|t| - 1]) + f(t[|t| - 1])
  }

  /** Translation character by character distributes over concatenation. */
  lemma {:induction false} TranslatedConcat(f: char -> string, a: string, b: string)
    ensures Translated(f, a + b) == Translated(f, a) + Translated(f, b)
    decreases |b|
  {
    if b == [] {
      assert a + b == a;
    } else {
      var b', last := b[..|b| - 1], b[|b| - 1];
      assert (a + b)[..|a + b| - 1] == a + b';
      assert (a + b)[|a + b| - 1] == last;
      TranslatedConcat(f, a, b');
      var ta, tb, x := Translated(f, a), Translated(f, b'), f(last);
      assert (ta + tb) + x == ta + (tb + x);
    }
  }

  /** The translated rest never holds '_' nor a capital. */
  lemma {:induction false} NiceTailClean(t: string)
    ensures forall k :: 0 <= k < |NiceTail(t)| ==> NiceTail(t)[k] != '_' && !IsUpper(NiceTail(t)[k])
  {
    if t != [] {
      var front := NiceTail(t[..|t| - 1]);
      var x := NiceChar(t[|t| - 1]);
      NiceTailClean(t[..|t| - 1]);
      assert forall k :: 0 <= k < |x| ==> x[k] != '_' && !IsUpper(x[k]);
      forall k | 0 <= k < |front + x|
        ensures (front + x)[k] != '_' && !IsUpper((front + x)[k])
      {
        if k >= |front| {
          assert (front + x)[k] == x[k - |front|];
        }
      }
    }
  }

  /** The message `produceNiceMessage` returns: empty for an empty message,
      else the first character in upper case followed by the translated rest. */
  function NiceMessage(msg: string): string {
    if msg == [] then [] else [ToUpperChar(msg[0])] + NiceTail(msg[1..])
  }

  /** `produceNiceMessage`: builds the message character by character. */
  method ProduceNiceMessage(msg: string) returns (res: string)
    ensures res == NiceMessage(msg)
  {
    res := "";
    if msg != [] {
      res := [ToUpperChar(msg[0])];
      var i := 1;
      while i < |msg|
        invariant 1 <= i <= |msg|
        invariant res == [ToUpperChar(msg[0])] + NiceTail(msg[1..i])
      {
        assert msg[1..i + 1][..i - 1] == msg[1..i];
        res := res + NiceChar(msg[i]);
        i := i + 1;
      }
      assert msg[1..i] == msg[1..];
    }
  }

  /** The characters after the first are translated one by one, so the
      translation of a concatenation is the concatenation of translations. */
  lemma NiceTailConcat(a: string, b: string)
    ensures NiceTail(a + b) == NiceTail(a) + NiceTail(b)
  {
    TranslatedConcat(NiceChar, a, b);
  }

  /** Every capital after the first character costs one extra space. */
  function CountUpper(t: string): nat {
    if t == [] then 0 else CountUpper(t[..|t| - 1]) + (if IsUpper(t[|t| - 1]) then 1 else 0)
  }

  lemma {:induction false} NiceTailLength(t: string)
    ensures |NiceTail(t)| == |t| + CountUpper(t)
  {
    if t != [] { NiceTailLength(t[..|t| - 1]); }
  }

  /** The nice message starts with the upper-cased first character, never
      holds '_' or a capital after it, and grows by one space per later capital. */
  lemma NiceMessageShape(msg: string)
    requires msg != []
    ensures var r := NiceMessage(msg);
      |r| == |msg| + CountUpper(msg[1..]) &&
      r[0] == ToUpperChar(msg[0]) &&
      (forall k :: 1 <= k < |r| ==> r[k] != '_' && !IsUpper(r[k]))
  {
    NiceTailLength(msg[1..]);
    NiceTailClean(msg[1..]);
    var r := NiceMessage(msg);
    var t := NiceTail(msg[1..]);
    assert forall k :: 1 <= k < |r| ==> r[k] == t[k - 1];
  }

  /** Characters other than '_' and capitals pass through unchanged: a
      message made of such characters (after the first) is only capitalised. */
  lemma {:induction false} NiceTailPlain(t: string)
    requires forall k :: 0 <= k < |t| ==> t[k] != '_' && !IsUpper(t[k])
    ensures NiceTail(t) == t
  {
    if t != [] {
      NiceTailPlain(t[..|t| - 1]);
      assert t[..|t| - 1] + [t[|t| - 1]] == t;
    }
  }

  // ---------------------------------------------------------------------------
  // SomeObjects

  /** A batch of objects from a reference or a catalog query. */
  class SomeObjects<T> {
    var objects: seq<T>
    var totalNumber: nat
    var batchSize: nat
    var startNumber: nat
    var noSecurity: bool

    /** Missing or empty objects mean none; a missing or zero batch size
        means the whole list. */
    constructor(objects: Option<seq<T>>, batchSize: Option<nat>, startNumber: nat, noSecurity: bool)
      ensures this.objects == objects.GetOr([])
      ensures totalNumber == |this.objects|
      ensures this.batchSize == if batchSize.None? || batchSize.value == 0 then totalNumber else batchSize.value
      ensures this.startNumber == startNumber && this.noSecurity == noSecurity
    {
      this.objects := objects.GetOr([]);
      totalNumber := |objects.GetOr([])|;
      this.batchSize := if batchSize.None? || batchSize.value == 0 then |objects.GetOr([])| else batchSize.value;
      this.startNumber := startNumber;
      this.noSecurity := noSecurity;
    }

    /** `brainsToObjects`: keeps the brains of the slice
        [startNumber, startNumber + batchSize) and replaces each by its object,
        obtained with or without security checks. */
    method BrainsToObjects(getObject: (T, bool) -> T)
      modifies this
      ensures var brains := Slice(old(objects), startNumber, startNumber + batchSize);
        |objects| == |brains| &&
        forall i :: 0 <= i < |brains| ==> objects[i] == getObject(brains[i], noSecurity)
      ensures totalNumber == old(totalNumber) && batchSize == old(batchSize)
      ensures startNumber == old(startNumber) && noSecurity == old(noSecurity)
    {
      var brains := Slice(objects, startNumber, startNumber + batchSize);
      var unrestricted := noSecurity;
      objects := seq(|brains|, i requires 0 <= i < |brains| => getObject(brains[i], unrestricted));
    }
  }

  /** The batch keeps at most `batchSize` objects, and exactly that many when
      the list holds enough of them after the start. */
  lemma BatchLength<T>(objects: seq<T>, start: nat, size: nat)
    ensures |Slice(objects, start, start + size)| <= size
    ensures start + size <= |objects| ==> |Slice(objects, start, start + size)| == size
    ensures start <= |objects| < start + size ==> |Slice(objects, start, start + size)| == |objects| - start
  {
  }

  // ---------------------------------------------------------------------------
  // Keywords

  /** The characters a user may type that the text index does not want. */
  const TO_REMOVE: seq<char> := ['?', '-', '+', '*', '(', ')']

  /** Replacing each character of TO_REMOVE by a space, one after the other. */
  function ReplaceAll(s: string, chars: seq<char>): string
    decreases |chars|
  {
    if chars == [] then s else ReplaceAll(ReplaceChar(s, chars[0], " "), chars[1..])
  }

  /** A character replaced by a space leaves the other characters in place. */
  lemma {:induction false} ReplaceCharBySpace(s: string, c: char)
    ensures |ReplaceChar(s, c, " ")| == |s|
    ensures forall k :: 0 <= k < |s| ==> ReplaceChar(s, c, " ")[k] == if s[k] == c then ' ' else s[k]
  {
    if s != [] {
      ReplaceCharBySpace(s[..|s| - 1], c);
    }
  }

  /** The successive replacements amount to masking every listed character. */
  lemma {:induction false} ReplaceAllMasks(s: string, chars: seq<char>)
    ensures |ReplaceAll(s, chars)| == |s|
    ensures forall k :: 0 <= k < |s| ==> ReplaceAll(s, chars)[k] == if s[k] in chars && s[k] != ' ' then ' ' else s[k]
    decreases |chars|
  {
    if chars != [] {
      var s' := ReplaceChar(s, chars[0], " ");
      ReplaceCharBySpace(s, chars[0]);
      ReplaceAllMasks(s', chars[1..]);
      forall k | 0 <= k < |s|
        ensures ReplaceAll(s, chars)[k] == if s[k] in chars && s[k] != ' ' then ' ' else s[k]
      {
        assert s[k] in chars <==> s[k] == chars[0] || s[k] in chars[1..];
      }
    }
  }

  /** The words the `Keywords` constructor keeps from what the user typed:
      the stripped text, a lone '*' counting as nothing, with every
      character of TO_REMOVE made a space, split on whitespace. */
  function CleanKeywords(typed: string): seq<string> {
    var words := Strip(typed);
    var words' := if words == "*" then "" else words;
    Words(ReplaceAll(words', TO_REMOVE))
  }

  /** The kept words are non-empty, hold no whitespace and none of the
      removed characters. */
  lemma CleanKeywordsClean(typed: string)
    ensures forall i, k :: 0 <= i < |CleanKeywords(typed)| && 0 <= k < |CleanKeywords(typed)[i]| ==>
      CleanKeywords(typed)[i][k] !in TO_REMOVE && !IsSpace(CleanKeywords(typed)[i][k])
  {
    var words := Strip(typed);
    var words' := if words == "*" then "" else words;
    var masked := ReplaceAll(words', TO_REMOVE);
    ReplaceAllMasks(words', TO_REMOVE);
    WordsFrom(masked);
  }

  /** Every character of a word comes from the split string. */
  lemma {:induction false} WordsFrom(s: string)
    ensures forall i, k :: 0 <= i < |Words(s)| && 0 <= k < |Words(s)[i]| ==> Words(s)[i][k] in s
  {
    if s != [] {
      WordsFrom(s[..|s| - 1]);
      var init := Words(s[..|s| - 1]);
      assert forall x :: x in s[..|s| - 1] ==> x in s;
    }
  }

  lemma StripStar()
    ensures Strip(" * ") == "*"
  {
    StripPadded('*');
    assert [' ', '*', ' '] == " * ";
  }

  /** A character other than white space, with one space on each side,
      strips to itself. */
  lemma StripPadded(c: char)
    requires c !in WHITESPACE
    ensures Strip([' ', c, ' ']) == [c]
  {
    var t := [' ', c, ' '];
    assert t[1..] == [c, ' '];
    assert LStrip(t, WHITESPACE) == LStrip([c, ' '], WHITESPACE);
    assert LStrip([c, ' '], WHITESPACE) == [c, ' '];
    assert [c, ' '][..1] == [c];
    assert RStrip([c, ' '], WHITESPACE) == RStrip([c], WHITESPACE);
  }

  /** A lone star, even surrounded by spaces, means no keyword at all. */
  lemma StarIsNothing()
    ensures CleanKeywords(" * ") == []
  {
    StripStar();
    ReplaceAllMasks("", TO_REMOVE);
  }

  /** `Keywords.merge` as a function: each word of `other` not yet present
      is appended or put in front, in the order of `other`. */
  function Merged(keywords: seq<string>, other: seq<string>, append: bool): seq<string> {
    if other == [] then keywords
    else
      var acc := Merged(keywords, other[..|other| - 1], append);
      var w := other[|other| - 1];
      if w in acc then acc else if append then acc + [w] else [w] + acc
  }

  /** Merging keeps all old words, adds all new ones and nothing else. */
  lemma {:induction false} MergedContents(keywords: seq<string>, other: seq<string>, append: bool)
    ensures forall w :: w in Merged(keywords, other, append) <==> w in keywords || w in other
  {
    if other != [] {
      MergedContents(keywords, other[..|other| - 1], append);
      assert forall w :: w in other <==> w in other[..|other| - 1] || w == other[|other| - 1];
    }
  }

  /** Merging never creates a duplicate. */
  lemma {:induction false} MergedNoDup(keywords: seq<string>, other: seq<string>, append: bool)
    requires NoDup(keywords)
    ensures NoDup(Merged(keywords, other, append))
  {
    if other != [] {
      MergedNoDup(keywords, other[..|other| - 1], append);
    }
  }

  /** When appending, the old keywords stay first, in their order. */
  lemma {:induction false} MergedAppendPrefix(keywords: seq<string>, other: seq<string>)
    ensures |keywords| <= |Merged(keywords, other, true)|
    ensures Merged(keywords, other, true)[..|keywords|] == keywords
  {
    if other != [] {
      MergedAppendPrefix(keywords, other[..|other| - 1]);
    }
  }

  /** When prepending, the old keywords stay last, in their order. */
  lemma {:induction false} MergedPrependSuffix(keywords: seq<string>, other: seq<string>)
    ensures |keywords| <= |Merged(keywords, other, false)|
    ensures var m := Merged(keywords, other, false); m[|m| - |keywords|..] == keywords
  {
    if other != [] {
      MergedPrependSuffix(keywords, other[..|other| - 1]);
      var acc := Merged(keywords, other[..|other| - 1], false);
      var w := other[|other| - 1];
      if w !in acc {
        assert ([w] + acc)[|[w] + acc| - |keywords|..] == acc[|acc| - |keywords|..];
      }
    }
  }

  /** The query string for a text index: nothing without keywords, else the
      words joined by the operator, the last one open-ended with '*'. */
  function KeywordsQuery(keywords: seq<string>, operator: string): (r: string)
    ensures keywords == [] <==> r == ""
    ensures keywords != [] ==> r == Join(keywords, " " + operator + " ") + "*"
  {
    if keywords == [] then "" else Join(keywords, " " + operator + " ") + "*"
  }

  /** The words a user typed for a text-index query, and the operator
      combining them. */
  class Keywords {
    var keywords: seq<string>
    var operator: string

    constructor(typed: string, operator: string)
      ensures keywords == CleanKeywords(typed) && this.operator == operator
    {
      var words := Strip(typed);
      if words == "*" {
        words := "";
      }
      var i := 0;
      while i < |TO_REMOVE|
        invariant 0 <= i <= |TO_REMOVE|
        invariant ReplaceAll(words, TO_REMOVE[i..]) == ReplaceAll(if Strip(typed) == "*" then "" else Strip(typed), TO_REMOVE)
      {
        assert TO_REMOVE[i..][1..] == TO_REMOVE[i + 1..];
        words := ReplaceChar(words, TO_REMOVE[i], " ");
        i := i + 1;
      }
      keywords := Words(words);
      this.operator := operator;
    }

    /** `Keywords.merge`: adds the words of `other` that are not yet there,
        at the end when `append` holds, else at the front. */
    method Merge(other: seq<string>, append: bool)
      modifies this
      ensures keywords == Merged(old(keywords), other, append)
      ensures operator == old(operator)
    {
      var i := 0;
      while i < |other|
        invariant 0 <= i <= |other|
        invariant keywords == Merged(old(keywords), other[..i], append)
        invariant operator == old(operator)
      {
        assert other[..i + 1][..i] == other[..i];
        var word := other[i];
        if word !in keywords {
          if append {
            keywords := keywords + [word];
          } else {
            keywords := [word] + keywords;
          }
        }
        i := i + 1;
      }
      assert other[..i] == other;
    }

    /** `Keywords.get`: the query for the text index. */
    function Get(): (r: string)
      reads this
      ensures r == KeywordsQuery(keywords, operator)
    {
      KeywordsQuery(keywords, operator)
    }
  }
}
