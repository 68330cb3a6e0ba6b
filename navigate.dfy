/** Navigation between siblings (gen/navigate.py): from the page of one object
    reached through a Ref field or a search, links to the first, previous, next
    and last sibling, and the start number of the batch to go back to. The tool,
    the request and the session are replaced by what they provide: the uids of
    the siblings, the re-query that refills the session, and whether an object
    with a given uid exists. */
module Navigation {
  import opened Wrappers
  import opened Text

  // ---------------------------------------------------------------------------
  // Batch start numbers

  /** The batch start found by scanning multiples of `b` from `start`: the
      first one at or beyond `total`, or the first whose batch holds `n`. */
  function BatchFrom(start: int, n: int, total: int, b: int): (s: int)
    requires total <= start || b > 0
    ensures s >= start
    decreases total - start
  {
    if start >= total then start
    else if n < start + b then start
    else BatchFrom(start + b, n, total, b)
  }

  /** The start number `computeStartNumber` returns for the element at index
      `n` (from 0) among `total`, in batches of `b`. */
  function BatchStart(n: int, total: int, b: int): (s: int)
    requires total <= 0 || b > 0
    ensures s >= 0
    ensures n < 0 || total <= 0 ==> s == 0
  {
    BatchFrom(0, n, total, b)
  }

  lemma {:induction false} BatchFromContains(q: nat, n: int, total: int, b: int) returns (q': nat)
    requires b > 0 && 0 <= q * b <= n < total
    ensures BatchFrom(q * b, n, total, b) == q' * b
    ensures q' * b <= n < q' * b + b
    decreases total - q * b
  {
    if n < q * b + b {
      q' := q;
    } else {
      assert (q + 1) * b == q * b + b;
      q' := BatchFromContains(q + 1, n, total, b);
    }
  }

  /** For an element within the list, the start number is the multiple of the
      batch size whose batch holds it. */
  lemma BatchStartContains(n: int, total: int, b: int)
    requires b > 0 && 0 <= n < total
    ensures BatchStart(n, total, b) <= n < BatchStart(n, total, b) + b
    ensures BatchStart(n, total, b) == (n / b) * b
  {
    assert 0 * b == 0;
    var q := BatchFromContains(0, n, total, b);
    DivInBatch(q, n, b);
  }

  // ---------------------------------------------------------------------------
  // Navigation keys

  /** What a navigation key designates: an object tied through a Ref field, or
      an object among search results; both with its number (from 1) and the
      total. */
  datatype NavInfo =
    | RefNav(sourceUid: string, fieldName: string, number: int, total: int)
    | SearchNav(className: string, searchName: string, number: int, total: int)

  /** `Siblings.get`: the first `.`-separated field chooses the kind; the
      others are the constructor's arguments, so there must be exactly four
      (else a TypeError), and the last two must be integers (else a
      ValueError). Any other kind gives None. */
  function ParseNav(nav: string): (r: Result<Option<NavInfo>, string>)
    ensures Split(nav, '.')[0] != "ref" && Split(nav, '.')[0] != "search" ==> r == Ok(None)
    ensures (Split(nav, '.')[0] == "ref" || Split(nav, '.')[0] == "search") && |Split(nav, '.')| != 5 ==>
      r == Err("TypeError")
    ensures r.Ok? && r.value.Some? ==> (r.value.value.RefNav? <==> Split(nav, '.')[0] == "ref")
  {
    var elems := Split(nav, '.');
    if elems[0] != "ref" && elems[0] != "search" then Ok(None)
    else if |elems| != 5 then Err("TypeError")
    else
      match (PyInt(elems[3]), PyInt(elems[4]))
      case (Some(number), Some(total)) =>
        if elems[0] == "ref" then Ok(Some(RefNav(elems[1], elems[2], number, total)))
        else Ok(Some(SearchNav(elems[1], elems[2], number, total)))
      case _ => Err("ValueError")
  }

  /** `SearchSiblings.getNavKey` with the sibling's number filled in, as the
      links to siblings use it. */
  function SearchNavKey(className: string, searchName: string, number: nat, total: nat): (k: string)
    ensures StartsWith(k, "search.")
  {
    var parts := ["search", className, searchName, NatToString(number), NatToString(total)];
    assert StartsWith(Join(parts, "."), "search.") by { JoinFive(parts); }
    Join(parts, ".")
  }

  lemma JoinFive(parts: seq<string>)
    requires |parts| == 5
    ensures Join(parts, ".") == parts[0] + "." + parts[1] + "." + parts[2] + "." + parts[3] + "." + parts[4]
  {
    assert Join(parts[..1], ".") == parts[0];
    assert parts[..2][..1] == parts[..1];
    assert Join(parts[..2], ".") == parts[0] + "." + parts[1];
    assert parts[..3][..2] == parts[..2];
    assert Join(parts[..3], ".") == parts[0] + "." + parts[1] + "." + parts[2];
    assert parts[..4][..3] == parts[..3];
    assert Join(parts[..4], ".") == parts[0] + "." + parts[1] + "." + parts[2] + "." + parts[3];
    assert parts[..4] == parts[..|parts| - 1];
  }

  /** A search key names its class and search, the sibling's number and the
      total: parsing it gives them back when the names contain no dot. */
  lemma SearchNavRoundTrip(className: string, searchName: string, number: nat, total: nat)
    requires '.' !in className && '.' !in searchName
    ensures ParseNav(SearchNavKey(className, searchName, number, total)) ==
      Ok(Some(SearchNav(className, searchName, number, total)))
  {
    var a, b := NatToString(number), NatToString(total);
    var parts := ["search", className, searchName, a, b];
    assert '.' !in a by { NoDotInDigits(a); }
    assert '.' !in b by { NoDotInDigits(b); }
    assert forall i :: 0 <= i < |parts| ==> '.' !in parts[i];
    JoinSplit(parts, '.');
    var key := SearchNavKey(className, searchName, number, total);
    assert key == Join(parts, ['.']);
    PyIntOfNat(number);
    PyIntOfNat(total);
    ParseSearchNav(key, parts, number, total);
  }

  lemma ParseSearchNav(nav: string, parts: seq<string>, number: int, total: int)
    requires Split(nav, '.') == parts && |parts| == 5 && parts[0] == "search"
    requires PyInt(parts[3]) == Some(number) && PyInt(parts[4]) == Some(total)
    ensures ParseNav(nav) == Ok(Some(SearchNav(parts[1], parts[2], number, total)))
  {
  }

  lemma NoDotInDigits(s: string)
    requires AllDigits(s)
    ensures '.' !in s
  {
    forall i | 0 <= i < |s|
      ensures s[i] != '.'
    {
      assert IsDigit(s[i]);
    }
  }

  // ---------------------------------------------------------------------------
  // Siblings

  /** The uids of the siblings: the list stored in a Ref field, or the part of
      the search results kept in the session, by index. */
  datatype Uids = UidList(items: seq<string>) | UidDict(entries: map<int, string>)

  /** `siblings[index]`: a list accepts Python's negative indexes and raises
      IndexError beyond them, a dict raises KeyError for a missing index;
      both errors give None. */
  function Lookup(u: Uids, index: int): (r: Option<string>)
    ensures u.UidDict? ==> (r.Some? <==> index in u.entries) && (r.Some? ==> r.value == u.entries[index])
    ensures u.UidList? ==> (r.Some? <==> -|u.items| <= index < |u.items|)
    ensures u.UidList? && 0 <= index < |u.items| ==> r == Some(u.items[index])
    ensures u.UidList? && -|u.items| <= index < 0 ==> r == Some(u.items[|u.items| + index])
  {
    match u
    case UidDict(entries) => if index in entries then Some(entries[index]) else None
    case UidList(items) =>
      if 0 <= index < |items| then Some(items[index])
      else if -|items| <= index < 0 then Some(items[|items| + index])
      else None
  }

  /** Where a sibling link leads: the sibling's uid and its number (from 1)
      as written into the link's navigation key. */
  datatype Link = Link(uid: string, number: int)

  /** The link computed for one kind of sibling: none unless it is needed and
      the uid at its index is found, non-empty and names an existing object. */
  function LinkFor(needed: bool, index: int, siblings: Uids, exists_: string -> bool): (r: Option<Link>)
    ensures r.Some? <==>
      (needed && Lookup(siblings, index).Some? && Lookup(siblings, index).value != [] &&
       exists_(Lookup(siblings, index).value))
    ensures r.Some? ==> r.value == Link(Lookup(siblings, index).value, index + 1)
  {
    if !needed then None
    else match Lookup(siblings, index)
      case None => None
      case Some(uid) => if uid != [] && exists_(uid) then Some(Link(uid, index + 1)) else None
  }

  /** Where a search re-query starts so that the current element (index
      `number - 1`) sits in the middle of a page of `maxPerPage`. */
  function RequeryStart(number: int, maxPerPage: int): (s: int)
    ensures s >= 0
  {
    var start := (number - 1) - FloorDiv(maxPerPage, 2);
    if start < 0 then 0 else start
  }

  /** The re-queried page holds the current element, and, when a page holds
      at least three elements, its previous and next siblings too. */
  lemma RequeryWindow(number: int, maxPerPage: int)
    requires number >= 1 && maxPerPage >= 1
    ensures RequeryStart(number, maxPerPage) <= number - 1 < RequeryStart(number, maxPerPage) + maxPerPage
    ensures maxPerPage >= 3 && number >= 2 ==>
      RequeryStart(number, maxPerPage) <= number - 2 && number < RequeryStart(number, maxPerPage) + maxPerPage
  {
  }

  /** Where the siblings come from: the Ref field's list, or the session's
      search results and the query that refills them from a start number. */
  datatype Source =
    | RefSource(uids: seq<string>)
    | SearchSource(session: map<int, string>, maxPerPage: int, requery: int -> map<int, string>)

  /** Navigation from one sibling to the others. */
  class Siblings {
    var number: int
    var total: int
    var batchSize: int
    var previousNeeded: bool
    var previousIndex: int
    var nextNeeded: bool
    var nextIndex: int
    var firstNeeded: bool
    var firstIndex: int
    var lastNeeded: bool
    var lastIndex: int
    var siblings: Uids
    /** The start number of the search re-query, when one was run. */
    var requeriedFrom: Option<int>
    var previousUrl: Option<Link>
    var nextUrl: Option<Link>
    var firstUrl: Option<Link>
    var lastUrl: Option<Link>

    /** The constructor: the flags from the number and the total, then the
        siblings (a search may re-query and drops first and last when the
        session lacks them), then one link per needed sibling. */
    constructor (number: int, total: int, batchSize: int, source: Source, exists_: string -> bool)
      requires source.SearchSource? ==> source.maxPerPage == batchSize
      ensures this.number == number && this.total == total && this.batchSize == batchSize
      ensures previousIndex == number - 2 && nextIndex == number && firstIndex == 0 && lastIndex == total - 1
      ensures previousNeeded <==> number >= 2 && total > number - 2
      ensures nextNeeded <==> number < total
      ensures source.RefSource? ==> (firstNeeded <==> number >= 3)
      ensures source.RefSource? ==> (lastNeeded <==> number < total - 1)
      ensures source.RefSource? ==> siblings == UidList(source.uids) && requeriedFrom.None?
      ensures source.SearchSource? ==> siblings.UidDict?
      ensures source.SearchSource? ==>
        (requeriedFrom.Some? <==>
          (previousNeeded && previousIndex !in source.session) || (nextNeeded && nextIndex !in source.session))
      ensures source.SearchSource? && requeriedFrom.Some? ==>
        requeriedFrom.value == RequeryStart(number, source.maxPerPage) &&
        siblings == UidDict(source.requery(requeriedFrom.value))
      ensures source.SearchSource? && requeriedFrom.None? ==> siblings == UidDict(source.session)
      ensures source.SearchSource? ==> (firstNeeded <==> number >= 3 && 0 in siblings.entries)
      ensures source.SearchSource? ==> (lastNeeded <==> number < total - 1 && total - 1 in siblings.entries)
      ensures previousUrl == LinkFor(previousNeeded, previousIndex, siblings, exists_)
      ensures nextUrl == LinkFor(nextNeeded, nextIndex, siblings, exists_)
      ensures firstUrl == LinkFor(firstNeeded, firstIndex, siblings, exists_)
      ensures lastUrl == LinkFor(lastNeeded, lastIndex, siblings, exists_)
    {
      this.number := number;
      this.total := total;
      this.batchSize := batchSize;
      var prevIndex := number - 2;
      var prevNeeded := prevIndex > -1 && total > prevIndex;
      var nextNeeded := number < total;
      var firstNeeded := prevIndex > 0;
      var lastIndex := total - 1;
      var lastNeeded := number < lastIndex;
      var sibs: Uids;
      var requeried: Option<int> := None;
      match source {
        case RefSource(uids) =>
          sibs := UidList(uids);
        case SearchSource(session, maxPerPage, requery) =>
          var res := session;
          if (prevNeeded && prevIndex !in res) || (nextNeeded && number !in res) {
            var start := RequeryStart(number, maxPerPage);
            requeried := Some(start);
            res := requery(start);
          }
          if 0 !in res {
            firstNeeded := false;
          }
          if lastIndex !in res {
            lastNeeded := false;
          }
          sibs := UidDict(res);
      }
      previousIndex := prevIndex;
      previousNeeded := prevNeeded;
      this.nextIndex := number;
      this.nextNeeded := nextNeeded;
      firstIndex := 0;
      this.firstNeeded := firstNeeded;
      this.lastIndex := lastIndex;
      this.lastNeeded := lastNeeded;
      siblings := sibs;
      requeriedFrom := requeried;
      previousUrl := LinkFor(prevNeeded, prevIndex, sibs, exists_);
      nextUrl := LinkFor(nextNeeded, number, sibs, exists_);
      firstUrl := LinkFor(firstNeeded, 0, sibs, exists_);
      lastUrl := LinkFor(lastNeeded, lastIndex, sibs, exists_);
    }

    /** `computeStartNumber`: the start number of the batch holding the
        current element, scanning batch after batch. */
    method ComputeStartNumber() returns (res: int)
      requires total <= 0 || batchSize > 0
      ensures res == BatchStart(number - 1, total, batchSize)
    {
      var n := number - 1;
      res := 0;
      while res < total
        invariant res >= 0
        invariant BatchFrom(res, n, total, batchSize) == BatchStart(n, total, batchSize)
        decreases total - res
      {
        if n < res + batchSize {
          return res;
        }
        res := res + batchSize;
      }
    }
  }

  /** On a valid number, the back link leads to the batch holding the current
      element, whose start is a multiple of the batch size. */
  lemma BackToCurrentBatch(number: int, total: int, batchSize: int)
    requires batchSize > 0 && 1 <= number <= total
    ensures BatchStart(number - 1, total, batchSize) <= number - 1 < BatchStart(number - 1, total, batchSize) + batchSize
    ensures BatchStart(number - 1, total, batchSize) % batchSize == 0
  {
    BatchStartContains(number - 1, total, batchSize);
    var s := BatchStart(number - 1, total, batchSize);
    var q := (number - 1) / batchSize;
    assert s == q * batchSize;
    assert s % batchSize == 0 by { DivInBatch(q, s, batchSize); }
  }
}
