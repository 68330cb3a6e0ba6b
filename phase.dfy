/** Phases (fields/phase.py): a phase groups the pages of an object. Pages
    are added as fields are walked, visible ones in `pages`, the others in
    `hiddenPages`; neighbouring phases let the user browse from the last page
    of a phase to the first page of the next one. */
module Phases {
  import opened Wrappers
  import opened Lists

  /** An object tied through a navigable Ref, shown as a link. */
  datatype Link = Link(title: string, url: string)

  /** What is known about a visible page: where it may be shown, the links
      of a navigable Ref (None until set), and the entries that
      `Page.getInfo` adds (computed outside this model). */
  datatype PageInfo = PageInfo(showOnView: bool, showOnEdit: bool, links: Option<seq<Link>>,
                               details: map<string, bool>)

  /** A page to go to, or none (the pair (None, None) of the source). */
  datatype PageRef = NoPage | PageAt(name: string, info: PageInfo)

  /** The page information of a name, a KeyError when it is missing. */
  function Lookup(info: map<string, PageInfo>, name: string): (r: Result<PageRef, string>)
    ensures r.Ok? <==> name in info
    ensures r.Ok? ==> r.value == PageAt(name, info[name])
  {
    if name in info then Ok(PageAt(name, info[name])) else Err("KeyError")
  }

  class Phase {
    const name: string
    var pages: seq<string>
    var hiddenPages: seq<string>
    var pagesInfo: map<string, PageInfo>
    var previousPhase: Phase?
    var nextPhase: Phase?

    /** Every page is listed once, either as visible (with its information)
        or as hidden. */
    ghost predicate Valid()
      reads this
    {
      NoDup(pages) && NoDup(hiddenPages) &&
      (forall p :: p in pages ==> p !in hiddenPages) &&
      (forall p :: p in pagesInfo <==> p in pages)
    }

    constructor (name: string)
      ensures this.name == name && pages == [] && hiddenPages == [] && pagesInfo == map[]
      ensures previousPhase == null && nextPhase == null
      ensures Valid()
    {
      this.name := name;
      pages := [];
      hiddenPages := [];
      pagesInfo := map[];
      previousPhase := null;
      nextPhase := null;
    }

    /** `Phase.addPage`: a page already listed changes nothing; otherwise it
        becomes visible when it may be shown on view or on edit, and hidden
        else. Whether it may be shown is decided by the page, outside this
        model. */
    method AddPage(page: string, showOnView: bool, showOnEdit: bool, details: map<string, bool>)
      requires Valid()
      modifies this
      ensures Valid()
      ensures page in pages || page in hiddenPages
      ensures old(page in pages || page in hiddenPages) ==>
        pages == old(pages) && hiddenPages == old(hiddenPages) && pagesInfo == old(pagesInfo)
      ensures old(page !in pages && page !in hiddenPages) && (showOnView || showOnEdit) ==>
        pages == old(pages) + [page] && hiddenPages == old(hiddenPages) &&
        pagesInfo == old(pagesInfo)[page := PageInfo(showOnView, showOnEdit, None, details)]
      ensures old(page !in pages && page !in hiddenPages) && !(showOnView || showOnEdit) ==>
        pages == old(pages) && hiddenPages == old(hiddenPages) + [page] && pagesInfo == old(pagesInfo)
      ensures previousPhase == old(previousPhase) && nextPhase == old(nextPhase)
    {
      if page in pages || page in hiddenPages {
        return;
      }
      if showOnView || showOnEdit {
        pages := pages + [page];
        pagesInfo := pagesInfo[page := PageInfo(showOnView, showOnEdit, None, details)];
      } else {
        hiddenPages := hiddenPages + [page];
      }
    }

    /** `Phase.addPageLinks`: the objects tied through a navigable Ref become
        the links of its page; nothing happens for a hidden page, and a page
        never added is a KeyError. */
    method AddPageLinks(page: string, tied: seq<(string, string)>) returns (err: Option<string>)
      requires Valid()
      modifies this
      ensures Valid()
      ensures pages == old(pages) && hiddenPages == old(hiddenPages)
      ensures page in old(hiddenPages) ==> err.None? && pagesInfo == old(pagesInfo)
      ensures page !in old(hiddenPages) && page !in old(pagesInfo) ==> err.Some? && pagesInfo == old(pagesInfo)
      ensures page !in old(hiddenPages) && page in old(pagesInfo) ==> err.None?
      ensures page !in old(hiddenPages) && page in old(pagesInfo) ==>
        pagesInfo == old(pagesInfo)[page := old(pagesInfo)[page].(links := Some(LinksOf(tied)))]
      ensures previousPhase == old(previousPhase) && nextPhase == old(nextPhase)
    {
      if page in hiddenPages {
        return None;
      }
      var infos := [];
      var i := 0;
      while i < |tied|
        invariant 0 <= i <= |tied|
        invariant infos == LinksOf(tied[..i])
      {
        assert tied[..i + 1][..i] == tied[..i];
        infos := infos + [Link(tied[i].0, tied[i].1)];
        i := i + 1;
      }
      assert tied[..i] == tied;
      if page !in pagesInfo {
        return Some("KeyError");
      }
      pagesInfo := pagesInfo[page := pagesInfo[page].(links := Some(infos))];
      return None;
    }

    /** `Phase.getPreviousPage`: an unknown page (no longer visible) leads to
        the first page; otherwise the preceding page, or the last page of the
        previous phase, or none. */
    function PreviousPage(page: string): (r: Result<PageRef, string>)
      reads this, previousPhase
      ensures page !in pages ==> r == (if pages == [] then Err("IndexError") else Lookup(pagesInfo, pages[0]))
      ensures page in pages && FirstIndex(pages, page) > 0 ==> r == Lookup(pagesInfo, pages[FirstIndex(pages, page) - 1])
      ensures page in pages && FirstIndex(pages, page) == 0 && previousPhase == null ==> r == Ok(NoPage)
      ensures page in pages && FirstIndex(pages, page) == 0 && previousPhase != null ==>
        r == (if previousPhase.pages == [] then Err("IndexError")
              else Lookup(previousPhase.pagesInfo, previousPhase.pages[|previousPhase.pages| - 1]))
    {
      if page !in pages then
        if pages == [] then Err("IndexError") else Lookup(pagesInfo, pages[0])
      else
        var i := FirstIndex(pages, page);
        if i > 0 then Lookup(pagesInfo, pages[i - 1])
        else if previousPhase != null then
          if previousPhase.pages == [] then Err("IndexError")
          else Lookup(previousPhase.pagesInfo, previousPhase.pages[|previousPhase.pages| - 1])
        else Ok(NoPage)
    }

    /** `Phase.getNextPage`: symmetric, towards the first page of the next
        phase. */
    function NextPage(page: string): (r: Result<PageRef, string>)
      reads this, nextPhase
      ensures page !in pages ==> r == (if pages == [] then Err("IndexError") else Lookup(pagesInfo, pages[0]))
      ensures page in pages && FirstIndex(pages, page) < |pages| - 1 ==>
        r == Lookup(pagesInfo, pages[FirstIndex(pages, page) + 1])
      ensures page in pages && FirstIndex(pages, page) == |pages| - 1 && nextPhase == null ==> r == Ok(NoPage)
      ensures page in pages && FirstIndex(pages, page) == |pages| - 1 && nextPhase != null ==>
        r == (if nextPhase.pages == [] then Err("IndexError") else Lookup(nextPhase.pagesInfo, nextPhase.pages[0]))
    {
      if page !in pages then
        if pages == [] then Err("IndexError") else Lookup(pagesInfo, pages[0])
      else
        var i := FirstIndex(pages, page);
        if i < |pages| - 1 then Lookup(pagesInfo, pages[i + 1])
        else if nextPhase != null then
          if nextPhase.pages == [] then Err("IndexError") else Lookup(nextPhase.pagesInfo, nextPhase.pages[0])
        else Ok(NoPage)
    }

    /** Within a phase, going back then forth returns to the same page. */
    lemma PreviousThenNext(page: string)
      requires Valid() && page in pages && FirstIndex(pages, page) > 0
      ensures PreviousPage(page).Ok? && PreviousPage(page).value.PageAt?
      ensures NextPage(PreviousPage(page).value.name) == Ok(PageAt(page, pagesInfo[page]))
    {
      var i := FirstIndex(pages, page);
      var p := pages[i - 1];
      assert p in pages;
      assert FirstIndex(pages, p) == i - 1 by {
        var j := FirstIndex(pages, p);
        assert pages[j] == pages[i - 1];
      }
    }

    /** Across two linked phases, going back from the first page to the last
        page of the previous phase, then forth, returns to the same page. */
    lemma PreviousThenNextAcross(page: string)
      requires Valid() && pages != [] && page == pages[0]
      requires previousPhase != null && previousPhase.Valid() && previousPhase.pages != []
      requires previousPhase.nextPhase == this
      ensures PreviousPage(page).Ok? && PreviousPage(page).value.PageAt?
      ensures previousPhase.NextPage(PreviousPage(page).value.name) == Ok(PageAt(page, pagesInfo[page]))
    {
      var prev := previousPhase;
      var last := prev.pages[|prev.pages| - 1];
      assert FirstIndex(pages, page) == 0;
      assert last in prev.pages;
      assert FirstIndex(prev.pages, last) == |prev.pages| - 1 by {
        var j := FirstIndex(prev.pages, last);
        assert prev.pages[j] == prev.pages[|prev.pages| - 1];
      }
    }

    /** `Phase.computeNextPrevious`: every phase of the list bearing this
        phase's name sets the neighbours around its first position. */
    method ComputeNextPrevious(allPhases: seq<Phase>)
      modifies this
      ensures (previousPhase, nextPhase) == Neighbours(allPhases, name, 0, old(previousPhase), old(nextPhase))
      ensures pages == old(pages) && hiddenPages == old(hiddenPages) && pagesInfo == old(pagesInfo)
    {
      var k := 0;
      while k < |allPhases|
        invariant 0 <= k <= |allPhases|
        invariant pages == old(pages) && hiddenPages == old(hiddenPages) && pagesInfo == old(pagesInfo)
        invariant Neighbours(allPhases, name, 0, old(previousPhase), old(nextPhase)) ==
          Neighbours(allPhases, name, k, previousPhase, nextPhase)
      {
        var phase := allPhases[k];
        if phase.name == name {
          var i := FirstIndex(allPhases, phase);
          if i > 0 {
            previousPhase := allPhases[i - 1];
          }
          if i < |allPhases| - 1 {
            nextPhase := allPhases[i + 1];
          }
        }
        k := k + 1;
      }
    }
  }

  /** The links of tied objects given as (title, url) pairs. */
  function LinksOf(tied: seq<(string, string)>): (r: seq<Link>)
    ensures |r| == |tied|
    ensures forall i :: 0 <= i < |tied| ==> r[i] == Link(tied[i].0, tied[i].1)
  {
    if tied == [] then [] else LinksOf(tied[..|tied| - 1]) + [Link(tied[|tied| - 1].0, tied[|tied| - 1].1)]
  }

  /** The neighbours left once the phases from position `k` on are scanned. */
  function Neighbours(all: seq<Phase>, name: string, k: nat, prev: Phase?, next: Phase?): (Phase?, Phase?)
    requires k <= |all|
    decreases |all| - k
  {
    if k == |all| then (prev, next)
    else if all[k].name == name then
      var i := FirstIndex(all, all[k]);
      Neighbours(all, name, k + 1, if i > 0 then all[i - 1] else prev, if i < |all| - 1 then all[i + 1] else next)
    else Neighbours(all, name, k + 1, prev, next)
  }

  /** Phases bearing other names leave the neighbours alone. */
  lemma {:induction false} SkipOthers(all: seq<Phase>, name: string, k: nat, j: nat, prev: Phase?, next: Phase?)
    requires k <= j <= |all|
    requires forall m :: k <= m < j ==> all[m].name != name
    ensures Neighbours(all, name, k, prev, next) == Neighbours(all, name, j, prev, next)
    decreases j - k
  {
    if k < j {
      SkipOthers(all, name, k + 1, j, prev, next);
    }
  }

  /** When phase names are distinct, a phase at position i gets the phases at
      i - 1 and i + 1 as neighbours: the first has no previous phase and the
      last no next one (unless they were set before). */
  lemma NeighboursOfUniqueName(all: seq<Phase>, i: nat, prev: Phase?, next: Phase?)
    requires i < |all|
    requires forall a, b :: 0 <= a < |all| && 0 <= b < |all| && all[a].name == all[b].name ==> a == b
    ensures Neighbours(all, all[i].name, 0, prev, next) ==
      (if i > 0 then all[i - 1] else prev, if i < |all| - 1 then all[i + 1] else next)
  {
    var name := all[i].name;
    SkipOthers(all, name, 0, i, prev, next);
    assert FirstIndex(all, all[i]) == i by {
      var f := FirstIndex(all, all[i]);
      assert all[f].name == all[i].name;
    }
    var p := if i > 0 then all[i - 1] else prev;
    var n := if i < |all| - 1 then all[i + 1] else next;
    SkipOthers(all, name, i + 1, |all|, p, n);
  }
}
