/** The events a calendar field stores on an object: a table of years, each
    a table of months, each a table of days holding a list of events. The
    tables are B-trees (IOBTree) whose keys are visited in increasing order,
    so the three levels are kept here as one list of (day, events) entries in
    increasing day order. */
module EventStores {
  import opened Wrappers
  import opened Dates

  datatype Event = Event(eventType: string)

  type Entry = (Date, seq<Event>)

  /** Every key comes after k. */
  predicate AllAfter(es: seq<Entry>, k: Date)
  {
    forall i :: 0 <= i < |es| ==> Before(k, es[i].0)
  }

  /** Keys in increasing order, as a B-tree visits them. */
  predicate Sorted(es: seq<Entry>)
  {
    |es| <= 1 || (AllAfter(es[1..], es[0].0) && Sorted(es[1..]))
  }

  /** Keys strictly increase from any entry to any later one. */
  lemma {:induction false} SortedIncreasing(es: seq<Entry>)
    requires Sorted(es)
    ensures forall i, j :: 0 <= i < j < |es| ==> Before(es[i].0, es[j].0)
  {
    if |es| > 1 {
      SortedIncreasing(es[1..]);
      forall i, j | 0 <= i < j < |es|
        ensures Before(es[i].0, es[j].0)
      {
        if i > 0 {
          assert es[i].0 == es[1..][i - 1].0 && es[j].0 == es[1..][j - 1].0;
        } else {
          assert es[j].0 == es[1..][j - 1].0;
        }
      }
    }
  }

  /** The events stored at day d, None when the day (or its month, or its
      year) has no table entry. */
  function Find(es: seq<Entry>, d: Date): Option<seq<Event>>
  {
    if es == [] then None
    else if es[0].0 == d then Some(es[0].1)
    else Find(es[1..], d)
  }

  /** A key before every key of the list is not in it. */
  lemma {:induction false} FindBeforeAll(es: seq<Entry>, k: Date, d: Date)
    requires AllAfter(es, k) && (d == k || Before(d, k))
    ensures Find(es, d) == None
  {
    if es != [] {
      assert Before(k, es[0].0);
      FindBeforeAll(es[1..], k, d);
    }
  }

  /** Storing one event at day d unless the day already has events: lines
      134-141 of gen/calendar.py (and 750-758 of fields/calendar.py), on the
      sorted entries. */
  function Put(es: seq<Entry>, d: Date, t: string): (r: seq<Entry>)
  {
    if es == [] then [(d, [Event(t)])]
    else if es[0].0 == d then (if es[0].1 == [] then [(d, [Event(t)])] + es[1..] else es)
    else if Before(d, es[0].0) then [(d, [Event(t)])] + es
    else [es[0]] + Put(es[1..], d, t)
  }

  lemma {:induction false} PutAfter(es: seq<Entry>, d: Date, t: string, k: Date)
    requires AllAfter(es, k) && Before(k, d)
    ensures AllAfter(Put(es, d, t), k)
  {
    if es != [] && es[0].0 != d && !Before(d, es[0].0) {
      PutAfter(es[1..], d, t, k);
      var r := Put(es, d, t);
      assert r == [es[0]] + Put(es[1..], d, t);
      forall i | 0 <= i < |r|
        ensures Before(k, r[i].0)
      {
        if i > 0 {
          assert r[i] == Put(es[1..], d, t)[i - 1];
        }
      }
    }
  }

  /** Storing keeps the keys in order. */
  lemma {:induction false} PutSorted(es: seq<Entry>, d: Date, t: string)
    requires Sorted(es)
    ensures Sorted(Put(es, d, t))
  {
    if es == [] {
    } else if es[0].0 == d {
      if es[0].1 == [] {
        assert Put(es, d, t)[1..] == es[1..];
      }
    } else if Before(d, es[0].0) {
      var r := Put(es, d, t);
      assert r[1..] == es;
      forall i | 0 <= i < |es|
        ensures Before(d, es[i].0)
      {
        if i > 0 {
          SortedIncreasing(es);
          BeforeTransitive(d, es[0].0, es[i].0);
        }
      }
    } else {
      assert Before(es[0].0, d);
      PutSorted(es[1..], d, t);
      PutAfter(es[1..], d, t, es[0].0);
      assert Put(es, d, t)[1..] == Put(es[1..], d, t);
    }
  }

  /** What storing does to each day: a day holding events keeps them, a day
      without becomes the new event, every other day is untouched. */
  lemma {:induction false} PutFind(es: seq<Entry>, d: Date, t: string, x: Date)
    requires Sorted(es)
    ensures Find(Put(es, d, t), x) ==
      if x != d then Find(es, x)
      else if Find(es, d).Some? && Find(es, d).value != [] then Find(es, d)
      else Some([Event(t)])
  {
    if es == [] {
    } else if es[0].0 == d {
      if x != d && es[0].1 == [] {
        assert Put(es, d, t)[1..] == es[1..];
      }
    } else if Before(d, es[0].0) {
      assert Put(es, d, t)[1..] == es;
      if x == d {
        FindBeforeAll(es, d, d);
      }
    } else {
      PutFind(es[1..], d, t, x);
      assert Put(es, d, t)[1..] == Put(es[1..], d, t);
    }
  }

  /** Deleting the entry of day d (`del daysDict[day]`). */
  function Remove(es: seq<Entry>, d: Date): (r: seq<Entry>)
    ensures Find(es, d).None? ==> r == es
    ensures Find(es, d).Some? ==> |r| == |es| - 1
  {
    if es == [] then []
    else if es[0].0 == d then es[1..]
    else [es[0]] + Remove(es[1..], d)
  }

  lemma {:induction false} RemoveAfter(es: seq<Entry>, d: Date, k: Date)
    requires AllAfter(es, k)
    ensures AllAfter(Remove(es, d), k)
  {
    if es != [] && es[0].0 != d {
      RemoveAfter(es[1..], d, k);
      var r := Remove(es, d);
      forall i | 0 <= i < |r|
        ensures Before(k, r[i].0)
      {
        if i > 0 {
          assert r[i] == Remove(es[1..], d)[i - 1];
        }
      }
    }
  }

  lemma {:induction false} RemoveSorted(es: seq<Entry>, d: Date)
    requires Sorted(es)
    ensures Sorted(Remove(es, d))
  {
    if es != [] && es[0].0 != d {
      RemoveSorted(es[1..], d);
      RemoveAfter(es[1..], d, es[0].0);
      assert Remove(es, d)[1..] == Remove(es[1..], d);
    }
  }

  /** Deleting empties day d and leaves every other day untouched. */
  lemma {:induction false} RemoveFind(es: seq<Entry>, d: Date, x: Date)
    requires Sorted(es)
    ensures Find(Remove(es, d), x) == if x == d then None else Find(es, x)
  {
    if es == [] {
    } else if es[0].0 == d {
      if x == d && |es| > 1 {
        FindBeforeAll(es[1..], d, d);
      }
    } else {
      RemoveFind(es[1..], d, x);
      assert Remove(es, d)[1..] == Remove(es[1..], d);
    }
  }

  /** Every stored day holds exactly one event. */
  predicate OnePerDay(es: seq<Entry>)
  {
    forall i :: 0 <= i < |es| ==> |es[i].1| == 1
  }

  /** Storing never adds a second event to a day. */
  lemma {:induction false} PutOnePerDay(es: seq<Entry>, d: Date, t: string)
    requires OnePerDay(es)
    ensures OnePerDay(Put(es, d, t))
  {
    if es != [] && es[0].0 != d && !Before(d, es[0].0) {
      PutOnePerDay(es[1..], d, t);
      var r := Put(es, d, t);
      forall i | 0 <= i < |r|
        ensures |r[i].1| == 1
      {
        if i > 0 {
          assert r[i] == Put(es[1..], d, t)[i - 1];
        }
      }
    } else if es != [] && Before(d, es[0].0) {
      var r := Put(es, d, t);
      forall i | 0 <= i < |r|
        ensures |r[i].1| == 1
      {
        if i > 0 {
          assert r[i] == es[i - 1];
        }
      }
    }
  }

  lemma {:induction false} RemoveOnePerDay(es: seq<Entry>, d: Date)
    requires OnePerDay(es)
    ensures OnePerDay(Remove(es, d))
  {
    if es != [] && es[0].0 != d {
      RemoveOnePerDay(es[1..], d);
      var r := Remove(es, d);
      forall i | 0 <= i < |r|
        ensures |r[i].1| == 1
      {
        if i > 0 {
          assert r[i] == Remove(es[1..], d)[i - 1];
        }
      }
    }
  }

  /** The object's calendar attribute; an object without it behaves as an
      empty store. */
  class EventStore {
    var entries: seq<Entry>

    ghost predicate Valid()
      reads this
    {
      Sorted(entries)
    }

    constructor ()
      ensures entries == [] && Valid()
    {
      entries := [];
    }

    /** `getEventsAt`: the events at a day, None when it has none stored. */
    function EventsAt(d: Date): (r: Option<seq<Event>>)
      reads this
      ensures r.Some? <==> exists i :: 0 <= i < |entries| && entries[i].0 == d
    {
      FindSome(entries, d);
      Find(entries, d)
    }

    /** `getEventTypeAt`: the type of the first event at a day. */
    function EventTypeAt(d: Date): (r: Option<string>)
      reads this
      ensures r.Some? <==> EventsAt(d).Some? && EventsAt(d).value != []
      ensures r.Some? ==> r.value == EventsAt(d).value[0].eventType
    {
      match EventsAt(d)
      case None => None
      case Some(evs) => if evs == [] then None else Some(evs[0].eventType)
    }

    /** `hasEventsAt`: whether the first event at a day has the type of the
        first of `others`. */
    function HasEventsAt(d: Date, others: seq<Event>): (r: bool)
      reads this
      ensures r <==> others != [] && EventTypeAt(d) == Some(others[0].eventType)
    {
      if others == [] then false
      else
        match EventsAt(d)
        case None => false
        case Some(evs) => if evs == [] then false else evs[0].eventType == others[0].eventType
    }

    /** Storing an event at a day that has none (the day-level part of
        `createEvent`). */
    method PutEvent(d: Date, t: string)
      requires Valid()
      modifies this
      ensures Valid()
      ensures entries == Put(old(entries), d, t)
    {
      PutSorted(entries, d, t);
      entries := Put(entries, d, t);
    }

    /** `del daysDict[day]`. */
    method RemoveDay(d: Date)
      requires Valid()
      modifies this
      ensures Valid()
      ensures entries == Remove(old(entries), d)
    {
      RemoveSorted(entries, d);
      entries := Remove(entries, d);
    }

    /** `deleteEvent` (identical in both calendar fields): a day without
        events changes nothing; otherwise the day is deleted and, when the
        request says `deleteNext=True`, so are the following days while their
        first event has the type of the deleted day's first event. */
    method DeleteEvent(date: Date, handleSpan: bool, deleteNext: Option<string>)
      requires Valid() && Dates.Valid(date)
      modifies this
      ensures Valid()
      ensures entries == Deleted(old(entries), date, handleSpan && deleteNext == Some("True"))
      decreases if handleSpan then 1 else 0
    {
      var found := EventsAt(date);
      if found.None? || found.value == [] {
        return;
      }
      var events := found.value;
      RemoveDay(date);
      if handleSpan && deleteNext == Some("True") {
        ghost var t := events[0].eventType;
        ghost var removed := entries;
        var day := date;
        while true
          invariant Valid() && Dates.Valid(day)
          invariant Cascade(removed, Next(date), t) == Cascade(entries, Next(day), t)
          decreases |entries|
        {
          day := Next(day);
          if HasEventsAt(day, events) {
            DeleteEvent(day, false, deleteNext);
          } else {
            break;
          }
        }
      }
    }
  }

  lemma {:induction false} FindSome(es: seq<Entry>, d: Date)
    ensures Find(es, d).Some? <==> exists i :: 0 <= i < |es| && es[i].0 == d
  {
    if es != [] {
      FindSome(es[1..], d);
      if es[0].0 != d && (exists i :: 0 <= i < |es| && es[i].0 == d) {
        var i :| 0 <= i < |es| && es[i].0 == d;
        assert es[1..][i - 1].0 == d;
      }
      if exists i :: 0 <= i < |es[1..]| && es[1..][i].0 == d {
        var i :| 0 <= i < |es[1..]| && es[1..][i].0 == d;
        assert es[i + 1].0 == d;
      }
    }
  }

  /** The days from d on whose first event has type t, one after the other:
      those a cascading deletion removes. */
  function RunLength(es: seq<Entry>, d: Date, t: string): nat
    requires Valid(d)
    decreases |es|
  {
    match Find(es, d)
    case Some(evs) =>
      if evs != [] && evs[0].eventType == t then 1 + RunLength(Remove(es, d), Next(d), t) else 0
    case None => 0
  }

  /** Deleting day after day from d while the day's first event has type t. */
  function Cascade(es: seq<Entry>, d: Date, t: string): seq<Entry>
    requires Valid(d)
    decreases |es|
  {
    match Find(es, d)
    case Some(evs) =>
      if evs != [] && evs[0].eventType == t then Cascade(Remove(es, d), Next(d), t) else es
    case None => es
  }

  /** A cascade empties the run of days from d, stops at the first day that
      does not continue it, and leaves every other day untouched. */
  lemma {:induction false} CascadeFind(es: seq<Entry>, d: Date, t: string, x: Date)
    requires Sorted(es) && Valid(d)
    ensures Find(Cascade(es, d, t), x) == if InRun(d, RunLength(es, d, t), x) then None else Find(es, x)
    decreases |es|
  {
    var f := Find(es, d);
    if f.Some? && f.value != [] && f.value[0].eventType == t {
      var r := Remove(es, d);
      RemoveSorted(es, d);
      RemoveFind(es, d, x);
      CascadeFind(r, Next(d), t, x);
      RunShift(d, RunLength(es, d, t), x);
    }
  }

  /** Day x holds events and the first one has type t. */
  predicate Starts(es: seq<Entry>, x: Date, t: string)
  {
    Filled(es, x) && Find(es, x).value[0].eventType == t
  }

  /** The run is exactly the days from d whose first event has type t, up to
      the first day that has none of that type. */
  lemma {:induction false} RunLengthMeaning(es: seq<Entry>, d: Date, t: string)
    requires Sorted(es) && Valid(d)
    ensures forall i :: 0 <= i < RunLength(es, d, t) ==> Starts(es, AddDays(d, i), t)
    ensures !Starts(es, AddDays(d, RunLength(es, d, t)), t)
    decreases |es|
  {
    var n := RunLength(es, d, t);
    if n > 0 {
      var r := Remove(es, d);
      RemoveSorted(es, d);
      assert n == 1 + RunLength(r, Next(d), t);
      RunLengthMeaning(r, Next(d), t);
      forall i | 0 <= i < n
        ensures Starts(es, AddDays(d, i), t)
      {
        if i > 0 {
          StartsAfterRemove(es, d, t, i);
        }
      }
      StartsAfterRemove(es, d, t, n);
    }
  }

  /** Past day d, a day starts the run in the entries exactly when it does
      once day d is deleted. */
  lemma StartsAfterRemove(es: seq<Entry>, d: Date, t: string, i: nat)
    requires Sorted(es) && Valid(d) && i > 0
    ensures Starts(es, AddDays(d, i), t) == Starts(Remove(es, d), AddDays(Next(d), i - 1), t)
  {
    AddDaysAdd(d, 1, i - 1);
    AddDaysNotSame(d, i);
    RemoveFind(es, d, AddDays(d, i));
  }

  /** The entries `deleteEvent` leaves. */
  function Deleted(es: seq<Entry>, d: Date, cascade: bool): seq<Entry>
    requires Valid(d)
  {
    match Find(es, d)
    case None => es
    case Some(evs) =>
      if evs == [] then es
      else if cascade then Cascade(Remove(es, d), Next(d), evs[0].eventType)
      else Remove(es, d)
  }

  /** Whether day x holds events. */
  predicate Filled(es: seq<Entry>, x: Date)
  {
    Find(es, x).Some? && Find(es, x).value != []
  }

  /** The day-level part of `createEvent`: a day holding events is left
      alone; otherwise the event type is needed (a KeyError when the request
      has none) and one event is stored. */
  function PutDay(es: seq<Entry>, d: Date, t: Option<string>): (seq<Entry>, Option<string>)
  {
    if Filled(es, d) then (es, None)
    else if t.None? then (es, Some("KeyError"))
    else (Put(es, d, t.value), None)
  }

  /** The same on the k days from d, stopping at the first error. */
  function PutDays(es: seq<Entry>, d: Date, k: nat, t: Option<string>): (seq<Entry>, Option<string>)
    requires Valid(d)
    decreases k
  {
    if k == 0 then (es, None)
    else
      var (es1, err) := PutDay(es, d, t);
      if err.Some? then (es1, err) else PutDays(es1, Next(d), k - 1, t)
  }

  lemma {:induction false} AddDaysNotSame(d: Date, j: nat)
    requires Valid(d) && j > 0
    ensures AddDays(d, j) != d
  {
    AddDaysLater(d, j);
  }

  /** Spanning an event over k days fills each empty day of the span with
      the event, keeps the days that already had events, and leaves the other
      days untouched; the keys stay sorted. */
  lemma {:induction false} PutDaysFind(es: seq<Entry>, d: Date, k: nat, t: string, x: Date)
    requires Sorted(es) && Valid(d)
    ensures PutDays(es, d, k, Some(t)).1 == None && Sorted(PutDays(es, d, k, Some(t)).0)
    ensures Find(PutDays(es, d, k, Some(t)).0, x) ==
      if InRun(d, k, x) && !Filled(es, x) then Some([Event(t)]) else Find(es, x)
    decreases k
  {
    if k > 0 {
      var es1 := PutDay(es, d, Some(t)).0;
      if !Filled(es, d) {
        PutSorted(es, d, t);
        PutFind(es, d, t, x);
      }
      PutDaysFind(es1, Next(d), k - 1, t, x);
      RunShift(d, k, x);
      assert Find(es1, x) == Find(es, x) || x == d;
    }
  }

  /** Day x is one of the k days from d. */
  ghost predicate InRun(d: Date, k: nat, x: Date)
    requires Valid(d)
  {
    exists i :: 0 <= i < k && AddDays(d, i) == x
  }

  /** The days d .. d+k-1 are d followed by the days Next(d) .. d+k-1. */
  lemma RunShift(d: Date, k: nat, x: Date)
    requires Valid(d) && k > 0
    ensures x != d ==> (InRun(d, k, x) <==> InRun(Next(d), k - 1, x))
    ensures !InRun(Next(d), k - 1, d)
    ensures InRun(d, k, d)
  {
    assert AddDays(d, 0) == d;
    RunTailNotFirst(d, k);
    if InRun(Next(d), k - 1, x) {
      RunTailInRun(d, k, x);
    }
    if x != d && InRun(d, k, x) {
      RunInTail(d, k, x);
    }
  }

  lemma RunTailNotFirst(d: Date, k: nat)
    requires Valid(d) && k > 0
    ensures !InRun(Next(d), k - 1, d)
  {
    if InRun(Next(d), k - 1, d) {
      var i :| 0 <= i < k - 1 && AddDays(Next(d), i) == d;
      AddDaysAdd(d, 1, i);
      AddDaysNotSame(d, i + 1);
    }
  }

  lemma RunTailInRun(d: Date, k: nat, x: Date)
    requires Valid(d) && k > 0 && InRun(Next(d), k - 1, x)
    ensures InRun(d, k, x)
  {
    var i :| 0 <= i < k - 1 && AddDays(Next(d), i) == x;
    AddDaysAdd(d, 1, i);
    assert AddDays(d, i + 1) == x;
  }

  lemma RunInTail(d: Date, k: nat, x: Date)
    requires Valid(d) && k > 0 && x != d && InRun(d, k, x)
    ensures InRun(Next(d), k - 1, x)
  {
    var i :| 0 <= i < k && AddDays(d, i) == x;
    assert i > 0;
    AddDaysAdd(d, 1, i - 1);
    assert AddDays(Next(d), i - 1) == x;
  }

  /** Storing over a span keeps one event per day. */
  lemma {:induction false} PutDaysOnePerDay(es: seq<Entry>, d: Date, k: nat, t: Option<string>)
    requires OnePerDay(es) && Valid(d)
    ensures OnePerDay(PutDays(es, d, k, t).0)
    decreases k
  {
    if k > 0 {
      if !Filled(es, d) && t.Some? {
        PutOnePerDay(es, d, t.value);
      }
      PutDaysOnePerDay(PutDay(es, d, t).0, Next(d), k - 1, t);
    }
  }
}
