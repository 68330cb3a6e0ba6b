/** The first calendar field (gen/calendar.py): a month grid built in loops
    and event creation driven by the request (`eventType`, `eventSpan`). Its
    `getSiblingMonth`, `getEventsAt`, `hasEventsAt` and `deleteEvent` are the
    same code as the second calendar field's and are modelled once, in
    Grids and EventStores. */
module GenCalendar {
  import opened Wrappers
  import opened Text
  import opened Dates
  import opened Grids
  import opened EventStores

  /** One step of the grid loops: a day appended to the rows opens a new row
      when the last one is full and extends it otherwise. */
  lemma RowsStep<T>(s: seq<T>, rows: seq<seq<T>>, x: T)
    requires rows == Rows(s)
    ensures (if |rows[|rows| - 1]| == 7 then rows + [[x]] else rows[..|rows| - 1] + [rows[|rows| - 1] + [x]])
      == Rows(s + [x])
  {
    LastRow(s);
    if |s| > 0 && |s| % 7 == 0 {
      RowsAppendFull(s, x);
    } else {
      RowsAppendPartial(s, x);
    }
  }

  /** k days in a row from d. */
  function DaysFrom(d: Date, k: nat): (r: seq<Date>)
    requires Valid(d)
    ensures |r| == k
  {
    seq(k, i requires 0 <= i < k => AddDays(d, i))
  }

  /** Going back one day from position k of the grid. */
  lemma LeadStep(y: int, m: int, k: nat)
    requires 1 <= m <= 12 && 1 <= k <= Lead(y, m)
    ensures Prev(AddDays(GridStart(y, m), k)) == AddDays(GridStart(y, m), k - 1)
    ensures GridDays(y, m)[k - 1..Lead(y, m)] == [AddDays(GridStart(y, m), k - 1)] + GridDays(y, m)[k..Lead(y, m)]
  {
    PrevOfNext(AddDays(GridStart(y, m), k - 1));
  }

  /** While completing the last row, it is full exactly when the days
      added reach `(7 - |s| % 7) % 7`. */
  lemma TrailFull(s: seq<Date>, day: Date, t: nat)
    requires Valid(day) && |s| > 0 && t <= (7 - |s| % 7) % 7
    ensures |Rows(s + DaysFrom(day, t))[|Rows(s + DaysFrom(day, t))| - 1]| == 7 <==> t == (7 - |s| % 7) % 7
  {
    LastRow(s + DaysFrom(day, t));
    TrailArithmetic(|s|, t);
  }

  lemma TrailArithmetic(a: int, t: int)
    requires a > 0 && 0 <= t <= (7 - a % 7) % 7
    ensures (a + t) % 7 == 0 <==> t == (7 - a % 7) % 7
  {
  }

  /** The grid is the lead row, the month, then the trailing days from the
      1st of the next month. */
  lemma GridParts(y: int, m: int)
    requires 1 <= m <= 12
    ensures GridDays(y, m) == GridDays(y, m)[..Lead(y, m)] + MonthDays(y, m) + DaysFrom(NextMonthStart(y, m), Trail(y, m))
  {
    var g := GridDays(y, m);
    var lead, len := Lead(y, m), DaysInMonth(y, m);
    GridHoldsMonth(y, m);
    GridTrail(y, m);
    assert g == g[..lead] + g[lead..lead + len] + g[lead + len..];
  }

  lemma GridTrail(y: int, m: int)
    requires 1 <= m <= 12
    ensures GridDays(y, m)[Lead(y, m) + DaysInMonth(y, m)..] == DaysFrom(NextMonthStart(y, m), Trail(y, m))
  {
    var g := GridDays(y, m);
    var n := Lead(y, m) + DaysInMonth(y, m);
    var trail := DaysFrom(NextMonthStart(y, m), Trail(y, m));
    MonthDayAt(y, m, DaysInMonth(y, m));
    forall i | 0 <= i < Trail(y, m)
      ensures g[n + i] == trail[i]
    {
      AddDaysAdd(GridStart(y, m), n, i);
    }
  }

  /** `getMonthGrid`: the rows of seven days shown for month m of year y. */
  method GetMonthGrid(y: int, m: int) returns (res: seq<seq<Date>>)
    requires 1 <= m <= 12
    ensures res == Rows(GridDays(y, m))
  {
    var first := Date(y, m, 1);
    var row := LeadRow(first);
    var currentDay;
    res, currentDay := AppendMonth(first, [row], row);
    ghost var s := row + MonthDays(y, m);
    res := CompleteLastRow(res, s, currentDay);
    GridParts(y, m);
  }

  /** The first row's days before the 1st: `dayOneNb - 1` days going back
      one at a time. */
  method LeadRow(first: Date) returns (row: seq<Date>)
    requires first.day == 1 && 1 <= first.month <= 12
    ensures row == GridDays(first.year, first.month)[..Lead(first.year, first.month)]
  {
    ghost var y, m := first.year, first.month;
    ghost var g := GridDays(y, m);
    ghost var lead := Lead(y, m);
    ghost var start := GridStart(y, m);
    row := [];
    var dow := Weekday(first);
    var dayOneNb := if dow == 0 then 7 else dow;
    LeadReachesFirst(y, m);
    assert g[lead..lead] == [];
    if dayOneNb != 1 {
      var previousDate := first;
      var i := 1;
      while i < dayOneNb
        invariant 1 <= i <= dayOneNb && dayOneNb - 1 == lead
        invariant previousDate == AddDays(start, lead - (i - 1))
        invariant row == g[lead - (i - 1)..lead]
      {
        LeadStep(y, m, lead - (i - 1));
        previousDate := Prev(previousDate);
        row := [previousDate] + row;
        i := i + 1;
      }
    }
    assert g[..lead] == g[0..lead];
  }

  /** The month's days appended one at a time after rows s, opening a new
      row after each full one; returns the rows and the day after the
      month. */
  method AppendMonth(first: Date, rows: seq<seq<Date>>, ghost s: seq<Date>) returns (res: seq<seq<Date>>, currentDay: Date)
    requires first.day == 1 && 1 <= first.month <= 12
    requires rows == Rows(s)
    ensures currentDay == NextMonthStart(first.year, first.month)
    ensures res == Rows(s + MonthDays(first.year, first.month))
  {
    ghost var y, m := first.year, first.month;
    ghost var days := MonthDays(y, m);
    var currentMonth := first.month;
    res := rows;
    currentDay := first;
    var finished := false;
    ghost var k := 0;
    assert s + days[..0] == s;
    while !finished
      invariant 0 <= k <= DaysInMonth(y, m)
      invariant finished <==> k == DaysInMonth(y, m)
      invariant k < DaysInMonth(y, m) ==> currentDay == Date(y, m, k + 1)
      invariant k == DaysInMonth(y, m) ==> currentDay == NextMonthStart(y, m)
      invariant res == Rows(s + days[..k])
      decreases DaysInMonth(y, m) - k
    {
      assert s + days[..k + 1] == (s + days[..k]) + [currentDay];
      RowsStep(s + days[..k], res, currentDay);
      if |res[|res| - 1]| == 7 {
        res := res + [[currentDay]];
      } else {
        res := res[..|res| - 1] + [res[|res| - 1] + [currentDay]];
      }
      currentDay := Next(currentDay);
      k := k + 1;
      if currentDay.month != currentMonth {
        finished := true;
      }
    }
    assert days[..k] == days;
  }

  /** The last row completed with the days from `day` on, up to seven. */
  method CompleteLastRow(rows: seq<seq<Date>>, ghost s: seq<Date>, day: Date) returns (res: seq<seq<Date>>)
    requires Valid(day) && |s| > 0 && rows == Rows(s)
    ensures res == Rows(s + DaysFrom(day, (7 - |s| % 7) % 7))
  {
    ghost var trail := (7 - |s| % 7) % 7;
    res := rows;
    var currentDay := day;
    ghost var t := 0;
    assert s + DaysFrom(day, 0) == s;
    TrailFull(s, day, 0);
    if |res[|res| - 1]| != 7 {
      while |res[|res| - 1]| != 7
        invariant 0 <= t <= trail
        invariant currentDay == AddDays(day, t)
        invariant res == Rows(s + DaysFrom(day, t))
        invariant |res[|res| - 1]| != 7 <==> t < trail
        decreases trail - t
      {
        assert s + DaysFrom(day, t + 1) == (s + DaysFrom(day, t)) + [currentDay];
        RowsStep(s + DaysFrom(day, t), res, currentDay);
        res := res[..|res| - 1] + [res[|res| - 1] + [currentDay]];
        currentDay := Next(currentDay);
        t := t + 1;
        TrailFull(s, day, t);
      }
    }
  }

  /** `min(int(eventSpan), maxEventLength)` further days, none when it is
      negative. */
  function SpanDays(n: int, maxEventLength: int): nat
  {
    var k := if n < maxEventLength then n else maxEventLength;
    if k < 0 then 0 else k
  }

  /** What `createEvent` leaves, and the error it raises if any: the day gets
      the request's event type unless it holds events already; with the span
      handled, `eventSpan` is required, and the following days get the same
      treatment. */
  function Created(es: seq<Entry>, d: Date, rqType: Option<string>, rqSpan: Option<string>,
                   handleSpan: bool, maxEventLength: int): (seq<Entry>, Option<string>)
    requires Valid(d)
  {
    var (es1, err) := PutDay(es, d, rqType);
    if err.Some? || !handleSpan then (es1, err)
    else if rqSpan.None? then (es1, Some("KeyError"))
    else if rqSpan.value == "" then (es1, None)
    else match PyInt(rqSpan.value)
      case None => (es1, Some("ValueError"))
      case Some(n) => PutDays(es1, Next(d), SpanDays(n, maxEventLength), rqType)
  }

  /** `createEvent`. */
  method CreateEvent(store: EventStore, date: Date, rqType: Option<string>, rqSpan: Option<string>,
                     handleSpan: bool, maxEventLength: int) returns (err: Option<string>)
    requires store.Valid() && Valid(date)
    modifies store
    ensures store.Valid()
    ensures (store.entries, err) == Created(old(store.entries), date, rqType, rqSpan, handleSpan, maxEventLength)
    decreases if handleSpan then 1 else 0
  {
    var events := store.EventsAt(date);
    if events.None? || events.value == [] {
      if rqType.None? {
        return Some("KeyError");
      }
      store.PutEvent(date, rqType.value);
    }
    if !handleSpan {
      return None;
    }
    if rqSpan.None? {
      return Some("KeyError");
    }
    if rqSpan.value == "" {
      return None;
    }
    var n := PyInt(rqSpan.value);
    if n.None? {
      return Some("ValueError");
    }
    var nbOfDays := if n.value < maxEventLength then n.value else maxEventLength;
    ghost var span := SpanDays(n.value, maxEventLength);
    ghost var es1 := store.entries;
    var i := 0;
    var day := date;
    while i < nbOfDays
      invariant store.Valid() && Valid(day)
      invariant 0 <= i <= span
      invariant i < nbOfDays ==> i < span
      invariant PutDays(es1, Next(date), span, rqType) == PutDays(store.entries, Next(day), span - i, rqType)
    {
      day := Next(day);
      err := CreateEvent(store, day, rqType, rqSpan, false, maxEventLength);
      if err.Some? {
        return;
      }
      i := i + 1;
    }
    return None;
  }

  /** Creating never puts a second event on a day. */
  lemma CreatedOnePerDay(es: seq<Entry>, d: Date, rqType: Option<string>, rqSpan: Option<string>,
                         handleSpan: bool, maxEventLength: int)
    requires OnePerDay(es) && Valid(d)
    ensures OnePerDay(Created(es, d, rqType, rqSpan, handleSpan, maxEventLength).0)
  {
    if !Filled(es, d) && rqType.Some? {
      PutOnePerDay(es, d, rqType.value);
    }
    var es1 := PutDay(es, d, rqType).0;
    if handleSpan && rqSpan.Some? && PyInt(rqSpan.value).Some? {
      PutDaysOnePerDay(es1, Next(d), SpanDays(PyInt(rqSpan.value).value, maxEventLength), rqType);
    }
  }

  /** With an event type and a numeric span, the day and the span days after
      it that had no event get one of that type; every other day is
      untouched. */
  lemma CreatedSpan(es: seq<Entry>, d: Date, t: string, s: string, n: int, maxEventLength: int, x: Date)
    requires Sorted(es) && Valid(d) && s != "" && PyInt(s) == Some(n)
    ensures Created(es, d, Some(t), Some(s), true, maxEventLength).1 == None
    ensures Find(Created(es, d, Some(t), Some(s), true, maxEventLength).0, x) ==
      if InRun(d, 1 + SpanDays(n, maxEventLength), x) && !Filled(es, x) then Some([Event(t)]) else Find(es, x)
  {
    var k := SpanDays(n, maxEventLength);
    var es1 := PutDay(es, d, Some(t)).0;
    if !Filled(es, d) {
      PutSorted(es, d, t);
      PutFind(es, d, t, x);
    }
    PutDaysFind(es1, Next(d), k, t, x);
    RunShift(d, 1 + k, x);
  }
}
