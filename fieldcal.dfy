/** The second calendar field (fields/calendar.py): the grid in month or
    timeline form, month navigation, the range a calendar accepts, event
    creation with an explicit type and span, the search of events by type
    with the grouping of spanned events, and the timeline header and cell
    classes. Its `getEventsAt`, `getEventTypeAt`, `hasEventsAt` and
    `deleteEvent` are those of EventStores. */
module FieldCalendar {
  import opened Wrappers
  import Lists
  import opened Text
  import opened Dates
  import opened Grids
  import opened EventStores
  import opened GenCalendar

  // ---------------------------------------------------------------- grid

  /** `getGrid`'s result: rows of weeks for "month", one flat list for
      "timeline". */
  datatype Grid = Month(rows: seq<seq<Date>>) | Timeline(days: seq<Date>)

  /** Days to add after d to reach a Sunday (none when d is one). */
  function ToSunday(d: Date): (r: nat)
    requires 1 <= d.month <= 12
    ensures r < 7
  {
    (7 - Weekday(d)) % 7
  }

  /** While completing the last week, the last day shown is a Sunday exactly
      when the days added reach `ToSunday(last)`. */
  lemma SundayStep(last: Date, t: nat)
    requires Valid(last) && t <= ToSunday(last)
    ensures Weekday(AddDays(last, t)) == (Weekday(last) + t) % 7
    ensures Weekday(AddDays(last, t)) == 0 <==> t == ToSunday(last)
  {
    AddDaysWeekday(last, t);
    SundayArithmetic(Weekday(last), t);
  }

  lemma SundayArithmetic(w: int, t: nat)
    requires 0 <= w < 7 && t <= (7 - w) % 7
    ensures (w + t) % 7 == 0 <==> t == (7 - w) % 7
  {
  }

  /** The days after `last`, counted from `Next(last)`, are `last`'s
      successors. */
  lemma FromNext(last: Date, t: nat)
    requires Valid(last)
    ensures AddDays(Next(last), t) == AddDays(last, t + 1)
  {
    AddDaysAdd(last, 1, t);
  }

  /** The last row of rows cut from a non-empty list ends with the list's
      last element. */
  lemma LastOfRows<T>(s: seq<T>)
    requires |s| > 0
    ensures var rows := Rows(s); |rows[|rows| - 1]| > 0 && rows[|rows| - 1][|rows[|rows| - 1]| - 1] == s[|s| - 1]
  {
  }

  /** The timeline's trailing loop: days appended until the last one is a
      Sunday. */
  method FinishWeek(s: seq<Date>, day: Date) returns (res: seq<Date>)
    requires |s| > 0 && Valid(s[|s| - 1]) && day == Next(s[|s| - 1])
    ensures res == s + DaysFrom(day, ToSunday(s[|s| - 1]))
  {
    ghost var last := s[|s| - 1];
    res := s;
    var currentDay := day;
    ghost var t := 0;
    assert s + DaysFrom(day, 0) == s;
    SundayStep(last, 0);
    while Weekday(res[|res| - 1]) != 0
      invariant 0 <= t <= ToSunday(last)
      invariant res == s + DaysFrom(day, t)
      invariant res[|res| - 1] == AddDays(last, t)
      invariant currentDay == AddDays(day, t)
      invariant Weekday(res[|res| - 1]) == 0 <==> t == ToSunday(last)
      decreases ToSunday(last) - t
    {
      FromNext(last, t);
      assert s + DaysFrom(day, t + 1) == res + [currentDay];
      res := res + [currentDay];
      currentDay := Next(currentDay);
      t := t + 1;
      SundayStep(last, t);
    }
  }

  /** The month view's trailing loop: days appended to the last row until
      its last day is a Sunday. */
  method FinishWeekRows(rows: seq<seq<Date>>, ghost s: seq<Date>, day: Date) returns (res: seq<seq<Date>>)
    requires |s| > 0 && Valid(s[|s| - 1]) && day == Next(s[|s| - 1])
    requires rows == Rows(s) && (|s| - 1) % 7 == (Weekday(s[|s| - 1]) + 6) % 7
    ensures res == Rows(s + DaysFrom(day, ToSunday(s[|s| - 1])))
  {
    ghost var last := s[|s| - 1];
    ghost var stop, w0 := ToSunday(last), Weekday(last);
    res := rows;
    var currentDay := day;
    ghost var t := 0;
    assert s + DaysFrom(day, 0) == s;
    LastOfRows(s);
    while Weekday(res[|res| - 1][|res[|res| - 1]| - 1]) != 0
      invariant 0 <= t <= stop
      invariant res == Rows(s + DaysFrom(day, t))
      invariant |res[|res| - 1]| > 0 && res[|res| - 1][|res[|res| - 1]| - 1] == AddDays(last, t)
      invariant currentDay == AddDays(day, t)
      invariant (|s| + t - 1) % 7 == (w0 + t + 6) % 7
      decreases stop - t
    {
      SundayStep(last, t);
      FromNext(last, t);
      ghost var prefix := s + DaysFrom(day, t);
      assert s + DaysFrom(day, t + 1) == prefix + [currentDay];
      ExtendLastRow(prefix, res, currentDay, w0 + t);
      res := res[..|res| - 1] + [res[|res| - 1] + [currentDay]];
      currentDay := Next(currentDay);
      t := t + 1;
    }
    SundayStep(last, t);
  }

  /** A day added while the last row does not end on a Sunday goes into
      that row. */
  lemma ExtendLastRow(prefix: seq<Date>, rows: seq<seq<Date>>, x: Date, w: int)
    requires |prefix| > 0 && rows == Rows(prefix)
    requires 0 <= w && w % 7 != 0 && (|prefix| - 1) % 7 == (w + 6) % 7
    ensures rows[..|rows| - 1] + [rows[|rows| - 1] + [x]] == Rows(prefix + [x])
    ensures (|prefix| + 1 - 1) % 7 == (w + 1 + 6) % 7
  {
    RowsStep(prefix, rows, x);
    LastRow(prefix);
    WeekRowArithmetic(|prefix|, w);
  }

  lemma WeekRowArithmetic(n: int, w: int)
    requires n > 0 && 0 <= w && w % 7 != 0 && (n - 1) % 7 == (w + 6) % 7
    ensures n % 7 != 0 && (n + 1 - 1) % 7 == (w + 1 + 6) % 7
  {
  }

  /** The grid is the lead, the month and the days up to the Sunday after
      the month's last day. */
  lemma GridAsWeekEnd(y: int, m: int)
    requires 1 <= m <= 12
    ensures var s := GridDays(y, m)[..Lead(y, m)] + MonthDays(y, m);
      |s| > 0 && s[|s| - 1] == Date(y, m, DaysInMonth(y, m)) &&
      Next(s[|s| - 1]) == NextMonthStart(y, m) &&
      GridDays(y, m) == s + DaysFrom(NextMonthStart(y, m), ToSunday(s[|s| - 1])) &&
      (|s| - 1) % 7 == (Weekday(s[|s| - 1]) + 6) % 7
  {
    var lead, len := Lead(y, m), DaysInMonth(y, m);
    var last := Date(y, m, len);
    MonthDayAt(y, m, len - 1);
    WeekdayAt(y, m, lead + len - 1);
    GridParts(y, m);
    WeekEndArithmetic(lead + len);
  }

  lemma WeekEndArithmetic(n: int)
    requires n > 0
    ensures (7 - (n - 1 + 1) % 7) % 7 == (7 - n % 7) % 7
    ensures (n - 1) % 7 == ((n - 1 + 1) % 7 + 6) % 7
  {
  }

  /** The timeline's month loop: the month's days appended one at a time
      after s; returns them and the day after the month. */
  method AppendMonthDays(first: Date, s: seq<Date>) returns (res: seq<Date>, currentDay: Date)
    requires first.day == 1 && 1 <= first.month <= 12
    ensures currentDay == NextMonthStart(first.year, first.month)
    ensures res == s + MonthDays(first.year, first.month)
  {
    ghost var y, m := first.year, first.month;
    ghost var days := MonthDays(y, m);
    var currentMonth := first.month;
    res := s;
    currentDay := first;
    var finished := false;
    ghost var k := 0;
    while !finished
      invariant 0 <= k <= DaysInMonth(y, m)
      invariant finished <==> k == DaysInMonth(y, m)
      invariant k < DaysInMonth(y, m) ==> currentDay == Date(y, m, k + 1)
      invariant k == DaysInMonth(y, m) ==> currentDay == NextMonthStart(y, m)
      invariant res == s + days[..k]
      decreases DaysInMonth(y, m) - k
    {
      assert days[..k + 1] == days[..k] + [currentDay];
      res := res + [currentDay];
      currentDay := Next(currentDay);
      k := k + 1;
      if currentDay.month != currentMonth {
        finished := true;
      }
    }
    assert days[..k] == days;
  }

  /** `getGrid`: the grid of month m of year y, as rows of weeks unless the
      render is "timeline". */
  method GetGrid(y: int, m: int, render: string) returns (res: Grid)
    requires 1 <= m <= 12
    ensures render == "timeline" ==> res == Timeline(GridDays(y, m))
    ensures render != "timeline" ==> res == Month(Rows(GridDays(y, m)))
  {
    var currentDay := Date(y, m, 1);
    var isLinear := render == "timeline";
    var lead := LeadRow(currentDay);
    GridAsWeekEnd(y, m);
    if isLinear {
      var days;
      days, currentDay := AppendMonthDays(currentDay, lead);
      days := FinishWeek(days, currentDay);
      res := Timeline(days);
    } else {
      var rows;
      rows, currentDay := AppendMonth(currentDay, [lead], lead);
      rows := FinishWeekRows(rows, lead + MonthDays(y, m), currentDay);
      res := Month(rows);
    }
  }

  // ---------------------------------------------------------- navigation

  /** `getSiblingMonth` (the same code as lines 31-39 of gen/calendar.py):
      the month of the day before the 1st, or of the 1st plus 33 days; any
      other word leaves `refDate` unbound. Months are (year, month) pairs. */
  function SiblingMonth(y: int, m: int, prevNext: string): (r: Result<(int, int), string>)
    requires 1 <= m <= 12
    ensures r.Err? <==> prevNext != "previous" && prevNext != "next"
  {
    var dayOne := Date(y, m, 1);
    if prevNext == "previous" then
      var refDate := Prev(dayOne);
      Ok((refDate.year, refDate.month))
    else if prevNext == "next" then
      var refDate := AddDays(dayOne, 33);
      Ok((refDate.year, refDate.month))
    else Err("UnboundLocalError")
  }

  /** The previous and the next month are the adjacent ones, across the
      turn of the year. */
  lemma SiblingMonthAdjacent(y: int, m: int)
    requires 1 <= m <= 12
    ensures SiblingMonth(y, m, "previous") == Ok(if m == 1 then (y - 1, 12) else (y, m - 1))
    ensures SiblingMonth(y, m, "next") == Ok(if m == 12 then (y + 1, 1) else (y, m + 1))
  {
    var len := DaysInMonth(y, m);
    MonthWalk(y, m, len);
    AddDaysAdd(Date(y, m, 1), len, 33 - len);
    AddDaysInMonth(NextMonthStart(y, m), 33 - len);
  }

  /** Going to the next month and back returns to the month. */
  lemma SiblingMonthRoundTrip(y: int, m: int)
    requires 1 <= m <= 12
    ensures var next := SiblingMonth(y, m, "next").value;
      1 <= next.1 <= 12 && SiblingMonth(next.0, next.1, "previous") == Ok((y, m))
  {
    SiblingMonthAdjacent(y, m);
    var next := SiblingMonth(y, m, "next").value;
    SiblingMonthAdjacent(next.0, next.1);
  }

  // --------------------------------------------------------------- range

  /** `dateInRange`: not before the start and not after the end, a missing
      bound leaving that side open. */
  function DateInRange(date: Date, startDate: Option<Date>, endDate: Option<Date>): (r: bool)
    ensures r <==> (startDate.None? || !Before(date, startDate.value)) && (endDate.None? || !Before(endDate.value, date))
  {
    var tooEarly := startDate.Some? && Before(date, startDate.value);
    var tooLate := endDate.Some? && !tooEarly && Before(endDate.value, date);
    !tooEarly && !tooLate
  }

  /** A range from a day to the same day holds that day only. */
  lemma SingleDayRange(date: Date, day: Date)
    ensures DateInRange(date, Some(day), Some(day)) <==> date == day
  {
  }

  /** A range ending before it starts holds nothing. */
  lemma EmptyRange(date: Date, startDate: Date, endDate: Date)
    requires Before(endDate, startDate)
    ensures !DateInRange(date, Some(startDate), Some(endDate))
  {
  }

  // ------------------------------------------------------------- styling

  /** `getCellClass`: nothing outside the month view; "even" for past days
      and "odd" for the others, then "cellDashed" on Saturdays and
      Sundays. */
  function CellClass(date: Date, render: string, today: Date): (r: string)
    requires Valid(date)
    ensures render != "month" ==> r == ""
    ensures render == "month" ==>
      r == (if Before(date, today) then "even" else "odd") + (if Weekday(date) == 6 || Weekday(date) == 0 then " cellDashed" else "")
  {
    if render != "month" then ""
    else
      var res := if Before(date, today) then ["even"] else ["odd"];
      var weekEnd := DayName(date) in ["Sat", "Sun"];
      assert weekEnd <==> Weekday(date) == 6 || Weekday(date) == 0;
      var res' := if weekEnd then res + ["cellDashed"] else res;
      assert weekEnd ==> res'[..1] == res && Join(res', " ") == Join(res, " ") + " " + "cellDashed";
      Join(res', " ")
  }

  /** `Calendar.timelineBgColors`. */
  const TimelineBgColors: map<string, string> := map["Fri" := "#a6a6a6", "Sat" := "#c0c0c0", "Sun" := "#c0c0c0"]

  /** `getColumnStyle`: in a timeline, Fridays get a grey background and the
      week-end a lighter one; nothing otherwise. */
  function ColumnStyle(date: Date, render: string): (r: string)
    requires Valid(date)
    ensures r != "" <==> render == "timeline" && Weekday(date) in {5, 6, 0}
    ensures render == "timeline" && Weekday(date) == 5 ==> r == "background-color: #a6a6a6"
    ensures render == "timeline" && Weekday(date) in {6, 0} ==> r == "background-color: #c0c0c0"
  {
    if render != "timeline" then ""
    else
      var day := DayName(date);
      if day in TimelineBgColors then "background-color: " + TimelineBgColors[day] else ""
  }

  // ------------------------------------------------------------ deletion

  /** The field's `delete` attribute: false, a callable deciding from the
      first event's type, or any other true value. */
  datatype DeletePolicy = NoDelete | Callback(permits: string -> bool) | Always

  /** `mayDelete`; the callable of an empty list of events raises
      IndexError. */
  function MayDelete(policy: DeletePolicy, events: seq<Event>): (r: Result<bool, string>)
    ensures r.Err? <==> policy.Callback? && events == []
    ensures r == Ok(true) <==> policy.Always? || (policy.Callback? && events != [] && policy.permits(events[0].eventType))
  {
    match policy
    case NoDelete => Ok(false)
    case Callback(permits) => if events == [] then Err("IndexError") else Ok(permits(events[0].eventType))
    case Always => Ok(true)
  }

  // ------------------------------------------------------------ creation

  /** The event type `createEvent` uses: its argument unless empty, else the
      request's `eventType`. */
  function TypeToUse(eventType: Option<string>, rqType: Option<string>): Option<string>
  {
    if eventType.None? || eventType.value == "" then rqType else eventType
  }

  /** The span `createEvent` uses when it handles spans: its argument unless
      empty, else the request's `eventSpan` if any. */
  function SpanToUse(eventSpan: Option<string>, rqSpan: Option<string>): Option<string>
  {
    if eventSpan.None? || eventSpan.value == "" then rqSpan else eventSpan
  }

  /** `createEvent` as written: the type is looked up first (a KeyError when
      neither the argument nor the request has one); the day gets the event
      unless it holds events already; then each of the span's days is
      created by a call that passes no type, so it takes the request's
      `eventType` again. */
  function CreatedAsWritten(es: seq<Entry>, d: Date, eventType: Option<string>, eventSpan: Option<string>,
                            handleSpan: bool, rqType: Option<string>, rqSpan: Option<string>,
                            maxEventLength: int): (seq<Entry>, Option<string>)
    requires Valid(d)
  {
    var t := TypeToUse(eventType, rqType);
    if t.None? then (es, Some("KeyError"))
    else
      var es1 := PutDay(es, d, t).0;
      var span := if handleSpan then SpanToUse(eventSpan, rqSpan) else eventSpan;
      if !handleSpan || span.None? || span.value == "" then (es1, None)
      else match PyInt(span.value)
        case None => (es1, Some("ValueError"))
        case Some(n) =>
          var k := SpanDays(n, maxEventLength);
          if k > 0 && rqType.None? then (es1, Some("KeyError"))
          else PutDays(es1, Next(d), k, rqType)
  }

  /** `createEvent` with the span's days getting the same event type as the
      first day, as its documentation says: the first calendar field's
      creation with the type and span chosen from the arguments and the
      request. */
  function Created(es: seq<Entry>, d: Date, eventType: Option<string>, eventSpan: Option<string>,
                   handleSpan: bool, rqType: Option<string>, rqSpan: Option<string>,
                   maxEventLength: int): (seq<Entry>, Option<string>)
    requires Valid(d)
  {
    var t := TypeToUse(eventType, rqType);
    if t.None? then (es, Some("KeyError"))
    else
      var span := SpanToUse(eventSpan, rqSpan);
      GenCalendar.Created(es, d, t, span, handleSpan && span.Some?, maxEventLength)
  }

  /** Called from the request (no type and no span given), the code as
      written and the corrected one agree. */
  lemma CreatedFromRequest(es: seq<Entry>, d: Date, handleSpan: bool, rqType: Option<string>, rqSpan: Option<string>,
                           maxEventLength: int)
    requires Valid(d)
    ensures CreatedAsWritten(es, d, None, None, handleSpan, rqType, rqSpan, maxEventLength)
      == Created(es, d, None, None, handleSpan, rqType, rqSpan, maxEventLength)
  {
  }

  /** With an explicit type, a span and a request without `eventType`, the
      code as written raises a KeyError after the first day, where the
      corrected creation fills the span. */
  lemma CreatedAsWrittenLosesType(es: seq<Entry>, d: Date, t: string, s: string, n: int, maxEventLength: int)
    requires Sorted(es) && Valid(d) && t != "" && s != "" && PyInt(s) == Some(n) && n >= 1 && maxEventLength >= 1
    ensures CreatedAsWritten(es, d, Some(t), Some(s), true, None, None, maxEventLength).1 == Some("KeyError")
    ensures Created(es, d, Some(t), Some(s), true, None, None, maxEventLength).1 == None
    ensures Find(Created(es, d, Some(t), Some(s), true, None, None, maxEventLength).0, Next(d)) ==
      if Filled(es, Next(d)) then Find(es, Next(d)) else Some([Event(t)])
  {
    var x := Next(d);
    CreatedSpan(es, d, t, s, n, maxEventLength, x);
    assert AddDays(d, 1) == x;
    assert InRun(d, 1 + SpanDays(n, maxEventLength), x);
  }

  /** Creating never puts a second event on a day. */
  lemma CreatedKeepsOnePerDay(es: seq<Entry>, d: Date, eventType: Option<string>, eventSpan: Option<string>,
                              handleSpan: bool, rqType: Option<string>, rqSpan: Option<string>, maxEventLength: int)
    requires OnePerDay(es) && Valid(d)
    ensures OnePerDay(Created(es, d, eventType, eventSpan, handleSpan, rqType, rqSpan, maxEventLength).0)
  {
    var t := TypeToUse(eventType, rqType);
    if t.Some? {
      var span := SpanToUse(eventSpan, rqSpan);
      CreatedOnePerDay(es, d, t, span, handleSpan && span.Some?, maxEventLength);
    }
  }

  /** `createEvent`, with the type passed on to the span's days: the type
      and the span are chosen, then the day and its span are filled as the
      first calendar field does. */
  method CreateEvent(store: EventStore, date: Date, eventType: Option<string>, eventSpan: Option<string>,
                     handleSpan: bool, rqType: Option<string>, rqSpan: Option<string>, maxEventLength: int)
    returns (err: Option<string>)
    requires store.Valid() && Valid(date)
    modifies store
    ensures store.Valid()
    ensures (store.entries, err) == Created(old(store.entries), date, eventType, eventSpan, handleSpan, rqType, rqSpan, maxEventLength)
  {
    var t := eventType;
    if t.None? || t.value == "" {
      if rqType.None? {
        return Some("KeyError");
      }
      t := rqType;
    }
    var span := eventSpan;
    if handleSpan && (span.None? || span.value == "") {
      span := rqSpan;
    }
    err := GenCalendar.CreateEvent(store, date, t, span, handleSpan && span.Some?, maxEventLength);
  }

  // ------------------------------------------------------------- queries

  /** An entry of `getEventsByType`'s result: the day (the first day of a
      group), the last day of a group if any, and the event. */
  datatype Occurrence = Occurrence(start: Date, end: Option<Date>, event: Event)

  /** An event passes the type filter; no type (or an empty one) keeps them
      all. */
  predicate Wanted(ev: Event, eventType: Option<string>)
  {
    eventType.None? || eventType.value == "" || ev.eventType == eventType.value
  }

  /** The occurrences of a day's events that pass the filter, in order. */
  function Kept(d: Date, evs: seq<Event>, eventType: Option<string>): (r: seq<Occurrence>)
    ensures |r| <= |evs|
    ensures forall i :: 0 <= i < |r| ==> r[i].start == d && r[i].end == None && Wanted(r[i].event, eventType)
  {
    if evs == [] then []
    else
      var kept := Kept(d, evs[..|evs| - 1], eventType);
      var ev := evs[|evs| - 1];
      if Wanted(ev, eventType) then kept + [Occurrence(d, None, ev)] else kept
  }

  /** `(year, month) < (year', month')`. */
  predicate MonthBefore(a: Date, b: Date)
  {
    a.year < b.year || (a.year == b.year && a.month < b.month)
  }

  /** `getEventsByType`'s bounds: a year, then a (year, month), then a
      (year, month, day) outside the bounds is skipped. */
  predicate WithinBounds(d: Date, minDate: Option<Date>, maxDate: Option<Date>)
  {
    !(minDate.Some? && (d.year < minDate.value.year || MonthBefore(d, minDate.value) || Before(d, minDate.value))) &&
    !(maxDate.Some? && (d.year > maxDate.value.year || MonthBefore(maxDate.value, d) || Before(maxDate.value, d)))
  }

  /** The search's three-level bounds select the days `dateInRange`
      accepts. */
  lemma WithinBoundsIsRange(d: Date, minDate: Option<Date>, maxDate: Option<Date>)
    ensures WithinBounds(d, minDate, maxDate) == DateInRange(d, minDate, maxDate)
  {
  }

  /** The occurrences `getEventsByType` collects before grouping: the events
      of the days within the bounds that pass the filter, day after day. */
  function Matching(es: seq<Entry>, eventType: Option<string>, minDate: Option<Date>, maxDate: Option<Date>): (r: seq<Occurrence>)
    ensures forall i :: 0 <= i < |r| ==>
      r[i].end == None && Wanted(r[i].event, eventType) && WithinBounds(r[i].start, minDate, maxDate)
  {
    if es == [] then []
    else
      var found := Matching(es[..|es| - 1], eventType, minDate, maxDate);
      var (d, evs) := es[|es| - 1];
      if WithinBounds(d, minDate, maxDate) then found + Kept(d, evs, eventType) else found
  }

  /** The occurrences come in chronological order: sorting them by date, as
      `getEventsByType` does when asked to, leaves them as they are. */
  lemma {:induction false} MatchingChronological(es: seq<Entry>, eventType: Option<string>, minDate: Option<Date>, maxDate: Option<Date>)
    requires Sorted(es)
    ensures forall i, j :: 0 <= i < j < |Matching(es, eventType, minDate, maxDate)| ==>
      !Before(Matching(es, eventType, minDate, maxDate)[j].start, Matching(es, eventType, minDate, maxDate)[i].start)
  {
    if es != [] {
      var init := es[..|es| - 1];
      var d := es[|es| - 1].0;
      SortedIncreasing(es);
      SortedPrefix(es);
      MatchingChronological(init, eventType, minDate, maxDate);
      forall i | 0 <= i < |init|
        ensures Before(init[i].0, d)
      {
        assert init[i] == es[i];
      }
      MatchingFrom(init, eventType, minDate, maxDate, d);
      var r := Matching(es, eventType, minDate, maxDate);
      var found := Matching(init, eventType, minDate, maxDate);
      var kept := Kept(d, es[|es| - 1].1, eventType);
      if !WithinBounds(d, minDate, maxDate) {
        assert r == found;
        return;
      }
      assert r == found + kept;
      forall i, j | 0 <= i < j < |r|
        ensures !Before(r[j].start, r[i].start)
      {
        if j < |found| {
          assert r[i] == found[i] && r[j] == found[j];
        } else if i < |found| {
          assert r[i] == found[i] && r[j] == kept[j - |found|];
        } else {
          assert r[i] == kept[i - |found|] && r[j] == kept[j - |found|];
        }
      }
    }
  }

  /** A prefix of sorted entries is sorted. */
  lemma SortedPrefix(es: seq<Entry>)
    requires Sorted(es) && es != []
    ensures Sorted(es[..|es| - 1])
  {
    SortedIncreasing(es);
    SortedFromIncreasing(es[..|es| - 1]);
  }

  lemma {:induction false} SortedFromIncreasing(es: seq<Entry>)
    requires forall i, j :: 0 <= i < j < |es| ==> Before(es[i].0, es[j].0)
    ensures Sorted(es)
    decreases |es|
  {
    if |es| > 1 {
      SortedFromIncreasing(es[1..]);
      assert forall i :: 0 <= i < |es[1..]| ==> es[1..][i] == es[i + 1];
    }
  }

  /** Every occurrence found in entries whose keys are before k is before
      k. */
  lemma {:induction false} MatchingFrom(es: seq<Entry>, eventType: Option<string>, minDate: Option<Date>, maxDate: Option<Date>, k: Date)
    requires forall i :: 0 <= i < |es| ==> Before(es[i].0, k)
    ensures forall i :: 0 <= i < |Matching(es, eventType, minDate, maxDate)| ==>
      Before(Matching(es, eventType, minDate, maxDate)[i].start, k)
  {
    if es != [] {
      var init := es[..|es| - 1];
      forall i | 0 <= i < |init|
        ensures Before(init[i].0, k)
      {
        assert init[i] == es[i];
      }
      MatchingFrom(init, eventType, minDate, maxDate, k);
      var r := Matching(es, eventType, minDate, maxDate);
      var found := Matching(init, eventType, minDate, maxDate);
      var d := es[|es| - 1].0;
      assert Before(d, k);
      var kept := Kept(d, es[|es| - 1].1, eventType);
      if !WithinBounds(d, minDate, maxDate) {
        assert r == found;
        return;
      }
      assert r == found + kept;
      forall i | 0 <= i < |r|
        ensures Before(r[i].start, k)
      {
        if i < |found| {
          assert r[i] == found[i];
        } else {
          assert r[i] == kept[i - |found|];
        }
      }
    }
  }

  /** `previousDate == currentDate - 1` and the same event type: the
      condition for merging two occurrences. */
  predicate Follows(prev: Occurrence, cur: Occurrence)
  {
    Valid(cur.start) && Prev(cur.start) == prev.start && prev.event.eventType == cur.event.eventType
  }

  /** Grouping, worked from the last occurrence back to the first: an
      occurrence followed the next day by one of the same type absorbs it
      and takes its end (or its day when it has none). */
  function Group(xs: seq<Occurrence>): (r: seq<Occurrence>)
    ensures |r| <= |xs| && (|xs| > 0 ==> |r| > 0 && r[0].start == xs[0].start && r[0].event == xs[0].event)
  {
    if |xs| <= 1 then xs
    else
      var g := Group(xs[1..]);
      if Follows(xs[0], g[0]) then [Absorbed(xs[0], g[0])] + g[1..]
      else [xs[0]] + g
  }

  /** `res[i-1][1] = lastDate or currentDate`: prev takes cur's end, or
      cur's day when cur is a single day. */
  function Absorbed(prev: Occurrence, cur: Occurrence): Occurrence
  {
    prev.(end := Some(cur.end.GetOr(cur.start)))
  }

  /** The merging loop of `getEventsByType`. */
  method GroupSpanned(xs: seq<Occurrence>) returns (res: seq<Occurrence>)
    ensures res == Group(xs)
  {
    res := xs;
    var i := |res| - 1;
    if i < 0 {
      return;
    }
    assert xs[i..] == [xs[i]];
    while i > 0
      invariant 0 <= i < |xs|
      invariant res == xs[..i] + Group(xs[i..])
    {
      GroupBack(xs, i, res);
      var currentDate := res[i].start;
      var lastDate := res[i].end;
      var previousDate := res[i - 1].start;
      if Valid(currentDate) && previousDate == Prev(currentDate) && res[i - 1].event.eventType == res[i].event.eventType {
        res := res[..i - 1] + [res[i - 1].(end := Some(lastDate.GetOr(currentDate)))] + res[i + 1..];
      }
      i := i - 1;
    }
    assert xs[0..] == xs;
  }

  /** One step of the merging loop: position i - 1 is merged with the group
      after it when that group follows it. */
  lemma GroupBack(xs: seq<Occurrence>, i: nat, res: seq<Occurrence>)
    requires 0 < i < |xs| && res == xs[..i] + Group(xs[i..])
    ensures |res| > i && res[i - 1] == xs[i - 1]
    ensures Follows(res[i - 1], res[i]) ==>
      res[..i - 1] + [Absorbed(res[i - 1], res[i])] + res[i + 1..] == xs[..i - 1] + Group(xs[i - 1..])
    ensures !Follows(res[i - 1], res[i]) ==> res == xs[..i - 1] + Group(xs[i - 1..])
  {
    var g := Group(xs[i..]);
    assert xs[i - 1..][1..] == xs[i..];
    assert res[i..] == g && res[i + 1..] == g[1..];
    assert xs[..i] == xs[..i - 1] + [xs[i - 1]];
  }

  /** A well-formed result entry: a valid day, and a valid last day after it
      when the entry is a group. */
  predicate Shaped(o: Occurrence)
  {
    Valid(o.start) && (o.end.Some? ==> Valid(o.end.value) && DayNumber(o.end.value) > DayNumber(o.start))
  }

  predicate AllShaped(gs: seq<Occurrence>)
  {
    forall i :: 0 <= i < |gs| ==> Shaped(gs[i])
  }

  /** The single-day occurrences an entry stands for. */
  function Days(o: Occurrence): (r: seq<Occurrence>)
    requires Shaped(o)
  {
    var n := if o.end.None? then 1 else DayNumber(o.end.value) - DayNumber(o.start) + 1;
    seq(n, i requires 0 <= i < n => Occurrence(AddDays(o.start, i), None, o.event))
  }

  /** Every entry expanded back into its days. */
  function Ungroup(gs: seq<Occurrence>): seq<Occurrence>
    requires AllShaped(gs)
  {
    if gs == [] then [] else Days(gs[0]) + Ungroup(gs[1..])
  }

  /** Single-day occurrences on valid days, as collected before grouping. */
  predicate Single(xs: seq<Occurrence>)
  {
    forall i :: 0 <= i < |xs| ==> xs[i].end == None && Valid(xs[i].start)
  }

  /** Grouping single-day occurrences gives well-formed entries. */
  lemma {:induction false} GroupShaped(xs: seq<Occurrence>)
    requires Single(xs)
    ensures AllShaped(Group(xs))
  {
    if |xs| > 1 {
      var g := Group(xs[1..]);
      GroupShaped(xs[1..]);
      assert Single(xs[1..]);
      if Follows(xs[0], g[0]) {
        MergedShaped(xs[0], g);
      } else {
        ConsShaped(xs[0], g);
      }
    }
  }

  /** Grouping loses nothing: expanding its entries gives back the
      occurrences grouped. */
  lemma {:induction false} GroupRoundTrip(xs: seq<Occurrence>)
    requires Single(xs)
    ensures AllShaped(Group(xs))
    ensures Ungroup(Group(xs)) == xs
  {
    GroupShaped(xs);
    if |xs| == 1 {
      UngroupCons(xs[0], []);
    } else if |xs| > 1 {
      var x := xs[0];
      var g := Group(xs[1..]);
      GroupRoundTrip(xs[1..]);
      if Follows(x, g[0]) {
        UngroupMerged(x, g);
      } else {
        UngroupCons(x, g);
      }
      assert xs == [x] + xs[1..];
    }
  }

  /** A single-day occurrence in front expands to itself. */
  lemma UngroupCons(x: Occurrence, g: seq<Occurrence>)
    requires x.end == None && Valid(x.start)
    requires AllShaped(g)
    ensures AllShaped([x] + g)
    ensures Ungroup([x] + g) == [x] + Ungroup(g)
  {
    assert Days(x) == [x];
    assert ([x] + g)[1..] == g;
  }

  /** An occurrence absorbing the first group expands to itself followed by
      the group's days. */
  lemma UngroupMerged(x: Occurrence, g: seq<Occurrence>)
    requires x.end == None && Valid(x.start) && g != [] && Follows(x, g[0])
    requires AllShaped(g)
    ensures AllShaped([Absorbed(x, g[0])] + g[1..])
    ensures Ungroup([Absorbed(x, g[0])] + g[1..]) == [x] + Ungroup(g)
  {
    var r := [Absorbed(x, g[0])] + g[1..];
    MergedShaped(x, g);
    Absorb(x, g[0]);
    assert r[1..] == g[1..];
    UngroupFront(r);
    UngroupFront(g);
    Lists.ConcatAssoc([x], Days(g[0]), Ungroup(g[1..]));
  }

  lemma MergedShaped(x: Occurrence, g: seq<Occurrence>)
    requires x.end == None && Valid(x.start) && g != [] && Follows(x, g[0])
    requires AllShaped(g)
    ensures AllShaped([Absorbed(x, g[0])] + g[1..])
  {
    var r := [Absorbed(x, g[0])] + g[1..];
    AbsorbedShaped(x, g[0]);
    assert r[1..] == g[1..];
    assert AllShaped(g[1..]);
  }

  lemma ConsShaped(x: Occurrence, g: seq<Occurrence>)
    requires x.end == None && Valid(x.start)
    requires AllShaped(g)
    ensures AllShaped([x] + g)
  {
    assert ([x] + g)[1..] == g;
  }

  lemma UngroupFront(gs: seq<Occurrence>)
    requires gs != [] && AllShaped(gs)
    ensures AllShaped(gs[1..])
    ensures Ungroup(gs) == Days(gs[0]) + Ungroup(gs[1..])
  {
  }

  /** An occurrence absorbing the group that starts the next day stands for
      its own day followed by that group's days. */
  lemma AbsorbedShaped(x: Occurrence, g0: Occurrence)
    requires x.end == None && Valid(x.start) && Shaped(g0) && Follows(x, g0)
    ensures Shaped(Absorbed(x, g0))
  {
    assert g0.start == Next(x.start);
    DayNumberNext(x.start);
  }

  lemma Absorb(x: Occurrence, g0: Occurrence)
    requires x.end == None && Valid(x.start) && Shaped(g0) && Follows(x, g0)
    ensures Shaped(Absorbed(x, g0))
    ensures Days(Absorbed(x, g0)) == [x] + Days(g0)
  {
    var merged := Absorbed(x, g0);
    assert g0.start == Next(x.start);
    DayNumberNext(x.start);
    assert g0.event == x.event;
    var days, rest := Days(merged), Days(g0);
    assert |days| == 1 + |rest|;
    forall i | 0 <= i < |days|
      ensures days[i] == ([x] + rest)[i]
    {
      if i > 0 {
        AddDaysAdd(x.start, 1, i - 1);
      }
    }
  }

  /** The inner loop of `getEventsByType`: the events of one day that pass
      the type filter, in their stored order. */
  method KeepEvents(day: Date, events: seq<Event>, eventType: Option<string>) returns (kept: seq<Occurrence>)
    ensures kept == Kept(day, events, eventType)
  {
    kept := [];
    var j := 0;
    while j < |events|
      invariant 0 <= j <= |events|
      invariant kept == Kept(day, events[..j], eventType)
    {
      var event := events[j];
      assert events[..j + 1][..j] == events[..j];
      if Wanted(event, eventType) {
        kept := kept + [Occurrence(day, None, event)];
      }
      j := j + 1;
    }
    assert events[..j] == events;
  }

  /** `getEventsByType`: the events of a type (all of them for no type)
      within the bounds, day after day; grouped into spans on request, which
      needs the sorted order. */
  method GetEventsByType(store: EventStore, eventType: Option<string>, minDate: Option<Date>, maxDate: Option<Date>,
                         sorted: bool, groupSpanned: bool) returns (r: Result<seq<Occurrence>, string>)
    requires store.Valid()
    ensures groupSpanned && !sorted ==> r == Err("Exception")
    ensures !(groupSpanned && !sorted) ==> r == Ok(
      if groupSpanned then Group(Matching(store.entries, eventType, minDate, maxDate))
      else Matching(store.entries, eventType, minDate, maxDate))
  {
    if groupSpanned && !sorted {
      return Err("Exception");
    }
    var res: seq<Occurrence> := [];
    var es := store.entries;
    var i := 0;
    while i < |es|
      invariant 0 <= i <= |es|
      invariant res == Matching(es[..i], eventType, minDate, maxDate)
    {
      var (day, events) := es[i];
      assert es[..i + 1][..i] == es[..i];
      if WithinBounds(day, minDate, maxDate) {
        var kept := KeepEvents(day, events, eventType);
        res := res + kept;
      }
      i := i + 1;
    }
    assert es[..i] == es;
    if sorted {
      // The days come in increasing order: sorting by date keeps the list.
      MatchingChronological(es, eventType, minDate, maxDate);
    }
    if groupSpanned {
      res := GroupSpanned(res);
    }
    return Ok(res);
  }

  // ------------------------------------------------------------ timeline

  /** A cell of the timeline's month row: the month, how many days it
      covers, and the year of its first day. */
  datatype MonthSpan = MonthSpan(month: int, colspan: nat, year: int)

  /** The month row for the days of a grid, built day after day. */
  function Spans(grid: seq<Date>): (r: seq<MonthSpan>)
    ensures |grid| > 0 ==> |r| > 0 && r[|r| - 1].month == grid[|grid| - 1].month
  {
    if grid == [] then [] else SpanStep(Spans(grid[..|grid| - 1]), grid[|grid| - 1])
  }

  /** One day of the month row: widen the last cell when the day is of its
      month, open a new cell otherwise. */
  function SpanStep(res: seq<MonthSpan>, date: Date): (r: seq<MonthSpan>)
    ensures |r| > 0 && r[|r| - 1].month == date.month
  {
    if res != [] && res[|res| - 1].month == date.month then
      res[..|res| - 1] + [res[|res| - 1].(colspan := res[|res| - 1].colspan + 1)]
    else res + [MonthSpan(date.month, 1, date.year)]
  }

  /** `getTimelineMonths`, without the translated month names. */
  method TimelineMonths(grid: seq<Date>) returns (res: seq<MonthSpan>)
    ensures res == Spans(grid)
  {
    res := [];
    var i := 0;
    while i < |grid|
      invariant 0 <= i <= |grid|
      invariant res == Spans(grid[..i])
    {
      var date := grid[i];
      SpansPrefix(grid, i);
      ghost var before := res;
      if res == [] {
        res := [MonthSpan(date.month, 1, date.year)];
      } else {
        var current := res[|res| - 1];
        if date.month == current.month {
          res := res[..|res| - 1] + [current.(colspan := current.colspan + 1)];
        } else {
          res := res + [MonthSpan(date.month, 1, date.year)];
        }
      }
      assert res == SpanStep(before, date);
      i := i + 1;
    }
    assert grid[..i] == grid;
  }

  lemma SpansPrefix(grid: seq<Date>, i: nat)
    requires i < |grid|
    ensures Spans(grid[..i + 1]) == SpanStep(Spans(grid[..i]), grid[i])
  {
    assert grid[..i + 1][..i] == grid[..i];
  }

  /** The month of every day, in order. */
  function MonthsOf(grid: seq<Date>): (r: seq<int>)
    ensures |r| == |grid|
  {
    seq(|grid|, i requires 0 <= i < |grid| => grid[i].month)
  }

  /** Each cell repeated over its columns. */
  function Columns(spans: seq<MonthSpan>): (r: seq<int>)
  {
    if spans == [] then [] else Columns(spans[..|spans| - 1]) + seq(spans[|spans| - 1].colspan, _ => spans[|spans| - 1].month)
  }

  /** The cells cover the grid column by column: each day falls under the
      cell of its month, so the colspans add up to the number of days. */
  lemma {:induction false} SpansCover(grid: seq<Date>)
    ensures Columns(Spans(grid)) == MonthsOf(grid)
    decreases |grid|
  {
    if grid != [] {
      var init := grid[..|grid| - 1];
      var date := grid[|grid| - 1];
      SpansCover(init);
      ColumnsStep(Spans(init), date);
      assert MonthsOf(grid) == MonthsOf(init) + [date.month];
    }
  }

  /** One more day adds one column, under its month. */
  lemma ColumnsStep(res: seq<MonthSpan>, date: Date)
    ensures Columns(SpanStep(res, date)) == Columns(res) + [date.month]
  {
    var r := SpanStep(res, date);
    if res != [] && res[|res| - 1].month == date.month {
      var last := res[|res| - 1];
      assert r[..|r| - 1] == res[..|res| - 1];
      assert seq(last.colspan + 1, _ => last.month) == seq(last.colspan, _ => last.month) + [date.month];
      Lists.ConcatAssoc(Columns(res[..|res| - 1]), seq(last.colspan, _ => last.month), [date.month]);
    } else {
      assert r[..|r| - 1] == res;
      assert seq(1, _ => date.month) == [date.month];
    }
  }

  /** Neighbouring cells are different months and every cell covers at
      least one day. */
  lemma {:induction false} SpansAlternate(grid: seq<Date>)
    ensures forall i :: 0 <= i < |Spans(grid)| ==> Spans(grid)[i].colspan >= 1
    ensures forall i :: 0 < i < |Spans(grid)| ==> Spans(grid)[i - 1].month != Spans(grid)[i].month
    decreases |grid|
  {
    if grid != [] {
      SpansAlternate(grid[..|grid| - 1]);
    }
  }
}
