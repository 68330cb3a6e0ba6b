/** The grid of days a calendar shows for a month: whole weeks from the
    Monday on or before the 1st to the Sunday on or after the last day, as
    one list (timeline) or cut into rows of seven (month view). Both calendar
    fields build it in loops; this module is what those loops are proved to
    produce. */
module Grids {
  import opened Dates

  function FirstDay(y: int, m: int): Date
  {
    Date(y, m, 1)
  }

  /** Days of the previous month shown before the 1st: the `dayOneNb - 1` of
      the source, where `dayOneNb` is `dow()` with Sunday counted as 7. */
  function Lead(y: int, m: int): (r: nat)
    requires 1 <= m <= 12
    ensures r < 7
  {
    (Weekday(FirstDay(y, m)) + 6) % 7
  }

  /** Days of the next month shown after the last day, up to a Sunday. */
  function Trail(y: int, m: int): (r: nat)
    requires 1 <= m <= 12
    ensures r < 7
  {
    (7 - (Lead(y, m) + DaysInMonth(y, m)) % 7) % 7
  }

  function GridLength(y: int, m: int): nat
    requires 1 <= m <= 12
  {
    Lead(y, m) + DaysInMonth(y, m) + Trail(y, m)
  }

  function GridStart(y: int, m: int): (r: Date)
    requires 1 <= m <= 12
    ensures Valid(r)
  {
    Back(FirstDay(y, m), Lead(y, m))
  }

  /** The days of the grid, day after day from the grid's start. */
  function GridDays(y: int, m: int): (r: seq<Date>)
    requires 1 <= m <= 12
    ensures |r| == GridLength(y, m)
  {
    seq(GridLength(y, m), i requires 0 <= i < GridLength(y, m) => AddDays(GridStart(y, m), i))
  }

  /** The days of the month, in order. */
  function MonthDays(y: int, m: int): (r: seq<Date>)
    requires 1 <= m <= 12
    ensures |r| == DaysInMonth(y, m)
    ensures forall j :: 0 <= j < |r| ==> r[j] == Date(y, m, j + 1)
  {
    seq(DaysInMonth(y, m), j => Date(y, m, j + 1))
  }

  lemma LeadReachesFirst(y: int, m: int)
    requires 1 <= m <= 12
    ensures AddDays(GridStart(y, m), Lead(y, m)) == FirstDay(y, m)
  {
    AddDaysBack(FirstDay(y, m), Lead(y, m));
  }

  /** The grid starts on a Monday. */
  lemma StartIsMonday(y: int, m: int)
    ensures 1 <= m <= 12 ==> Weekday(GridStart(y, m)) == 1
  {
    if 1 <= m <= 12 {
      LeadReachesFirst(y, m);
      AddDaysWeekday(GridStart(y, m), Lead(y, m));
      WeekArithmetic(Weekday(GridStart(y, m)), Weekday(FirstDay(y, m)));
    }
  }

  lemma WeekArithmetic(w0: int, w1: int)
    requires 0 <= w0 < 7 && 0 <= w1 < 7
    requires w1 == (w0 + (w1 + 6) % 7) % 7
    ensures w0 == 1
  {
  }

  /** The day at position i of the grid (or past its end) has weekday
      (i + 1) mod 7: Mondays at 0, 7, 14 ... and Sundays at 6, 13, 20 ... */
  lemma WeekdayAt(y: int, m: int, i: nat)
    requires 1 <= m <= 12
    ensures Weekday(AddDays(GridStart(y, m), i)) == (i + 1) % 7
  {
    StartIsMonday(y, m);
    AddDaysWeekday(GridStart(y, m), i);
  }

  /** Position Lead + j of the grid is day j + 1 of the month. */
  lemma MonthDayAt(y: int, m: int, j: nat)
    requires 1 <= m <= 12
    ensures j < DaysInMonth(y, m) ==> AddDays(GridStart(y, m), Lead(y, m) + j) == Date(y, m, j + 1)
    ensures j == DaysInMonth(y, m) ==> AddDays(GridStart(y, m), Lead(y, m) + j) == NextMonthStart(y, m)
  {
    if j <= DaysInMonth(y, m) {
      AddDaysAdd(GridStart(y, m), Lead(y, m), j);
      LeadReachesFirst(y, m);
      MonthWalk(y, m, j);
    }
  }

  /** The grid is made of whole weeks: it starts on a Monday and ends on a
      Sunday. */
  lemma GridWeeks(y: int, m: int)
    requires 1 <= m <= 12
    ensures |GridDays(y, m)| % 7 == 0 && |GridDays(y, m)| >= 28
    ensures Weekday(GridDays(y, m)[0]) == 1
    ensures Weekday(GridDays(y, m)[|GridDays(y, m)| - 1]) == 0
  {
    var n := GridLength(y, m);
    WeekdayAt(y, m, 0);
    WeekdayAt(y, m, n - 1);
    WeeksArithmetic(Lead(y, m) + DaysInMonth(y, m), Trail(y, m));
  }

  lemma WeeksArithmetic(a: int, t: int)
    requires a >= 28 && t == (7 - a % 7) % 7
    ensures (a + t) % 7 == 0 && (a + t - 1 + 1) % 7 == 0
  {
  }

  /** The grid shows one day after the other. */
  lemma GridConsecutive(y: int, m: int)
    requires 1 <= m <= 12
    ensures forall i :: 0 <= i < |GridDays(y, m)| - 1 ==> GridDays(y, m)[i + 1] == Next(GridDays(y, m)[i])
  {
  }

  /** Every day of the month appears in the grid, in order, as one
      contiguous run. */
  lemma GridHoldsMonth(y: int, m: int)
    requires 1 <= m <= 12
    ensures GridDays(y, m)[Lead(y, m)..Lead(y, m) + DaysInMonth(y, m)] == MonthDays(y, m)
  {
    var g := GridDays(y, m);
    var lead := Lead(y, m);
    var len := DaysInMonth(y, m);
    var run := g[lead..lead + len];
    forall j | 0 <= j < len
      ensures run[j] == Date(y, m, j + 1)
    {
      MonthDayAt(y, m, j);
    }
    assert run == MonthDays(y, m);
  }

  /** The days shown before or after that run belong to other months, so
      each day of the month appears exactly once. */
  lemma GridOthersOutsideMonth(y: int, m: int)
    requires 1 <= m <= 12
    ensures forall i :: 0 <= i < |GridDays(y, m)| && (i < Lead(y, m) || i >= Lead(y, m) + DaysInMonth(y, m)) ==>
      !(GridDays(y, m)[i].year == y && GridDays(y, m)[i].month == m)
  {
    var g := GridDays(y, m);
    forall i | 0 <= i < |g| && (i < Lead(y, m) || i >= Lead(y, m) + DaysInMonth(y, m))
      ensures !(g[i].year == y && g[i].month == m)
    {
      if i < Lead(y, m) {
        LeadOutsideMonth(y, m, i);
      } else {
        TrailOutsideMonth(y, m, i);
      }
    }
  }

  lemma LeadOutsideMonth(y: int, m: int, i: nat)
    requires 1 <= m <= 12 && i < Lead(y, m)
    ensures Before(AddDays(GridStart(y, m), i), FirstDay(y, m))
  {
    var lead := Lead(y, m);
    LeadReachesFirst(y, m);
    AddDaysAdd(GridStart(y, m), i, lead - i);
    AddDaysLater(AddDays(GridStart(y, m), i), lead - i);
  }

  lemma TrailOutsideMonth(y: int, m: int, i: nat)
    requires 1 <= m <= 12 && i >= Lead(y, m) + DaysInMonth(y, m)
    ensures Before(Date(y, m, DaysInMonth(y, m)), AddDays(GridStart(y, m), i))
  {
    var last := Lead(y, m) + DaysInMonth(y, m) - 1;
    MonthDayAt(y, m, DaysInMonth(y, m) - 1);
    AddDaysAdd(GridStart(y, m), last, i - last);
    AddDaysLater(Date(y, m, DaysInMonth(y, m)), i - last);
  }

  /** Size of the last row when n days are cut into rows of seven. */
  function Tail(n: nat): (r: nat)
    requires n > 0
    ensures 1 <= r <= 7
  {
    if n % 7 == 0 then 7 else n % 7
  }

  /** A list cut into rows of seven, the last row holding what is left. */
  function Rows<T>(s: seq<T>): (r: seq<seq<T>>)
    ensures |r| >= 1
    decreases |s|
  {
    if |s| <= 7 then [s]
    else
      var k := |s| - Tail(|s|);
      Rows(s[..k]) + [s[k..]]
  }

  function Flatten<T>(rows: seq<seq<T>>): seq<T>
  {
    if rows == [] then [] else Flatten(rows[..|rows| - 1]) + rows[|rows| - 1]
  }

  /** Reading the rows one after the other gives back the list. */
  lemma {:induction false} RowsFlatten<T>(s: seq<T>)
    ensures Flatten(Rows(s)) == s
    decreases |s|
  {
    if |s| > 7 {
      var k := |s| - Tail(|s|);
      var r := Rows(s[..k]) + [s[k..]];
      assert r[..|r| - 1] == Rows(s[..k]);
      RowsFlatten(s[..k]);
      assert s[..k] + s[k..] == s;
    } else {
      assert [s][..0] == [];
    }
  }

  /** A list of whole weeks is cut into rows of exactly seven. */
  lemma {:induction false} RowsOfWeeks<T>(s: seq<T>)
    requires |s| > 0 && |s| % 7 == 0
    ensures forall i :: 0 <= i < |Rows(s)| ==> |Rows(s)[i]| == 7
    decreases |s|
  {
    if |s| > 7 {
      var k := |s| - 7;
      RowsOfWeeks(s[..k]);
    }
  }

  /** The last row holds Tail(|s|) elements. */
  lemma LastRow<T>(s: seq<T>)
    ensures |Rows(s)[|Rows(s)| - 1]| == if s == [] then 0 else Tail(|s|)
  {
  }

  /** Adding one element to whole rows opens a new row: the step of the
      month grid loops when the last row is full. */
  lemma RowsAppendFull<T>(s: seq<T>, x: T)
    requires |s| > 0 && |s| % 7 == 0
    ensures Rows(s + [x]) == Rows(s) + [[x]]
  {
    var t := s + [x];
    assert Tail(|t|) == 1;
    assert t[..|s|] == s && t[|s|..] == [x];
  }

  /** Otherwise the element extends the last row. */
  lemma RowsAppendPartial<T>(s: seq<T>, x: T)
    requires !(|s| > 0 && |s| % 7 == 0)
    ensures Rows(s + [x]) == Rows(s)[..|Rows(s)| - 1] + [Rows(s)[|Rows(s)| - 1] + [x]]
  {
    var t := s + [x];
    if |s| > 7 {
      var k := |s| - Tail(|s|);
      assert Tail(|t|) == Tail(|s|) + 1;
      assert t[..k] == s[..k];
      assert t[k..] == s[k..] + [x];
      assert Rows(s) == Rows(s[..k]) + [s[k..]];
    }
  }
}
