/** Calendar days as the DateTime values the calendars handle, reduced to
    their (year, month, day): the proleptic Gregorian calendar, a successor
    and predecessor, a day number counted from 0001-01-01 and the day of the
    week numbered as DateTime's `dow()` (0 is Sunday). */
module Dates {

  datatype Date = Date(year: int, month: int, day: int)

  predicate IsLeap(y: int)
  {
    y % 4 == 0 && (y % 100 != 0 || y % 400 == 0)
  }

  function DaysInMonth(y: int, m: int): (r: int)
    requires 1 <= m <= 12
    ensures 28 <= r <= 31
  {
    if m == 2 then (if IsLeap(y) then 29 else 28)
    else if m == 4 || m == 6 || m == 9 || m == 11 then 30
    else 31
  }

  predicate Valid(d: Date)
  {
    1 <= d.month <= 12 && 1 <= d.day <= DaysInMonth(d.year, d.month)
  }

  /** The next day (`date + 1`). */
  function Next(d: Date): (r: Date)
    requires Valid(d)
    ensures Valid(r)
  {
    if d.day < DaysInMonth(d.year, d.month) then Date(d.year, d.month, d.day + 1)
    else if d.month < 12 then Date(d.year, d.month + 1, 1)
    else Date(d.year + 1, 1, 1)
  }

  /** The previous day (`date - 1`). */
  function Prev(d: Date): (r: Date)
    requires Valid(d)
    ensures Valid(r) && Next(r) == d
  {
    if d.day > 1 then Date(d.year, d.month, d.day - 1)
    else if d.month > 1 then Date(d.year, d.month - 1, DaysInMonth(d.year, d.month - 1))
    else Date(d.year - 1, 12, 31)
  }

  lemma PrevOfNext(d: Date)
    requires Valid(d)
    ensures Prev(Next(d)) == d
  {
  }

  /** Chronological order, which is the order of (year, month, day). */
  predicate Before(a: Date, b: Date)
  {
    a.year < b.year || (a.year == b.year && (a.month < b.month || (a.month == b.month && a.day < b.day)))
  }

  lemma BeforeTransitive(a: Date, b: Date, c: Date)
    requires Before(a, b) && Before(b, c)
    ensures Before(a, c)
  {
  }

  lemma BeforeNext(d: Date)
    requires Valid(d)
    ensures Before(d, Next(d))
  {
  }

  /** Days of year y before the 1st of month m (m = 13: the whole year). */
  function DaysBeforeMonth(y: int, m: int): int
    requires 1 <= m <= 13
  {
    [0, 31, 59, 90, 120, 151, 181, 212, 243, 273, 304, 334, 365][m - 1] + (if m > 2 && IsLeap(y) then 1 else 0)
  }

  lemma MonthLength(y: int, m: int)
    requires 1 <= m <= 12
    ensures DaysBeforeMonth(y, m + 1) == DaysBeforeMonth(y, m) + DaysInMonth(y, m)
  {
  }

  /** Days of the years before y, counted from year 1 (negative for y < 1). */
  function DaysBeforeYear(y: int): int
  {
    365 * (y - 1) + (y - 1) / 4 - (y - 1) / 100 + (y - 1) / 400
  }

  lemma YearLength(y: int)
    ensures DaysBeforeYear(y + 1) == DaysBeforeYear(y) + DaysBeforeMonth(y, 13)
  {
    assert y / 4 == (y - 1) / 4 + (if y % 4 == 0 then 1 else 0);
    assert y / 100 == (y - 1) / 100 + (if y % 100 == 0 then 1 else 0);
    assert y / 400 == (y - 1) / 400 + (if y % 400 == 0 then 1 else 0);
  }

  /** Days since 0001-01-01 (negative before it). */
  function DayNumber(d: Date): int
    requires 1 <= d.month <= 12
  {
    DaysBeforeYear(d.year) + DaysBeforeMonth(d.year, d.month) + d.day - 1
  }

  lemma DayNumberNext(d: Date)
    requires Valid(d)
    ensures DayNumber(Next(d)) == DayNumber(d) + 1
  {
    if d.day == DaysInMonth(d.year, d.month) {
      MonthLength(d.year, d.month);
      if d.month == 12 {
        YearLength(d.year);
      }
    }
  }

  /** DateTime's `dow()`: 0 for Sunday up to 6 for Saturday; 0001-01-01 is a
      Monday. */
  function Weekday(d: Date): (r: int)
    requires 1 <= d.month <= 12
    ensures 0 <= r < 7
  {
    (DayNumber(d) + 1) % 7
  }

  /** `date + k`. */
  function AddDays(d: Date, k: nat): (r: Date)
    requires Valid(d)
    ensures Valid(r)
  {
    if k == 0 then d else Next(AddDays(d, k - 1))
  }

  /** `date - k`. */
  function Back(d: Date, k: nat): (r: Date)
    requires Valid(d)
    ensures Valid(r)
  {
    if k == 0 then d else Prev(Back(d, k - 1))
  }

  lemma {:induction false} AddDaysNumber(d: Date, k: nat)
    requires Valid(d)
    ensures DayNumber(AddDays(d, k)) == DayNumber(d) + k
  {
    if k > 0 {
      AddDaysNumber(d, k - 1);
      DayNumberNext(AddDays(d, k - 1));
    }
  }

  lemma {:induction false} AddDaysAdd(d: Date, a: nat, b: nat)
    requires Valid(d)
    ensures AddDays(AddDays(d, a), b) == AddDays(d, a + b)
  {
    if b > 0 {
      AddDaysAdd(d, a, b - 1);
    }
  }

  lemma {:induction false} AddDaysBack(d: Date, k: nat)
    requires Valid(d)
    ensures AddDays(Back(d, k), k) == d
  {
    if k > 0 {
      var b := Back(d, k - 1);
      AddDaysAdd(Prev(b), 1, k - 1);
      AddDaysBack(d, k - 1);
    }
  }

  lemma {:induction false} AddDaysLater(d: Date, k: nat)
    requires Valid(d) && k > 0
    ensures Before(d, AddDays(d, k))
  {
    if k > 1 {
      AddDaysLater(d, k - 1);
      BeforeNext(AddDays(d, k - 1));
      BeforeTransitive(d, AddDays(d, k - 1), AddDays(d, k));
    }
  }

  /** Adding days without leaving the month only moves the day number. */
  lemma {:induction false} AddDaysInMonth(d: Date, k: nat)
    requires Valid(d) && d.day + k <= DaysInMonth(d.year, d.month)
    ensures AddDays(d, k) == Date(d.year, d.month, d.day + k)
  {
    if k > 0 {
      AddDaysInMonth(d, k - 1);
    }
  }

  /** The first day of the month following (y, m). */
  function NextMonthStart(y: int, m: int): (r: Date)
    requires 1 <= m <= 12
    ensures Valid(r) && r.day == 1
    ensures r.month != m
  {
    if m < 12 then Date(y, m + 1, 1) else Date(y + 1, 1, 1)
  }

  /** Walking day by day from the 1st visits the days of the month in order,
      then leaves the month. */
  lemma MonthWalk(y: int, m: int, k: nat)
    requires 1 <= m <= 12 && k <= DaysInMonth(y, m)
    ensures k < DaysInMonth(y, m) ==> AddDays(Date(y, m, 1), k) == Date(y, m, k + 1)
    ensures k == DaysInMonth(y, m) ==> AddDays(Date(y, m, 1), k) == NextMonthStart(y, m)
  {
    if k < DaysInMonth(y, m) {
      AddDaysInMonth(Date(y, m, 1), k);
    } else {
      AddDaysInMonth(Date(y, m, 1), k - 1);
    }
  }

  /** The weekday of `date + k` goes round the week. */
  lemma AddDaysWeekday(d: Date, k: nat)
    requires Valid(d)
    ensures Weekday(AddDays(d, k)) == (Weekday(d) + k) % 7
  {
    AddDaysNumber(d, k);
    ModWeek(DayNumber(d) + 1, k);
  }

  lemma ModWeek(a: int, k: int)
    ensures (a + k) % 7 == (a % 7 + k) % 7
  {
    var q := a / 7;
    assert a == 7 * q + a % 7;
    assert a + k == 7 * q + (a % 7 + k);
  }

  /** DateTime's `aDay()` names. */
  const DayNames: seq<string> := ["Sun", "Mon", "Tue", "Wed", "Thu", "Fri", "Sat"]

  function DayName(d: Date): string
    requires 1 <= d.month <= 12
  {
    DayNames[Weekday(d)]
  }
}
