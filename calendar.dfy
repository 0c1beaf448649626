/** Calendar dates and timestamps of the receipts table (a polars
    `Datetime` without seconds), with the projections the pages use:
    the calendar date (`dt.date()`), the month (`dt.truncate("1mo")`) and
    the instant as a count of minutes, which gives the order in which
    timestamps compare and the durations between them. */
module Calendar {

  datatype Date = Date(year: int, month: int, day: int)

  datatype DateTime = DateTime(date: Date, hour: int, minute: int)

  /** Gregorian leap years. */
  predicate IsLeapYear(y: int) {
    y % 4 == 0 && (y % 100 != 0 || y % 400 == 0)
  }

  function DaysInMonth(y: int, m: int): int
    requires 1 <= m <= 12
  {
    if m == 2 then (if IsLeapYear(y) then 29 else 28)
    else if m == 4 || m == 6 || m == 9 || m == 11 then 30
    else 31
  }

  predicate ValidDate(d: Date) {
    1 <= d.month <= 12 && 1 <= d.day <= DaysInMonth(d.year, d.month)
  }

  predicate ValidDateTime(t: DateTime) {
    ValidDate(t.date) && 0 <= t.hour < 24 && 0 <= t.minute < 60
  }

  type CalendarDate = d: Date | ValidDate(d) witness Date(1970, 1, 1)

  type Timestamp = t: DateTime | ValidDateTime(t) witness DateTime(Date(1970, 1, 1), 0, 0)

  function YearLength(y: int): int {
    if IsLeapYear(y) then 366 else 365
  }

  /** Days from 1970-01-01 to January 1st of year `y`. */
  function YearStart(y: int): int
    decreases if y < 1970 then 1970 - y else y - 1970
  {
    if y == 1970 then 0
    else if y > 1970 then YearStart(y - 1) + YearLength(y - 1)
    else YearStart(y + 1) - YearLength(y)
  }

  lemma YearStartStep(y: int)
    ensures YearStart(y + 1) == YearStart(y) + YearLength(y)
  {
  }

  /** Days from January 1st to the first day of month `m`. */
  function MonthOffset(y: int, m: int): int
    requires 1 <= m <= 12
  {
    var common :=
      if m == 1 then 0 else if m == 2 then 31 else if m == 3 then 59
      else if m == 4 then 90 else if m == 5 then 120 else if m == 6 then 151
      else if m == 7 then 181 else if m == 8 then 212 else if m == 9 then 243
      else if m == 10 then 273 else if m == 11 then 304 else 334;
    common + (if m > 2 && IsLeapYear(y) then 1 else 0)
  }

  /** Days from 1970-01-01 to the first day of month `m` of year `y`. */
  function MonthStart(y: int, m: int): int
    requires 1 <= m <= 12
  {
    YearStart(y) + MonthOffset(y, m)
  }

  /** The month as a single number, `year * 12 + month - 1`, so that
      consecutive months are consecutive numbers (`dt.truncate("1mo")`). */
  function MonthIndex(d: Date): int {
    d.year * 12 + d.month - 1
  }

  /** Days since 1970-01-01. */
  function DayNumber(d: CalendarDate): int {
    MonthStart(d.year, d.month) + d.day - 1
  }

  /** Minutes since 1970-01-01 00:00: timestamps compare by this number. */
  function Minutes(t: Timestamp): int {
    DayNumber(t.date) * 1440 + t.hour * 60 + t.minute
  }

  /** The instant at which date `d` begins (a date compared with a
      datetime column). */
  function Midnight(d: CalendarDate): int {
    DayNumber(d) * 1440
  }

  /** Whole days elapsed from `a` to `b` (`dt.total_days()` of `b - a`,
      which truncates toward zero). */
  function WholeDaysBetween(a: Timestamp, b: Timestamp): (r: int)
    ensures Minutes(a) <= Minutes(b) ==> r >= 0
    ensures Minutes(a) <= Minutes(b) ==> r * 1440 <= Minutes(b) - Minutes(a) < (r + 1) * 1440
  {
    var d := Minutes(b) - Minutes(a);
    if d >= 0 then d / 1440 else -((-d) / 1440)
  }

  /** The first day of the month after month `m` of year `y` is `DaysInMonth`
      days after the first day of month `m`. */
  lemma MonthStartNext(y: int, m: int)
    requires 1 <= m <= 12
    ensures m < 12 ==> MonthStart(y, m + 1) == MonthStart(y, m) + DaysInMonth(y, m)
    ensures m == 12 ==> MonthStart(y + 1, 1) == MonthStart(y, m) + DaysInMonth(y, m)
  {
    YearStartStep(y);
  }

  /** A later month starts after every day of an earlier month. */
  lemma {:induction false} MonthStartMonotone(y1: int, m1: int, y2: int, m2: int)
    requires 1 <= m1 <= 12 && 1 <= m2 <= 12
    requires y1 * 12 + m1 < y2 * 12 + m2
    ensures MonthStart(y1, m1) + DaysInMonth(y1, m1) <= MonthStart(y2, m2)
    decreases y2 * 12 + m2 - (y1 * 12 + m1)
  {
    var py := if m2 == 1 then y2 - 1 else y2;
    var pm := if m2 == 1 then 12 else m2 - 1;
    MonthStartNext(py, pm);
    assert MonthStart(y2, m2) == MonthStart(py, pm) + DaysInMonth(py, pm);
    if py * 12 + pm != y1 * 12 + m1 {
      MonthStartMonotone(y1, m1, py, pm);
    } else {
      assert py == y1 && pm == m1;
    }
  }

  /** Day numbers order dates as the calendar does: a later day number is
      never in an earlier month, and equal day numbers are equal dates. */
  lemma DayNumberOrder(a: CalendarDate, b: CalendarDate)
    ensures DayNumber(a) <= DayNumber(b) ==> MonthIndex(a) <= MonthIndex(b)
    ensures DayNumber(a) == DayNumber(b) ==> a == b
  {
    if MonthIndex(a) < MonthIndex(b) {
      MonthStartMonotone(a.year, a.month, b.year, b.month);
    } else if MonthIndex(b) < MonthIndex(a) {
      MonthStartMonotone(b.year, b.month, a.year, a.month);
    } else {
      assert a.year == b.year && a.month == b.month;
    }
  }

  /** A timestamp that is not later than another is not in a later month. */
  lemma MonthMonotone(a: Timestamp, b: Timestamp)
    requires Minutes(a) <= Minutes(b)
    ensures MonthIndex(a.date) <= MonthIndex(b.date)
  {
    DayNumberOrder(a.date, b.date);
  }

  /** A timestamp is at or after midnight of `d` exactly when its date is
      `d` or later. */
  lemma MidnightOrder(t: Timestamp, d: CalendarDate)
    ensures Minutes(t) >= Midnight(d) <==> DayNumber(t.date) >= DayNumber(d)
  {
  }
}
