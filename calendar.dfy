/** The calendar the scheduling rules run on. A luxon `DateTime` in one fixed
    zone is an integer day number (days since 1970-01-01, a Thursday) plus a
    time of day; its `weekday` follows luxon's numbering, 1 = Monday ... 7 = Sunday.
    A calendar date (year, month, day) maps to the same day numbers. */
module Calendar {

  datatype DateTime = DateTime(day: int, hour: int, minute: int, second: int, millisecond: int)

  const Saturday := 6
  const Sunday := 7

  predicate ValidTime(t: DateTime) {
    0 <= t.hour < 24 && 0 <= t.minute < 60 && 0 <= t.second < 60 && 0 <= t.millisecond < 1000
  }

  /** luxon's `weekday`: 1970-01-01 (day 0) is a Thursday, weekday 4. */
  function Weekday(day: int): (w: int)
    ensures 1 <= w <= 7
  {
    (day + 3) % 7 + 1
  }

  lemma WeekdayNext(day: int)
    ensures Weekday(day + 1) == if Weekday(day) == Sunday then 1 else Weekday(day) + 1
  {
  }

  /** `date.weekday < 6`: Monday to Friday. */
  predicate IsBusinessDay(day: int) {
    Weekday(day) < Saturday
  }

  /** `date.plus({ days: n })`. */
  function PlusDays(t: DateTime, n: int): (r: DateTime) {
    t.(day := t.day + n)
  }

  /** `date.set({ hour: h, minute: 0, second: 0, millisecond: 0 })`. */
  function AtHour(t: DateTime, h: int): (r: DateTime) {
    t.(hour := h, minute := 0, second := 0, millisecond := 0)
  }

  /** Milliseconds since the epoch (`toMillis()` in the fixed zone). */
  function EpochMillis(t: DateTime): (r: int) {
    (((t.day * 24 + t.hour) * 60 + t.minute) * 60 + t.second) * 1000 + t.millisecond
  }

  predicate Before(a: DateTime, b: DateTime) {
    EpochMillis(a) < EpochMillis(b)
  }

  lemma LaterDayIsLater(a: DateTime, b: DateTime)
    requires ValidTime(a) && ValidTime(b) && a.day < b.day
    ensures Before(a, b)
  {
  }

  // ---------------------------------------------------------------------------
  // Business days

  /** The number of business days in the half-open range of days [lo, hi). */
  function BusinessDaysIn(lo: int, hi: int): (r: nat)
    decreases hi - lo
  {
    if hi <= lo then 0
    else BusinessDaysIn(lo, hi - 1) + (if IsBusinessDay(hi - 1) then 1 else 0)
  }

  /** How many days lie between `day` and the next business day (0 on a business day). */
  function DaysToBusinessDay(day: int): (n: nat)
    ensures n == 0 <==> IsBusinessDay(day)
    ensures n <= 2
  {
    if Weekday(day) == Saturday then 2 else if Weekday(day) == Sunday then 1 else 0
  }

  lemma DaysToBusinessDayNext(day: int)
    requires !IsBusinessDay(day)
    ensures DaysToBusinessDay(day + 1) == DaysToBusinessDay(day) - 1
  {
    WeekdayNext(day);
  }

  /** The day on which the n-th business day falls, counting `start` itself. */
  function NthBusinessDay(start: int, n: nat): (r: int)
    requires n >= 1
    decreases n, DaysToBusinessDay(start)
  {
    if IsBusinessDay(start) then
      if n == 1 then start else NthBusinessDay(start + 1, n - 1)
    else
      DaysToBusinessDayNext(start);
      NthBusinessDay(start + 1, n)
  }

  lemma {:induction false} BusinessDaysInFront(lo: int, hi: int)
    requires lo < hi
    ensures BusinessDaysIn(lo, hi) == (if IsBusinessDay(lo) then 1 else 0) + BusinessDaysIn(lo + 1, hi)
    decreases hi - lo
  {
    if lo + 1 < hi {
      BusinessDaysInFront(lo, hi - 1);
    }
  }

  lemma {:induction false} BusinessDaysInGrows(lo: int, a: int, b: int)
    requires lo <= a <= b
    ensures BusinessDaysIn(lo, a) <= BusinessDaysIn(lo, b)
    decreases b - a
  {
    if a < b {
      BusinessDaysInGrows(lo, a, b - 1);
    }
  }

  /** NthBusinessDay(start, n) is a business day on or after `start`, with exactly
      n - 1 business days before it in the range starting at `start`. */
  lemma {:induction false} NthBusinessDayCounts(start: int, n: nat)
    requires n >= 1
    ensures var d := NthBusinessDay(start, n);
      start <= d && IsBusinessDay(d) && BusinessDaysIn(start, d) == n - 1
    decreases n, DaysToBusinessDay(start)
  {
    var d := NthBusinessDay(start, n);
    if IsBusinessDay(start) {
      if n > 1 {
        NthBusinessDayCounts(start + 1, n - 1);
        BusinessDaysInFront(start, d);
      }
    } else {
      DaysToBusinessDayNext(start);
      NthBusinessDayCounts(start + 1, n);
      BusinessDaysInFront(start, d);
    }
  }

  /** The count determines the day: a business day with n - 1 business days before
      it (counting from `start`) is NthBusinessDay(start, n). */
  lemma NthBusinessDayUnique(start: int, n: nat, d: int)
    requires n >= 1
    requires start <= d && IsBusinessDay(d) && BusinessDaysIn(start, d) == n - 1
    ensures d == NthBusinessDay(start, n)
  {
    var e := NthBusinessDay(start, n);
    NthBusinessDayCounts(start, n);
    if d < e {
      BusinessDaysInGrows(start, d + 1, e);
    } else if e < d {
      BusinessDaysInGrows(start, e + 1, d);
    }
  }

  // ---------------------------------------------------------------------------
  // Calendar dates

  datatype CivilDate = CivilDate(year: int, month: int, day: int)

  predicate IsLeapYear(y: int) {
    y % 4 == 0 && (y % 100 != 0 || y % 400 == 0)
  }

  function DaysInMonth(y: int, m: int): (r: int)
    requires 1 <= m <= 12
  {
    if m == 2 then (if IsLeapYear(y) then 29 else 28)
    else if m == 4 || m == 6 || m == 9 || m == 11 then 30
    else 31
  }

  predicate ValidCivil(d: CivilDate) {
    1 <= d.month <= 12 && 1 <= d.day <= DaysInMonth(d.year, d.month)
  }

  /** Lexicographic order on (year, month, day). */
  predicate CivilBefore(a: CivilDate, b: CivilDate) {
    a.year < b.year
    || (a.year == b.year && a.month < b.month)
    || (a.year == b.year && a.month == b.month && a.day < b.day)
  }

  /** Leap years among 1..n (shifted consistently for n < 1). */
  function LeapsThrough(n: int): (r: int) {
    n / 4 - n / 100 + n / 400
  }

  function DaysBeforeYear(y: int): (r: int) {
    365 * (y - 1970) + LeapsThrough(y - 1) - LeapsThrough(1969)
  }

  function DaysBeforeMonth(y: int, m: int): (r: int)
    requires 1 <= m <= 12
  {
    [0, 31, 59, 90, 120, 151, 181, 212, 243, 273, 304, 334][m - 1]
    + (if m > 2 && IsLeapYear(y) then 1 else 0)
  }

  /** The day number of a date; `day` may lie outside the month, as `new Date(y, m, d)` allows. */
  function DaysFromCivil(y: int, m: int, d: int): (r: int)
    requires 1 <= m <= 12
  {
    DaysBeforeYear(y) + DaysBeforeMonth(y, m) + d - 1
  }

  lemma DaysFromCivilEpoch()
    ensures DaysFromCivil(1970, 1, 1) == 0 && Weekday(DaysFromCivil(1970, 1, 1)) == 4
  {
  }

  lemma PrevQuarter(y: int)
    ensures (y - 1) / 4 == if y % 4 == 0 then y / 4 - 1 else y / 4
  {
  }

  lemma PrevCentury(y: int)
    ensures (y - 1) / 100 == if y % 100 == 0 then y / 100 - 1 else y / 100
  {
  }

  lemma PrevQuadCentury(y: int)
    ensures (y - 1) / 400 == if y % 400 == 0 then y / 400 - 1 else y / 400
  {
  }

  lemma CenturyIsQuarter(y: int)
    requires y % 100 == 0
    ensures y % 4 == 0
  {
    var k := y / 100;
    assert y == 100 * k;
    assert y == 4 * (25 * k);
  }

  lemma QuadCenturyIsCentury(y: int)
    requires y % 400 == 0
    ensures y % 100 == 0
  {
    var k := y / 400;
    assert y == 400 * k;
    assert y == 100 * (4 * k);
  }

  /** A year has 366 days exactly when it is a leap year. */
  lemma YearLength(y: int)
    ensures DaysBeforeYear(y + 1) - DaysBeforeYear(y) == if IsLeapYear(y) then 366 else 365
  {
    PrevQuarter(y);
    PrevCentury(y);
    PrevQuadCentury(y);
    if y % 100 == 0 { CenturyIsQuarter(y); }
    if y % 400 == 0 { QuadCenturyIsCentury(y); }
    var a, b, c := y % 4 == 0, y % 100 == 0, y % 400 == 0;
    assert LeapsThrough(y) - LeapsThrough(y - 1) == (if a then 1 else 0) - (if b then 1 else 0) + (if c then 1 else 0);
  }

  lemma {:induction false} DaysBeforeYearGrows(a: int, b: int)
    requires a < b
    ensures DaysBeforeYear(a) + 365 <= DaysBeforeYear(b)
    decreases b - a
  {
    YearLength(a);
    if a + 1 < b {
      DaysBeforeYearGrows(a + 1, b);
    }
  }

  lemma LastDayOfYear(d: CivilDate)
    requires ValidCivil(d)
    ensures DaysFromCivil(d.year, d.month, d.day) < DaysBeforeYear(d.year + 1)
  {
    YearLength(d.year);
  }

  lemma {:induction false} MonthOrder(y: int, m1: int, d1: int, m2: int, d2: int)
    requires ValidCivil(CivilDate(y, m1, d1)) && ValidCivil(CivilDate(y, m2, d2)) && m1 < m2
    ensures DaysFromCivil(y, m1, d1) < DaysFromCivil(y, m2, d2)
  {
  }

  /** On real calendar dates the day numbering is strictly monotone: one date comes
      before another exactly when its day number is smaller. */
  lemma CivilOrderIsDayOrder(a: CivilDate, b: CivilDate)
    requires ValidCivil(a) && ValidCivil(b)
    ensures CivilBefore(a, b) <==> DaysFromCivil(a.year, a.month, a.day) < DaysFromCivil(b.year, b.month, b.day)
  {
    if a.year < b.year {
      LastDayOfYear(a);
      if a.year + 1 < b.year {
        DaysBeforeYearGrows(a.year + 1, b.year);
      }
    } else if b.year < a.year {
      LastDayOfYear(b);
      if b.year + 1 < a.year {
        DaysBeforeYearGrows(b.year + 1, a.year);
      }
    } else if a.month < b.month {
      MonthOrder(a.year, a.month, a.day, b.month, b.day);
    } else if b.month < a.month {
      MonthOrder(a.year, b.month, b.day, a.month, a.day);
    }
  }
}
