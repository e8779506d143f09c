/**
 The proleptic Gregorian calendar (ISO 8601) and UTC instants, as far as the
 cron code uses them through Go's package time.

 An instant counts nanoseconds from Go's zero time, 0001-01-01T00:00:00Z, so the
 zero time is 0, Before and After are < and >, Add is + and
 Truncate rounds down to a multiple since the zero time.
 */
module Calendar {
  import opened Division

  type Instant = int

  const ZERO_TIME: Instant := 0
  const MINUTE := 60_000_000_000
  const HOUR := 3_600_000_000_000
  const DAY := 86_400_000_000_000

  function Truncate(t: Instant, unit: int): Instant
    requires unit > 0
  {
    t / unit * unit
  }

  predicate Aligned(t: Instant) {
    t % MINUTE == 0
  }

  // ---- Years and months ----

  predicate Leap(y: int) {
    y % 4 == 0 && (y % 100 != 0 || y % 400 == 0)
  }

  function YearLength(y: int): int {
    if Leap(y) then 366 else 365
  }

  function MonthLength(y: int, m: int): int
    requires 1 <= m <= 12
  {
    if m == 2 then (if Leap(y) then 29 else 28)
    else if m == 4 || m == 6 || m == 9 || m == 11 then 30
    else 31
  }

  /** Day number of January 1 of year y; day 0 is 0001-01-01. */
  function YearStart(y: int): int
    decreases if y > 1 then y - 1 else 1 - y
  {
    if y == 1 then 0
    else if y > 1 then YearStart(y - 1) + YearLength(y - 1)
    else YearStart(y + 1) - YearLength(y)
  }

  /** Days of year y before its month m; month 13 stands for the end of the year. */
  function DaysBefore(y: int, m: int): int
    requires 1 <= m <= 13
  {
    if m == 1 then 0 else DaysBefore(y, m - 1) + MonthLength(y, m - 1)
  }

  function MonthStart(y: int, m: int): int
    requires 1 <= m <= 13
  {
    YearStart(y) + DaysBefore(y, m)
  }

  lemma YearStep(y: int)
    ensures YearStart(y + 1) == YearStart(y) + YearLength(y)
  {
  }

  /** The year starts in closed form: 365 days a year, and the leap days before it. */
  lemma {:induction false} YearStartClosed(y: int)
    ensures YearStart(y) == 365 * (y - 1) + (y - 1) / 4 - (y - 1) / 100 + (y - 1) / 400
    decreases if y > 1 then y - 1 else 1 - y
  {
    if y > 1 {
      YearStartClosed(y - 1);
      LeapDays(y - 1);
    } else if y < 1 {
      YearStartClosed(y + 1);
      LeapDays(y);
    }
  }

  lemma LeapDays(y: int)
    ensures y / 4 - y / 100 + y / 400 == (y - 1) / 4 - (y - 1) / 100 + (y - 1) / 400 + (if Leap(y) then 1 else 0)
  {
    Multiples(y, 4);
    Multiples(y, 100);
    Multiples(y, 400);
    LeapRule(y);
    hide Leap;
  }

  /** The two exceptions are nested: a multiple of 400 is one of 100, and that is one of 4. */
  lemma LeapRule(y: int)
    ensures (if Leap(y) then 1 else 0) ==
      (if y % 4 == 0 then 1 else 0) - (if y % 100 == 0 then 1 else 0) + (if y % 400 == 0 then 1 else 0)
  {
    if y % 400 == 0 {
      Quotient(y, 100, 4 * (y / 400), 0);
    }
    if y % 100 == 0 {
      Quotient(y, 4, 25 * (y / 100), 0);
    }
  }

  /** Counting the multiples of k up to y. */
  lemma Multiples(y: int, k: int)
    requires k > 0
    ensures y / k == (y - 1) / k + (if y % k == 0 then 1 else 0)
  {
    var q, r := (y - 1) / k, (y - 1) % k;
    assert y == if r + 1 < k then q * k + (r + 1) else (q + 1) * k;
    Quotient(y, k, if r + 1 < k then q else q + 1, if r + 1 < k then r + 1 else 0);
  }

  lemma {:induction false} YearsGrow(y: int, z: int)
    requires y <= z
    ensures YearStart(y) + 365 * (z - y) <= YearStart(z)
    decreases z - y
  {
    if y == z {
    } else {
      YearStep(y);
      YearsGrow(y + 1, z);
    }
  }

  const DAYS_BEFORE: seq<int> := [0, 31, 59, 90, 120, 151, 181, 212, 243, 273, 304, 334, 365]

  /** The month starts in closed form. */
  lemma {:induction false} DaysBeforeClosed(y: int, m: int)
    requires 1 <= m <= 13
    ensures DaysBefore(y, m) == DAYS_BEFORE[m - 1] + (if m > 2 && Leap(y) then 1 else 0)
  {
    if m == 1 {
    } else {
      DaysBeforeClosed(y, m - 1);
    }
  }

  lemma YearEnd(y: int)
    ensures MonthStart(y, 13) == MonthStart(y + 1, 1)
  {
    YearStep(y);
    DaysBeforeClosed(y, 13);
  }

  lemma MonthStep(y: int, m: int)
    requires 1 <= m <= 12
    ensures DaysBefore(y, m + 1) == DaysBefore(y, m) + MonthLength(y, m)
  {
  }

  lemma {:induction false} MonthsGrow(y: int, m: int, n: int)
    requires 1 <= m <= n <= 13
    ensures DaysBefore(y, m) + 28 * (n - m) <= DaysBefore(y, n)
    decreases n - m
  {
    if m == n {
    } else {
      MonthsGrow(y, m, n - 1);
    }
  }

  // ---- Civil dates ----

  datatype Date = Date(year: int, month: int, day: int)

  predicate ValidDate(d: Date) {
    1 <= d.month <= 12 && 1 <= d.day <= MonthLength(d.year, d.month)
  }

  /** The calendar's own successor and predecessor. */
  function NextDate(d: Date): Date
    requires ValidDate(d)
  {
    if d.day < MonthLength(d.year, d.month) then d.(day := d.day + 1)
    else if d.month < 12 then Date(d.year, d.month + 1, 1)
    else Date(d.year + 1, 1, 1)
  }

  function PrevDate(d: Date): Date
    requires ValidDate(d)
  {
    if d.day > 1 then d.(day := d.day - 1)
    else if d.month > 1 then Date(d.year, d.month - 1, MonthLength(d.year, d.month - 1))
    else Date(d.year - 1, 12, 31)
  }

  /** The date dn days after 0001-01-01 (before it, if dn is negative), counted day by day. */
  function Civil(dn: int): (d: Date)
    ensures ValidDate(d)
    decreases if dn < 0 then -dn else dn
  {
    if dn == 0 then Date(1, 1, 1)
    else if dn > 0 then NextDate(Civil(dn - 1))
    else PrevDate(Civil(dn + 1))
  }

  /**
   Day number of a year, month and day that need not be normalised: months
   overflow into years first and days then overflow into months, as Go's
   time.Date does.
   */
  function DayNumber(y: int, m: int, d: int): int
    decreases if m > 12 then m - 12 else 1 - m
  {
    if m > 12 then DayNumber(y + 1, m - 12, d)
    else if m < 1 then DayNumber(y - 1, m + 12, d)
    else MonthStart(y, m) + d - 1
  }

  /** One step of the calendar is one step of the day number. */
  lemma NextDateNumber(d: Date)
    requires ValidDate(d)
    ensures DayNumber(NextDate(d).year, NextDate(d).month, NextDate(d).day) == DayNumber(d.year, d.month, d.day) + 1
  {
    hide YearStart, DaysBefore;
    MonthStep(d.year, d.month);
    YearEnd(d.year);
    FirstOfYear(d.year + 1);
  }

  lemma FirstOfYear(y: int)
    ensures MonthStart(y, 1) == YearStart(y)
  {
  }

  /** Counting day by day and counting by whole years and months agree. */
  lemma {:induction false} CivilNumber(dn: int)
    ensures var d := Civil(dn); DayNumber(d.year, d.month, d.day) == dn == MonthStart(d.year, d.month) + d.day - 1
    decreases if dn < 0 then -dn else dn
  {
    hide YearStart, DaysBefore, NextDate, PrevDate, MonthLength;
    if dn > 0 {
      CivilNumber(dn - 1);
      NextDateNumber(Civil(dn - 1));
    } else if dn < 0 {
      CivilNumber(dn + 1);
      CivilBack(dn);
      NextDateNumber(Civil(dn));
    } else {
      assert YearStart(1) == 0 by { YearStartClosed(1); }
      FirstOfYear(1);
    }
  }

  lemma CivilBack(dn: int)
    requires dn < 0
    ensures Civil(dn + 1) == NextDate(Civil(dn))
  {
    hide YearStart, DaysBefore;
    PrevNext(Civil(dn + 1));
  }

  lemma PrevNext(d: Date)
    requires ValidDate(d)
    ensures ValidDate(PrevDate(d)) && NextDate(PrevDate(d)) == d
  {
  }

  lemma CivilUnique(dn: int, d: Date)
    requires ValidDate(d)
    requires MonthStart(d.year, d.month) + d.day - 1 == dn
    ensures Civil(dn) == d
  {
    hide YearStart, DaysBefore, Civil;
    var c := Civil(dn);
    CivilNumber(dn);
    InYear(d);
    InYear(c);
    if c.year < d.year {
      YearsGrow(c.year + 1, d.year);
    } else if d.year < c.year {
      YearsGrow(d.year + 1, c.year);
    } else if c.month < d.month {
      MonthStep(c.year, c.month);
      MonthsGrow(c.year, c.month + 1, d.month);
    } else if d.month < c.month {
      MonthStep(c.year, d.month);
      MonthsGrow(c.year, d.month + 1, c.month);
    }
  }

  lemma InYear(d: Date)
    requires ValidDate(d)
    ensures YearStart(d.year) <= MonthStart(d.year, d.month) + d.day - 1 < YearStart(d.year + 1)
  {
    hide YearStart, MonthLength;
    MonthsGrow(d.year, 1, d.month);
    MonthStep(d.year, d.month);
    MonthsGrow(d.year, d.month + 1, 13);
    YearEnd(d.year);
    FirstOfYear(d.year + 1);
  }

  /** Day numbers and valid dates correspond one to one ... */
  lemma CivilRoundTrip(d: Date)
    requires ValidDate(d)
    ensures Civil(DayNumber(d.year, d.month, d.day)) == d
  {
    hide YearStart, DaysBefore, Civil;
    CivilUnique(DayNumber(d.year, d.month, d.day), d);
  }

  /** ... and one step of the day number is one step of the calendar, before 0001-01-01 too. */
  lemma CivilSuccessor(dn: int)
    ensures Civil(dn + 1) == NextDate(Civil(dn))
  {
    hide YearStart, DaysBefore, NextDate, PrevDate;
    if dn < 0 {
      CivilBack(dn);
    }
  }

  // ---- Fields of an instant ----

  function DayOf(t: Instant): int { t / DAY }
  function Year(t: Instant): int { Civil(DayOf(t)).year }
  function Month(t: Instant): int { Civil(DayOf(t)).month }
  function Day(t: Instant): int { Civil(DayOf(t)).day }
  /** Sunday is 0; 0001-01-01 was a Monday. */
  function Weekday(t: Instant): int { (DayOf(t) + 1) % 7 }
  function Hour(t: Instant): int { t % DAY / HOUR }
  function Minute(t: Instant): int { t % HOUR / MINUTE }

  /** Go's AddDate: add to the date fields, keep the clock, normalise. */
  function AddDate(t: Instant, years: int, months: int, days: int): Instant {
    DayNumber(Year(t) + years, Month(t) + months, Day(t) + days) * DAY + t % DAY
  }

  /** Go's time.Date in UTC with whole hours only, which is all the cron code needs. */
  function AtHour(y: int, m: int, d: int, hour: int): Instant {
    DayNumber(y, m, d) * DAY + hour * HOUR
  }

  /** Going whole years on or back keeps month, day and clock, but for a February 29 that becomes March 1. */
  lemma AddYears(t: Instant, years: int)
    ensures var d, u := Civil(DayOf(t)), AddDate(t, years, 0, 0);
      && u % DAY == t % DAY
      && Civil(DayOf(u)) ==
           if d.month == 2 && d.day == 29 && !Leap(d.year + years) then Date(d.year + years, 3, 1)
           else Date(d.year + years, d.month, d.day)
  {
    hide YearStart, DaysBefore, Civil;
    var d := Civil(DayOf(t));
    var dn := DayNumber(d.year + years, d.month, d.day);
    var u := AddDate(t, years, 0, 0);
    assert u == dn * DAY + t % DAY && DayOf(u) == dn;
    if d.month == 2 && d.day == 29 && !Leap(d.year + years) {
      MonthStep(d.year + years, 2);
      CivilUnique(dn, Date(d.year + years, 3, 1));
    } else {
      CivilUnique(dn, Date(d.year + years, d.month, d.day));
    }
  }

  /** The anchor to the Unix calendar: 1970-01-01 was a Thursday, 62135596800 seconds after the zero time. */
  lemma UnixEpoch()
    ensures var t := AtHour(1970, 1, 1, 0); t == 62_135_596_800 * 1_000_000_000 && Weekday(t) == 4
  {
    YearStartClosed(1970);
    FirstOfYear(1970);
    assert DayNumber(1970, 1, 1) == 719_162;
  }
}
