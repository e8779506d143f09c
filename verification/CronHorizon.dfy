/**
 When the five-year horizon of Next is long enough: every window holds a whole
 calendar year, every month holds all seven weekdays, and only February 29 can
 stay away for longer.
 */
module CronHorizon {
  import opened Calendar
  import opened Cron
  import opened CronLaws
  import opened Division

  predicate InYearMonth(m: int) { 1 <= m <= 12 }

  /** Every mask allows something, which is what parsing guarantees. */
  ghost predicate Populated(s: Schedule) {
    && (exists i :: 0 <= i < 60 && i in s.minutes)
    && (exists h :: 0 <= h < 24 && h in s.hours)
    && (exists m :: InYearMonth(m) && m in s.months)
    && (exists w :: 0 <= w < 7 && w in s.dows)
  }

  ghost predicate FullDays(s: Schedule) { forall d :: 1 <= d <= 31 ==> d in s.doms }
  ghost predicate FullWeekdays(s: Schedule) { forall w :: 0 <= w < 7 ==> w in s.dows }

  /** An allowed day and month that meet in every year, leap or not. */
  ghost predicate Yearly(s: Schedule) {
    exists m, d :: InYearMonth(m) && m in s.months && d in s.doms && 1 <= d <= MonthLength(2023, m)
  }

  function At(dn: int, h: int, i: int): Instant { dn * DAY + h * HOUR + i * MINUTE }

  lemma FieldsAt(dn: int, h: int, i: int)
    requires 0 <= h < 24 && 0 <= i < 60
    ensures var t := At(dn, h, i); Aligned(t) && DayOf(t) == dn && Hour(t) == h && Minute(t) == i
  {
    var t := At(dn, h, i);
    var rest := h * HOUR + i * MINUTE;
    Quotient(t, DAY, dn, rest);
    Quotient(rest, HOUR, h, i * MINUTE);
    Quotient(t, HOUR, dn * 24 + h, i * MINUTE);
    Quotient(i * MINUTE, MINUTE, i, 0);
    Quotient(t, MINUTE, dn * 1440 + h * 60 + i, 0);
  }

  /** The calendar year after the one a search starts in lies inside its window. */
  lemma WholeYear(t: Instant, dn: int)
    requires var y := Year(NextStart(t)); YearStart(y + 1) <= dn < YearStart(y + 2)
    ensures t < dn * DAY && (dn + 1) * DAY <= NextLimit(t)
  {
    hide YearStart, Civil, Truncate;
    var lo := NextStart(t);
    TruncateAligned(t);
    var d := Civil(DayOf(lo));
    CivilNumber(DayOf(lo));
    InYear(d);
    YearsGrow(d.year + 2, d.year + 5);
    MonthsGrow(d.year + 5, 1, d.month);
    assert DaysBefore(d.year + 5, 1) == 0;
  }

  /** A date of next year that the schedule allows keeps Next from running out. */
  lemma DateSuffices(s: Schedule, t: Instant, d: Date)
    requires Populated(s) && ValidDate(d) && d.year == Year(NextStart(t)) + 1
    requires d.month in s.months && d.day in s.doms && (DayNumber(d.year, d.month, d.day) + 1) % 7 in s.dows
    ensures !NoneAhead(s, t)
  {
    hide YearStart, DaysBefore, Civil, MonthLength, NextLimit, NextStart;
    var dn := DayNumber(d.year, d.month, d.day);
    CivilRoundTrip(d);
    InYear(d);
    WholeYear(t, dn);
    var i :| 0 <= i < 60 && i in s.minutes;
    var h :| 0 <= h < 24 && h in s.hours;
    FieldsAt(dn, h, i);
    var u := At(dn, h, i);
    MatchesAligned(s, u);
    assert Matches(s, u);
  }

  /** The calendar year before the one a backward search starts in lies inside its window. */
  lemma YearBefore(t: Instant, dn: int)
    requires var y := Year(PrevStart(t)); YearStart(y - 1) <= dn < YearStart(y)
    ensures PrevLimit(t) < dn * DAY && (dn + 1) * DAY <= PrevStart(t) < t
  {
    hide YearStart, DaysBefore, Civil, Truncate, DayNumber, AddDate;
    var hi, lo := PrevStart(t), PrevLimit(t);
    TruncateAligned(t);
    var d, e := Civil(DayOf(hi)), Civil(DayOf(lo));
    AddYears(hi, -SEARCH_YEARS);
    assert e.year == d.year - 5;
    CivilNumber(DayOf(hi));
    CivilNumber(DayOf(lo));
    InYear(d);
    InYear(e);
    YearsGrow(d.year - 4, d.year - 1);
  }

  /** A date of the year before that the schedule allows keeps Prev from finding none, and from finding anything earlier. */
  lemma DateBehindSuffices(s: Schedule, t: Instant, d: Date)
    requires Populated(s) && ValidDate(d) && d.year == Year(PrevStart(t)) - 1
    requires d.month in s.months && d.day in s.doms && (DayNumber(d.year, d.month, d.day) + 1) % 7 in s.dows
    ensures !NoneBehind(s, t) && PrevTime(s, t) >= DayNumber(d.year, d.month, d.day) * DAY
  {
    hide YearStart, DaysBefore, Civil, MonthLength, PrevLimit, PrevStart, AddDate;
    var dn := DayNumber(d.year, d.month, d.day);
    CivilRoundTrip(d);
    InYear(d);
    YearBefore(t, dn);
    var i :| 0 <= i < 60 && i in s.minutes;
    var h :| 0 <= h < 24 && h in s.hours;
    FieldsAt(dn, h, i);
    var u := At(dn, h, i);
    MatchesAligned(s, u);
    assert Matches(s, u);
    TruncateAligned(t);
    LastMatchLatest(s, PrevStart(t), PrevLimit(t));
  }

  /** With every day of the month allowed Prev always finds a time, from year 3 on. */
  lemma FullDaysPrevNeverZero(s: Schedule, t: Instant)
    requires Populated(s) && FullDays(s) && Year(PrevStart(t)) >= 3
    ensures PrevTime(s, t) != ZERO_TIME
  {
    hide YearStart, DaysBefore, Civil, PrevLimit, PrevStart, Matches, PrevTime;
    var y := Year(PrevStart(t)) - 1;
    var m :| InYearMonth(m) && m in s.months;
    var w :| 0 <= w < 7 && w in s.dows;
    var first := DayNumber(y, m, 1);
    var k := (w - (first + 1)) % 7;
    var d := Date(y, m, 1 + k);
    assert DayNumber(y, m, 1 + k) == first + k;
    assert (first + k + 1) % 7 == w by {
      WeekdayShift(first + 1, w);
    }
    DateBehindSuffices(s, t, d);
    InYear(d);
    YearsGrow(1, y);
    assert YearStart(1) == 0 by { YearStartClosed(1); }
  }

  /** With every day of the month allowed Next always finds a time. */
  lemma FullDaysNeverZero(s: Schedule, t: Instant)
    requires Populated(s) && FullDays(s) && t >= ZERO_TIME
    ensures NextTime(s, t) != ZERO_TIME
  {
    hide YearStart, DaysBefore, Civil, NextLimit, NextStart, Matches, NextTime;
    var y := Year(NextStart(t)) + 1;
    var m :| InYearMonth(m) && m in s.months;
    var w :| 0 <= w < 7 && w in s.dows;
    var first := DayNumber(y, m, 1);
    var k := (w - (first + 1)) % 7;
    var d := Date(y, m, 1 + k);
    assert DayNumber(y, m, 1 + k) == first + k;
    assert (first + k + 1) % 7 == w by {
      WeekdayShift(first + 1, w);
    }
    DateSuffices(s, t, d);
    NextCorrect(s, t);
  }

  lemma WeekdayShift(x: int, w: int)
    requires 0 <= w < 7
    ensures (x + (w - x) % 7) % 7 == w
  {
  }

  /**
   With every weekday allowed Next never runs out, from any start, exactly when
   some allowed day and month meet every year - that is, unless only February 29
   is left.
   */
  lemma FullWeekdaysNeverZero(s: Schedule)
    requires Populated(s) && FullWeekdays(s)
    ensures (forall t :: t >= ZERO_TIME ==> NextTime(s, t) != ZERO_TIME) <==> Yearly(s)
  {
    hide YearStart, DaysBefore, Civil, NextLimit, NextStart, Matches, NextTime;
    if Yearly(s) {
      forall t | t >= ZERO_TIME ensures NextTime(s, t) != ZERO_TIME {
        var m, d :| InYearMonth(m) && m in s.months && d in s.doms && 1 <= d <= MonthLength(2023, m);
        DateSuffices(s, t, Date(Year(NextStart(t)) + 1, m, d));
        NextCorrect(s, t);
      }
    } else {
      LeapDayGap(s);
      assert NextTime(s, LEAP_GAP) == ZERO_TIME;
    }
  }

  /** 1896-03-01T00:00Z: the next February 29 is in 1904, because 1900 is no leap year. */
  const LEAP_GAP: Instant := 692_194 * DAY

  lemma LeapGapDays()
    ensures DayNumber(1896, 3, 1) == 692_194 && DayNumber(1901, 3, 1) == 694_019
  {
    YearStartClosed(1896);
    YearStartClosed(1901);
    DaysBeforeClosed(1896, 3);
    DaysBeforeClosed(1901, 3);
  }

  lemma LeapGapWindow()
    ensures NextLimit(LEAP_GAP) == 694_019 * DAY + MINUTE
  {
    hide YearStart, DaysBefore, Civil;
    LeapGapDays();
    assert NextStart(LEAP_GAP) == LEAP_GAP + MINUTE;
    assert DayOf(LEAP_GAP + MINUTE) == 692_194;
    CivilRoundTrip(Date(1896, 3, 1));
  }

  lemma LeapDayBefore()
    ensures PrevStart(LEAP_GAP) == 692_193 * DAY + 1439 * MINUTE && Civil(692_193) == Date(1896, 2, 29)
  {
    LastOfFebruary();
    hide YearStart, DaysBefore, Civil, DayNumber, MonthLength, Leap;
    LeapGapDays();
    CivilRoundTrip(Date(1896, 2, 29));
  }

  lemma LastOfFebruary()
    ensures DayNumber(1896, 2, 29) + 1 == DayNumber(1896, 3, 1) && ValidDate(Date(1896, 2, 29))
  {
    hide YearStart, DaysBefore;
    MonthStep(1896, 2);
  }

  /** Prev's window at the same instant starts 1891-03-01T23:59: five years before 1896-02-29T23:59, normalised. */
  lemma LeapDayWindow()
    ensures PrevLimit(LEAP_GAP) == 690_367 * DAY + 1439 * MINUTE && DayNumber(1891, 3, 1) == 690_367
  {
    MarchOf1891();
    LeapDayBefore();
    hide YearStart, DaysBefore, Civil, DayNumber, AddDate, PrevStart, PrevLimit, Leap;
    FiveYearsEarlier(PrevStart(LEAP_GAP), PrevLimit(LEAP_GAP));
  }

  lemma MarchOf1891()
    ensures DayNumber(1891, 3, 1) == 690_367 && !Leap(1891)
    ensures PrevLimit(LEAP_GAP) == AddDate(PrevStart(LEAP_GAP), -5, 0, 0)
  {
    YearStartClosed(1891);
    DaysBeforeClosed(1891, 3);
    hide YearStart, DaysBefore, Civil, AddDate, PrevStart;
  }

  lemma FiveYearsEarlier(t: Instant, u: Instant)
    requires t == 692_193 * DAY + 1439 * MINUTE && Civil(692_193) == Date(1896, 2, 29) && !Leap(1891)
    requires u == AddDate(t, -5, 0, 0) && DayNumber(1891, 3, 1) == 690_367
    ensures u == 690_367 * DAY + 1439 * MINUTE
  {
    hide YearStart, DaysBefore, Civil, DayNumber, AddDate, Leap;
    assert DayOf(t) == 692_193 && t % DAY == 1439 * MINUTE;
    AddYears(t, -5);
    CivilNumber(DayOf(u));
  }

  lemma LeapDayGap(s: Schedule)
    requires !Yearly(s)
    ensures NextTime(s, LEAP_GAP) == ZERO_TIME
  {
    hide YearStart, DaysBefore, Civil, NextLimit, Matches, NextTime, Yearly;
    LeapGapWindow();
    forall u | LEAP_GAP < u < NextLimit(LEAP_GAP) && Aligned(u) ensures !Matches(s, u) {
      var dn := DayOf(u);
      CivilNumber(dn);
      LeapGapDates(Civil(dn), dn);
      MatchesAligned(s, u);
      if Matches(s, u) {
        MonthInYear(s, u);
      }
    }
    NextCorrect(s, LEAP_GAP);
  }

  lemma MonthInYear(s: Schedule, u: Instant)
    requires !Yearly(s) && Month(u) in s.months && Day(u) in s.doms
    ensures Day(u) > MonthLength(2023, Month(u))
  {
  }

  lemma LeapGapYears()
    ensures YearStart(1896) == 692_134 && YearStart(1902) == 694_325
  {
    YearStartClosed(1896);
    YearStartClosed(1902);
  }

  lemma EndOfFebruary(y: int)
    ensures MonthStart(y, 2) + 28 == YearStart(y) + 59
  {
    DaysBeforeClosed(y, 2);
  }

  /** No February 29 from 1896-03-01 to 1901-03-01. */
  lemma LeapGapDates(d: Date, dn: int)
    requires ValidDate(d) && dn == MonthStart(d.year, d.month) + d.day - 1
    requires 692_194 <= dn <= 694_019
    ensures d.day <= MonthLength(2023, d.month)
  {
    if d.day > MonthLength(2023, d.month) {
      assert d.month == 2 && d.day == 29 && Leap(d.year);
      InYear(d);
      assert d == Date(d.year, 2, 29);
      EndOfFebruary(d.year);
      LeapGapYears();
      hide YearStart, DaysBefore;
      if d.year < 1896 {
        YearsGrow(d.year + 1, 1896);
      } else if d.year > 1901 {
        YearsGrow(1902, d.year);
      }
    }
  }
}
