/**
 Cron schedules: Matches, and the skip-ahead searches Next and Prev (cron.go and
 cron_extra.go), each proved equal to a minute-by-minute search.

 A bit mask is the set of its bit positions.
 */
module Cron {
  import opened Calendar
  import opened Options

  datatype Schedule = Schedule(
    expr: string, minutes: set<int>, hours: set<int>, doms: set<int>, months: set<int>, dows: set<int>)

  predicate DayMatches(s: Schedule, t: Instant) {
    Day(t) in s.doms && Weekday(t) in s.dows
  }

  predicate Matches(s: Schedule, t: Instant) {
    var m := Truncate(t, MINUTE);
    Month(m) in s.months && DayMatches(s, m) && Hour(m) in s.hours && Minute(m) in s.minutes
  }

  // ---- The reference: search one minute at a time ----

  const SEARCH_YEARS := 5

  /** The first match at or after t, before limit, in steps of one minute. */
  function FirstMatch(s: Schedule, t: Instant, limit: Instant): Option<Instant>
    decreases limit - t
  {
    if t >= limit then None
    else if Matches(s, t) then Some(t)
    else FirstMatch(s, t + MINUTE, limit)
  }

  /** The last match at or before t, after limit, in steps of one minute. */
  function LastMatch(s: Schedule, t: Instant, limit: Instant): Option<Instant>
    decreases t - limit
  {
    if t <= limit then None
    else if Matches(s, t) then Some(t)
    else LastMatch(s, t - MINUTE, limit)
  }

  /** Go reports "no match" as the zero time. */
  function OrZero(r: Option<Instant>): Instant {
    match r case Some(u) => u case None => ZERO_TIME
  }

  function NextStart(t: Instant): Instant { Truncate(t, MINUTE) + MINUTE }
  function NextLimit(t: Instant): Instant { AddDate(NextStart(t), SEARCH_YEARS, 0, 0) }
  function PrevStart(t: Instant): Instant { Truncate(t, MINUTE) - MINUTE }
  function PrevLimit(t: Instant): Instant { AddDate(PrevStart(t), -SEARCH_YEARS, 0, 0) }

  /** What Next and Prev compute, by naive search. */
  function NextTime(s: Schedule, t: Instant): Instant {
    OrZero(FirstMatch(s, NextStart(t), NextLimit(t)))
  }

  function PrevTime(s: Schedule, t: Instant): Instant {
    OrZero(LastMatch(s, PrevStart(t), PrevLimit(t)))
  }

  /** The naive forward search finds the earliest match of the window. */
  lemma {:induction false} FirstMatchEarliest(s: Schedule, t: Instant, limit: Instant)
    requires Aligned(t)
    ensures var r := FirstMatch(s, t, limit);
      (r.Some? ==> t <= r.value < limit && Aligned(r.value) && Matches(s, r.value)) &&
      (forall u :: t <= u < limit && Aligned(u) && Matches(s, u) ==> r.Some? && r.value <= u)
    decreases limit - t
  {
    hide Matches;
    if t >= limit || Matches(s, t) {
    } else {
      FirstMatchEarliest(s, t + MINUTE, limit);
      forall u | t <= u < limit && Aligned(u) && Matches(s, u) ensures t + MINUTE <= u {
        AlignedApart(t, u);
      }
    }
  }

  /** The naive backward search finds the latest match of the window. */
  lemma {:induction false} LastMatchLatest(s: Schedule, t: Instant, limit: Instant)
    requires Aligned(t)
    ensures var r := LastMatch(s, t, limit);
      (r.Some? ==> limit < r.value <= t && Aligned(r.value) && Matches(s, r.value)) &&
      (forall u :: limit < u <= t && Aligned(u) && Matches(s, u) ==> r.Some? && u <= r.value)
    decreases t - limit
  {
    hide Matches;
    if t <= limit || Matches(s, t) {
    } else {
      LastMatchLatest(s, t - MINUTE, limit);
      forall u | limit < u <= t && Aligned(u) && Matches(s, u) ensures u <= t - MINUTE {
        AlignedApart(u, t);
      }
    }
  }

  lemma AlignedShift(t: Instant)
    requires Aligned(t)
    ensures Aligned(t - MINUTE) && Aligned(t + MINUTE) && Aligned(t + HOUR)
  {
  }

  lemma AlignedApart(t: Instant, u: Instant)
    requires Aligned(t) && Aligned(u) && t <= u
    ensures t != u ==> t + MINUTE <= u
  {
  }

  // ---- Skipping ahead changes nothing ----

  lemma {:induction false} SkipForward(s: Schedule, t: Instant, dest: Instant, limit: Instant)
    requires Aligned(t) && Aligned(dest) && t <= dest
    requires forall u :: t <= u < dest && Aligned(u) ==> !Matches(s, u)
    ensures FirstMatch(s, t, limit) == FirstMatch(s, dest, limit)
    decreases dest - t
  {
    hide Matches;
    if t == dest || t >= limit {
    } else {
      AlignedApart(t, dest);
      SkipForward(s, t + MINUTE, dest, limit);
    }
  }

  lemma {:induction false} SkipBackward(s: Schedule, t: Instant, dest: Instant, limit: Instant)
    requires Aligned(t) && Aligned(dest) && dest <= t
    requires forall u :: dest < u <= t && Aligned(u) ==> !Matches(s, u)
    ensures LastMatch(s, t, limit) == LastMatch(s, dest, limit)
    decreases t - dest
  {
    hide Matches;
    if t == dest || t <= limit {
    } else {
      AlignedApart(dest, t);
      SkipBackward(s, t - MINUTE, dest, limit);
    }
  }

  /** The first instant of t's month, and of the month after, as the code builds them. */
  function MonthBegin(t: Instant): Instant { AtHour(Year(t), Month(t), 1, 0) }
  function MonthAfter(t: Instant): Instant { AddDate(MonthBegin(t), 0, 1, 0) }
  function DayBegin(t: Instant): Instant { AtHour(Year(t), Month(t), Day(t), 0) }
  function DayAfter(t: Instant): Instant { AddDate(DayBegin(t), 0, 0, 1) }
  function HourBegin(t: Instant): Instant { AtHour(Year(t), Month(t), Day(t), Hour(t)) }

  lemma DayBounds(t: Instant)
    ensures DayBegin(t) == DayOf(t) * DAY
    ensures DayAfter(t) == (DayOf(t) + 1) * DAY
    ensures DayBegin(t) <= t < DayAfter(t)
    ensures Aligned(DayBegin(t)) && Aligned(DayAfter(t))
  {
    hide YearStart, Civil, DaysBefore;
    var d, dn := Civil(DayOf(t)), DayOf(t);
    CivilNumber(dn);
    assert DayNumber(d.year, d.month, d.day) == dn && DayNumber(d.year, d.month, d.day + 1) == dn + 1;
    assert DayBegin(t) == dn * DAY;
    assert DayOf(DayBegin(t)) == dn && DayBegin(t) % DAY == 0;
    assert DayAfter(t) == (dn + 1) * DAY;
    hide DayNumber, AtHour, AddDate;
    WholeDays(dn);
    WholeDays(dn + 1);
  }

  lemma WholeDays(dn: int)
    ensures Aligned(dn * DAY)
  {
    assert dn * DAY == dn * 1440 * MINUTE;
  }

  lemma MonthBounds(t: Instant)
    ensures MonthBegin(t) == MonthStart(Year(t), Month(t)) * DAY
    ensures MonthAfter(t) == MonthStart(Year(t), Month(t) + 1) * DAY
    ensures MonthBegin(t) <= t < MonthAfter(t)
    ensures Aligned(MonthBegin(t)) && Aligned(MonthAfter(t))
  {
    hide YearStart, Civil, DaysBefore;
    var d := Civil(DayOf(t));
    var first := Date(d.year, d.month, 1);
    CivilNumber(DayOf(t));
    CivilRoundTrip(first);
    assert DayOf(MonthBegin(t)) == MonthStart(d.year, d.month);
    assert Civil(DayOf(MonthBegin(t))) == first;
    YearEnd(d.year);
    MonthStep(d.year, d.month);
  }

  /** Every instant between the bounds of t's month has t's month. */
  lemma SameMonth(t: Instant, u: Instant)
    requires MonthBegin(t) <= u < MonthAfter(t)
    ensures Month(u) == Month(t) && Year(u) == Year(t)
  {
    hide YearStart, Civil, DaysBefore;
    MonthBounds(t);
    var y, m := Year(t), Month(t);
    MonthStep(y, m);
    CivilUnique(DayOf(u), Date(y, m, DayOf(u) - MonthStart(y, m) + 1));
  }

  lemma SameDay(t: Instant, u: Instant)
    requires DayBegin(t) <= u < DayAfter(t)
    ensures DayOf(u) == DayOf(t)
  {
    DayBounds(t);
  }

  lemma HoursOfDay(t: Instant)
    ensures DayOf(t) * DAY + Hour(t) * HOUR == t / HOUR * HOUR
    ensures Aligned(t / HOUR * HOUR)
  {
    assert t / HOUR == DayOf(t) * 24 + Hour(t);
    assert t / HOUR * HOUR == t / HOUR * 60 * MINUTE;
  }

  lemma HourBounds(t: Instant)
    ensures HourBegin(t) == Truncate(t, HOUR)
    ensures HourBegin(t) <= t < HourBegin(t) + HOUR
    ensures Aligned(HourBegin(t))
  {
    DayBounds(t);
    HoursOfDay(t);
    hide YearStart, Civil, DaysBefore, DayNumber;
    assert HourBegin(t) == DayBegin(t) + Hour(t) * HOUR;
  }

  lemma SameHour(t: Instant, u: Instant)
    requires HourBegin(t) <= u < HourBegin(t) + HOUR
    ensures DayOf(u) == DayOf(t) && Hour(u) == Hour(t)
  {
    HourBounds(t);
    var h := t / HOUR;
    assert u / HOUR == h;
    assert h / 24 == t / DAY && h / 24 == u / DAY;
    assert h % 24 == Hour(t) && h % 24 == Hour(u);
  }

  /** At an aligned time the four tests of the loops decide Matches. */
  lemma MatchesAligned(s: Schedule, t: Instant)
    requires Aligned(t)
    ensures Matches(s, t) <==>
      Month(t) in s.months && DayMatches(s, t) && Hour(t) in s.hours && Minute(t) in s.minutes
  {
    hide Month, DayMatches, Hour, Minute;
    assert Truncate(t, MINUTE) == t;
  }

  /** A wrong month rules out every minute from the month's begin to its end. */
  lemma MissMonth(s: Schedule, t: Instant, limit: Instant)
    requires Aligned(t) && Month(t) !in s.months
    ensures MonthBegin(t) <= t < MonthAfter(t) && Aligned(MonthBegin(t)) && Aligned(MonthAfter(t))
    ensures FirstMatch(s, t, limit) == FirstMatch(s, MonthAfter(t), limit)
    ensures Aligned(MonthBegin(t) - MINUTE)
    ensures LastMatch(s, t, limit) == LastMatch(s, MonthBegin(t) - MINUTE, limit)
  {
    hide YearStart, Civil, DaysBefore, MonthBegin, MonthAfter, Matches, Month, Aligned;
    MonthBounds(t);
    forall u | MonthBegin(t) <= u < MonthAfter(t) && Aligned(u) ensures !Matches(s, u) {
      SameMonth(t, u);
      MatchesAligned(s, u);
    }
    AlignedShift(MonthBegin(t));
    Skip(s, t, MonthBegin(t), MonthAfter(t), limit);
  }

  lemma MissDay(s: Schedule, t: Instant, limit: Instant)
    requires Aligned(t) && !DayMatches(s, t)
    ensures DayBegin(t) <= t < DayAfter(t) && Aligned(DayBegin(t)) && Aligned(DayAfter(t))
    ensures FirstMatch(s, t, limit) == FirstMatch(s, DayAfter(t), limit)
    ensures Aligned(DayBegin(t) - MINUTE)
    ensures LastMatch(s, t, limit) == LastMatch(s, DayBegin(t) - MINUTE, limit)
  {
    hide YearStart, Civil, DaysBefore, DayBegin, DayAfter, Matches, Month, Aligned;
    DayBounds(t);
    forall u | DayBegin(t) <= u < DayAfter(t) && Aligned(u) ensures !Matches(s, u) {
      SameDay(t, u);
      MatchesAligned(s, u);
    }
    AlignedShift(DayBegin(t));
    Skip(s, t, DayBegin(t), DayAfter(t), limit);
  }

  lemma MissHour(s: Schedule, t: Instant, limit: Instant)
    requires Aligned(t) && Hour(t) !in s.hours
    ensures HourBegin(t) == Truncate(t, HOUR) <= t < HourBegin(t) + HOUR && Aligned(HourBegin(t))
    ensures FirstMatch(s, t, limit) == FirstMatch(s, HourBegin(t) + HOUR, limit)
    ensures Aligned(HourBegin(t) - MINUTE) && Aligned(HourBegin(t) + HOUR)
    ensures LastMatch(s, t, limit) == LastMatch(s, HourBegin(t) - MINUTE, limit)
  {
    hide YearStart, Civil, DaysBefore, HourBegin, Hour, Matches, Month, Aligned;
    HourBounds(t);
    forall u | HourBegin(t) <= u < HourBegin(t) + HOUR && Aligned(u) ensures !Matches(s, u) {
      SameHour(t, u);
      MatchesAligned(s, u);
    }
    AlignedShift(HourBegin(t));
    Skip(s, t, HourBegin(t), HourBegin(t) + HOUR, limit);
  }

  lemma Skip(s: Schedule, t: Instant, begin: Instant, end: Instant, limit: Instant)
    requires Aligned(t) && Aligned(begin) && Aligned(end) && begin <= t < end
    requires forall u :: begin <= u < end && Aligned(u) ==> !Matches(s, u)
    ensures FirstMatch(s, t, limit) == FirstMatch(s, end, limit)
    ensures LastMatch(s, t, limit) == LastMatch(s, begin - MINUTE, limit)
  {
    hide Matches, Aligned;
    AlignedShift(begin);
    forall u | begin - MINUTE < u <= t && Aligned(u) ensures begin <= u {
      AlignedApart(begin - MINUTE, u);
    }
    SkipForward(s, t, end, limit);
    SkipBackward(s, t, begin - MINUTE, limit);
  }

  lemma TruncateAligned(t: Instant)
    ensures Aligned(NextStart(t)) && Aligned(Truncate(t, MINUTE)) && Aligned(PrevStart(t))
    ensures Truncate(t, MINUTE) <= t < NextStart(t)
  {
  }

  // ---- The loops ----

  method Next(s: Schedule, t: Instant) returns (r: Instant)
    ensures r == NextTime(s, t)
  {
    hide Month, Year, Day, Hour, Minute, DayMatches, Matches, AddDate, AtHour, HourBegin, Truncate, Aligned;
    var cur := Truncate(t, MINUTE) + MINUTE;
    TruncateAligned(t);
    var limit := AddDate(cur, SEARCH_YEARS, 0, 0);
    while cur < limit
      invariant Aligned(cur)
      invariant FirstMatch(s, cur, limit) == FirstMatch(s, NextStart(t), limit)
      decreases limit - cur
    {
      MatchesAligned(s, cur);
      AlignedShift(cur);
      if Month(cur) !in s.months {
        MissMonth(s, cur, limit);
        cur := AddDate(AtHour(Year(cur), Month(cur), 1, 0), 0, 1, 0);
        continue;
      }
      if !DayMatches(s, cur) {
        MissDay(s, cur, limit);
        cur := AddDate(AtHour(Year(cur), Month(cur), Day(cur), 0), 0, 0, 1);
        continue;
      }
      if Hour(cur) !in s.hours {
        MissHour(s, cur, limit);
        cur := Truncate(cur, HOUR) + HOUR;
        continue;
      }
      if Minute(cur) !in s.minutes {
        cur := cur + MINUTE;
        continue;
      }
      return cur;
    }
    return ZERO_TIME;
  }

  method Prev(s: Schedule, t: Instant) returns (r: Instant)
    ensures r == PrevTime(s, t)
  {
    hide Month, Year, Day, Hour, Minute, DayMatches, Matches, AddDate, AtHour, Truncate, Aligned;
    var cur := Truncate(t, MINUTE) - MINUTE;
    TruncateAligned(t);
    var limit := AddDate(cur, -SEARCH_YEARS, 0, 0);
    while cur > limit
      invariant Aligned(cur)
      invariant LastMatch(s, cur, limit) == LastMatch(s, PrevStart(t), limit)
      decreases cur - limit
    {
      MatchesAligned(s, cur);
      AlignedShift(cur);
      if Month(cur) !in s.months {
        MissMonth(s, cur, limit);
        cur := AtHour(Year(cur), Month(cur), 1, 0) - MINUTE;
        continue;
      }
      if !DayMatches(s, cur) {
        MissDay(s, cur, limit);
        cur := AtHour(Year(cur), Month(cur), Day(cur), 0) - MINUTE;
        continue;
      }
      if Hour(cur) !in s.hours {
        MissHour(s, cur, limit);
        cur := AtHour(Year(cur), Month(cur), Day(cur), Hour(cur)) - MINUTE;
        continue;
      }
      if Minute(cur) !in s.minutes {
        cur := cur - MINUTE;
        continue;
      }
      return cur;
    }
    return ZERO_TIME;
  }
}
