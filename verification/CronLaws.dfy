/**
 What the cron searches promise: Next and Prev find the nearest match and invert one
 another, and Upcoming skips nothing. When Next can run out is in CronHorizon.
 */
module CronLaws {
  import opened Calendar
  import opened Cron

  ghost predicate IsNext(s: Schedule, t: Instant, r: Instant) {
    && Aligned(r) && Matches(s, r) && t < r < NextLimit(t)
    && forall u :: t < u < r && Aligned(u) ==> !Matches(s, u)
  }

  ghost predicate NoneAhead(s: Schedule, t: Instant) {
    forall u :: t < u < NextLimit(t) && Aligned(u) ==> !Matches(s, u)
  }

  ghost predicate IsPrev(s: Schedule, t: Instant, r: Instant) {
    && Aligned(r) && Matches(s, r) && PrevLimit(t) < r < t
    && forall u :: r < u < t && Aligned(u) ==> !Matches(s, u)
  }

  ghost predicate NoneBehind(s: Schedule, t: Instant) {
    forall u :: PrevLimit(t) < u < t && Aligned(u) ==> !Matches(s, u)
  }

  lemma AlignedGap(t: Instant, u: Instant)
    requires Aligned(u)
    ensures t < u ==> NextStart(t) <= u
    ensures u < Truncate(t, MINUTE) ==> u <= PrevStart(t)
    ensures u <= t ==> u <= Truncate(t, MINUTE)
  {
  }

  /** Next is the earliest match strictly after t in its window, or zero if there is none. */
  lemma NextCorrect(s: Schedule, t: Instant)
    ensures NextTime(s, t) != ZERO_TIME ==> IsNext(s, t, NextTime(s, t))
    ensures NextTime(s, t) == ZERO_TIME ==> NoneAhead(s, t) || IsNext(s, t, ZERO_TIME)
    ensures NoneAhead(s, t) ==> NextTime(s, t) == ZERO_TIME
  {
    hide Matches, Aligned, AddDate;
    var lo, hi := NextStart(t), NextLimit(t);
    TruncateAligned(t);
    FirstMatchEarliest(s, lo, hi);
    forall u | t < u < hi && Aligned(u) ensures lo <= u {
      AlignedGap(t, u);
    }
    var r := FirstMatch(s, lo, hi);
    if r.Some? {
      assert IsNext(s, t, r.value);
    } else {
      assert NoneAhead(s, t);
    }
  }

  lemma NextUnique(s: Schedule, t: Instant, r: Instant, r': Instant)
    requires IsNext(s, t, r) && IsNext(s, t, r')
    ensures r == r'
  {
  }

  lemma TruncateMatches(s: Schedule, t: Instant)
    ensures Aligned(t) <==> Truncate(t, MINUTE) == t
    ensures Matches(s, Truncate(t, MINUTE)) <==> Matches(s, t)
  {
    hide DayMatches, Month, Hour, Minute;
    assert Truncate(Truncate(t, MINUTE), MINUTE) == Truncate(t, MINUTE);
  }

  ghost predicate PrevMeetsSpec(s: Schedule, t: Instant) {
    var r := PrevTime(s, t);
    (r != ZERO_TIME ==> IsPrev(s, t, r)) && (r == ZERO_TIME ==> NoneBehind(s, t) || IsPrev(s, t, ZERO_TIME))
  }

  lemma PrevWindow(s: Schedule, t: Instant)
    ensures var r := LastMatch(s, PrevStart(t), PrevLimit(t));
      && (r.Some? ==> Aligned(r.value) && Matches(s, r.value) && PrevLimit(t) < r.value < Truncate(t, MINUTE)
                      && (forall u :: r.value < u < Truncate(t, MINUTE) && Aligned(u) ==> !Matches(s, u)))
      && (r.None? ==> forall u :: PrevLimit(t) < u < Truncate(t, MINUTE) && Aligned(u) ==> !Matches(s, u))
  {
    hide Matches, Aligned, AddDate;
    TruncateAligned(t);
    LastMatchLatest(s, PrevStart(t), PrevLimit(t));
    forall u | u < Truncate(t, MINUTE) && Aligned(u) ensures u <= PrevStart(t) {
      AlignedGap(t, u);
    }
  }

  /**
   Prev finds the latest match strictly before t in its window exactly when t is
   minute-aligned or its own minute does not match: that minute is never looked at.
   (In the zero time's own minute "none" and the right answer read the same.)
   */
  lemma PrevCorrect(s: Schedule, t: Instant)
    requires Truncate(t, MINUTE) != ZERO_TIME
    ensures PrevMeetsSpec(s, t) <==> Aligned(t) || !Matches(s, t)
  {
    hide Aligned, AddDate, Matches;
    var m := Truncate(t, MINUTE);
    TruncateAligned(t);
    TruncateMatches(s, t);
    PrevWindow(s, t);
    var r := LastMatch(s, PrevStart(t), PrevLimit(t));
    YearsBack(PrevStart(t));
    if Aligned(t) || !Matches(s, t) {
      forall u | m <= u < t && Aligned(u) ensures !Matches(s, u) {
        AlignedGap(t, u);
      }
      if r.Some? {
        assert IsPrev(s, t, r.value);
      } else {
        assert NoneBehind(s, t);
      }
    } else {
      assert PrevLimit(t) < m < t && Aligned(m) && Matches(s, m);
    }
  }

  /** "* * * * *". */
  const EVERY_MINUTE := Schedule("* * * * *", set i | 0 <= i < 60, set h | 0 <= h < 24,
                                 set d | 1 <= d <= 31, set m | 1 <= m <= 12, set w | 0 <= w < 7)

  lemma EveryMinuteMatches(t: Instant)
    ensures Matches(EVERY_MINUTE, t)
  {
    hide YearStart, DaysBefore, Civil, Truncate;
    var m := Truncate(t, MINUTE);
    var date := Civil(DayOf(m));
    assert 1 <= date.month <= 12 && 1 <= date.day <= 31;
    assert 0 <= Hour(m) < 24 && 0 <= Minute(m) < 60;
  }

  /** Half a minute past 00:02, Prev of every minute is not 00:02, the latest match before it. */
  lemma PrevSkipsOwnMinute()
    ensures var t := 2 * MINUTE + MINUTE / 2;
      2 * MINUTE < t && Matches(EVERY_MINUTE, 2 * MINUTE) && Aligned(2 * MINUTE) && !PrevMeetsSpec(EVERY_MINUTE, t)
  {
    hide EVERY_MINUTE, Matches, PrevMeetsSpec;
    var t := 2 * MINUTE + MINUTE / 2;
    EveryMinuteMatches(t);
    EveryMinuteMatches(2 * MINUTE);
    assert Truncate(t, MINUTE) == 2 * MINUTE && !Aligned(t);
    PrevCorrect(EVERY_MINUTE, t);
  }

  /** Shifting an instant back or forward by whole years moves it strictly. */
  lemma YearsBack(t: Instant)
    ensures AddDate(t, -SEARCH_YEARS, 0, 0) < t < AddDate(t, SEARCH_YEARS, 0, 0)
  {
    hide YearStart, DaysBefore, Civil;
    var d := Civil(DayOf(t));
    CivilNumber(DayOf(t));
    YearsGrow(d.year - 5, d.year);
    YearsGrow(d.year, d.year + 5);
    DaysBeforeVaries(d.year - 5, d.year, d.month);
    DaysBeforeVaries(d.year + 5, d.year, d.month);
  }

  lemma DaysBeforeVaries(y: int, z: int, m: int)
    requires 1 <= m <= 13
    ensures -1 <= DaysBefore(y, m) - DaysBefore(z, m) <= 1
  {
    DaysBeforeClosed(y, m);
    DaysBeforeClosed(z, m);
  }

  /** Prev undoes Next: from the next fire time, Prev leads back to the match we left. */
  lemma PrevInvertsNext(s: Schedule, t: Instant, r: Instant)
    requires Aligned(t) && Matches(s, t)
    requires r == NextTime(s, t) != ZERO_TIME && PrevLimit(r) < t
    ensures PrevTime(s, r) == t
  {
    hide Matches, Aligned, PrevLimit, NextLimit;
    NextCorrect(s, t);
    PrevWindow(s, r);
    AlignedGap(r, r);
    TruncateAligned(r);
  }

  /** Next undoes Prev. */
  lemma NextInvertsPrev(s: Schedule, t: Instant, p: Instant)
    requires Aligned(t) && Matches(s, t)
    requires p == PrevTime(s, t) != ZERO_TIME && t < NextLimit(p) && t != ZERO_TIME
    ensures NextTime(s, p) == t
  {
    hide Matches, Aligned, PrevLimit, NextLimit;
    TruncateMatches(s, t);
    PrevCorrect(s, t);
    NextCorrect(s, p);
  }

  // ---- Upcoming ----

  function UpcomingTimes(s: Schedule, t: Instant, n: int): seq<Instant>
    decreases n
  {
    if n <= 0 then []
    else
      var r := NextTime(s, t);
      if r == ZERO_TIME then [] else [r] + UpcomingTimes(s, r, n - 1)
  }

  lemma {:induction false} UpcomingSnoc(s: Schedule, t: Instant, n: int)
    requires n >= 0
    ensures |UpcomingTimes(s, t, n)| <= n
    ensures var up := UpcomingTimes(s, t, n);
      var last := if up == [] then t else up[|up| - 1];
      UpcomingTimes(s, t, n + 1) ==
        if |up| < n || NextTime(s, last) == ZERO_TIME then up else up + [NextTime(s, last)]
    decreases n
  {
    hide NextTime;
    if n == 0 {
      assert UpcomingTimes(s, NextTime(s, t), 0) == [];
    } else if NextTime(s, t) != ZERO_TIME {
      UpcomingSnoc(s, NextTime(s, t), n - 1);
    }
  }

  method Upcoming(s: Schedule, t: Instant, n: int) returns (out: seq<Instant>)
    ensures out == UpcomingTimes(s, t, n)
  {
    hide NextTime;
    if n <= 0 {
      return [];
    }
    out := [];
    var cur := t;
    for i := 0 to n
      invariant out == UpcomingTimes(s, t, i) && |out| == i
      invariant cur == if out == [] then t else out[|out| - 1]
    {
      UpcomingSnoc(s, t, i);
      var next := Next(s, cur);
      if next == ZERO_TIME {
        UpcomingShort(s, t, i + 1, n);
        break;
      }
      out := out + [next];
      cur := next;
    }
  }

  /** Once the list is short it stays as it is. */
  lemma {:induction false} UpcomingShort(s: Schedule, t: Instant, k: int, n: int)
    requires 0 <= k <= n && |UpcomingTimes(s, t, k)| < k
    ensures UpcomingTimes(s, t, n) == UpcomingTimes(s, t, k)
    decreases n - k
  {
    hide NextTime;
    if k == n {
    } else {
      UpcomingSnoc(s, t, k);
      UpcomingShort(s, t, k + 1, n);
    }
  }

  /** Upcoming lists the matches after t in order, leaves none out, and stops early only when Next does. */
  lemma {:induction false} UpcomingCorrect(s: Schedule, t: Instant, n: int)
    ensures var up := UpcomingTimes(s, t, n);
      var last := if up == [] then t else up[|up| - 1];
      && t <= last && |up| <= (if n < 0 then 0 else n)
      && (forall u :: u in up <==> t < u <= last && Aligned(u) && Matches(s, u))
      && (forall i, j :: 0 <= i < j < |up| ==> up[i] < up[j])
      && (|up| < n ==> NextTime(s, last) == ZERO_TIME)
    decreases n
  {
    hide Matches, Aligned, NextTime, NextLimit;
    var up := UpcomingTimes(s, t, n);
    if n <= 0 || NextTime(s, t) == ZERO_TIME {
    } else {
      var r := NextTime(s, t);
      NextCorrect(s, t);
      UpcomingCorrect(s, r, n - 1);
      var rest := UpcomingTimes(s, r, n - 1);
      assert up == [r] + rest;
      forall j | 0 <= j < |rest| ensures r < rest[j] {
        assert rest[j] in rest;
      }
      assert r in up;
      forall u | u in rest ensures u in up {}
    }
  }
}
