/**
 The day rule. README.md:157-158 lets a time match if either day field does when both
 are restricted; the code asks for both. When the two come to the same.
 */
module CronRule {
  import opened Options
  import opened GoStrings
  import opened Calendar
  import opened Cron
  import opened CronHorizon
  import opened CronParser
  import opened CronLanguage

  /** The documented rule for the day; a star does not restrict its field. */
  predicate DocumentedDay(s: Schedule, dayField: string, weekdayField: string, t: Instant) {
    if dayField != "*" && weekdayField != "*" then Day(t) in s.doms || Weekday(t) in s.dows
    else (dayField == "*" || Day(t) in s.doms) && (weekdayField == "*" || Weekday(t) in s.dows)
  }

  predicate Documented(s: Schedule, dayField: string, weekdayField: string, t: Instant) {
    var m := Truncate(t, MINUTE);
    Month(m) in s.months && DocumentedDay(s, dayField, weekdayField, m) && Hour(m) in s.hours && Minute(m) in s.minutes
  }

  ghost predicate Agrees(s: Schedule, dayField: string, weekdayField: string) {
    forall t :: Matches(s, t) <==> Documented(s, dayField, weekdayField, t)
  }

  /** Every day of every allowed month is allowed, February 29 included. */
  ghost predicate AllDays(s: Schedule) {
    forall m, d :: InYearMonth(m) && m in s.months && 1 <= d <= MonthLength(2024, m) ==> d in s.doms
  }

  /** From one leap year to the next a date moves on by 1461 days. */
  lemma {:induction false} LeapYearsOn(k: nat)
    requires k <= 6
    ensures Leap(2000 + 4 * k) && YearStart(2000 + 4 * k) == YearStart(2000) + 1461 * k
  {
    hide YearStart;
    if k == 0 {
    } else {
      var y := 2000 + 4 * (k - 1);
      LeapYearsOn(k - 1);
      YearStep(y);
      YearStep(y + 1);
      YearStep(y + 2);
      YearStep(y + 3);
      assert !Leap(y + 1) && !Leap(y + 2) && !Leap(y + 3);
    }
  }

  /** Every day of the year falls on every weekday, in some year. */
  lemma DayOnWeekday(m: int, d: int, w: int) returns (date: Date)
    requires 1 <= m <= 12 && 1 <= d <= MonthLength(2024, m) && 0 <= w < 7
    ensures ValidDate(date) && date.month == m && date.day == d
    ensures (DayNumber(date.year, m, d) + 1) % 7 == w
  {
    var x := DayNumber(2000, m, d) + 1;
    var k := 3 * (w - x) % 7;
    LeapYearsOn(k);
    DaysBeforeClosed(2000, m);
    DaysBeforeClosed(2000 + 4 * k, m);
    date := Date(2000 + 4 * k, m, d);
    assert Leap(2000) && Leap(2024);
    hide YearStart, DaysBefore;
    assert DayNumber(date.year, m, d) + 1 == x + 1461 * k;
    FiveSteps(x, w);
  }

  lemma FiveSteps(x: int, w: int)
    requires 0 <= w < 7
    ensures (x + 1461 * (3 * (w - x) % 7)) % 7 == w
  {
    var k := 3 * (w - x) % 7;
    var q := 3 * (w - x) / 7;
    assert x + 1461 * k == w + 7 * (208 * k + 2 * (w - x) - 5 * q) by {
      assert k == 3 * (w - x) - 7 * q;
    }
  }

  /** The two rules at a minute of a date: they agree there if and only if day and weekday are both allowed or both not. */
  lemma AgreesAt(s: Schedule, dayField: string, weekdayField: string, date: Date)
    requires Populated(s) && ValidDate(date) && date.month in s.months && dayField != "*" && weekdayField != "*"
    requires Agrees(s, dayField, weekdayField)
    ensures date.day in s.doms <==> (DayNumber(date.year, date.month, date.day) + 1) % 7 in s.dows
  {
    hide YearStart, DaysBefore, Civil, MonthLength;
    var dn := DayNumber(date.year, date.month, date.day);
    CivilRoundTrip(date);
    var i :| 0 <= i < 60 && i in s.minutes;
    var h :| 0 <= h < 24 && h in s.hours;
    FieldsAt(dn, h, i);
    var t := At(dn, h, i);
    assert Truncate(t, MINUTE) == t;
    assert Matches(s, t) <==> Documented(s, dayField, weekdayField, t);
  }

  lemma AgreesOnDay(s: Schedule, dayField: string, weekdayField: string, m: int, d: int, w: int)
    requires Populated(s) && dayField != "*" && weekdayField != "*" && Agrees(s, dayField, weekdayField)
    requires InYearMonth(m) && m in s.months && 1 <= d <= MonthLength(2024, m) && 0 <= w < 7
    ensures d in s.doms <==> w in s.dows
  {
    hide Agrees, DayNumber, MonthLength, Populated;
    var date := DayOnWeekday(m, d, w);
    AgreesAt(s, dayField, weekdayField, date);
  }

  lemma LongestMonth(y: int, m: int)
    requires 1 <= m <= 12
    ensures 28 <= MonthLength(y, m) <= MonthLength(2024, m)
  {
  }

  lemma FullAgrees(s: Schedule, dayField: string, weekdayField: string, t: Instant)
    requires FullWeekdays(s) && AllDays(s)
    ensures Matches(s, t) <==> Documented(s, dayField, weekdayField, t)
  {
    hide YearStart, DaysBefore, Civil, MonthLength, Truncate, Hour, Minute;
    var m := Truncate(t, MINUTE);
    var date := Civil(DayOf(m));
    LongestMonth(date.year, date.month);
    assert InYearMonth(Month(m)) && Weekday(m) in s.dows;
  }

  /** With both day fields restricted, code and documentation agree if and only if every weekday and every day of every allowed month is allowed. */
  lemma RuleExact(s: Schedule, dayField: string, weekdayField: string)
    requires Populated(s) && dayField != "*" && weekdayField != "*"
    ensures Agrees(s, dayField, weekdayField) <==> FullWeekdays(s) && AllDays(s)
  {
    hide MonthLength, Matches, Documented;
    if Agrees(s, dayField, weekdayField) {
      var m :| InYearMonth(m) && m in s.months;
      var v :| 0 <= v < 7 && v in s.dows;
      LongestMonth(2024, m);
      AgreesOnDay(s, dayField, weekdayField, m, 1, v);
      forall w | 0 <= w < 7 ensures w in s.dows {
        AgreesOnDay(s, dayField, weekdayField, m, 1, w);
      }
      forall n, d | InYearMonth(n) && n in s.months && 1 <= d <= MonthLength(2024, n) ensures d in s.doms {
        AgreesOnDay(s, dayField, weekdayField, n, d, v);
      }
    }
    if FullWeekdays(s) && AllDays(s) {
      forall t ensures Matches(s, t) <==> Documented(s, dayField, weekdayField, t) {
        FullAgrees(s, dayField, weekdayField, t);
      }
    }
  }

  lemma StarAgrees(s: Schedule, dayField: string, weekdayField: string, t: Instant)
    requires (dayField == "*" && FullDays(s)) || (weekdayField == "*" && FullWeekdays(s))
    requires (dayField == "*" ==> FullDays(s)) && (weekdayField == "*" ==> FullWeekdays(s))
    ensures Matches(s, t) <==> Documented(s, dayField, weekdayField, t)
  {
    hide YearStart, DaysBefore, Civil, Truncate, Hour, Minute;
    var m := Truncate(t, MINUTE);
    var date := Civil(DayOf(m));
    assert 1 <= date.day <= 31;
  }

  /** For an accepted expression the code follows the documented rule if and only if a day field is a star, or every day and weekday is allowed. */
  lemma ParsedRule(expr: string)
    requires CronOf(expr).Ok?
    ensures var s, fs := CronOf(expr).value, Fields(expr);
      Agrees(s, fs[2], fs[4]) <==> fs[2] == "*" || fs[4] == "*" || (FullWeekdays(s) && AllDays(s))
  {
    hide FieldMask, Fields, Matches, Documented, AllDays;
    var s, fs := CronOf(expr).value, Fields(expr);
    ParsedPopulated(expr);
    StarField(DAYS);
    StarField(WEEKDAYS);
    if fs[2] == "*" || fs[4] == "*" {
      forall t ensures Matches(s, t) <==> Documented(s, fs[2], fs[4], t) {
        StarAgrees(s, fs[2], fs[4], t);
      }
    } else {
      RuleExact(s, fs[2], fs[4]);
    }
  }

  const FRIDAY_FIELDS: seq<string> := ["0", "0", "13", "*", "5"]

  lemma FridayFields()
    ensures JoinWords(FRIDAY_FIELDS) == "0 0 13 * 5"
    ensures Fields(JoinWords(FRIDAY_FIELDS)) == FRIDAY_FIELDS
  {
    var fs := FRIDAY_FIELDS;
    hide Fields;
    assert JoinWords(fs[3..]) == "* 5" by { assert fs[3..][1..] == ["5"]; }
    assert JoinWords(fs[2..]) == "13 * 5" by { assert fs[2..][1..] == fs[3..]; }
    assert JoinWords(fs[1..]) == "0 13 * 5" by { assert fs[1..][1..] == fs[2..]; }
    FieldsJoin(fs);
  }

  lemma FridayMasks()
    ensures FieldMask("0", MINUTES) == Ok({0}) && FieldMask("0", HOURS) == Ok({0}) && FieldMask("13", DAYS) == Ok({13})
    ensures FieldMask("*", MONTHS).Ok? && 1 in FieldMask("*", MONTHS).value && FieldMask("5", WEEKDAYS) == Ok({5})
  {
    hide FieldMask;
    assert Itoa(0) == "0" && Itoa(5) == "5";
    assert Itoa(13) == "13";
    NumeralField(0, MINUTES);
    NumeralField(0, HOURS);
    NumeralField(13, DAYS);
    NumeralField(5, WEEKDAYS);
    StarField(MONTHS);
  }

  lemma FridayParsed()
    ensures var r := CronOfFields(FRIDAY_FIELDS);
      r.Ok? && r.value.minutes == {0} && r.value.hours == {0} && r.value.doms == {13} && 1 in r.value.months && r.value.dows == {5}
  {
    FridayMasks();
    hide FieldMask, JoinWords;
  }

  lemma JanuaryThe13th()
    ensures DayNumber(1970, 1, 13) == 719_174 && Civil(719_174) == Date(1970, 1, 13)
  {
    FirstOfYear(1970);
    assert YearStart(1970) == 719_162 by { YearStartClosed(1970); }
    hide YearStart, DaysBefore, Civil;
    CivilRoundTrip(Date(1970, 1, 13));
  }

  lemma TuesdayThe13th()
    ensures var t := AtHour(1970, 1, 13, 0);
      Aligned(t) && Month(t) == 1 && Day(t) == 13 && Weekday(t) == 2 && Hour(t) == 0 && Minute(t) == 0
  {
    hide YearStart, DaysBefore, Civil, DayNumber;
    JanuaryThe13th();
    FieldsAt(719_174, 0, 0);
    assert AtHour(1970, 1, 13, 0) == At(719_174, 0, 0);
  }

  /** "0 0 13 * 5" at midnight of Tuesday, 1970-01-13: documented to match, and it does not. */
  lemma FridayExpression()
    ensures var expr, t := JoinWords(FRIDAY_FIELDS), AtHour(1970, 1, 13, 0);
      && expr == "0 0 13 * 5" && CronOf(expr).Ok?
      && Documented(CronOf(expr).value, "13", "5", t) && !Matches(CronOf(expr).value, t)
  {
    FridayFields();
    FridayParsed();
    TuesdayThe13th();
    hide CronOfFields, Fields, JoinWords, AtHour, Month, Day, Weekday, Hour, Minute;
  }
}
