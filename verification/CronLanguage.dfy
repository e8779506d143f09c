/** The cron language from the outside: what numerals mean, and what every accepted expression yields. */
module CronLanguage {
  import opened Options
  import opened Int64
  import opened GoStrings
  import opened CronSteps
  import opened Calendar
  import opened Cron
  import opened CronHorizon
  import opened CronParser

  lemma ParseNumeral(n: nat, spec: FieldSpec)
    requires spec.min <= n <= spec.max
    ensures ParseValue(Itoa(n), spec) == Ok(n)
  {
    var s := Itoa(n);
    TrimDigits(s);
    AtoiItoa(n);
    assert IsDigit(s[0]);
    assert s !in spec.names;
  }

  lemma NoMark(n: nat, c: char)
    requires !IsDigit(c)
    ensures forall i :: 0 <= i < |Itoa(n)| ==> Itoa(n)[i] != c
    ensures IndexByte(Itoa(n), c) == -1
  {
    forall i | 0 <= i < |Itoa(n)| ensures Itoa(n)[i] != c {
      assert IsDigit(Itoa(n)[i]);
    }
  }

  /** A single numeral stands for itself. */
  lemma NumeralPart(n: nat, spec: FieldSpec)
    requires spec.min <= n <= spec.max
    ensures PartRange(Itoa(n), spec) == Ok(Range(n, n, 1))
  {
    var part := Itoa(n);
    NoMark(n, '/');
    NoMark(n, '-');
    assert IsDigit(part[0]);
    ParseNumeral(n, spec);
  }

  /** "n/step" is the open range from n to the field's maximum. */
  lemma OpenRangePart(n: nat, step: nat, spec: FieldSpec)
    requires spec.min <= n <= spec.max && 0 < step < TWO63
    ensures PartRange(Itoa(n) + "/" + Itoa(step), spec) == Ok(Range(n, spec.max, step))
  {
    var part := Itoa(n) + "/" + Itoa(step);
    NoMark(n, '/');
    NoMark(n, '-');
    IndexByteAt(part, '/', |Itoa(n)|);
    assert part[..|Itoa(n)|] == Itoa(n);
    assert part[|Itoa(n)| + 1..] == Itoa(step);
    assert IsDigit(Itoa(n)[0]);
    ParseNumeral(n, spec);
    AtoiItoa(step);
  }

  /** "lo-hi/step" is the range it prints. */
  lemma RangePart(lo: nat, hi: nat, step: nat, spec: FieldSpec)
    requires spec.min <= lo <= hi <= spec.max && 0 < step < TWO63
    ensures PartRange(Itoa(lo) + "-" + Itoa(hi) + "/" + Itoa(step), spec) == Ok(Range(lo, hi, step))
  {
    hide Itoa, Atoi, AllDigits, ParseValue, IndexByte;
    var a, b, c := Itoa(lo), Itoa(hi), Itoa(step);
    var text := a + "-" + b;
    var part := text + "/" + c;
    NoMark(lo, '/');
    NoMark(hi, '/');
    NoMark(lo, '-');
    SplitAt(text, '/', c);
    SplitAt(a, '-', b);
    NumeralText(lo);
    assert text != "*" by { assert text[0] == a[0]; }
    ParseNumeral(lo, spec);
    ParseNumeral(hi, spec);
    AtoiItoa(step);
  }

  lemma NumeralText(n: nat)
    ensures Itoa(n) != "" && Itoa(n)[0] != '*'
  {
    assert IsDigit(Itoa(n)[0]);
  }

  /** Cutting at the first mark gives back the two sides. */
  lemma SplitAt(a: string, mark: char, b: string)
    requires forall i :: 0 <= i < |a| ==> a[i] != mark
    ensures var s := a + [mark] + b;
      IndexByte(s, mark) == |a| && s[..|a|] == a && s[|a| + 1..] == b
  {
    IndexByteAt(a + [mark] + b, mark, |a|);
  }

  /** The minute part "3/9223372036854775807" also sets minute 1: its loop wraps around. */
  lemma WrapExample()
    ensures var part := Itoa(3) + "/" + Itoa(TWO63 - 1);
      && PartMask(part, MINUTES).Ok?
      && 1 in PartMask(part, MINUTES).value
      && !Denotes(part, MINUTES, 1)
  {
    OpenRangePart(3, TWO63 - 1, MINUTES);
    assert Reached(1, 3, TWO64 - 2 * (TWO63 - 1));
  }

  /** The masks of an accepted expression hold exactly what its fields denote, 7 counting as Sunday. */
  lemma ParsedExact(expr: string)
    requires CronOf(expr).Ok?
    requires var fs := Fields(expr);
      && CleanField(fs[0], MINUTES) && CleanField(fs[1], HOURS) && CleanField(fs[2], DAYS)
      && CleanField(fs[3], MONTHS) && CleanField(fs[4], WEEKDAYS)
    ensures var s, fs := CronOf(expr).value, Fields(expr);
      && (forall v :: v in s.minutes <==> FieldDenotes(fs[0], MINUTES, v))
      && (forall v :: v in s.hours <==> FieldDenotes(fs[1], HOURS, v))
      && (forall v :: v in s.doms <==> FieldDenotes(fs[2], DAYS, v))
      && (forall v :: v in s.months <==> FieldDenotes(fs[3], MONTHS, v))
      && (forall v :: v in s.dows <==>
            (v != 7 && FieldDenotes(fs[4], WEEKDAYS, v)) || (v == 0 && FieldDenotes(fs[4], WEEKDAYS, 7)))
  {
    hide FieldMask, FieldDenotes, CleanField, Fields;
    var fs := Fields(expr);
    FieldExact(fs[0], MINUTES);
    FieldExact(fs[1], HOURS);
    FieldExact(fs[2], DAYS);
    FieldExact(fs[3], MONTHS);
    FieldExact(fs[4], WEEKDAYS);
  }

  /** Every accepted expression allows a minute, an hour, a month and a weekday, and some date. */
  lemma ParsedPopulated(expr: string)
    requires CronOf(expr).Ok?
    ensures var s := CronOf(expr).value; Populated(s) && SomeDate(s.doms, s.months)
  {
    hide PartsMask, Fields;
    var fs := Fields(expr);
    RejectsImpossible(fs);
    PartsInhabited(Split(fs[0], ','), MINUTES);
    PartsInhabited(Split(fs[1], ','), HOURS);
    PartsInhabited(Split(fs[3], ','), MONTHS);
    PartsInhabited(Split(fs[4], ','), WEEKDAYS);
    var w :| 0 <= w <= 7 && w in FieldMask(fs[4], WEEKDAYS).value;
    assert (if w == 7 then 0 else w) in CronOf(expr).value.dows;
  }

  /** With a star for the day of the month, Next never returns the zero time. */
  lemma StarDayNeverZero(expr: string, t: Instant)
    requires CronOf(expr).Ok? && Fields(expr)[2] == "*" && t >= ZERO_TIME
    ensures NextTime(CronOf(expr).value, t) != ZERO_TIME
  {
    hide FieldMask, Fields, NextTime;
    ParsedPopulated(expr);
    StarField(DAYS);
    FullDaysNeverZero(CronOf(expr).value, t);
  }

  /** With a star for the weekday, Next never returns the zero time exactly when not only February 29 is allowed. */
  lemma StarWeekdayNeverZero(expr: string)
    requires CronOf(expr).Ok? && Fields(expr)[4] == "*"
    ensures var s := CronOf(expr).value;
      (forall t :: t >= ZERO_TIME ==> NextTime(s, t) != ZERO_TIME)
      <==> (exists m, d :: Possible(s.doms, s.months, m, d) && !(m == 2 && d == 29))
  {
    hide FieldMask, Fields, NextTime;
    var s := CronOf(expr).value;
    ParsedPopulated(expr);
    StarField(WEEKDAYS);
    FullWeekdaysNeverZero(s);
    YearlyPossible(s);
  }

  lemma YearlyPossible(s: Schedule)
    ensures Yearly(s) <==> exists m, d :: Possible(s.doms, s.months, m, d) && !(m == 2 && d == 29)
  {
    if Yearly(s) {
      var m, d :| InYearMonth(m) && m in s.months && d in s.doms && 1 <= d <= MonthLength(2023, m);
      assert Possible(s.doms, s.months, m, d);
    }
  }

  /** A field that is a single numeral allows that value and no other. */
  lemma NumeralField(n: nat, spec: FieldSpec)
    requires spec.min <= n <= spec.max
    ensures FieldMask(Itoa(n), spec) == Ok({n})
  {
    var part := Itoa(n);
    NumeralPart(n, spec);
    NoMark(n, ',');
    SingleValue(n);
    hide PartRange, Itoa, Stepped, Wrapped;
    assert Split(part, ',') == [part];
    OnePart(part, spec);
  }

  lemma OnePart(part: string, spec: FieldSpec)
    ensures PartsMask([part], spec) == PartMask(part, spec)
  {
    hide PartMask;
    assert [part][..0] == [];
    assert PartsMask([], spec) == Ok({});
    if PartMask(part, spec).Ok? {
      assert {} + PartMask(part, spec).value == PartMask(part, spec).value;
    }
  }

  lemma SingleValue(n: int)
    requires 0 <= n < 64
    ensures Stepped(n, n, 1) + Wrapped(n, 1) == {n}
  {
    CleanStep(n, 1);
  }

  const LEAP_DAY_FIELDS: seq<string> := ["0", "0", "29", "2", "*"]

  lemma LeapDayFields()
    ensures JoinWords(LEAP_DAY_FIELDS) == "0 0 29 2 *"
    ensures Fields(JoinWords(LEAP_DAY_FIELDS)) == LEAP_DAY_FIELDS
  {
    var fs := LEAP_DAY_FIELDS;
    hide Fields;
    assert JoinWords(fs[3..]) == "2 *" by { assert fs[3..][1..] == ["*"]; }
    assert JoinWords(fs[2..]) == "29 2 *" by { assert fs[2..][1..] == fs[3..]; }
    assert JoinWords(fs[1..]) == "0 29 2 *" by { assert fs[1..][1..] == fs[2..]; }
    FieldsJoin(fs);
  }

  lemma LeapDayMasks()
    ensures FieldMask("0", MINUTES) == Ok({0}) && FieldMask("0", HOURS) == Ok({0})
    ensures FieldMask("29", DAYS) == Ok({29}) && FieldMask("2", MONTHS) == Ok({2}) && FieldMask("*", WEEKDAYS).Ok?
  {
    hide FieldMask;
    assert Itoa(0) == "0" && Itoa(2) == "2";
    assert Itoa(29) == "29";
    NumeralField(0, MINUTES);
    NumeralField(0, HOURS);
    NumeralField(29, DAYS);
    NumeralField(2, MONTHS);
    StarField(WEEKDAYS);
  }

  lemma LeapDayParsed()
    ensures var r := CronOfFields(LEAP_DAY_FIELDS); r.Ok? && r.value.doms == {29} && r.value.months == {2}
  {
    LeapDayMasks();
    hide FieldMask, JoinWords;
    assert Possible({29}, {2}, 2, 29);
  }

  /** The expression "0 0 29 2 *" is accepted, and after 1896-03-01 its Next returns the zero time. */
  lemma LeapDayExpression()
    ensures var expr := JoinWords(LEAP_DAY_FIELDS);
      && expr == "0 0 29 2 *"
      && CronOf(expr).Ok? && NextTime(CronOf(expr).value, LEAP_GAP) == ZERO_TIME
  {
    LeapDayFields();
    LeapDayParsed();
    hide CronOfFields, Fields, NextTime, JoinWords, LEAP_GAP;
    var s := CronOfFields(LEAP_DAY_FIELDS).value;
    assert !Yearly(s);
    LeapDayGap(s);
  }
}
