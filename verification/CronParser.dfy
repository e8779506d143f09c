/** Parsing cron expressions (cron.go), and what a parsed schedule is known to satisfy. */
module CronParser {
  import opened Options
  import opened Int64
  import opened GoStrings
  import opened CronSteps
  import opened Calendar
  import opened Cron

  datatype CronError =
    | FieldCount(got: nat)
    | InvalidStep(text: string)
    | InvalidValue(text: string)
    | OutOfRange(value: int)
    | Inverted(lo: int, hi: int)
    | NoSuchDay

  /** A field's bounds and lower-case names; every value is within the bounds and a bit of a 64-bit mask. */
  datatype FieldData = Field(name: string, min: int, max: int, names: map<string, int>)

  predicate ValidField(f: FieldData) {
    && 0 <= f.min <= f.max < 64
    && (forall k :: k in f.names ==> f.min <= f.names[k] <= f.max)
    && forall k :: k in f.names ==> k != "" && 'a' <= k[0] <= 'z'
  }

  type FieldSpec = f: FieldData | ValidField(f) witness Field("minute", 0, 59, map[])

  const MONTH_NAMES: map<string, int> := map[
    "jan" := 1, "feb" := 2, "mar" := 3, "apr" := 4, "may" := 5, "jun" := 6,
    "jul" := 7, "aug" := 8, "sep" := 9, "oct" := 10, "nov" := 11, "dec" := 12]

  const DOW_NAMES: map<string, int> := map[
    "sun" := 0, "mon" := 1, "tue" := 2, "wed" := 3, "thu" := 4, "fri" := 5, "sat" := 6]

  const MINUTES: FieldSpec := Field("minute", 0, 59, map[])
  const HOURS: FieldSpec := Field("hour", 0, 23, map[])
  const DAYS: FieldSpec := Field("day-of-month", 1, 31, map[])
  const MONTHS: FieldSpec := Field("month", 1, 12, MONTH_NAMES)
  const WEEKDAYS: FieldSpec := Field("day-of-week", 0, 7, DOW_NAMES)

  // ---- One comma part ----

  function ParseValue(text: string, spec: FieldSpec): Result<int, CronError> {
    var s := TrimSpace(text);
    if ToLower(s) in spec.names then Ok(spec.names[ToLower(s)])
    else
      match Atoi(s)
      case None => Err(InvalidValue(s))
      case Some(v) => if v < spec.min || v > spec.max then Err(OutOfRange(v)) else Ok(v)
  }

  datatype Range = Range(lo: int, hi: int, step: int)

  function ParseStep(part: string): Result<int, CronError> {
    var slash := IndexByte(part, '/');
    if slash < 0 then Ok(1)
    else
      match Atoi(part[slash + 1..])
      case None => Err(InvalidStep(part[slash + 1..]))
      case Some(n) => if n <= 0 then Err(InvalidStep(part[slash + 1..])) else Ok(n)
  }

  function ParseBounds(part: string, spec: FieldSpec): Result<(int, int), CronError> {
    var slash := IndexByte(part, '/');
    var text := if slash >= 0 then part[..slash] else part;
    var dash := IndexByte(text, '-');
    if text == "*" then Ok((spec.min, spec.max))
    else if dash > 0 then
      match ParseValue(text[..dash], spec)
      case Err(e) => Err(e)
      case Ok(lo) =>
        match ParseValue(text[dash + 1..], spec)
        case Err(e) => Err(e)
        case Ok(hi) => Ok((lo, hi))
    else
      match ParseValue(text, spec)
      case Err(e) => Err(e)
      case Ok(v) => Ok((v, if slash >= 0 then spec.max else v))
  }

  /** The branches of parsePart: a part's range and step, checked against the field. */
  function PartRange(part: string, spec: FieldSpec): (r: Result<Range, CronError>)
    ensures r.Ok? ==> spec.min <= r.value.lo <= r.value.hi <= spec.max && 0 < r.value.step < TWO63
  {
    match ParseStep(part)
    case Err(e) => Err(e)
    case Ok(step) =>
      match ParseBounds(part, spec)
      case Err(e) => Err(e)
      case Ok((lo, hi)) =>
        if lo > hi then Err(Inverted(lo, hi))
        else if lo < spec.min then Err(OutOfRange(lo))
        else if hi > spec.max then Err(OutOfRange(hi))
        else Ok(Range(lo, hi, step))
  }

  /** v is one of the values the part stands for. */
  predicate Denotes(part: string, spec: FieldSpec, v: int)
  {
    var r := PartRange(part, spec);
    r.Ok? && r.value.lo <= v <= r.value.hi && (v - r.value.lo) % r.value.step == 0
  }

  /** The part's step is too small for its loop variable to wrap around and hit a bit. */
  predicate Clean(part: string, spec: FieldSpec)
  {
    var r := PartRange(part, spec);
    r.Ok? ==> r.value.lo + 2 * r.value.step < TWO64
  }

  function PartMask(part: string, spec: FieldSpec): Result<set<int>, CronError>
  {
    match PartRange(part, spec)
    case Err(e) => Err(e)
    case Ok(r) => Ok(Stepped(r.lo, r.hi, r.step) + Wrapped(r.lo, r.step))
  }

  method ParsePart(part: string, spec: FieldSpec) returns (r: Result<set<int>, CronError>)
    ensures r == PartMask(part, spec)
  {
    match PartRange(part, spec) {
      case Err(e) =>
        return Err(e);
      case Ok(range) =>
        var mask := StepMask(range.lo, range.hi, range.step);
        return Ok(mask);
    }
  }

  /** A part's mask holds what the part denotes, and nothing else exactly when it is Clean. */
  lemma PartExact(part: string, spec: FieldSpec)
    requires PartMask(part, spec).Ok?
    ensures forall v :: Denotes(part, spec, v) ==> v in PartMask(part, spec).value
    ensures (forall v :: v in PartMask(part, spec).value ==> Denotes(part, spec, v)) <==> Clean(part, spec)
  {
    var r := PartRange(part, spec).value;
    var mask := PartMask(part, spec).value;
    CleanStep(r.lo, r.step);
    forall v ensures v in Stepped(r.lo, r.hi, r.step) <==> Denotes(part, spec, v) {}
    if Wrapped(r.lo, r.step) != {} {
      var v :| v in Wrapped(r.lo, r.step);
      assert v in mask && !Denotes(part, spec, v);
    }
  }

  // ---- One field ----

  function PartsMask(parts: seq<string>, spec: FieldSpec): Result<set<int>, CronError>
  {
    if parts == [] then Ok({})
    else
      var n := |parts| - 1;
      match PartsMask(parts[..n], spec)
      case Err(e) => Err(e)
      case Ok(mask) =>
        match PartMask(parts[n], spec)
        case Err(e) => Err(e)
        case Ok(m) => Ok(mask + m)
  }

  function FieldMask(field: string, spec: FieldSpec): Result<set<int>, CronError>
  {
    PartsMask(Split(field, ','), spec)
  }

  method ParseField(field: string, spec: FieldSpec) returns (r: Result<set<int>, CronError>)
    ensures r == FieldMask(field, spec)
  {
    hide PartMask;
    var parts := Split(field, ',');
    var mask: set<int> := {};
    for i := 0 to |parts|
      invariant PartsMask(parts[..i], spec) == Ok(mask)
    {
      assert parts[..i + 1][..i] == parts[..i];
      var m := ParsePart(parts[i], spec);
      if m.Err? {
        PartsError(parts, i + 1, spec);
        return m;
      }
      mask := mask + m.value;
    }
    assert parts[..|parts|] == parts;
    return Ok(mask);
  }

  lemma {:induction false} PartsError(parts: seq<string>, i: nat, spec: FieldSpec)
    requires i <= |parts| && PartsMask(parts[..i], spec).Err?
    ensures PartsMask(parts, spec) == PartsMask(parts[..i], spec)
    decreases |parts|
  {
    if i == |parts| {
      assert parts[..i] == parts;
    } else {
      var front := parts[..|parts| - 1];
      assert front[..i] == parts[..i];
      PartsError(front, i, spec);
    }
  }

  lemma {:induction false} PartsExact(parts: seq<string>, spec: FieldSpec)
    ensures var r := PartsMask(parts, spec);
      && (r.Ok? <==> forall i :: 0 <= i < |parts| ==> PartMask(parts[i], spec).Ok?)
      && (r.Ok? ==> forall v :: v in r.value <==>
            exists i :: 0 <= i < |parts| && v in PartMask(parts[i], spec).value)
  {
    hide PartMask;
    if parts == [] {
    } else {
      var n := |parts| - 1;
      var front := parts[..n];
      PartsExact(front, spec);
      assert forall i :: 0 <= i < n ==> front[i] == parts[i];
    }
  }

  /** Some comma part of the field denotes v. */
  ghost predicate FieldDenotes(field: string, spec: FieldSpec, v: int)
  {
    exists i :: 0 <= i < |Split(field, ',')| && Denotes(Split(field, ',')[i], spec, v)
  }

  predicate CleanField(field: string, spec: FieldSpec)
  {
    forall i :: 0 <= i < |Split(field, ',')| ==> Clean(Split(field, ',')[i], spec)
  }

  /**
   A field parses exactly when each comma part does; then the mask holds every value
   some part denotes, and only those when every part is Clean.
   */
  lemma FieldExact(field: string, spec: FieldSpec)
    ensures FieldMask(field, spec).Ok? <==>
      forall i :: 0 <= i < |Split(field, ',')| ==> PartRange(Split(field, ',')[i], spec).Ok?
    ensures FieldMask(field, spec).Ok? ==>
      forall v :: FieldDenotes(field, spec, v) ==> v in FieldMask(field, spec).value
    ensures FieldMask(field, spec).Ok? && CleanField(field, spec) ==>
      forall v :: v in FieldMask(field, spec).value ==> FieldDenotes(field, spec, v)
  {
    hide PartRange, Denotes, Clean, Split;
    var parts, r := Split(field, ','), FieldMask(field, spec);
    PartsExact(parts, spec);
    if r.Ok? {
      forall i | 0 <= i < |parts| ensures PartRange(parts[i], spec).Ok? {
        assert PartMask(parts[i], spec).Ok?;
      }
      forall v | FieldDenotes(field, spec, v) ensures v in r.value {
        var i :| 0 <= i < |parts| && Denotes(parts[i], spec, v);
        PartExact(parts[i], spec);
      }
      forall v | v in r.value && CleanField(field, spec) ensures FieldDenotes(field, spec, v) {
        var i :| 0 <= i < |parts| && v in PartMask(parts[i], spec).value;
        PartExact(parts[i], spec);
      }
    } else {
      var i :| 0 <= i < |parts| && !PartMask(parts[i], spec).Ok?;
      assert !PartRange(Split(field, ',')[i], spec).Ok?;
    }
  }

  // ---- The whole expression ----

  const MAX_DAYS: seq<int> := [0, 31, 29, 31, 30, 31, 30, 31, 31, 30, 31, 30, 31]

  predicate Possible(doms: set<int>, months: set<int>, m: int, d: int) {
    1 <= m <= 12 && 1 <= d <= 31 && m in months && d in doms && d <= MAX_DAYS[m]
  }

  method ValidateDayMonth(dayField: string, monField: string, doms: set<int>, months: set<int>) returns (ok: bool)
    ensures ok <==> dayField == "*" || monField == "*" || exists m, d :: Possible(doms, months, m, d)
  {
    if dayField == "*" || monField == "*" {
      return true;
    }
    for month := 1 to 13
      invariant forall m, d :: 1 <= m < month ==> !Possible(doms, months, m, d)
    {
      if month !in months {
        continue;
      }
      for day := 1 to 32
        invariant forall d :: 1 <= d < day ==> !Possible(doms, months, month, d)
      {
        if day !in doms {
          continue;
        }
        if day <= MAX_DAYS[month] {
          assert Possible(doms, months, month, day);
          return true;
        }
      }
    }
    return false;
  }

  /** Fold bit 7 of a weekday mask onto Sunday. */
  function FoldSunday(dows: set<int>): set<int> {
    if 7 in dows then dows - {7} + {0} else dows
  }

  ghost function CronOf(expr: string): Result<Schedule, CronError> {
    CronOfFields(Fields(expr))
  }

  ghost function CronOfFields(fields: seq<string>): Result<Schedule, CronError> {
    if |fields| != 5 then Err(FieldCount(|fields|))
    else
      match FieldMask(fields[0], MINUTES) case Err(e) => Err(e) case Ok(minutes) =>
      match FieldMask(fields[1], HOURS) case Err(e) => Err(e) case Ok(hours) =>
      match FieldMask(fields[2], DAYS) case Err(e) => Err(e) case Ok(doms) =>
      match FieldMask(fields[3], MONTHS) case Err(e) => Err(e) case Ok(months) =>
      match FieldMask(fields[4], WEEKDAYS) case Err(e) => Err(e) case Ok(dows) =>
      if fields[2] != "*" && fields[3] != "*" && !(exists m, d :: Possible(doms, months, m, d)) then Err(NoSuchDay)
      else Ok(Schedule(JoinWords(fields), minutes, hours, doms, months, FoldSunday(dows)))
  }

  method ParseCron(expr: string) returns (r: Result<Schedule, CronError>)
    ensures r == CronOf(expr)
  {
    hide FieldMask;
    var fields := Fields(expr);
    if |fields| != 5 {
      return Err(FieldCount(|fields|));
    }
    var minutes := ParseField(fields[0], MINUTES);
    if minutes.Err? { return Err(minutes.error); }
    var hours := ParseField(fields[1], HOURS);
    if hours.Err? { return Err(hours.error); }
    var doms := ParseField(fields[2], DAYS);
    if doms.Err? { return Err(doms.error); }
    var months := ParseField(fields[3], MONTHS);
    if months.Err? { return Err(months.error); }
    var dows := ParseField(fields[4], WEEKDAYS);
    if dows.Err? { return Err(dows.error); }
    var weekdays := dows.value;
    if 7 in weekdays {
      weekdays := weekdays - {7} + {0};
    }
    var ok := ValidateDayMonth(fields[2], fields[3], doms.value, months.value);
    if !ok {
      return Err(NoSuchDay);
    }
    return Ok(Schedule(JoinWords(fields), minutes.value, hours.value, doms.value, months.value, weekdays));
  }

  /** Parsing the printed form of a schedule gives the same schedule. */
  lemma ReparseString(expr: string)
    requires CronOf(expr).Ok?
    ensures CronOf(CronOf(expr).value.expr) == CronOf(expr)
  {
    hide FieldMask;
    FieldsJoin(Fields(expr));
  }

  /** A date of some year that lies in both masks. */
  ghost predicate SomeDate(doms: set<int>, months: set<int>) {
    exists d: Date :: ValidDate(d) && d.month in months && d.day in doms
  }

  lemma PossibleDate(doms: set<int>, months: set<int>)
    ensures (exists m, d :: Possible(doms, months, m, d)) <==> SomeDate(doms, months)
  {
    if m, d :| Possible(doms, months, m, d) {
      assert ValidDate(Date(2024, m, d));
    }
    if d: Date :| ValidDate(d) && d.month in months && d.day in doms {
      assert Possible(doms, months, d.month, d.day);
    }
  }

  lemma {:induction false} PartsInhabited(parts: seq<string>, spec: FieldSpec)
    requires parts != [] && PartsMask(parts, spec).Ok?
    ensures exists v :: spec.min <= v <= spec.max && v in PartsMask(parts, spec).value
  {
    var n := |parts| - 1;
    assert parts[n] == parts[|parts| - 1];
    var r := PartRange(parts[n], spec).value;
    assert r.lo in Stepped(r.lo, r.hi, r.step);
    assert r.lo in PartsMask(parts, spec).value;
  }

  /** A bare star allows every value of its field. */
  lemma StarField(spec: FieldSpec)
    ensures FieldMask("*", spec).Ok?
    ensures forall v :: spec.min <= v <= spec.max ==> v in FieldMask("*", spec).value
  {
    assert Split("*", ',') == ["*"];
    assert IndexByte("*", '/') == -1;
    assert PartRange("*", spec) == Ok(Range(spec.min, spec.max, 1));
    forall v | spec.min <= v <= spec.max ensures v in Stepped(spec.min, spec.max, 1) {}
    assert PartsMask([], spec) == Ok({});
    assert ["*"][..0] == [];
  }

  /**
   A five-field expression whose fields parse is rejected exactly when no date of any
   year has an allowed day in an allowed month.
   */
  lemma RejectsImpossible(fields: seq<string>)
    requires |fields| == 5 && FieldMask(fields[0], MINUTES).Ok? && FieldMask(fields[1], HOURS).Ok?
    requires FieldMask(fields[2], DAYS).Ok? && FieldMask(fields[3], MONTHS).Ok? && FieldMask(fields[4], WEEKDAYS).Ok?
    ensures CronOfFields(fields).Ok? <==>
      SomeDate(FieldMask(fields[2], DAYS).value, FieldMask(fields[3], MONTHS).value)
  {
    hide PartsMask;
    var doms, months := FieldMask(fields[2], DAYS).value, FieldMask(fields[3], MONTHS).value;
    PossibleDate(doms, months);
    PartsInhabited(Split(fields[2], ','), DAYS);
    PartsInhabited(Split(fields[3], ','), MONTHS);
    if fields[2] == "*" {
      StarField(DAYS);
      var m :| 1 <= m <= 12 && m in months;
      assert ValidDate(Date(2024, m, 1));
    }
    if fields[3] == "*" {
      StarField(MONTHS);
      var d :| 1 <= d <= 31 && d in doms;
      assert ValidDate(Date(2024, 1, d));
    }
  }
}
