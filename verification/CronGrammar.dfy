/**
 The cron language by its grammar: what every part, list and expression that can be
 written down means, errors included, stated without the parser.
 */
module CronGrammar {
  import opened Options
  import opened Int64
  import opened GoStrings
  import opened CronParser
  import opened CronLanguage

  /** A value is written as a number or as a name. */
  datatype Token = Number(n: nat) | Name(word: string)

  datatype Base = Star | One(value: Token) | Span(lo: Token, hi: Token)

  datatype Part = Part(base: Base, step: Option<nat>)

  predicate Letter(c: char) { 'a' <= c <= 'z' || 'A' <= c <= 'Z' }

  predicate GoodToken(v: Token) {
    v.Name? ==> v.word != "" && forall i :: 0 <= i < |v.word| ==> Letter(v.word[i])
  }

  predicate Good(p: Part) {
    match p.base
    case Star => true
    case One(v) => GoodToken(v)
    case Span(lo, hi) => GoodToken(lo) && GoodToken(hi)
  }

  // ---- Spelling ----

  function Spelled(v: Token): string {
    match v case Number(n) => Itoa(n) case Name(word) => word
  }

  function SpelledBase(b: Base): string {
    match b
    case Star => "*"
    case One(v) => Spelled(v)
    case Span(lo, hi) => Spelled(lo) + "-" + Spelled(hi)
  }

  function SpelledPart(p: Part): string {
    match p.step
    case None => SpelledBase(p.base)
    case Some(k) => SpelledBase(p.base) + "/" + Itoa(k)
  }

  // ---- Meaning ----

  function Value(v: Token, spec: FieldSpec): Result<int, CronError> {
    match v
    case Number(n) =>
      if n >= TWO63 then Err(InvalidValue(Itoa(n)))
      else if spec.min <= n <= spec.max then Ok(n)
      else Err(OutOfRange(n))
    case Name(word) =>
      if ToLower(word) in spec.names then Ok(spec.names[ToLower(word)]) else Err(InvalidValue(word))
  }

  /** A star is the whole field; a single value with a step runs to the end of the field. */
  function Bounds(p: Part, spec: FieldSpec): Result<(int, int), CronError> {
    match p.base
    case Star => Ok((spec.min, spec.max))
    case One(v) =>
      (match Value(v, spec)
       case Err(e) => Err(e)
       case Ok(n) => Ok((n, if p.step.Some? then spec.max else n)))
    case Span(lo, hi) =>
      (match (Value(lo, spec), Value(hi, spec))
       case (Err(e), _) => Err(e)
       case (_, Err(e)) => Err(e)
       case (Ok(a), Ok(b)) => Ok((a, b)))
  }

  function Meaning(p: Part, spec: FieldSpec): Result<Range, CronError> {
    if p.step.Some? && (p.step.value == 0 || p.step.value >= TWO63) then Err(InvalidStep(Itoa(p.step.value)))
    else
      match Bounds(p, spec)
      case Err(e) => Err(e)
      case Ok((lo, hi)) =>
        if lo > hi then Err(Inverted(lo, hi)) else Ok(Range(lo, hi, if p.step.Some? then p.step.value else 1))
  }

  // ---- Tokens ----

  /** What no spelled token contains. */
  predicate Mark(c: char) { c == '/' || c == '-' || c == ',' || c == '*' || IsSpace(c) }

  lemma LetterPlain(c: char)
    requires Letter(c)
    ensures !Mark(c) && !IsDigit(c)
  {
  }

  lemma DigitPlain(c: char)
    requires IsDigit(c)
    ensures !Mark(c)
  {
  }

  lemma TokenPlain(v: Token)
    requires GoodToken(v)
    ensures Spelled(v) != "" && forall i :: 0 <= i < |Spelled(v)| ==> !Mark(Spelled(v)[i])
  {
    hide Mark, Itoa, Letter;
    var s := Spelled(v);
    forall i | 0 <= i < |s| ensures !Mark(s[i]) {
      match v {
        case Number(n) => DigitPlain(s[i]);
        case Name(word) => LetterPlain(s[i]);
      }
    }
  }

  lemma TrimPlain(s: string)
    requires s != "" && !IsSpace(s[0]) && !IsSpace(s[|s| - 1])
    ensures TrimSpace(s) == s
  {
    hide IsSpace;
  }

  lemma NotNumber(word: string)
    requires word != "" && forall i :: 0 <= i < |word| ==> Letter(word[i])
    ensures Atoi(word) == None
  {
    LetterPlain(word[0]);
    assert word[0] != '+';
  }

  lemma BigNumber(n: nat)
    ensures Atoi(Itoa(n)) == if n < TWO63 then Some(n) else None
  {
    assert IsDigit(Itoa(n)[0]);
  }

  lemma TokenValue(v: Token, spec: FieldSpec)
    requires GoodToken(v)
    ensures ParseValue(Spelled(v), spec) == Value(v, spec)
  {
    hide Mark, Itoa, Atoi, ToLower, TrimSpace, IsSpace;
    var s := Spelled(v);
    TokenPlain(v);
    TokenEnds(v);
    TrimPlain(s);
    match v {
      case Number(n) =>
        BigNumber(n);
        TrimDigits(s);
        assert s !in spec.names by { assert IsDigit(s[0]); }
      case Name(word) => NotNumber(word);
    }
  }

  lemma TokenEnds(v: Token)
    requires GoodToken(v)
    ensures var s := Spelled(v); s != "" && !IsSpace(s[0]) && !IsSpace(s[|s| - 1])
  {
    TokenPlain(v);
    var s := Spelled(v);
    assert !Mark(s[0]) && !Mark(s[|s| - 1]);
  }

  // ---- Parts ----

  predicate Without(s: string, c: char) { forall i :: 0 <= i < |s| ==> s[i] != c }

  lemma TokenWithout(v: Token, c: char)
    requires GoodToken(v) && Mark(c)
    ensures Without(Spelled(v), c)
  {
    TokenPlain(v);
  }

  lemma NoIndex(s: string, c: char)
    requires Without(s, c)
    ensures IndexByte(s, c) == -1
  {
  }

  lemma BaseWithoutSlash(p: Part)
    requires Good(p)
    ensures Without(SpelledBase(p.base), '/')
  {
    match p.base {
      case Star =>
      case One(v) => TokenWithout(v, '/');
      case Span(lo, hi) =>
        TokenWithout(lo, '/');
        TokenWithout(hi, '/');
    }
  }

  /** Cutting a part at its slash. */
  lemma PartCut(p: Part)
    requires Good(p)
    ensures var s, slash := SpelledPart(p), IndexByte(SpelledPart(p), '/');
      && (p.step.None? ==> slash == -1 && s == SpelledBase(p.base))
      && (p.step.Some? ==> slash >= 0 && s[..slash] == SpelledBase(p.base) && s[slash + 1..] == Itoa(p.step.value))
  {
    hide Itoa, IndexByte, SpelledBase;
    BaseWithoutSlash(p);
    if p.step.Some? {
      SplitAt(SpelledBase(p.base), '/', Itoa(p.step.value));
    } else {
      NoIndex(SpelledBase(p.base), '/');
    }
  }

  lemma StepMeaning(p: Part)
    requires Good(p)
    ensures ParseStep(SpelledPart(p)) ==
      if p.step.None? then Ok(1)
      else if p.step.value == 0 || p.step.value >= TWO63 then Err(InvalidStep(Itoa(p.step.value)))
      else Ok(p.step.value)
  {
    hide Itoa, Atoi, IndexByte, SpelledPart;
    PartCut(p);
    if p.step.Some? {
      BigNumber(p.step.value);
    }
  }

  /** Reading the text before the slash. */
  function TextBounds(text: string, open: bool, spec: FieldSpec): Result<(int, int), CronError> {
    var dash := IndexByte(text, '-');
    if text == "*" then Ok((spec.min, spec.max))
    else if dash > 0 then
      match (ParseValue(text[..dash], spec), ParseValue(text[dash + 1..], spec))
      case (Err(e), _) => Err(e)
      case (_, Err(e)) => Err(e)
      case (Ok(lo), Ok(hi)) => Ok((lo, hi))
    else
      match ParseValue(text, spec)
      case Err(e) => Err(e)
      case Ok(v) => Ok((v, if open then spec.max else v))
  }

  lemma CutBounds(part: string, spec: FieldSpec)
    ensures var slash := IndexByte(part, '/');
      ParseBounds(part, spec) == TextBounds(if slash >= 0 then part[..slash] else part, slash >= 0, spec)
  {
    hide IndexByte, ParseValue;
    var slash := IndexByte(part, '/');
    var text := if slash >= 0 then part[..slash] else part;
    var dash := IndexByte(text, '-');
    if text != "*" && dash > 0 {
      var lo, hi := ParseValue(text[..dash], spec), ParseValue(text[dash + 1..], spec);
      match (lo, hi)
      case (Err(e), _) =>
      case (Ok(_), Err(e)) =>
      case (Ok(a), Ok(b)) =>
    }
  }

  lemma ReadsText(p: Part, spec: FieldSpec)
    requires Good(p)
    ensures ParseBounds(SpelledPart(p), spec) == TextBounds(SpelledBase(p.base), p.step.Some?, spec)
  {
    hide Itoa, SpelledPart, SpelledBase, IndexByte, Good, ParseBounds, TextBounds;
    PartCut(p);
    CutBounds(SpelledPart(p), spec);
  }

  lemma TextMeaning(p: Part, spec: FieldSpec)
    requires Good(p)
    ensures TextBounds(SpelledBase(p.base), p.step.Some?, spec) == Bounds(p, spec)
  {
    hide Itoa, Spelled, ParseValue, Value, IndexByte, Mark;
    match p.base {
      case Star =>
      case One(v) =>
        TokenWithoutMarks(v);
        NoIndex(Spelled(v), '-');
        TokenValue(v, spec);
      case Span(lo, hi) =>
        TokenWithoutMarks(lo);
        TokenValue(lo, spec);
        TokenValue(hi, spec);
        SplitAt(Spelled(lo), '-', Spelled(hi));
        assert (Spelled(lo) + "-" + Spelled(hi))[0] == Spelled(lo)[0];
    }
  }

  lemma TokenWithoutMarks(v: Token)
    requires GoodToken(v)
    ensures Without(Spelled(v), '-') && Spelled(v) != "" && Spelled(v)[0] != '*'
  {
    TokenPlain(v);
    assert !Mark(Spelled(v)[0]);
  }

  lemma ValueInside(v: Token, spec: FieldSpec)
    ensures Value(v, spec).Ok? ==> spec.min <= Value(v, spec).value <= spec.max
  {
  }

  /** Every part that can be spelled is parsed as it is meant: the range and step, or the first error. */
  lemma PartMeans(p: Part, spec: FieldSpec)
    requires Good(p)
    ensures PartRange(SpelledPart(p), spec) == Meaning(p, spec)
  {
    hide Itoa, SpelledPart, SpelledBase, ParseStep, ParseBounds, TextBounds, Value;
    StepMeaning(p);
    ReadsText(p, spec);
    TextMeaning(p, spec);
    match p.base {
      case Star =>
      case One(v) => ValueInside(v, spec);
      case Span(lo, hi) =>
        ValueInside(lo, spec);
        ValueInside(hi, spec);
    }
  }

  /** In particular a star with a step runs over the whole field. */
  lemma StarStepPart(step: nat, spec: FieldSpec)
    requires 0 < step < TWO63
    ensures PartRange("*/" + Itoa(step), spec) == Ok(Range(spec.min, spec.max, step))
  {
    hide Itoa, PartRange;
    var p := Part(Star, Some(step));
    assert SpelledPart(p) == "*/" + Itoa(step);
    PartMeans(p, spec);
  }

  /** ... and "lo-hi" is every value from lo to hi. */
  lemma SpanPart(lo: nat, hi: nat, spec: FieldSpec)
    requires spec.min <= lo <= hi <= spec.max
    ensures PartRange(Itoa(lo) + "-" + Itoa(hi), spec) == Ok(Range(lo, hi, 1))
  {
    hide Itoa, PartRange;
    PartMeans(Part(Span(Number(lo), Number(hi)), None), spec);
  }

  // ---- Names ----

  const MONTH_WORDS: seq<string> :=
    ["jan", "feb", "mar", "apr", "may", "jun", "jul", "aug", "sep", "oct", "nov", "dec"]
  const DAY_WORDS: seq<string> := ["sun", "mon", "tue", "wed", "thu", "fri", "sat"]

  /** The names a month field knows, and their values: no other name is a key. */
  lemma MonthNames(word: string)
    ensures word in MONTHS.names <==> word in MONTH_WORDS
  {
    assert MONTHS.names == MONTH_NAMES;
  }

  lemma FirstMonths()
    ensures MONTHS.names["jan"] == 1 && MONTHS.names["feb"] == 2 && MONTHS.names["mar"] == 3
    ensures MONTHS.names["apr"] == 4 && MONTHS.names["may"] == 5 && MONTHS.names["jun"] == 6
  {
    assert MONTHS.names == MONTH_NAMES;
  }

  lemma LastMonths()
    ensures MONTHS.names["jul"] == 7 && MONTHS.names["aug"] == 8 && MONTHS.names["sep"] == 9
    ensures MONTHS.names["oct"] == 10 && MONTHS.names["nov"] == 11 && MONTHS.names["dec"] == 12
  {
    assert MONTHS.names == MONTH_NAMES;
  }

  /** The names a weekday field knows, and their values; minutes, hours and days have none. */
  lemma DayNames(word: string)
    ensures word in WEEKDAYS.names <==> word in DAY_WORDS
    ensures MINUTES.names == HOURS.names == DAYS.names == map[]
  {
    assert WEEKDAYS.names == DOW_NAMES;
  }

  lemma WeekdayNumbers()
    ensures WEEKDAYS.names["sun"] == 0 && WEEKDAYS.names["mon"] == 1 && WEEKDAYS.names["tue"] == 2
    ensures WEEKDAYS.names["wed"] == 3 && WEEKDAYS.names["thu"] == 4
    ensures WEEKDAYS.names["fri"] == 5 && WEEKDAYS.names["sat"] == 6
  {
    assert WEEKDAYS.names == DOW_NAMES;
  }

  /** The fields' bounds. */
  lemma FieldBounds()
    ensures MINUTES.min == 0 && MINUTES.max == 59 && HOURS.min == 0 && HOURS.max == 23
    ensures DAYS.min == 1 && DAYS.max == 31 && MONTHS.min == 1 && MONTHS.max == 12
    ensures WEEKDAYS.min == 0 && WEEKDAYS.max == 7
  {
  }

  /** Names are read in any case. */
  lemma AnyCase(word: string, i: int)
    requires 0 <= i < |word| && Letter(word[i])
    ensures ToLower(word)[i] == if 'A' <= word[i] <= 'Z' then (word[i] as int + 32) as char else word[i]
  {
  }

  // ---- Lists ----

  function Joined(texts: seq<string>): string
    requires texts != []
  {
    if |texts| == 1 then texts[0] else texts[0] + "," + Joined(texts[1..])
  }

  /** A comma list splits into just its parts. */
  lemma {:induction false} SplitJoined(texts: seq<string>)
    requires texts != [] && forall i :: 0 <= i < |texts| ==> Without(texts[i], ',')
    ensures Split(Joined(texts), ',') == texts
    decreases |texts|
  {
    hide IndexByte;
    if |texts| == 1 {
      NoIndex(texts[0], ',');
    } else {
      var rest := texts[1..];
      SplitAt(texts[0], ',', Joined(rest));
      assert forall i :: 0 <= i < |rest| ==> rest[i] == texts[i + 1];
      SplitJoined(rest);
      assert texts == [texts[0]] + rest;
    }
  }

  function SpelledParts(parts: seq<Part>): seq<string> {
    seq(|parts|, i requires 0 <= i < |parts| => SpelledPart(parts[i]))
  }

  lemma PartWithoutComma(p: Part)
    requires Good(p)
    ensures Without(SpelledPart(p), ',')
  {
    hide Mark;
    assert Mark(',') by { CommaMark(); }
    if p.step.Some? {
      NoMark(p.step.value, ',');
    }
    match p.base {
      case Star =>
      case One(v) => TokenWithout(v, ',');
      case Span(lo, hi) =>
        TokenWithout(lo, ',');
        TokenWithout(hi, ',');
    }
  }

  lemma CommaMark()
    ensures Mark(',')
  {
  }

  /** v is one of the values a list of parts stands for. */
  ghost predicate Lists(parts: seq<Part>, spec: FieldSpec, v: int) {
    exists i :: 0 <= i < |parts| && In(parts[i], spec, v)
  }

  predicate In(p: Part, spec: FieldSpec, v: int)
  {
    var r := Meaning(p, spec);
    r.Ok? && r.value.lo <= v <= r.value.hi && r.value.step > 0 && (v - r.value.lo) % r.value.step == 0
  }

  lemma InDenotes(p: Part, spec: FieldSpec, v: int)
    requires Good(p)
    ensures Denotes(SpelledPart(p), spec, v) <==> In(p, spec, v)
  {
    hide SpelledPart, Good, PartRange, Meaning;
    PartMeans(p, spec);
    var r := PartRange(SpelledPart(p), spec);
    assert r == Meaning(p, spec) && (r.Ok? ==> r.value.step > 0);
  }

  /** A comma list parses if and only if each part means something, and denotes the values its parts list. */
  lemma ListMeans(parts: seq<Part>, spec: FieldSpec)
    requires parts != [] && forall i :: 0 <= i < |parts| ==> Good(parts[i])
    ensures var field := Joined(SpelledParts(parts));
      && (FieldMask(field, spec).Ok? <==> forall i :: 0 <= i < |parts| ==> Meaning(parts[i], spec).Ok?)
      && forall v :: FieldDenotes(field, spec, v) <==> Lists(parts, spec, v)
  {
    hide SpelledPart, PartRange, Denotes, In, Meaning, Split, FieldMask, Good;
    var texts := SpelledParts(parts);
    var field := Joined(texts);
    forall i | 0 <= i < |parts|
      ensures Without(texts[i], ',') && PartRange(texts[i], spec) == Meaning(parts[i], spec)
    {
      PartWithoutComma(parts[i]);
      PartMeans(parts[i], spec);
    }
    SplitJoined(texts);
    FieldExact(field, spec);
    assert forall i :: 0 <= i < |texts| ==> PartRange(Split(field, ',')[i], spec) == Meaning(parts[i], spec);
    forall v ensures FieldDenotes(field, spec, v) <==> Lists(parts, spec, v) {
      forall i | 0 <= i < |parts| ensures Denotes(Split(field, ',')[i], spec, v) <==> In(parts[i], spec, v) {
        InDenotes(parts[i], spec, v);
      }
    }
  }

  lemma PartWord(p: Part)
    requires Good(p)
    ensures Word(SpelledPart(p))
  {
    hide Mark, Itoa, IsSpace;
    Marks();
    match p.base {
      case Star =>
      case One(v) => TokenWord(v);
      case Span(lo, hi) =>
        TokenWord(lo);
        TokenWord(hi);
    }
    if p.step.Some? {
      TokenWord(Number(p.step.value));
    }
  }

  lemma Marks()
    ensures !IsSpace('*') && !IsSpace('-') && !IsSpace('/') && !IsSpace(',')
  {
  }

  lemma TokenWord(v: Token)
    requires GoodToken(v)
    ensures Word(Spelled(v))
  {
    TokenPlain(v);
  }

  lemma {:induction false} JoinedWord(texts: seq<string>)
    requires texts != [] && forall i :: 0 <= i < |texts| ==> Word(texts[i])
    ensures Word(Joined(texts))
    decreases |texts|
  {
    hide IsSpace;
    Marks();
    if |texts| == 1 {
    } else {
      JoinedWord(texts[1..]);
    }
  }

  predicate GoodList(parts: seq<Part>) { parts != [] && forall i :: 0 <= i < |parts| ==> Good(parts[i]) }

  function ListText(parts: seq<Part>): string
    requires GoodList(parts)
  {
    Joined(SpelledParts(parts))
  }

  /** An expression written as five lists is read as those five lists. */
  lemma ExpressionFields(a: seq<Part>, b: seq<Part>, c: seq<Part>, d: seq<Part>, e: seq<Part>)
    requires GoodList(a) && GoodList(b) && GoodList(c) && GoodList(d) && GoodList(e)
    ensures var texts := [ListText(a), ListText(b), ListText(c), ListText(d), ListText(e)];
      Fields(JoinWords(texts)) == texts
  {
    ListWord(a);
    ListWord(b);
    ListWord(c);
    ListWord(d);
    ListWord(e);
    hide IsSpace, Fields, Word, ListText, JoinWords;
    FieldsJoin([ListText(a), ListText(b), ListText(c), ListText(d), ListText(e)]);
  }

  lemma ListWord(parts: seq<Part>)
    requires GoodList(parts)
    ensures Word(ListText(parts))
  {
    hide SpelledPart, IsSpace, Good, Word, Joined;
    var texts := SpelledParts(parts);
    forall k | 0 <= k < |texts| ensures Word(texts[k]) {
      PartWord(parts[k]);
    }
    JoinedWord(texts);
  }
}
