/** The parts of Go's packages strings, unicode and strconv that the cron parser calls. */
module GoStrings {
  import opened Options
  import opened Int64

  /** unicode.IsSpace. */
  predicate IsSpace(c: char) {
    || '\t' <= c <= '\r' || c == ' ' || c == '\U{85}' || c == '\U{A0}' || c == '\U{1680}'
    || '\U{2000}' <= c <= '\U{200A}' || c == '\U{2028}' || c == '\U{2029}' || c == '\U{202F}'
    || c == '\U{205F}' || c == '\U{3000}'
  }

  predicate Word(s: string) {
    s != [] && forall i :: 0 <= i < |s| ==> !IsSpace(s[i])
  }

  function WordEnd(s: string): (n: nat)
    ensures n <= |s|
    ensures forall i :: 0 <= i < n ==> !IsSpace(s[i])
    ensures n < |s| ==> IsSpace(s[n])
  {
    if s == [] || IsSpace(s[0]) then 0 else 1 + WordEnd(s[1..])
  }

  /** strings.Fields: the words of s, split around runs of white space. */
  function Fields(s: string): (fs: seq<string>)
    ensures forall i :: 0 <= i < |fs| ==> Word(fs[i])
    decreases |s|
  {
    if s == [] then []
    else if IsSpace(s[0]) then Fields(s[1..])
    else
      var n := WordEnd(s);
      [s[..n]] + Fields(s[n..])
  }

  /** strings.Join with a single space. */
  function JoinWords(fs: seq<string>): string {
    if |fs| == 0 then ""
    else if |fs| == 1 then fs[0]
    else fs[0] + " " + JoinWords(fs[1..])
  }

  lemma WordEndAt(s: string, n: nat)
    requires n <= |s| && (forall i :: 0 <= i < n ==> !IsSpace(s[i])) && (n < |s| ==> IsSpace(s[n]))
    ensures WordEnd(s) == n
  {
    hide IsSpace;
  }

  /** Splitting what was joined gives the words back. */
  lemma {:induction false} FieldsJoin(fs: seq<string>)
    requires forall i :: 0 <= i < |fs| ==> Word(fs[i])
    ensures Fields(JoinWords(fs)) == fs
  {
    hide IsSpace;
    if fs == [] {
    } else {
      assert Word(fs[0]);
      var s := JoinWords(fs);
      var n := |fs[0]|;
      assert s[..n] == fs[0];
      assert forall i :: 0 <= i < n ==> s[i] == fs[0][i];
      if |fs| > 1 {
        var rest := fs[1..];
        forall i | 0 <= i < |rest| ensures Word(rest[i]) {
          assert rest[i] == fs[i + 1];
        }
        FieldsJoin(rest);
        assert s[n] == ' ';
        SpaceIsSpace();
        assert s[n..][1..] == JoinWords(rest);
      }
      WordEndAt(s, n);
    }
  }

  /** White space separates words and is no part of them. */
  lemma {:induction false} FieldsCut(a: string, c: char, b: string)
    requires IsSpace(c)
    ensures Fields(a + [c] + b) == Fields(a) + Fields(b)
    decreases |a|
  {
    hide IsSpace;
    var s := a + [c] + b;
    if a == [] {
      assert s[1..] == b;
    } else if IsSpace(a[0]) {
      assert s[1..] == a[1..] + [c] + b;
      FieldsCut(a[1..], c, b);
    } else {
      var n := WordEnd(a);
      WordEndAt(s, n);
      assert s[..n] == a[..n] && s[n..] == a[n..] + [c] + b;
      WordStarts(a);
      FieldsCut(a[n..], c, b);
    }
  }

  lemma WordStarts(a: string)
    requires a != [] && !IsSpace(a[0])
    ensures WordEnd(a) > 0 && Fields(a) == [a[..WordEnd(a)]] + Fields(a[WordEnd(a)..])
  {
    hide IsSpace;
  }

  lemma SpaceIsSpace()
    ensures IsSpace(' ')
  {
  }

  /** strings.IndexByte, for a byte below 0x80. */
  function IndexByte(s: string, c: char): (i: int)
    ensures -1 <= i < |s|
    ensures i >= 0 ==> s[i] == c && c !in s[..i]
    ensures i < 0 ==> c !in s
  {
    if s == [] then -1
    else if s[0] == c then 0
    else
      var i := IndexByte(s[1..], c);
      if i < 0 then -1 else i + 1
  }

  /** strings.Split on a one-byte separator. */
  function Split(s: string, c: char): (parts: seq<string>)
    ensures |parts| > 0
    decreases |s|
  {
    var i := IndexByte(s, c);
    if i < 0 then [s] else [s[..i]] + Split(s[i + 1..], c)
  }

  function TrimRight(s: string): string {
    if s != [] && IsSpace(s[|s| - 1]) then TrimRight(s[..|s| - 1]) else s
  }

  /** strings.TrimSpace. */
  function TrimSpace(s: string): string {
    if s != [] && IsSpace(s[0]) then TrimSpace(s[1..]) else TrimRight(s)
  }

  /** Trimming takes off the white space on both sides, and nothing else. */
  lemma {:induction false} TrimmedOf(lead: string, core: string, tail: string)
    requires forall i :: 0 <= i < |lead| ==> IsSpace(lead[i])
    requires forall i :: 0 <= i < |tail| ==> IsSpace(tail[i])
    requires core != [] ==> !IsSpace(core[0]) && !IsSpace(core[|core| - 1])
    ensures TrimSpace(lead + core + tail) == core
    decreases |lead| + |tail|
  {
    hide IsSpace;
    var s := lead + core + tail;
    if lead != [] {
      assert s[1..] == lead[1..] + core + tail;
      TrimmedOf(lead[1..], core, tail);
    } else if core == [] && tail != [] {
      assert s[1..] == [] + core + tail[1..];
      TrimmedOf([], core, tail[1..]);
    } else {
      assert s == core + tail;
      RightTrimmed(core, tail);
    }
  }

  lemma {:induction false} RightTrimmed(core: string, tail: string)
    requires forall i :: 0 <= i < |tail| ==> IsSpace(tail[i])
    requires core != [] ==> !IsSpace(core[|core| - 1])
    ensures TrimRight(core + tail) == core
    decreases |tail|
  {
    hide IsSpace;
    var s := core + tail;
    if tail == [] {
      assert s == core;
    } else {
      assert s[..|s| - 1] == core + tail[..|tail| - 1];
      RightTrimmed(core, tail[..|tail| - 1]);
    }
  }

  /** Below 0x80 the white space is space, tab, line feed, vertical tab, form feed and carriage return. */
  lemma AsciiSpaces(c: char)
    requires c as int < 0x80
    ensures IsSpace(c) <==> c as int in {32, 9, 10, 11, 12, 13}
  {
    assert '\t' as int == 9 && '\r' as int == 13 && ' ' as int == 32;
  }

  /**
   unicode.ToLower as far as ASCII results go: besides A to Z only the Kelvin
   sign and the dotted capital I have an ASCII lower case.
   */
  function LowerChar(c: char): char {
    if 'A' <= c <= 'Z' then c + 32 as char
    else if c == '\U{212A}' then 'k'
    else if c == '\U{130}' then 'i'
    else c
  }

  function ToLower(s: string): string {
    seq(|s|, i requires 0 <= i < |s| => LowerChar(s[i]))
  }

  predicate IsDigit(c: char) { '0' <= c <= '9' }

  function DigitValue(c: char): nat
    requires IsDigit(c)
  {
    c as int - '0' as int
  }

  predicate AllDigits(s: string) {
    s != [] && forall i :: 0 <= i < |s| ==> IsDigit(s[i])
  }

  function Decimal(s: string): nat
    requires forall i :: 0 <= i < |s| ==> IsDigit(s[i])
  {
    if s == [] then 0 else Decimal(s[..|s| - 1]) * 10 + DigitValue(s[|s| - 1])
  }

  /** strconv.Atoi: an optional sign, decimal digits, and a value that fits in 64 bits. */
  function Atoi(s: string): Option<int> {
    var neg := s != [] && s[0] == '-';
    var digits := if s != [] && (s[0] == '-' || s[0] == '+') then s[1..] else s;
    if !AllDigits(digits) then None
    else
      var v: int := if neg then -(Decimal(digits) as int) else Decimal(digits);
      if Fits(v) then Some(v) else None
  }

  /** The decimal numeral of n. */
  function Itoa(n: nat): (s: string)
    ensures AllDigits(s) && Decimal(s) == n
  {
    var c := ('0' as int + n % 10) as char;
    assert DigitValue(c) == n % 10;
    if n < 10 then
      assert [c][..0] == [];
      [c]
    else
      var s := Itoa(n / 10) + [c];
      assert s[..|s| - 1] == Itoa(n / 10);
      s
  }

  lemma AtoiItoa(n: nat)
    requires Fits(n)
    ensures Atoi(Itoa(n)) == Some(n)
  {
  }

  /** Numerals may carry a sign. */
  lemma AtoiSigned(n: nat)
    requires Fits(n)
    ensures var v: int := n; Atoi("-" + Itoa(n)) == Some(-v) && Atoi("+" + Itoa(n)) == Some(v)
  {
    assert ("-" + Itoa(n))[1..] == Itoa(n) && ("+" + Itoa(n))[1..] == Itoa(n);
  }

  lemma {:induction false} IndexByteAt(s: string, c: char, i: nat)
    requires i < |s| && s[i] == c && forall j :: 0 <= j < i ==> s[j] != c
    ensures IndexByte(s, c) == i
  {
  }

  lemma TrimDigits(s: string)
    requires AllDigits(s)
    ensures TrimSpace(s) == s && ToLower(s) == s
  {
    assert IsDigit(s[0]) && IsDigit(s[|s| - 1]);
    forall i | 0 <= i < |s| ensures LowerChar(s[i]) == s[i] {
      assert IsDigit(s[i]);
    }
  }
}
