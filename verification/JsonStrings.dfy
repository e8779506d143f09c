/**
 How encoding/json writes an array of strings (RFC 8259, section 7, with Go's HTML
 escapes), and that it can be read back: the encoding is injective.
 */
module JsonStrings {
  import opened Options

  function HexDigit(n: int): char
    requires 0 <= n < 16
  {
    "0123456789abcdef"[n]
  }

  function HexValue(c: char): Option<int> {
    if '0' <= c <= '9' then Some(c as int - '0' as int)
    else if 'a' <= c <= 'f' then Some(c as int - 'a' as int + 10)
    else None
  }

  /** A backslash, u and four hexadecimal digits. */
  function HexEscape(n: int): string
    requires 0 <= n < 0x10000
  {
    ['\\', 'u', HexDigit(n / 16 / 16 / 16), HexDigit(n / 16 / 16 % 16), HexDigit(n / 16 % 16), HexDigit(n % 16)]
  }

  predicate NeedsHex(c: char) {
    c as int < 0x20 || c == '<' || c == '>' || c == '&' || c as int == 0x2028 || c as int == 0x2029
  }

  function Escape(c: char): (s: string)
    ensures s != []
  {
    if c == '"' then "\\\""
    else if c == '\\' then "\\\\"
    else if c as int == 8 then "\\b"
    else if c as int == 12 then "\\f"
    else if c == '\n' then "\\n"
    else if c == '\r' then "\\r"
    else if c == '\t' then "\\t"
    else if NeedsHex(c) then HexEscape(c as int)
    else [c]
  }

  /** Quotes, backslashes and the named controls are escaped by name; what needs no escape stands for itself. */
  lemma NamedText(c: char)
    ensures c == '"' || c == '\\' ==> Escape(c) == ['\\', c]
    ensures c as int == 8 ==> Escape(c) == ['\\', 'b']
    ensures c as int == 12 ==> Escape(c) == ['\\', 'f']
    ensures c == '\n' ==> Escape(c) == ['\\', 'n']
    ensures c == '\r' ==> Escape(c) == ['\\', 'r']
    ensures c == '\t' ==> Escape(c) == ['\\', 't']
    ensures Escape(c) == [c] <==>
      c as int >= 32 && c != '"' && c != '\\' && c != '<' && c != '>' && c != '&' && c as int != 0x2028 && c as int != 0x2029
  {
    hide HexEscape;
    if NeedsHex(c) {
      HexLong(c as int);
    }
  }

  lemma HexLong(n: int)
    requires 0 <= n < 0x10000
    ensures |HexEscape(n)| == 6
  {
  }

  function EscapeAll(s: string): string {
    if s == [] then "" else Escape(s[0]) + EscapeAll(s[1..])
  }

  /** json.Marshal of a string. */
  function Quote(s: string): string { "\"" + EscapeAll(s) + "\"" }

  function QuoteAll(parts: seq<string>): string {
    if parts == [] then ""
    else if |parts| == 1 then Quote(parts[0])
    else Quote(parts[0]) + "," + QuoteAll(parts[1..])
  }

  /** json.Marshal of a non-nil []string. */
  function Encode(parts: seq<string>): string { "[" + QuoteAll(parts) + "]" }

  // ---- Reading back ----

  /** Read one character of a string body. */
  function ReadChar(t: string): Option<(char, string)> {
    if t == [] then None
    else if t[0] != '\\' then Some((t[0], t[1..]))
    else if |t| < 2 then None
    else if t[1] == '"' || t[1] == '\\' then Some((t[1], t[2..]))
    else if t[1] == 'b' then Some((8 as char, t[2..]))
    else if t[1] == 'f' then Some((12 as char, t[2..]))
    else if t[1] == 'n' then Some(('\n', t[2..]))
    else if t[1] == 'r' then Some(('\r', t[2..]))
    else if t[1] == 't' then Some(('\t', t[2..]))
    else if t[1] == 'u' && |t| >= 6 then
      match (HexValue(t[2]), HexValue(t[3]), HexValue(t[4]), HexValue(t[5]))
      case (Some(a), Some(b), Some(c), Some(d)) =>
        var n := a * 4096 + b * 256 + c * 16 + d;
        if 0 <= n < 0xD800 || 0xE000 <= n < 0x10000 then Some((n as char, t[6..])) else None
      case _ => None
    else None
  }

  /** Read a string body up to its closing quote: the string, and what follows the quote. */
  function ReadBody(t: string): Option<(string, string)>
    decreases |t|
  {
    if t == [] then None
    else if t[0] == '"' then Some(("", t[1..]))
    else
      match ReadChar(t)
      case None => None
      case Some((c, rest)) =>
        if |rest| >= |t| then None
        else
          match ReadBody(rest)
          case None => None
          case Some((s, after)) => Some(([c] + s, after))
  }

  lemma HexRoundTrip(n: int)
    requires 0 <= n < 0x10000
    ensures var e := HexEscape(n);
      match (HexValue(e[2]), HexValue(e[3]), HexValue(e[4]), HexValue(e[5]))
      case (Some(a), Some(b), Some(c), Some(d)) => a * 4096 + b * 256 + c * 16 + d == n
      case _ => false
  {
    var h := n / 16;
    var g := h / 16;
    var k := g / 16;
    assert n == 16 * h + n % 16 && h == 16 * g + h % 16 && g == 16 * k + g % 16;
    HexDigitValue(k);
    HexDigitValue(g % 16);
    HexDigitValue(h % 16);
    HexDigitValue(n % 16);
  }

  lemma HexDigitValue(n: int)
    requires 0 <= n < 16
    ensures HexValue(HexDigit(n)) == Some(n)
  {
  }

  lemma ReadHex(n: int, rest: string)
    requires 0 <= n < 0xD800
    ensures ReadChar(HexEscape(n) + rest) == Some((n as char, rest))
  {
    HexRoundTrip(n);
    var e := HexEscape(n);
    var t := e + rest;
    hide HexValue, HexDigit;
    assert t[0] == '\\' && t[1] == 'u' && t[2] == e[2] && t[3] == e[3] && t[4] == e[4] && t[5] == e[5];
    assert t[6..] == rest;
  }

  lemma ReadEscaped(c: char, rest: string)
    ensures ReadChar(Escape(c) + rest) == Some((c, rest))
    ensures (Escape(c) + rest)[0] != '"'
  {
    hide HexValue, HexDigit;
    if NeedsHex(c) {
      ReadHex(c as int, rest);
    }
    assert (Escape(c) + rest)[|Escape(c)|..] == rest;
  }

  lemma {:induction false} ReadQuoted(s: string, rest: string)
    ensures ReadBody(EscapeAll(s) + "\"" + rest) == Some((s, rest))
  {
    var t := EscapeAll(s) + "\"" + rest;
    if s == [] {
      assert t == "\"" + rest;
    } else {
      var more := EscapeAll(s[1..]) + "\"" + rest;
      assert t == Escape(s[0]) + more;
      ReadEscaped(s[0], more);
      ReadQuoted(s[1..], rest);
      assert [s[0]] + s[1..] == s;
    }
  }

  /** Two encoded bodies that agree up to what follows them encode the same string. */
  lemma QuoteInjective(a: string, x: string, b: string, y: string)
    requires Quote(a) + x == Quote(b) + y
    ensures a == b && x == y
  {
    hide EscapeAll, ReadBody;
    ReadQuoted(a, x);
    ReadQuoted(b, y);
    QuoteTail(a, x);
    QuoteTail(b, y);
  }

  lemma QuoteTail(a: string, x: string)
    ensures (Quote(a) + x)[1..] == EscapeAll(a) + "\"" + x
  {
    hide EscapeAll;
  }

  /** What follows the first string of an encoded list. */
  function Rest(parts: seq<string>): string
    requires parts != []
  {
    if |parts| == 1 then "" else "," + QuoteAll(parts[1..])
  }

  lemma QuoteAllSplit(parts: seq<string>)
    requires parts != []
    ensures QuoteAll(parts) == Quote(parts[0]) + Rest(parts) && QuoteAll(parts) != ""
  {
    hide Quote;
    QuoteLong(parts[0]);
    if |parts| > 1 {
      assert Quote(parts[0]) + "," + QuoteAll(parts[1..]) == Quote(parts[0]) + ("," + QuoteAll(parts[1..]));
    }
  }

  lemma QuoteLong(s: string)
    ensures |Quote(s)| >= 2
  {
    hide EscapeAll;
  }

  lemma RestTail(parts: seq<string>)
    requires parts != []
    ensures |parts| > 1 <==> Rest(parts) != ""
    ensures |parts| > 1 ==> Rest(parts)[1..] == QuoteAll(parts[1..])
  {
  }

  lemma {:induction false} QuoteAllInjective(a: seq<string>, b: seq<string>)
    requires QuoteAll(a) == QuoteAll(b)
    ensures a == b
    decreases |a|
  {
    hide Quote, Rest;
    if a != [] {
      QuoteAllSplit(a);
      assert b != [];
      QuoteAllSplit(b);
      QuoteInjective(a[0], Rest(a), b[0], Rest(b));
      RestTail(a);
      RestTail(b);
      if |a| > 1 {
        QuoteAllInjective(a[1..], b[1..]);
      }
      assert a == [a[0]] + a[1..] && b == [b[0]] + b[1..];
    } else if b != [] {
      QuoteAllSplit(b);
    }
  }

  /** Different part lists have different encodings. */
  lemma EncodeInjective(a: seq<string>, b: seq<string>)
    requires Encode(a) == Encode(b)
    ensures a == b
  {
    assert QuoteAll(a) == Encode(a)[1..|Encode(a)| - 1];
    assert QuoteAll(b) == Encode(b)[1..|Encode(b)| - 1];
    QuoteAllInjective(a, b);
  }
}
