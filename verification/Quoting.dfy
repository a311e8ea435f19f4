/** Go's quoted string literals: writing one and reading one back. */
module Quoting {
  import opened Wrappers

  const REPLACEMENT: char := 0xFFFD as char

  function HexDigit(d: nat): char
    requires d < 16
  {
    if d < 10 then ('0' as int + d) as char else ('a' as int + d - 10) as char
  }

  function HexValue(c: char): Option<nat> {
    if '0' <= c <= '9' then Some(c as int - '0' as int)
    else if 'a' <= c <= 'f' then Some(c as int - 'a' as int + 10)
    else if 'A' <= c <= 'F' then Some(c as int - 'A' as int + 10)
    else None
  }

  /** The number in so many hexadecimal digits, highest first; higher ones are cut. */
  function Hex(n: nat, digits: nat): (s: string)
    ensures |s| == digits
  {
    if digits == 0 then "" else Hex(n / 16, digits - 1) + [HexDigit(n % 16)]
  }

  function ParseHex(s: string): Option<nat> {
    if s == "" then Some(0)
    else
      var high, low := ParseHex(s[..|s| - 1]), HexValue(s[|s| - 1]);
      if high.Some? && low.Some? then Some(16 * high.value + low.value) else None
  }

  function Pow16(n: nat): nat { if n == 0 then 1 else 16 * Pow16(n - 1) }

  lemma {:induction false} HexRoundTrip(n: nat, digits: nat)
    requires n < Pow16(digits)
    ensures ParseHex(Hex(n, digits)) == Some(n)
  {
    if digits > 0 {
      HexRoundTrip(n / 16, digits - 1);
      var s := Hex(n, digits);
      assert s[..|s| - 1] == Hex(n / 16, digits - 1);
      assert HexValue(HexDigit(n % 16)) == Some(n % 16);
    }
  }

  // ---------- writing ----------

  /** Which characters outside ASCII count as printable is up to the Unicode tables. */
  type Printable = char -> bool

  function Escape(c: char, printable: Printable): string {
    if c == '"' || c == '\\' then ['\\', c]
    else if ' ' <= c <= '~' || (c >= 0x80 as char && printable(c)) then [c]
    else if c == 0x07 as char then "\\a"
    else if c == 0x08 as char then "\\b"
    else if c == 0x0C as char then "\\f"
    else if c == '\n' then "\\n"
    else if c == '\r' then "\\r"
    else if c == '\t' then "\\t"
    else if c == 0x0B as char then "\\v"
    else if c < ' ' then "\\x" + Hex(c as int, 2)
    else if c as int < 0x10000 then "\\u" + Hex(c as int, 4)
    else "\\U" + Hex(c as int, 8)
  }

  function EscapeAll(s: string, printable: Printable): string {
    if s == "" then "" else Escape(s[0], printable) + EscapeAll(s[1..], printable)
  }

  function Quote(s: string, printable: Printable): string {
    "\"" + EscapeAll(s, printable) + "\""
  }

  // ---------- reading ----------

  function CharOf(n: nat): Option<char> {
    if n > 0x10FFFF then None
    else if 0xD800 <= n < 0xE000 then Some(REPLACEMENT)
    else Some(n as char)
  }

  function Coded(s: string, digits: nat): Option<(char, nat)> {
    if |s| < 2 + digits then None
    else
      var n := ParseHex(s[2..2 + digits]);
      if n.None? then None
      else match CharOf(n.value) case None => None case Some(c) => Some((c, 2 + digits))
  }

  predicate Octal(c: char) { '0' <= c <= '7' }

  /** One character of a literal, and how much of the text it took. */
  function Unescape(s: string, quote: char): (r: Option<(char, nat)>)
    requires s != ""
    ensures r.Some? ==> 0 < r.value.1 <= |s|
  {
    if s[0] == quote then None
    else if s[0] != '\\' then Some((s[0], 1))
    else if |s| == 1 then None
    else match s[1]
      case 'a' => Some((0x07 as char, 2))
      case 'b' => Some((0x08 as char, 2))
      case 'f' => Some((0x0C as char, 2))
      case 'n' => Some(('\n', 2))
      case 'r' => Some(('\r', 2))
      case 't' => Some(('\t', 2))
      case 'v' => Some((0x0B as char, 2))
      case 'x' => Coded(s, 2)
      case 'u' => Coded(s, 4)
      case 'U' => Coded(s, 8)
      case c =>
        if Octal(c) then
          if |s| < 4 || !Octal(s[2]) || !Octal(s[3]) then None
          else
            var n := 64 * (c as int - '0' as int) + 8 * (s[2] as int - '0' as int) + (s[3] as int - '0' as int);
            if n > 255 then None else Some((n as char, 4))
        else if c == '\\' || c == quote then Some((c, 2))
        else None
  }

  /** A literal in single quotes holds at most one character. */
  function UnescapeAll(s: string, quote: char): Option<string>
    decreases |s|
  {
    if s == "" then Some("")
    else
      var r := Unescape(s, quote);
      if r.None? || (quote == '\'' && r.value.1 != |s|) then None
      else match UnescapeAll(s[r.value.1..], quote)
        case None => None
        case Some(rest) => Some([r.value.0] + rest)
  }

  function Without(s: string, c: char): string {
    if s == "" then "" else (if s[0] == c then "" else [s[0]]) + Without(s[1..], c)
  }

  function Unquote(s: string): Option<string> {
    if |s| < 2 || s[0] != s[|s| - 1] then None
    else
      var body := s[1..|s| - 1];
      if s[0] == '`' then if '`' in body then None else Some(Without(body, '\r'))
      else if (s[0] != '"' && s[0] != '\'') || '\n' in body then None
      else UnescapeAll(body, s[0])
  }

  // ---------- the round trip ----------

  lemma CodedBack(c: char, letter: char, digits: nat, rest: string)
    requires c as int < Pow16(digits) && (c as int < 0xD800 || c as int >= 0xE000)
    ensures Coded(['\\', letter] + Hex(c as int, digits) + rest, digits) == Some((c, 2 + digits))
  {
    var s := ['\\', letter] + Hex(c as int, digits) + rest;
    assert s[2..2 + digits] == Hex(c as int, digits);
    HexRoundTrip(c as int, digits);
  }

  lemma UnescapeEscape(c: char, printable: Printable, rest: string)
    ensures var e := Escape(c, printable); Unescape(e + rest, '"') == Some((c, |e|))
  {
    var e := Escape(c, printable);
    if |e| > 2 {
      assert Pow16(2) == 256 && Pow16(4) == 0x10000 && Pow16(8) == 0x100000000 by {
        assert Pow16(3) == 4096 && Pow16(5) == 0x100000 && Pow16(6) == 0x1000000;
      }
      CodedBack(c, e[1], |e| - 2, rest);
      assert e == ['\\', e[1]] + Hex(c as int, |e| - 2);
    } else if |e| == 2 {
      assert (e + rest)[1] == e[1];
    }
  }

  lemma {:induction false} UnescapeEscapeAll(s: string, printable: Printable)
    ensures UnescapeAll(EscapeAll(s, printable), '"') == Some(s)
  {
    if s != "" {
      var e, rest := Escape(s[0], printable), EscapeAll(s[1..], printable);
      UnescapeEscape(s[0], printable, rest);
      assert (e + rest)[|e|..] == rest;
      UnescapeEscapeAll(s[1..], printable);
      assert [s[0]] + s[1..] == s;
    }
  }

  lemma {:induction false} HexPlain(n: nat, digits: nat)
    ensures '\n' !in Hex(n, digits)
  {
    if digits > 0 {
      HexPlain(n / 16, digits - 1);
    }
  }

  lemma EscapePlain(c: char, printable: Printable)
    ensures '\n' !in Escape(c, printable)
  {
    HexPlain(c as int, 2);
    HexPlain(c as int, 4);
    HexPlain(c as int, 8);
  }

  lemma {:induction false} OneLine(s: string, printable: Printable)
    ensures '\n' !in EscapeAll(s, printable)
  {
    if s != "" {
      EscapePlain(s[0], printable);
      OneLine(s[1..], printable);
    }
  }

  /** Reading a written literal gives back the string, whatever it holds; the literal is one line. */
  lemma UnquoteQuote(s: string, printable: Printable)
    ensures Unquote(Quote(s, printable)) == Some(s)
    ensures '\n' !in Quote(s, printable)
  {
    var q := Quote(s, printable);
    assert q[1..|q| - 1] == EscapeAll(s, printable);
    OneLine(s, printable);
    UnescapeEscapeAll(s, printable);
  }

  // ---------- how literals look ----------

  /** Plain text stands between the quotes as it is. */
  lemma {:induction false} QuotePlain(s: string, printable: Printable)
    requires forall i :: 0 <= i < |s| ==> ' ' <= s[i] <= '~' && s[i] != '"' && s[i] != '\\'
    ensures EscapeAll(s, printable) == s && Quote(s, printable) == "\"" + s + "\""
  {
    if s == "" {
      assert EscapeAll(s, printable) == s;
    } else {
      QuotePlain(s[1..], printable);
      assert EscapeAll(s, printable) == [s[0]] + s[1..] == s;
    }
  }

  lemma QuoteOne(c: char, printable: Printable)
    ensures Quote([c], printable) == "\"" + Escape(c, printable) + "\""
  {
    var s := [c];
    assert s[1..] == "" && EscapeAll("", printable) == "";
    assert EscapeAll(s, printable) == Escape(c, printable) + EscapeAll(s[1..], printable);
  }

  lemma HexByte(n: nat, high: char, low: char)
    requires n < 256 && high == HexDigit(n / 16) && low == HexDigit(n % 16)
    ensures Hex(n, 2) == [high, low]
  {
    assert Hex(n / 16 / 16, 0) == "";
    assert Hex(n / 16, 1) == [HexDigit(n / 16 % 16)];
  }

  /** Go's own escapes, letter by letter. */
  lemma EscapesSpelled(printable: Printable)
    ensures Quote("\"", printable) == "\"\\\"\"" && Quote("\\", printable) == "\"\\\\\""
    ensures Quote("\n", printable) == "\"\\n\"" && Quote("\r", printable) == "\"\\r\""
    ensures Quote("\t", printable) == "\"\\t\"" && Quote([0x07 as char], printable) == "\"\\a\""
    ensures Quote([0x08 as char], printable) == "\"\\b\"" && Quote([0x0B as char], printable) == "\"\\v\""
    ensures Quote([0x0C as char], printable) == "\"\\f\"" && Quote([0x1B as char], printable) == "\"\\x1b\""
  {
    QuoteOne('"', printable);
    QuoteOne('\\', printable);
    QuoteOne('\n', printable);
    QuoteOne('\r', printable);
    QuoteOne('\t', printable);
    QuoteOne(0x07 as char, printable);
    QuoteOne(0x08 as char, printable);
    QuoteOne(0x0B as char, printable);
    QuoteOne(0x0C as char, printable);
    QuoteOne(0x1B as char, printable);
    HexByte(0x1B, '1', 'b');
  }

  lemma {:induction false} WithoutAbsent(s: string, c: char)
    requires c !in s
    ensures Without(s, c) == s
  {
    if s != "" {
      WithoutAbsent(s[1..], c);
      assert [s[0]] + s[1..] == s;
    }
  }

  /** The literals that are read but never written: a raw one, one character in single quotes, and
      codes; and what is not a literal at all. */
  lemma UnquoteSpelled(s: string, c: char)
    ensures '`' !in s && '\r' !in s ==> Unquote("`" + s + "`") == Some(s)
    ensures c !in {'\'', '\\', '\n'} ==> Unquote(['\'', c, '\'']) == Some([c])
    ensures |s| < 2 || s[0] !in {'"', '\'', '`'} || s[0] != s[|s| - 1] ==> Unquote(s) == None
  {
    var raw := "`" + s + "`";
    assert raw[1..|raw| - 1] == s;
    if '\r' !in s {
      WithoutAbsent(s, '\r');
    }
    assert ['\'', c, '\''][1..2] == [c] && [c][1..] == "" && [c] + "" == [c];
    assert UnescapeAll("", '\'') == Some("");
  }

  lemma UnescapeOne(s: string, quote: char, c: char)
    requires quote == '"' && s != "" && Unescape(s, quote) == Some((c, |s|))
    ensures UnescapeAll(s, quote) == Some([c])
  {
    assert s[|s|..] == "" && UnescapeAll("", quote) == Some("") && [c] + "" == [c];
  }

  lemma CodesSpelled()
    ensures Unquote("\"\\101\"") == Some("A") && Unquote("\"\\x41\"") == Some("A")
  {
    var octal, hex := "\\101", "\\x41";
    assert "\"\\101\""[1..5] == octal && "\"\\x41\""[1..5] == hex;
    UnescapeOne(octal, '"', 'A');
    assert hex[2..4] == "41" && "41"[..1] == "4" && "4"[..0] == "";
    assert ParseHex("4") == Some(4) && ParseHex("41") == Some(0x41);
    UnescapeOne(hex, '"', 'A');
  }
}
