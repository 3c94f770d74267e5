/** JSON strings as Go's encoder writes them, which is also safe inside HTML. */
module JsonText {
  import opened Wrappers

  predicate Special(c: char) {
    c == '"' || c == '\\' || c < ' ' || c == '<' || c == '>' || c == '&' || c == '\U{2028}' || c == '\U{2029}'
  }

  function HexDigit(n: nat): char
    requires n < 16
  {
    if n < 10 then '0' + n as char else 'a' + (n - 10) as char
  }

  function Hex(n: nat): (s: string)
    requires n < 0x10000
    ensures |s| == 4
  {
    [HexDigit(n / 16 / 16 / 16), HexDigit(n / 16 / 16 % 16), HexDigit(n / 16 % 16), HexDigit(n % 16)]
  }

  function EscapeChar(c: char): string {
    if !Special(c) then [c]
    else if c == '"' || c == '\\' then ['\\', c]
    else if c == '\n' then "\\n"
    else if c == '\r' then "\\r"
    else if c == '\t' then "\\t"
    else "\\u" + Hex(c as int)
  }

  function Escape(s: string): string {
    if s == [] then [] else EscapeChar(s[0]) + Escape(s[1..])
  }

  /** A JSON string literal. */
  function Quote(s: string): string {
    "\"" + Escape(s) + "\""
  }

  // ----- Reading -----

  function DigitValue(c: char): Option<nat> {
    if '0' <= c <= '9' then Some(c as int - '0' as int)
    else if 'a' <= c <= 'f' then Some(c as int - 'a' as int + 10)
    else if 'A' <= c <= 'F' then Some(c as int - 'A' as int + 10)
    else None
  }

  function HexValue(s: string): Option<nat>
    requires |s| == 4
  {
    var a, b, c, d := DigitValue(s[0]), DigitValue(s[1]), DigitValue(s[2]), DigitValue(s[3]);
    if a.Some? && b.Some? && c.Some? && d.Some?
    then Some(a.value * 0x1000 + b.value * 0x100 + c.value * 16 + d.value) else None
  }

  /** Reads one character of a string literal, with what follows it. */
  function ReadChar(s: string): (r: Option<(char, string)>)
    ensures r.Some? ==> |r.value.1| < |s|
  {
    if s == [] then None
    else if s[0] != '\\' then Some((s[0], s[1..]))
    else if |s| < 2 then None
    else match s[1]
      case '"' => Some(('"', s[2..]))
      case '\\' => Some(('\\', s[2..]))
      case '/' => Some(('/', s[2..]))
      case 'n' => Some(('\n', s[2..]))
      case 'r' => Some(('\r', s[2..]))
      case 't' => Some(('\t', s[2..]))
      case 'b' => Some(('\U{8}', s[2..]))
      case 'f' => Some(('\U{c}', s[2..]))
      case 'u' =>
        if |s| < 6 then None
        else (match HexValue(s[2..6])
              case None => None
              case Some(n) => if n < 0xD800 || 0xE000 <= n < 0x10000 then Some((n as char, s[6..])) else None)
      case _ => None
  }

  /** Reads the rest of a string literal up to its closing quote, with what follows it. */
  function ReadRest(s: string): Option<(string, string)>
    decreases |s|
  {
    if s == [] then None
    else if s[0] == '"' then Some(([], s[1..]))
    else match ReadChar(s)
      case None => None
      case Some((c, after)) =>
        match ReadRest(after)
        case None => None
        case Some((text, rest)) => Some(([c] + text, rest))
  }

  // ----- Round trip -----

  lemma DigitBack(n: nat)
    requires n < 16
    ensures DigitValue(HexDigit(n)) == Some(n)
  {
  }

  lemma HexBack(n: nat)
    requires n < 0x10000
    ensures HexValue(Hex(n)) == Some(n)
  {
    var a := n / 16;
    var b := a / 16;
    DigitBack(b / 16);
    DigitBack(b % 16);
    DigitBack(a % 16);
    DigitBack(n % 16);
    assert n == a * 16 + n % 16 && a == b * 16 + a % 16 && b == b / 16 * 16 + b % 16;
  }

  /** An escaped character reads back, and does not look like a closing quote. */
  lemma CharBack(c: char, rest: string)
    ensures EscapeChar(c) != [] && (EscapeChar(c) + rest)[0] != '"'
    ensures ReadChar(EscapeChar(c) + rest) == Some((c, rest))
  {
    var s := EscapeChar(c) + rest;
    if Special(c) && c !in {'"', '\\', '\n', '\r', '\t'} {
      HexBack(c as int);
      assert s[2..6] == Hex(c as int) && s[6..] == rest;
    } else if Special(c) {
      assert s[2..] == rest;
    } else {
      assert s[1..] == rest;
    }
  }

  lemma {:induction false} EscapeBack(s: string, rest: string)
    ensures ReadRest(Escape(s) + "\"" + rest) == Some((s, rest))
  {
    if s == [] {
      assert Escape(s) + "\"" + rest == "\"" + rest;
    } else {
      var after := Escape(s[1..]) + "\"" + rest;
      assert Escape(s) + "\"" + rest == EscapeChar(s[0]) + after;
      CharBack(s[0], after);
      EscapeBack(s[1..], rest);
      assert ReadRest(after) == Some((s[1..], rest));
      assert [s[0]] + s[1..] == s;
    }
  }

  /** Reads a literal that stands behind `prefix` and before `suffix`. */
  function ReadBetween(json: string, prefix: string, suffix: string): Option<string> {
    if !(prefix + "\"" <= json) then None
    else match ReadRest(json[|prefix| + 1..])
      case None => None
      case Some((text, rest)) => if rest == suffix then Some(text) else None
  }

  /** Whatever the text, its literal reads back as the text. */
  lemma QuoteBack(prefix: string, s: string, suffix: string)
    ensures ReadBetween(prefix + Quote(s) + suffix, prefix, suffix) == Some(s)
  {
    var json := prefix + Quote(s) + suffix;
    EscapeBack(s, suffix);
    assert json == (prefix + "\"") + (Escape(s) + "\"" + suffix);
    assert json[|prefix| + 1..] == Escape(s) + "\"" + suffix;
  }
}
