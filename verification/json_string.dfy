/** `JSON.stringify` applied to a string, and the reading of the resulting
    double-quoted literal by a JavaScript parser. The prelude splices the
    module id into generated code this way, so the literal must read back as
    exactly the id and must end exactly where it was inserted. */
module JsonString {
  import opened Results

  /** Lower-case hexadecimal digit, as `JSON.stringify` writes it in `\u00xx`. */
  function HexDigit(d: nat): (c: char)
    requires d < 16
    ensures HexValue(c) == Some(d)
  {
    if d < 10 then (48 + d) as char else (87 + d) as char
  }

  /** Value of a hexadecimal digit in a `\uXXXX` escape (either case). */
  function HexValue(c: char): (v: Option<nat>)
    ensures v.Some? ==> v.value < 16
  {
    if '0' <= c <= '9' then Some(c as int - 48)
    else if 'a' <= c <= 'f' then Some(c as int - 87)
    else if 'A' <= c <= 'F' then Some(c as int - 55)
    else None
  }

  /** How `JSON.stringify` writes one character inside the quotes. */
  function EscapeChar(c: char): string {
    if c == '"' then "\\\""
    else if c == '\\' then "\\\\"
    else if c as int == 8 then "\\b"
    else if c == '\t' then "\\t"
    else if c == '\n' then "\\n"
    else if c as int == 12 then "\\f"
    else if c == '\r' then "\\r"
    else if c as int < 32 then ['\\', 'u', '0', '0', HexDigit(c as int / 16), HexDigit(c as int % 16)]
    else [c]
  }

  function Escape(s: string): string
    decreases |s|
  {
    if s == [] then [] else EscapeChar(s[0]) + Escape(s[1..])
  }

  /** `JSON.stringify(s)` for a string `s`. */
  function Stringify(s: string): (lit: string)
    ensures |lit| >= 2 && lit[0] == '"' && lit[|lit| - 1] == '"'
  {
    "\"" + Escape(s) + "\""
  }

  /** The value of the four hexadecimal digits of a `\uXXXX` escape. */
  function Hex4(a: char, b: char, c: char, d: char): Option<nat> {
    match (HexValue(a), HexValue(b), HexValue(c), HexValue(d))
    case (Some(x), Some(y), Some(z), Some(w)) => Some(((x * 16 + y) * 16 + z) * 16 + w)
    case _ => None
  }

  /** The escape sequence at the start of `s` (which starts with a backslash):
      the character it denotes and its length. Only the escapes a JSON string
      uses are read; a `\u` escape naming a surrogate code unit is not. */
  function EscapeAt(s: string): (r: Option<(char, nat)>)
    requires |s| >= 1 && s[0] == '\\'
    ensures r.Some? ==> 2 <= r.value.1 <= |s|
  {
    if |s| < 2 then None
    else if s[1] == '"' then Some(('"', 2))
    else if s[1] == '\\' then Some(('\\', 2))
    else if s[1] == 'b' then Some((8 as char, 2))
    else if s[1] == 't' then Some(('\t', 2))
    else if s[1] == 'n' then Some(('\n', 2))
    else if s[1] == 'f' then Some((12 as char, 2))
    else if s[1] == 'r' then Some(('\r', 2))
    else if s[1] == 'u' && |s| >= 6 then
      match Hex4(s[2], s[3], s[4], s[5])
      case Some(v) => if v < 0xD800 || 0xDFFF < v then Some((v as char, 6)) else None
      case None => None
    else None
  }

  /** Reads the inside of a double-quoted literal; `s` starts just after the
      opening quote. Yields the value and the position of the closing quote.
      An unescaped line break, or running out of text, is a syntax error. */
  function ScanBody(s: string): (r: Option<(string, nat)>)
    ensures r.Some? ==> r.value.1 < |s| && s[r.value.1] == '"'
    decreases |s|
  {
    if s == [] then None
    else if s[0] == '"' then Some(([], 0))
    else if s[0] == '\n' || s[0] == '\r' then None
    else if s[0] == '\\' then
      match EscapeAt(s)
      case None => None
      case Some((c, n)) =>
        match ScanBody(s[n..])
        case None => None
        case Some((v, k)) => Some(([c] + v, n + k))
    else
      match ScanBody(s[1..])
      case None => None
      case Some((v, k)) => Some(([s[0]] + v, 1 + k))
  }

  /** Reads a double-quoted literal at the start of `src`: its value and its
      length, quotes included. */
  function ScanLiteral(src: string): (r: Option<(string, nat)>)
    ensures r.Some? ==> 2 <= r.value.1 <= |src| && src[0] == '"' && src[r.value.1 - 1] == '"'
  {
    if src == [] || src[0] != '"' then None
    else
      match ScanBody(src[1..])
      case None => None
      case Some((v, k)) => Some((v, k + 2))
  }

  /** The characters `JSON.stringify` writes as an escape sequence. */
  predicate EscapedBySequence(c: char) {
    c == '"' || c == '\\' || c as int < 32
  }

  /** A character written as itself is read as itself. */
  lemma ScanPlainChar(c: char, t: string)
    requires !EscapedBySequence(c)
    ensures EscapeChar(c) == [c]
    ensures ScanBody([c] + t) ==
            match ScanBody(t)
            case None => None
            case Some((v, k)) => Some(([c] + v, 1 + k))
  {
    assert ([c] + t)[1..] == t;
  }

  /** An escape sequence is read as the character it denotes. */
  lemma ScanEscapeSequence(c: char, t: string)
    requires EscapedBySequence(c)
    ensures EscapeAt(EscapeChar(c) + t) == Some((c, |EscapeChar(c)|))
  {
    var e := EscapeChar(c);
    var s := e + t;
    assert s[0] == e[0] && s[1] == e[1];
    if c as int < 32 && c != '\t' && c != '\n' && c != '\r' && c as int != 8 && c as int != 12 {
      var hi, lo := c as int / 16, c as int % 16;
      assert e == ['\\', 'u', '0', '0', HexDigit(hi), HexDigit(lo)];
      assert s[2] == '0' && s[3] == '0' && s[4] == HexDigit(hi) && s[5] == HexDigit(lo);
      assert Hex4(s[2], s[3], s[4], s[5]) == Some(c as int);
    }
  }

  /** Reading one escaped character yields that character, then carries on. */
  lemma ScanEscapedChar(c: char, t: string)
    ensures ScanBody(EscapeChar(c) + t) ==
            match ScanBody(t)
            case None => None
            case Some((v, k)) => Some(([c] + v, |EscapeChar(c)| + k))
  {
    if EscapedBySequence(c) {
      var s := EscapeChar(c) + t;
      ScanEscapeSequence(c, t);
      assert s[0] == '\\';
      assert s[|EscapeChar(c)|..] == t;
    } else {
      ScanPlainChar(c, t);
    }
  }

  /** The escaped text reads back as the original, up to the quote after it. */
  lemma {:induction false} ScanEscaped(id: string, rest: string)
    ensures ScanBody(Escape(id) + "\"" + rest) == Some((id, |Escape(id)|))
    decreases |id|
  {
    if id == [] {
      assert Escape(id) + "\"" + rest == "\"" + rest;
    } else {
      var t := Escape(id[1..]) + "\"" + rest;
      assert Escape(id) + "\"" + rest == EscapeChar(id[0]) + t;
      ScanEscaped(id[1..], rest);
      ScanEscapedChar(id[0], t);
      assert [id[0]] + id[1..] == id;
    }
  }

  /** Round trip: the literal `JSON.stringify(id)` evaluates to `id`, and it
      ends exactly where it was inserted, whatever code follows it. */
  lemma LiteralRoundTrip(id: string, rest: string)
    ensures ScanLiteral(Stringify(id) + rest) == Some((id, |Stringify(id)|))
  {
    var src := Stringify(id) + rest;
    assert src[1..] == Escape(id) + "\"" + rest;
    ScanEscaped(id, rest);
  }
}
