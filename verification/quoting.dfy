/** Go's `%q` verb on strings, which renders `strconv.Quote`, and a reader
    for quoted text that undoes it. */
module Quoting {
  import opened Results

  const HexDigits: string := "0123456789abcdef"

  /** ASCII control characters: below the space, and DEL. */
  predicate IsControl(c: char) {
    c as int < 0x20 || c as int == 0x7f
  }

  /** The letter of the one-letter escape Go uses for a control character. */
  function ShortEscape(c: char): Option<char> {
    if c as int == 7 then Some('a')
    else if c as int == 8 then Some('b')
    else if c as int == 12 then Some('f')
    else if c as int == 10 then Some('n')
    else if c as int == 13 then Some('r')
    else if c as int == 9 then Some('t')
    else if c as int == 11 then Some('v')
    else None
  }

  /** How `strconv.Quote` writes one character between the quotes. */
  function EscapeChar(c: char): string {
    if c == '"' || c == '\\' then ['\\', c]
    else if !IsControl(c) then [c]
    else match ShortEscape(c)
      case Some(letter) => ['\\', letter]
      case None => ['\\', 'x', HexDigits[c as int / 16], HexDigits[c as int % 16]]
  }

  function Escape(s: string): string {
    if |s| == 0 then "" else EscapeChar(s[0]) + Escape(s[1..])
  }

  /** `fmt.Sprintf("%q", s)`. */
  function Quote(s: string): string {
    "\"" + Escape(s) + "\""
  }

  function HexValue(c: char): Option<nat> {
    if '0' <= c <= '9' then Some(c as int - '0' as int)
    else if 'a' <= c <= 'f' then Some(c as int - 'a' as int + 10)
    else None
  }

  /** The character an escape denotes, given the text after the backslash,
      and how many characters of that text the escape uses. */
  function Unescape(s: string): Option<(char, nat)> {
    if |s| == 0 then None
    else if s[0] == '"' || s[0] == '\\' then Some((s[0], 1))
    else if s[0] == 'a' then Some((7 as char, 1))
    else if s[0] == 'b' then Some((8 as char, 1))
    else if s[0] == 'f' then Some((12 as char, 1))
    else if s[0] == 'n' then Some((10 as char, 1))
    else if s[0] == 'r' then Some((13 as char, 1))
    else if s[0] == 't' then Some((9 as char, 1))
    else if s[0] == 'v' then Some((11 as char, 1))
    else if s[0] == 'x' && |s| >= 3 && HexValue(s[1]).Some? && HexValue(s[2]).Some? then
      Some(((HexValue(s[1]).value * 16 + HexValue(s[2]).value) as char, 3))
    else None
  }

  function Prepend(c: char, o: Option<(string, string)>): Option<(string, string)> {
    match o
    case None => None
    case Some(p) => Some(([c] + p.0, p.1))
  }

  /** Reads quoted content up to the closing quote; yields the content and
      the text after the closing quote. */
  function ReadBody(s: string): Option<(string, string)>
    decreases |s|
  {
    if |s| == 0 then None
    else if s[0] == '"' then Some(("", s[1..]))
    else if s[0] != '\\' then Prepend(s[0], ReadBody(s[1..]))
    else match Unescape(s[1..])
      case None => None
      case Some(e) => Prepend(e.0, ReadBody(s[1 + e.1..]))
  }

  /** Reads one quoted string at the start of `s`. */
  function UnquotePrefix(s: string): Option<(string, string)> {
    if |s| == 0 || s[0] != '"' then None else ReadBody(s[1..])
  }

  lemma ReadEscapedChar(c: char, tail: string)
    ensures ReadBody(EscapeChar(c) + tail) == Prepend(c, ReadBody(tail))
  {
    var e := EscapeChar(c);
    if c == '"' || c == '\\' {
      assert (e + tail)[2..] == tail;
    } else if !IsControl(c) {
      assert (e + tail)[1..] == tail;
    } else if ShortEscape(c).Some? {
      assert (e + tail)[2..] == tail;
    } else {
      var v := c as int;
      assert HexValue(HexDigits[v / 16]) == Some(v / 16);
      assert HexValue(HexDigits[v % 16]) == Some(v % 16);
      assert (e + tail)[1..][..3] == e[1..];
      assert (e + tail)[4..] == tail;
    }
  }

  /** Quoting is undone by reading: the text after the closing quote is
      left untouched. */
  lemma {:induction false} UnquoteQuote(s: string, rest: string)
    ensures UnquotePrefix(Quote(s) + rest) == Some((s, rest))
  {
    assert (Quote(s) + rest)[1..] == Escape(s) + "\"" + rest;
    ReadQuotedBody(s, rest);
  }

  lemma {:induction false} ReadQuotedBody(s: string, rest: string)
    ensures ReadBody(Escape(s) + "\"" + rest) == Some((s, rest))
  {
    if |s| == 0 {
      assert Escape(s) + "\"" + rest == "\"" + rest;
    } else {
      assert Escape(s) + "\"" + rest == EscapeChar(s[0]) + (Escape(s[1..]) + "\"" + rest);
      ReadEscapedChar(s[0], Escape(s[1..]) + "\"" + rest);
      ReadQuotedBody(s[1..], rest);
      assert [s[0]] + s[1..] == s;
    }
  }
}
