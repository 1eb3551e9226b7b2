/** Python's `repr()` of a `str`, which `str(dict)` uses for the string values of the
    executor's result dictionary, and a reader for the literals it produces. */
module PyRepr {
  import opened Text

  /** The quote `repr` chooses: double quotes only when the text holds a single quote
      and no double quote. */
  function QuoteFor(s: string): char
  {
    if '\'' in s && '"' !in s then '"' else '\''
  }

  function HexDigit(n: nat): (c: char)
    requires n < 16
  {
    if n < 10 then (48 + n) as char else (87 + n) as char
  }

  predicate IsHexDigit(c: char)
  {
    ('0' <= c <= '9') || ('a' <= c <= 'f')
  }

  function HexValue(c: char): (n: nat)
    requires IsHexDigit(c)
    ensures n < 16
  {
    if c <= '9' then c as int - 48 else c as int - 87
  }

  /** Characters `repr` writes as a `\xHH` escape: the C0 and C1 controls, DEL, the
      no-break space and the soft hyphen. */
  predicate HexEscaped(c: char)
  {
    c < ' ' || ('\U{7f}' <= c <= '\U{a0}') || c == '\U{ad}'
  }

  /** How `repr` writes one character inside a literal delimited by `quote`. */
  function EscapeChar(c: char, quote: char): string
  {
    if c == quote || c == '\\' then ['\\', c]
    else if c == '\t' then "\\t"
    else if c == '\n' then "\\n"
    else if c == '\r' then "\\r"
    else if HexEscaped(c) then ['\\', 'x', HexDigit(c as int / 16), HexDigit(c as int % 16)]
    else [c]
  }

  function EscapeBody(s: string, quote: char): string
  {
    if s == [] then [] else EscapeChar(s[0], quote) + EscapeBody(s[1..], quote)
  }

  /** `repr(s)`. */
  function StrRepr(s: string): string
  {
    var q := QuoteFor(s);
    [q] + EscapeBody(s, q) + [q]
  }

  function Prepend(c: char, r: Option<string>): Option<string>
  {
    match r
    case None => None
    case Some(t) => Some([c] + t)
  }

  /** Reads the inside of a literal delimited by `quote`: `None` on a bare closing quote,
      a dangling backslash or an escape `repr` never writes. */
  function ReadBody(t: string, quote: char): Option<string>
  {
    if t == [] then Some([])
    else if t[0] == quote then None
    else if t[0] != '\\' then Prepend(t[0], ReadBody(t[1..], quote))
    else if |t| < 2 then None
    else if t[1] == '\\' || t[1] == '\'' || t[1] == '"' then Prepend(t[1], ReadBody(t[2..], quote))
    else if t[1] == 't' then Prepend('\t', ReadBody(t[2..], quote))
    else if t[1] == 'n' then Prepend('\n', ReadBody(t[2..], quote))
    else if t[1] == 'r' then Prepend('\r', ReadBody(t[2..], quote))
    else if t[1] == 'x' && |t| >= 4 && IsHexDigit(t[2]) && IsHexDigit(t[3]) then
      Prepend((HexValue(t[2]) * 16 + HexValue(t[3])) as char, ReadBody(t[4..], quote))
    else None
  }

  /** Reads a whole quoted literal back into the text it stands for. */
  function ReadLiteral(t: string): Option<string>
  {
    if |t| >= 2 && (t[0] == '\'' || t[0] == '"') && t[|t| - 1] == t[0]
    then ReadBody(t[1..|t| - 1], t[0])
    else None
  }

  lemma HexRoundTrip(n: nat)
    requires n < 16
    ensures IsHexDigit(HexDigit(n)) && HexValue(HexDigit(n)) == n
  {
  }

  /** Reading an escaped character gives that character back, whatever follows it. */
  lemma ReadEscapeChar(c: char, quote: char, rest: string)
    requires quote == '\'' || quote == '"'
    ensures ReadBody(EscapeChar(c, quote) + rest, quote) == Prepend(c, ReadBody(rest, quote))
  {
    var e := EscapeChar(c, quote);
    var t := e + rest;
    if c == quote || c == '\\' || c == '\t' || c == '\n' || c == '\r' {
      assert t[2..] == rest;
    } else if HexEscaped(c) {
      var hi, lo := c as int / 16, c as int % 16;
      HexRoundTrip(hi);
      HexRoundTrip(lo);
      assert t[2] == HexDigit(hi) && t[3] == HexDigit(lo);
      assert t[4..] == rest;
      assert (hi * 16 + lo) as char == c;
    } else {
      assert t[1..] == rest;
    }
  }

  lemma {:induction false} ReadEscapeBody(s: string, quote: char)
    requires quote == '\'' || quote == '"'
    ensures ReadBody(EscapeBody(s, quote), quote) == Some(s)
    decreases |s|
  {
    if s != [] {
      ReadEscapeBody(s[1..], quote);
      ReadEscapeChar(s[0], quote, EscapeBody(s[1..], quote));
      assert [s[0]] + s[1..] == s;
    }
  }

  /** `repr` loses nothing: its literal reads back as the original text. */
  lemma ReadStrRepr(s: string)
    ensures ReadLiteral(StrRepr(s)) == Some(s)
  {
    var q := QuoteFor(s);
    var t := StrRepr(s);
    assert t[1..|t| - 1] == EscapeBody(s, q);
    ReadEscapeBody(s, q);
  }
}
