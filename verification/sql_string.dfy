/**
 * `mysql.escape` for the two kinds of value the query templates hand it: a Number becomes its
 * decimal text, a string becomes a single-quoted SQL literal in which NUL, backspace, tab, newline,
 * carriage return, Ctrl-Z, both quote characters and the backslash are backslash-escaped.
 */
module SqlString {
  import opened JsString

  /** A value as `mysql.escape` receives it here: a string or an integral Number. */
  datatype SqlValue = Text(s: string) | Number(n: int)

  const Backspace: char := '\U{8}'
  const CtrlZ: char := '\U{1A}'

  /** The characters that are written with a backslash inside a quoted literal. */
  predicate IsSpecial(c: char) {
    c == '\0' || c == Backspace || c == '\t' || c == '\n' || c == '\r' || c == CtrlZ
    || c == '"' || c == '\'' || c == '\\'
  }

  /** The text one character of a string literal is written as. */
  function EscapeChar(c: char): (r: string)
    ensures IsSpecial(c) ==> |r| == 2 && r[0] == '\\'
    ensures !IsSpecial(c) ==> r == [c]
  {
    if c == '\0' then "\\0"
    else if c == Backspace then "\\b"
    else if c == '\t' then "\\t"
    else if c == '\n' then "\\n"
    else if c == '\r' then "\\r"
    else if c == CtrlZ then "\\Z"
    else if c == '"' then "\\\""
    else if c == '\'' then "\\'"
    else if c == '\\' then "\\\\"
    else [c]
  }

  /** The inside of the quoted literal for `s`. */
  function EscapeBody(s: string): (r: string)
    ensures (forall k :: 0 <= k < |s| ==> !IsSpecial(s[k])) ==> r == s
    decreases |s|
  {
    if s == [] then [] else EscapeChar(s[0]) + EscapeBody(s[1..])
  }

  /** `mysql.escape(v)`: a string becomes one quoted literal that SQL reads back as the string
      and that no quote inside it can end early; a number becomes text that reads back as it. */
  function Escape(v: SqlValue): (r: string)
    ensures v.Text? ==> |r| >= 2 && r[0] == '\'' && r[|r| - 1] == '\''
                        && NoBareQuote(r[1..|r| - 1]) && UnescapeBody(r[1..|r| - 1]) == v.s
    ensures v.Number? ==> |r| >= 1 && (r[0] == '-' || IsDigit(r[0])) && (forall k :: 0 < k < |r| ==> IsDigit(r[k]))
                          && ParseIntText(r) == v.n
  {
    match v
    case Text(s) =>
      EscapeBodyRoundTrip(s);
      EscapeBodyHasNoBareQuote(s);
      var r := "'" + EscapeBody(s) + "'";
      assert r[1..|r| - 1] == EscapeBody(s);
      r
    case Number(n) =>
      IntTextRoundTrip(n);
      IntText(n)
  }

  /** The character a backslash pair inside a literal stands for. */
  function UnescapeChar(c: char): char {
    if c == '0' then '\0'
    else if c == 'b' then Backspace
    else if c == 't' then '\t'
    else if c == 'n' then '\n'
    else if c == 'r' then '\r'
    else if c == 'Z' then CtrlZ
    else c
  }

  /** How SQL reads the inside of a quoted literal back. */
  function UnescapeBody(t: string): string
    decreases |t|
  {
    if t == [] then []
    else if t[0] == '\\' && |t| >= 2 then [UnescapeChar(t[1])] + UnescapeBody(t[2..])
    else [t[0]] + UnescapeBody(t[1..])
  }

  /** Escaping loses nothing: reading the literal back gives the original string. */
  lemma {:induction false} EscapeBodyRoundTrip(s: string)
    ensures UnescapeBody(EscapeBody(s)) == s
    decreases |s|
  {
    if s != [] {
      EscapeBodyRoundTrip(s[1..]);
      var head := EscapeChar(s[0]);
      var tail := EscapeBody(s[1..]);
      assert EscapeBody(s) == head + tail;
      if IsSpecial(s[0]) {
        assert (head + tail)[2..] == tail;
      } else {
        assert (head + tail)[1..] == tail;
      }
    }
  }

  /** A quoted string never leaves its quotes: every quote inside the body is preceded by a backslash
      that is not itself escaped, so the literal ends exactly at its last character. */
  lemma {:induction false} EscapeBodyHasNoBareQuote(s: string)
    ensures NoBareQuote(EscapeBody(s))
    decreases |s|
  {
    if s != [] {
      EscapeBodyHasNoBareQuote(s[1..]);
      var head := EscapeChar(s[0]);
      var tail := EscapeBody(s[1..]);
      if IsSpecial(s[0]) {
        assert (head + tail)[2..] == tail;
      } else {
        assert (head + tail)[1..] == tail;
      }
    }
  }

  /** Scanned left to right, `t` holds no quote that is not part of a backslash pair, and does not
      end in a lone backslash. */
  predicate NoBareQuote(t: string)
    decreases |t|
  {
    if t == [] then true
    else if t[0] == '\\' then |t| >= 2 && NoBareQuote(t[2..])
    else t[0] != '\'' && NoBareQuote(t[1..])
  }

  /** Numbers are written as their decimal text, without quotes. */
  lemma EscapeNumber(n: int)
    ensures Escape(Number(n)) == IntText(n)
    ensures ParseIntText(Escape(Number(n))) == n
  {
    IntTextRoundTrip(n);
  }

  /** A string with no special character is written between single quotes exactly as it is. */
  lemma EscapePlainText(s: string)
    requires forall k :: 0 <= k < |s| ==> !IsSpecial(s[k])
    ensures Escape(Text(s)) == "'" + s + "'"
  {
  }
}
