/** The tokeniser shared by the config file format and the path syntax. */
module Lex {
  import opened Wrappers
  import opened Text

  /** One-based line and column, counted in characters. */
  datatype Pos = Pos(line: nat, column: nat) {
    function After(c: char): Pos {
      if c == '\n' then Pos(line + 1, 1) else Pos(line, column + 1)
    }
  }

  datatype Token =
    | Value(text: string)
    | Open
    | Close
    | Comment(text: string)

  datatype Spanned = Spanned(token: Token, pos: Pos)

  datatype LexError =
    | UnterminatedString(pos: Pos)
    | UnterminatedComment(pos: Pos)
    | UnknownEscape(pos: Pos, ch: char)
    | BadHexEscape(pos: Pos)
    | UnexpectedChar(pos: Pos, ch: char)

  // ----- quoting ---------------------------------------------------------

  predicate IsBareChar(c: char) {
    || IsAsciiDigit(c)
    || 'a' <= c <= 'z'
    || 'A' <= c <= 'Z'
    || c in {'.', ':', '/', '_', '-', '+', '%'}
  }

  predicate IsBare(s: string) {
    s != [] && forall i :: 0 <= i < |s| ==> IsBareChar(s[i])
  }

  predicate NeedsHex(c: char) {
    c < ' ' || c == '\U{7F}'
  }

  function HexDigit(n: nat): char
    requires n < 16
  {
    "0123456789abcdef"[n]
  }

  function EscapeChar(c: char): string {
    if c == '\\' then "\\\\"
    else if c == '"' then "\\\""
    else if c == '\n' then "\\n"
    else if c == '\t' then "\\t"
    else if c == '\r' then "\\r"
    else if NeedsHex(c) then ['\\', 'x', HexDigit(c as int / 16), HexDigit(c as int % 16)]
    else [c]
  }

  function EscapeAll(s: string): string {
    if s == [] then "" else EscapeChar(s[0]) + EscapeAll(s[1..])
  }

  function Quote(s: string): string {
    if IsBare(s) then s else "\"" + EscapeAll(s) + "\""
  }

  // ----- reading ---------------------------------------------------------

  /** What is left of the input, and the position of its first character. */
  datatype Cursor = Cursor(rest: string, pos: Pos) {
    function Bump(): Cursor
      requires rest != []
    {
      Cursor(rest[1..], pos.After(rest[0]))
    }

    predicate At(k: nat, c: char) {
      k < |rest| && rest[k] == c
    }
  }

  function SkipWhitespace(cur: Cursor): (r: Cursor)
    ensures |r.rest| <= |cur.rest|
    ensures r.rest != [] ==> !IsWhitespace(r.rest[0])
    decreases |cur.rest|
  {
    if cur.rest != [] && IsWhitespace(cur.rest[0]) then SkipWhitespace(cur.Bump()) else cur
  }

  /** The longest run of bare characters. */
  function Word(cur: Cursor): (r: (string, Cursor))
    ensures |r.0| + |r.1.rest| == |cur.rest|
    decreases |cur.rest|
  {
    if cur.rest != [] && IsBareChar(cur.rest[0]) then
      var (w, after) := Word(cur.Bump());
      ([cur.rest[0]] + w, after)
    else ("", cur)
  }

  function HexValue(c: char): Option<nat> {
    if '0' <= c <= '9' then Some(c as int - '0' as int)
    else if 'a' <= c <= 'f' then Some(c as int - 'a' as int + 10)
    else if 'A' <= c <= 'F' then Some(c as int - 'A' as int + 10)
    else None
  }

  /** The character after a backslash; `cur` is just past the backslash. */
  function Escape(cur: Cursor, backslash: Pos): (r: Result<(char, Cursor), LexError>)
    ensures r.Ok? ==> |r.value.1.rest| < |cur.rest|
  {
    if cur.rest == [] then Err(UnterminatedString(backslash)) else
      var c := cur.rest[0];
      var after := cur.Bump();
      if c == '\\' then Ok(('\\', after))
      else if c == '"' then Ok(('"', after))
      else if c == 'n' then Ok(('\n', after))
      else if c == 't' then Ok(('\t', after))
      else if c == 'r' then Ok(('\r', after))
      else if c != 'x' then Err(UnknownEscape(backslash, c))
      else if after.rest == [] || HexValue(after.rest[0]).None? then Err(BadHexEscape(backslash))
      else
        var last := after.Bump();
        if last.rest == [] || HexValue(last.rest[0]).None? then Err(BadHexEscape(backslash)) else
          var v := HexValue(after.rest[0]).value * 16 + HexValue(last.rest[0]).value;
          if v > 0x7f then Err(BadHexEscape(backslash)) else Ok((v as char, last.Bump()))
  }

  /** One character of a quoted value, or `None` at the closing quote. */
  function StrChar(cur: Cursor, open: Pos): (r: Result<(Option<char>, Cursor), LexError>)
    ensures r.Ok? ==> |r.value.1.rest| < |cur.rest|
  {
    if cur.rest == [] then Err(UnterminatedString(open))
    else if cur.rest[0] == '"' then Ok((None, cur.Bump()))
    else if cur.rest[0] == '\\' then
      var (c, after) :- Escape(cur.Bump(), cur.pos);
      Ok((Some(c), after))
    else Ok((Some(cur.rest[0]), cur.Bump()))
  }

  /** The rest of a quoted value; `cur` is past the opening quote. */
  function Str(cur: Cursor, open: Pos): (r: Result<(string, Cursor), LexError>)
    ensures r.Ok? ==> |r.value.1.rest| < |cur.rest|
    decreases |cur.rest|
  {
    match StrChar(cur, open)
    case Err(e) => Err(e)
    case Ok((None, after)) => Ok(("", after))
    case Ok((Some(c), after)) =>
      var (s, end) :- Str(after, open);
      Ok(([c] + s, end))
  }

  /** Everything up to the end of the line. */
  function UntilNewline(cur: Cursor): (r: (string, Cursor))
    ensures |r.0| + |r.1.rest| == |cur.rest|
    decreases |cur.rest|
  {
    if cur.rest != [] && cur.rest[0] != '\n' then
      var (s, after) := UntilNewline(cur.Bump());
      ([cur.rest[0]] + s, after)
    else ("", cur)
  }

  function StripOneSpace(s: string): string {
    if s != [] && s[0] == ' ' then s[1..] else s
  }

  /** Everything up to the closing delimiter, which is consumed. */
  function UntilStarSlash(cur: Cursor, open: Pos): (r: Result<(string, Cursor), LexError>)
    ensures r.Ok? ==> |r.value.1.rest| < |cur.rest|
    decreases |cur.rest|
  {
    if cur.rest == [] then Err(UnterminatedComment(open))
    else if cur.At(0, '*') && cur.At(1, '/') then Ok(("", cur.Bump().Bump()))
    else
      var (s, end) :- UntilStarSlash(cur.Bump(), open);
      Ok(([cur.rest[0]] + s, end))
  }

  function TrimCommentLines(lines: seq<string>): (r: seq<string>)
    ensures |r| == |lines|
  {
    if lines == [] then [] else
      [TrimStart(TrimStartMatches(Trim(lines[0]), '*'))] + TrimCommentLines(lines[1..])
  }

  /** A block comment's body, in the shape a run of `#` lines would have given. */
  function Normalise(raw: string): string {
    TrimEndMatches(TrimStartMatches(Join(TrimCommentLines(Lines(raw)), "\n"), '\n'), '\n')
  }

  /** The next token and what is left after it; `None` at end of input. */
  function NextToken(start: Cursor): (r: Result<Option<(Spanned, Cursor)>, LexError>)
    ensures r.Ok? && r.value.Some? ==> |r.value.value.1.rest| < |start.rest|
  {
    var cur := SkipWhitespace(start);
    var pos := cur.pos;
    if cur.rest == [] then Ok(None)
    else if cur.At(0, '/') && cur.At(1, '*') then
      var (raw, after) :- UntilStarSlash(cur.Bump().Bump(), pos);
      Ok(Some((Spanned(Comment(Normalise(raw)), pos), after)))
    else
      var c := cur.rest[0];
      if c == '{' then Ok(Some((Spanned(Open, pos), cur.Bump())))
      else if c == '}' then Ok(Some((Spanned(Close, pos), cur.Bump())))
      else if c == '#' then
        var (s, after) := UntilNewline(cur.Bump());
        Ok(Some((Spanned(Comment(StripOneSpace(s)), pos), after)))
      else if c == '"' then
        var (s, after) :- Str(cur.Bump(), pos);
        Ok(Some((Spanned(Value(s), pos), after)))
      else if IsBareChar(c) then
        var (w, after) := Word(cur);
        Ok(Some((Spanned(Value(w), pos), after)))
      else Err(UnexpectedChar(pos, c))
  }

  // ----- the token stream ------------------------------------------------

  /** Every token a reader pulling one at a time would see, ending the way the
      input ends: cleanly, or in the first lexical error. */
  datatype Stream = End | Fail(error: LexError) | More(head: Spanned, tail: Stream)

  function Tokens(cur: Cursor): Stream
    decreases |cur.rest|
  {
    match NextToken(cur)
    case Err(e) => Fail(e)
    case Ok(None) => End
    case Ok(Some((t, after))) => More(t, Tokens(after))
  }

  function Prepend(ts: seq<Spanned>, k: Stream): Stream {
    if ts == [] then k else More(ts[0], Prepend(ts[1..], k))
  }

  function Start(src: string): Cursor {
    Cursor(src, Pos(1, 1))
  }
}
