/** The tokeniser as it is written: a cursor into a character vector, advanced in place.
    Every method is tied to the functions of `Lex`. */
module Tokeniser {
  import opened Wrappers
  import opened Text
  import opened Lex

  /** `quote_into`: append `s` in a form the lexer reads back as exactly `s`. */
  method QuoteInto(out: string, s: string) returns (r: string)
    ensures r == out + Quote(s)
  {
    hide EscapeChar, IsBare;
    if IsBare(s) {
      return out + s;
    }
    r := out + "\"";
    assert s[0..] == s;
    for i := 0 to |s|
      invariant r + EscapeAll(s[i..]) == out + "\"" + EscapeAll(s)
      invariant !IsBare(s)
    {
      EscapeStep(s, i, r);
      r := r + EscapeChar(s[i]);
    }
    assert s[|s|..] == [] && EscapeAll([]) == "" && r + "" == r;
    r := r + "\"";
  }

  lemma EscapeStep(s: string, i: nat, r: string)
    requires i < |s|
    ensures r + EscapeChar(s[i]) + EscapeAll(s[i + 1..]) == r + EscapeAll(s[i..])
  {
    hide EscapeChar;
    assert s[i..][1..] == s[i + 1..] && s[i..][0] == s[i];
    assert EscapeAll(s[i..]) == EscapeChar(s[i]) + EscapeAll(s[i + 1..]);
  }

  ghost function Onto(read: string, r: Result<(string, Cursor), LexError>): Result<(string, Cursor), LexError> {
    match r
    case Err(e) => Err(e)
    case Ok((s, end)) => Ok((read + s, end))
  }

  lemma OntoEmpty(r: Result<(string, Cursor), LexError>)
    ensures Onto("", r) == r
  {
    if r.Ok? { assert "" + r.value.0 == r.value.0; }
  }

  ghost function After(read: string, p: (string, Cursor)): (string, Cursor) {
    (read + p.0, p.1)
  }

  lemma AfterEmpty(p: (string, Cursor))
    ensures After("", p) == p
  {
    assert "" + p.0 == p.0;
  }

  lemma AfterStep(read: string, c: char, p: (string, Cursor))
    ensures After(read, ([c] + p.0, p.1)) == After(read + [c], p)
  {
    assert read + ([c] + p.0) == (read + [c]) + p.0;
  }

  lemma StrStep(read: string, cur: Cursor, open: Pos)
    ensures StrChar(cur, open).Ok? && StrChar(cur, open).value.0.Some? ==>
              Onto(read, Str(cur, open))
              == Onto(read + [StrChar(cur, open).value.0.value], Str(StrChar(cur, open).value.1, open))
  {
    hide StrChar;
    if StrChar(cur, open).Ok? && StrChar(cur, open).value.0.Some? {
      var (c, after) := StrChar(cur, open).value;
      var r := Str(after, open);
      if r.Ok? { assert read + ([c.value] + r.value.0) == (read + [c.value]) + r.value.0; }
    }
  }

  lemma CommentStep(read: string, cur: Cursor, open: Pos)
    requires cur.rest != [] && !(cur.At(0, '*') && cur.At(1, '/'))
    ensures Onto(read, UntilStarSlash(cur, open)) == Onto(read + [cur.rest[0]], UntilStarSlash(cur.Bump(), open))
  {
    var r := UntilStarSlash(cur.Bump(), open);
    if r.Ok? { assert read + ([cur.rest[0]] + r.value.0) == (read + [cur.rest[0]]) + r.value.0; }
  }

  class Lexer {
    const src: string
    var i: nat
    var line: nat
    var column: nat

    constructor (src: string)
      ensures Valid() && Here() == Start(src)
    {
      this.src := src;
      i, line, column := 0, 1, 1;
    }

    ghost predicate Valid()
      reads this
    {
      i <= |src|
    }

    /** What the lexer has yet to read, and where that starts. */
    ghost function Here(): Cursor
      requires Valid()
      reads this
    {
      Cursor(src[i..], Pos(line, column))
    }

    /** `peek_at(ahead)` is the character `c`. */
    method PeekIs(ahead: nat, c: char) returns (r: bool)
      requires Valid()
      ensures r <==> Here().At(ahead, c)
    {
      r := i + ahead < |src| && src[i + ahead] == c;
    }

    method Bump() returns (c: Option<char>)
      requires Valid()
      modifies this
      ensures Valid()
      ensures old(Here()).rest == [] ==> c.None? && Here() == old(Here())
      ensures old(Here()).rest != [] ==> c == Some(old(Here()).rest[0]) && Here() == old(Here()).Bump()
    {
      if i >= |src| {
        return None;
      }
      var here := src[i];
      i := i + 1;
      if here == '\n' {
        line, column := line + 1, 1;
      } else {
        column := column + 1;
      }
      c := Some(here);
    }

    method SkipSpace()
      requires Valid()
      modifies this
      ensures Valid() && Here() == SkipWhitespace(old(Here()))
    {
      while i < |src| && IsWhitespace(src[i])
        invariant Valid() && SkipWhitespace(Here()) == SkipWhitespace(old(Here()))
        decreases |src| - i
      {
        var _ := Bump();
      }
    }

    method ReadWord() returns (token: Token)
      requires Valid()
      modifies this
      ensures Valid() && token.Value? && (token.text, Here()) == Word(old(Here()))
    {
      var s := "";
      AfterEmpty(Word(Here()));
      while i < |src| && IsBareChar(src[i])
        invariant Valid() && After(s, Word(Here())) == Word(old(Here()))
        decreases |src| - i
      {
        AfterStep(s, src[i], Word(Here().Bump()));
        s := s + [src[i]];
        var _ := Bump();
      }
      assert s + "" == s;
      token := Value(s);
    }

    /** `escape`: the lexer is just past the backslash. */
    method ReadEscape(backslash: Pos) returns (r: Result<char, LexError>)
      requires Valid()
      modifies this
      ensures Valid()
      ensures match Escape(old(Here()), backslash)
              case Err(e) => r == Err(e)
              case Ok((c, after)) => r == Ok(c) && Here() == after
    {
      var next := Bump();
      match next {
        case None => r := Err(UnterminatedString(backslash));
        case Some(c) =>
          if c == '\\' || c == '"' {
            r := Ok(c);
          } else if c == 'n' {
            r := Ok('\n');
          } else if c == 't' {
            r := Ok('\t');
          } else if c == 'r' {
            r := Ok('\r');
          } else if c == 'x' {
            if i >= |src| || HexValue(src[i]).None? {
              return Err(BadHexEscape(backslash));
            }
            var high := HexValue(src[i]).value;
            var _ := Bump();
            if i >= |src| || HexValue(src[i]).None? {
              return Err(BadHexEscape(backslash));
            }
            var low := HexValue(src[i]).value;
            var _ := Bump();
            r := if high * 16 + low > 0x7f then Err(BadHexEscape(backslash)) else Ok((high * 16 + low) as char);
          } else {
            r := Err(UnknownEscape(backslash, c));
          }
      }
    }

    /** `string`: the lexer is at the opening quote. */
    method ReadString(open: Pos) returns (r: Result<Token, LexError>)
      requires Valid() && Here().rest != []
      modifies this
      ensures Valid()
      ensures match Str(old(Here()).Bump(), open)
              case Err(e) => r == Err(e)
              case Ok((s, after)) => r == Ok(Value(s)) && Here() == after
    {
      hide Str, Escape;
      var _ := Bump();
      ghost var start := Here();
      var s := "";
      OntoEmpty(Str(start, open));
      while true
        invariant Valid() && Onto(s, Str(Here(), open)) == Str(start, open)
        decreases |src| - i
      {
        ghost var cur := Here();
        var pos := Pos(line, column);
        StrStep(s, cur, open);
        StrDone(cur, open);
        var next := Bump();
        if next.None? {
          return Err(UnterminatedString(open));
        }
        if next.value == '"' {
          assert s + "" == s;
          return Ok(Value(s));
        }
        if next.value == '\\' {
          var escaped := ReadEscape(pos);
          if escaped.Err? {
            return Err(escaped.error);
          }
          s := s + [escaped.value];
        } else {
          s := s + [next.value];
        }
      }
    }

    method ReadLineComment() returns (token: Token)
      requires Valid() && Here().rest != []
      modifies this
      ensures Valid()
      ensures var (s, after) := UntilNewline(old(Here()).Bump());
              token == Comment(StripOneSpace(s)) && Here() == after
    {
      var _ := Bump();
      ghost var start := Here();
      var s := "";
      AfterEmpty(UntilNewline(start));
      while i < |src| && src[i] != '\n'
        invariant Valid() && After(s, UntilNewline(Here())) == UntilNewline(start)
        decreases |src| - i
      {
        AfterStep(s, src[i], UntilNewline(Here().Bump()));
        s := s + [src[i]];
        var _ := Bump();
      }
      assert s + "" == s;
      token := Comment(StripOneSpace(s));
    }

    /** `block_comment`: the lexer is at the opening delimiter. */
    method ReadBlockComment(open: Pos) returns (r: Result<Spanned, LexError>)
      requires Valid() && |Here().rest| >= 2
      modifies this
      ensures Valid()
      ensures match UntilStarSlash(old(Here()).Bump().Bump(), open)
              case Err(e) => r == Err(e)
              case Ok((raw, after)) => r == Ok(Spanned(Comment(Normalise(raw)), open)) && Here() == after
    {
      hide Normalise;
      var _ := Bump();
      var _ := Bump();
      ghost var start := Here();
      var raw := "";
      OntoEmpty(UntilStarSlash(start, open));
      while true
        invariant Valid() && Onto(raw, UntilStarSlash(Here(), open)) == UntilStarSlash(start, open)
        decreases |src| - i
      {
        if i >= |src| {
          return Err(UnterminatedComment(open));
        }
        var star := PeekIs(0, '*');
        var slash := PeekIs(1, '/');
        if star && slash {
          var _ := Bump();
          var _ := Bump();
          assert raw + "" == raw;
          return Ok(Spanned(Comment(Normalise(raw)), open));
        }
        CommentStep(raw, Here(), open);
        raw := raw + [src[i]];
        var _ := Bump();
      }
    }

    /** The next token, exactly as `Lex.NextToken` gives it. */
    method Next() returns (r: Result<Option<Spanned>, LexError>)
      requires Valid()
      modifies this
      ensures Valid()
      ensures match NextToken(old(Here()))
              case Err(e) => r == Err(e)
              case Ok(None) => r == Ok(None) && Here().rest == []
              case Ok(Some((t, after))) => r == Ok(Some(t)) && Here() == after
    {
      hide Str, Word, UntilStarSlash, UntilNewline, Normalise, SkipWhitespace;
      SkipSpace();
      var pos := Pos(line, column);
      if i >= |src| {
        return Ok(None);
      }
      var c := src[i];
      var slash := PeekIs(0, '/');
      var star := PeekIs(1, '*');
      if slash && star {
        var comment := ReadBlockComment(pos);
        return if comment.Ok? then Ok(Some(comment.value)) else Err(comment.error);
      }
      var token: Token;
      if c == '{' {
        var _ := Bump();
        token := Open;
      } else if c == '}' {
        var _ := Bump();
        token := Close;
      } else if c == '#' {
        token := ReadLineComment();
      } else if c == '"' {
        var quoted := ReadString(pos);
        if quoted.Err? {
          return Err(quoted.error);
        }
        token := quoted.value;
      } else if IsBareChar(c) {
        token := ReadWord();
      } else {
        return Err(UnexpectedChar(pos, c));
      }
      r := Ok(Some(Spanned(token, pos)));
    }
  }

  lemma StrDone(cur: Cursor, open: Pos)
    ensures StrChar(cur, open).Err? ==> Str(cur, open) == Err(StrChar(cur, open).error)
    ensures StrChar(cur, open).Ok? && StrChar(cur, open).value.0.None? ==>
              Str(cur, open) == Ok(("", StrChar(cur, open).value.1))
  {
  }
}
