/** Quoting is the inverse of lexing: what `Quote` writes, the tokeniser reads back. */
module LexRoundTrip {
  import opened Wrappers
  import opened Text
  import opened Lex

  function Right(pos: Pos, n: nat): Pos {
    Pos(pos.line, pos.column + n)
  }

  /** Where a bare word written just before `rest` is known to end. */
  predicate EndsWord(rest: string) {
    rest == [] || IsWhitespace(rest[0])
  }

  lemma {:induction false} WordReads(w: string, rest: string, pos: Pos)
    requires forall i :: 0 <= i < |w| ==> IsBareChar(w[i])
    requires EndsWord(rest)
    ensures Word(Cursor(w + rest, pos)) == (w, Cursor(rest, Right(pos, |w|)))
  {
    if w == [] {
      assert w + rest == rest;
    } else {
      assert (w + rest)[1..] == w[1..] + rest;
      WordReads(w[1..], rest, Right(pos, 1));
      assert w == [w[0]] + w[1..];
    }
  }

  lemma HexReads(c: char)
    requires NeedsHex(c)
    ensures HexValue(HexDigit(c as int / 16)) == Some(c as int / 16)
    ensures HexValue(HexDigit(c as int % 16)) == Some(c as int % 16)
    ensures c as int / 16 * 16 + c as int % 16 == c as int <= 0x7f
  {
    HexDigitReads(c as int / 16);
    HexDigitReads(c as int % 16);
  }

  lemma HexDigitReads(n: nat)
    requires n < 16
    ensures HexValue(HexDigit(n)) == Some(n)
  {
    if n < 10 { assert HexDigit(n) as int == '0' as int + n; }
    else { assert HexDigit(n) as int == 'a' as int + n - 10; }
  }

  lemma EscapedCharReads(c: char, rest: string, pos: Pos, open: Pos)
    ensures var e := EscapeChar(c);
            StrChar(Cursor(e + rest, pos), open) == Ok((Some(c), Cursor(rest, Right(pos, |e|))))
  {
    hide IsBareChar;
    var e := EscapeChar(c);
    var cur := Cursor(e + rest, pos);
    assert cur.Bump().rest == e[1..] + rest;
    if |e| == 1 {
      assert e[1..] + rest == rest;
    } else if |e| == 2 {
      assert cur.Bump().Bump().rest == rest;
    } else {
      assert cur.Bump().rest == ['x', e[2], e[3]] + rest;
      HexEscapeReads(c, rest, Right(pos, 1), pos);
    }
  }

  lemma HexEscapeReads(c: char, rest: string, pos: Pos, backslash: Pos)
    requires NeedsHex(c)
    ensures Escape(Cursor(['x', HexDigit(c as int / 16), HexDigit(c as int % 16)] + rest, pos), backslash)
         == Ok((c, Cursor(rest, Right(pos, 3))))
  {
    hide HexValue, HexDigit;
    HexReads(c);
    var high, low := HexDigit(c as int / 16), HexDigit(c as int % 16);
    HexDigitPlain(c as int / 16);
    HexDigitPlain(c as int % 16);
    var cur := Cursor(['x', high, low] + rest, pos);
    assert cur.Bump().rest == [high, low] + rest;
    assert cur.Bump().Bump().rest == [low] + rest;
    assert cur.Bump().Bump().Bump().rest == rest;
  }

  lemma HexDigitPlain(n: nat)
    requires n < 16
    ensures HexDigit(n) != '\n'
  {
  }

  lemma StrNil(rest: string, pos: Pos, open: Pos)
    ensures Str(Cursor("\"" + rest, pos), open) == Ok(("", Cursor(rest, Right(pos, 1))))
  {
    assert ("\"" + rest)[1..] == rest;
  }

  lemma StrCons(cur: Cursor, c: char, after: Cursor, s: string, end: Cursor, open: Pos)
    requires StrChar(cur, open) == Ok((Some(c), after))
    requires Str(after, open) == Ok((s, end))
    ensures Str(cur, open) == Ok(([c] + s, end))
  {
  }

  lemma EscapeAllIs(s: string)
    requires s != []
    ensures EscapeAll(s) == EscapeChar(s[0]) + EscapeAll(s[1..])
  {
    hide EscapeChar;
  }

  lemma EscapeAllCons(s: string, rest: string)
    requires s != []
    ensures EscapeAll(s) + rest == EscapeChar(s[0]) + (EscapeAll(s[1..]) + rest)
    ensures |EscapeAll(s)| == |EscapeChar(s[0])| + |EscapeAll(s[1..])|
  {
    hide EscapeChar, EscapeAll;
    EscapeAllIs(s);
  }

  lemma {:induction false} StrReads(s: string, rest: string, pos: Pos, open: Pos)
    ensures Str(Cursor(EscapeAll(s) + ("\"" + rest), pos), open)
         == Ok((s, Cursor(rest, Right(pos, |EscapeAll(s)| + 1))))
  {
    hide EscapeChar, StrChar, Str;
    var cur := Cursor(EscapeAll(s) + ("\"" + rest), pos);
    if s == [] {
      assert cur.rest == "\"" + rest;
      StrNil(rest, pos, open);
    } else {
      var e := EscapeChar(s[0]);
      var after := Cursor(EscapeAll(s[1..]) + ("\"" + rest), Right(pos, |e|));
      EscapeAllCons(s, "\"" + rest);
      EscapedCharReads(s[0], after.rest, pos, open);
      StrReads(s[1..], rest, after.pos, open);
      var end := Cursor(rest, Right(pos, |EscapeAll(s)| + 1));
      assert end.pos == Right(after.pos, |EscapeAll(s[1..])| + 1);
      StrCons(cur, s[0], after, s[1..], end, open);
      assert [s[0]] + s[1..] == s;
      assert Str(cur, open) == Ok((s, end));
    }
  }

  lemma BareReads(v: string, rest: string, pos: Pos)
    requires IsBare(v) && EndsWord(rest)
    ensures NextToken(Cursor(v + rest, pos)) == Ok(Some((Spanned(Value(v), pos), Cursor(rest, Right(pos, |v|)))))
  {
    var cur := Cursor(v + rest, pos);
    assert cur.rest[0] == v[0] && IsBareChar(v[0]);
    assert |v| > 1 ==> cur.rest[1] == v[1] && IsBareChar(v[1]);
    assert !cur.At(1, '*');
    WordReads(v, rest, pos);
  }

  lemma QuotedReads(body: string, v: string, after: Cursor, pos: Pos)
    requires Str(Cursor(body, Right(pos, 1)), pos) == Ok((v, after))
    ensures NextToken(Cursor("\"" + body, pos)) == Ok(Some((Spanned(Value(v), pos), after)))
  {
    var cur := Cursor("\"" + body, pos);
    assert cur.rest[1..] == body;
    assert SkipWhitespace(cur) == cur;
  }

  /** For every value, the text `Quote` gives is read as exactly that value. */
  lemma QuoteReads(v: string, rest: string, pos: Pos)
    requires EndsWord(rest)
    ensures NextToken(Cursor(Quote(v) + rest, pos))
         == Ok(Some((Spanned(Value(v), pos), Cursor(rest, Right(pos, |Quote(v)|)))))
  {
    hide NextToken, Str, EscapeAll, IsBare;
    if IsBare(v) {
      BareReads(v, rest, pos);
    } else {
      var body := EscapeAll(v) + ("\"" + rest);
      assert Quote(v) + rest == "\"" + body;
      StrReads(v, rest, Right(pos, 1), pos);
      QuotedReads(body, v, Cursor(rest, Right(pos, |Quote(v)|)), pos);
    }
  }

  // ----- runs of words ---------------------------------------------------

  /** Words on one line, quoted where they need it, one space between. */
  function WordsText(words: seq<string>): string {
    if words == [] then ""
    else if |words| == 1 then Quote(words[0])
    else Quote(words[0]) + " " + WordsText(words[1..])
  }

  function WordTokens(words: seq<string>, pos: Pos): seq<Spanned> {
    if words == [] then []
    else [Spanned(Value(words[0]), pos)] + WordTokens(words[1..], Right(pos, |Quote(words[0])| + 1))
  }

  lemma SkipOne(c: char, rest: string, pos: Pos)
    requires IsWhitespace(c)
    ensures Tokens(Cursor([c] + rest, pos)) == Tokens(Cursor(rest, pos.After(c)))
  {
    var cur := Cursor([c] + rest, pos);
    assert cur.rest[1..] == rest;
    assert SkipWhitespace(cur) == SkipWhitespace(cur.Bump());
  }

  lemma TokenRead(v: string, rest: string, pos: Pos)
    requires EndsWord(rest)
    ensures Tokens(Cursor(Quote(v) + rest, pos))
         == More(Spanned(Value(v), pos), Tokens(Cursor(rest, Right(pos, |Quote(v)|))))
  {
    QuoteReads(v, rest, pos);
  }

  lemma TokenReadSpace(v: string, tail: string, pos: Pos)
    ensures Tokens(Cursor(Quote(v) + ([' '] + tail), pos))
         == More(Spanned(Value(v), pos), Tokens(Cursor(tail, Right(pos, |Quote(v)| + 1))))
  {
    hide NextToken, Tokens, Quote;
    TokenRead(v, [' '] + tail, pos);
    SkipOne(' ', tail, Right(pos, |Quote(v)|));
  }

  lemma {:induction false} WordsRead(words: seq<string>, rest: string, pos: Pos)
    requires EndsWord(rest)
    ensures Tokens(Cursor(WordsText(words) + rest, pos))
         == Prepend(WordTokens(words, pos), Tokens(Cursor(rest, Right(pos, |WordsText(words)|))))
  {
    hide NextToken, Tokens, Quote;
    if words == [] {
      assert WordsText(words) + rest == rest;
    } else {
      var q := Quote(words[0]);
      if |words| == 1 {
        TokenRead(words[0], rest, pos);
        assert WordTokens(words, pos) == [Spanned(Value(words[0]), pos)];
      } else {
        var tail := WordsText(words[1..]) + rest;
        assert WordsText(words) + rest == q + ([' '] + tail);
        TokenReadSpace(words[0], tail, pos);
        WordsRead(words[1..], rest, Right(pos, |q| + 1));
        assert Right(Right(pos, |q| + 1), |WordsText(words[1..])|) == Right(pos, |WordsText(words)|);
        assert WordTokens(words, pos)[1..] == WordTokens(words[1..], Right(pos, |q| + 1));
      }
    }
  }
}
