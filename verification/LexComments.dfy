/** Block comments are interchangeable with runs of `#` lines; values are quoted only where
    they must be; and the texts the tokeniser refuses. */
module LexComments {
  import opened Wrappers
  import opened Text
  import opened Lex
  import opened LexRoundTrip

  // ----- block comments --------------------------------------------------

  predicate NoStarSlash(s: string) {
    forall i :: 0 <= i < |s| - 1 ==> !(s[i] == '*' && s[i + 1] == '/')
  }

  /** A line of a comment as it is kept: on one line, with no outer whitespace. */
  predicate Trimmed(line: string) {
    && '\n' !in line && NoStarSlash(line)
    && (line != "" ==> !IsWhitespace(line[0]) && !IsWhitespace(line[|line| - 1]))
  }

  /** The lines with a star before each, as a block comment is usually written. */
  function Starred(lines: seq<string>): string {
    if lines == [] then "" else " * " + lines[0] + "\n" + Starred(lines[1..])
  }

  function BlockComment(lines: seq<string>): string {
    "/*\n" + Starred(lines) + " */"
  }

  lemma TrimKept(line: string)
    requires Trimmed(line)
    ensures Trim(" * " + line) == "*" + (if line == "" then "" else " " + line)
  {
    var s := " * " + line;
    assert s[1..] == "* " + line;
    assert TrimStart(s) == "* " + line;
    if line == "" {
      assert ("* " + line)[..1] == "*";
      assert TrimEnd("*") == "*";
      assert TrimEnd("* ") == TrimEnd("* "[..1]);
    } else {
      assert ("* " + line)[|line| + 1] == line[|line| - 1];
    }
  }

  lemma LineKept(line: string)
    requires Trimmed(line)
    ensures TrimStart(TrimStartMatches(Trim(" * " + line), '*')) == line
  {
    TrimKept(line);
    if line != "" {
      var t := "*" + (" " + line);
      assert t[1..] == " " + line;
      assert TrimStartMatches(t, '*') == TrimStartMatches(" " + line, '*') == " " + line;
      assert (" " + line)[1..] == line;
      assert TrimStart(" " + line) == TrimStart(line) == line;
    } else {
      assert "*"[1..] == "";
    }
  }

  lemma StarredLine(line: string, rest: string)
    requires Trimmed(line)
    ensures Lines((" * " + line) + ("\n" + rest)) == [" * " + line] + Lines(rest)
  {
    hide Lines;
    var l := " * " + line;
    assert l[|l| - 1] != '\r' by { if line != "" { assert l[|l| - 1] == line[|line| - 1]; } }
    LineThen(l, rest);
  }

  lemma {:induction false} StarredKept(lines: seq<string>)
    requires forall i :: 0 <= i < |lines| ==> Trimmed(lines[i])
    ensures TrimCommentLines(Lines(Starred(lines) + " ")) == lines + [""]
  {
    hide Trimmed, Trim, TrimStart, TrimStartMatches, Lines;
    if lines == [] {
      assert Starred(lines) + " " == " ";
      LastLine();
    } else {
      var rest := Starred(lines[1..]) + " ";
      assert Starred(lines) + " " == (" * " + lines[0]) + ("\n" + rest);
      StarredLine(lines[0], rest);
      LineKept(lines[0]);
      StarredKept(lines[1..]);
      assert ([" * " + lines[0]] + Lines(rest))[1..] == Lines(rest);
      assert lines + [""] == [lines[0]] + (lines[1..] + [""]);
    }
  }

  lemma LastLine()
    ensures TrimCommentLines(Lines(" ")) == [""]
  {
    assert IndexOf(" ", '\n') == 1;
    assert " "[1..] == "" && TrimStart(" ") == TrimStart("");
    assert [" "][1..] == [];
    assert TrimCommentLines([" "]) == [TrimStart(TrimStartMatches(Trim(" "), '*'))];
  }

  lemma {:induction false} JoinLast(lines: seq<string>)
    requires lines != []
    ensures Join(lines + [""], "\n") == Join(lines, "\n") + "\n"
  {
    if |lines| == 1 {
      assert (lines + [""])[1..] == [""];
      assert Join([""], "\n") == "";
    } else {
      assert (lines + [""])[1..] == lines[1..] + [""];
      JoinLast(lines[1..]);
    }
  }

  lemma {:induction false} JoinEnds(lines: seq<string>)
    requires lines != [] && lines[0] != "" && lines[|lines| - 1] != ""
    requires forall i :: 0 <= i < |lines| ==> '\n' !in lines[i]
    ensures var s := Join(lines, "\n"); s != "" && s[0] == lines[0][0] && s[0] != '\n' && s[|s| - 1] != '\n'
  {
    JoinEnd(lines);
    assert lines[0][0] in lines[0];
  }

  lemma {:induction false} JoinEnd(lines: seq<string>)
    requires lines != [] && lines[|lines| - 1] != ""
    requires forall i :: 0 <= i < |lines| ==> '\n' !in lines[i]
    ensures var s := Join(lines, "\n"); s != "" && s[|s| - 1] != '\n'
  {
    var last := lines[|lines| - 1];
    assert last[|last| - 1] in last;
    if |lines| > 1 { JoinEnd(lines[1..]); }
  }

  lemma RawLines(lines: seq<string>)
    requires forall i :: 0 <= i < |lines| ==> Trimmed(lines[i])
    ensures TrimCommentLines(Lines("\n" + Starred(lines) + " ")) == [""] + (lines + [""])
  {
    hide Trim, TrimStart, TrimStartMatches, Starred, Trimmed, Lines, TrimCommentLines;
    var more := Starred(lines) + " ";
    assert "\n" + Starred(lines) + " " == "" + ("\n" + more);
    LineThen("", more);
    StarredKept(lines);
    KeptCons("", Lines(more));
    EmptyLineKept();
  }

  lemma KeptCons(line: string, rest: seq<string>)
    ensures TrimCommentLines([line] + rest) == [TrimStart(TrimStartMatches(Trim(line), '*'))] + TrimCommentLines(rest)
  {
    hide Trim, TrimStart, TrimStartMatches;
    assert ([line] + rest)[1..] == rest;
  }

  /** What is left of a comment in the usual shape is its lines. */
  lemma NormaliseKeeps(lines: seq<string>)
    requires lines != [] && lines[0] != "" && lines[|lines| - 1] != ""
    requires forall i :: 0 <= i < |lines| ==> Trimmed(lines[i])
    ensures Normalise("\n" + Starred(lines) + " ") == Join(lines, "\n")
  {
    hide TrimStartMatches, TrimEndMatches, Starred, Join, Lines, TrimCommentLines, Trim, IsWhitespace, NoStarSlash;
    RawLines(lines);
    JoinFirst(lines + [""]);
    JoinLast(lines);
    JoinEnds(lines);
    StripNewlines(Join(lines, "\n"));
  }

  lemma EmptyLineKept()
    ensures TrimStart(TrimStartMatches(Trim(""), '*')) == ""
  {
  }

  lemma JoinFirst(lines: seq<string>)
    requires lines != []
    ensures Join([""] + lines, "\n") == "\n" + Join(lines, "\n")
  {
    assert ([""] + lines)[1..] == lines;
  }

  lemma StripNewlines(s: string)
    requires s != "" && s[0] != '\n' && s[|s| - 1] != '\n'
    ensures TrimEndMatches(TrimStartMatches("\n" + (s + "\n"), '\n'), '\n') == s
  {
    var t := s + "\n";
    assert ("\n" + t)[1..] == t;
    assert TrimStartMatches("\n" + t, '\n') == TrimStartMatches(t, '\n') == t;
    assert t[..|t| - 1] == s;
    assert TrimEndMatches(t, '\n') == TrimEndMatches(s, '\n') == s;
  }

  // ----- reading one -----------------------------------------------------

  function PosAfter(s: string, pos: Pos): Pos {
    if s == [] then pos else PosAfter(s[1..], pos.After(s[0]))
  }

  lemma {:induction false} UntilStarSlashReads(raw: string, rest: string, pos: Pos, open: Pos)
    requires NoStarSlash(raw) && (raw != "" ==> raw[|raw| - 1] != '*')
    ensures UntilStarSlash(Cursor(raw + ("*/" + rest), pos), open)
         == Ok((raw, Cursor(rest, PosAfter(raw, pos).After('*').After('/'))))
    decreases |raw|
  {
    var cur := Cursor(raw + ("*/" + rest), pos);
    if raw == [] {
      assert cur.rest == "*/" + rest;
      assert cur.Bump().Bump().rest == rest;
    } else {
      assert cur.rest[0] == raw[0];
      assert |raw| > 1 ==> cur.rest[1] == raw[1];
      assert cur.Bump().rest == raw[1..] + ("*/" + rest);
      forall i | 0 <= i < |raw[1..]| - 1 ensures !(raw[1..][i] == '*' && raw[1..][i + 1] == '/') {
        assert !(raw[i + 1] == '*' && raw[i + 2] == '/');
      }
      if |raw| > 1 { assert raw[1..][|raw| - 2] == raw[|raw| - 1]; }
      UntilStarSlashReads(raw[1..], rest, pos.After(raw[0]), open);
      assert raw == [raw[0]] + raw[1..];
    }
  }

  lemma {:induction false} StarredSound(lines: seq<string>)
    requires forall i :: 0 <= i < |lines| ==> Trimmed(lines[i])
    ensures NoStarSlash(Starred(lines) + " ") && (Starred(lines) + " ")[0] == ' '
  {
    if lines == [] {
      assert Starred(lines) + " " == " ";
    } else {
      StarredSound(lines[1..]);
      var first, rest := " * " + lines[0] + "\n", Starred(lines[1..]) + " ";
      assert Starred(lines) + " " == first + rest;
      assert NoStarSlash(first) by {
        forall i | 0 <= i < |first| - 1 ensures !(first[i] == '*' && first[i + 1] == '/') {
          if 3 <= i < |first| - 2 { assert first[i] == lines[0][i - 3] && first[i + 1] == lines[0][i - 2]; }
        }
      }
      NoStarSlashConcat(first, rest);
    }
  }

  lemma NoStarSlashConcat(a: string, b: string)
    requires NoStarSlash(a) && NoStarSlash(b) && (a != "" ==> a[|a| - 1] != '*')
    ensures NoStarSlash(a + b)
  {
    var s := a + b;
    forall i | 0 <= i < |s| - 1 ensures !(s[i] == '*' && s[i + 1] == '/') {
      if i + 1 < |a| { assert s[i] == a[i] && s[i + 1] == a[i + 1]; }
      else if i >= |a| { assert s[i] == b[i - |a|] && s[i + 1] == b[i + 1 - |a|]; }
    }
  }

  lemma CommentToken(tail: string, raw: string, after: Cursor, pos: Pos)
    requires UntilStarSlash(Cursor(tail, Right(pos, 2)), pos) == Ok((raw, after))
    ensures NextToken(Cursor("/*" + tail, pos)) == Ok(Some((Spanned(Comment(Normalise(raw)), pos), after)))
  {
    hide Normalise, UntilStarSlash, Str, Word, UntilNewline;
    var cur := Cursor("/*" + tail, pos);
    assert cur.rest[1..][1..] == tail;
    assert SkipWhitespace(cur) == cur;
    assert cur.At(0, '/') && cur.At(1, '*');
    assert cur.Bump().Bump() == Cursor(tail, Right(pos, 2));
  }

  /** Whatever is between the delimiters, normalised, is the comment. */
  lemma CommentReads(raw: string, rest: string, pos: Pos)
    requires NoStarSlash(raw) && (raw != "" ==> raw[|raw| - 1] != '*')
    ensures NextToken(Cursor("/*" + (raw + ("*/" + rest)), pos)) ==
            Ok(Some((Spanned(Comment(Normalise(raw)), pos), Cursor(rest, PosAfter(raw, Right(pos, 2)).After('*').After('/')))))
  {
    hide Normalise, UntilStarSlash, NoStarSlash, NextToken;
    UntilStarSlashReads(raw, rest, Right(pos, 2), pos);
    CommentToken(raw + ("*/" + rest), raw, Cursor(rest, PosAfter(raw, Right(pos, 2)).After('*').After('/')), pos);
  }

  lemma Shape(s: string, rest: string)
    ensures ("/*\n" + s + " */") + rest == "/*" + (("\n" + s + " ") + ("*/" + rest))
  {
    assert "/*\n" == "/*" + "\n" && " */" == " " + "*/";
  }

  /** A block comment in the usual shape is one comment, of the text a run of `#` lines
      with the same lines would have made. */
  lemma BlockCommentReads(lines: seq<string>, rest: string, pos: Pos)
    requires lines != [] && lines[0] != "" && lines[|lines| - 1] != ""
    requires forall i :: 0 <= i < |lines| ==> Trimmed(lines[i])
    ensures var raw := "\n" + Starred(lines) + " ";
            NextToken(Cursor(BlockComment(lines) + rest, pos)) ==
            Ok(Some((Spanned(Comment(Join(lines, "\n")), pos), Cursor(rest, PosAfter(raw, Right(pos, 2)).After('*').After('/')))))
  {
    hide Trimmed, Normalise, Starred, Join, NextToken, NoStarSlash, PosAfter, IsWhitespace;
    var raw := "\n" + Starred(lines) + " ";
    StarredSound(lines);
    assert raw == "\n" + (Starred(lines) + " ");
    OneCharSound();
    NoStarSlashConcat("\n", Starred(lines) + " ");
    Shape(Starred(lines), rest);
    CommentReads(raw, rest, pos);
    NormaliseKeeps(lines);
  }

  lemma OneCharSound()
    ensures NoStarSlash("\n")
  {
  }

  // ----- quoting ---------------------------------------------------------

  /** Whether a value written as it is, with no quotes, would read as itself. */
  predicate ReadsBare(v: string) {
    match NextToken(Cursor(v + " ", Pos(1, 1)))
    case Ok(Some((token, _))) => token.token == Value(v)
    case _ => false
  }

  lemma {:induction false} StrIsShorter(cur: Cursor, open: Pos)
    ensures Str(cur, open).Ok? ==> |Str(cur, open).value.0| + 1 + |Str(cur, open).value.1.rest| <= |cur.rest|
    decreases |cur.rest|
  {
    hide StrChar;
    match StrChar(cur, open)
    case Ok((Some(_), after)) => StrIsShorter(after, open);
    case _ =>
  }

  lemma {:induction false} WordIsBare(cur: Cursor)
    ensures forall i :: 0 <= i < |Word(cur).0| ==> IsBareChar(Word(cur).0[i])
    decreases |cur.rest|
  {
    hide IsBareChar;
    if cur.rest != [] && IsBareChar(cur.rest[0]) { WordIsBare(cur.Bump()); }
  }

  /** A value is quoted exactly when it has to be. */
  lemma QuotedIfNeeded(v: string)
    ensures Quote(v) == v <==> ReadsBare(v)
  {
    if Quote(v) == v { QuoteReads(v, " ", Pos(1, 1)); }
    if ReadsBare(v) { BareIfRead(v); }
  }

  lemma BareIfRead(v: string)
    requires ReadsBare(v)
    ensures IsBare(v)
  {
    hide Str, Word, IsBareChar, Normalise, UntilStarSlash, UntilNewline;
    var cur := SkipWhitespace(Cursor(v + " ", Pos(1, 1)));
    if cur.rest[0] == '"' {
      StrIsShorter(cur.Bump(), cur.pos);
      assert false;
    } else {
      WordIsBare(cur);
      WordStarts(cur);
    }
  }

  lemma WordStarts(cur: Cursor)
    requires cur.rest != [] && IsBareChar(cur.rest[0])
    ensures Word(cur).0 != ""
  {
  }

  // ----- refused texts ---------------------------------------------------

  /** A value or a comment that is not closed is refused where it was opened. */
  lemma {:induction false} NeverClosed(s: string, cur: Cursor, open: Pos)
    requires cur.rest == EscapeAll(s)
    ensures Str(cur, open) == Err(UnterminatedString(open))
    decreases |s|
  {
    hide EscapeChar, StrChar, Str;
    if s == [] {
      NothingRead(cur, open);
    } else {
      var e := EscapeChar(s[0]);
      EscapeAllCons(s, "");
      assert cur.rest == e + EscapeAll(s[1..]) by { assert EscapeAll(s) + "" == EscapeAll(s) && EscapeAll(s[1..]) + "" == EscapeAll(s[1..]); }
      EscapedCharReads(s[0], EscapeAll(s[1..]), cur.pos, open);
      var after := Cursor(EscapeAll(s[1..]), Right(cur.pos, |e|));
      NeverClosed(s[1..], after, open);
      StrFails(cur, s[0], after, open);
    }
  }

  lemma NothingRead(cur: Cursor, open: Pos)
    requires cur.rest == ""
    ensures Str(cur, open) == Err(UnterminatedString(open))
  {
  }

  lemma StrFails(cur: Cursor, c: char, after: Cursor, open: Pos)
    requires StrChar(cur, open) == Ok((Some(c), after)) && Str(after, open).Err?
    ensures Str(cur, open) == Str(after, open)
  {
  }

  lemma UnclosedString(s: string, pos: Pos)
    ensures NextToken(Cursor("\"" + EscapeAll(s), pos)) == Err(UnterminatedString(pos))
  {
    hide Str, EscapeAll;
    var cur := Cursor("\"" + EscapeAll(s), pos);
    assert cur.Bump().rest == EscapeAll(s);
    NeverClosed(s, cur.Bump(), pos);
  }

  lemma {:induction false} NeverStarSlash(raw: string, cur: Cursor, open: Pos)
    requires NoStarSlash(raw) && cur.rest == raw
    ensures UntilStarSlash(cur, open) == Err(UnterminatedComment(open))
    decreases |raw|
  {
    if raw != [] {
      forall i | 0 <= i < |raw[1..]| - 1 ensures !(raw[1..][i] == '*' && raw[1..][i + 1] == '/') {
        assert !(raw[i + 1] == '*' && raw[i + 2] == '/');
      }
      NeverStarSlash(raw[1..], cur.Bump(), open);
    }
  }

  lemma UnclosedComment(raw: string, pos: Pos)
    requires NoStarSlash(raw)
    ensures NextToken(Cursor("/*" + raw, pos)) == Err(UnterminatedComment(pos))
  {
    hide UntilStarSlash, Normalise;
    var cur := Cursor("/*" + raw, pos);
    assert cur.Bump().Bump().rest == raw;
    NeverStarSlash(raw, cur.Bump().Bump(), pos);
  }

  /** A character that begins no token is refused where it is. */
  lemma UnexpectedReads(c: char, rest: string, pos: Pos)
    requires !IsWhitespace(c) && !IsBareChar(c) && c !in {'{', '}', '#', '"'}
    ensures NextToken(Cursor([c] + rest, pos)) == Err(UnexpectedChar(pos, c))
  {
    hide Normalise, IsBareChar;
    assert c != '/' by { SlashIsBare(); }
  }

  lemma SlashIsBare()
    ensures IsBareChar('/')
  {
  }

  /** An escape is one of five letters, or `x` and two hexadecimal digits of either case
      for a character up to 7f; anything else is refused at its backslash. */
  lemma EscapesAre(c: char, rest: string, pos: Pos, backslash: Pos)
    ensures var r := Escape(Cursor([c] + rest, pos), backslash);
            && (c == '\\' ==> r.Ok? && r.value.0 == '\\') && (c == '"' ==> r.Ok? && r.value.0 == '"')
            && (c == 'n' ==> r.Ok? && r.value.0 == '\n') && (c == 't' ==> r.Ok? && r.value.0 == '\t')
            && (c == 'r' ==> r.Ok? && r.value.0 == '\r')
            && (c !in {'\\', '"', 'n', 't', 'r', 'x'} ==> r == Err(UnknownEscape(backslash, c)))
  {
    hide HexValue;
    assert ([c] + rest)[0] == c;
  }

  lemma HexEscapesAre(high: char, low: char, rest: string, pos: Pos, backslash: Pos)
    ensures var r := Escape(Cursor(['x', high, low] + rest, pos), backslash);
            if HexValue(high).Some? && HexValue(low).Some? && HexValue(high).value * 16 + HexValue(low).value <= 0x7f then
              r.Ok? && r.value.0 as int == HexValue(high).value * 16 + HexValue(low).value && r.value.1.rest == rest
            else r == Err(BadHexEscape(backslash))
  {
    hide HexValue;
    var cur := Cursor(['x', high, low] + rest, pos);
    assert cur.Bump().rest == [high, low] + rest;
    assert cur.Bump().Bump().rest == [low] + rest;
    assert cur.Bump().Bump().Bump().rest == rest;
  }

  /** Digits of the other case read alike. */
  lemma UpperHexReads(n: nat)
    requires n < 16
    ensures HexValue("0123456789ABCDEF"[n]) == Some(n)
  {
    if n < 10 { assert "0123456789ABCDEF"[n] as int == '0' as int + n; }
    else { assert "0123456789ABCDEF"[n] as int == 'A' as int + n - 10; }
  }
}
