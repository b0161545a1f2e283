/** The lexer layer of the round trip: a rendered document, read back, is the
    tokens of its lines, each on the line number it was written on. */
module CurlyLines {
  import opened Wrappers
  import opened Text
  import opened Lex
  import opened LexRoundTrip
  import opened Curly

  function BesideTokens(beside: Option<string>, pos: Pos): seq<Spanned> {
    if beside.Some? then [Spanned(Comment(beside.value), pos)] else []
  }

  function LineTokens(l: Line, n: nat): seq<Spanned> {
    var pos := Pos(n, 4 * l.depth + 1);
    match l
    case Note(_, text) => [Spanned(Comment(text), pos)]
    case Setting(_, words, beside) => WordTokens(words, pos) + BesideTokens(beside, Right(pos, |WordsText(words)| + 1))
    case Header(_, words) => WordTokens(words, pos) + [Spanned(Open, Right(pos, |WordsText(words)| + 1))]
    case Footer(_) => [Spanned(Close, pos)]
  }

  /** The tokens of `lines`, the first of them on line `n`, followed by `k`. */
  function LineStream(lines: seq<Line>, n: nat, k: Stream): Stream {
    if lines == [] then k else Prepend(LineTokens(lines[0], n), LineStream(lines[1..], n + 1, k))
  }

  predicate OneLine(l: Line) {
    (l.Note? ==> '\n' !in l.text) && (l.Setting? && l.beside.Some? ==> '\n' !in l.beside.value)
  }

  lemma PrependConcat(a: seq<Spanned>, b: seq<Spanned>, k: Stream)
    ensures Prepend(a + b, k) == Prepend(a, Prepend(b, k))
  {
    if a == [] {
      assert a + b == b;
    } else {
      assert (a + b)[1..] == a[1..] + b;
    }
  }

  lemma {:induction false} IndentSkips(depth: nat, rest: string, pos: Pos)
    ensures Tokens(Cursor(Indent(depth) + rest, pos)) == Tokens(Cursor(rest, Right(pos, 4 * depth)))
  {
    hide Tokens;
    if depth == 0 {
      assert Indent(depth) + rest == rest;
    } else {
      var tail := Indent(depth - 1) + rest;
      assert Indent(depth) + rest == [' '] + ([' '] + ([' '] + ([' '] + tail)));
      SkipOne(' ', [' '] + ([' '] + ([' '] + tail)), pos);
      SkipOne(' ', [' '] + ([' '] + tail), Right(pos, 1));
      SkipOne(' ', [' '] + tail, Right(pos, 2));
      SkipOne(' ', tail, Right(pos, 3));
      IndentSkips(depth - 1, rest, Right(pos, 4));
    }
  }

  lemma {:induction false} UntilNewlineReads(s: string, rest: string, pos: Pos)
    requires '\n' !in s
    ensures UntilNewline(Cursor(s + ("\n" + rest), pos)) == (s, Cursor("\n" + rest, Right(pos, |s|)))
  {
    if s == [] {
      assert s + ("\n" + rest) == "\n" + rest;
    } else {
      assert (s + ("\n" + rest))[1..] == s[1..] + ("\n" + rest);
      UntilNewlineReads(s[1..], rest, Right(pos, 1));
      assert s == [s[0]] + s[1..];
    }
  }

  lemma HashReads(s: string, rest: string, pos: Pos)
    requires '\n' !in s
    ensures NextToken(Cursor("#" + (s + ("\n" + rest)), pos))
         == Ok(Some((Spanned(Comment(StripOneSpace(s)), pos), Cursor("\n" + rest, Right(pos, |s| + 1)))))
  {
    hide Str, Word, UntilStarSlash, Normalise, UntilNewline;
    var cur := Cursor("#" + (s + ("\n" + rest)), pos);
    assert cur.Bump().rest == s + ("\n" + rest);
    UntilNewlineReads(s, rest, Right(pos, 1));
  }

  lemma BraceReads(c: char, rest: string, pos: Pos)
    requires c == '{' || c == '}'
    ensures Tokens(Cursor([c] + rest, pos))
         == More(Spanned(if c == '{' then Open else Close, pos), Tokens(Cursor(rest, Right(pos, 1))))
  {
    hide Str, Word, UntilStarSlash, Normalise, UntilNewline;
    assert ([c] + rest)[1..] == rest;
  }

  lemma NoteReads(text: string, rest: string, pos: Pos)
    requires '\n' !in text
    ensures Tokens(Cursor(NoteText(text) + ("\n" + rest), pos))
         == More(Spanned(Comment(text), pos), Tokens(Cursor(rest, Pos(pos.line + 1, 1))))
  {
    hide NextToken;
    var body := if text == "" then "" else " " + text;
    assert NoteText(text) + ("\n" + rest) == "#" + (body + ("\n" + rest));
    HashReads(body, rest, pos);
    assert StripOneSpace(body) == text;
    SkipOne('\n', rest, Right(pos, |body| + 1));
  }

  lemma HeaderReads(words: seq<string>, rest: string, pos: Pos)
    ensures Tokens(Cursor(WordsText(words) + (" {" + ("\n" + rest)), pos))
         == Prepend(WordTokens(words, pos) + [Spanned(Open, Right(pos, |WordsText(words)| + 1))],
                    Tokens(Cursor(rest, Pos(pos.line + 1, 1))))
  {
    hide Tokens, WordTokens, WordsText;
    var w := |WordsText(words)|;
    var open := Spanned(Open, Right(pos, w + 1));
    var k := Tokens(Cursor(rest, Pos(pos.line + 1, 1)));
    WordsRead(words, " {" + ("\n" + rest), pos);
    assert " {" + ("\n" + rest) == [' '] + (['{'] + (['\n'] + rest));
    SkipOne(' ', ['{'] + (['\n'] + rest), Right(pos, w));
    BraceReads('{', ['\n'] + rest, Right(pos, w + 1));
    SkipOne('\n', rest, Right(pos, w + 2));
    PrependConcat(WordTokens(words, pos), [open], k);
    assert Prepend([open], k) == More(open, k);
  }

  lemma SettingReads(words: seq<string>, beside: Option<string>, rest: string, pos: Pos)
    requires beside.Some? ==> '\n' !in beside.value
    ensures Tokens(Cursor(WordsText(words) + (BesideText(beside) + ("\n" + rest)), pos))
         == Prepend(WordTokens(words, pos) + BesideTokens(beside, Right(pos, |WordsText(words)| + 1)), Tokens(Cursor(rest, Pos(pos.line + 1, 1))))
  {
    hide Tokens, WordTokens, WordsText, NoteText;
    var w := |WordsText(words)|;
    var k := Tokens(Cursor(rest, Pos(pos.line + 1, 1)));
    WordsRead(words, BesideText(beside) + ("\n" + rest), pos);
    if beside.Some? {
      assert BesideText(beside) + ("\n" + rest) == [' '] + (NoteText(beside.value) + ("\n" + rest));
      SkipOne(' ', NoteText(beside.value) + ("\n" + rest), Right(pos, w));
      NoteReads(beside.value, rest, Right(pos, w + 1));
      var note := Spanned(Comment(beside.value), Right(pos, w + 1));
      PrependConcat(WordTokens(words, pos), [note], k);
      assert Prepend([note], k) == More(note, k);
    } else {
      assert BesideText(beside) + ("\n" + rest) == ['\n'] + rest;
      SkipOne('\n', rest, Right(pos, w));
      assert WordTokens(words, pos) + [] == WordTokens(words, pos);
    }
  }

  lemma LineReads(l: Line, rest: string, n: nat)
    requires OneLine(l)
    ensures Tokens(Cursor(LineText(l) + rest, Pos(n, 1)))
         == Prepend(LineTokens(l, n), Tokens(Cursor(rest, Pos(n + 1, 1))))
  {
    hide Tokens, WordTokens, WordsText, Indent, NoteText, BesideText;
    var pos := Pos(n, 4 * l.depth + 1);
    match l {
      case Note(d, text) =>
        assert LineText(l) + rest == Indent(d) + (NoteText(text) + ("\n" + rest));
        IndentSkips(d, NoteText(text) + ("\n" + rest), Pos(n, 1));
        NoteReads(text, rest, pos);
      case Setting(d, words, beside) =>
        assert LineText(l) + rest == Indent(d) + (WordsText(words) + (BesideText(beside) + ("\n" + rest)));
        IndentSkips(d, WordsText(words) + (BesideText(beside) + ("\n" + rest)), Pos(n, 1));
        SettingReads(words, beside, rest, pos);
      case Header(d, words) =>
        assert LineText(l) + rest == Indent(d) + (WordsText(words) + (" {" + ("\n" + rest)));
        IndentSkips(d, WordsText(words) + (" {" + ("\n" + rest)), Pos(n, 1));
        HeaderReads(words, rest, pos);
      case Footer(d) =>
        assert LineText(l) + rest == Indent(d) + (['}'] + (['\n'] + rest));
        IndentSkips(d, ['}'] + (['\n'] + rest), Pos(n, 1));
        BraceReads('}', ['\n'] + rest, pos);
        SkipOne('\n', rest, Right(pos, 1));
    }
  }

  /** Reading rendered lines gives their tokens, with the line numbers they sit on. */
  lemma {:induction false} LinesRead(lines: seq<Line>, n: nat)
    requires forall i :: 0 <= i < |lines| ==> OneLine(lines[i])
    ensures Tokens(Cursor(LinesText(lines), Pos(n, 1))) == LineStream(lines, n, End)
  {
    hide LineText, LineTokens, NextToken;
    if lines != [] {
      LineReads(lines[0], LinesText(lines[1..]), n);
      LinesRead(lines[1..], n + 1);
    } else {
      NothingReads(Pos(n, 1));
    }
  }

  lemma NothingReads(pos: Pos)
    ensures Tokens(Cursor("", pos)) == End
  {
  }

  // ----- streams of lines ------------------------------------------------

  lemma {:induction false} LineStreamConcat(a: seq<Line>, b: seq<Line>, n: nat, k: Stream)
    ensures LineStream(a + b, n, k) == LineStream(a, n, LineStream(b, n + |a|, k))
  {
    hide LineTokens;
    if a == [] {
      assert a + b == b;
    } else {
      assert (a + b)[1..] == a[1..] + b;
      LineStreamConcat(a[1..], b, n + 1, k);
    }
  }

  /** The stream is lexically sound and starts, if at all, on line `n` or later. */
  predicate StartsFrom(k: Stream, n: nat) {
    !k.Fail? && (k.More? ==> k.head.pos.line >= n)
  }

  predicate NonEmptyWords(l: Line) {
    (l.Setting? || l.Header?) ==> l.words != []
  }

  lemma LineStreamStarts(lines: seq<Line>, n: nat, k: Stream)
    requires forall i :: 0 <= i < |lines| ==> NonEmptyWords(lines[i])
    requires StartsFrom(k, n + |lines|)
    ensures StartsFrom(LineStream(lines, n, k), n)
  {
    if lines != [] {
      assert NonEmptyWords(lines[0]);
    }
  }
}
