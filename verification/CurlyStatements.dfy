/** What a line on its own parses to, where comments go, and the texts that are refused. */
module CurlyStatements {
  import opened Wrappers
  import opened Order
  import opened Lex
  import opened LexRoundTrip
  import opened Config
  import opened ConfigProofs
  import opened Curly
  import opened CurlyLines
  import opened CurlySteps
  import opened CurlyRoundTrip
  import opened CurlyTheorem
  import opened CurlyDepth

  // ----- one line --------------------------------------------------------

  function Root(name: string, leaf: Node): Node {
    Node(None, Interior(map[name := leaf]))
  }

  lemma SettingTokens(words: seq<string>, beside: Option<string>, n: nat)
    ensures LineTokens(Setting(0, words, beside), n) == WordTokens(words, Pos(n, 1)) + BesideTokens(beside, Right(Pos(n, 1), |WordsText(words)| + 1))
  {
    hide WordTokens, WordsText, BesideTokens;
  }

  lemma OneSettingReads(words: seq<string>, beside: Option<string>)
    requires words != [] && (beside.Some? ==> '\n' !in beside.value)
    ensures Tokens(Start(LinesText([Setting(0, words, beside)])))
         == Prepend(WordTokens(words, Pos(1, 1)) + BesideTokens(beside, Right(Pos(1, 1), |WordsText(words)| + 1)), End)
  {
    hide Tokens, WordTokens, WordsText, LinesText, BesideTokens, LineTokens, LineStream;
    SettingTokens(words, beside, 1);
    LinesRead([Setting(0, words, beside)], 1);
    LineStreamOne(Setting(0, words, beside), 1, End);
  }

  /** A line of one or two words, with or without a comment after it, is a leaf of the
      first word with the second as its value and that comment; more words are refused. */
  lemma OneLineParses(words: seq<string>, beside: Option<string>)
    requires words != [] && (beside.Some? ==> '\n' !in beside.value)
    ensures var r := Parse(LinesText([Setting(0, words, beside)]));
            && (|words| == 1 ==> r == Ok(Root(words[0], Node(beside, Values({})))))
            && (|words| == 2 ==> r == Ok(Root(words[0], Node(beside, Values({words[1]})))))
            && (|words| > 2 ==> r == Err(TooManyValues(Pos(1, 1), words[0], |words| - 1)))
  {
    hide Tokens, WordTokens, WordsText, LinesText, Statements, BesideTokens, LineStream;
    OneSettingReads(words, beside);
    LineStreamOne(Setting(0, words, beside), 1, End);
    if |words| <= 2 {
      var edit := if |words| == 2 then AddValue(words[1]) else DeclareLeaf;
      SettingParse(words, beside, 1, End, EMPTY_INTERIOR, [], 0, None, None, edit);
      var leaf := Node(beside, Values(if |words| == 2 then {words[1]} else {}));
      assert WithChild(EMPTY_INTERIOR, [], words[0], leaf) == Root(words[0], leaf);
      EndParses(Root(words[0], leaf), None);
    } else {
      TooMany(words, beside, End, EMPTY_INTERIOR, [], 0, None);
    }
  }

  lemma EndParses(tree: Node, pending: Option<string>)
    ensures Statements(End, tree, [], 0, None, pending, None) == Ok((tree, End))
  {
  }

  lemma TooMany(words: seq<string>, beside: Option<string>, k: Stream, tree: Node, at: Path, depth: nat, open: Option<Pos>)
    requires |words| > 2 && StartsFrom(k, 2)
    ensures var ts := Prepend(WordTokens(words, Pos(1, 1)) + BesideTokens(beside, Right(Pos(1, 1), |WordsText(words)| + 1)), k);
            Statements(ts, tree, at, depth, open, None, None) == Err(TooManyValues(Pos(1, 1), words[0], |words| - 1))
  {
    hide WordTokens, WordsText;
    var pos := Pos(1, 1);
    var after := Prepend(BesideTokens(beside, Right(pos, |WordsText(words)| + 1)), k);
    PrependConcat(WordTokens(words, pos), BesideTokens(beside, Right(pos, |WordsText(words)| + 1)), k);
    WordTokensHead(words, pos, after);
    RunReads(words, pos, after);
    assert !OpensOn(after, 1);
  }

  // ----- comments --------------------------------------------------------

  /** Comment lines before a closing brace, or at the end, belong to nothing. */
  lemma TrailingNotesDropped(comment: Option<string>, indent: nat, n: nat, close: Spanned, k: Stream, tree: Node, at: Path, depth: nat, brace: Pos)
    requires close.token == Close
    ensures Statements(LineStream(CommentLines(comment, indent), n, More(close, k)), tree, at, depth, Some(brace), None, None) == Ok((tree, k))
    ensures Statements(LineStream(CommentLines(comment, indent), n, End), tree, at, depth, None, None, None) == Ok((tree, End))
  {
    hide LineStream;
    CommentParse(comment, indent, n, More(close, k), tree, at, depth, Some(brace));
    CommentParse(comment, indent, n, End, tree, at, depth, None);
  }

  /** A second comment for a setting goes to the setting after it. */
  lemma SecondCommentMovesOn(first: string, second: string, a: string, b: string)
    requires '\n' !in first && '\n' !in second && a != b
    ensures Parse(LinesText([Note(0, first), Setting(0, [a], Some(second)), Setting(0, [b], None)])) ==
            Ok(Node(None, Interior(map[a := Node(Some(first), Values({})), b := Node(Some(second), Values({}))])))
  {
    hide Tokens, WordTokens, WordsText, LinesText, LineStream, Statements;
    var lines := [Note(0, first), Setting(0, [a], Some(second)), Setting(0, [b], None)];
    LinesRead(lines, 1);
    SecondStream(first, second, a, b);
    var after := Prepend([Spanned(Comment(second), Right(Pos(2, 1), |WordsText([a])| + 1))], LineStream([Setting(0, [b], None)], 3, End));
    StepComment(first, Pos(1, 1), Prepend(WordTokens([a], Pos(2, 1)), after), EMPTY_INTERIOR, [], 0, None, None);
    var one := Root(a, Node(Some(first), Values({})));
    SecondSteps(first, second, a, b);
    var two := Node(None, Interior(map[a := Node(Some(first), Values({})), b := Node(Some(second), Values({}))]));
    SettingParse([b], None, 3, End, one, [], 0, None, Some(second), DeclareLeaf);
    assert WithChild(one, [], b, Node(Some(second), Values({}))) == two;
    EndParses(two, None);
  }

  lemma SecondStream(first: string, second: string, a: string, b: string)
    ensures var rest := LineStream([Setting(0, [b], None)], 3, End);
            var after := Prepend([Spanned(Comment(second), Right(Pos(2, 1), |WordsText([a])| + 1))], rest);
            LineStream([Note(0, first), Setting(0, [a], Some(second)), Setting(0, [b], None)], 1, End) ==
            More(Spanned(Comment(first), Pos(1, 1)), Prepend(WordTokens([a], Pos(2, 1)), after))
  {
    hide WordTokens, WordsText;
    var note, one, two := Note(0, first), Setting(0, [a], Some(second)), Setting(0, [b], None);
    var rest := LineStream([two], 3, End);
    assert [note, one, two][1..] == [one, two] && [one, two][1..] == [two];
    PrependConcat(WordTokens([a], Pos(2, 1)), BesideTokens(Some(second), Right(Pos(2, 1), |WordsText([a])| + 1)), rest);
    assert LineStream([one, two], 2, End) == Prepend(LineTokens(one, 2), rest);
    var head := Spanned(Comment(first), Pos(1, 1));
    assert Prepend([head], LineStream([one, two], 2, End)) == More(head, LineStream([one, two], 2, End));
  }

  lemma SecondSteps(first: string, second: string, a: string, b: string)
    requires a != b
    ensures var rest := LineStream([Setting(0, [b], None)], 3, End);
            var at := Right(Pos(2, 1), |WordsText([a])| + 1);
            Statements(Prepend(WordTokens([a], Pos(2, 1)), Prepend([Spanned(Comment(second), at)], rest)), EMPTY_INTERIOR, [], 0, None, Some(first), None) ==
            Statements(rest, Root(a, Node(Some(first), Values({}))), [], 0, None, Some(second), None)
  {
    hide WordTokens, WordsText, LineStream, Mutate, Attach, Get;
    var rest := LineStream([Setting(0, [b], None)], 3, End);
    var note := Spanned(Comment(second), Right(Pos(2, 1), |WordsText([a])| + 1));
    var after := Prepend([note], rest);
    assert after == More(note, rest) by { assert [note][1..] == []; PrependNone(rest); }
    WordTokensHead([a], Pos(2, 1), after);
    RunReads([a], Pos(2, 1), after);
    assert !OpensOn(after, 2);
    var one := Root(a, Node(Some(first), Values({})));
    LeafOnEmpty(a, first);
    assert !Trails(one, None, Some(([a], 2)), note.pos) by { CommentIsThere(a, first); }
    assert [] + [a] == [a];
    PreviousIdle(rest, one, [], 0, None, Some(second), Some(([a], 2)));
  }

  lemma PrependNone(k: Stream)
    ensures Prepend([], k) == k
  {
  }

  lemma LeafOnEmpty(a: string, first: string)
    ensures Mutate(EMPTY_INTERIOR, [a], DeclareLeaf) == (Root(a, FLAG), None)
    ensures Attach(Root(a, FLAG), [a], Some(first)) == Root(a, Node(Some(first), Values({})))
  {
    PutOne(Root(a, FLAG), a, Node(Some(first), Values({})));
    assert map[a := FLAG][a := Node(Some(first), Values({}))] == map[a := Node(Some(first), Values({}))];
  }

  lemma CommentIsThere(a: string, first: string)
    ensures Get(Root(a, Node(Some(first), Values({}))), [a]) == Some(Node(Some(first), Values({})))
  {
    assert [a][1..] == [];
  }

  // ----- refused documents -----------------------------------------------

  lemma {:induction false} LinesTextThen(lines: seq<Line>, l: Line)
    ensures LinesText(lines + [l]) == LinesText(lines) + LineText(l)
  {
    hide LineText;
    if lines == [] {
      assert lines + [l] == [l] && [l][1..] == [];
    } else {
      assert (lines + [l])[1..] == lines[1..] + [l];
      LinesTextThen(lines[1..], l);
    }
  }

  /** A brace too many after any document is refused on its line. */
  lemma StrayBrace(tree: Node, layout: Layout)
    requires tree.IsInterior() && Nesting(tree, layout.tags) <= MAX_DEPTH
    ensures Parse(RenderAs(tree, layout) + "}\n") == Err(UnmatchedClose(Pos(|DocumentLines(tree, layout)| + 1, 1)))
    ensures Parse(RenderAs(tree, layout) + "{\n") == Err(UnexpectedOpen(Pos(|DocumentLines(tree, layout)| + 1, 1)))
  {
    hide Tokens, LineStream, ChildLines, LinesText, Names, ChildNesting, Sorted, Pick, Statements, WithAll;
    var lines := ChildLines(tree, Names(tree), [], 0, layout);
    var n := |lines| + 1;
    ProperChildren(tree, Names(tree), [], 0, layout);
    NamesDistinct(tree);
    assert "}\n" == ['}'] + "\n" && "{\n" == ['{'] + "\n";
    BraceThen(lines, '}');
    BraceThen(lines, '{');
    var close, open := More(Spanned(Close, Pos(n, 1)), End), More(Spanned(Open, Pos(n, 1)), End);
    ChildrenParse(tree, Names(tree), layout, 1, close, EMPTY_INTERIOR, [], 0, None);
    ChildrenParse(tree, Names(tree), layout, 1, open, EMPTY_INTERIOR, [], 0, None);
    BraceRefused(WithAll(EMPTY_INTERIOR, [], Pick(tree, Names(tree))), Pos(n, 1));
  }

  lemma BraceRefused(tree: Node, pos: Pos)
    ensures Statements(More(Spanned(Close, pos), End), tree, [], 0, None, None, None) == Err(UnmatchedClose(pos))
    ensures Statements(More(Spanned(Open, pos), End), tree, [], 0, None, None, None) == Err(UnexpectedOpen(pos))
  {
  }

  lemma BraceThen(lines: seq<Line>, brace: char)
    requires Proper(lines) && (brace == '{' || brace == '}')
    ensures Tokens(Start(LinesText(lines) + ([brace] + "\n")))
         == LineStream(lines, 1, More(Spanned(if brace == '{' then Open else Close, Pos(|lines| + 1, 1)), End))
  {
    hide Tokens, LineStream, LinesText;
    var pos := Pos(|lines| + 1, 1);
    LinesReadThen(lines, 1, [brace] + "\n");
    assert [brace] + "\n" == [brace] + ['\n'];
    BraceReads(brace, "\n", pos);
    assert "\n" == ['\n'] + "";
    SkipOne('\n', "", Right(pos, 1));
    NothingReads(Right(pos, 1).After('\n'));
  }

  /** As `LinesRead`, with something after the lines. */
  lemma {:induction false} LinesReadThen(lines: seq<Line>, n: nat, rest: string)
    requires forall i :: 0 <= i < |lines| ==> OneLine(lines[i])
    ensures Tokens(Cursor(LinesText(lines) + rest, Pos(n, 1))) == LineStream(lines, n, Tokens(Cursor(rest, Pos(n + |lines|, 1))))
    decreases |lines|
  {
    hide LineText, LineTokens, NextToken;
    if lines != [] {
      assert LinesText(lines) + rest == LineText(lines[0]) + (LinesText(lines[1..]) + rest);
      LineReads(lines[0], LinesText(lines[1..]) + rest, n);
      LinesReadThen(lines[1..], n + 1, rest);
    } else {
      assert LinesText(lines) + rest == rest;
    }
  }

  /** A block that is never closed is refused at its brace. */
  lemma NeverClosed(tree: Node, words: seq<string>, layout: Layout)
    requires tree.IsInterior() && words != [] && 1 + ChildNesting(tree, Names(tree), words, layout.tags) <= MAX_DEPTH
    ensures var lines := [Header(0, words)] + ChildLines(tree, Names(tree), words, 1, layout);
            Parse(LinesText(lines)) == Err(Unclosed(BraceAt(words, 0, 1)))
  {
    hide Tokens, LineStream, ChildLines, LinesText, Names, ChildNesting, Sorted, Pick, Statements, WithAll, Mutate, WordTokens, WordsText;
    var inner := ChildLines(tree, Names(tree), words, 1, layout);
    var lines := [Header(0, words)] + inner;
    ProperChildren(tree, Names(tree), words, 1, layout);
    LinesRead(lines, 1);
    LineStreamConcat([Header(0, words)], inner, 1, End);
    LineStreamOne(Header(0, words), 1, LineStream(inner, 2, End));
    HeaderTokens(words, 0, 1);
    var entered := Mutate(EMPTY_INTERIOR, words, EnsureInterior).0;
    Entered(words);
    assert [] + words == words;
    StepHeader(words, Pos(1, 1), BraceAt(words, 0, 1), LineStream(inner, 2, End), EMPTY_INTERIOR, [], 0, None, None, entered);
    AttachNothing(entered, words);
    NamesDistinct(tree);
    ChildrenParse(tree, Names(tree), layout, 2, End, entered, words, 1, Some(BraceAt(words, 0, 1)));
    EndRefused(WithAll(entered, words, Pick(tree, Names(tree))), words, BraceAt(words, 0, 1));
  }

  lemma EndRefused(tree: Node, at: Path, brace: Pos)
    ensures Statements(End, tree, at, 1, Some(brace), None, None) == Err(Unclosed(brace))
  {
  }

  lemma {:induction false} WalkEnters(words: seq<string>, at: Path, full: Path)
    requires words != []
    ensures var (tree, error) := Walk(EMPTY_INTERIOR, words, at, full, EnsureInterior);
            error.None? && Get(tree, words) == Some(EMPTY_INTERIOR)
    decreases |words|
  {
    if |words| > 1 {
      WalkEnters(words[1..], at + [words[0]], full);
    } else {
      assert words[1..] == [];
    }
  }

  lemma Entered(words: seq<string>)
    requires words != []
    ensures Mutate(EMPTY_INTERIOR, words, EnsureInterior).1.None?
    ensures Get(Mutate(EMPTY_INTERIOR, words, EnsureInterior).0, words) == Some(EMPTY_INTERIOR)
  {
    hide Walk, Get;
    WalkEnters(words, [], words);
  }

  /** Headers inside one another, from `depth` on until there is one too many. */
  function Nest(name: string, depth: nat): seq<Line>
    decreases MAX_DEPTH + 1 - depth
  {
    if depth > MAX_DEPTH then [] else [Header(depth, [name])] + Nest(name, depth + 1)
  }

  lemma {:induction false} NestRefused(name: string, k: Stream, tree: Node, at: Path, depth: nat, open: Option<Pos>)
    requires depth <= MAX_DEPTH && Get(tree, at) == Some(EMPTY_INTERIOR)
    ensures Statements(LineStream(Nest(name, depth), depth + 1, k), tree, at, depth, open, None, None)
         == Err(TooDeep(BraceAt([name], MAX_DEPTH, MAX_DEPTH + 1)))
    decreases MAX_DEPTH - depth
  {
    hide LineStream, WordTokens, WordsText, Mutate, WithChild, Get, Statements, Attach;
    var rest := Nest(name, depth + 1);
    var inside, brace := LineStream(rest, depth + 2, k), BraceAt([name], depth, depth + 1);
    var entered := WithChild(tree, at, name, EMPTY_INTERIOR);
    assert Nest(name, depth) == [Header(depth, [name])] + rest;
    LineStreamConcat([Header(depth, [name])], rest, depth + 1, k);
    LineStreamOne(Header(depth, [name]), depth + 1, inside);
    HeaderTokens([name], depth, depth + 1);
    MutateChild(tree, at, name, EnsureInterior);
    WithChildGet(tree, at, name, EMPTY_INTERIOR);
    StepHeader([name], Pos(depth + 1, 4 * depth + 1), brace, inside, tree, at, depth, open, None, entered);
    AttachNothing(entered, at + [name]);
    if depth < MAX_DEPTH { NestRefused(name, k, entered, at + [name], depth + 1, Some(brace)); }
  }

  /** The first brace past the limit is the one refused. */
  lemma NestedTooDeep(name: string)
    ensures Parse(LinesText(Nest(name, 0))) == Err(TooDeep(BraceAt([name], MAX_DEPTH, MAX_DEPTH + 1)))
  {
    hide LineStream, Statements, LinesText, Tokens, BraceAt;
    NestIsProper(name, 0);
    LinesRead(Nest(name, 0), 1);
    NestRefused(name, End, EMPTY_INTERIOR, [], 0, None);
  }

  lemma {:induction false} NestIsProper(name: string, depth: nat)
    ensures forall i :: 0 <= i < |Nest(name, depth)| ==> OneLine(Nest(name, depth)[i])
    decreases MAX_DEPTH + 1 - depth
  {
    if depth <= MAX_DEPTH { NestIsProper(name, depth + 1); }
  }
}
