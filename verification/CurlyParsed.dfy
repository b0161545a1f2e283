/** Trees that came from text: what the fuzz target asks of them. */
module CurlyParsed {
  import opened Wrappers
  import opened Order
  import opened Lex
  import opened LexRoundTrip
  import opened Config
  import opened ConfigProofs
  import opened Curly
  import opened CurlyLines
  import opened CurlySteps
  import opened CurlyRoundTrip
  import opened CurlyTheorem
  import opened CurlyDepth

  // ----- the root the parser leaves --------------------------------------

  predicate PlainRoot(tree: Node) {
    tree.comment.None? && tree.IsInterior()
  }

  lemma MutateKeepsRoot(tree: Node, path: Path, edit: Edit)
    requires path != [] && PlainRoot(tree) && Mutate(tree, path, edit).1.None?
    ensures PlainRoot(Mutate(tree, path, edit).0)
  {
  }

  lemma AttachKeepsRoot(tree: Node, path: Path, comment: Option<string>)
    requires path != [] && PlainRoot(tree)
    ensures PlainRoot(Attach(tree, path, comment))
  {
  }

  lemma RunNonEmpty(ts: Stream)
    requires ts.More? && ts.head.token.Value? && Run(ts, ts.head.pos.line).Ok?
    ensures Run(ts, ts.head.pos.line).value.0 != []
  {
  }

  /** No statement gives the root a comment or turns it into a leaf. */
  lemma {:induction false} StatementsKeepRoot(ts: Stream, tree: Node, prefix: Path, depth: nat, open: Option<Pos>,
                           pending: Option<string>, previous: Option<(Path, nat)>)
    requires PlainRoot(tree) && (previous.Some? ==> previous.value.0 != [])
    requires Statements(ts, tree, prefix, depth, open, pending, previous).Ok?
    ensures PlainRoot(Statements(ts, tree, prefix, depth, open, pending, previous).value.0)
    decreases Size(ts)
  {
    hide Attach, Mutate, PlainRoot, Run;
    if ts.More? && ts.head.token.Comment? {
      var text := ts.head.token.text;
      if Trails(tree, pending, previous, ts.head.pos) {
        AttachKeepsRoot(tree, previous.value.0, Some(text));
        StatementsKeepRoot(ts.tail, Attach(tree, previous.value.0, Some(text)), prefix, depth, open, None, previous);
      } else {
        StatementsKeepRoot(ts.tail, tree, prefix, depth, open, Some(AddLine(pending, text)), previous);
      }
    } else if ts.More? && ts.head.token.Value? {
      var pos := ts.head.pos;
      var (run, after) := Run(ts, pos.line).value;
      RunNonEmpty(ts);
      if OpensOn(after, pos.line) {
        var path := prefix + run;
        var entered := Mutate(tree, path, EnsureInterior).0;
        var begun := Attach(entered, path, pending);
        MutateKeepsRoot(tree, path, EnsureInterior);
        AttachKeepsRoot(entered, path, pending);
        StatementsKeepRoot(after.tail, begun, path, depth + 1, Some(after.head.pos), None, None);
        var (left, rest) := Block(after.tail, begun, path, depth + 1, Some(after.head.pos)).value;
        StatementsKeepRoot(rest, left, prefix, depth, open, None, None);
      } else {
        var (left, path) := Leaf(tree, prefix, run, pos).value;
        MutateKeepsRoot(tree, path, if |run| == 2 then AddValue(run[1]) else DeclareLeaf);
        AttachKeepsRoot(left, path, pending);
        StatementsKeepRoot(after, Attach(left, path, pending), prefix, depth, open, None, Some((path, pos.line)));
      }
    }
  }

  lemma ParsedRoot(src: string)
    requires Parse(src).Ok?
    ensures PlainRoot(Parse(src).value)
  {
    hide Statements, Tokens;
    StatementsKeepRoot(Tokens(Start(src)), EMPTY_INTERIOR, [], 0, None, None, None);
  }

  /** Text that parsed, once rendered, parses again to the same tree -- exactly
      when its tree nests at most `MAX_DEPTH` braces in the layout chosen. */
  lemma ParsedRoundTripIff(src: string, tags: Path -> bool)
    requires Parse(src).Ok?
    ensures PlainRoot(Parse(src).value)
    ensures Parse(Render(Parse(src).value, tags)) == Parse(src) <==> Nesting(Parse(src).value, tags) <= MAX_DEPTH
  {
    hide Parse, Render, Nesting;
    ParsedRoot(src);
    RoundTripIff(Parse(src).value, tags);
  }

  // ----- a header is a path ----------------------------------------------

  /** Interior nodes nested along `words`. */
  function Chain(words: seq<string>): Node {
    if words == [] then EMPTY_INTERIOR else Node(None, Interior(map[words[0] := Chain(words[1..])]))
  }

  lemma {:induction false} WalkChain(words: seq<string>, at: Path, full: Path)
    requires words != []
    ensures Walk(EMPTY_INTERIOR, words, at, full, EnsureInterior) == (Chain(words), None)
    decreases |words|
  {
    if |words| > 1 {
      WalkChain(words[1..], at + [words[0]], full);
    } else {
      assert Chain(words[1..]) == EMPTY_INTERIOR;
    }
  }

  lemma NamesOne(node: Node, name: string)
    requires node.IsInterior() && node.body.children.Keys == {name}
    ensures Names(node) == [name]
  {
    assert |{name}| == 1;
  }

  lemma {:induction false} ChainNesting(words: seq<string>, at: Path)
    ensures ChildNesting(Chain(words), Names(Chain(words)), at, _ => false) == |words|
    decreases |words|
  {
    if words != [] {
      var chain := Chain(words);
      NamesOne(chain, words[0]);
      assert Names(chain)[1..] == [];
      ChainNesting(words[1..], at + [words[0]]);
    } else {
      assert Names(EMPTY_INTERIOR) == [];
    }
  }

  lemma HeaderParses(words: seq<string>)
    requires words != []
    ensures Parse(LinesText([Header(0, words), Footer(0)])) == Ok(Chain(words))
  {
    hide Tokens, LinesText, WordsText, WordTokens, Statements, Attach, Walk, Chain;
    var lines := [Header(0, words), Footer(0)];
    var close := CloseAt(0, 2);
    assert lines == BlockLines(None, words, [], 0);
    LinesRead(lines, 1);
    WalkChain(words, [], words);
    assert [] + words == words;
    LineStreamNone(2, More(close, End));
    StepClose(close, End, Chain(words), words, 1, BraceAt(words, 0, 1));
    assert Attach(Chain(words), words, None) == Chain(words) by { AttachNone(Chain(words), words); }
    BlockParse(None, words, [], 1, End, EMPTY_INTERIOR, [], 0, None, Chain(words), Chain(words));
    EndParses(Chain(words));
  }

  lemma AttachNone(tree: Node, path: Path)
    ensures Attach(tree, path, None) == tree
  {
  }

  lemma EndParses(tree: Node)
    ensures Statements(End, tree, [], 0, None, None, None) == Ok((tree, End))
  {
  }

  /** A one-line header of any length parses; its nested rendering parses back only
      up to `MAX_DEPTH` words. */
  lemma LongHeader(words: seq<string>)
    requires words != []
    ensures Parse(LinesText([Header(0, words), Footer(0)])) == Ok(Chain(words))
    ensures Parse(Render(Chain(words), _ => false)) == Ok(Chain(words)) <==> |words| <= MAX_DEPTH
  {
    hide Parse, Render, ChildNesting, LinesText;
    HeaderParses(words);
    ChainNesting(words, []);
    RoundTripIff(Chain(words), _ => false);
  }
}
