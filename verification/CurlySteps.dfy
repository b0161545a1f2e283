/** The parser layer of the round trip, one statement at a time. */
module CurlySteps {
  import opened Wrappers
  import opened Text
  import opened Lex
  import opened LexRoundTrip
  import opened Config
  import opened ConfigProofs
  import opened Curly
  import opened CurlyLines

  // ----- what one statement does to the parser ---------------------------

  /** A remembered leaf on an earlier line changes nothing. */
  lemma {:induction false} PreviousIdle(ts: Stream, tree: Node, at: Path, depth: nat, open: Option<Pos>,
                     pending: Option<string>, previous: Option<(Path, nat)>)
    requires pending.Some? || previous.None? || (ts.More? ==> ts.head.pos.line > previous.value.1)
    ensures Statements(ts, tree, at, depth, open, pending, previous)
         == Statements(ts, tree, at, depth, open, pending, None)
    decreases Size(ts)
  {
    if ts.More? && ts.head.token.Comment? {
      PreviousIdle(ts.tail, tree, at, depth, open, Some(AddLine(pending, ts.head.token.text)), previous);
    }
  }

  lemma StepComment(text: string, pos: Pos, k: Stream, tree: Node, at: Path, depth: nat, open: Option<Pos>,
                    pending: Option<string>)
    ensures Statements(More(Spanned(Comment(text), pos), k), tree, at, depth, open, pending, None)
         == Statements(k, tree, at, depth, open, Some(AddLine(pending, text)), None)
  {
  }

  lemma {:induction false} RunReads(words: seq<string>, pos: Pos, k: Stream)
    requires !k.Fail? && (k.More? && k.head.token.Value? ==> k.head.pos.line != pos.line)
    ensures Run(Prepend(WordTokens(words, pos), k), pos.line) == Ok((words, k))
  {
    hide Quote;
    if words == [] {
      RunStops(k, pos.line);
    } else {
      var next := Right(pos, |Quote(words[0])| + 1);
      var ts := Prepend(WordTokens(words[1..], next), k);
      RunReads(words[1..], next, k);
      assert WordTokens(words, pos) == [Spanned(Value(words[0]), pos)] + WordTokens(words[1..], next);
      hide WordTokens;
      PrependConcat([Spanned(Value(words[0]), pos)], WordTokens(words[1..], next), k);
      PrependOne(Spanned(Value(words[0]), pos), ts);
      RunTakesOne(words[0], pos, ts);
      assert words == [words[0]] + words[1..];
    }
  }

  lemma PrependOne(t: Spanned, k: Stream)
    ensures Prepend([t], k) == More(t, k)
  {
    assert [t][1..] == [];
  }

  lemma RunStops(k: Stream, line: nat)
    requires !k.Fail? && (k.More? && k.head.token.Value? ==> k.head.pos.line != line)
    ensures Run(k, line) == Ok(([], k))
  {
  }

  lemma RunTakesOne(word: string, pos: Pos, ts: Stream)
    requires Run(ts, pos.line).Ok?
    ensures Run(More(Spanned(Value(word), pos), ts), pos.line) == Ok(([word] + Run(ts, pos.line).value.0, Run(ts, pos.line).value.1))
  {
  }

  lemma WordTokensHead(words: seq<string>, pos: Pos, k: Stream)
    requires words != []
    ensures var ts := Prepend(WordTokens(words, pos), k);
            ts.More? && ts.head == Spanned(Value(words[0]), pos)
  {
  }

  /** A setting with a comment beside it: the comment is the setting's own, if it has none
      yet. */
  lemma StepSetting(words: seq<string>, pos: Pos, beside: Option<string>, at_: Pos, k: Stream, tree: Node, at: Path, depth: nat,
                    open: Option<Pos>, pending: Option<string>, left: Node, path: Path)
    requires words != [] && StartsFrom(k, pos.line + 1) && at_.line == pos.line
    requires Leaf(tree, at, words, pos) == Ok((left, path))
    requires beside.Some? ==> pending.None? && Get(left, path).Some? && Get(left, path).value.comment.None?
    ensures Statements(Prepend(WordTokens(words, pos) + BesideTokens(beside, at_), k), tree, at, depth, open, pending, None)
         == Statements(k, Attach(Attach(left, path, pending), path, beside), at, depth, open, None, None)
  {
    hide Leaf, Attach;
    var after := Prepend(BesideTokens(beside, at_), k);
    var begun := Attach(left, path, pending);
    PrependConcat(WordTokens(words, pos), BesideTokens(beside, at_), k);
    AttachNothing(left, path);
    AttachNothing(begun, path);
    WordTokensHead(words, pos, after);
    RunReads(words, pos, after);
    assert !OpensOn(after, pos.line);
    if beside.Some? {
      StepBeside(beside.value, at_, k, begun, at, depth, open, path);
    } else {
      assert after == k;
    }
    PreviousIdle(k, Attach(begun, path, beside), at, depth, open, None, Some((path, pos.line)));
  }

  lemma AttachNothing(tree: Node, path: Path)
    ensures Attach(tree, path, None) == tree
  {
  }

  /** A comment on the line of the leaf just completed. */
  lemma StepBeside(text: string, pos: Pos, k: Stream, tree: Node, at: Path, depth: nat, open: Option<Pos>, path: Path)
    requires Get(tree, path).Some? && Get(tree, path).value.comment.None?
    ensures Statements(Prepend([Spanned(Comment(text), pos)], k), tree, at, depth, open, None, Some((path, pos.line)))
         == Statements(k, Attach(tree, path, Some(text)), at, depth, open, None, Some((path, pos.line)))
  {
    hide Attach;
    assert Prepend([Spanned(Comment(text), pos)], k) == More(Spanned(Comment(text), pos), k);
  }

  lemma StepHeader(words: seq<string>, pos: Pos, brace: Pos, k: Stream, tree: Node, at: Path, depth: nat,
                   open: Option<Pos>, pending: Option<string>, entered: Node)
    requires words != [] && brace.line == pos.line
    requires Mutate(tree, at + words, EnsureInterior) == (entered, None)
    ensures Statements(Prepend(WordTokens(words, pos) + [Spanned(Open, brace)], k), tree, at, depth, open, pending, None)
         == match Block(k, Attach(entered, at + words, pending), at + words, depth + 1, Some(brace))
            case Err(e) => Err(e)
            case Ok((left, rest)) => Statements(rest, left, at, depth, open, None, None)
  {
    hide Mutate, Attach, Block;
    var after := More(Spanned(Open, brace), k);
    PrependConcat(WordTokens(words, pos), [Spanned(Open, brace)], k);
    assert Prepend([Spanned(Open, brace)], k) == after;
    WordTokensHead(words, pos, after);
    RunReads(words, pos, after);
    assert OpensOn(after, pos.line);
  }

  // ----- comments --------------------------------------------------------

  function JoinOnto(pending: Option<string>, texts: seq<string>): Option<string> {
    if texts == [] then pending else Some(AddLine(pending, Join(texts, "\n")))
  }

  lemma {:induction false} NotesParse(texts: seq<string>, indent: nat, n: nat, k: Stream, tree: Node, at: Path,
                     depth: nat, open: Option<Pos>, pending: Option<string>)
    ensures Statements(LineStream(NoteLines(texts, indent), n, k), tree, at, depth, open, pending, None)
         == Statements(k, tree, at, depth, open, JoinOnto(pending, texts), None)
  {
    hide Statements;
    if texts != [] {
      var rest := LineStream(NoteLines(texts[1..], indent), n + 1, k);
      var pos := Pos(n, 4 * indent + 1);
      var note := Spanned(Comment(texts[0]), pos);
      assert NoteLines(texts, indent)[1..] == NoteLines(texts[1..], indent);
      assert LineTokens(NoteLines(texts, indent)[0], n) == [note];
      assert Prepend([note], rest) == More(note, rest);
      StepComment(texts[0], pos, rest, tree, at, depth, open, pending);
      NotesParse(texts[1..], indent, n + 1, k, tree, at, depth, open, Some(AddLine(pending, texts[0])));
      if |texts| > 1 {
        assert AddLine(pending, texts[0]) + "\n" + Join(texts[1..], "\n")
            == AddLine(pending, texts[0] + "\n" + Join(texts[1..], "\n"));
      }
    }
  }

  /** The comment lines above an entry are read back as its comment. */
  lemma CommentParse(comment: Option<string>, indent: nat, n: nat, k: Stream, tree: Node, at: Path,
                     depth: nat, open: Option<Pos>)
    ensures Statements(LineStream(CommentLines(comment, indent), n, k), tree, at, depth, open, None, None)
         == Statements(k, tree, at, depth, open, comment, None)
  {
    hide Statements;
    if comment.Some? {
      NotesParse(SplitOn(comment.value, '\n'), indent, n, k, tree, at, depth, open, None);
      JoinSplit(comment.value, '\n');
    }
  }

  // ----- what one statement does to the tree -----------------------------

  /** `tree` with child `name` of the interior node at `at` set to `x`. */
  function WithChild(tree: Node, at: Path, name: string, x: Node): Node
    requires Get(tree, at).Some? && Get(tree, at).value.IsInterior()
  {
    var node := Get(tree, at).value;
    Put(tree, at, Node(node.comment, Interior(node.body.children[name := x])))
  }

  lemma WithChildGet(tree: Node, at: Path, name: string, x: Node)
    requires Get(tree, at).Some? && Get(tree, at).value.IsInterior()
    ensures var after := WithChild(tree, at, name, x);
            && Get(after, at) == Some(Node(Get(tree, at).value.comment,
                                           Interior(Get(tree, at).value.body.children[name := x])))
            && Get(after, at + [name]) == Some(x)
  {
    var node := Get(tree, at).value;
    GetPut(tree, at, Node(node.comment, Interior(node.body.children[name := x])));
    GetConcat(WithChild(tree, at, name, x), at, [name]);
  }

  lemma WithChildTwice(tree: Node, at: Path, name: string, x: Node, y: Node)
    requires Get(tree, at).Some? && Get(tree, at).value.IsInterior()
    ensures var after := WithChild(tree, at, name, x);
            && Get(after, at).Some? && Get(after, at).value.IsInterior()
            && WithChild(after, at, name, y) == WithChild(tree, at, name, y)
  {
    WithChildGet(tree, at, name, x);
    var node := Get(tree, at).value;
    var children := node.body.children;
    assert children[name := x][name := y] == children[name := y];
    PutPut(tree, at, Node(node.comment, Interior(children[name := x])),
           Node(node.comment, Interior(children[name := y])));
  }

  lemma PutChild(tree: Node, at: Path, name: string, x: Node, tail: Path, y: Node)
    requires Get(tree, at).Some? && Get(tree, at).value.IsInterior()
    requires Get(x, tail).Some?
    ensures var after := WithChild(tree, at, name, x);
            && Get(after, at + [name] + tail) == Get(x, tail)
            && Put(after, at + [name] + tail, y) == WithChild(tree, at, name, Put(x, tail, y))
  {
    hide Put;
    var after := WithChild(tree, at, name, x);
    var z := Put(x, tail, y);
    WithChildGet(tree, at, name, x);
    GetConcat(after, at + [name], tail);
    PutBelow(after, at + [name], tail, y);
    PutChildHere(tree, at, name, x, z);
  }

  lemma PutChildHere(tree: Node, at: Path, name: string, x: Node, y: Node)
    requires Get(tree, at).Some? && Get(tree, at).value.IsInterior()
    ensures var after := WithChild(tree, at, name, x);
            Get(after, at + [name]).Some? && Put(after, at + [name], y) == WithChild(tree, at, name, y)
  {
    var after := WithChild(tree, at, name, x);
    WithChildGet(tree, at, name, x);
    WithChildTwice(tree, at, name, x, y);
    var node := Get(after, at).value;
    PutBelow(after, at, [name], y);
    assert [name][1..] == [];
    assert Put(node, [name], y) == Node(node.comment, Interior(node.body.children[name := y]));
  }

  lemma MutateChild(tree: Node, at: Path, name: string, edit: Edit)
    requires Get(tree, at).Some? && Get(tree, at).value.IsInterior()
    ensures var (x, error) := EditSlot(Slot(Get(tree, at).value.body.children, name), edit, at + [name]);
            Mutate(tree, at + [name], edit) == (WithChild(tree, at, name, x), error)
  {
    WalkBelow(tree, at, [name], [], at + [name], edit);
  }

  lemma AttachChild(tree: Node, at: Path, name: string, x: Node, comment: Option<string>)
    requires Get(tree, at).Some? && Get(tree, at).value.IsInterior()
    ensures Attach(WithChild(tree, at, name, x), at + [name], comment)
         == WithChild(tree, at, name, Node(if x.comment.None? then comment else x.comment, x.body))
  {
    WithChildGet(tree, at, name, x);
    PutChildHere(tree, at, name, x, Node(comment, x.body));
  }
}
