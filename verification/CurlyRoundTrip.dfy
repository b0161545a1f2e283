/** `parse(render(tree)) == tree`, and exactly when. */
module CurlyRoundTrip {
  import opened Wrappers
  import opened Text
  import opened Order
  import opened Lex
  import opened LexRoundTrip
  import opened Config
  import opened ConfigProofs
  import opened Curly
  import opened CurlyLines
  import opened CurlySteps

  // ----- the shape of rendered lines -------------------------------------

  ghost predicate Proper(lines: seq<Line>) {
    forall i :: 0 <= i < |lines| ==> OneLine(lines[i]) && NonEmptyWords(lines[i])
  }

  lemma ProperNotes(texts: seq<string>, depth: nat)
    requires forall i :: 0 <= i < |texts| ==> '\n' !in texts[i]
    ensures Proper(NoteLines(texts, depth))
  {
  }

  lemma ProperComment(comment: Option<string>, depth: nat)
    ensures Proper(CommentLines(comment, depth))
  {
    if comment.Some? { ProperNotes(SplitOn(comment.value, '\n'), depth); }
  }

  predicate OnOneLine(placed: Option<(nat, string)>) {
    placed.Some? ==> '\n' !in placed.value.1
  }

  lemma {:induction false} ProperValues(name: string, values: seq<string>, depth: nat, placed: Option<(nat, string)>)
    requires OnOneLine(placed)
    ensures Proper(ValueLines(name, values, depth, placed)) && Proper(LeafLines(name, values, depth, placed))
  {
    if values != [] { ProperValues(name, values[1..], depth, Later(placed)); }
  }

  lemma ProperBlock(comment: Option<string>, words: seq<string>, inner: seq<Line>, depth: nat)
    requires words != [] && Proper(inner)
    ensures Proper(BlockLines(comment, words, inner, depth))
  {
    ProperComment(comment, depth);
  }

  lemma {:induction false} ProperChildren(node: Node, names: seq<string>, at: Path, depth: nat, layout: Layout)
    requires Below(node, names)
    ensures Proper(ChildLines(node, names, at, depth, layout))
    decreases node, 0, |names|
  {
    if names != [] {
      ProperEntry(names[0], node.body.children[names[0]], at + [names[0]], depth, layout);
      ProperChildren(node, names[1..], at, depth, layout);
    }
  }

  lemma {:induction false} ProperEntry(name: string, node: Node, path: Path, depth: nat, layout: Layout)
    ensures Proper(EntryLines(name, node, path, depth, layout))
    decreases node, 1, 0
  {
    hide ChildLines, CommentLines, BlockLines;
    if node.body.Values? {
      var placed := Placed(node, path, layout);
      ProperComment(if placed.Some? then None else node.comment, depth);
      ProperValues(name, Sorted(node.body.values), depth, placed);
    } else if Compact(node, path, layout.tags) {
      ProperInstances(name, node, Names(node), path, depth, layout);
    } else {
      ProperChildren(node, Names(node), path, depth + 1, layout);
      ProperBlock(node.comment, [name], ChildLines(node, Names(node), path, depth + 1, layout), depth);
    }
  }

  lemma {:induction false} ProperInstances(name: string, node: Node, keys: seq<string>, path: Path, depth: nat,
                                           layout: Layout)
    requires Below(node, keys) && AllInterior(node.body.children)
    ensures Proper(InstanceLines(name, node, keys, path, depth, layout))
    decreases node, 0, |keys|
  {
    hide ChildLines, CommentLines, BlockLines;
    if keys != [] {
      var instance := node.body.children[keys[0]];
      var inner := ChildLines(instance, Names(instance), path + [keys[0]], depth + 1, layout);
      ProperChildren(instance, Names(instance), path + [keys[0]], depth + 1, layout);
      ProperBlock(instance.comment, [name, keys[0]], inner, depth);
      ProperInstances(name, node, keys[1..], path, depth, layout);
    }
  }

  // ----- blocks ----------------------------------------------------------

  function BraceAt(words: seq<string>, depth: nat, n: nat): Pos {
    Pos(n, 4 * depth + |WordsText(words)| + 2)
  }

  function CloseAt(depth: nat, n: nat): Spanned {
    Spanned(Close, Pos(n, 4 * depth + 1))
  }

  lemma BlockStream(comment: Option<string>, words: seq<string>, inner: seq<Line>, depth: nat, n: nat, k: Stream)
    ensures var m := n + |CommentLines(comment, depth)|;
            var inside := LineStream(inner, m + 1, More(CloseAt(depth, m + 1 + |inner|), k));
            var header := WordTokens(words, Pos(m, 4 * depth + 1)) + [Spanned(Open, BraceAt(words, depth, m))];
            LineStream(BlockLines(comment, words, inner, depth), n, k) ==
            LineStream(CommentLines(comment, depth), n, Prepend(header, inside))
  {
    hide WordTokens, WordsText, CommentLines, LineTokens, LineStream;
    var comments := CommentLines(comment, depth);
    var m := n + |comments|;
    var close := CloseAt(depth, m + 1 + |inner|);
    HeaderTokens(words, depth, m);
    FooterTokens(depth, m + 1 + |inner|);
    assert BlockLines(comment, words, inner, depth) == comments + ([Header(depth, words)] + (inner + [Footer(depth)]));
    LineStreamConcat(comments, [Header(depth, words)] + (inner + [Footer(depth)]), n, k);
    LineStreamConcat([Header(depth, words)], inner + [Footer(depth)], m, k);
    LineStreamConcat(inner, [Footer(depth)], m + 1, k);
    LineStreamOne(Footer(depth), m + 1 + |inner|, k);
    assert Prepend([close], k) == More(close, k);
    LineStreamOne(Header(depth, words), m, LineStream(inner, m + 1, More(close, k)));
  }

  lemma HeaderTokens(words: seq<string>, depth: nat, n: nat)
    ensures LineTokens(Header(depth, words), n) == WordTokens(words, Pos(n, 4 * depth + 1)) + [Spanned(Open, BraceAt(words, depth, n))]
  {
    hide WordTokens, WordsText;
  }

  lemma FooterTokens(depth: nat, n: nat)
    ensures LineTokens(Footer(depth), n) == [CloseAt(depth, n)]
  {
  }

  lemma LineStreamOne(l: Line, n: nat, k: Stream)
    ensures LineStream([l], n, k) == Prepend(LineTokens(l, n), k)
  {
    hide LineTokens;
    assert LineStream([l][1..], n + 1, k) == k;
  }

  /** A rendered block whose inside reads back as `filled` is one statement. */
  lemma BlockParse(comment: Option<string>, words: seq<string>, inner: seq<Line>, n: nat, k: Stream,
                   tree: Node, at: Path, depth: nat, open: Option<Pos>, entered: Node, filled: Node)
    requires words != [] && depth < MAX_DEPTH
    requires Mutate(tree, at + words, EnsureInterior) == (entered, None)
    requires var m := n + |CommentLines(comment, depth)|;
             Statements(LineStream(inner, m + 1, More(CloseAt(depth, m + 1 + |inner|), k)),
                        Attach(entered, at + words, comment), at + words, depth + 1,
                        Some(BraceAt(words, depth, m)), None, None) == Ok((filled, k))
    ensures Statements(LineStream(BlockLines(comment, words, inner, depth), n, k), tree, at, depth, open, None, None)
         == Statements(k, filled, at, depth, open, None, None)
  {
    hide Statements, LineStream, WordTokens, WordsText, CommentLines, Mutate, Attach, BlockLines;
    var m := n + |CommentLines(comment, depth)|;
    var pos := Pos(m, 4 * depth + 1);
    var brace := BraceAt(words, depth, m);
    var inside := LineStream(inner, m + 1, More(CloseAt(depth, m + 1 + |inner|), k));
    var ts := Prepend(WordTokens(words, pos) + [Spanned(Open, brace)], inside);
    BlockStream(comment, words, inner, depth, n, k);
    CommentParse(comment, depth, n, ts, tree, at, depth, open);
    StepHeader(words, pos, brace, inside, tree, at, depth, open, comment, entered);
  }

  lemma StepClose(close: Spanned, k: Stream, tree: Node, at: Path, depth: nat, brace: Pos)
    requires close.token == Close
    ensures Statements(More(close, k), tree, at, depth, Some(brace), None, None) == Ok((tree, k))
  {
  }

  // ----- filling a node --------------------------------------------------

  function Pick(node: Node, names: seq<string>): map<string, Node>
    requires Below(node, names)
  {
    map name | name in names :: node.body.children[name]
  }

  /** `tree` with `more` added to the children of the interior node at `at`. */
  function WithAll(tree: Node, at: Path, more: map<string, Node>): Node
    requires Get(tree, at).Some? && Get(tree, at).value.IsInterior()
  {
    var node := Get(tree, at).value;
    Put(tree, at, Node(node.comment, Interior(node.body.children + more)))
  }

  lemma WithAllNone(tree: Node, at: Path)
    requires Get(tree, at).Some? && Get(tree, at).value.IsInterior()
    ensures WithAll(tree, at, map[]) == tree
  {
    var node := Get(tree, at).value;
    assert node.body.children + map[] == node.body.children;
    PutSame(tree, at);
  }

  lemma WithAllCons(tree: Node, at: Path, node: Node, names: seq<string>)
    requires Get(tree, at).Some? && Get(tree, at).value.IsInterior()
    requires Below(node, names) && names != []
    ensures var after := WithChild(tree, at, names[0], node.body.children[names[0]]);
            && Get(after, at).Some? && Get(after, at).value.IsInterior()
            && WithAll(after, at, Pick(node, names[1..])) == WithAll(tree, at, Pick(node, names))
  {
    var name, x := names[0], node.body.children[names[0]];
    var here := Get(tree, at).value;
    var had, rest := here.body.children, Pick(node, names[1..]);
    WithChildGet(tree, at, name, x);
    assert had[name := x] + rest == had + Pick(node, names) by {
      assert names == [name] + names[1..];
      assert name in rest ==> rest[name] == x;
    }
    PutPut(tree, at, Node(here.comment, Interior(had[name := x])), Node(here.comment, Interior(had[name := x] + rest)));
  }

  /** Filling a freshly entered node with all of `node`'s children gives `node`. */
  lemma FillChild(tree: Node, at: Path, name: string, node: Node)
    requires Get(tree, at).Some? && Get(tree, at).value.IsInterior() && node.IsInterior()
    ensures var entered := WithChild(tree, at, name, Node(node.comment, Interior(map[])));
            && Get(entered, at + [name]) == Some(Node(node.comment, Interior(map[])))
            && WithAll(entered, at + [name], Pick(node, Names(node))) == WithChild(tree, at, name, node)
  {
    var empty := Node(node.comment, Interior(map[]));
    WithChildGet(tree, at, name, empty);
    assert map[] + Pick(node, Names(node)) == node.body.children;
    PutChildHere(tree, at, name, empty, node);
  }

  // ----- leaves ----------------------------------------------------------

  function FirstSome(a: Option<string>, b: Option<string>): Option<string> {
    if a.Some? then a else b
  }

  lemma SettingParse(words: seq<string>, beside: Option<string>, n: nat, k: Stream, tree: Node, at: Path, depth: nat,
                     open: Option<Pos>, pending: Option<string>, edit: Edit)
    requires 1 <= |words| <= 2 && edit == if |words| == 2 then AddValue(words[1]) else DeclareLeaf
    requires Get(tree, at).Some? && Get(tree, at).value.IsInterior() && StartsFrom(k, n + 1)
    requires EditSlot(Slot(Get(tree, at).value.body.children, words[0]), edit, at + [words[0]]).1.None?
    requires var x := EditSlot(Slot(Get(tree, at).value.body.children, words[0]), edit, at + [words[0]]).0;
             beside.Some? ==> pending.None? && x.comment.None?
    ensures var x := EditSlot(Slot(Get(tree, at).value.body.children, words[0]), edit, at + [words[0]]).0;
            var left := WithChild(tree, at, words[0], Node(FirstSome(x.comment, FirstSome(pending, beside)), x.body));
            Statements(LineStream([Setting(depth, words, beside)], n, k), tree, at, depth, open, pending, None) ==
            Statements(k, left, at, depth, open, None, None)
  {
    hide Statements, LineStream, WordTokens, WordsText, Mutate, Attach, EditSlot, WithChild;
    var x := EditSlot(Slot(Get(tree, at).value.body.children, words[0]), edit, at + [words[0]]).0;
    var y := Node(FirstSome(x.comment, pending), x.body);
    var pos := Pos(n, 4 * depth + 1);
    MutateChild(tree, at, words[0], edit);
    WithChildGet(tree, at, words[0], x);
    LineStreamOne(Setting(depth, words, beside), n, k);
    StepSetting(words, pos, beside, Right(pos, |WordsText(words)| + 1), k, tree, at, depth, open, pending,
                WithChild(tree, at, words[0], x), at + [words[0]]);
    AttachChild(tree, at, words[0], x, pending);
    AttachChild(tree, at, words[0], y, beside);
  }

  /** The comment of a leaf once its lines are read: what it had, or what is beside one. */
  function Settled(comment: Option<string>, placed: Option<(nat, string)>): Option<string> {
    if placed.Some? then Some(placed.value.1) else comment
  }

  lemma {:induction false} ValuesParse(name: string, values: seq<string>, placed: Option<(nat, string)>, had: set<string>,
                      comment: Option<string>, n: nat, k: Stream, tree: Node, at: Path, depth: nat, open: Option<Pos>)
    requires Get(tree, at).Some? && Get(tree, at).value.IsInterior()
    requires Slot(Get(tree, at).value.body.children, name) == Some(Node(comment, Values(had)))
    requires OnOneLine(placed) && (placed.Some? ==> comment.None? && placed.value.0 < |values|)
    requires StartsFrom(k, n + |ValueLines(name, values, depth, placed)|)
    ensures Statements(LineStream(ValueLines(name, values, depth, placed), n, k), tree, at, depth, open, None, None)
         == Statements(k, WithChild(tree, at, name, Node(Settled(comment, placed), Values(had + set v | v in values))),
                       at, depth, open, None, None)
    decreases |values|
  {
    hide Statements, LineTokens, Mutate, Attach, WithChild, Get;
    if values == [] {
      assert had + (set v | v in values) == had;
      WithChildSame(tree, at, name);
    } else {
      var rest := ValueLines(name, values[1..], depth, Later(placed));
      var ts := LineStream(rest, n + 1, k);
      var words := [name, values[0]];
      var now := FirstSome(comment, Here(placed));
      var x := Node(now, Values(had + {values[0]}));
      var after := WithChild(tree, at, name, x);
      assert ValueLines(name, values, depth, placed) == [Setting(depth, words, Here(placed))] + rest;
      LineStreamConcat([Setting(depth, words, Here(placed))], rest, n, k);
      ProperValues(name, values[1..], depth, Later(placed));
      LineStreamStarts(rest, n + 1, k);
      SettingParse(words, Here(placed), n, ts, tree, at, depth, open, None, AddValue(values[0]));
      WithChildGet(tree, at, name, x);
      ValuesParse(name, values[1..], Later(placed), had + {values[0]}, now, n + 1, k, after, at, depth, open);
      assert had + {values[0]} + (set v | v in values[1..]) == had + (set v | v in values) by {
        assert values == [values[0]] + values[1..];
      }
      WithChildTwice(tree, at, name, x, Node(Settled(comment, placed), Values(had + set v | v in values)));
    }
  }

  lemma WithChildSame(tree: Node, at: Path, name: string)
    requires Get(tree, at).Some? && Get(tree, at).value.IsInterior()
    requires name in Get(tree, at).value.body.children
    ensures WithChild(tree, at, name, Get(tree, at).value.body.children[name]) == tree
  {
    var children := Get(tree, at).value.body.children;
    assert children[name := children[name]] == children;
    PutSame(tree, at);
  }

  /** The first value makes the leaf, the others join it. */
  lemma FirstValueParse(name: string, values: seq<string>, placed: Option<(nat, string)>, pending: Option<string>, m: nat, k: Stream,
                        tree: Node, at: Path, depth: nat, open: Option<Pos>)
    requires Get(tree, at).Some? && Get(tree, at).value.IsInterior() && name !in Get(tree, at).value.body.children
    requires values != [] && OnOneLine(placed) && (placed.Some? ==> pending.None? && placed.value.0 < |values|)
    requires StartsFrom(k, m + |ValueLines(name, values, depth, placed)|)
    ensures Statements(LineStream(ValueLines(name, values, depth, placed), m, k), tree, at, depth, open, pending, None) ==
            Statements(k, WithChild(tree, at, name, Node(Settled(pending, placed), Values(set v | v in values))), at, depth, open, None, None)
  {
    hide Statements, LineTokens, LineStream, Mutate, Attach, WithChild, Get;
    var rest := ValueLines(name, values[1..], depth, Later(placed));
    var ts := LineStream(rest, m + 1, k);
    var words := [name, values[0]];
    var now := FirstSome(pending, Here(placed));
    var x := Node(now, Values({values[0]}));
    var after := WithChild(tree, at, name, x);
    assert ValueLines(name, values, depth, placed) == [Setting(depth, words, Here(placed))] + rest;
    LineStreamConcat([Setting(depth, words, Here(placed))], rest, m, k);
    ProperValues(name, values[1..], depth, Later(placed));
    LineStreamStarts(rest, m + 1, k);
    SettingParse(words, Here(placed), m, ts, tree, at, depth, open, pending, AddValue(values[0]));
    WithChildGet(tree, at, name, x);
    hide ValueLines;
    ValuesParse(name, values[1..], Later(placed), {values[0]}, now, m + 1, k, after, at, depth, open);
    assert {values[0]} + (set v | v in values[1..]) == (set v | v in values) by {
      assert values == [values[0]] + values[1..];
    }
    WithChildTwice(tree, at, name, x, Node(Settled(pending, placed), Values(set v | v in values)));
  }

  /** The lines of a leaf, past any comment above it, leave the leaf in the tree. */
  lemma BareLeafParse(name: string, values: set<string>, placed: Option<(nat, string)>, pending: Option<string>, m: nat, k: Stream,
                      tree: Node, at: Path, depth: nat, open: Option<Pos>)
    requires Get(tree, at).Some? && Get(tree, at).value.IsInterior() && name !in Get(tree, at).value.body.children
    requires OnOneLine(placed) && (placed.Some? ==> pending.None? && placed.value.0 < Max(1, |values|))
    requires StartsFrom(k, m + |LeafLines(name, Sorted(values), depth, placed)|)
    ensures Statements(LineStream(LeafLines(name, Sorted(values), depth, placed), m, k), tree, at, depth, open, pending, None) ==
            Statements(k, WithChild(tree, at, name, Node(Settled(pending, placed), Values(values))), at, depth, open, None, None)
  {
    hide Statements, LineTokens, LineStream, Mutate, Attach, WithChild, Get, Sorted, ValueLines;
    var sorted := Sorted(values);
    assert values == set v | v in sorted;
    if sorted == [] {
      SettingParse([name], Here(placed), m, k, tree, at, depth, open, pending, DeclareLeaf);
      assert values == {};
    } else {
      FirstValueParse(name, sorted, placed, pending, m, k, tree, at, depth, open);
    }
  }

  lemma LineStreamNone(n: nat, k: Stream)
    ensures LineStream([], n, k) == k
  {
  }

  lemma LeafParse(name: string, node: Node, n: nat, k: Stream, tree: Node, at: Path, depth: nat, open: Option<Pos>,
                  layout: Layout)
    requires node.body.Values?
    requires Get(tree, at).Some? && Get(tree, at).value.IsInterior() && name !in Get(tree, at).value.body.children
    requires StartsFrom(k, n + |EntryLines(name, node, at + [name], depth, layout)|)
    ensures Statements(LineStream(EntryLines(name, node, at + [name], depth, layout), n, k), tree, at, depth, open, None, None)
         == Statements(k, WithChild(tree, at, name, node), at, depth, open, None, None)
  {
    hide Statements, LineTokens, LineStream, Mutate, Attach, WithChild, Get, Sorted, CommentLines, LeafLines;
    var placed := Placed(node, at + [name], layout);
    var above := if placed.Some? then None else node.comment;
    var comments, lines := CommentLines(above, depth), LeafLines(name, Sorted(node.body.values), depth, placed);
    assert EntryLines(name, node, at + [name], depth, layout) == comments + lines;
    LineStreamConcat(comments, lines, n, k);
    CommentParse(above, depth, n, LineStream(lines, n + |comments|, k), tree, at, depth, open);
    BareLeafParse(name, node.body.values, placed, above, n + |comments|, k, tree, at, depth, open);
  }
}
