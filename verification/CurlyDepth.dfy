/** When the braces go too deep, and the round trip stated exactly. */
module CurlyDepth {
  import opened Wrappers
  import opened Order
  import opened Lex
  import opened LexRoundTrip
  import opened Config
  import opened ConfigProofs
  import opened Curly
  import opened CurlyLines
  import opened CurlySteps
  import opened CurlyRoundTrip
  import opened CurlyTheorem

  predicate TooDeepError(r: Result<(Node, Stream), ParseError>) {
    r.Err? && r.error.TooDeep?
  }

  lemma {:induction false} BlockTooDeep(node: Node, words: seq<string>, layout: Layout, n: nat, k: Stream,
                       tree: Node, at: Path, depth: nat, open: Option<Pos>, entered: Node)
    requires node.IsInterior() && words != [] && depth <= MAX_DEPTH
    requires Mutate(tree, at + words, EnsureInterior) == (entered, None)
    requires Get(Attach(entered, at + words, node.comment), at + words) == Some(Node(node.comment, Interior(map[])))
    requires depth + 1 + ChildNesting(node, Names(node), at + words, layout.tags) > MAX_DEPTH
    ensures var inner := ChildLines(node, Names(node), at + words, depth + 1, layout);
            TooDeepError(Statements(LineStream(BlockLines(node.comment, words, inner, depth), n, k), tree, at, depth, open, None, None))
    decreases node, 0, |Names(node)| + 1
  {
    hide Statements, LineStream, Get, ChildLines, CommentLines, Attach, Mutate, BlockLines, WordsText, WordTokens,
         ChildNesting;
    hide Names, Sorted;
    var inner := ChildLines(node, Names(node), at + words, depth + 1, layout);
    var m := n + |CommentLines(node.comment, depth)|;
    var close := CloseAt(depth, m + 1 + |inner|);
    var begun := Attach(entered, at + words, node.comment);
    var pos, brace := Pos(m, 4 * depth + 1), BraceAt(words, depth, m);
    var inside := LineStream(inner, m + 1, More(close, k));
    var ts := Prepend(WordTokens(words, pos) + [Spanned(Open, brace)], inside);
    BlockStream(node.comment, words, inner, depth, n, k);
    CommentParse(node.comment, depth, n, ts, tree, at, depth, open);
    StepHeader(words, pos, brace, inside, tree, at, depth, open, node.comment, entered);
    if depth < MAX_DEPTH {
      NamesDistinct(node);
      ChildrenTooDeep(node, Names(node), layout, m + 1, More(close, k), begun, at + words, depth + 1, Some(brace));
    }
  }

  lemma {:induction false} ChildrenTooDeep(node: Node, names: seq<string>, layout: Layout, n: nat, k: Stream,
                                           tree: Node, at: Path, depth: nat, open: Option<Pos>)
    requires Below(node, names) && Awaits(tree, at, names) && depth <= MAX_DEPTH
    requires depth + ChildNesting(node, names, at, layout.tags) > MAX_DEPTH
    requires StartsFrom(k, n + |ChildLines(node, names, at, depth, layout)|)
    ensures TooDeepError(Statements(LineStream(ChildLines(node, names, at, depth, layout), n, k), tree, at, depth, open, None, None))
    decreases node, 0, |names|
  {
    hide Statements, LineStream, WithChild, Get, EntryLines, EntryNesting;
    var child := node.body.children[names[0]];
    var m := n + |EntryLines(names[0], child, at + [names[0]], depth, layout)|;
    var ts := LineStream(ChildLines(node, names[1..], at, depth, layout), m, k);
    ChildLinesCons(node, names, at, depth, layout, n, k);
    if depth + EntryNesting(child, at + [names[0]], layout.tags) <= MAX_DEPTH {
      EntryParse(names[0], child, layout, n, ts, tree, at, depth, open);
      AwaitsRest(tree, at, names, child);
      ChildrenTooDeep(node, names[1..], layout, m, k, WithChild(tree, at, names[0], child), at, depth, open);
    } else {
      EntryTooDeep(names[0], child, layout, n, ts, tree, at, depth, open);
    }
  }

  lemma {:induction false} EntryTooDeep(name: string, node: Node, layout: Layout, n: nat, k: Stream,
                                        tree: Node, at: Path, depth: nat, open: Option<Pos>)
    requires Awaits(tree, at, [name]) && depth <= MAX_DEPTH
    requires depth + EntryNesting(node, at + [name], layout.tags) > MAX_DEPTH
    ensures TooDeepError(Statements(LineStream(EntryLines(name, node, at + [name], depth, layout), n, k), tree, at, depth, open, None, None))
    decreases node, 1, 0
  {
    hide Statements, LineStream, WithAll, WithChild, Get, ChildLines, CommentLines, Pick;
    assert name !in Get(tree, at).value.body.children by { assert [name][0] == name; }
    if Compact(node, at + [name], layout.tags) {
      NamesDistinct(node);
      InstancesTooDeep(name, node, Names(node), map[], layout, n, k, tree, at, depth, open);
    } else {
      MutateChild(tree, at, name, EnsureInterior);
      AttachChild(tree, at, name, EMPTY_INTERIOR, node.comment);
      FillChild(tree, at, name, node);
      BlockTooDeep(node, [name], layout, n, k, tree, at, depth, open, WithChild(tree, at, name, EMPTY_INTERIOR));
    }
  }

  lemma {:induction false} InstancesTooDeep(name: string, node: Node, keys: seq<string>, had: map<string, Node>,
                           layout: Layout, n: nat, k: Stream, tree: Node, at: Path, depth: nat, open: Option<Pos>)
    requires Below(node, keys) && AllInterior(node.body.children) && depth <= MAX_DEPTH
    requires Distinct(keys) && forall i :: 0 <= i < |keys| ==> keys[i] !in had
    requires HoldsInstances(tree, at, name, had)
    requires depth + InstanceNesting(node, keys, at + [name], layout.tags) > MAX_DEPTH
    ensures TooDeepError(Statements(LineStream(InstanceLines(name, node, keys, at + [name], depth, layout), n, k), tree, at, depth, open, None, None))
    decreases node, 0, |keys|
  {
    hide Statements, LineStream, WithChild, Get, ChildLines, ChildNesting, BlockLines, InstanceLines, Mutate,
         Attach, WithAll;
    hide Names, Sorted, Slot;
    var key, instance := keys[0], node.body.children[keys[0]];
    var inner := ChildLines(instance, Names(instance), at + [name] + [key], depth + 1, layout);
    var m := n + |BlockLines(instance.comment, [name, key], inner, depth)|;
    var ts := LineStream(InstanceLines(name, node, keys[1..], at + [name], depth, layout), m, k);
    InstanceLinesCons(name, node, keys, at + [name], depth, layout, n, k);
    if depth + 1 + ChildNesting(instance, Names(instance), at + [name] + [key], layout.tags) <= MAX_DEPTH {
      InstanceParse(name, key, instance, had, layout, n, ts, tree, at, depth, open);
      InstancesTooDeep(name, node, keys[1..], had[key := instance], layout, m, k,
                       WithChild(tree, at, name, Node(None, Interior(had[key := instance]))), at, depth, open);
    } else {
      assert at + [name, key] == at + [name] + [key];
      EnterInstance(tree, at, name, had, key);
      FillInstance(tree, at, name, had, key, instance);
      BlockTooDeep(instance, [name, key], layout, n, ts, tree, at, depth, open,
                   WithChild(tree, at, name, Node(None, Interior(had[key := EMPTY_INTERIOR]))));
    }
  }

  // ----- the theorem -----------------------------------------------------

  lemma DocumentReads(tree: Node, layout: Layout)
    requires tree.IsInterior()
    ensures Tokens(Start(RenderAs(tree, layout))) == LineStream(ChildLines(tree, Names(tree), [], 0, layout), 1, End)
  {
    hide Tokens, LineStream, ChildLines, LinesText, Names;
    ProperChildren(tree, Names(tree), [], 0, layout);
    LinesRead(ChildLines(tree, Names(tree), [], 0, layout), 1);
  }

  lemma ParseShallow(tree: Node, layout: Layout)
    requires tree.IsInterior() && Nesting(tree, layout.tags) <= MAX_DEPTH
    ensures Parse(RenderAs(tree, layout)) == Ok(tree.(comment := None))
  {
    hide Tokens, LineStream, ChildLines, LinesText, Names, RenderAs, ChildNesting, Sorted, Pick;
    DocumentReads(tree, layout);
    NamesDistinct(tree);
    ChildrenParse(tree, Names(tree), layout, 1, End, EMPTY_INTERIOR, [], 0, None);
    PickAll(tree);
    assert WithAll(EMPTY_INTERIOR, [], Pick(tree, Names(tree))) == tree.(comment := None);
  }

  lemma ParseDeep(tree: Node, layout: Layout)
    requires tree.IsInterior() && Nesting(tree, layout.tags) > MAX_DEPTH
    ensures Parse(RenderAs(tree, layout)).Err? && Parse(RenderAs(tree, layout)).error.TooDeep?
  {
    hide Tokens, LineStream, ChildLines, LinesText, Names, RenderAs, ChildNesting, Sorted, Statements;
    DocumentReads(tree, layout);
    NamesDistinct(tree);
    ChildrenTooDeep(tree, Names(tree), layout, 1, End, EMPTY_INTERIOR, [], 0, None);
  }

  /** For every tree and every layout, comments above their settings or beside any of their
      lines: the document reads back as the same tree exactly when the root carries no
      comment and the braces nest at most `MAX_DEPTH` deep; otherwise what is lost is the
      root comment, or the document is refused as too deep. */
  lemma LayoutRoundTripIff(tree: Node, layout: Layout)
    requires tree.IsInterior()
    ensures Parse(RenderAs(tree, layout)) == Ok(tree) <==> tree.comment.None? && Nesting(tree, layout.tags) <= MAX_DEPTH
    ensures Nesting(tree, layout.tags) <= MAX_DEPTH ==> Parse(RenderAs(tree, layout)) == Ok(tree.(comment := None))
    ensures Nesting(tree, layout.tags) > MAX_DEPTH ==>
              Parse(RenderAs(tree, layout)).Err? && Parse(RenderAs(tree, layout)).error.TooDeep?
  {
    hide Parse, RenderAs, Nesting;
    if Nesting(tree, layout.tags) <= MAX_DEPTH {
      ParseShallow(tree, layout);
    } else {
      ParseDeep(tree, layout);
    }
  }

  /** The same of the rendering the program writes. */
  lemma RoundTripIff(tree: Node, tags: Path -> bool)
    requires tree.IsInterior()
    ensures Parse(Render(tree, tags)) == Ok(tree) <==> tree.comment.None? && Nesting(tree, tags) <= MAX_DEPTH
    ensures Nesting(tree, tags) <= MAX_DEPTH ==> Parse(Render(tree, tags)) == Ok(tree.(comment := None))
    ensures Nesting(tree, tags) > MAX_DEPTH ==>
              Parse(Render(tree, tags)).Err? && Parse(Render(tree, tags)).error.TooDeep?
  {
    hide Parse, RenderAs, Nesting;
    LayoutRoundTripIff(tree, Plain(tags));
  }

  /** A document reads the same whichever comments are written beside their settings. */
  lemma BesideIsAbove(tree: Node, tags: Path -> bool, beside: Path -> Option<nat>)
    requires tree.IsInterior() && Nesting(tree, tags) <= MAX_DEPTH
    ensures Parse(RenderAs(tree, Layout(tags, beside))) == Parse(Render(tree, tags))
  {
    hide Parse, RenderAs, Nesting;
    LayoutRoundTripIff(tree, Layout(tags, beside));
    LayoutRoundTripIff(tree, Plain(tags));
  }

  /** Saving twice gives the same bytes, whatever oracle the first save used. */
  lemma RenderStable(tree: Node, tags: Path -> bool, again: Path -> bool)
    requires tree.IsInterior() && Nesting(tree, tags) <= MAX_DEPTH
    ensures Parse(Render(tree, tags)).Ok?
    ensures Render(Parse(Render(tree, tags)).value, again) == Render(tree, again)
  {
    hide Parse, Nesting;
    ParseShallow(tree, Plain(tags));
    RenderIgnoresRootComment(tree, again);
  }

  lemma RenderIgnoresRootComment(tree: Node, tags: Path -> bool)
    requires tree.IsInterior()
    ensures Render(tree.(comment := None), tags) == Render(tree, tags)
  {
    ChildLinesIgnoreComment(tree, Names(tree), Plain(tags));
  }

  lemma {:induction false} ChildLinesIgnoreComment(tree: Node, names: seq<string>, layout: Layout)
    requires Below(tree, names)
    ensures ChildLines(tree.(comment := None), names, [], 0, layout) == ChildLines(tree, names, [], 0, layout)
    decreases |names|
  {
    if names != [] {
      ChildLinesIgnoreComment(tree, names[1..], layout);
    }
  }
}
