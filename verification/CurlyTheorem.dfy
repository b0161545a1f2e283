/** The round-trip theorem and its exact condition. */
module CurlyTheorem {
  import opened Wrappers
  import opened Order
  import opened Lex
  import opened LexRoundTrip
  import opened Config
  import opened ConfigProofs
  import opened Curly
  import opened CurlyLines
  import opened CurlySteps
  import opened CurlyRoundTrip

  /** The parser is about to fill in `names` below the interior node at `at`. */
  ghost predicate Awaits(tree: Node, at: Path, names: seq<string>) {
    && Get(tree, at).Some? && Get(tree, at).value.IsInterior() && Distinct(names)
    && forall i :: 0 <= i < |names| ==> names[i] !in Get(tree, at).value.body.children
  }

  lemma AwaitsRest(tree: Node, at: Path, names: seq<string>, x: Node)
    requires Awaits(tree, at, names) && names != []
    ensures Awaits(WithChild(tree, at, names[0], x), at, names[1..])
  {
    WithChildGet(tree, at, names[0], x);
  }

  lemma ChildLinesCons(node: Node, names: seq<string>, at: Path, depth: nat, layout: Layout, n: nat, k: Stream)
    requires Below(node, names) && names != []
    ensures var entry := EntryLines(names[0], node.body.children[names[0]], at + [names[0]], depth, layout);
            var rest := ChildLines(node, names[1..], at, depth, layout);
            && |ChildLines(node, names, at, depth, layout)| == |entry| + |rest|
            && LineStream(ChildLines(node, names, at, depth, layout), n, k)
               == LineStream(entry, n, LineStream(rest, n + |entry|, k))
            && (StartsFrom(k, n + |entry| + |rest|) ==> StartsFrom(LineStream(rest, n + |entry|, k), n + |entry|))
  {
    hide EntryLines, LineStream;
    var entry := EntryLines(names[0], node.body.children[names[0]], at + [names[0]], depth, layout);
    var rest := ChildLines(node, names[1..], at, depth, layout);
    LineStreamConcat(entry, rest, n, k);
    if StartsFrom(k, n + |entry| + |rest|) {
      ProperChildren(node, names[1..], at, depth, layout);
      LineStreamStarts(rest, n + |entry|, k);
    }
  }

  lemma {:induction false} ChildrenParse(node: Node, names: seq<string>, layout: Layout, n: nat, k: Stream,
                                         tree: Node, at: Path, depth: nat, open: Option<Pos>)
    requires Below(node, names) && Awaits(tree, at, names)
    requires depth + ChildNesting(node, names, at, layout.tags) <= MAX_DEPTH
    requires StartsFrom(k, n + |ChildLines(node, names, at, depth, layout)|)
    ensures Statements(LineStream(ChildLines(node, names, at, depth, layout), n, k), tree, at, depth, open, None, None)
         == Statements(k, WithAll(tree, at, Pick(node, names)), at, depth, open, None, None)
    decreases node, 0, |names|
  {
    hide Statements, LineStream, WithAll, WithChild, Get, EntryLines, EntryNesting;
    if names == [] {
      LineStreamNone(n, k);
      WithAllNone(tree, at);
      assert Pick(node, names) == map[];
    } else {
      var child := node.body.children[names[0]];
      var m := n + |EntryLines(names[0], child, at + [names[0]], depth, layout)|;
      var ts := LineStream(ChildLines(node, names[1..], at, depth, layout), m, k);
      ChildLinesCons(node, names, at, depth, layout, n, k);
      EntryParse(names[0], child, layout, n, ts, tree, at, depth, open);
      AwaitsRest(tree, at, names, child);
      ChildrenParse(node, names[1..], layout, m, k, WithChild(tree, at, names[0], child), at, depth, open);
      WithAllCons(tree, at, node, names);
    }
  }

  lemma {:induction false} EntryParse(name: string, node: Node, layout: Layout, n: nat, k: Stream,
                                      tree: Node, at: Path, depth: nat, open: Option<Pos>)
    requires Awaits(tree, at, [name])
    requires depth + EntryNesting(node, at + [name], layout.tags) <= MAX_DEPTH
    requires StartsFrom(k, n + |EntryLines(name, node, at + [name], depth, layout)|)
    ensures Statements(LineStream(EntryLines(name, node, at + [name], depth, layout), n, k), tree, at, depth, open, None, None)
         == Statements(k, WithChild(tree, at, name, node), at, depth, open, None, None)
    decreases node, 1, 0
  {
    hide Statements, LineStream, WithAll, WithChild, Get, ChildLines, CommentLines, Pick;
    assert name !in Get(tree, at).value.body.children by { assert [name][0] == name; }
    if node.body.Values? {
      LeafParse(name, node, n, k, tree, at, depth, open, layout);
    } else if Compact(node, at + [name], layout.tags) {
      NamesDistinct(node);
      InstancesParse(name, node, Names(node), map[], layout, n, k, tree, at, depth, open);
      assert map[] + Pick(node, Names(node)) == node.body.children by { PickAll(node); }
    } else {
      MutateChild(tree, at, name, EnsureInterior);
      AttachChild(tree, at, name, EMPTY_INTERIOR, node.comment);
      FillChild(tree, at, name, node);
      InnerParse(node, [name], layout, n, k, tree, at, depth, open,
                 WithChild(tree, at, name, EMPTY_INTERIOR), WithChild(tree, at, name, node));
    }
  }

  lemma PickAll(node: Node)
    requires node.IsInterior()
    ensures map[] + Pick(node, Names(node)) == node.body.children
  {
  }

  lemma NamesDistinct(node: Node)
    requires node.IsInterior()
    ensures Distinct(Names(node))
  {
    SortedIsSorted(node.body.children.Keys);
  }

  /** A block written for `node` under `words` fills the node it entered. */
  lemma {:induction false} InnerParse(node: Node, words: seq<string>, layout: Layout, n: nat, k: Stream,
                     tree: Node, at: Path, depth: nat, open: Option<Pos>, entered: Node, filled: Node)
    requires node.IsInterior() && words != []
    requires Mutate(tree, at + words, EnsureInterior) == (entered, None)
    requires var begun := Attach(entered, at + words, node.comment);
             && Get(begun, at + words) == Some(Node(node.comment, Interior(map[])))
             && WithAll(begun, at + words, Pick(node, Names(node))) == filled
    requires depth + 1 + ChildNesting(node, Names(node), at + words, layout.tags) <= MAX_DEPTH
    ensures var inner := ChildLines(node, Names(node), at + words, depth + 1, layout);
            Statements(LineStream(BlockLines(node.comment, words, inner, depth), n, k), tree, at, depth, open, None, None) ==
            Statements(k, filled, at, depth, open, None, None)
    decreases node, 0, |Names(node)| + 1
  {
    hide Statements, LineStream, WithAll, Get, ChildLines, CommentLines, Attach, Mutate, BlockLines, WordsText,
         ChildNesting;
    var inner := ChildLines(node, Names(node), at + words, depth + 1, layout);
    var m := n + |CommentLines(node.comment, depth)|;
    var close := CloseAt(depth, m + 1 + |inner|);
    var begun := Attach(entered, at + words, node.comment);
    var brace := BraceAt(words, depth, m);
    NamesDistinct(node);
    ChildrenParse(node, Names(node), layout, m + 1, More(close, k), begun, at + words, depth + 1, Some(brace));
    StepClose(close, k, filled, at + words, depth + 1, brace);
    BlockParse(node.comment, words, inner, n, k, tree, at, depth, open, entered, filled);
  }

  // ----- the compact form ------------------------------------------------

  /** What `name` holds while its instances are being read: absent before the first. */
  ghost predicate HoldsInstances(tree: Node, at: Path, name: string, had: map<string, Node>) {
    && Get(tree, at).Some? && Get(tree, at).value.IsInterior()
    && match Slot(Get(tree, at).value.body.children, name)
       case None => had == map[]
       case Some(node) => node == Node(None, Interior(had))
  }

  lemma EnterInstance(tree: Node, at: Path, name: string, had: map<string, Node>, key: string)
    requires HoldsInstances(tree, at, name, had) && key !in had
    ensures Mutate(tree, at + [name, key], EnsureInterior)
         == (WithChild(tree, at, name, Node(None, Interior(had[key := EMPTY_INTERIOR]))), None)
  {
    WalkBelow(tree, at, [name, key], [], at + [name, key], EnsureInterior);
    var here := Get(tree, at).value;
    var x := Node(None, Interior(had));
    assert [name, key][1..] == [key];
    assert Walk(x, [key], at + [name], at + [name, key], EnsureInterior)
        == (Node(None, Interior(had[key := EMPTY_INTERIOR])), None);
  }

  lemma FillInstance(tree: Node, at: Path, name: string, had: map<string, Node>, key: string, instance: Node)
    requires HoldsInstances(tree, at, name, had) && key !in had && instance.IsInterior()
    ensures var entered := WithChild(tree, at, name, Node(None, Interior(had[key := EMPTY_INTERIOR])));
            var begun := Attach(entered, at + [name, key], instance.comment);
            && Get(begun, at + [name, key]) == Some(Node(instance.comment, Interior(map[])))
            && WithAll(begun, at + [name, key], Pick(instance, Names(instance)))
               == WithChild(tree, at, name, Node(None, Interior(had[key := instance])))
  {
    hide Get, Put, WithChild;
    var x := Node(None, Interior(had[key := EMPTY_INTERIOR]));
    var empty := Node(instance.comment, Interior(map[]));
    var y := Node(None, Interior(had[key := empty]));
    assert at + [name, key] == at + [name] + [key];
    PutOne(x, key, empty);
    PutOne(y, key, instance);
    PutChild(tree, at, name, x, [key], empty);
    PutChild(tree, at, name, y, [key], instance);
    assert had[key := EMPTY_INTERIOR][key := empty] == had[key := empty];
    assert had[key := empty][key := instance] == had[key := instance];
    PickAll(instance);
  }

  lemma PutOne(node: Node, key: string, y: Node)
    requires node.IsInterior() && key in node.body.children
    ensures Get(node, [key]) == Some(node.body.children[key])
    ensures Put(node, [key], y) == Node(node.comment, Interior(node.body.children[key := y]))
  {
    assert [key][1..] == [];
  }

  lemma HoldsMore(tree: Node, at: Path, name: string, had: map<string, Node>, key: string, instance: Node)
    requires HoldsInstances(tree, at, name, had)
    ensures HoldsInstances(WithChild(tree, at, name, Node(None, Interior(had[key := instance]))), at, name,
                           had[key := instance])
  {
    WithChildGet(tree, at, name, Node(None, Interior(had[key := instance])));
  }

  lemma InstanceLinesCons(name: string, node: Node, keys: seq<string>, path: Path, depth: nat, layout: Layout,
                          n: nat, k: Stream)
    requires Below(node, keys) && AllInterior(node.body.children) && keys != []
    ensures var instance := node.body.children[keys[0]];
            var inner := ChildLines(instance, Names(instance), path + [keys[0]], depth + 1, layout);
            var block := BlockLines(instance.comment, [name, keys[0]], inner, depth);
            var rest := InstanceLines(name, node, keys[1..], path, depth, layout);
            LineStream(InstanceLines(name, node, keys, path, depth, layout), n, k) ==
            LineStream(block, n, LineStream(rest, n + |block|, k))
  {
    hide ChildLines, LineStream, BlockLines;
    var instance := node.body.children[keys[0]];
    var inner := ChildLines(instance, Names(instance), path + [keys[0]], depth + 1, layout);
    var block := BlockLines(instance.comment, [name, keys[0]], inner, depth);
    var rest := InstanceLines(name, node, keys[1..], path, depth, layout);
    LineStreamConcat(block, rest, n, k);
  }

  lemma {:induction false} InstanceParse(name: string, key: string, instance: Node, had: map<string, Node>,
                         layout: Layout, n: nat, k: Stream, tree: Node, at: Path, depth: nat, open: Option<Pos>)
    requires HoldsInstances(tree, at, name, had) && key !in had && instance.IsInterior()
    requires depth + 1 + ChildNesting(instance, Names(instance), at + [name] + [key], layout.tags) <= MAX_DEPTH
    ensures var inner := ChildLines(instance, Names(instance), at + [name] + [key], depth + 1, layout);
            var after := WithChild(tree, at, name, Node(None, Interior(had[key := instance])));
            && Statements(LineStream(BlockLines(instance.comment, [name, key], inner, depth), n, k), tree, at, depth, open, None, None)
               == Statements(k, after, at, depth, open, None, None)
            && HoldsInstances(after, at, name, had[key := instance])
    decreases instance, 0, |Names(instance)| + 2
  {
    hide Statements, LineStream, WithAll, WithChild, Get, ChildLines, CommentLines, ChildNesting, BlockLines,
         Attach, Mutate;
    assert at + [name, key] == at + [name] + [key];
    EnterInstance(tree, at, name, had, key);
    FillInstance(tree, at, name, had, key, instance);
    InnerParse(instance, [name, key], layout, n, k, tree, at, depth, open,
               WithChild(tree, at, name, Node(None, Interior(had[key := EMPTY_INTERIOR]))),
               WithChild(tree, at, name, Node(None, Interior(had[key := instance]))));
    HoldsMore(tree, at, name, had, key, instance);
  }

  lemma {:induction false} InstancesParse(name: string, node: Node, keys: seq<string>, had: map<string, Node>,
                         layout: Layout, n: nat, k: Stream, tree: Node, at: Path, depth: nat, open: Option<Pos>)
    requires Below(node, keys) && AllInterior(node.body.children) && (had == map[] ==> keys != [])
    requires Distinct(keys) && forall i :: 0 <= i < |keys| ==> keys[i] !in had
    requires HoldsInstances(tree, at, name, had)
    requires depth + InstanceNesting(node, keys, at + [name], layout.tags) <= MAX_DEPTH
    ensures Statements(LineStream(InstanceLines(name, node, keys, at + [name], depth, layout), n, k), tree, at, depth, open, None, None)
         == Statements(k, WithChild(tree, at, name, Node(None, Interior(had + Pick(node, keys)))), at, depth, open, None, None)
    decreases node, 0, |keys|
  {
    hide Statements, LineStream, WithChild, Get, ChildLines, ChildNesting, BlockLines, Pick, InstanceLines;
    hide Names, Sorted, Slot;
    if keys == [] {
      assert keys == [];
      NoInstances(name, node, had, layout, n, k, tree, at, depth);
    } else {
      var key, instance := keys[0], node.body.children[keys[0]];
      var inner := ChildLines(instance, Names(instance), at + [name] + [key], depth + 1, layout);
      var m := n + |BlockLines(instance.comment, [name, key], inner, depth)|;
      var ts := LineStream(InstanceLines(name, node, keys[1..], at + [name], depth, layout), m, k);
      var x := Node(None, Interior(had[key := instance]));
      InstanceLinesCons(name, node, keys, at + [name], depth, layout, n, k);
      InstanceParse(name, key, instance, had, layout, n, ts, tree, at, depth, open);
      assert key in had[key := instance];
      InstancesParse(name, node, keys[1..], had[key := instance], layout, m, k, WithChild(tree, at, name, x), at, depth, open);
      PickCons(node, keys, had);
      WithChildTwice(tree, at, name, x, Node(None, Interior(had + Pick(node, keys))));
      assert LineStream(InstanceLines(name, node, keys, at + [name], depth, layout), n, k)
          == LineStream(BlockLines(instance.comment, [name, key], inner, depth), n, ts);
    }
  }

  lemma NoInstances(name: string, node: Node, had: map<string, Node>, layout: Layout, n: nat, k: Stream,
                    tree: Node, at: Path, depth: nat)
    requires node.IsInterior() && AllInterior(node.body.children)
    requires HoldsInstances(tree, at, name, had) && had != map[]
    ensures LineStream(InstanceLines(name, node, [], at + [name], depth, layout), n, k) == k
    ensures WithChild(tree, at, name, Node(None, Interior(had + Pick(node, [])))) == tree
  {
    assert had + Pick(node, []) == had;
    WithChildSame(tree, at, name);
  }

  lemma PickCons(node: Node, keys: seq<string>, had: map<string, Node>)
    requires Below(node, keys) && keys != []
    ensures had[keys[0] := node.body.children[keys[0]]] + Pick(node, keys[1..]) == had + Pick(node, keys)
  {
    assert keys == [keys[0]] + keys[1..];
  }
}
