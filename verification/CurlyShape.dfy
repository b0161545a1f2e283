/** What a rendered document looks like: which blocks are written compactly, and in which
    order everything comes. The parser does not care; a reader and a diff do. */
module CurlyShape {
  import opened Wrappers
  import Text
  import opened Order
  import opened Config
  import opened Curly

  /** The names under which something is written at one level of indentation: the words of
      its headers and settings. */
  function Written(lines: seq<Line>, depth: nat): seq<seq<string>> {
    if lines == [] then []
    else (if (lines[0].Header? || lines[0].Setting?) && lines[0].depth == depth then [lines[0].words] else [])
         + Written(lines[1..], depth)
  }

  ghost predicate Deep(lines: seq<Line>, depth: nat) {
    forall i :: 0 <= i < |lines| ==> lines[i].depth >= depth
  }

  lemma {:induction false} WrittenConcat(a: seq<Line>, b: seq<Line>, depth: nat)
    ensures Written(a + b, depth) == Written(a, depth) + Written(b, depth)
  {
    if a == [] {
      assert a + b == b;
    } else {
      assert (a + b)[1..] == a[1..] + b;
      WrittenConcat(a[1..], b, depth);
    }
  }

  lemma {:induction false} DeepWrites(lines: seq<Line>, depth: nat)
    requires Deep(lines, depth + 1)
    ensures Written(lines, depth) == []
  {
    if lines != [] {
      assert lines[0].depth >= depth + 1;
      DeepWrites(lines[1..], depth);
    }
  }

  lemma {:induction false} NotesWrite(texts: seq<string>, depth: nat)
    ensures Written(NoteLines(texts, depth), depth) == [] && Deep(NoteLines(texts, depth), depth)
  {
    if texts != [] { NotesWrite(texts[1..], depth); }
  }

  lemma CommentWrites(comment: Option<string>, depth: nat)
    ensures Written(CommentLines(comment, depth), depth) == [] && Deep(CommentLines(comment, depth), depth)
  {
    if comment.Some? { NotesWrite(Text.SplitOn(comment.value, '\n'), depth); }
  }

  lemma BlockWrites(comment: Option<string>, words: seq<string>, inner: seq<Line>, depth: nat)
    requires Deep(inner, depth + 1)
    ensures Written(BlockLines(comment, words, inner, depth), depth) == [words] && Deep(BlockLines(comment, words, inner, depth), depth)
  {
    hide CommentLines;
    var comments := CommentLines(comment, depth);
    CommentWrites(comment, depth);
    DeepWrites(inner, depth);
    WrittenConcat(comments + [Header(depth, words)] + inner, [Footer(depth)], depth);
    WrittenConcat(comments + [Header(depth, words)], inner, depth);
    WrittenConcat(comments, [Header(depth, words)], depth);
    OneWrites(Header(depth, words), depth);
    OneWrites(Footer(depth), depth);
  }

  lemma OneWrites(l: Line, depth: nat)
    ensures Written([l], depth) == if (l.Header? || l.Setting?) && l.depth == depth then [l.words] else []
  {
    assert [l][1..] == [];
  }

  function Pairs(name: string, values: seq<string>): seq<seq<string>> {
    if values == [] then [] else [[name, values[0]]] + Pairs(name, values[1..])
  }

  lemma {:induction false} ValuesWrite(name: string, values: seq<string>, depth: nat, placed: Option<(nat, string)>)
    ensures Written(ValueLines(name, values, depth, placed), depth) == Pairs(name, values)
    ensures Deep(ValueLines(name, values, depth, placed), depth)
  {
    if values != [] { ValuesWrite(name, values[1..], depth, Later(placed)); }
  }

  /** What an entry is written under: a leaf once with its name alone, or once for each of
      its values; a block under its name; and a tag node without a comment, if it holds
      instances and nothing else, once for each instance, under its name and the
      instance's. */
  function EntryHeads(name: string, node: Node, path: Path, tags: Path -> bool): seq<seq<string>> {
    match node.body
    case Values(values) => if values == {} then [[name]] else Pairs(name, Sorted(values))
    case Interior(children) =>
      if tags(path) && node.comment.None? && children != map[] && (forall k | k in children :: children[k].body.Interior?)
      then Pairs(name, Sorted(children.Keys)) else [[name]]
  }

  lemma {:induction false} EntryWrites(name: string, node: Node, path: Path, depth: nat, layout: Layout)
    ensures Written(EntryLines(name, node, path, depth, layout), depth) == EntryHeads(name, node, path, layout.tags)
    ensures Deep(EntryLines(name, node, path, depth, layout), depth)
    decreases node, 1, 0
  {
    hide ChildLines, CommentLines, BlockLines, Sorted, ValueLines, Names;
    match node.body {
      case Values(values) =>
        var placed := Placed(node, path, layout);
        CommentWrites(if placed.Some? then None else node.comment, depth);
        ValuesWrite(name, Sorted(values), depth, placed);
        OneWrites(Setting(depth, [name], Here(placed)), depth);
        WrittenConcat(CommentLines(if placed.Some? then None else node.comment, depth), LeafLines(name, Sorted(values), depth, placed), depth);
        assert Sorted(values) == [] <==> values == {} by { assert |Sorted(values)| == |values|; }
      case Interior(children) =>
        if Compact(node, path, layout.tags) {
          InstancesWrite(name, node, Names(node), path, depth, layout);
          NamesAre(node);
        } else {
          ChildrenDeep(node, Names(node), path, depth + 1, layout);
          BlockWrites(node.comment, [name], ChildLines(node, Names(node), path, depth + 1, layout), depth);
        }
    }
  }

  lemma NamesAre(node: Node)
    requires node.IsInterior()
    ensures Names(node) == Sorted(node.body.children.Keys)
  {
  }

  lemma {:induction false} ChildrenDeep(node: Node, names: seq<string>, at: Path, depth: nat, layout: Layout)
    requires Below(node, names)
    ensures Deep(ChildLines(node, names, at, depth, layout), depth)
    decreases node, 0, |names|
  {
    hide EntryLines;
    if names != [] {
      EntryWrites(names[0], node.body.children[names[0]], at + [names[0]], depth, layout);
      ChildrenDeep(node, names[1..], at, depth, layout);
    }
  }

  lemma {:induction false} InstancesWrite(name: string, node: Node, keys: seq<string>, path: Path, depth: nat, layout: Layout)
    requires Below(node, keys) && AllInterior(node.body.children)
    ensures Written(InstanceLines(name, node, keys, path, depth, layout), depth) == Pairs(name, keys)
    ensures Deep(InstanceLines(name, node, keys, path, depth, layout), depth)
    decreases node, 0, |keys|
  {
    hide ChildLines, CommentLines, BlockLines, Names;
    if keys != [] {
      var instance := node.body.children[keys[0]];
      var inner := ChildLines(instance, Names(instance), path + [keys[0]], depth + 1, layout);
      ChildrenDeep(instance, Names(instance), path + [keys[0]], depth + 1, layout);
      BlockWrites(instance.comment, [name, keys[0]], inner, depth);
      InstancesWrite(name, node, keys[1..], path, depth, layout);
      WrittenConcat(BlockLines(instance.comment, [name, keys[0]], inner, depth), InstanceLines(name, node, keys[1..], path, depth, layout), depth);
    }
  }

  /** What the children of a node are written under, one after another. */
  function ChildHeads(node: Node, names: seq<string>, at: Path, tags: Path -> bool): seq<seq<string>>
    requires Below(node, names)
  {
    if names == [] then []
    else EntryHeads(names[0], node.body.children[names[0]], at + [names[0]], tags) + ChildHeads(node, names[1..], at, tags)
  }

  lemma {:induction false} ChildrenWrite(node: Node, names: seq<string>, at: Path, depth: nat, layout: Layout)
    requires Below(node, names)
    ensures Written(ChildLines(node, names, at, depth, layout), depth) == ChildHeads(node, names, at, layout.tags)
    decreases |names|
  {
    hide EntryLines, EntryHeads;
    if names != [] {
      var child := node.body.children[names[0]];
      EntryWrites(names[0], child, at + [names[0]], depth, layout);
      ChildrenWrite(node, names[1..], at, depth, layout);
      WrittenConcat(EntryLines(names[0], child, at + [names[0]], depth, layout), ChildLines(node, names[1..], at, depth, layout), depth);
    }
  }

  /** The top level of every document: each child once under what it is written under, in
      the order of the names, and in that of the values and instances within. */
  lemma DocumentWrites(tree: Node, layout: Layout)
    requires tree.IsInterior()
    ensures var names := Sorted(tree.body.children.Keys);
            && Distinct(names) && (forall i, j :: 0 <= i <= j < |names| ==> Leq(names[i], names[j]))
            && (forall n :: n in names <==> n in tree.body.children)
            && Written(DocumentLines(tree, layout), 0) == ChildHeads(tree, names, [], layout.tags)
  {
    SortedIsSorted(tree.body.children.Keys);
    hide ChildLines, Sorted, Leq, ChildHeads;
    NamesAre(tree);
    ChildrenWrite(tree, Sorted(tree.body.children.Keys), [], 0, layout);
  }
}
