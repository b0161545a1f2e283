/** The renderer as it is written: loops that append to one output string. */
module CurlyRenderer {
  import opened Wrappers
  import opened Text
  import opened Order
  import opened Lex
  import opened LexRoundTrip
  import opened Config
  import opened Curly
  import Tokeniser

  lemma {:induction false} LinesTextConcat(a: seq<Line>, b: seq<Line>)
    ensures LinesText(a + b) == LinesText(a) + LinesText(b)
  {
    if a == [] {
      assert a + b == b;
    } else {
      assert (a + b)[1..] == a[1..] + b;
      LinesTextConcat(a[1..], b);
    }
  }

  lemma LinesTextOne(l: Line)
    ensures LinesText([l]) == LineText(l)
  {
    assert LinesText([l][1..]) == "";
  }

  method PutIndent(out: string, depth: nat) returns (r: string)
    ensures r == out + Indent(depth)
  {
    r := out;
    for i := 0 to depth
      invariant r + Indent(depth - i) == out + Indent(depth)
    {
      assert r + "    " + Indent(depth - i - 1) == r + Indent(depth - i);
      r := r + "    ";
    }
  }

  method PutComment(out: string, depth: nat, comment: Option<string>) returns (r: string)
    ensures r == out + LinesText(CommentLines(comment, depth))
  {
    hide LineText;
    r := out;
    if comment.None? {
      return;
    }
    var texts := SplitOn(comment.value, '\n');
    for i := 0 to |texts|
      invariant r + LinesText(NoteLines(texts[i..], depth)) == out + LinesText(NoteLines(texts, depth))
    {
      assert texts[i..][1..] == texts[i + 1..];
      ghost var before := r;
      r := PutIndent(r, depth);
      if texts[i] == "" {
        r := r + "#\n";
      } else {
        r := r + "# " + texts[i] + "\n";
      }
      NoteTextIs(before, r, depth, texts[i]);
    }
    assert texts[|texts|..] == [];
  }

  lemma NoteTextIs(before: string, r: string, depth: nat, text: string)
    requires r == if text == "" then before + Indent(depth) + "#\n" else before + Indent(depth) + "# " + text + "\n"
    ensures r == before + LineText(Note(depth, text))
  {
  }

  /** A name, and the value or key after it if there is one. */
  method PutWords(out: string, words: seq<string>) returns (r: string)
    requires 1 <= |words| <= 2
    ensures r == out + WordsText(words)
  {
    hide Quote;
    r := Tokeniser.QuoteInto(out, words[0]);
    if |words| == 2 {
      r := r + " ";
      r := Tokeniser.QuoteInto(r, words[1]);
      assert WordsText(words[1..]) == Quote(words[1]);
      assert r == out + (Quote(words[0]) + " " + Quote(words[1]));
    }
  }

  /** One setting line. */
  method PutSetting(out: string, depth: nat, words: seq<string>) returns (r: string)
    requires 1 <= |words| <= 2
    ensures r == out + LineText(Setting(depth, words, None))
  {
    hide WordsText, Indent;
    r := PutIndent(out, depth);
    r := PutWords(r, words);
    r := r + "\n";
  }

  method PutHeader(out: string, depth: nat, words: seq<string>) returns (r: string)
    requires 1 <= |words| <= 2
    ensures r == out + LineText(Header(depth, words))
  {
    hide WordsText, Indent;
    r := PutIndent(out, depth);
    r := PutWords(r, words);
    r := r + " {\n";
  }

  method PutFooter(out: string, depth: nat) returns (r: string)
    ensures r == out + LineText(Footer(depth))
  {
    r := PutIndent(out, depth);
    r := r + "}\n";
  }

  /** `{ ... }` under `words`: the comment, the header, the children, the footer. */
  method PutBlock(out: string, node: Node, words: seq<string>, path: Path, depth: nat, tags: Path -> bool)
    returns (r: string)
    requires node.IsInterior() && 1 <= |words| <= 2
    ensures r == out + LinesText(BlockLines(node.comment, words, ChildLines(node, Names(node), path, depth + 1, Plain(tags)), depth))
    decreases node, 0, 1
  {
    hide LineText, ChildLines, Names, Sorted, CommentLines;
    var inner := ChildLines(node, Names(node), path, depth + 1, Plain(tags));
    r := PutComment(out, depth, node.comment);
    r := PutHeader(r, depth, words);
    r := PutChildren(r, node, path, depth + 1, tags);
    r := PutFooter(r, depth);
    BlockText(node.comment, words, inner, depth);
  }

  lemma BlockText(comment: Option<string>, words: seq<string>, inner: seq<Line>, depth: nat)
    ensures LinesText(BlockLines(comment, words, inner, depth))
         == LinesText(CommentLines(comment, depth)) + LineText(Header(depth, words)) + LinesText(inner) + LineText(Footer(depth))
  {
    hide LineText, CommentLines;
    var comments := CommentLines(comment, depth);
    LinesTextConcat(comments + [Header(depth, words)] + inner, [Footer(depth)]);
    LinesTextConcat(comments + [Header(depth, words)], inner);
    LinesTextConcat(comments, [Header(depth, words)]);
    LinesTextOne(Header(depth, words));
    LinesTextOne(Footer(depth));
  }

  /** `children` */
  method PutChildren(out: string, node: Node, at: Path, depth: nat, tags: Path -> bool) returns (r: string)
    requires node.IsInterior()
    ensures r == out + LinesText(ChildLines(node, Names(node), at, depth, Plain(tags)))
    decreases node, 0, 0
  {
    hide LineText, EntryLines, Sorted, Names;
    var names := Names(node);
    r := out;
    for i := 0 to |names|
      invariant r + LinesText(ChildLines(node, names[i..], at, depth, Plain(tags))) == out + LinesText(ChildLines(node, names, at, depth, Plain(tags)))
    {
      var name := names[i];
      assert names[i..][1..] == names[i + 1..];
      LinesTextConcat(EntryLines(name, node.body.children[name], at + [name], depth, Plain(tags)),
                      ChildLines(node, names[i + 1..], at, depth, Plain(tags)));
      r := PutEntry(r, name, node.body.children[name], at + [name], depth, tags);
    }
    assert names[|names|..] == [];
  }

  /** `entry`, the leaf case. */
  method PutLeaf(out: string, name: string, node: Node, depth: nat) returns (r: string)
    requires node.body.Values?
    ensures forall path, tags :: r == out + LinesText(EntryLines(name, node, path, depth, Plain(tags)))
  {
    hide LineText, Sorted;
    r := PutComment(out, depth, node.comment);
    var values := Sorted(node.body.values);
    ghost var start := r;
    if values == [] {
      r := PutSetting(r, depth, [name]);
      LinesTextOne(Setting(depth, [name], None));
    } else {
      for i := 0 to |values|
        invariant r + LinesText(ValueLines(name, values[i..], depth, None)) == start + LinesText(ValueLines(name, values, depth, None))
      {
        assert values[i..][1..] == values[i + 1..];
        LinesTextConcat([Setting(depth, [name, values[i]], None)], ValueLines(name, values[i + 1..], depth, None));
        LinesTextOne(Setting(depth, [name, values[i]], None));
        r := PutSetting(r, depth, [name, values[i]]);
      }
      assert values[|values|..] == [];
    }
    LeafText(name, node, depth);
    assert r == start + LinesText(LeafLines(name, values, depth, None));
  }

  lemma LeafText(name: string, node: Node, depth: nat)
    requires node.body.Values?
    ensures forall path, tags ::
      LinesText(EntryLines(name, node, path, depth, Plain(tags)))
      == LinesText(CommentLines(node.comment, depth)) + LinesText(LeafLines(name, Sorted(node.body.values), depth, None))
  {
    hide LineText, Sorted, ValueLines, CommentLines, LinesText;
    LinesTextConcat(CommentLines(node.comment, depth), LeafLines(name, Sorted(node.body.values), depth, None));
  }

  /** `entry` */
  method PutEntry(out: string, name: string, node: Node, path: Path, depth: nat, tags: Path -> bool) returns (r: string)
    ensures r == out + LinesText(EntryLines(name, node, path, depth, Plain(tags)))
    decreases node, 1, 0
  {
    hide LineText, ChildLines, Sorted, BlockLines, Names;
    if node.body.Values? {
      r := PutLeaf(out, name, node, depth);
    } else if Compact(node, path, tags) {
      var keys := Names(node);
      r := out;
      for i := 0 to |keys|
        invariant r + LinesText(InstanceLines(name, node, keys[i..], path, depth, Plain(tags)))
               == out + LinesText(InstanceLines(name, node, keys, path, depth, Plain(tags)))
      {
        var instance := node.body.children[keys[i]];
        assert keys[i..][1..] == keys[i + 1..];
        LinesTextConcat(BlockLines(instance.comment, [name, keys[i]],
                                   ChildLines(instance, Names(instance), path + [keys[i]], depth + 1, Plain(tags)), depth),
                        InstanceLines(name, node, keys[i + 1..], path, depth, Plain(tags)));
        r := PutBlock(r, instance, [name, keys[i]], path + [keys[i]], depth, tags);
      }
      assert keys[|keys|..] == [];
    } else {
      r := PutBlock(out, node, [name], path, depth, tags);
    }
  }

  /** `render` */
  method RenderDocument(tree: Node, tags: Path -> bool) returns (out: string)
    requires tree.IsInterior()
    ensures out == Render(tree, tags)
  {
    out := PutChildren("", tree, [], 0, tags);
  }
}
