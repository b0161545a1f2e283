/** The curly-brace configuration format: what the parser and the renderer compute. */
module Curly {
  import opened Wrappers
  import opened Text
  import opened Order
  import opened Lex
  import opened LexRoundTrip
  import opened Config

  /** Nesting the parser will accept. */
  const MAX_DEPTH: nat := 64

  datatype ParseError =
    | LexFailed(error: LexError)
    | UnexpectedOpen(pos: Pos)
    | UnmatchedClose(pos: Pos)
    | Unclosed(pos: Pos)
    | TooManyValues(pos: Pos, name: string, count: nat)
    | TooDeep(pos: Pos)
    | TreeFailed(pos: Pos, source: TreeError)

  // ----- parsing ---------------------------------------------------------

  function Size(ts: Stream): nat {
    if ts.More? then 1 + Size(ts.tail) else 0
  }

  /** Consecutive values on `line`, and what follows them. */
  function Run(ts: Stream, line: nat): (r: Result<(seq<string>, Stream), LexError>)
    ensures r.Ok? ==> |r.value.0| + Size(r.value.1) == Size(ts)
  {
    match ts
    case Fail(e) => Err(e)
    case More(Spanned(Value(v), pos), tail) =>
      if pos.line == line then
        var (run, after) :- Run(tail, line);
        Ok(([v] + run, after))
      else Ok(([], ts))
    case _ => Ok(([], ts))
  }

  function Leaf(tree: Node, prefix: Path, run: seq<string>, pos: Pos): Result<(Node, Path), ParseError>
    requires run != []
  {
    if |run| > 2 then Err(TooManyValues(pos, run[0], |run| - 1)) else
      var path := prefix + [run[0]];
      var (after, error) := Mutate(tree, path, if |run| == 2 then AddValue(run[1]) else DeclareLeaf);
      match error
      case Some(e) => Err(TreeFailed(pos, e))
      case None => Ok((after, path))
  }

  /** Give the node at `path` a comment, if it has none yet. */
  function Attach(tree: Node, path: Path, comment: Option<string>): Node {
    match comment
    case None => tree
    case Some(_) =>
      match Get(tree, path)
      case Some(Node(None, body)) => Put(tree, path, Node(comment, body))
      case _ => tree
  }

  function AddLine(pending: Option<string>, text: string): string {
    match pending
    case None => text
    case Some(before) => before + "\n" + text
  }

  /** Whether a comment at `pos` belongs to the statement just completed. */
  predicate Trails(tree: Node, pending: Option<string>, previous: Option<(Path, nat)>, pos: Pos) {
    && pending.None? && previous.Some? && previous.value.1 == pos.line
    && var node := Get(tree, previous.value.0); node.Some? && node.value.comment.None?
  }

  predicate OpensOn(ts: Stream, line: nat) {
    ts.More? && ts.head.token == Open && ts.head.pos.line == line
  }

  /** Statements until `}` or end of input, with `pending` the comments waiting for
      the next statement and `previous` the last leaf and the line it was on. */
  function Statements(ts: Stream, tree: Node, prefix: Path, depth: nat, open: Option<Pos>,
                      pending: Option<string>, previous: Option<(Path, nat)>)
    : (r: Result<(Node, Stream), ParseError>)
    ensures r.Ok? ==> Size(r.value.1) <= Size(ts)
    decreases Size(ts), 0
  {
    match ts
    case Fail(e) => Err(LexFailed(e))
    case End => if open.Some? then Err(Unclosed(open.value)) else Ok((tree, End))
    case More(Spanned(Comment(text), pos), tail) =>
      if Trails(tree, pending, previous, pos) then
        Statements(tail, Attach(tree, previous.value.0, Some(text)), prefix, depth, open, None, previous)
      else
        Statements(tail, tree, prefix, depth, open, Some(AddLine(pending, text)), previous)
    case More(Spanned(Close, pos), tail) =>
      if open.Some? then Ok((tree, tail)) else Err(UnmatchedClose(pos))
    case More(Spanned(Open, pos), tail) => Err(UnexpectedOpen(pos))
    case More(Spanned(Value(_), pos), _) =>
      match Run(ts, pos.line)
      case Err(e) => Err(LexFailed(e))
      case Ok((run, after)) =>
        if OpensOn(after, pos.line) then
          match Mutate(tree, prefix + run, EnsureInterior)
          case (_, Some(e)) => Err(TreeFailed(pos, e))
          case (entered, None) =>
            var (left, rest) :- Block(after.tail, Attach(entered, prefix + run, pending), prefix + run, depth + 1,
                                      Some(after.head.pos));
            Statements(rest, left, prefix, depth, open, None, None)
        else
          var (left, path) :- Leaf(tree, prefix, run, pos);
          Statements(after, Attach(left, path, pending), prefix, depth, open, None, Some((path, pos.line)))
  }

  function Block(ts: Stream, tree: Node, prefix: Path, depth: nat, open: Option<Pos>)
    : (r: Result<(Node, Stream), ParseError>)
    ensures r.Ok? ==> Size(r.value.1) <= Size(ts)
    decreases Size(ts), 1
  {
    if depth > MAX_DEPTH then Err(TooDeep(open.UnwrapOr(Pos(1, 1))))
    else Statements(ts, tree, prefix, depth, open, None, None)
  }

  /** Parse a config document. */
  function Parse(src: string): Result<Node, ParseError> {
    var (tree, _) :- Block(Tokens(Start(src)), EMPTY_INTERIOR, [], 0, None);
    Ok(tree)
  }

  // ----- rendering -------------------------------------------------------

  /** One line of a rendered document. */
  datatype Line =
    | Note(depth: nat, text: string)
    | Setting(depth: nat, words: seq<string>, beside: Option<string>)
    | Header(depth: nat, words: seq<string>)
    | Footer(depth: nat)

  function Indent(depth: nat): string {
    if depth == 0 then "" else "    " + Indent(depth - 1)
  }

  function NoteText(text: string): string {
    if text == "" then "#" else "# " + text
  }

  /** A comment after a setting, on its line. */
  function BesideText(beside: Option<string>): string {
    if beside.Some? then " " + NoteText(beside.value) else ""
  }

  function LineText(l: Line): string {
    Indent(l.depth) + (
      match l
      case Note(_, text) => NoteText(text)
      case Setting(_, words, beside) => WordsText(words) + BesideText(beside)
      case Header(_, words) => WordsText(words) + " {"
      case Footer(_) => "}"
    ) + "\n"
  }

  function LinesText(lines: seq<Line>): string {
    if lines == [] then "" else LineText(lines[0]) + LinesText(lines[1..])
  }

  function NoteLines(texts: seq<string>, depth: nat): (r: seq<Line>)
    ensures |r| == |texts|
  {
    if texts == [] then [] else [Note(depth, texts[0])] + NoteLines(texts[1..], depth)
  }

  function CommentLines(comment: Option<string>, depth: nat): seq<Line> {
    match comment
    case None => []
    case Some(text) => NoteLines(SplitOn(text, '\n'), depth)
  }

  /** How a document is laid out: which paths hold instances that may be written in the
      compact form, and which line of a setting its comment goes beside, if any. */
  datatype Layout = Layout(tags: Path -> bool, beside: Path -> Option<nat>)

  /** The layout of a rendered document: every comment above. */
  function Plain(tags: Path -> bool): Layout {
    Layout(tags, _ => None)
  }

  /** The line of a leaf its comment goes beside, and the comment: one line of text, for a
      line there is. */
  function Placed(node: Node, path: Path, layout: Layout): Option<(nat, string)>
    requires node.body.Values?
  {
    var line := layout.beside(path);
    if node.comment.Some? && '\n' !in node.comment.value && line.Some? && line.value < Max(1, |node.body.values|)
    then Some((line.value, node.comment.value)) else None
  }

  function Here(placed: Option<(nat, string)>): Option<string> {
    if placed.Some? && placed.value.0 == 0 then Some(placed.value.1) else None
  }

  function Later(placed: Option<(nat, string)>): Option<(nat, string)> {
    if placed.Some? && placed.value.0 > 0 then Some((placed.value.0 - 1, placed.value.1)) else None
  }

  function ValueLines(name: string, values: seq<string>, depth: nat, placed: Option<(nat, string)>): seq<Line> {
    if values == [] then [] else
      [Setting(depth, [name, values[0]], Here(placed))] + ValueLines(name, values[1..], depth, Later(placed))
  }

  /** The lines of a leaf, past any comment above it. */
  function LeafLines(name: string, values: seq<string>, depth: nat, placed: Option<(nat, string)>): seq<Line> {
    if values == [] then [Setting(depth, [name], Here(placed))] else ValueLines(name, values, depth, placed)
  }

  function BlockLines(comment: Option<string>, words: seq<string>, inner: seq<Line>, depth: nat): seq<Line> {
    CommentLines(comment, depth) + [Header(depth, words)] + inner + [Footer(depth)]
  }

  predicate AllInterior(children: map<string, Node>) {
    forall k :: k in children ==> children[k].IsInterior()
  }

  /** Whether to write `ethernet eth0 { ... }` rather than nesting. */
  predicate Compact(node: Node, path: Path, tags: Path -> bool)
    requires node.IsInterior()
  {
    tags(path) && node.comment.None? && node.body.children != map[] && AllInterior(node.body.children)
  }

  ghost predicate Below(node: Node, names: seq<string>) {
    node.IsInterior() && forall i :: 0 <= i < |names| ==> names[i] in node.body.children
  }

  function Names(node: Node): (r: seq<string>)
    requires node.IsInterior()
    ensures Below(node, r)
  {
    Sorted(node.body.children.Keys)
  }

  function ChildLines(node: Node, names: seq<string>, at: Path, depth: nat, layout: Layout): seq<Line>
    requires Below(node, names)
    decreases node, 0, |names|
  {
    if names == [] then [] else
      EntryLines(names[0], node.body.children[names[0]], at + [names[0]], depth, layout)
      + ChildLines(node, names[1..], at, depth, layout)
  }

  function EntryLines(name: string, node: Node, path: Path, depth: nat, layout: Layout): seq<Line>
    decreases node, 1, 0
  {
    match node.body
    case Values(values) =>
      var placed := Placed(node, path, layout);
      CommentLines(if placed.Some? then None else node.comment, depth) + LeafLines(name, Sorted(values), depth, placed)
    case Interior(children) =>
      if Compact(node, path, layout.tags) then InstanceLines(name, node, Names(node), path, depth, layout)
      else BlockLines(node.comment, [name], ChildLines(node, Names(node), path, depth + 1, layout), depth)
  }

  function InstanceLines(name: string, node: Node, keys: seq<string>, path: Path, depth: nat, layout: Layout)
    : seq<Line>
    requires Below(node, keys) && AllInterior(node.body.children)
    decreases node, 0, |keys|
  {
    if keys == [] then [] else
      var instance := node.body.children[keys[0]];
      var inner := ChildLines(instance, Names(instance), path + [keys[0]], depth + 1, layout);
      BlockLines(instance.comment, [name, keys[0]], inner, depth) + InstanceLines(name, node, keys[1..], path, depth, layout)
  }

  function DocumentLines(tree: Node, layout: Layout): seq<Line> {
    if tree.IsInterior() then ChildLines(tree, Names(tree), [], 0, layout) else []
  }

  /** A config document, laid out. */
  function RenderAs(tree: Node, layout: Layout): string {
    LinesText(DocumentLines(tree, layout))
  }

  /** Render a config document. */
  function Render(tree: Node, tags: Path -> bool): string {
    RenderAs(tree, Plain(tags))
  }

  // ----- how deep the braces go ------------------------------------------

  function Max(a: nat, b: nat): nat {
    if a > b then a else b
  }

  function ChildNesting(node: Node, names: seq<string>, at: Path, tags: Path -> bool): nat
    requires Below(node, names)
    decreases node, 0, |names|
  {
    if names == [] then 0 else
      Max(EntryNesting(node.body.children[names[0]], at + [names[0]], tags), ChildNesting(node, names[1..], at, tags))
  }

  function EntryNesting(node: Node, path: Path, tags: Path -> bool): nat
    decreases node, 1, 0
  {
    if node.body.Values? then 0
    else if Compact(node, path, tags) then InstanceNesting(node, Names(node), path, tags)
    else 1 + ChildNesting(node, Names(node), path, tags)
  }

  function InstanceNesting(node: Node, keys: seq<string>, path: Path, tags: Path -> bool): nat
    requires Below(node, keys) && AllInterior(node.body.children)
    decreases node, 0, |keys|
  {
    if keys == [] then 0 else
      var instance := node.body.children[keys[0]];
      Max(1 + ChildNesting(instance, Names(instance), path + [keys[0]], tags),
          InstanceNesting(node, keys[1..], path, tags))
  }

  /** The deepest braces a document rendered with `tags` opens. */
  function Nesting(tree: Node, tags: Path -> bool): nat
    requires tree.IsInterior()
  {
    ChildNesting(tree, Names(tree), [], tags)
  }
}
