/** The recursive-descent parser as it is written: a lexer with one token of
    lookahead, and a tree edited in place. */
module CurlyParser {
  import opened Wrappers
  import opened Lex
  import opened Config
  import opened Curly
  import Tokeniser
  import opened TreeObject

  ghost function OntoRun(read: seq<string>, r: Result<(seq<string>, Stream), LexError>)
    : Result<(seq<string>, Stream), LexError>
  {
    match r
    case Err(e) => Err(e)
    case Ok((run, after)) => Ok((read + run, after))
  }

  lemma OntoRunNone(r: Result<(seq<string>, Stream), LexError>)
    ensures OntoRun([], r) == r
  {
    if r.Ok? { assert [] + r.value.0 == r.value.0; }
  }

  lemma OntoRunStep(read: seq<string>, ts: Stream, line: nat)
    requires ts.More? && ts.head.token.Value? && ts.head.pos.line == line
    ensures OntoRun(read, Run(ts, line)) == OntoRun(read + [ts.head.token.text], Run(ts.tail, line))
  {
    var r := Run(ts.tail, line);
    if r.Ok? { assert read + ([ts.head.token.text] + r.value.0) == (read + [ts.head.token.text]) + r.value.0; }
  }

  lemma OntoRunEnd(read: seq<string>, ts: Stream, line: nat)
    requires !ts.Fail? && !(ts.More? && ts.head.token.Value? && ts.head.pos.line == line)
    ensures OntoRun(read, Run(ts, line)) == Ok((read, ts))
  {
    assert read + [] == read;
  }

  class Parser {
    const lexer: Tokeniser.Lexer
    var peeked: Option<Spanned>

    constructor (src: string)
      ensures Valid() && fresh(lexer) && Ahead() == Tokens(Start(src))
    {
      lexer := new Tokeniser.Lexer(src);
      peeked := None;
    }

    ghost predicate Valid()
      reads this, lexer
    {
      lexer.Valid()
    }

    /** The tokens still to be consumed, a peeked one included. */
    ghost function Ahead(): Stream
      requires Valid()
      reads this, lexer
    {
      if peeked.Some? then More(peeked.value, Tokens(lexer.Here())) else Tokens(lexer.Here())
    }

    /** Look at the next token. Nothing is consumed. */
    method Peek() returns (r: Result<Option<Spanned>, LexError>)
      requires Valid()
      modifies this, lexer
      ensures Valid() && (r.Err? <==> old(Ahead()).Fail?)
      ensures r.Err? ==> old(Ahead()) == Fail(r.error)
      ensures r.Ok? ==> Ahead() == old(Ahead()) && r.value == peeked && (peeked.None? <==> Ahead().End?)
    {
      hide NextToken;
      if peeked.None? {
        var next := lexer.Next();
        if next.Err? {
          return Err(next.error);
        }
        peeked := next.value;
        if peeked.None? { Nothing(lexer.Here()); }
      }
      r := Ok(peeked);
    }

    /** Consume the token just peeked. */
    method Advance() returns (s: Spanned)
      requires Valid() && peeked.Some?
      modifies this
      ensures Valid() && old(Ahead()) == More(s, Ahead())
    {
      s := peeked.value;
      peeked := None;
    }

    /** `run`: consecutive values starting on `line`. */
    method ReadRun(line: nat) returns (r: Result<seq<string>, LexError>)
      requires Valid()
      modifies this, lexer
      ensures Valid()
      ensures match Run(old(Ahead()), line)
              case Err(e) => r == Err(e)
              case Ok((run, after)) => r == Ok(run) && Ahead() == after
    {
      hide Tokens, Run;
      var run: seq<string> := [];
      ghost var start := Ahead();
      OntoRunNone(Run(start, line));
      while true
        invariant Valid() && OntoRun(run, Run(Ahead(), line)) == Run(start, line)
        decreases Size(Ahead())
      {
        RunFails(Ahead(), line);
        var next := Peek();
        if next.Err? {
          return Err(next.error);
        }
        if next.value.Some? && next.value.value.token.Value? && next.value.value.pos.line == line {
          OntoRunStep(run, Ahead(), line);
          run := run + [next.value.value.token.text];
          var _ := Advance();
        } else {
          OntoRunEnd(run, Ahead(), line);
          return Ok(run);
        }
      }
    }

    /** `leaf`: put one or two words into the tree. */
    method PutLeaf(tree: ConfigTree, prefix: Path, run: seq<string>, pos: Pos) returns (r: Result<Path, ParseError>)
      requires run != []
      modifies tree
      ensures match Leaf(old(tree.root), prefix, run, pos)
              case Err(e) => r == Err(e)
              case Ok((after, path)) => r == Ok(path) && tree.root == after
    {
      if |run| > 2 {
        return Err(TooManyValues(pos, run[0], |run| - 1));
      }
      var path := prefix + [run[0]];
      var error := tree.Apply(path, if |run| == 2 then AddValue(run[1]) else DeclareLeaf);
      r := if error.Some? then Err(TreeFailed(pos, error.value)) else Ok(path);
    }

    /** `attach`: first occurrence wins. */
    method AttachTo(tree: ConfigTree, path: Path, comment: Option<string>)
      modifies tree
      ensures tree.root == Attach(old(tree.root), path, comment)
    {
      if comment.Some? {
        var _ := tree.Comment(path, comment.value);
      }
    }

    /** A comment goes to the statement just completed if it trails it and that has
        none, and waits for the next statement otherwise. */
    method TakeComment(tree: ConfigTree, pending: Option<string>, previous: Option<(Path, nat)>, text: string, pos: Pos)
      returns (waiting: Option<string>)
      modifies tree
      ensures if Trails(old(tree.root), pending, previous, pos)
              then waiting == pending && tree.root == Attach(old(tree.root), previous.value.0, Some(text))
              else waiting == Some(AddLine(pending, text)) && tree.root == old(tree.root)
    {
      if pending.None? && previous.Some? && previous.value.1 == pos.line {
        AttachIfBare(tree.root, previous.value.0, text);
        var given := tree.Comment(previous.value.0, text);
        if given {
          return pending;
        }
      }
      waiting := Some(AddLine(pending, text));
    }

    /** `body`: statements until `}` (when `open` is set) or end of input. */
    method Body(tree: ConfigTree, prefix: Path, depth: nat, open: Option<Pos>) returns (r: Result<(), ParseError>)
      requires Valid()
      modifies this, lexer, tree
      ensures Valid()
      ensures match Block(old(Ahead()), old(tree.root), prefix, depth, open)
              case Err(e) => r == Err(e)
              case Ok((after, rest)) => r == Ok(()) && tree.root == after && Ahead() == rest
      decreases Size(Ahead())
    {
      hide Tokens, Run, Leaf, Attach, Mutate, AddLine, Get;
      if depth > MAX_DEPTH {
        return Err(TooDeep(open.UnwrapOr(Pos(1, 1))));
      }
      ghost var whole := Block(Ahead(), tree.root, prefix, depth, open);
      var pending: Option<string> := None;
      var previous: Option<(Path, nat)> := None;
      while true
        invariant Valid() && Size(Ahead()) <= Size(old(Ahead()))
        invariant Statements(Ahead(), tree.root, prefix, depth, open, pending, previous) == whole
        decreases Size(Ahead())
      {
        ghost var ts := Ahead();
        var next := Peek();
        if next.Err? {
          return Err(LexFailed(next.error));
        }
        if next.value.None? {
          return if open.Some? then Err(Unclosed(open.value)) else Ok(());
        }
        var Spanned(token, pos) := next.value.value;
        match token {
          case Comment(text) =>
            var _ := Advance();
            pending := TakeComment(tree, pending, previous, text, pos);
          case Close =>
            var _ := Advance();
            return if open.Some? then Ok(()) else Err(UnmatchedClose(pos));
          case Open =>
            return Err(UnexpectedOpen(pos));
          case Value(_) =>
            RunTakes(ts);
            var taken := ReadRun(pos.line);
            if taken.Err? {
              return Err(LexFailed(taken.error));
            }
            var run := taken.value;
            var after := Peek();
            if after.Err? {
              RunStopsSound(ts, pos.line);
              assert false;
            }
            if after.value.Some? && after.value.value.token == Open && after.value.value.pos.line == pos.line {
              var brace := Advance();
              var path := prefix + run;
              var error := tree.Apply(path, EnsureInterior);
              if error.Some? {
                return Err(TreeFailed(pos, error.value));
              }
              AttachTo(tree, path, pending);
              pending := None;
              var inner := Body(tree, path, depth + 1, Some(brace.pos));
              if inner.Err? {
                return Err(inner.error);
              }
              previous := None;
            } else {
              var path := PutLeaf(tree, prefix, run, pos);
              if path.Err? {
                return Err(path.error);
              }
              AttachTo(tree, path.value, pending);
              pending := None;
              previous := Some((path.value, pos.line));
            }
        }
      }
    }
  }

  lemma Nothing(cur: Cursor)
    requires cur.rest == []
    ensures Tokens(cur) == End
  {
  }

  lemma RunFails(ts: Stream, line: nat)
    ensures ts.Fail? ==> Run(ts, line) == Err(ts.error)
  {
  }

  lemma RunTakes(ts: Stream)
    requires ts.More? && ts.head.token.Value?
    ensures var r := Run(ts, ts.head.pos.line); r.Ok? ==> r.value.0 != [] && Size(r.value.1) < Size(ts)
  {
  }

  lemma {:induction false} RunStopsSound(ts: Stream, line: nat)
    ensures Run(ts, line).Ok? ==> !Run(ts, line).value.1.Fail?
  {
    if ts.More? && ts.head.token.Value? && ts.head.pos.line == line { RunStopsSound(ts.tail, line); }
  }

  lemma AttachIfBare(tree: Node, path: Path, text: string)
    ensures var node := Get(tree, path);
            node.Some? && node.value.comment.None? ==>
              Attach(tree, path, Some(text)) == Put(tree, path, Node(Some(text), node.value.body))
  {
  }

  /** `parse`: what the parser object computes is `Curly.Parse`. */
  method ParseDocument(src: string) returns (r: Result<Node, ParseError>)
    ensures r == Parse(src)
  {
    hide Tokens, Statements;
    var parser := new Parser(src);
    var tree := new ConfigTree();
    var outcome := parser.Body(tree, [], 0, None);
    r := if outcome.Ok? then Ok(tree.root) else Err(outcome.error);
  }
}
