/** Configuration paths: typed text to segments and back. */
module Paths {
  import opened Wrappers
  import opened Lex
  import opened LexRoundTrip
  import opened Config
  import Tokeniser

  datatype PathError =
    | LexFailed(error: LexError)
    | Brace(pos: Pos, ch: char)
    | CommentFound(pos: Pos)

  /** The segments a token stream holds, or the first thing in it that is not one. */
  function Segments(ts: Stream): Result<Path, PathError> {
    match ts
    case End => Ok([])
    case Fail(e) => Err(LexFailed(e))
    case More(Spanned(Value(v), _), tail) => var rest :- Segments(tail); Ok([v] + rest)
    case More(Spanned(Open, pos), _) => Err(Brace(pos, '{'))
    case More(Spanned(Close, pos), _) => Err(Brace(pos, '}'))
    case More(Spanned(Comment(_), pos), _) => Err(CommentFound(pos))
  }

  function ParsePath(s: string): Result<Path, PathError> {
    Segments(Tokens(Start(s)))
  }

  ghost function Onto(read: Path, r: Result<Path, PathError>): Result<Path, PathError> {
    match r
    case Err(e) => Err(e)
    case Ok(rest) => Ok(read + rest)
  }

  lemma OntoStep(read: Path, v: string, r: Result<Path, PathError>)
    ensures Onto(read + [v], r) == Onto(read, match r case Err(e) => Err(e) case Ok(rest) => Ok([v] + rest))
  {
    if r.Ok? { assert read + ([v] + r.value) == (read + [v]) + r.value; }
  }

  /** `Path::parse`: pull tokens until there are no more. */
  method Parse(s: string) returns (r: Result<Path, PathError>)
    ensures r == ParsePath(s)
  {
    hide NextToken;
    var lexer := new Tokeniser.Lexer(s);
    var segments: Path := [];
    assert Onto([], ParsePath(s)) == ParsePath(s) by {
      if ParsePath(s).Ok? { assert [] + ParsePath(s).value == ParsePath(s).value; }
    }
    while true
      invariant fresh(lexer) && lexer.Valid()
      invariant Onto(segments, Segments(Tokens(lexer.Here()))) == ParsePath(s)
      decreases |lexer.Here().rest|
    {
      var next := lexer.Next();
      match next {
        case Err(e) => return Err(LexFailed(e));
        case Ok(None) =>
          assert segments + [] == segments;
          return Ok(segments);
        case Ok(Some(Spanned(Value(v), _))) =>
          OntoStep(segments, v, Segments(Tokens(lexer.Here())));
          segments := segments + [v];
        case Ok(Some(Spanned(Open, pos))) => return Err(Brace(pos, '{'));
        case Ok(Some(Spanned(Close, pos))) => return Err(Brace(pos, '}'));
        case Ok(Some(Spanned(Comment(_), pos))) => return Err(CommentFound(pos));
      }
    }
  }

  /** `Display`: the segments quoted where they need it, one space between. */
  method Display(p: Path) returns (text: string)
    ensures text == WordsText(p)
  {
    hide Quote;
    text := "";
    var first := true;
    for i := 0 to |p|
      invariant first <==> i == 0
      invariant WordsText(p) == if i == 0 then WordsText(p) else if i == |p| then text else text + " " + WordsText(p[i..])
      invariant i == 0 ==> text == ""
    {
      WordsStep(p, i);
      if !first {
        text := text + " ";
      }
      first := false;
      text := Tokeniser.QuoteInto(text, p[i]);
    }
  }

  lemma WordsStep(p: Path, i: nat)
    requires i < |p|
    ensures WordsText(p[i..]) == if i + 1 == |p| then Quote(p[i]) else Quote(p[i]) + " " + WordsText(p[i + 1..])
    ensures i == 0 ==> p[i..] == p
  {
    hide Quote;
    assert p[i..][1..] == p[i + 1..];
  }

  lemma {:induction false} SegmentsOfWords(words: Path, pos: Pos)
    ensures Segments(Prepend(WordTokens(words, pos), End)) == Ok(words)
  {
    if words != [] {
      var next := Right(pos, |Quote(words[0])| + 1);
      SegmentsOfWords(words[1..], next);
      assert WordTokens(words, pos)[1..] == WordTokens(words[1..], next);
      assert words == [words[0]] + words[1..];
    }
  }

  /** For every list of segments, empty and control characters included, the text a
      path displays as parses back to that path. */
  lemma DisplayParses(p: Path)
    ensures ParsePath(WordsText(p)) == Ok(p)
  {
    hide NextToken, WordTokens, WordsText;
    WordsRead(p, "", Pos(1, 1));
    assert WordsText(p) + "" == WordsText(p);
    NothingLeft(Right(Pos(1, 1), |WordsText(p)|));
    SegmentsOfWords(p, Pos(1, 1));
  }

  lemma NothingLeft(pos: Pos)
    ensures Tokens(Cursor("", pos)) == End
  {
  }

  /** Displaying is injective: two paths never look the same. */
  lemma DisplayInjective(p: Path, q: Path)
    requires WordsText(p) == WordsText(q)
    ensures p == q
  {
    hide ParsePath, WordsText;
    DisplayParses(p);
    DisplayParses(q);
  }

  lemma {:induction false} SegmentsThen(words: Path, pos: Pos, k: Stream)
    requires Segments(k).Err?
    ensures Segments(Prepend(WordTokens(words, pos), k)) == Segments(k)
  {
    if words != [] {
      var next := Right(pos, |Quote(words[0])| + 1);
      SegmentsThen(words[1..], next, k);
      assert WordTokens(words, pos)[1..] == WordTokens(words[1..], next);
    }
  }

  /** A brace or a comment after any path, or instead of one, is refused where it is. */
  lemma PathRefuses(p: Path, rest: string)
    ensures ParsePath(WordsText(p) + (" {" + rest)) == Err(Brace(Pos(1, |WordsText(p)| + 2), '{'))
    ensures ParsePath(WordsText(p) + (" }" + rest)) == Err(Brace(Pos(1, |WordsText(p)| + 2), '}'))
    ensures ParsePath(WordsText(p) + (" #" + rest)) == Err(CommentFound(Pos(1, |WordsText(p)| + 2)))
  {
    hide WordTokens, WordsText, Tokens, NextToken;
    var at := Right(Pos(1, 1), |WordsText(p)| + 1);
    assert " {" == [' ', '{'] && " }" == [' ', '}'] && " #" == [' ', '#'];
    MarkReads('{', rest, at);
    AfterWords(p, '{', rest);
    MarkReads('}', rest, at);
    AfterWords(p, '}', rest);
    MarkReads('#', rest, at);
    AfterWords(p, '#', rest);
  }

  lemma AfterWords(p: Path, c: char, rest: string)
    requires Segments(Tokens(Cursor([c] + rest, Right(Pos(1, 1), |WordsText(p)| + 1)))).Err?
    ensures ParsePath(WordsText(p) + ([' ', c] + rest)) == Segments(Tokens(Cursor([c] + rest, Right(Pos(1, 1), |WordsText(p)| + 1))))
  {
    hide WordTokens, WordsText, Tokens, NextToken;
    var w := |WordsText(p)|;
    WordsRead(p, [' ', c] + rest, Pos(1, 1));
    assert [' ', c] + rest == [' '] + ([c] + rest);
    SkipOne(' ', [c] + rest, Right(Pos(1, 1), w));
    SegmentsThen(p, Pos(1, 1), Tokens(Cursor([c] + rest, Right(Pos(1, 1), w + 1))));
  }

  lemma MarkReads(c: char, rest: string, pos: Pos)
    requires c in {'{', '}', '#'}
    ensures Segments(Tokens(Cursor([c] + rest, pos))) == Err(if c == '#' then CommentFound(pos) else Brace(pos, c))
  {
    hide UntilNewline, Str, Word, UntilStarSlash, Normalise;
    var cur := Cursor([c] + rest, pos);
    assert cur.rest[0] == c && SkipWhitespace(cur) == cur;
  }
}
