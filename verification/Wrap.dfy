/** Greedy word wrap, and why nothing wraps in fewer lines. */
module Wrap {
  import opened Text

  // ----- words -----------------------------------------------------------

  function WordRun(s: string): (n: nat)
    ensures n <= |s| && (forall k :: 0 <= k < n ==> !IsWhitespace(s[k])) && (n < |s| ==> IsWhitespace(s[n]))
  {
    if s == [] || IsWhitespace(s[0]) then 0 else 1 + WordRun(s[1..])
  }

  /** `split_whitespace`. */
  function Words(s: string): seq<string>
    decreases |s|
  {
    if s == [] then []
    else if IsWhitespace(s[0]) then Words(s[1..])
    else [s[..WordRun(s)]] + Words(s[WordRun(s)..])
  }

  predicate IsWord(w: string) {
    w != [] && forall k :: 0 <= k < |w| ==> !IsWhitespace(w[k])
  }

  predicate AreWords(words: seq<string>) {
    forall i :: 0 <= i < |words| ==> IsWord(words[i])
  }

  lemma {:induction false} WordsAreWords(s: string)
    ensures AreWords(Words(s))
    decreases |s|
  {
    if s != [] { WordsAreWords(if IsWhitespace(s[0]) then s[1..] else s[WordRun(s)..]); }
  }

  /** The words of several lines, one line after another. */
  function AllWords(lines: seq<string>): seq<string> {
    if lines == [] then [] else Words(lines[0]) + AllWords(lines[1..])
  }

  lemma {:induction false} AllWordsMore(lines: seq<string>, line: string)
    ensures AllWords(lines + [line]) == AllWords(lines) + Words(line)
  {
    hide Words;
    if lines != [] {
      assert (lines + [line])[1..] == lines[1..] + [line];
      AllWordsMore(lines[1..], line);
    }
  }

  lemma {:induction false} RunOfWord(w: string, rest: string)
    requires (forall k :: 0 <= k < |w| ==> !IsWhitespace(w[k])) && (rest != [] ==> IsWhitespace(rest[0]))
    ensures WordRun(w + rest) == |w|
  {
    if w == [] {
      assert w + rest == rest;
    } else {
      assert (w + rest)[1..] == w[1..] + rest;
      RunOfWord(w[1..], rest);
    }
  }

  /** A line of words reads back as those words. */
  lemma {:induction false} WordsJoin(words: seq<string>)
    requires AreWords(words)
    ensures Words(Join(words, " ")) == words
  {
    if |words| == 1 {
      RunOfWord(words[0], "");
      assert words[0] + "" == words[0];
      assert Words("") == [];
    } else if |words| > 1 {
      var rest := Join(words[1..], " ");
      WordsJoin(words[1..]);
      RunOfWord(words[0], " " + rest);
      var line := words[0] + (" " + rest);
      assert Join(words, " ") == line;
      assert line[..|words[0]|] == words[0] && line[|words[0]|..] == " " + rest && (" " + rest)[1..] == rest;
      assert Words(" " + rest) == Words(rest);
    }
  }

  lemma {:induction false} JoinMore(words: seq<string>, w: string)
    requires words != []
    ensures Join(words + [w], " ") == Join(words, " ") + " " + w
  {
    if |words| == 1 {
      assert (words + [w])[1..] == [w];
    } else {
      assert (words + [w])[1..] == words[1..] + [w];
      JoinMore(words[1..], w);
    }
  }

  /** A line is at least as long as its words set a space apart. */
  lemma {:induction false} JoinIsShortest(s: string)
    ensures |Join(Words(s), " ")| <= |s|
    decreases |s|
  {
    if s != [] {
      if IsWhitespace(s[0]) {
        JoinIsShortest(s[1..]);
      } else {
        var n := WordRun(s);
        var rest := s[n..];
        if rest != [] {
          JoinIsShortest(rest[1..]);
          assert Words(rest) == Words(rest[1..]);
          assert Words(s)[1..] == Words(rest);
        } else {
          assert Words(s) == [s[..n]];
        }
      }
    }
  }

  // ----- greedy, by positions --------------------------------------------

  /** The length of a line of words `p` to `q`. */
  function Length(words: seq<string>, p: nat, q: nat): nat
    requires p < q <= |words|
    decreases q
  {
    if q == p + 1 then |words[p]| else Length(words, p, q - 1) + 1 + |words[q - 1]|
  }

  /** Where a greedy line begun at `p` and filled to `q` ends. */
  function Reach(words: seq<string>, width: nat, p: nat, q: nat): (end: nat)
    requires p < q <= |words|
    ensures q <= end <= |words|
    decreases |words| - q
  {
    if q < |words| && Length(words, p, q) + 1 + |words[q]| <= width then Reach(words, width, p, q + 1) else q
  }

  /** How many lines greedy makes of the words from `p` on. */
  function Count(words: seq<string>, width: nat, p: nat): nat
    requires p <= |words|
    decreases |words| - p
  {
    if p == |words| then 0 else 1 + Count(words, width, Reach(words, width, p, p + 1))
  }

  /** A line may be longer than the width only if it is one word. */
  predicate FitsAt(words: seq<string>, width: nat, p: nat, q: nat)
    requires p < q <= |words|
  {
    q == p + 1 || Length(words, p, q) <= width
  }

  lemma {:induction false} LengthGrows(words: seq<string>, p: nat, q: nat, r: nat)
    requires p < q <= r <= |words|
    ensures Length(words, p, q) <= Length(words, p, r)
    decreases r
  {
    if q < r { LengthGrows(words, p, q, r - 1); }
  }

  lemma {:induction false} LengthShrinks(words: seq<string>, p: nat, q: nat, r: nat)
    requires p <= q < r <= |words|
    ensures Length(words, q, r) <= Length(words, p, r)
    decreases r
  {
    if q < r - 1 { LengthShrinks(words, p, q, r - 1); }
  }

  /** Greedy reaches at least as far as any line that fits. */
  lemma {:induction false} ReachesFar(words: seq<string>, width: nat, p: nat, q: nat, r: nat)
    requires p < q <= r <= |words| && FitsAt(words, width, p, r)
    ensures r <= Reach(words, width, p, q)
    decreases r - q
  {
    if q < r {
      LengthGrows(words, p, q + 1, r);
      ReachesFar(words, width, p, q + 1, r);
    }
  }

  lemma {:induction false} ReachFits(words: seq<string>, width: nat, p: nat, q: nat)
    requires p < q <= |words| && FitsAt(words, width, p, q)
    ensures FitsAt(words, width, p, Reach(words, width, p, q))
    decreases |words| - q
  {
    if q < |words| && Length(words, p, q) + 1 + |words[q]| <= width { ReachFits(words, width, p, q + 1); }
  }

  /** Starting later never takes more lines. */
  lemma {:induction false} LaterIsFewer(words: seq<string>, width: nat, p: nat, q: nat)
    requires p <= q <= |words|
    ensures Count(words, width, q) <= Count(words, width, p)
    decreases |words| - p
  {
    if q == |words| || p == q {
      return;
    }
    var end := Reach(words, width, p, p + 1);
    if q < end {
      ReachFits(words, width, p, p + 1);
      if q < end - 1 { LengthShrinks(words, p, q, end); }
      ReachesFar(words, width, q, q + 1, end);
      LaterIsFewer(words, width, end, Reach(words, width, q, q + 1));
    } else {
      LaterIsFewer(words, width, end, q);
    }
  }

  // ----- against every other wrapping ------------------------------------

  /** No wider than `width`, unless it is a single word. */
  predicate Fits(line: string, width: nat) {
    |line| <= width || |Words(line)| == 1
  }

  predicate AllFit(lines: seq<string>, width: nat) {
    forall i :: 0 <= i < |lines| ==> Fits(lines[i], width)
  }

  lemma {:induction false} JoinLength(words: seq<string>, p: nat, q: nat)
    requires p < q <= |words|
    ensures |Join(words[p..q], " ")| == Length(words, p, q)
    decreases q
  {
    if q == p + 1 {
      assert words[p..q] == [words[p]];
    } else {
      JoinLength(words, p, q - 1);
      assert words[p..q] == words[p..q - 1] + [words[q - 1]];
      JoinMore(words[p..q - 1], words[q - 1]);
    }
  }

  lemma FitsByPosition(words: seq<string>, width: nat, p: nat, q: nat, line: string)
    requires p < q <= |words| && Words(line) == words[p..q] && Fits(line, width)
    ensures FitsAt(words, width, p, q)
  {
    JoinIsShortest(line);
    JoinLength(words, p, q);
  }

  /** No wrapping of the words from `p` on whose lines fit has fewer lines. */
  lemma {:induction false} GreedyIsBest(words: seq<string>, width: nat, p: nat, other: seq<string>)
    requires p <= |words| && AllWords(other) == words[p..] && AllFit(other, width)
    ensures Count(words, width, p) <= |other|
    decreases |other|
  {
    hide Words, Fits;
    if p < |words| {
      assert other != [];
      var first := Words(other[0]);
      var q := p + |first|;
      assert words[p..][..|first|] == first && words[p..][|first|..] == words[q..];
      assert AllWords(other[1..]) == words[q..] by { assert AllWords(other)[|first|..] == AllWords(other[1..]); }
      GreedyIsBest(words, width, q, other[1..]);
      if p < q {
        assert words[p..q] == first;
        FitsByPosition(words, width, p, q, other[0]);
        ReachesFar(words, width, p, p + 1, q);
        LaterIsFewer(words, width, q, Reach(words, width, p, p + 1));
      }
    }
  }

  // ----- the wrap as it is written ---------------------------------------

  /** Every word is kept in order, every line fits or is one word, and no other lines of
      the same words that fit are fewer. */
  method WrapText(text: string, width: nat) returns (lines: seq<string>)
    ensures AllWords(lines) == Words(text)
    ensures AllFit(lines, width)
    ensures forall other :: AllWords(other) == Words(text) && AllFit(other, width) ==> |lines| <= |other|
  {
    var words := Words(text);
    WordsAreWords(text);
    hide Words, Fits, Join, Length, IsWord;
    lines := [];
    var current := "";
    ghost var p := 0;
    var i := 0;
    while i < |words|
      invariant 0 <= p <= i <= |words| && (i == 0 <==> current == "") && (i > 0 ==> p < i)
      invariant AllWords(lines) == words[..p] && AllFit(lines, width)
      invariant |lines| + Count(words, width, p) == Count(words, width, 0)
      invariant i > 0 ==> current == Join(words[p..i], " ") && FitsAt(words, width, p, i)
      invariant i > 0 ==> Reach(words, width, p, i) == Reach(words, width, p, p + 1)
    {
      var word := words[i];
      WordIsSomething(words, i);
      if current == "" {
        JoinOne(word);
        assert words[0..1] == [word];
        current := word;
      } else {
        JoinLength(words, p, i);
        if |current| + 1 + |word| <= width {
          JoinMore(words[p..i], word);
          assert words[p..i + 1] == words[p..i] + [word];
          LengthMore(words, p, i);
          current := current + " " + word;
        } else {
          LineDone(words, width, lines, p, i, current);
          lines := lines + [current];
          JoinOne(word);
          assert words[i..i + 1] == [word];
          p := i;
          current := word;
        }
      }
      i := i + 1;
    }
    if current != "" {
      JoinLength(words, p, i);
      LineDone(words, width, lines, p, i, current);
      lines := lines + [current];
    }
    assert words[..|words|] == words == words[0..];
    forall other | AllWords(other) == words && AllFit(other, width) ensures |lines| <= |other| {
      GreedyIsBest(words, width, 0, other);
    }
  }

  lemma WordIsSomething(words: seq<string>, i: nat)
    requires AreWords(words) && i < |words|
    ensures words[i] != ""
  {
  }

  lemma JoinOne(word: string)
    ensures Join([word], " ") == word
  {
  }

  lemma LengthMore(words: seq<string>, p: nat, i: nat)
    requires p < i < |words|
    ensures Length(words, p, i + 1) == Length(words, p, i) + 1 + |words[i]|
  {
  }

  lemma LineDone(words: seq<string>, width: nat, lines: seq<string>, p: nat, i: nat, current: string)
    requires p < i <= |words| && AreWords(words)
    requires current == Join(words[p..i], " ") && |current| == Length(words, p, i) && FitsAt(words, width, p, i)
    requires AllWords(lines) == words[..p] && AllFit(lines, width)
    ensures AllWords(lines + [current]) == words[..i] && AllFit(lines + [current], width)
  {
    hide Words, Length, Join, IsWord;
    AllWordsMore(lines, current);
    WordsJoin(words[p..i]);
    assert words[..i] == words[..p] + words[p..i];
  }
}
