/** The line diff the shell shows: both texts can be read back from it, and no diff keeps
    more lines. */
module LineDiff {

  datatype Edit = Same(line: string) | Added(line: string) | Removed(line: string)

  /** The lines a diff starts from. */
  function Before(edits: seq<Edit>): seq<string> {
    if edits == [] then [] else
      (if edits[0].Added? then [] else [edits[0].line]) + Before(edits[1..])
  }

  /** The lines it ends with. */
  function After(edits: seq<Edit>): seq<string> {
    if edits == [] then [] else
      (if edits[0].Removed? then [] else [edits[0].line]) + After(edits[1..])
  }

  /** The lines it keeps. */
  function Kept(edits: seq<Edit>): seq<string> {
    if edits == [] then [] else
      (if edits[0].Same? then [edits[0].line] else []) + Kept(edits[1..])
  }

  // ----- common subsequences ---------------------------------------------

  /** `part` is found in `whole` at the increasing positions `at`. */
  predicate FoundAt(part: seq<string>, whole: seq<string>, at: seq<int>) {
    && |at| == |part|
    && (forall k :: 0 <= k < |at| ==> 0 <= at[k] < |whole| && whole[at[k]] == part[k])
    && (forall k :: 0 < k < |at| ==> at[k - 1] < at[k])
  }

  ghost predicate Subsequence(part: seq<string>, whole: seq<string>) {
    exists at :: FoundAt(part, whole, at)
  }

  function Max(a: nat, b: nat): nat {
    if a < b then b else a
  }

  /** What the table holds: the length of the longest common subsequence. */
  function Longest(a: seq<string>, b: seq<string>): nat {
    if a == [] || b == [] then 0
    else if a[0] == b[0] then Longest(a[1..], b[1..]) + 1
    else Max(Longest(a[1..], b), Longest(a, b[1..]))
  }

  /** Positions counted from the second line instead of the first. */
  function Back(at: seq<int>): seq<int> {
    seq(|at|, k requires 0 <= k < |at| => at[k] - 1)
  }

  lemma {:induction false} Increasing(part: seq<string>, whole: seq<string>, at: seq<int>, k: nat)
    requires FoundAt(part, whole, at) && k < |at|
    ensures at[0] + k <= at[k]
  {
    if k > 0 { Increasing(part, whole, at, k - 1); }
  }

  lemma SkipFirst(part: seq<string>, whole: seq<string>, at: seq<int>)
    requires FoundAt(part, whole, at) && whole != [] && (at != [] ==> at[0] > 0)
    ensures FoundAt(part, whole[1..], Back(at))
  {
    forall k | 0 <= k < |at| ensures 0 <= at[k] - 1 < |whole| - 1 && whole[1..][at[k] - 1] == part[k] {
      Increasing(part, whole, at, k);
    }
  }

  lemma DropFirst(part: seq<string>, whole: seq<string>, at: seq<int>)
    requires FoundAt(part, whole, at) && part != [] && whole != []
    ensures FoundAt(part[1..], whole[1..], Back(at[1..]))
  {
    assert |at| > 1 ==> at[0] < at[1];
    assert FoundAt(part[1..], whole, at[1..]);
    SkipFirst(part[1..], whole, at[1..]);
  }

  /** No common subsequence is longer. */
  lemma {:induction false} NoneLonger(part: seq<string>, a: seq<string>, b: seq<string>, inA: seq<int>, inB: seq<int>)
    requires FoundAt(part, a, inA) && FoundAt(part, b, inB)
    ensures |part| <= Longest(a, b)
    decreases |a| + |b|
  {
    if part != [] {
      assert a[inA[0]] == part[0] == b[inB[0]];
      if a[0] == b[0] {
        DropFirst(part, a, inA);
        DropFirst(part, b, inB);
        NoneLonger(part[1..], a[1..], b[1..], Back(inA[1..]), Back(inB[1..]));
      } else if inA[0] > 0 {
        SkipFirst(part, a, inA);
        NoneLonger(part, a[1..], b, Back(inA), inB);
      } else {
        SkipFirst(part, b, inB);
        NoneLonger(part, a, b[1..], inA, Back(inB));
      }
    }
  }

  function Forth(at: seq<int>): seq<int> {
    seq(|at|, k requires 0 <= k < |at| => at[k] + 1)
  }

  lemma SubsequenceCons(part: seq<string>, whole: seq<string>, line: string)
    requires Subsequence(part, whole)
    ensures Subsequence(part, [line] + whole)
    ensures Subsequence([line] + part, [line] + whole)
  {
    var at :| FoundAt(part, whole, at);
    assert FoundAt(part, [line] + whole, Forth(at));
    assert FoundAt([line] + part, [line] + whole, [0] + Forth(at));
  }

  /** What a diff keeps is a subsequence of both of its texts. */
  lemma {:induction false} KeptIsCommon(edits: seq<Edit>)
    ensures Subsequence(Kept(edits), Before(edits)) && Subsequence(Kept(edits), After(edits))
  {
    hide Subsequence;
    if edits == [] {
      NothingFound();
    } else {
      KeptIsCommon(edits[1..]);
      SubsequenceCons(Kept(edits[1..]), Before(edits[1..]), edits[0].line);
      SubsequenceCons(Kept(edits[1..]), After(edits[1..]), edits[0].line);
      assert [] + Kept(edits[1..]) == Kept(edits[1..]);
      assert [] + Before(edits[1..]) == Before(edits[1..]);
      assert [] + After(edits[1..]) == After(edits[1..]);
    }
  }

  lemma NothingFound()
    ensures Subsequence([], [])
  {
    assert FoundAt([], [], []);
  }

  /** So a diff that keeps as many lines as the table says keeps the most of all diffs
      between its two texts. */
  lemma LongestIsBest(edits: seq<Edit>, other: seq<Edit>)
    requires |Kept(edits)| == Longest(Before(edits), After(edits))
    requires Before(other) == Before(edits) && After(other) == After(edits)
    ensures |Kept(other)| <= |Kept(edits)|
  {
    KeptIsCommon(other);
    CommonIsShort(Kept(other), Before(other), After(other));
  }

  // ----- the walk --------------------------------------------------------

  lemma {:induction false} MoreBefore(edits: seq<Edit>, e: Edit)
    ensures Before(edits + [e]) == Before(edits) + if e.Added? then [] else [e.line]
  {
    if edits != [] {
      assert (edits + [e])[1..] == edits[1..] + [e];
      MoreBefore(edits[1..], e);
    }
  }

  lemma {:induction false} MoreAfter(edits: seq<Edit>, e: Edit)
    ensures After(edits + [e]) == After(edits) + if e.Removed? then [] else [e.line]
  {
    if edits != [] {
      assert (edits + [e])[1..] == edits[1..] + [e];
      MoreAfter(edits[1..], e);
    }
  }

  lemma {:induction false} MoreKept(edits: seq<Edit>, e: Edit)
    ensures |Kept(edits + [e])| == |Kept(edits)| + if e.Same? then 1 else 0
  {
    if edits != [] {
      assert (edits + [e])[1..] == edits[1..] + [e];
      MoreKept(edits[1..], e);
    }
  }

  /** The edits so far account for the first `i` and `j` lines. */
  predicate Spells(edits: seq<Edit>, before: seq<string>, after: seq<string>, i: nat, j: nat)
    requires i <= |before| && j <= |after|
  {
    Before(edits) == before[..i] && After(edits) == after[..j]
  }

  lemma SpellsMore(edits: seq<Edit>, before: seq<string>, after: seq<string>, i: nat, j: nat, e: Edit)
    requires i <= |before| && j <= |after| && Spells(edits, before, after, i, j)
    requires !e.Added? ==> i < |before| && e.line == before[i]
    requires !e.Removed? ==> j < |after| && e.line == after[j]
    ensures Spells(edits + [e], before, after, if e.Added? then i else i + 1, if e.Removed? then j else j + 1)
  {
    hide Before, After;
    MoreBefore(edits, e);
    MoreAfter(edits, e);
  }

  lemma LongestAt(before: seq<string>, after: seq<string>, i: nat, j: nat)
    requires i < |before| && j < |after|
    ensures Longest(before[i..], after[j..]) ==
            if before[i] == after[j] then Longest(before[i + 1..], after[j + 1..]) + 1
            else Max(Longest(before[i + 1..], after[j..]), Longest(before[i..], after[j + 1..]))
  {
    assert before[i..][1..] == before[i + 1..] && after[j..][1..] == after[j + 1..];
  }

  ghost predicate Tabulates(lengths: array2<nat>, before: seq<string>, after: seq<string>)
    reads lengths
  {
    && lengths.Length0 == |before| + 1 && lengths.Length1 == |after| + 1
    && forall p, q :: 0 <= p <= |before| && 0 <= q <= |after| ==> lengths[p, q] == Longest(before[p..], after[q..])
  }

  lemma Exhausted(before: seq<string>, after: seq<string>, i: nat, j: nat)
    requires i <= |before| && j <= |after| && (i == |before| || j == |after|)
    ensures Longest(before[i..], after[j..]) == 0
  {
  }

  lemma TableAt(lengths: array2<nat>, before: seq<string>, after: seq<string>, i: nat, j: nat)
    requires Tabulates(lengths, before, after) && i <= |before| && j <= |after|
    ensures lengths.Length0 == |before| + 1 && lengths.Length1 == |after| + 1
    ensures lengths[i, j] == Longest(before[i..], after[j..])
  {
  }

  method Lengths(before: seq<string>, after: seq<string>) returns (lengths: array2<nat>)
    ensures fresh(lengths) && Tabulates(lengths, before, after)
  {
    var n, m := |before|, |after|;
    lengths := new nat[n + 1, m + 1]((_, _) => 0);
    for i := n downto 0
      invariant forall p, q :: i <= p <= n && 0 <= q <= m ==> lengths[p, q] == Longest(before[p..], after[q..])
      invariant forall p :: 0 <= p <= n ==> lengths[p, m] == 0
    {
      for j := m downto 0
        invariant forall p, q :: i < p <= n && 0 <= q <= m ==> lengths[p, q] == Longest(before[p..], after[q..])
        invariant forall q :: j <= q <= m ==> lengths[i, q] == Longest(before[i..], after[q..])
        invariant forall p :: 0 <= p <= n ==> lengths[p, m] == 0
      {
        var a, b := before[i..], after[j..];
        assert a[1..] == before[i + 1..] && b[1..] == after[j + 1..];
        lengths[i, j] := if before[i] == after[j] then lengths[i + 1, j + 1] + 1
                         else Max(lengths[i + 1, j], lengths[i, j + 1]);
      }
    }
  }

  /** In every changed part, what was removed is shown before what was added. */
  ghost predicate RemovalsFirst(edits: seq<Edit>) {
    forall k :: 0 < k < |edits| ==> !(edits[k - 1].Added? && edits[k].Removed?)
  }

  predicate EndsAdding(edits: seq<Edit>) {
    edits != [] && edits[|edits| - 1].Added?
  }

  lemma RemovalsOn(edits: seq<Edit>, e: Edit)
    requires RemovalsFirst(edits) && !(e.Removed? && EndsAdding(edits))
    ensures RemovalsFirst(edits + [e])
  {
  }

  /** One line fewer of either text loses at most one line in common. */
  lemma {:induction false} OneFewer(a: seq<string>, b: seq<string>)
    ensures a != [] ==> Longest(a[1..], b) <= Longest(a, b) <= Longest(a[1..], b) + 1
    ensures b != [] ==> Longest(a, b[1..]) <= Longest(a, b) <= Longest(a, b[1..]) + 1
    decreases |a| + |b|
  {
    if a != [] && b != [] {
      OneFewer(a[1..], b);
      OneFewer(a, b[1..]);
      OneFewer(a[1..], b[1..]);
    }
  }

  /** What is left of one text when the other has run out. */
  method Rest(start: seq<Edit>, before: seq<string>, after: seq<string>, i0: nat, j0: nat) returns (edits: seq<Edit>)
    requires i0 <= |before| && j0 <= |after| && Spells(start, before, after, i0, j0)
    requires RemovalsFirst(start) && (EndsAdding(start) ==> i0 == |before|)
    ensures Spells(edits, before, after, |before|, |after|) && |Kept(edits)| == |Kept(start)| && RemovalsFirst(edits)
  {
    hide Before, After, Kept, Spells, RemovalsFirst;
    var i, j := i0, j0;
    edits := start;
    while i < |before|
      invariant 0 <= i <= |before| && Spells(edits, before, after, i, j) && |Kept(edits)| == |Kept(start)|
      invariant RemovalsFirst(edits) && (EndsAdding(edits) ==> i == |before|)
    {
      RemovalsOn(edits, Removed(before[i]));
      SpellsMore(edits, before, after, i, j, Removed(before[i]));
      MoreKept(edits, Removed(before[i]));
      edits := edits + [Removed(before[i])];
      i := i + 1;
    }
    while j < |after|
      invariant 0 <= j <= |after| && Spells(edits, before, after, i, j) && |Kept(edits)| == |Kept(start)|
      invariant RemovalsFirst(edits)
    {
      RemovalsOn(edits, Added(after[j]));
      SpellsMore(edits, before, after, i, j, Added(after[j]));
      MoreKept(edits, Added(after[j]));
      edits := edits + [Added(after[j])];
      j := j + 1;
    }
  }

  /** Same and removed lines spell the text before, same and added ones the text after,
      no common subsequence of the two is longer than the lines kept, and each change is
      shown as what went and then what came. */
  method Diff(before: seq<string>, after: seq<string>) returns (edits: seq<Edit>)
    ensures Before(edits) == before && After(edits) == after
    ensures Subsequence(Kept(edits), before) && Subsequence(Kept(edits), after)
    ensures forall part :: Subsequence(part, before) && Subsequence(part, after) ==> |part| <= |Kept(edits)|
    ensures RemovalsFirst(edits)
  {
    var lengths := Lengths(before, after);
    edits := [];
    assert Spells([], before, after, 0, 0) && Kept([]) == [];
    hide Before, After, Kept, Longest, Spells, Subsequence, Tabulates, RemovalsFirst;
    var i, j := 0, 0;
    assert before[0..] == before && after[0..] == after;
    while i < |before| && j < |after|
      invariant Tabulates(lengths, before, after)
      invariant 0 <= i <= |before| && 0 <= j <= |after| && Spells(edits, before, after, i, j)
      invariant |Kept(edits)| + Longest(before[i..], after[j..]) == Longest(before, after)
      invariant RemovalsFirst(edits)
      invariant EndsAdding(edits) ==> i < |before| && Longest(before[i + 1..], after[j..]) < Longest(before[i..], after[j..])
      decreases |before| - i + |after| - j
    {
      LongestAt(before, after, i, j);
      TableAt(lengths, before, after, i + 1, j);
      TableAt(lengths, before, after, i, j + 1);
      var e := if before[i] == after[j] then Same(after[j])
               else if lengths[i + 1, j] >= lengths[i, j + 1] then Removed(before[i])
               else Added(after[j]);
      SpellsMore(edits, before, after, i, j, e);
      MoreKept(edits, e);
      RemovalsOn(edits, e);
      if e.Added? { AddingGoesOn(before, after, i, j); }
      edits := edits + [e];
      if !e.Added? { i := i + 1; }
      if !e.Removed? { j := j + 1; }
    }
    Exhausted(before, after, i, j);
    edits := Rest(edits, before, after, i, j);
    SpelledOut(edits, before, after);
    KeptIsCommon(edits);
    forall part | Subsequence(part, before) && Subsequence(part, after) ensures |part| <= |Kept(edits)| {
      CommonIsShort(part, before, after);
    }
  }

  lemma AddingGoesOn(before: seq<string>, after: seq<string>, i: nat, j: nat)
    requires i < |before| && j < |after| && Longest(before[i + 1..], after[j..]) < Longest(before[i..], after[j + 1..])
    ensures Longest(before[i + 1..], after[j + 1..]) < Longest(before[i..], after[j + 1..])
  {
    hide Longest;
    assert after[j..][1..] == after[j + 1..];
    OneFewer(before[i + 1..], after[j..]);
  }

  lemma SpelledOut(edits: seq<Edit>, before: seq<string>, after: seq<string>)
    requires Spells(edits, before, after, |before|, |after|)
    ensures Before(edits) == before && After(edits) == after
  {
    assert before[..|before|] == before && after[..|after|] == after;
  }

  lemma CommonIsShort(part: seq<string>, before: seq<string>, after: seq<string>)
    requires Subsequence(part, before) && Subsequence(part, after)
    ensures |part| <= Longest(before, after)
  {
    var inA :| FoundAt(part, before, inA);
    var inB :| FoundAt(part, after, inB);
    NoneLonger(part, before, after, inA, inB);
  }
}
