/** The order a commit's changes are taken and reported in: by the priority of what they
    touch, and within that as the diff had them. */
module CommitOrder {
  import opened Wrappers
  import opened Config
  import opened Diff
  import opened DiffReport

  /** The priority of the nearest node the schema knows, walking up. */
  function Priority(nodeAt: Path -> Option<nat>, path: Path): (r: Option<nat>)
    ensures r.Some? ==> exists k :: 0 <= k <= |path| && nodeAt(path[..k]) == r && forall j :: k < j <= |path| ==> nodeAt(path[..j]).None?
    ensures r.None? ==> forall k :: 0 <= k <= |path| ==> nodeAt(path[..k]).None?
    decreases |path|
  {
    assert path[..|path|] == path;
    if nodeAt(path).Some? then nodeAt(path)
    else if path == [] then None
    else
      var parent := path[..|path| - 1];
      assert forall k :: 0 <= k < |path| ==> parent[..k] == path[..k];
      Priority(nodeAt, parent)
  }

  method FindPriority(nodeAt: Path -> Option<nat>, start: Path) returns (r: Option<nat>)
    ensures r == Priority(nodeAt, start)
  {
    var path := start;
    while nodeAt(path).None?
      invariant Priority(nodeAt, path) == Priority(nodeAt, start)
      decreases |path|
    {
      if path == [] { return None; }
      path := path[..|path| - 1];
    }
    r := nodeAt(path);
  }

  /** What a change under no known node ranks as. */
  const LAST: nat := 0xFFFF_FFFF

  function Rank(nodeAt: Path -> Option<nat>, c: Change): nat {
    Priority(nodeAt, c.path).UnwrapOr(LAST)
  }

  /** The key the changes are sorted by: the value is not part of it. */
  predicate KeyLeq(nodeAt: Path -> Option<nat>, a: Change, b: Change) {
    var p, q := Rank(nodeAt, a), Rank(nodeAt, b);
    p < q || (p == q && ChangeLeq(a.(value := None), b.(value := None)))
  }

  /** The order that comes out: by priority, then as the diff sorts. */
  predicate TakenBefore(nodeAt: Path -> Option<nat>, a: Change, b: Change) {
    var p, q := Rank(nodeAt, a), Rank(nodeAt, b);
    p < q || (p == q && ChangeLeq(a, b))
  }

  ghost predicate Ordered(nodeAt: Path -> Option<nat>, r: seq<Change>) {
    forall i, j :: 0 <= i < j < |r| ==> TakenBefore(nodeAt, r[i], r[j])
  }

  lemma TakenTransitive(nodeAt: Path -> Option<nat>, a: Change, b: Change, c: Change)
    requires TakenBefore(nodeAt, a, b) && TakenBefore(nodeAt, b, c)
    ensures TakenBefore(nodeAt, a, c)
  {
    hide Rank, ChangeLeq;
    if Rank(nodeAt, a) == Rank(nodeAt, b) == Rank(nodeAt, c) { ChangeTransitive(a, b, c); }
  }

  /** Where the key does not decide, the diff's own order already has. */
  lemma KeyThenValue(nodeAt: Path -> Option<nat>, a: Change, b: Change)
    requires KeyLeq(nodeAt, a, b) && ChangeLeq(a, b)
    ensures TakenBefore(nodeAt, a, b)
  {
    hide Rank, ChangeLeq;
  }

  lemma KeyDecides(nodeAt: Path -> Option<nat>, a: Change, b: Change)
    requires !KeyLeq(nodeAt, a, b)
    ensures TakenBefore(nodeAt, b, a)
  {
    hide Rank, PathLeq;
    PathTotal(a.path, b.path);
  }

  /** A stable sort of what the diff reports. */
  method Order(nodeAt: Path -> Option<nat>, changes: seq<Change>) returns (r: seq<Change>)
    requires InOrder(changes)
    ensures multiset(r) == multiset(changes) && Ordered(nodeAt, r)
  {
    hide KeyLeq, TakenBefore, Ordered, ChangeLeq;
    r := [];
    OrderedNone(nodeAt);
    var i := 0;
    while i < |changes|
      invariant 0 <= i <= |changes|
      invariant multiset(r) == multiset(changes[..i]) && Ordered(nodeAt, r)
      invariant forall x :: x in r ==> x in changes[..i]
    {
      forall x | x in r ensures ChangeLeq(x, changes[i]) {
        var k :| 0 <= k < i && changes[..i][k] == x;
        assert changes[k] == x;
      }
      r := InsertStable(nodeAt, changes[i], r);
      assert changes[..i + 1] == changes[..i] + [changes[i]];
      forall x | x in r ensures x in changes[..i + 1] { assert x in multiset(r); }
      i := i + 1;
    }
    assert changes[..i] == changes;
  }

  method InsertStable(nodeAt: Path -> Option<nat>, c: Change, sorted: seq<Change>) returns (r: seq<Change>)
    requires Ordered(nodeAt, sorted) && forall x :: x in sorted ==> ChangeLeq(x, c)
    ensures Ordered(nodeAt, r) && multiset(r) == multiset(sorted) + multiset{c}
  {
    hide KeyLeq, TakenBefore, ChangeLeq;
    var i := 0;
    while i < |sorted| && KeyLeq(nodeAt, sorted[i], c)
      invariant 0 <= i <= |sorted| && forall k :: 0 <= k < i ==> TakenBefore(nodeAt, sorted[k], c)
    {
      assert sorted[i] in sorted;
      KeyThenValue(nodeAt, sorted[i], c);
      i := i + 1;
    }
    if i < |sorted| {
      KeyDecides(nodeAt, sorted[i], c);
      forall k | i < k < |sorted| ensures TakenBefore(nodeAt, c, sorted[k]) { TakenTransitive(nodeAt, c, sorted[i], sorted[k]); }
    }
    r := sorted[..i] + [c] + sorted[i..];
    assert sorted == sorted[..i] + sorted[i..];
  }

  lemma OrderedNone(nodeAt: Path -> Option<nat>)
    ensures Ordered(nodeAt, [])
  {
  }
}
