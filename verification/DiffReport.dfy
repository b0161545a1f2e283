/** The diff as it is computed: lines collected into a set, two set differences,
    a filter, and a sort. */
module DiffReport {
  import opened Wrappers
  import opened Config
  import opened Diff
  import Order

  // ----- collecting lines ------------------------------------------------

  /** `collect`: put every line at or below `at` into `out`, and say whether there was one. */
  method CollectInto(node: Node, at: Path, out: set<Line>) returns (r: set<Line>, any: bool)
    ensures r == out + Collect(node, at)
    ensures any <==> Collect(node, at) != {}
    decreases node, 1
  {
    match node.body {
      case Values(values) =>
        if values == {} {
          return out + {(at, None)}, true;
        }
        CollectValues(node, at);
        r, any := out + (set v | v in values :: (at, Some(v))), true;
      case Interior(children) =>
        r, any := CollectChildren(node, at, out);
        if !any && at != [] {
          EmptyCollects(node, at);
          r, any := r + {(at, None)}, true;
        } else {
          AllGathered(node, at);
        }
    }
  }

  method CollectChildren(node: Node, at: Path, out: set<Line>) returns (r: set<Line>, any: bool)
    requires node.IsInterior()
    ensures r == out + Gathered(node.body.children, Order.Sorted(node.body.children.Keys), at)
    ensures any <==> Gathered(node.body.children, Order.Sorted(node.body.children.Keys), at) != {}
    ensures any <==> node.body.children != map[]
    decreases node, 0
  {
    hide Collect, Gathered, Order.Sorted;
    var children := node.body.children;
    var names := Order.Sorted(children.Keys);
    r, any := out, false;
    GatheredNone(children, at);
    assert names[..0] == [];
    for i := 0 to |names|
      invariant r == out + Gathered(children, names[..i], at)
      invariant any <==> Gathered(children, names[..i], at) != {}
      invariant any <==> i > 0
    {
      var name := names[i];
      var found: bool;
      r, found := CollectInto(children[name], at + [name], r);
      any := any || found;
      CollectSome(children[name], at + [name]);
      GatheredMore(children, names, i, at);
    }
    assert names[..|names|] == names;
  }

  lemma GatheredNone(children: map<string, Node>, at: Path)
    ensures Gathered(children, [], at) == {}
  {
  }

  lemma EmptyCollects(node: Node, at: Path)
    requires node.body == Interior(map[]) && at != []
    ensures Collect(node, at) == {(at, None)}
  {
  }

  ghost function Gathered(children: map<string, Node>, names: seq<string>, at: Path): set<Line>
  {
    set name, line | name in names && name in children && line in Collect(children[name], at + [name]) :: line
  }

  lemma GatheredMore(children: map<string, Node>, names: seq<string>, i: nat, at: Path)
    requires i < |names| && names[i] in children
    ensures Gathered(children, names[..i + 1], at)
         == Gathered(children, names[..i], at) + Collect(children[names[i]], at + [names[i]])
  {
    hide Collect;
    assert names[..i + 1] == names[..i] + [names[i]];
  }

  lemma AllGathered(node: Node, at: Path)
    requires node.IsInterior() && !(node.body.children == map[] && at != [])
    ensures Collect(node, at) == Gathered(node.body.children, Order.Sorted(node.body.children.Keys), at)
  {
    var children := node.body.children;
    forall line ensures line in Collect(node, at) <==>
      exists name :: name in children && line in Collect(children[name], at + [name]) {}
  }

  // ----- the order changes are reported in -------------------------------

  predicate PathLeq(a: Path, b: Path) {
    a == [] || (b != [] && (if a[0] == b[0] then PathLeq(a[1..], b[1..]) else Order.Leq(a[0], b[0])))
  }

  /** The derived order: path, then removals before additions, then no value before any. */
  predicate ChangeLeq(a: Change, b: Change) {
    if a.path != b.path then PathLeq(a.path, b.path)
    else if a.op != b.op then a.op.Remove?
    else match (a.value, b.value)
         case (None, _) => true
         case (Some(_), None) => false
         case (Some(x), Some(y)) => Order.Leq(x, y)
  }

  lemma {:induction false} PathTotal(a: Path, b: Path)
    ensures PathLeq(a, b) || PathLeq(b, a)
  {
    if a != [] && b != [] {
      Order.LeqTotal(a[0], b[0]);
      PathTotal(a[1..], b[1..]);
    }
  }

  lemma {:induction false} PathAntisymmetric(a: Path, b: Path)
    requires PathLeq(a, b) && PathLeq(b, a)
    ensures a == b
  {
    if a != [] && b != [] {
      if a[0] == b[0] { PathAntisymmetric(a[1..], b[1..]); }
      else { Order.LeqAntisymmetric(a[0], b[0]); }
      assert a == [a[0]] + a[1..] && b == [b[0]] + b[1..];
    }
  }

  lemma {:induction false} PathTransitive(a: Path, b: Path, c: Path)
    requires PathLeq(a, b) && PathLeq(b, c)
    ensures PathLeq(a, c)
  {
    if a != [] && b != [] && c != [] {
      if a[0] == b[0] == c[0] { PathTransitive(a[1..], b[1..], c[1..]); }
      else if a[0] == b[0] || b[0] == c[0] {}
      else {
        Order.LeqTransitive(a[0], b[0], c[0]);
        if a[0] == c[0] { Order.LeqAntisymmetric(a[0], b[0]); }
      }
    }
  }

  lemma ChangeTotal(a: Change, b: Change)
    ensures ChangeLeq(a, b) || ChangeLeq(b, a)
  {
    PathTotal(a.path, b.path);
    if a.value.Some? && b.value.Some? { Order.LeqTotal(a.value.value, b.value.value); }
  }

  lemma ChangeTransitive(a: Change, b: Change, c: Change)
    requires ChangeLeq(a, b) && ChangeLeq(b, c)
    ensures ChangeLeq(a, c)
  {
    hide PathLeq, Order.Leq;
    if a.path != b.path && b.path != c.path {
      PathTransitive(a.path, b.path, c.path);
      if a.path == c.path { PathAntisymmetric(a.path, b.path); }
    } else if a.path == b.path == c.path && a.op == b.op == c.op {
      if a.value.Some? && b.value.Some? && c.value.Some? {
        Order.LeqTransitive(a.value.value, b.value.value, c.value.value);
      }
    }
  }

  ghost predicate InOrder(r: seq<Change>) {
    forall i, j :: 0 <= i < j < |r| ==> ChangeLeq(r[i], r[j]) && r[i] != r[j]
  }

  /** Put one more change into a sorted list. */
  method Insert(c: Change, sorted: seq<Change>) returns (r: seq<Change>)
    requires InOrder(sorted) && c !in sorted
    ensures InOrder(r) && forall x :: x in r <==> x == c || x in sorted
  {
    hide ChangeLeq;
    var i := 0;
    while i < |sorted| && ChangeLeq(sorted[i], c)
      invariant i <= |sorted| && forall k :: 0 <= k < i ==> ChangeLeq(sorted[k], c)
    {
      i := i + 1;
    }
    r := sorted[..i] + [c] + sorted[i..];
    if i < |sorted| {
      ChangeTotal(sorted[i], c);
      forall k | i <= k < |sorted| ensures ChangeLeq(c, sorted[k]) {
        if k > i { ChangeTransitive(c, sorted[i], sorted[k]); }
      }
    }
  }

  /** `diff`: every line on one side only that is news, sorted, each reported once. */
  method Report(from: Node, to: Node) returns (r: seq<Change>)
    ensures InOrder(r)
    ensures forall c :: c in r <==> c in Changes(from, to)
  {
    hide ChangeLeq, Collect, InOrder;
    var before, _ := CollectInto(from, [], {});
    var after, _ := CollectInto(to, [], {});
    assert before == LinesOf(from) && after == LinesOf(to);
    var todo := (set line | line in after - before && News(from, to, line) :: Change(line.0, Add, line.1))
                + (set line | line in before - after && News(from, to, line) :: Change(line.0, Remove, line.1));
    assert todo == Changes(from, to);
    r := [];
    assert InOrder(r) by { NoneInOrder(); }
    while todo != {}
      invariant InOrder(r)
      invariant forall c :: c in r ==> c !in todo
      invariant forall c :: c in Changes(from, to) <==> c in r || c in todo
      decreases |todo|
    {
      var c :| c in todo;
      r := Insert(c, r);
      todo := todo - {c};
    }
  }

  lemma NoneInOrder()
    ensures InOrder([])
  {
  }
}
