/** Structured differences between two configurations. */
module Diff {
  import opened Wrappers
  import opened Config

  /** A path, and the value on it if the node there holds one. */
  type Line = (Path, Option<string>)

  datatype Op = Remove | Add

  datatype Change = Change(path: Path, op: Op, value: Option<string>)

  /** The lines at or below a node: one per value, and a valueless one for a node
      that is configured but has nothing below it. The root never counts. */
  function Collect(node: Node, at: Path): set<Line>
    decreases node
  {
    match node.body
    case Values(values) =>
      if values == {} then {(at, None)} else set v | v in values :: (at, Some(v))
    case Interior(children) =>
      if children == map[] && at != [] then {(at, None)}
      else set name, line | name in children && line in Collect(children[name], at + [name]) :: line
  }

  function LinesOf(tree: Node): set<Line> {
    Collect(tree, [])
  }

  /** Whether `path` is an interior node in both configurations. */
  predicate Survives(from: Node, to: Node, path: Path) {
    && Get(from, path).Some? && Get(from, path).value.IsInterior()
    && Get(to, path).Some? && Get(to, path).value.IsInterior()
  }

  /** A valueless line is not news about a node that is in both. */
  predicate News(from: Node, to: Node, line: Line) {
    line.1.Some? || !Survives(from, to, line.0)
  }

  /** What `diff` reports, before it is sorted. */
  function Changes(from: Node, to: Node): set<Change> {
    (set line | line in LinesOf(to) - LinesOf(from) && News(from, to, line) :: Change(line.0, Add, line.1))
    + (set line | line in LinesOf(from) - LinesOf(to) && News(from, to, line) :: Change(line.0, Remove, line.1))
  }

  // ----- where lines come from -------------------------------------------

  lemma CollectBelow(node: Node, at: Path, line: Line)
    requires line in Collect(node, at)
    ensures at <= line.0
    decreases node
  {
    if node.body.Interior? && !(node.body.children == map[] && at != []) {
      var children := node.body.children;
      var name :| name in children && line in Collect(children[name], at + [name]);
      CollectBelow(children[name], at + [name], line);
      assert at <= at + [name];
    }
  }

  lemma CollectSome(node: Node, at: Path)
    requires at != []
    ensures Collect(node, at) != {}
    decreases node
  {
    match node.body
    case Values(values) =>
      if values != {} {
        var v :| v in values;
        assert (at, Some(v)) in Collect(node, at);
      }
    case Interior(children) =>
      if children != map[] {
        var name :| name in children;
        CollectSome(children[name], at + [name]);
        var line :| line in Collect(children[name], at + [name]);
        assert line in Collect(node, at);
      }
  }

  /** The lines below one child are those whose path goes through it. */
  lemma CollectChild(node: Node, at: Path, name: string)
    requires node.IsInterior() && !(node.body.children == map[] && at != [])
    ensures (set line | line in Collect(node, at) && at + [name] <= line.0)
         == if name in node.body.children then Collect(node.body.children[name], at + [name]) else {}
  {
    var children := node.body.children;
    forall line | line in Collect(node, at) && at + [name] <= line.0
      ensures name in children && line in Collect(children[name], at + [name])
    {
      var other :| other in children && line in Collect(children[other], at + [other]);
      CollectBelow(children[other], at + [other], line);
      assert line.0[|at|] == (at + [other])[|at|] == (at + [name])[|at|];
    }
    if name in children {
      forall line | line in Collect(children[name], at + [name])
        ensures line in Collect(node, at) && at + [name] <= line.0
      {
        CollectBelow(children[name], at + [name], line);
      }
    }
  }

  // ----- what an empty diff means ----------------------------------------

  /** A node without its comments, a flag written as an empty container. */
  function Erase(node: Node): Node
    decreases node
  {
    match node.body
    case Values(values) => if values == {} then EMPTY_INTERIOR else Node(None, node.body)
    case Interior(children) => Node(None, Interior(map name | name in children :: Erase(children[name])))
  }

  predicate Bare(node: Node) {
    node.body == Values({}) || node.body == Interior(map[])
  }

  lemma EraseBare(node: Node)
    ensures Bare(node) <==> Erase(node) == EMPTY_INTERIOR
  {
    if node.body.Interior? && node.body.children != map[] {
      var name :| name in node.body.children;
      assert name in Erase(node).body.children;
    }
  }

  lemma {:induction false} CollectErased(node: Node, at: Path)
    requires at != [] || node.IsInterior()
    ensures Collect(Erase(node), at) == Collect(node, at)
    decreases node
  {
    match node.body
    case Values(_) =>
    case Interior(children) =>
      var erased := Erase(node).body.children;
      if children != map[] {
        var n0 :| n0 in children;
        assert n0 in erased;
        forall name | name in children ensures Collect(erased[name], at + [name]) == Collect(children[name], at + [name]) {
          CollectErased(children[name], at + [name]);
        }
        assert forall line :: line in Collect(Erase(node), at) <==>
          exists name :: name in children && line in Collect(children[name], at + [name]);
      } else {
        assert erased == map[];
      }
  }

  lemma CollectValues(node: Node, at: Path)
    requires node.body.Values? && node.body.values != {}
    ensures exists v :: (at, Some(v)) in Collect(node, at)
    ensures forall v :: (at, Some(v)) in Collect(node, at) <==> v in node.body.values
    ensures forall line :: line in Collect(node, at) ==> line.0 == at && line.1.Some?
  {
    var v :| v in node.body.values;
    assert (at, Some(v)) in Collect(node, at);
  }

  lemma CollectInner(node: Node, at: Path, line: Line)
    requires node.IsInterior() && node.body.children != map[] && line in Collect(node, at)
    ensures at < line.0
  {
    var children := node.body.children;
    var name :| name in children && line in Collect(children[name], at + [name]);
    CollectBelow(children[name], at + [name], line);
    assert at < at + [name];
  }

  datatype Shape = BareShape | ValuesShape | InnerShape

  function ShapeOf(node: Node): Shape {
    if Bare(node) then BareShape else if node.body.Values? then ValuesShape else InnerShape
  }

  lemma ShapeFromLines(a: Node, b: Node, at: Path)
    requires at != [] && Collect(a, at) == Collect(b, at)
    ensures ShapeOf(a) == ShapeOf(b)
  {
    if Bare(a) { ShapeBare(a, b, at); }
    else if Bare(b) { ShapeBare(b, a, at); }
    else if a.body.Values? && b.body.Interior? { ShapeValues(a, b, at); }
    else if b.body.Values? && a.body.Interior? { ShapeValues(b, a, at); }
  }

  lemma ShapeBare(a: Node, b: Node, at: Path)
    requires at != [] && Bare(a) && Collect(a, at) == Collect(b, at)
    ensures Bare(b)
  {
    assert (at, None) in Collect(b, at);
    if b.body.Values? && b.body.values != {} { CollectValues(b, at); }
    if b.body.Interior? && b.body.children != map[] { CollectInner(b, at, (at, None)); }
  }

  lemma ShapeValues(a: Node, b: Node, at: Path)
    requires at != [] && a.body.Values? && a.body.values != {} && b.body.Interior? && b.body.children != map[]
    ensures Collect(a, at) != Collect(b, at)
  {
    CollectValues(a, at);
    var v :| (at, Some(v)) in Collect(a, at);
    if (at, Some(v)) in Collect(b, at) { CollectInner(b, at, (at, Some(v))); }
  }

  /** The lines of a configuration determine it up to erasure. */
  lemma {:induction false} LinesDetermine(a: Node, b: Node, at: Path)
    requires at != [] || (a.IsInterior() && b.IsInterior())
    requires Collect(a, at) == Collect(b, at)
    ensures Erase(a) == Erase(b)
    decreases a
  {
    if at != [] { ShapeFromLines(a, b, at); }
    if at != [] && Bare(a) {
      EraseBare(a);
      EraseBare(b);
    } else if a.body.Values? {
      CollectValues(a, at);
      CollectValues(b, at);
      assert a.body.values == b.body.values;
    } else {
      ChildrenDetermine(a, b, at);
    }
  }

  lemma {:induction false} ChildrenDetermine(a: Node, b: Node, at: Path)
    requires a.IsInterior() && b.IsInterior() && Collect(a, at) == Collect(b, at)
    requires at != [] ==> a.body.children != map[] && b.body.children != map[]
    ensures Erase(a) == Erase(b)
    decreases a, 0
  {
    var ca, cb := a.body.children, b.body.children;
    forall name ensures name in ca <==> name in cb {
      SameChild(a, b, at, name);
    }
    forall name | name in ca ensures Erase(ca[name]) == Erase(cb[name]) {
      SameChild(a, b, at, name);
      LinesDetermine(ca[name], cb[name], at + [name]);
    }
    assert Erase(a).body.children == Erase(b).body.children;
  }

  lemma SameChild(a: Node, b: Node, at: Path, name: string)
    requires a.IsInterior() && b.IsInterior() && Collect(a, at) == Collect(b, at)
    requires at != [] ==> a.body.children != map[] && b.body.children != map[]
    ensures name in a.body.children <==> name in b.body.children
    ensures name in a.body.children ==>
              Collect(a.body.children[name], at + [name]) == Collect(b.body.children[name], at + [name])
  {
    hide Collect;
    CollectChild(a, at, name);
    CollectChild(b, at, name);
    if name in a.body.children { CollectSome(a.body.children[name], at + [name]); }
    if name in b.body.children { CollectSome(b.body.children[name], at + [name]); }
  }

  // ----- placeholders ----------------------------------------------------

  lemma CollectedHere(node: Node, at: Path, name: string)
    requires node.IsInterior() && name in node.body.children
    ensures Collect(node.body.children[name], at + [name]) <= Collect(node, at)
  {
  }

  /** A valueless line of `to` that is not a line of `from`, at a node interior in
      both, comes with a line below it that `from` has and `to` has not. */
  lemma {:induction false} PlaceholderWitness(node: Node, at: Path, path: Path)
    requires Get(node, path).Some? && Get(node, path).value.IsInterior()
    requires at + path != []
    requires (at + path, None) !in Collect(node, at)
    ensures exists line :: line in Collect(node, at) && at + path < line.0
    decreases path
  {
    if path == [] {
      assert at + path == at;
      CollectSome(node, at);
      var line :| line in Collect(node, at);
      CollectInner(node, at, line);
    } else {
      var child := node.body.children[path[0]];
      assert at + path == (at + [path[0]]) + path[1..];
      CollectedHere(node, at, path[0]);
      PlaceholderWitness(child, at + [path[0]], path[1..]);
      var line :| line in Collect(child, at + [path[0]]) && at + path < line.0;
      assert line in Collect(node, at);
    }
  }

  /** A node whose placeholder is a line has nothing below it. */
  lemma {:induction false} PlaceholderAlone(node: Node, at: Path, path: Path, line: Line)
    requires (at + path, None) in Collect(node, at) && line in Collect(node, at)
    ensures !(at + path < line.0)
    decreases path
  {
    if node.body.Interior? && !(node.body.children == map[] && at != []) {
      var children := node.body.children;
      var name :| name in children && (at + path, None) in Collect(children[name], at + [name]);
      CollectBelow(children[name], at + [name], (at + path, None));
      assert path != [] && path[0] == name by {
        assert |at + path| >= |at + [name]| && (at + path)[|at|] == (at + [name])[|at|];
      }
      assert at + path == (at + [name]) + path[1..];
      if at + path < line.0 {
        assert at + [name] <= line.0;
        CollectChild(node, at, name);
        assert line in Collect(children[name], at + [name]);
        PlaceholderAlone(children[name], at + [name], path[1..], line);
      }
    }
  }

  /** An unreported placeholder hides a reported line of the other side. */
  lemma HiddenLine(from: Node, to: Node, line: Line)
    requires line in LinesOf(to) - LinesOf(from) && !News(from, to, line)
    ensures exists other :: other in LinesOf(from) - LinesOf(to) && line.0 < other.0
  {
    var path := line.0;
    assert [] + path == path;
    RootHasNoLine(to, line);
    PlaceholderWitness(from, [], path);
    var other :| other in LinesOf(from) && [] + path < other.0;
    if other in LinesOf(to) { PlaceholderAlone(to, [], path, other); }
  }

  lemma RootHasNoLine(tree: Node, line: Line)
    requires tree.IsInterior() && line in LinesOf(tree)
    ensures line.0 != []
  {
    var name :| name in tree.body.children && line in Collect(tree.body.children[name], [] + [name]);
    CollectBelow(tree.body.children[name], [] + [name], line);
  }

  /** A line on one side only that is news is reported, with its side. */
  lemma NewsReported(from: Node, to: Node, line: Line)
    ensures line in LinesOf(to) - LinesOf(from) ==>
              (News(from, to, line) <==> Change(line.0, Add, line.1) in Changes(from, to))
    ensures line in LinesOf(from) - LinesOf(to) ==>
              (News(from, to, line) <==> Change(line.0, Remove, line.1) in Changes(from, to))
  {
  }

  lemma {:induction false} HiddenLeadsToNews(from: Node, to: Node, line: Line)
    requires line in LinesOf(to) - LinesOf(from)
    ensures Changes(from, to) != {}
  {
    NewsReported(from, to, line);
    if News(from, to, line) { return; }
    HiddenLine(from, to, line);
    var other :| other in LinesOf(from) - LinesOf(to) && line.0 < other.0;
    NewsReported(from, to, other);
    if !News(from, to, other) {
      // `other` would be interior in `to`, below a node `to` has nothing under
      OnlyPlaceholder(to, line, other.0);
    }
  }

  lemma {:induction false} OnlyPlaceholder(tree: Node, line: Line, below: Path)
    requires tree.IsInterior() && line in LinesOf(tree) && line.1.None? && line.0 < below
    ensures Get(tree, below).None?
  {
    if Get(tree, below).Some? {
      assert [] + below == below && [] + line.0 == line.0;
      SomeLineBelow(tree, [], below);
      var other :| other in Collect(tree, []) && [] + below <= other.0;
      PlaceholderAlone(tree, [], line.0, other);
    }
  }

  lemma {:induction false} SomeLineBelow(node: Node, at: Path, path: Path)
    requires Get(node, path).Some? && at + path != []
    ensures exists line :: line in Collect(node, at) && at + path <= line.0
    decreases path
  {
    if path == [] {
      assert at + path == at;
      CollectSome(node, at);
      var line :| line in Collect(node, at);
      CollectBelow(node, at, line);
    } else {
      var child := node.body.children[path[0]];
      assert at + path == (at + [path[0]]) + path[1..];
      SomeLineBelow(child, at + [path[0]], path[1..]);
      var line :| line in Collect(child, at + [path[0]]) && at + path <= line.0;
      assert line in Collect(node, at);
    }
  }

  lemma NoChangesNoLines(from: Node, to: Node)
    requires Changes(from, to) == {}
    ensures LinesOf(to) <= LinesOf(from)
  {
    forall line | line in LinesOf(to) ensures line in LinesOf(from) {
      if line !in LinesOf(from) {
        HiddenLeadsToNews(from, to, line);
      }
    }
  }

  /** An empty diff means the same configuration, comments aside and with a flag
      not told apart from an empty container -- and nothing else. */
  lemma EmptyDiffIff(a: Node, b: Node)
    requires a.IsInterior() && b.IsInterior()
    ensures Changes(a, b) == {} <==> Erase(a) == Erase(b)
  {
    hide Collect, Erase;
    if Changes(a, b) == {} {
      NoChangesNoLines(a, b);
      ChangesSwap(a, b);
      NoChangesNoLines(b, a);
      LinesDetermine(a, b, []);
    } else if Erase(a) == Erase(b) {
      CollectErased(a, []);
      CollectErased(b, []);
    }
  }

  // ----- symmetry and application ----------------------------------------

  function Swapped(c: Change): Change {
    c.(op := if c.op.Add? then Remove else Add)
  }

  /** Comparing the other way round swaps additions and removals. */
  lemma ChangesSwap(a: Node, b: Node)
    ensures Changes(b, a) == set c | c in Changes(a, b) :: Swapped(c)
  {
    forall c | c in Changes(b, a) ensures Swapped(c) in Changes(a, b) && Swapped(Swapped(c)) == c {}
    forall c | c in Changes(a, b) ensures Swapped(c) in Changes(b, a) {}
  }

  function Valued(lines: set<Line>): set<Line> {
    set line | line in lines && line.1.Some?
  }

  function Patched(lines: set<Line>, changes: set<Change>): set<Line> {
    (lines - set c | c in changes && c.op.Remove? :: (c.path, c.value))
    + set c | c in changes && c.op.Add? && c.value.Some? :: (c.path, c.value)
  }

  /** Applying the reported changes to one side's values gives the other side's. */
  lemma ChangesApply(a: Node, b: Node)
    ensures Patched(Valued(LinesOf(a)), Changes(a, b)) == Valued(LinesOf(b))
  {
    forall line | line in Valued(LinesOf(b)) ensures line in Patched(Valued(LinesOf(a)), Changes(a, b)) {
      NewsReported(a, b, line);
    }
    forall line | line in Patched(Valued(LinesOf(a)), Changes(a, b)) ensures line in Valued(LinesOf(b)) {
      NewsReported(a, b, line);
    }
  }

  lemma CollectOne(name: string, child: Node, at: Path)
    ensures Collect(Node(None, Interior(map[name := child])), at) == Collect(child, at + [name])
  {
    var node := Node(None, Interior(map[name := child]));
    assert name in node.body.children;
    CollectChild(node, at, name);
    forall line | line in Collect(node, at) ensures at + [name] <= line.0 {
      var other :| other in node.body.children && line in Collect(node.body.children[other], at + [other]);
      CollectBelow(child, at + [name], line);
    }
  }

  /** What the report leaves open: taking away the last setting of a container and
      taking away the container itself are reported alike. */
  lemma LastSettingAmbiguous(name: string, leaf: string, value: string)
    ensures var full := Node(None, Interior(map[name := Node(None, Interior(map[leaf := Node(None, Values({value}))]))]));
            var emptied := Node(None, Interior(map[name := EMPTY_INTERIOR]));
            && Changes(full, emptied) == Changes(full, EMPTY_INTERIOR)
            && Changes(emptied, EMPTY_INTERIOR) != {}
  {
    var setting := Node(None, Values({value}));
    var box := Node(None, Interior(map[leaf := setting]));
    var full := Node(None, Interior(map[name := box]));
    var emptied := Node(None, Interior(map[name := EMPTY_INTERIOR]));
    assert Collect(setting, [name, leaf]) == {([name, leaf], Some(value))};
    assert [name] + [leaf] == [name, leaf] && [] + [name] == [name];
    CollectOne(leaf, setting, [name]);
    CollectOne(name, box, []);
    CollectOne(name, EMPTY_INTERIOR, []);
    assert Collect(box, [name]) == {([name, leaf], Some(value))};
    assert LinesOf(full) == {([name, leaf], Some(value))};
    assert Collect(EMPTY_INTERIOR, [name]) == {([name], None)};
    assert LinesOf(emptied) == {([name], None)};
    assert LinesOf(EMPTY_INTERIOR) == {};
    assert Get(full, [name]) == Some(box) && Get(emptied, [name]) == Some(EMPTY_INTERIOR) by {
      assert [name][1..] == [];
    }
    assert Survives(full, emptied, [name]);
    assert Changes(full, emptied) == {Change([name, leaf], Remove, Some(value))};
    assert Changes(full, EMPTY_INTERIOR) == {Change([name, leaf], Remove, Some(value))};
    NewsReported(emptied, EMPTY_INTERIOR, ([name], None));
    assert Get(EMPTY_INTERIOR, [name]).None?;
  }
}
