/** Merging schema files: one document out of many, each owning its own definitions. */
module Loader {
  import opened Wrappers
  import opened Order

  // ----- what YAML holds -------------------------------------------------

  /** A float as far as `==` is concerned: not a number equals nothing, and the two zeroes
      are equal without being the same. */
  datatype Float = NotANumber | Zero(negative: bool) | Infinite(negative: bool) | Finite(value: real)

  datatype Value = Flag(b: bool) | Whole(n: int) | Floating(f: Float) | Text(s: string) | Many(values: seq<Value>)

  /** `PartialEq`, as derived. */
  predicate Eq(a: Value, b: Value) {
    match (a, b)
    case (Floating(f), Floating(g)) => (f.Zero? && g.Zero?) || (f == g && !f.NotANumber?)
    case (Many(xs), Many(ys)) => |xs| == |ys| && forall i :: 0 <= i < |xs| ==> Eq(xs[i], ys[i])
    case (Floating(_), _) => false
    case (Many(_), _) => false
    case _ => a == b
  }

  lemma {:induction false} EqSymmetric(a: Value, b: Value)
    ensures Eq(a, b) == Eq(b, a)
  {
    if a.Many? && b.Many? && |a.values| == |b.values| {
      forall i | 0 <= i < |a.values| ensures Eq(a.values[i], b.values[i]) == Eq(b.values[i], a.values[i]) {
        EqSymmetric(a.values[i], b.values[i]);
      }
    }
  }

  lemma {:induction false} EqTransitive(a: Value, b: Value, c: Value)
    requires Eq(a, b) && Eq(b, c)
    ensures Eq(a, c)
  {
    if a.Many? {
      forall i | 0 <= i < |a.values| ensures Eq(a.values[i], c.values[i]) {
        EqTransitive(a.values[i], b.values[i], c.values[i]);
      }
    }
  }

  // ----- the documents ---------------------------------------------------

  /** A node as written: fields defined once, lists that add up, and children. */
  datatype Raw = Raw(fields: map<string, Value>, lists: map<string, seq<string>>, below: Below)

  datatype Below = Nothing | Children(nodes: map<string, Raw>)

  datatype File = File(templates: map<string, Raw>, nodes: Raw, globals: seq<string>)

  const DEFINITIONS :=
    ["kind", "help", "type", "range", "values", "regex", "accepts", "default", "secret", "required", "priority", "tag"]

  datatype Conflict = AtNode(path: seq<string>, field: string) | AtTemplate(name: string)

  const EMPTY_ROOT := Raw(map[], map[], Children(map[]))
  const NO_FILE := File(map[], EMPTY_ROOT, [])

  // ----- merging ---------------------------------------------------------

  /** The first definition both have and do not agree on. */
  function Disagreement(a: map<string, Value>, b: map<string, Value>, fields: seq<string>): Option<string> {
    if fields == [] then None
    else if fields[0] in a && fields[0] in b && !Eq(a[fields[0]], b[fields[0]]) then Some(fields[0])
    else Disagreement(a, b, fields[1..])
  }

  /** `extend`, for every list there is. */
  function Extended(a: map<string, seq<string>>, b: map<string, seq<string>>): map<string, seq<string>> {
    map f | f in a.Keys + b.Keys :: (if f in a then a[f] else []) + (if f in b then b[f] else [])
  }

  function ChildrenOf(n: Raw): map<string, Raw> {
    if n.below.Nothing? then map[] else n.below.nodes
  }

  /** `merge_node`. In overlay mode the later definition wins and nothing conflicts. */
  function MergeNode(a: Raw, b: Raw, at: seq<string>, strict: bool): Result<Raw, Conflict>
    decreases b, 1, 0
  {
    var bad := Disagreement(a.fields, b.fields, DEFINITIONS);
    if strict && bad.Some? then Err(AtNode(at, bad.value))
    else
      var fields, lists := a.fields + b.fields, Extended(a.lists, b.lists);
      if b.below.Nothing? then Ok(Raw(fields, lists, a.below))
      else
        match MergeChildren(ChildrenOf(a), b, Sorted(b.below.nodes.Keys), at, strict)
        case Err(e) => Err(e)
        case Ok(children) => Ok(Raw(fields, lists, Children(children)))
  }

  /** `merge_children`, over the names of `from` still to come. */
  function MergeChildren(into: map<string, Raw>, from: Raw, names: seq<string>, at: seq<string>, strict: bool)
    : Result<map<string, Raw>, Conflict>
    requires from.below.Children? && forall i :: 0 <= i < |names| ==> names[i] in from.below.nodes
    decreases from, 0, |names|
  {
    if names == [] then Ok(into)
    else
      var name := names[0];
      var node := from.below.nodes[name];
      if name !in into then MergeChildren(into[name := node], from, names[1..], at, strict)
      else
        match MergeNode(into[name], node, at + [name], strict)
        case Err(e) => Err(e)
        case Ok(merged) => MergeChildren(into[name := merged], from, names[1..], at, strict)
  }

  function SharedTemplate(a: map<string, Raw>, names: seq<string>): Option<string> {
    if names == [] then None else if names[0] in a then Some(names[0]) else SharedTemplate(a, names[1..])
  }

  /** `RawFile::absorb`. */
  function Absorb(into: File, other: File): Result<File, Conflict> {
    match SharedTemplate(into.templates, Sorted(other.templates.Keys))
    case Some(name) => Err(AtTemplate(name))
    case None =>
      match MergeNode(into.nodes, other.nodes, [], true)
      case Err(e) => Err(e)
      case Ok(nodes) => Ok(File(into.templates + other.templates, nodes, into.globals + other.globals))
  }

  /** Every file in order, over nothing at first. */
  function MergeAll(files: seq<File>): Result<File, Conflict> {
    if files == [] then Ok(NO_FILE)
    else
      match MergeAll(files[..|files| - 1])
      case Err(e) => Err(e)
      case Ok(merged) => Absorb(merged, files[|files| - 1])
  }

  // ----- what a document says at a path ----------------------------------

  function NodeAt(n: Raw, path: seq<string>): Option<Raw>
    decreases |path|
  {
    if path == [] then Some(n)
    else if path[0] in ChildrenOf(n) then NodeAt(ChildrenOf(n)[path[0]], path[1..])
    else None
  }

  function Defined(n: Raw, path: seq<string>, field: string): Option<Value> {
    var at := NodeAt(n, path);
    if at.Some? && field in at.value.fields then Some(at.value.fields[field]) else None
  }

  function Listed(n: Raw, path: seq<string>, field: string): Option<seq<string>> {
    var at := NodeAt(n, path);
    if at.Some? && field in at.value.lists then Some(at.value.lists[field]) else None
  }

  predicate Parent(n: Raw, path: seq<string>) {
    NodeAt(n, path).Some? && NodeAt(n, path).value.below.Children?
  }

  function Later<T>(a: Option<T>, b: Option<T>): Option<T> {
    if b.Some? then b else a
  }

  function Appended(a: Option<seq<string>>, b: Option<seq<string>>): Option<seq<string>> {
    if a.None? then b else if b.None? then a else Some(a.value + b.value)
  }

  predicate Agree(a: Option<Value>, b: Option<Value>) {
    a.Some? && b.Some? ==> Eq(a.value, b.value)
  }

  /** No definition of one contradicts one of the other. */
  ghost predicate Compatible(a: Raw, b: Raw) {
    forall path, field :: field in DEFINITIONS ==> Agree(Defined(a, path, field), Defined(b, path, field))
  }
}
