/** The configuration tree and its mutators, as functions on values. */
module Config {
  import opened Wrappers

  type Path = seq<string>

  datatype Body =
    | Interior(children: map<string, Node>)
    | Values(values: set<string>)

  datatype Node = Node(comment: Option<string>, body: Body) {
    predicate IsInterior() {
      body.Interior?
    }
  }

  const EMPTY_INTERIOR := Node(None, Interior(map[]))
  const FLAG := Node(None, Values({}))

  datatype TreeError =
    | NotInterior(path: Path, full: Path)
    | NotAContainer(path: Path)
    | NotALeaf(path: Path)

  function Get(node: Node, path: Path): Option<Node>
    decreases |path|
  {
    if path == [] then Some(node)
    else if node.body.Interior? && path[0] in node.body.children then
      Get(node.body.children[path[0]], path[1..])
    else None
  }

  /** `node` with what is at `path` replaced: an assignment through `get_mut`. */
  function Put(node: Node, path: Path, new_: Node): Node
    requires Get(node, path).Some?
    decreases |path|
  {
    if path == [] then new_ else
      var children := node.body.children;
      Node(node.comment, Interior(children[path[0] := Put(children[path[0]], path[1..], new_)]))
  }

  // ----- mutators that create --------------------------------------------

  /** What the caller of the walk does with the last segment's slot. */
  datatype Edit =
    | EnsureInterior
    | DeclareLeaf
    | SetValue(value: string)
    | AddValue(value: string)
    | SetFlag

  /** The slot after the edit, and the error if the edit was refused. */
  function EditSlot(slot: Option<Node>, edit: Edit, full: Path): (Node, Option<TreeError>) {
    match slot
    case None =>
      (match edit
       case EnsureInterior => EMPTY_INTERIOR
       case SetValue(v) => Node(None, Values({v}))
       case AddValue(v) => Node(None, Values({v}))
       case DeclareLeaf => FLAG
       case SetFlag => FLAG, None)
    case Some(Node(comment, Interior(children))) =>
      (slot.value, if edit.EnsureInterior? then None else Some(NotALeaf(full)))
    case Some(Node(comment, Values(values))) =>
      match edit
      case EnsureInterior => (slot.value, Some(NotAContainer(full)))
      case DeclareLeaf => (slot.value, None)
      case SetValue(v) => (Node(comment, Values({v})), None)
      case AddValue(v) => (Node(comment, Values(values + {v})), None)
      case SetFlag => (Node(comment, Values({})), None)
  }

  function Slot(children: map<string, Node>, name: string): Option<Node> {
    if name in children then Some(children[name]) else None
  }

  /** Walk down `segments`, creating interior nodes on the way, and edit the last
      slot. `at` is how far the walk has come. The tree is returned as the walk
      left it, whether or not it ended in an error. */
  function Walk(node: Node, segments: Path, at: Path, full: Path, edit: Edit): (Node, Option<TreeError>)
    requires segments != []
    decreases |segments|
  {
    match node.body
    case Values(_) => (node, Some(NotInterior(at, full)))
    case Interior(children) =>
      var name := segments[0];
      if |segments| == 1 then
        var (slot, error) := EditSlot(Slot(children, name), edit, full);
        (Node(node.comment, Interior(children[name := slot])), error)
      else
        var entered := Slot(children, name).UnwrapOr(EMPTY_INTERIOR);
        var (child, error) := Walk(entered, segments[1..], at + [name], full, edit);
        (Node(node.comment, Interior(children[name := child])), error)
  }

  /** One mutator call on a whole tree. */
  function Mutate(root: Node, path: Path, edit: Edit): (Node, Option<TreeError>) {
    if path != [] then Walk(root, path, [], path, edit)
    else if edit.EnsureInterior? then (root, None)
    else (root, Some(NotALeaf(path)))
  }

  // ----- mutators that remove --------------------------------------------

  function Remove(root: Node, path: Path): (Node, bool) {
    if path == [] then (EMPTY_INTERIOR, true) else
      var parent, last := path[..|path| - 1], path[|path| - 1];
      match Get(root, parent)
      case Some(Node(comment, Interior(children))) =>
        (Put(root, parent, Node(comment, Interior(children - {last}))), last in children)
      case _ => (root, false)
  }

  function RemoveValue(root: Node, path: Path, value: string): (Node, bool) {
    match Get(root, path)
    case Some(Node(comment, Values(values))) =>
      if value !in values then (root, false)
      else if values == {value} then (Remove(Put(root, path, Node(comment, Values({}))), path).0, true)
      else (Put(root, path, Node(comment, Values(values - {value}))), true)
    case _ => (root, false)
  }

  /** A tree holding only `path` and what is below it. */
  function Subtree(root: Node, path: Path): Option<Node> {
    match Get(root, path)
    case None => None
    case Some(node) =>
      if path == [] then Some(root) else
        var parent, last := path[..|path| - 1], path[|path| - 1];
        var tree := Mutate(EMPTY_INTERIOR, parent, EnsureInterior).0;
        match Get(tree, parent)
        case Some(Node(comment, Interior(children))) =>
          Some(Put(tree, parent, Node(comment, Interior(children[last := node]))))
        case _ => Some(tree)
  }
}
