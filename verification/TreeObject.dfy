/** The tree as the rest of the program holds it: one root, changed in place. */
module TreeObject {
  import opened Wrappers
  import opened Config
  import opened ConfigProofs

  class ConfigTree {
    var root: Node

    constructor ()
      ensures root == EMPTY_INTERIOR
    {
      root := EMPTY_INTERIOR;
    }

    /** `get`: walk down one segment at a time. */
    method Find(path: Path) returns (found: Option<Node>)
      ensures found == Get(root, path)
    {
      var node := root;
      for i := 0 to |path|
        invariant Get(node, path[i..]) == Get(root, path)
      {
        assert path[i..][1..] == path[i + 1..];
        match node.body {
          case Values(_) => return None;
          case Interior(children) =>
            if path[i] !in children {
              return None;
            }
            node := children[path[i]];
        }
      }
      found := Some(node);
    }

    /** `ensure_interior`, `declare_leaf`, `set`, `add`, `set_flag`, by `edit`.
        A refusal leaves the tree as it was; a success leaves every path that is
        not an ancestor of `path` as it was. */
    method Apply(path: Path, edit: Edit) returns (error: Option<TreeError>)
      modifies this
      ensures (root, error) == Mutate(old(root), path, edit)
      ensures error.Some? ==> root == old(root)
      ensures error.None? && path != [] ==> Get(root, path).Some? && Get(root, path).value.IsInterior() == edit.EnsureInterior?
      ensures error.None? && path != [] ==> forall q :: !(q <= path) ==> Get(root, q) == Get(old(root), q)
    {
      var (after, refused) := Mutate(root, path, edit);
      ghost var before := root;
      if refused.Some? {
        MutateAllOrNothing(root, path, edit);
      } else if path != [] {
        MutateEffect(before, path, edit, path);
        MutateRefusedIff(before, path, edit);
        forall q | !(q <= path) ensures Get(after, q) == Get(before, q) {
          MutateEffect(before, path, edit, q);
        }
      }
      root, error := after, refused;
    }

    /** Give the node at `path` a comment, if it is there and has none. */
    method Comment(path: Path, comment: string) returns (given: bool)
      modifies this
      ensures given <==> Get(old(root), path).Some? && Get(old(root), path).value.comment.None?
      ensures !given ==> root == old(root)
      ensures given ==> root == Put(old(root), path, Node(Some(comment), Get(old(root), path).value.body))
    {
      var found := Find(path);
      given := found.Some? && found.value.comment.None?;
      if given {
        root := Put(root, path, Node(Some(comment), found.value.body));
      }
    }

    /** `remove`: true exactly when something was there, which is then gone with
        everything below it, and nothing beside it has changed. */
    method Delete(path: Path) returns (removed: bool)
      modifies this
      ensures (root, removed) == Remove(old(root), path)
      ensures path != [] ==> (removed <==> Get(old(root), path).Some?) && Get(root, path).None?
      ensures path != [] ==> forall q :: !(path <= q) && !(q < path) ==> Get(root, q) == Get(old(root), q)
    {
      var (after, gone) := Remove(root, path);
      ghost var before := root;
      if path != [] {
        RemoveEffect(before, path, path);
        forall q | !(path <= q) && !(q < path) ensures Get(after, q) == Get(before, q) {
          RemoveEffect(before, path, q);
        }
      }
      root, removed := after, gone;
    }

    /** `remove_value`: the node goes with its last value. */
    method DeleteValue(path: Path, value: string) returns (removed: bool)
      requires path != []
      modifies this
      ensures (root, removed) == RemoveValue(old(root), path, value)
      ensures removed <==> value in ValuesOf(Get(old(root), path))
      ensures ValuesOf(Get(root, path)) == ValuesOf(Get(old(root), path)) - {value}
    {
      var (after, gone) := RemoveValue(root, path, value);
      RemoveValueEffect(root, path, value, path);
      assert value !in ValuesOf(Get(root, path)) ==> ValuesOf(Get(root, path)) - {value} == ValuesOf(Get(root, path));
      root, removed := after, gone;
    }
  }
}
