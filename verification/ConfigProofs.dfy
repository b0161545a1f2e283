/** What every mutator of the configuration tree promises. */
module ConfigProofs {
  import opened Wrappers
  import opened Config

  // ----- Get and Put -----------------------------------------------------

  lemma {:induction false} GetConcat(node: Node, p: Path, q: Path)
    ensures Get(node, p + q) == match Get(node, p) case None => None case Some(n) => Get(n, q)
    decreases |p|
  {
    if p == [] {
      assert p + q == q;
    } else if node.body.Interior? && p[0] in node.body.children {
      assert (p + q)[1..] == p[1..] + q;
      GetConcat(node.body.children[p[0]], p[1..], q);
    }
  }

  lemma {:induction false} GetPut(node: Node, p: Path, n: Node)
    requires Get(node, p).Some?
    ensures Get(Put(node, p, n), p) == Some(n)
    decreases |p|
  {
    if p != [] {
      GetPut(node.body.children[p[0]], p[1..], n);
    }
  }

  /** Putting a node changes nothing outside its own path. */
  lemma {:induction false} PutFrame(node: Node, p: Path, n: Node, q: Path)
    requires Get(node, p).Some?
    requires !(p <= q) && !(q <= p)
    ensures Get(Put(node, p, n), q) == Get(node, q)
    decreases |p|
  {
    if p[0] == q[0] {
      assert !(p[1..] <= q[1..]) by {
        if p[1..] <= q[1..] { PrefixCons(p, q); }
      }
      assert !(q[1..] <= p[1..]) by {
        if q[1..] <= p[1..] { PrefixCons(q, p); }
      }
      PutFrame(node.body.children[p[0]], p[1..], n, q[1..]);
    }
  }

  lemma PrefixCons(p: Path, q: Path)
    requires p != [] && q != [] && p[0] == q[0] && p[1..] <= q[1..]
    ensures p <= q
  {
    assert p == [p[0]] + p[1..] && q == [q[0]] + q[1..];
  }

  lemma {:induction false} PutPut(node: Node, p: Path, a: Node, b: Node)
    requires Get(node, p).Some?
    ensures Get(Put(node, p, a), p).Some?
    ensures Put(Put(node, p, a), p, b) == Put(node, p, b)
    decreases |p|
  {
    GetPut(node, p, a);
    if p != [] {
      var children := node.body.children;
      var below := Put(children[p[0]], p[1..], a);
      PutPut(children[p[0]], p[1..], a, b);
      assert children[p[0] := below][p[0] := Put(below, p[1..], b)] == children[p[0] := Put(below, p[1..], b)];
    }
  }

  lemma {:induction false} PutSame(node: Node, p: Path)
    requires Get(node, p).Some?
    ensures Put(node, p, Get(node, p).value) == node
    decreases |p|
  {
    if p != [] {
      var children := node.body.children;
      PutSame(children[p[0]], p[1..]);
      assert children[p[0] := children[p[0]]] == children;
    }
  }

  lemma {:induction false} PutBelow(node: Node, p: Path, q: Path, n: Node)
    requires Get(node, p).Some? && Get(Get(node, p).value, q).Some?
    ensures Get(node, p + q).Some?
    ensures Put(node, p + q, n) == Put(node, p, Put(Get(node, p).value, q, n))
    decreases |p|
  {
    GetConcat(node, p, q);
    if p == [] {
      assert p + q == q;
    } else {
      assert (p + q)[1..] == p[1..] + q;
      PutBelow(node.body.children[p[0]], p[1..], q, n);
    }
  }

  // ----- the creating mutators -------------------------------------------

  lemma {:induction false} FreshWalkSucceeds(segments: Path, at: Path, full: Path, edit: Edit)
    requires segments != []
    ensures Walk(EMPTY_INTERIOR, segments, at, full, edit).1.None?
    decreases |segments|
  {
    if |segments| > 1 {
      FreshWalkSucceeds(segments[1..], at + [segments[0]], full, edit);
    }
  }

  lemma {:induction false} WalkAllOrNothing(node: Node, segments: Path, at: Path, full: Path, edit: Edit)
    requires segments != []
    requires Walk(node, segments, at, full, edit).1.Some?
    ensures Walk(node, segments, at, full, edit).0 == node
    decreases |segments|
  {
    if node.body.Interior? {
      var children, name := node.body.children, segments[0];
      if name in children {
        assert children[name := children[name]] == children;
        if |segments| > 1 {
          WalkAllOrNothing(children[name], segments[1..], at + [name], full, edit);
        }
      } else if |segments| > 1 {
        FreshWalkSucceeds(segments[1..], at + [name], full, edit);
      }
    }
  }

  /** A refused mutation leaves the tree exactly as it was, including any interior
      nodes its walk might have created on the way. */
  lemma MutateAllOrNothing(root: Node, path: Path, edit: Edit)
    requires Mutate(root, path, edit).1.Some?
    ensures Mutate(root, path, edit).0 == root
  {
    if path != [] {
      WalkAllOrNothing(root, path, [], path, edit);
    }
  }

  lemma {:induction false} WalkEffect(node: Node, segments: Path, at: Path, full: Path, edit: Edit)
    requires segments != []
    requires Walk(node, segments, at, full, edit).1.None?
    ensures Get(Walk(node, segments, at, full, edit).0, segments)
         == Some(EditSlot(Get(node, segments), edit, full).0)
    decreases |segments|
  {
    var children, name := node.body.children, segments[0];
    if |segments| > 1 {
      WalkEffect(Slot(children, name).UnwrapOr(EMPTY_INTERIOR), segments[1..], at + [name], full, edit);
      if name !in children { assert Get(EMPTY_INTERIOR, segments[1..]) == None; }
    } else {
      assert segments[1..] == [];
      assert Get(node, segments) == Slot(children, name);
    }
  }

  lemma {:induction false} WalkFrame(node: Node, segments: Path, at: Path, full: Path, edit: Edit, q: Path)
    requires segments != [] && !(q <= segments)
    requires Walk(node, segments, at, full, edit).1.None?
    ensures Get(Walk(node, segments, at, full, edit).0, q) == Get(node, q)
    decreases |segments|
  {
    var children, name := node.body.children, segments[0];
    if q[0] == name {
      var entered := Slot(children, name).UnwrapOr(EMPTY_INTERIOR);
      if |segments| > 1 {
        assert !(q[1..] <= segments[1..]) by {
          if q[1..] <= segments[1..] { PrefixCons(q, segments); }
        }
        WalkFrame(entered, segments[1..], at + [name], full, edit, q[1..]);
        assert q[1..] != [];
      } else {
        assert q == [q[0]] + q[1..] && segments == [name];
      }
    }
  }

  /** A successful mutation leaves at `path` the body the edit asks for, under the
      comment the node already had, and every path that is not an ancestor unchanged. */
  lemma MutateEffect(root: Node, path: Path, edit: Edit, q: Path)
    requires path != [] && Mutate(root, path, edit).1.None?
    ensures var before, after := Get(root, path), Get(Mutate(root, path, edit).0, path);
            && after.Some?
            && after.value.comment == before.UnwrapOr(FLAG).comment
            && (edit.SetValue? ==> after.value.body == Values({edit.value}))
            && (edit.SetFlag? ==> after.value.body == Values({}))
            && (edit.AddValue? ==> after.value.body == Values(ValuesOf(before) + {edit.value}))
            && (edit.DeclareLeaf? ==> after.value.body == Values(ValuesOf(before)))
            && (edit.EnsureInterior? ==> after.value.body == before.UnwrapOr(EMPTY_INTERIOR).body)
    ensures !(q <= path) ==> Get(Mutate(root, path, edit).0, q) == Get(root, q)
  {
    WalkEffect(root, path, [], path, edit);
    WalkAccepted(root, path, [], path, edit);
    if !(q <= path) {
      WalkFrame(root, path, [], path, edit, q);
    }
  }

  ghost function ValuesOf(node: Option<Node>): set<string> {
    if HoldsValues(node) then node.value.body.values else {}
  }

  lemma {:induction false} WalkAncestors(node: Node, segments: Path, at: Path, full: Path, edit: Edit, k: nat)
    requires segments != [] && k < |segments|
    requires Walk(node, segments, at, full, edit).1.None?
    ensures var before, after := Get(node, segments[..k]), Get(Walk(node, segments, at, full, edit).0, segments[..k]);
            && after.Some? && after.value.IsInterior()
            && after.value.comment == before.UnwrapOr(EMPTY_INTERIOR).comment
            && before.UnwrapOr(EMPTY_INTERIOR).IsInterior()
    decreases |segments|
  {
    if k > 0 {
      var children, name := node.body.children, segments[0];
      assert segments[..k][1..] == segments[1..][..k - 1];
      WalkAncestors(Slot(children, name).UnwrapOr(EMPTY_INTERIOR), segments[1..], at + [name], full, edit, k - 1);
    }
  }

  /** Ancestors stay interior and keep their comments; the ones created have none. */
  lemma MutateAncestors(root: Node, path: Path, edit: Edit, k: nat)
    requires k < |path| && Mutate(root, path, edit).1.None?
    ensures var before, after := Get(root, path[..k]), Get(Mutate(root, path, edit).0, path[..k]);
            && after.Some? && after.value.IsInterior()
            && after.value.comment == before.UnwrapOr(EMPTY_INTERIOR).comment
            && before.UnwrapOr(EMPTY_INTERIOR).IsInterior()
  {
    WalkAncestors(root, path, [], path, edit, k);
  }

  ghost predicate HoldsValues(node: Option<Node>) {
    node.Some? && node.value.body.Values?
  }

  lemma {:induction false} WalkRefused(node: Node, segments: Path, at: Path, full: Path, edit: Edit)
    requires segments != []
    requires Walk(node, segments, at, full, edit).1.Some?
    ensures
      || (exists k :: 0 <= k < |segments| && HoldsValues(Get(node, segments[..k])))
      || EditSlot(Get(node, segments), edit, full).1.Some?
    decreases |segments|
  {
    if node.body.Values? {
      assert HoldsValues(Get(node, segments[..0]));
    } else {
      var children, name := node.body.children, segments[0];
      if |segments| == 1 {
        assert Get(node, segments) == Slot(children, name);
      } else if name !in children {
        FreshWalkSucceeds(segments[1..], at + [name], full, edit);
      } else {
        WalkRefused(children[name], segments[1..], at + [name], full, edit);
        if k :| 0 <= k < |segments| - 1 && HoldsValues(Get(children[name], segments[1..][..k])) {
          assert segments[..k + 1][1..] == segments[1..][..k];
          assert HoldsValues(Get(node, segments[..k + 1]));
        }
      }
    }
  }

  /** Exactly when a mutation is refused: an ancestor holds values, or the node
      there is of the other kind. */
  lemma MutateRefusedIff(root: Node, path: Path, edit: Edit)
    requires path != []
    ensures Mutate(root, path, edit).1.Some? <==>
      || (exists k :: 0 <= k < |path| && HoldsValues(Get(root, path[..k])))
      || (Get(root, path).Some? && Get(root, path).value.IsInterior() != edit.EnsureInterior?)
  {
    if Mutate(root, path, edit).1.Some? {
      WalkRefused(root, path, [], path, edit);
    } else {
      forall k | 0 <= k < |path| ensures !HoldsValues(Get(root, path[..k])) {
        MutateAncestors(root, path, edit, k);
      }
      WalkAccepted(root, path, [], path, edit);
    }
  }

  lemma {:induction false} WalkAccepted(node: Node, segments: Path, at: Path, full: Path, edit: Edit)
    requires segments != [] && Walk(node, segments, at, full, edit).1.None?
    ensures EditSlot(Get(node, segments), edit, full).1.None?
    decreases |segments|
  {
    var children, name := node.body.children, segments[0];
    if |segments| == 1 {
      assert Get(node, segments) == Slot(children, name);
    } else if name in children {
      WalkAccepted(children[name], segments[1..], at + [name], full, edit);
    }
  }

  /** A walk from the root that passes through an existing interior node at `p` is
      the same walk started at that node. */
  lemma {:induction false} WalkBelow(node: Node, p: Path, q: Path, at: Path, full: Path, edit: Edit)
    requires q != [] && Get(node, p).Some?
    ensures var (below, error) := Walk(Get(node, p).value, q, at + p, full, edit);
            Walk(node, p + q, at, full, edit) == (Put(node, p, below), error)
    decreases |p|
  {
    if p == [] {
      assert p + q == q && at + p == at;
    } else {
      var children, name := node.body.children, p[0];
      assert (p + q)[1..] == p[1..] + q && (p + q)[0] == name;
      assert (at + [name]) + p[1..] == at + p;
      WalkBelow(children[name], p[1..], q, at + [name], full, edit);
    }
  }

  // ----- the removing mutators -------------------------------------------

  /** Removing takes away exactly the named node and everything below it. */
  lemma RemoveEffect(root: Node, path: Path, q: Path)
    requires path != []
    ensures Remove(root, path).1 <==> Get(root, path).Some?
    ensures !Remove(root, path).1 ==> Remove(root, path).0 == root
    ensures path <= q ==> Get(Remove(root, path).0, q).None?
    ensures !(path <= q) && !(q < path) ==> Get(Remove(root, path).0, q) == Get(root, q)
    ensures q < path && Get(root, q).Some? ==>
      var after := Get(Remove(root, path).0, q);
      after.Some? && after.value.comment == Get(root, q).value.comment
  {
    var parent, last := path[..|path| - 1], path[|path| - 1];
    assert path == parent + [last];
    GetConcat(root, parent, [last]);
    if path <= q { assert q == path + q[|path|..]; GetConcat(root, path, q[|path|..]); }
    var slot := Get(root, parent);
    if slot.Some? && slot.value.IsInterior() {
      var after := Node(slot.value.comment, Interior(slot.value.body.children - {last}));
      GetPut(root, parent, after);
      if last !in slot.value.body.children {
        assert after == slot.value;
        PutSame(root, parent);
      }
      if parent <= q {
        RemoveBelow(root, parent, last, q);
      } else if q < path {
        PutAncestor(root, parent, after, q);
      } else {
        PutFrame(root, parent, after, q);
      }
    }
  }

  lemma RemoveBelow(root: Node, parent: Path, last: string, q: Path)
    requires parent <= q
    requires Get(root, parent).Some? && Get(root, parent).value.IsInterior()
    ensures var slot := Get(root, parent).value;
            var after := Node(slot.comment, Interior(slot.body.children - {last}));
            && (q != parent && q[|parent|] == last ==> Get(Put(root, parent, after), q).None?)
            && (q != parent && q[|parent|] != last ==> Get(Put(root, parent, after), q) == Get(root, q))
            && (q == parent ==> Get(Put(root, parent, after), q) == Some(after))
  {
    var slot := Get(root, parent).value;
    var after := Node(slot.comment, Interior(slot.body.children - {last}));
    var tail := q[|parent|..];
    assert q == parent + tail;
    GetPut(root, parent, after);
    GetConcat(root, parent, tail);
    GetConcat(Put(root, parent, after), parent, tail);
  }

  lemma {:induction false} PutAncestor(node: Node, p: Path, n: Node, q: Path)
    requires Get(node, p).Some? && q <= p && (q == p ==> n.comment == Get(node, p).value.comment)
    ensures Get(node, q).Some? && Get(Put(node, p, n), q).Some?
    ensures Get(Put(node, p, n), q).value.comment == Get(node, q).value.comment
    decreases |p|
  {
    if q != [] {
      PutAncestor(node.body.children[p[0]], p[1..], n, q[1..]);
    }
  }

  ghost function LessValue(node: Node, value: string): Option<Node>
    requires node.body.Values?
  {
    var rest := node.body.values - {value};
    if rest == {} then None else Some(Node(node.comment, Values(rest)))
  }

  /** Removing a value takes out that value, and the node with it if it was the last. */
  lemma RemoveValueEffect(root: Node, path: Path, value: string, q: Path)
    requires path != []
    ensures var before := Get(root, path);
            var (after, removed) := RemoveValue(root, path, value);
            && (removed <==> HoldsValues(before) && value in before.value.body.values)
            && (!removed ==> after == root)
            && (removed ==> Get(after, path) == LessValue(before.value, value))
            && (!(path <= q) && !(q < path) ==> Get(after, q) == Get(root, q))
  {
    var before := Get(root, path);
    if HoldsValues(before) && value in before.value.body.values {
      var rest := Node(before.value.comment, Values(before.value.body.values - {value}));
      GetPut(root, path, rest);
      if !(path <= q) && !(q < path) { PutFrame(root, path, rest, q); }
      if before.value.body.values == {value} {
        assert rest.body.values == {};
        RemoveEffect(Put(root, path, rest), path, q);
        RemoveEffect(Put(root, path, rest), path, path);
      }
    }
  }

  /** `Subtree` keeps what is at and below the path, and nothing beside it. */
  lemma SubtreeEffect(root: Node, path: Path, q: Path)
    requires path != [] && Get(root, path).Some?
    ensures Subtree(root, path).Some?
    ensures path <= q ==> Get(Subtree(root, path).value, q) == Get(root, q)
    ensures !(path <= q) && !(q <= path) ==> Get(Subtree(root, path).value, q).None?
  {
    var node := Get(root, path).value;
    var parent, last := path[..|path| - 1], path[|path| - 1];
    assert path == parent + [last];
    var tree := Mutate(EMPTY_INTERIOR, parent, EnsureInterior).0;
    FreshParent(parent, q);
    var slot := Get(tree, parent).value;
    var after := Node(slot.comment, Interior(slot.body.children[last := node]));
    var sub := Put(tree, parent, after);
    GetPut(tree, parent, after);
    GetConcat(sub, parent, [last]);
    if path <= q {
      assert q == path + q[|path|..];
      GetConcat(root, path, q[|path|..]);
      GetConcat(sub, path, q[|path|..]);
    } else if !(q <= path) {
      if parent <= q {
        assert q == parent + q[|parent|..];
        GetConcat(sub, parent, q[|parent|..]);
      } else {
        PutFrame(tree, parent, after, q);
      }
    }
  }

  lemma FreshParent(parent: Path, q: Path)
    ensures var tree := Mutate(EMPTY_INTERIOR, parent, EnsureInterior).0;
            && Get(tree, parent) == Some(EMPTY_INTERIOR)
            && (!(q <= parent) ==> Get(tree, q).None?)
  {
    if parent != [] {
      FreshWalkSucceeds(parent, [], parent, EnsureInterior);
      MutateEffect(EMPTY_INTERIOR, parent, EnsureInterior, q);
    }
  }
}
