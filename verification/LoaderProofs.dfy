/** What one merge does, path by path: a strict one fails exactly on a contradiction, and
    an overlay never. */
module LoaderProofs {
  import opened Wrappers
  import opened Order
  import opened Loader

  lemma {:induction false} DisagreementIs(a: map<string, Value>, b: map<string, Value>, fields: seq<string>)
    ensures var d := Disagreement(a, b, fields);
            && (d.None? ==> forall f :: f in fields && f in a && f in b ==> Eq(a[f], b[f]))
            && (d.Some? ==> d.value in fields && d.value in a && d.value in b && !Eq(a[d.value], b[d.value]))
  {
    hide Eq;
    if fields != [] {
      DisagreementIs(a, b, fields[1..]);
      assert fields == [fields[0]] + fields[1..];
    }
  }

  /** One child of a merge: merged where both have it, copied where only one does. */
  ghost predicate ChildJoined(a: Option<Raw>, b: Option<Raw>, at: seq<string>, strict: bool, r: Option<Raw>) {
    if b.None? then r == a
    else if a.None? then r == b
    else r.Some? && MergeNode(a.value, b.value, at, strict) == Ok(r.value)
  }

  function Child(m: map<string, Raw>, n: string): Option<Raw> {
    if n in m then Some(m[n]) else None
  }

  lemma {:induction false} ChildMerges(into: map<string, Raw>, from: Raw, names: seq<string>, at: seq<string>,
                              strict: bool, n: string)
    requires from.below.Children? && Distinct(names) && forall i :: 0 <= i < |names| ==> names[i] in from.below.nodes
    requires MergeChildren(into, from, names, at, strict).Ok?
    ensures ChildJoined(Child(into, n), if n in names then Child(from.below.nodes, n) else None, at + [n], strict,
                        Child(MergeChildren(into, from, names, at, strict).value, n))
    decreases |names|
  {
    hide MergeNode;
    if names != [] {
      var name, rest := names[0], names[1..];
      var node := from.below.nodes[name];
      assert names == [name] + rest;
      assert Distinct(rest) && name !in rest;
      var next := if name in into then into[name := MergeNode(into[name], node, at + [name], strict).value] else into[name := node];
      ChildMerges(next, from, rest, at, strict, n);
    }
  }

  lemma {:induction false} ChildRefuses(into: map<string, Raw>, from: Raw, names: seq<string>, at: seq<string>, strict: bool)
    returns (n: string)
    requires from.below.Children? && Distinct(names) && forall i :: 0 <= i < |names| ==> names[i] in from.below.nodes
    requires MergeChildren(into, from, names, at, strict).Err?
    ensures n in names && n in into
    ensures MergeNode(into[n], from.below.nodes[n], at + [n], strict) == Err(MergeChildren(into, from, names, at, strict).error)
    decreases |names|
  {
    hide MergeNode;
    var name, rest := names[0], names[1..];
    var node := from.below.nodes[name];
    assert names == [name] + rest;
    assert Distinct(rest) && name !in rest;
    if name !in into {
      n := ChildRefuses(into[name := node], from, rest, at, strict);
    } else {
      match MergeNode(into[name], node, at + [name], strict)
      case Err(e) => n := name;
      case Ok(merged) => n := ChildRefuses(into[name := merged], from, rest, at, strict);
    }
  }

  /** One level of a successful merge, for one child. */
  lemma NodesJoin(a: Raw, b: Raw, at: seq<string>, strict: bool, n: string)
    requires MergeNode(a, b, at, strict).Ok?
    ensures var r := MergeNode(a, b, at, strict).value;
            && (strict ==> forall f :: f in DEFINITIONS && f in a.fields && f in b.fields ==> Eq(a.fields[f], b.fields[f]))
            && r.fields == a.fields + b.fields && r.lists == Extended(a.lists, b.lists)
            && (r.below.Children? <==> a.below.Children? || b.below.Children?)
            && ChildJoined(Child(ChildrenOf(a), n), Child(ChildrenOf(b), n), at + [n], strict, Child(ChildrenOf(r), n))
  {
    DisagreementIs(a.fields, b.fields, DEFINITIONS);
    hide Eq, Disagreement, Extended, Sorted, ChildJoined;
    if b.below.Children? {
      var names := Sorted(b.below.nodes.Keys);
      SortedIsSorted(b.below.nodes.Keys);
      ChildMerges(ChildrenOf(a), b, names, at, strict, n);
      assert n in names <==> n in b.below.nodes;
    } else {
      NoChildJoined(Child(ChildrenOf(a), n), at + [n], strict);
    }
  }

  lemma NoChildJoined(a: Option<Raw>, at: seq<string>, strict: bool)
    ensures ChildJoined(a, None, at, strict, a)
  {
  }

  ghost predicate SaysBoth(a: Option<Raw>, b: Option<Raw>, r: Option<Raw>, strict: bool, path: seq<string>, field: string) {
    && (Reached(r, path) <==> Reached(a, path) || Reached(b, path))
    && Field(r, path, field) == Later(Field(a, path, field), Field(b, path, field))
    && List(r, path, field) == Appended(List(a, path, field), List(b, path, field))
    && (HasChildren(r, path) <==> HasChildren(a, path) || HasChildren(b, path))
    && (strict && field in DEFINITIONS ==> Agree(Field(a, path, field), Field(b, path, field)))
  }

  predicate Reached(n: Option<Raw>, path: seq<string>) { n.Some? && NodeAt(n.value, path).Some? }

  predicate HasChildren(n: Option<Raw>, path: seq<string>) { n.Some? && Parent(n.value, path) }

  function Field(n: Option<Raw>, path: seq<string>, field: string): Option<Value> {
    if n.Some? then Defined(n.value, path, field) else None
  }

  function List(n: Option<Raw>, path: seq<string>, field: string): Option<seq<string>> {
    if n.Some? then Listed(n.value, path, field) else None
  }

  lemma Below(n: Raw, path: seq<string>, field: string)
    requires path != []
    ensures var c := Child(ChildrenOf(n), path[0]);
            && (Reached(Some(n), path) <==> Reached(c, path[1..]))
            && Field(Some(n), path, field) == Field(c, path[1..], field)
            && List(Some(n), path, field) == List(c, path[1..], field)
            && (HasChildren(Some(n), path) <==> HasChildren(c, path[1..]))
  {
  }

  lemma Here(n: Raw, field: string)
    ensures Reached(Some(n), []) && (HasChildren(Some(n), []) <==> n.below.Children?)
    ensures Field(Some(n), [], field) == if field in n.fields then Some(n.fields[field]) else None
    ensures List(Some(n), [], field) == if field in n.lists then Some(n.lists[field]) else None
  {
  }

  /** What the merged document says at a path is what the two said: the later definition
      where both have one, which in a strict merge is the same. */
  lemma {:induction false} MergedAt(a: Raw, b: Raw, at: seq<string>, strict: bool, path: seq<string>, field: string)
    requires MergeNode(a, b, at, strict).Ok?
    ensures SaysBoth(Some(a), Some(b), Some(MergeNode(a, b, at, strict).value), strict, path, field)
    decreases |path|
  {
    var r := MergeNode(a, b, at, strict).value;
    NodesJoin(a, b, at, strict, if path == [] then "" else path[0]);
    hide MergeNode, Eq, Reached, HasChildren, Field, List;
    if path == [] {
      Here(a, field);
      Here(b, field);
      Here(r, field);
      ExtendedAt(a.lists, b.lists, field);
    } else {
      Below(a, path, field);
      Below(b, path, field);
      Below(r, path, field);
      var ca, cb := Child(ChildrenOf(a), path[0]), Child(ChildrenOf(b), path[0]);
      hide Child;
      OneSided(ca, strict, path[1..], field);
      OneSided(cb, strict, path[1..], field);
      if ca.Some? && cb.Some? { MergedAt(ca.value, cb.value, at + [path[0]], strict, path[1..], field); }
    }
  }

  lemma ExtendedAt(a: map<string, seq<string>>, b: map<string, seq<string>>, f: string)
    ensures f in Extended(a, b) <==> f in a || f in b
    ensures f in a && f !in b ==> Extended(a, b)[f] == a[f]
    ensures f in b && f !in a ==> Extended(a, b)[f] == b[f]
    ensures f in a && f in b ==> Extended(a, b)[f] == a[f] + b[f]
  {
  }

  lemma OneSided(n: Option<Raw>, strict: bool, path: seq<string>, field: string)
    ensures SaysBoth(n, None, n, strict, path, field) && SaysBoth(None, n, n, strict, path, field)
  {
  }

  lemma MergeRefuses(a: Raw, b: Raw, at: seq<string>) returns (f: Option<string>, n: Option<string>)
    requires MergeNode(a, b, at, true).Err?
    ensures var e := MergeNode(a, b, at, true).error;
            if f.Some? then f.value in DEFINITIONS && f.value in a.fields && f.value in b.fields
                            && !Eq(a.fields[f.value], b.fields[f.value]) && e == AtNode(at, f.value)
            else n.Some? && n.value in ChildrenOf(a) && n.value in ChildrenOf(b)
                 && MergeNode(ChildrenOf(a)[n.value], ChildrenOf(b)[n.value], at + [n.value], true) == Err(e)
  {
    DisagreementIs(a.fields, b.fields, DEFINITIONS);
    hide Eq;
    f, n := Disagreement(a.fields, b.fields, DEFINITIONS), None;
    if f.None? {
      hide Sorted, Disagreement, Extended;
      var names := Sorted(b.below.nodes.Keys);
      SortedIsSorted(b.below.nodes.Keys);
      var child := ChildRefuses(ChildrenOf(a), b, names, at, true);
      assert child in b.below.nodes;
      n := Some(child);
    }
  }

  ghost predicate Contradict(a: Raw, b: Raw, path: seq<string>, field: string) {
    field in DEFINITIONS && !Agree(Defined(a, path, field), Defined(b, path, field))
  }

  lemma BelowContradicts(a: Raw, b: Raw, n: string, path: seq<string>, field: string)
    requires n in ChildrenOf(a) && n in ChildrenOf(b) && Contradict(ChildrenOf(a)[n], ChildrenOf(b)[n], path, field)
    ensures Contradict(a, b, [n] + path, field)
  {
    hide Eq;
    assert ([n] + path)[1..] == path;
  }

  /** A refused merge names a definition the two really disagree on. */
  lemma {:induction false} RefusalIsReal(a: Raw, b: Raw, at: seq<string>)
    requires MergeNode(a, b, at, true).Err?
    ensures var e := MergeNode(a, b, at, true).error;
            e.AtNode? && at <= e.path && Contradict(a, b, e.path[|at|..], e.field)
    decreases b
  {
    var f, n := MergeRefuses(a, b, at);
    var e := MergeNode(a, b, at, true).error;
    hide MergeNode, Eq, Contradict;
    if f.Some? {
      assert e.path[|at|..] == [];
      assert Contradict(a, b, [], f.value) by { HereContradicts(a, b, f.value); }
    } else {
      var ca, cb := ChildrenOf(a)[n.value], ChildrenOf(b)[n.value];
      ChildIsSmaller(b, n.value);
      RefusalIsReal(ca, cb, at + [n.value]);
      TailOf(e.path, at, n.value);
      BelowContradicts(a, b, n.value, e.path[|at| + 1..], e.field);
    }
  }

  lemma TailOf(path: seq<string>, at: seq<string>, n: string)
    requires at + [n] <= path
    ensures at <= path && path[|at|..] == [n] + path[|at| + 1..] && path[|at| + 1..] == path[|at + [n]|..]
  {
  }

  lemma ChildIsSmaller(b: Raw, n: string)
    requires n in ChildrenOf(b)
    ensures b decreases to ChildrenOf(b)[n]
  {
  }

  lemma HereContradicts(a: Raw, b: Raw, f: string)
    requires f in DEFINITIONS && f in a.fields && f in b.fields && !Eq(a.fields[f], b.fields[f])
    ensures Contradict(a, b, [], f)
  {
  }

  /** A strict merge succeeds exactly when no definition of one contradicts the other. */
  lemma MergeIff(a: Raw, b: Raw)
    ensures MergeNode(a, b, [], true).Ok? <==> Compatible(a, b)
  {
    hide MergeNode, Eq;
    if MergeNode(a, b, [], true).Ok? {
      forall path, field | field in DEFINITIONS ensures Agree(Defined(a, path, field), Defined(b, path, field)) {
        MergedAt(a, b, [], true, path, field);
      }
    } else {
      RefusalIsReal(a, b, []);
    }
  }

  /** An overlay is never refused: the later definition wins. */
  lemma {:induction false} OverlayMerges(a: Raw, b: Raw, at: seq<string>)
    ensures MergeNode(a, b, at, false).Ok?
    decreases b
  {
    if MergeNode(a, b, at, false).Err? {
      hide Sorted, Disagreement, Extended;
      var names := Sorted(b.below.nodes.Keys);
      SortedIsSorted(b.below.nodes.Keys);
      var n := ChildRefuses(ChildrenOf(a), b, names, at, false);
      ChildIsSmaller(b, n);
      OverlayMerges(ChildrenOf(a)[n], ChildrenOf(b)[n], at + [n]);
    }
  }

  /** So what an overlay says at every path is what the later one says there, or failing
      that the earlier one. */
  lemma OverlaidAt(a: Raw, b: Raw, path: seq<string>, field: string)
    ensures MergeNode(a, b, [], false).Ok?
    ensures var r := MergeNode(a, b, [], false).value;
            && (NodeAt(r, path).Some? <==> NodeAt(a, path).Some? || NodeAt(b, path).Some?)
            && Defined(r, path, field) == (if Defined(b, path, field).Some? then Defined(b, path, field) else Defined(a, path, field))
            && Listed(r, path, field) == Appended(Listed(a, path, field), Listed(b, path, field))
  {
    hide MergeNode, NodeAt;
    OverlayMerges(a, b, []);
    MergedAt(a, b, [], false, path, field);
  }
}
