/** The loader as it is written: a document that absorbs one file after another. */
module LoaderObject {
  import opened Wrappers
  import opened Order
  import opened Loader
  import opened LoaderTheorem

  method FirstDisagreement(a: map<string, Value>, b: map<string, Value>) returns (bad: Option<string>)
    ensures bad == Disagreement(a, b, DEFINITIONS)
  {
    hide Eq;
    var i := 0;
    while i < |DEFINITIONS|
      invariant 0 <= i <= |DEFINITIONS|
      invariant Disagreement(a, b, DEFINITIONS[i..]) == Disagreement(a, b, DEFINITIONS)
    {
      var f := DEFINITIONS[i];
      assert DEFINITIONS[i..][0] == f && DEFINITIONS[i..][1..] == DEFINITIONS[i + 1..];
      if f in a && f in b && !Eq(a[f], b[f]) { return Some(f); }
      i := i + 1;
    }
    assert DEFINITIONS[i..] == [];
    bad := None;
  }

  /** `merge_node`: definitions, then lists, then children. */
  method MergeNodes(a: Raw, b: Raw, at: seq<string>, strict: bool) returns (r: Result<Raw, Conflict>)
    ensures r == MergeNode(a, b, at, strict)
    decreases b, 1, 0
  {
    hide Sorted, Eq, Disagreement, Extended;
    var bad := FirstDisagreement(a.fields, b.fields);
    if strict && bad.Some? { return Err(AtNode(at, bad.value)); }
    var fields, lists := a.fields + b.fields, Extended(a.lists, b.lists);
    match b.below {
      case Nothing => r := Ok(Raw(fields, lists, a.below));
      case Children(nodes) =>
        var children := MergeBelow(ChildrenOf(a), b, at, strict);
        r := if children.Err? then Err(children.error) else Ok(Raw(fields, lists, Children(children.value)));
    }
  }

  /** `merge_children`, in the order a map gives its names. */
  method MergeBelow(start: map<string, Raw>, from: Raw, at: seq<string>, strict: bool)
    returns (r: Result<map<string, Raw>, Conflict>)
    requires from.below.Children?
    ensures r == MergeChildren(start, from, Sorted(from.below.nodes.Keys), at, strict)
    decreases from, 0, 0
  {
    hide Sorted, MergeNode;
    var names := Sorted(from.below.nodes.Keys);
    var into, i := start, 0;
    while i < |names|
      invariant 0 <= i <= |names|
      invariant MergeChildren(into, from, names[i..], at, strict) == MergeChildren(start, from, names, at, strict)
    {
      var name := names[i];
      assert names[i..][0] == name && names[i..][1..] == names[i + 1..];
      var node := from.below.nodes[name];
      if name in into {
        var merged := MergeNodes(into[name], node, at + [name], strict);
        if merged.Err? { return Err(merged.error); }
        into := into[name := merged.value];
      } else {
        into := into[name := node];
      }
      i := i + 1;
    }
    assert names[i..] == [];
    r := Ok(into);
  }

  class Document {
    var templates: map<string, Raw>
    var nodes: Raw
    var globals: seq<string>
    /** The files absorbed so far. */
    ghost var files: seq<File>

    ghost predicate Valid()
      reads this
    {
      MergeAll(files) == Ok(File(templates, nodes, globals))
    }

    constructor ()
      ensures Valid() && files == []
    {
      templates, nodes, globals, files := map[], EMPTY_ROOT, [], [];
    }

    method FirstShared(other: File) returns (shared: Option<string>)
      ensures shared == SharedTemplate(templates, Sorted(other.templates.Keys))
    {
      hide Sorted;
      var names, i := Sorted(other.templates.Keys), 0;
      while i < |names|
        invariant 0 <= i <= |names|
        invariant SharedTemplate(templates, names[i..]) == SharedTemplate(templates, names)
      {
        assert names[i..][0] == names[i] && names[i..][1..] == names[i + 1..];
        if names[i] in templates { return Some(names[i]); }
        i := i + 1;
      }
      assert names[i..] == [];
      shared := None;
    }

    /** `absorb`: the file is taken whole, or refused because it contradicts one of the
        files before it. */
    method Absorb(other: File) returns (e: Option<Conflict>)
      requires Valid()
      modifies this
      ensures e.None? ==> Valid() && files == old(files) + [other]
      ensures e.None? <==> forall i :: 0 <= i < |old(files)| ==> Apart(old(files)[i], other)
    {
      var all := files + [other];
      assert all[..|files|] == files;
      MergeAllIff(files);
      MergeAllIff(all);
      AllApartSnoc(all);
      assert forall i :: 0 <= i < |files| ==> files[i] == all[i];
      hide MergeNode, Apart, AllApart, Sorted, SharedTemplate;
      var shared := FirstShared(other);
      if shared.Some? { return Some(AtTemplate(shared.value)); }
      var merged := MergeNodes(nodes, other.nodes, [], true);
      if merged.Err? { return Some(merged.error); }
      templates, nodes, globals := templates + other.templates, merged.value, globals + other.globals;
      files := all;
      e := None;
    }
  }
}
