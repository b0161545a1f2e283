/** Strict merging is confluent: the order of the files decides neither whether they merge
    nor what the merged document says. */
module LoaderTheorem {
  import opened Wrappers
  import opened Order
  import opened Loader
  import opened LoaderProofs

  // ----- files that can live together ------------------------------------

  ghost predicate Apart(a: File, b: File) {
    a.templates.Keys * b.templates.Keys == {} && Compatible(a.nodes, b.nodes)
  }

  ghost predicate AllApart(files: seq<File>) {
    forall i, j :: 0 <= i < j < |files| ==> Apart(files[i], files[j])
  }

  lemma ApartSymmetric(a: File, b: File)
    ensures Apart(a, b) <==> Apart(b, a)
  {
    hide Eq, Defined;
    forall path, field | field in DEFINITIONS
      ensures Agree(Defined(a.nodes, path, field), Defined(b.nodes, path, field)) == Agree(Defined(b.nodes, path, field), Defined(a.nodes, path, field))
    {
      AgreeSymmetric(Defined(a.nodes, path, field), Defined(b.nodes, path, field));
    }
  }

  lemma AgreeSymmetric(a: Option<Value>, b: Option<Value>)
    ensures Agree(a, b) == Agree(b, a)
  {
    hide Eq;
    if a.Some? && b.Some? { EqSymmetric(a.value, b.value); }
  }

  // ----- what all the files say ------------------------------------------

  /** The definition of the last file that has one. */
  function LastDefined(files: seq<File>, path: seq<string>, field: string): Option<Value> {
    if files == [] then None
    else Later(LastDefined(files[..|files| - 1], path, field), Defined(files[|files| - 1].nodes, path, field))
  }

  function AllListed(files: seq<File>, path: seq<string>, field: string): Option<seq<string>> {
    if files == [] then None
    else Appended(AllListed(files[..|files| - 1], path, field), Listed(files[|files| - 1].nodes, path, field))
  }

  predicate Somewhere(files: seq<File>, path: seq<string>) {
    path == [] || exists i :: 0 <= i < |files| && NodeAt(files[i].nodes, path).Some?
  }

  predicate SomeParent(files: seq<File>, path: seq<string>) {
    path == [] || exists i :: 0 <= i < |files| && Parent(files[i].nodes, path)
  }

  /** The merged document says what the files said. */
  ghost predicate Tells(merged: Raw, files: seq<File>, path: seq<string>, field: string) {
    && (NodeAt(merged, path).Some? <==> Somewhere(files, path))
    && (Parent(merged, path) <==> SomeParent(files, path))
    && Defined(merged, path, field) == LastDefined(files, path, field)
    && Listed(merged, path, field) == AllListed(files, path, field)
  }

  lemma {:induction false} MergedTells(files: seq<File>, path: seq<string>, field: string)
    requires MergeAll(files).Ok?
    ensures Tells(MergeAll(files).value.nodes, files, path, field)
    decreases |files|
  {
    hide MergeNode, Sorted, Defined, Listed, Parent, NodeAt;
    if files == [] {
      EmptyTells(path, field);
    } else {
      var front, last := files[..|files| - 1], files[|files| - 1];
      MergedTells(front, path, field);
      AbsorbedNodes(MergeAll(front).value, last);
      MergedAt(MergeAll(front).value.nodes, last.nodes, [], true, path, field);
      Pieces(MergeAll(front).value.nodes, path, field);
      Pieces(last.nodes, path, field);
      Pieces(MergeAll(files).value.nodes, path, field);
      assert forall i :: 0 <= i < |front| ==> front[i] == files[i];
      if path == [] { RootIsThere(MergeAll(front).value.nodes); }
    }
  }

  lemma RootIsThere(n: Raw)
    ensures NodeAt(n, []).Some?
  {
  }

  lemma AbsorbedNodes(a: File, b: File)
    requires Absorb(a, b).Ok?
    ensures MergeNode(a.nodes, b.nodes, [], true) == Ok(Absorb(a, b).value.nodes)
  {
    hide MergeNode, Sorted;
  }

  lemma Pieces(n: Raw, path: seq<string>, field: string)
    ensures Reached(Some(n), path) == NodeAt(n, path).Some? && HasChildren(Some(n), path) == Parent(n, path)
    ensures Field(Some(n), path, field) == Defined(n, path, field) && List(Some(n), path, field) == Listed(n, path, field)
  {
  }

  lemma EmptyTells(path: seq<string>, field: string)
    ensures Tells(EMPTY_ROOT, [], path, field)
  {
  }

  // ----- when they merge -------------------------------------------------

  lemma {:induction false} LastIs(files: seq<File>, path: seq<string>, field: string, i: nat) returns (k: nat)
    requires i < |files| && Defined(files[i].nodes, path, field).Some?
    ensures i <= k < |files| && LastDefined(files, path, field) == Defined(files[k].nodes, path, field)
    ensures LastDefined(files, path, field).Some?
    decreases |files|
  {
    hide Defined;
    var n := |files| - 1;
    if Defined(files[n].nodes, path, field).Some? {
      k := n;
    } else {
      k := LastIs(files[..n], path, field, i);
    }
  }

  lemma {:induction false} LastIsSome(files: seq<File>, path: seq<string>, field: string) returns (k: nat)
    requires LastDefined(files, path, field).Some?
    ensures k < |files| && LastDefined(files, path, field) == Defined(files[k].nodes, path, field)
    decreases |files|
  {
    hide Defined;
    var n := |files| - 1;
    if Defined(files[n].nodes, path, field).Some? {
      k := n;
    } else {
      k := LastIsSome(files[..n], path, field);
    }
  }

  lemma MergedSpeaksForAll(front: seq<File>, last: File, merged: Raw, i: nat)
    requires AllApart(front) && i < |front| && Compatible(merged, last.nodes)
    requires forall path, field :: Defined(merged, path, field) == LastDefined(front, path, field)
    ensures Compatible(front[i].nodes, last.nodes)
  {
    hide Eq, Defined, LastDefined, Apart, Agree;
    forall path, field | field in DEFINITIONS ensures Agree(Defined(front[i].nodes, path, field), Defined(last.nodes, path, field)) {
      if Defined(front[i].nodes, path, field).Some? {
        var k := LastIs(front, path, field, i);
        assert Agree(Defined(merged, path, field), Defined(last.nodes, path, field));
        if i < k { AgreeThrough(front[i], front[k], last, path, field); }
      } else {
        NoneAgrees(Defined(last.nodes, path, field));
      }
    }
  }

  lemma NoneAgrees(a: Option<Value>)
    ensures Agree(None, a) && Agree(a, None)
  {
  }

  lemma LastAgrees(front: seq<File>, last: File, path: seq<string>, field: string)
    requires field in DEFINITIONS && forall i :: 0 <= i < |front| ==> Compatible(front[i].nodes, last.nodes)
    ensures Agree(LastDefined(front, path, field), Defined(last.nodes, path, field))
  {
    hide Eq, Defined, LastDefined;
    if LastDefined(front, path, field).Some? {
      var k := LastIsSome(front, path, field);
      assert Compatible(front[k].nodes, last.nodes);
    }
  }

  lemma AllSpeakForMerged(front: seq<File>, last: File, merged: Raw)
    requires forall path, field :: Defined(merged, path, field) == LastDefined(front, path, field)
    requires forall i :: 0 <= i < |front| ==> Compatible(front[i].nodes, last.nodes)
    ensures Compatible(merged, last.nodes)
  {
    hide Eq, Agree, Defined, LastDefined;
    forall path, field | field in DEFINITIONS ensures Agree(Defined(merged, path, field), Defined(last.nodes, path, field)) {
      hide Compatible;
      LastAgrees(front, last, path, field);
    }
  }

  lemma OneForAll(front: seq<File>, last: File, merged: Raw)
    requires AllApart(front)
    requires forall path, field :: Defined(merged, path, field) == LastDefined(front, path, field)
    ensures Compatible(merged, last.nodes) <==> forall i :: 0 <= i < |front| ==> Compatible(front[i].nodes, last.nodes)
  {
    hide Compatible, Defined, LastDefined, AllApart;
    if Compatible(merged, last.nodes) {
      forall i | 0 <= i < |front| ensures Compatible(front[i].nodes, last.nodes) { MergedSpeaksForAll(front, last, merged, i); }
    }
    if forall i :: 0 <= i < |front| ==> Compatible(front[i].nodes, last.nodes) { AllSpeakForMerged(front, last, merged); }
  }

  lemma AgreeThrough(a: File, b: File, c: File, path: seq<string>, field: string)
    requires field in DEFINITIONS && Apart(a, b) && Defined(b.nodes, path, field).Some?
    requires Agree(Defined(b.nodes, path, field), Defined(c.nodes, path, field))
    ensures Agree(Defined(a.nodes, path, field), Defined(c.nodes, path, field))
  {
    hide Eq, Defined;
    assert Compatible(a.nodes, b.nodes);
    var x, y, z := Defined(a.nodes, path, field), Defined(b.nodes, path, field), Defined(c.nodes, path, field);
    assert Agree(x, y);
    if x.Some? && z.Some? { EqTransitive(x.value, y.value, z.value); }
  }

  lemma {:induction false} SharedTemplateIs(a: map<string, Raw>, names: seq<string>)
    ensures SharedTemplate(a, names).None? <==> forall n :: n in names ==> n !in a
  {
    if names != [] {
      SharedTemplateIs(a, names[1..]);
      assert names == [names[0]] + names[1..];
    }
  }

  lemma AbsorbIff(a: File, b: File)
    ensures Absorb(a, b).Ok? <==> Apart(a, b)
    ensures Absorb(a, b).Ok? ==> Absorb(a, b).value.templates == a.templates + b.templates
    ensures Absorb(a, b).Ok? ==> Absorb(a, b).value.globals == a.globals + b.globals
  {
    hide MergeNode, Compatible, Sorted;
    MergeIff(a.nodes, b.nodes);
    SharedTemplateIs(a.templates, Sorted(b.templates.Keys));
    assert forall n :: n in Sorted(b.templates.Keys) <==> n in b.templates;
    DisjointKeys(a.templates, b.templates);
  }

  lemma DisjointKeys(a: map<string, Raw>, b: map<string, Raw>)
    ensures a.Keys * b.Keys == {} <==> forall n :: n in b ==> n !in a
  {
    if a.Keys * b.Keys == {} {
      forall n | n in b ensures n !in a { assert n !in a.Keys * b.Keys; }
    }
  }

  function TemplateNames(files: seq<File>): set<string> {
    if files == [] then {} else TemplateNames(files[..|files| - 1]) + files[|files| - 1].templates.Keys
  }

  lemma {:induction false} NamesApart(front: seq<File>, last: File)
    ensures TemplateNames(front) * last.templates.Keys == {} <==>
            forall i :: 0 <= i < |front| ==> front[i].templates.Keys * last.templates.Keys == {}
    decreases |front|
  {
    if front != [] {
      var n := |front| - 1;
      NamesApart(front[..n], last);
      assert forall i :: 0 <= i < n ==> front[..n][i] == front[i];
      UnionApart(TemplateNames(front[..n]), front[n].templates.Keys, last.templates.Keys);
    }
  }

  lemma UnionApart(a: set<string>, b: set<string>, c: set<string>)
    ensures (a + b) * c == {} <==> a * c == {} && b * c == {}
  {
    assert (a + b) * c == a * c + b * c;
    assert a * c <= a * c + b * c && b * c <= a * c + b * c;
  }

  lemma {:induction false} MergedTemplates(files: seq<File>, n: string)
    requires MergeAll(files).Ok?
    ensures var t := MergeAll(files).value.templates;
            && t.Keys == TemplateNames(files)
            && (n in t <==> exists i :: 0 <= i < |files| && n in files[i].templates)
            && forall i :: 0 <= i < |files| && n in files[i].templates ==> t[n] == files[i].templates[n]
    decreases |files|
  {
    hide Absorb, Compatible;
    if files != [] {
      var front, last := files[..|files| - 1], files[|files| - 1];
      assert forall i :: 0 <= i < |front| ==> front[i] == files[i];
      MergedTemplates(front, n);
      AbsorbIff(MergeAll(front).value, last);
      DisjointKeys(MergeAll(front).value.templates, last.templates);
    }
  }

  lemma AllApartSnoc(files: seq<File>)
    requires files != []
    ensures var front, last := files[..|files| - 1], files[|files| - 1];
            AllApart(files) <==> AllApart(front) && forall i :: 0 <= i < |front| ==> Apart(front[i], last)
  {
    hide Apart;
    var front, last := files[..|files| - 1], files[|files| - 1];
    assert forall i :: 0 <= i < |front| ==> front[i] == files[i];
  }

  /** Files merge exactly when no two of them contradict each other. */
  lemma {:induction false} MergeAllIff(files: seq<File>)
    ensures MergeAll(files).Ok? <==> AllApart(files)
    decreases |files|
  {
    hide Absorb, Compatible, Defined, LastDefined, Apart, AllApart;
    if files == [] {
      NoneApart();
    } else {
      var front, last := files[..|files| - 1], files[|files| - 1];
      MergeAllIff(front);
      AllApartSnoc(files);
      if MergeAll(front).Ok? {
        var merged := MergeAll(front).value;
        AbsorbIff(merged, last);
        forall path, field ensures Defined(merged.nodes, path, field) == LastDefined(front, path, field) { MergedTells(front, path, field); }
        OneForAll(front, last, merged.nodes);
        MergedTemplates(front, "");
        NamesApart(front, last);
        ApartForAll(merged, front, last);
      }
    }
  }

  lemma NoneApart()
    ensures AllApart([])
  {
  }

  lemma ApartForAll(merged: File, front: seq<File>, last: File)
    requires merged.templates.Keys * last.templates.Keys == {} <==>
             forall i :: 0 <= i < |front| ==> front[i].templates.Keys * last.templates.Keys == {}
    requires Compatible(merged.nodes, last.nodes) <==> forall i :: 0 <= i < |front| ==> Compatible(front[i].nodes, last.nodes)
    ensures Apart(merged, last) <==> forall i :: 0 <= i < |front| ==> Apart(front[i], last)
  {
    hide Compatible;
  }

  // ----- any order -------------------------------------------------------

  function Without<T>(s: seq<T>, i: nat): (r: seq<T>)
    requires i < |s|
  {
    s[..i] + s[i + 1..]
  }

  lemma WithoutMultiset<T>(s: seq<T>, i: nat)
    requires i < |s|
    ensures multiset(s) == multiset(Without(s, i)) + multiset{s[i]}
  {
    assert s == s[..i] + [s[i]] + s[i + 1..];
  }

  lemma SameWithout<T>(s: seq<T>, i: nat, t: seq<T>, j: nat)
    requires i < |s| && j < |t| && s[i] == t[j] && multiset(s) == multiset(t)
    ensures multiset(Without(s, i)) == multiset(Without(t, j))
  {
    WithoutMultiset(s, i);
    WithoutMultiset(t, j);
    assert multiset(Without(s, i)) == multiset(s) - multiset{s[i]};
    assert multiset(Without(t, j)) == multiset(t) - multiset{s[i]};
  }

  /** Where each file of `other` stands in `files`. */
  predicate Arranges<T(==)>(files: seq<T>, other: seq<T>, at: seq<nat>) {
    && |at| == |other| == |files|
    && (forall j :: 0 <= j < |at| ==> at[j] < |files| && other[j] == files[at[j]])
    && forall i, j :: 0 <= i < j < |at| ==> at[i] != at[j]
  }

  lemma {:induction false} Arrangement<T>(files: seq<T>, other: seq<T>) returns (at: seq<nat>)
    requires multiset(files) == multiset(other)
    ensures Arranges(files, other, at)
    decreases |files|
  {
    assert |files| == |multiset(files)| == |multiset(other)| == |other|;
    if files == [] {
      at := [];
    } else {
      var n := |files| - 1;
      assert files[n] in multiset(other);
      var j :| 0 <= j < |other| && other[j] == files[n];
      SameWithout(files, n, other, j);
      assert Without(files, n) == files[..n];
      var rest := Arrangement(files[..n], Without(other, j));
      at := rest[..j] + [n] + rest[j..];
      ArrangedBack(files, other, j, rest);
    }
  }

  lemma ArrangedBack<T>(files: seq<T>, other: seq<T>, j: nat, rest: seq<nat>)
    requires files != [] && j < |other| && other[j] == files[|files| - 1] && |other| == |files|
    requires Arranges(files[..|files| - 1], Without(other, j), rest)
    ensures Arranges(files, other, rest[..j] + [|files| - 1] + rest[j..])
  {
    var n := |files| - 1;
    var at := rest[..j] + [n] + rest[j..];
    forall k | 0 <= k < |at| ensures at[k] < |files| && other[k] == files[at[k]] {
      if k < j {
        assert at[k] == rest[k] && Without(other, j)[k] == other[k];
      } else if k > j {
        assert at[k] == rest[k - 1] && Without(other, j)[k - 1] == other[k];
      }
    }
  }

  lemma ApartAnyOrder(files: seq<File>, other: seq<File>)
    requires multiset(files) == multiset(other) && AllApart(files)
    ensures AllApart(other)
  {
    hide Apart;
    var at := Arrangement(files, other);
    forall i, j | 0 <= i < j < |other| ensures Apart(other[i], other[j]) {
      if at[i] < at[j] {
        assert Apart(files[at[i]], files[at[j]]);
      } else {
        assert Apart(files[at[j]], files[at[i]]);
        ApartSymmetric(other[i], other[j]);
      }
    }
  }

  /** The same value, or one `==` does not tell from it. */
  predicate Alike(a: Option<Value>, b: Option<Value>) {
    a.Some? == b.Some? && (a.Some? ==> a.value == b.value || Eq(a.value, b.value))
  }

  lemma DefinedAnyOrder(files: seq<File>, other: seq<File>, path: seq<string>, field: string)
    requires multiset(files) == multiset(other) && AllApart(files) && field in DEFINITIONS
    requires LastDefined(other, path, field).Some?
    ensures Alike(LastDefined(files, path, field), LastDefined(other, path, field))
  {
    hide Eq, Defined, LastDefined, Apart;
    var at := Arrangement(files, other);
    var l := LastIsSome(other, path, field);
    var m := at[l];
    var k := LastIs(files, path, field, m);
    if m < k {
      assert Apart(files[m], files[k]);
      AgreesWith(files[m], files[k], path, field);
      AlikeSwap(Defined(files[m].nodes, path, field), Defined(files[k].nodes, path, field));
    }
  }

  lemma AgreesWith(a: File, b: File, path: seq<string>, field: string)
    requires Apart(a, b) && field in DEFINITIONS
    ensures Agree(Defined(a.nodes, path, field), Defined(b.nodes, path, field))
  {
    hide Eq, Defined;
  }

  lemma AlikeSwap(a: Option<Value>, b: Option<Value>)
    requires Agree(a, b) && a.Some? && b.Some?
    ensures Alike(b, a)
  {
    hide Eq;
    EqSymmetric(a.value, b.value);
  }

  /** What every file contributes, taken together. */
  function Total(files: seq<File>, own: File -> multiset<string>): multiset<string> {
    if files == [] then multiset{} else Total(files[..|files| - 1], own) + own(files[|files| - 1])
  }

  function Lists(path: seq<string>, field: string): File -> multiset<string> {
    (f: File) => multiset(Listed(f.nodes, path, field).UnwrapOr([]))
  }

  function Globals(): File -> multiset<string> {
    (f: File) => multiset(f.globals)
  }

  lemma {:induction false} ListedTotal(files: seq<File>, path: seq<string>, field: string)
    ensures multiset(AllListed(files, path, field).UnwrapOr([])) == Total(files, Lists(path, field))
    ensures AllListed(files, path, field).Some? <==> exists i :: 0 <= i < |files| && Listed(files[i].nodes, path, field).Some?
    decreases |files|
  {
    hide Listed;
    if files != [] {
      var front := files[..|files| - 1];
      assert forall i :: 0 <= i < |front| ==> front[i] == files[i];
      ListedTotal(front, path, field);
    }
  }

  lemma {:induction false} GlobalsTotal(files: seq<File>)
    requires MergeAll(files).Ok?
    ensures multiset(MergeAll(files).value.globals) == Total(files, Globals())
    decreases |files|
  {
    hide Absorb, Apart;
    if files != [] {
      var front, last := files[..|files| - 1], files[|files| - 1];
      GlobalsTotal(front);
      AbsorbIff(MergeAll(front).value, last);
    }
  }

  lemma {:induction false} TotalWithout(files: seq<File>, i: nat, own: File -> multiset<string>)
    requires i < |files|
    ensures Total(files, own) == Total(Without(files, i), own) + own(files[i])
    decreases |files|
  {
    var n := |files| - 1;
    if i == n {
      assert Without(files, i) == files[..n];
    } else {
      TotalWithout(files[..n], i, own);
      var rest := Without(files, i);
      assert rest[..|rest| - 1] == Without(files[..n], i) && rest[|rest| - 1] == files[n];
    }
  }

  lemma {:induction false} TotalAnyOrder(files: seq<File>, other: seq<File>, own: File -> multiset<string>)
    requires multiset(files) == multiset(other)
    ensures Total(files, own) == Total(other, own)
    decreases |files|
  {
    assert |files| == |multiset(files)| == |multiset(other)| == |other|;
    if files != [] {
      var n := |files| - 1;
      assert files[n] in multiset(other);
      var j :| 0 <= j < |other| && other[j] == files[n];
      SameWithout(files, n, other, j);
      assert Without(files, n) == files[..n];
      TotalAnyOrder(files[..n], Without(other, j), own);
      TotalWithout(other, j, own);
    }
  }

  /** Two merged documents that say the same at a path. */
  ghost predicate SameAt(a: Raw, b: Raw, path: seq<string>, field: string) {
    && (NodeAt(a, path).Some? <==> NodeAt(b, path).Some?)
    && (Parent(a, path) <==> Parent(b, path))
    && (field in DEFINITIONS ==> Alike(Defined(a, path, field), Defined(b, path, field)))
    && (Listed(a, path, field).Some? <==> Listed(b, path, field).Some?)
    && multiset(Listed(a, path, field).UnwrapOr([])) == multiset(Listed(b, path, field).UnwrapOr([]))
  }

  lemma NowhereElse(files: seq<File>, other: seq<File>, path: seq<string>, field: string)
    requires multiset(files) == multiset(other)
    ensures Somewhere(files, path) ==> Somewhere(other, path)
    ensures SomeParent(files, path) ==> SomeParent(other, path)
    ensures (exists i :: 0 <= i < |files| && Listed(files[i].nodes, path, field).Some?) ==>
            (exists i :: 0 <= i < |other| && Listed(other[i].nodes, path, field).Some?)
  {
    hide NodeAt, Parent, Listed;
    var at := Arrangement(other, files);
  }

  lemma SameAnyOrder(files: seq<File>, other: seq<File>, path: seq<string>, field: string)
    requires multiset(files) == multiset(other) && MergeAll(files).Ok? && MergeAll(other).Ok?
    ensures SameAt(MergeAll(files).value.nodes, MergeAll(other).value.nodes, path, field)
  {
    MergeAllIff(files);
    MergedTells(files, path, field);
    MergedTells(other, path, field);
    hide Absorb, NodeAt, Parent, Defined, Listed, LastDefined, AllListed, Alike, Total, Somewhere, SomeParent, AllApart;
    if field in DEFINITIONS {
      if LastDefined(other, path, field).Some? {
        DefinedAnyOrder(files, other, path, field);
      } else {
        NeverDefined(files, other, path, field);
      }
    }
    NowhereElse(files, other, path, field);
    NowhereElse(other, files, path, field);
    ListedTotal(files, path, field);
    ListedTotal(other, path, field);
    TotalAnyOrder(files, other, Lists(path, field));
  }

  lemma NeverDefined(files: seq<File>, other: seq<File>, path: seq<string>, field: string)
    requires multiset(files) == multiset(other) && LastDefined(other, path, field).None?
    ensures Alike(LastDefined(files, path, field), LastDefined(other, path, field))
  {
    hide Eq, Defined, LastDefined;
    if LastDefined(files, path, field).Some? {
      var k := LastIsSome(files, path, field);
      var at := Arrangement(other, files);
      var l := LastIs(other, path, field, at[k]);
      assert false;
    }
  }

  lemma TemplatesAnyOrder(files: seq<File>, other: seq<File>)
    requires multiset(files) == multiset(other) && MergeAll(files).Ok? && MergeAll(other).Ok?
    ensures MergeAll(files).value.templates == MergeAll(other).value.templates
  {
    hide MergeAll;
    var at := Arrangement(files, other);
    var back := Arrangement(other, files);
    var t, u := MergeAll(files).value.templates, MergeAll(other).value.templates;
    forall n ensures n in t <==> n in u
             ensures n in t && n in u ==> t[n] == u[n]
    {
      MergedTemplates(files, n);
      MergedTemplates(other, n);
    }
  }

  /** For every list of files and every reordering of it: both merge or neither does, and
      what they merge to has the same templates, the same nodes, the same definitions up
      to `==`, and the same list entries and global constraints up to order. */
  lemma MergeIsConfluent(files: seq<File>, other: seq<File>)
    requires multiset(files) == multiset(other)
    ensures MergeAll(files).Ok? <==> MergeAll(other).Ok?
    ensures MergeAll(files).Ok? ==>
              && MergeAll(files).value.templates == MergeAll(other).value.templates
              && multiset(MergeAll(files).value.globals) == multiset(MergeAll(other).value.globals)
              && forall path, field :: SameAt(MergeAll(files).value.nodes, MergeAll(other).value.nodes, path, field)
  {
    hide MergeAll, AllApart, SameAt;
    MergeAllIff(files);
    MergeAllIff(other);
    if MergeAll(files).Ok? { ApartAnyOrder(files, other); }
    if MergeAll(other).Ok? { ApartAnyOrder(other, files); }
    if MergeAll(files).Ok? {
      TemplatesAnyOrder(files, other);
      GlobalsTotal(files);
      GlobalsTotal(other);
      TotalAnyOrder(files, other, Globals());
      forall path, field ensures SameAt(MergeAll(files).value.nodes, MergeAll(other).value.nodes, path, field) {
        SameAnyOrder(files, other, path, field);
      }
    }
  }

  /** Up to `==` is as much as there is: two files giving the two zeroes merge in either
      order, each time to the zero of the second. */
  lemma ZeroesTellTheOrder()
    ensures var one, two := MergeAll([ZeroFile(false), ZeroFile(true)]), MergeAll([ZeroFile(true), ZeroFile(false)]);
            one.Ok? && two.Ok? && Defined(one.value.nodes, [], "default") != Defined(two.value.nodes, [], "default")
  {
    LastZeroWins(false, true);
    LastZeroWins(true, false);
    hide MergeAll, Defined, ZeroFile;
  }

  function ZeroFile(negative: bool): File {
    File(map[], Raw(map["default" := Floating(Zero(negative))], map[], Nothing), [])
  }

  lemma LastZeroWins(first: bool, second: bool)
    ensures MergeAll([ZeroFile(first), ZeroFile(second)]).Ok?
    ensures Defined(MergeAll([ZeroFile(first), ZeroFile(second)]).value.nodes, [], "default") == Some(Floating(Zero(second)))
  {
    var a, b := ZeroFile(first), ZeroFile(second);
    var files := [a, b];
    TwoZeroes(first, second);
    assert Defined(b.nodes, [], "default") == Some(Floating(Zero(second)));
    hide MergeAll, Apart, Defined, ZeroFile;
    MergeAllIff(files);
    MergedTells(files, [], "default");
  }

  lemma TwoZeroes(first: bool, second: bool)
    ensures Apart(ZeroFile(first), ZeroFile(second))
  {
    var a, b := ZeroFile(first).nodes, ZeroFile(second).nodes;
    forall path, field ensures Agree(Defined(a, path, field), Defined(b, path, field)) {
      if path != [] { assert ChildrenOf(a) == map[]; }
    }
  }
}
