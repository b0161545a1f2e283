/** What a renderer produces, what it owns, and what the machine holds of it. */
module ArtifactSets {
  import opened Wrappers
  import opened Networkd
  import opened NetworkdDevices

  datatype File = File(dir: string, name: string)

  /** The files of a machine, or of a part of one. */
  type Tree = map<File, string>

  function Held(tree: Tree, f: File): Option<string> {
    if f in tree then Some(tree[f]) else None
  }

  /** Files of a directory whose name carries the marker are ours to write and remove. */
  datatype Managed = Managed(dir: string, marker: string, files: Files)

  datatype Action =
    | SetHostName(name: string, domain: Option<string>)
    | SetTimeZone(zone: string)
    | ReloadNetworkd
    | RecreateNetdev(device: string)
    | EnsureAccount(name: string, fullName: Option<string>)
    | SetPassword(name: string, hash: string)

  /** The complete output of one renderer for one config. */
  datatype Artifacts = Artifacts(managed: seq<Managed>, files: Tree, actions: seq<Action>)

  predicate Marked(name: string, marker: string) {
    AfterFirst(name, marker).Some?
  }

  // ----- what artifacts say about a file ---------------------------------

  predicate ReachesOne(m: Managed, f: File) {
    m.dir == f.dir && (Marked(f.name, m.marker) || f.name in m.files)
  }

  predicate ReachesIn(managed: seq<Managed>, f: File) {
    exists i :: 0 <= i < |managed| && ReachesOne(managed[i], f)
  }

  /** Whether applying `a` decides what becomes of `f`. */
  predicate Reaches(a: Artifacts, f: File) {
    f in a.files || ReachesIn(a.managed, f)
  }

  function WantedIn(managed: seq<Managed>, f: File): Option<string> {
    if managed == [] then None
    else if managed[0].dir == f.dir && f.name in managed[0].files then Some(managed[0].files[f.name])
    else WantedIn(managed[1..], f)
  }

  /** What `a` wants a file to hold; nothing when the file should not be there. */
  function Wanted(a: Artifacts, f: File): Option<string> {
    if f in a.files then Some(a.files[f]) else WantedIn(a.managed, f)
  }

  /** Artifacts that do not contradict themselves: one entry a directory, every managed
      file marked as such, and no single file inside what a directory manages. */
  ghost predicate Coherent(a: Artifacts) {
    && (forall i, j :: 0 <= i < j < |a.managed| ==> a.managed[i].dir != a.managed[j].dir)
    && (forall i, name :: 0 <= i < |a.managed| && name in a.managed[i].files ==> Marked(name, a.managed[i].marker))
    && (forall f :: f in a.files ==> !ReachesIn(a.managed, f))
  }

  lemma {:induction false} WantedAt(managed: seq<Managed>, i: nat, f: File)
    requires i < |managed| && managed[i].dir == f.dir
    requires forall i, j :: 0 <= i < j < |managed| ==> managed[i].dir != managed[j].dir
    ensures WantedIn(managed, f) == if f.name in managed[i].files then Some(managed[i].files[f.name]) else None
  {
    if i == 0 {
      WantedNowhere(managed[1..], f);
    } else {
      WantedAt(managed[1..], i - 1, f);
    }
  }

  lemma {:induction false} WantedNowhere(managed: seq<Managed>, f: File)
    requires forall i :: 0 <= i < |managed| ==> managed[i].dir != f.dir || f.name !in managed[i].files
    ensures WantedIn(managed, f).None?
  {
    if managed != [] { WantedNowhere(managed[1..], f); }
  }

  lemma ReachesSnoc(managed: seq<Managed>, i: nat, f: File)
    requires i < |managed|
    ensures ReachesIn(managed[..i + 1], f) <==> ReachesIn(managed[..i], f) || ReachesOne(managed[i], f)
  {
    hide ReachesOne;
    var before, after := managed[..i], managed[..i + 1];
    assert after[i] == managed[i];
    if j :| 0 <= j < |after| && ReachesOne(after[j], f) {
      if j < i { assert before[j] == after[j]; }
    }
    if j :| 0 <= j < |before| && ReachesOne(before[j], f) {
      assert after[j] == before[j];
    }
  }

  lemma ReachesCons(managed: seq<Managed>, f: File)
    requires managed != []
    ensures ReachesIn(managed, f) <==> ReachesOne(managed[0], f) || ReachesIn(managed[1..], f)
  {
    hide ReachesOne;
    if ReachesIn(managed[1..], f) {
      var i :| 0 <= i < |managed[1..]| && ReachesOne(managed[1..][i], f);
      assert ReachesOne(managed[i + 1], f);
    }
    if i :| 0 < i < |managed| && ReachesOne(managed[i], f) {
      assert ReachesOne(managed[1..][i - 1], f);
    }
  }

  /** Every file the artifacts speak of, with its contents. */
  function AllFiles(managed: seq<Managed>, files: Tree): Tree {
    if managed == [] then files
    else AllFiles(managed[1..], files) + map name | name in managed[0].files :: File(managed[0].dir, name) := managed[0].files[name]
  }

  lemma {:induction false} AllFilesWanted(managed: seq<Managed>, files: Tree, f: File)
    requires forall g :: g in files ==> !ReachesIn(managed, g)
    ensures Held(AllFiles(managed, files), f) == if f in files then Some(files[f]) else WantedIn(managed, f)
  {
    hide Marked;
    if managed != [] {
      forall g | g in files ensures !ReachesIn(managed[1..], g) && !ReachesOne(managed[0], g) { ReachesCons(managed, g); }
      AllFilesWanted(managed[1..], files, f);
    }
  }

  /** Everything the artifacts decide is as they want it. */
  ghost predicate InPlace(tree: Tree, a: Artifacts) {
    forall f :: Reaches(a, f) ==> Held(tree, f) == Wanted(a, f)
  }

  /** Wherever applying the artifacts stopped: each file is as it was, or one they decide
      and as they want it. */
  ghost predicate Partway(before: Tree, after: Tree, a: Artifacts) {
    forall f :: Held(after, f) == Held(before, f) || (Reaches(a, f) && Held(after, f) == Wanted(a, f))
  }

  lemma WantedIsReached(a: Artifacts, f: File)
    requires Wanted(a, f).Some?
    ensures Reaches(a, f)
  {
    hide Marked;
    if !Reaches(a, f) { WantedNowhere(a.managed, f); }
  }

  // ----- territories -----------------------------------------------------

  /** The part of the machine a renderer owns, whatever it renders. */
  datatype Territory = Territory(managed: seq<(string, string)>, paths: set<File>)

  ghost predicate Managing(t: Territory, f: File) {
    exists i :: 0 <= i < |t.managed| && t.managed[i].0 == f.dir && Marked(f.name, t.managed[i].1)
  }

  ghost predicate Owns(t: Territory, f: File) {
    f in t.paths || Managing(t, f)
  }

  ghost predicate Disjoint(t: Territory, u: Territory) {
    forall f :: !(Owns(t, f) && Owns(u, f))
  }

  /** Artifacts that stay inside a territory. */
  ghost predicate Fits(a: Artifacts, t: Territory) {
    && Coherent(a)
    && |a.managed| == |t.managed|
    && (forall i :: 0 <= i < |a.managed| ==> a.managed[i].dir == t.managed[i].0 && a.managed[i].marker == t.managed[i].1)
    && a.files.Keys <= t.paths
  }

  lemma ReachesInside(a: Artifacts, t: Territory, f: File)
    requires Fits(a, t)
    ensures Reaches(a, f) ==> Owns(t, f)
    ensures Managing(t, f) ==> Reaches(a, f)
    ensures ReachesIn(a.managed, f) <==> Managing(t, f)
  {
    hide Marked;
    if Managing(t, f) {
      var i :| 0 <= i < |t.managed| && t.managed[i].0 == f.dir && Marked(f.name, t.managed[i].1);
      assert ReachesOne(a.managed[i], f);
    }
    if ReachesIn(a.managed, f) {
      var i :| 0 <= i < |a.managed| && ReachesOne(a.managed[i], f);
      assert t.managed[i].0 == f.dir;
    }
  }

  // ----- the devices a networkd directory describes ----------------------

  /** Our files of one directory, by name. */
  function Ours(tree: Tree, dir: string): Files {
    map f | f in tree && f.dir == dir && Marked(f.name, MARKER) :: f.name := tree[f]
  }

  /** The files whose `.netdev`s say which devices there are. */
  function Described(a: Option<Artifacts>): Files {
    if a.None? || a.value.managed == [] then map[] else a.value.managed[0].files
  }

  lemma OursWhenInPlace(tree: Tree, a: Artifacts, dir: string)
    requires Coherent(a) && a.managed != [] && a.managed[0].dir == dir && a.managed[0].marker == MARKER
    requires InPlace(tree, a)
    ensures Ours(tree, dir) == a.managed[0].files
  {
    hide Marked, ReachesIn;
    var ours, files := Ours(tree, dir), a.managed[0].files;
    forall name ensures name in ours <==> name in files
                ensures name in files ==> name in ours && ours[name] == files[name]
    {
      OneInPlace(tree, a, dir, name);
      var f := File(dir, name);
      assert name in ours <==> f in tree && Marked(name, MARKER);
    }
  }

  lemma OneInPlace(tree: Tree, a: Artifacts, dir: string, name: string)
    requires Coherent(a) && a.managed != [] && a.managed[0].dir == dir && a.managed[0].marker == MARKER
    requires InPlace(tree, a)
    ensures Marked(name, MARKER) ==> Held(tree, File(dir, name)) == (if name in a.managed[0].files then Some(a.managed[0].files[name]) else None)
    ensures name in a.managed[0].files ==> Marked(name, MARKER)
  {
    hide Marked;
    var f := File(dir, name);
    if Marked(name, MARKER) {
      assert ReachesOne(a.managed[0], f);
      assert ReachesIn(a.managed, f);
      WantedAt(a.managed, 0, f);
    }
  }
}
