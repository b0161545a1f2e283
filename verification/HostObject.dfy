/** The machine a renderer applies to. Any single step may fail: `script` says which of
    the steps still to come do, and a proof that holds for every script holds whatever
    fails. */
module HostObject {
  import opened Wrappers
  import opened Order
  import opened Networkd
  import opened NetworkdDevices
  import opened ArtifactSets

  /** How many of the steps to come fail. */
  function Faults(script: seq<bool>): nat {
    if script == [] then 0 else (if script[0] then 0 else 1) + Faults(script[1..])
  }

  /** What went wrong took at least so many faults. */
  predicate Cost(before: seq<bool>, after: seq<bool>, failures: nat) {
    Faults(after) + failures <= Faults(before)
  }

  datatype Verdict = Good | Unreadable(f: File) | Missing(f: File) | Differs(f: File)

  /** Each file is as it was or as it should be. */
  ghost predicate Between(before: Tree, after: Tree, dir: string, wanted: Files) {
    forall f :: Held(after, f) == Held(before, f)
             || (f.dir == dir && Held(after, f) == if f.name in wanted then Some(wanted[f.name]) else None)
  }

  /** What a sync has to say about the files it does not manage. */
  ghost predicate Outside(before: Tree, after: Tree, dir: string, marker: string, wanted: Files) {
    forall f: File :: f.dir != dir || (!Marked(f.name, marker) && f.name !in wanted) ==> Held(after, f) == Held(before, f)
  }

  ghost predicate Written(tree: Tree, dir: string, wanted: Files) {
    forall name :: name in wanted ==> Held(tree, File(dir, name)) == Some(wanted[name])
  }

  /** Nothing left in the directory that carries the marker and is not wanted. */
  ghost predicate Swept(tree: Tree, dir: string, marker: string, wanted: Files) {
    forall f :: f in tree && f.dir == dir && Marked(f.name, marker) ==> f.name in wanted
  }

  class Machine {
    /** The directory networkd reads. */
    const networkd: string
    var files: Tree
    var live: Live
    /** What each renderer last recorded, by its name. */
    var recorded: map<string, Artifacts>
    var script: seq<bool>

    constructor (networkd: string, files: Tree, live: Live, recorded: map<string, Artifacts>, script: seq<bool>)
      ensures this.networkd == networkd && this.files == files && this.live == live
      ensures this.recorded == recorded && this.script == script
    {
      this.networkd, this.files, this.live, this.recorded, this.script := networkd, files, live, recorded, script;
    }

    /** One step that may fail. */
    method Attempt() returns (ok: bool)
      modifies this`script
      ensures ok == (old(script) == [] || old(script)[0])
      ensures script == if old(script) == [] then [] else old(script)[1..]
      ensures Cost(old(script), script, if ok then 0 else 1)
    {
      if script == [] { return true; }
      ok, script := script[0], script[1..];
    }

    /** `write_atomically`: the whole file or nothing. */
    method Write(f: File, contents: string) returns (ok: bool)
      modifies this`files, this`script
      ensures files == if ok then old(files)[f := contents] else old(files)
      ensures Cost(old(script), script, if ok then 0 else 1)
    {
      ok := Attempt();
      if ok { ok := Attempt(); }
      if ok { files := files[f := contents]; }
    }

    method Read(f: File) returns (r: Result<Option<string>, ()>)
      modifies this`script
      ensures r.Ok? ==> r.value == Held(files, f)
      ensures Cost(old(script), script, if r.Ok? then 0 else 1)
    {
      var ok := Attempt();
      r := if ok then Ok(Held(files, f)) else Err(());
    }

    /** What a command that succeeds does to the devices. */
    function Effect(action: Action): Live
      reads this
    {
      match action
      case RecreateNetdev(device) => live - {device}
      case ReloadNetworkd => Reloaded(live, Ours(files, networkd))
      case _ => live
    }

    method Run(action: Action) returns (ok: bool)
      modifies this`live, this`script
      ensures live == if ok then old(Effect(action)) else old(live)
      ensures Cost(old(script), script, if ok then 0 else 1)
    {
      ok := Attempt();
      if ok { live := Effect(action); }
    }

    method WriteWanted(dir: string, wanted: Files) returns (ok: bool)
      modifies this`files, this`script
      ensures forall f: File :: f.dir != dir || f.name !in wanted ==> Held(files, f) == Held(old(files), f)
      ensures Between(old(files), files, dir, wanted)
      ensures ok ==> Written(files, dir, wanted)
      ensures old(files).Keys <= files.Keys
      ensures Cost(old(script), script, if ok then 0 else 1)
    {
      hide Sorted;
      var names := Sorted(wanted.Keys);
      ok := Attempt();
      var i := 0;
      while ok && i < |names|
        invariant 0 <= i <= |names|
        invariant forall f: File :: f.dir != dir || f.name !in wanted ==> Held(files, f) == Held(old(files), f)
        invariant Between(old(files), files, dir, wanted)
        invariant forall j :: 0 <= j < i ==> Held(files, File(dir, names[j])) == Some(wanted[names[j]])
        invariant old(files).Keys <= files.Keys
        invariant Cost(old(script), script, if ok then 0 else 1)
        decreases |names| - i, ok
      {
        ok := Write(File(dir, names[i]), wanted[names[i]]);
        if ok { i := i + 1; }
      }
    }

    method SweepStale(dir: string, marker: string, wanted: Files) returns (ok: bool)
      modifies this`files, this`script
      ensures forall f :: Held(files, f) == Held(old(files), f)
                       || (f.dir == dir && Marked(f.name, marker) && f.name !in wanted && Held(files, f).None?)
      ensures ok ==> Swept(files, dir, marker, wanted)
      ensures Cost(old(script), script, if ok then 0 else 1)
    {
      hide Marked;
      ok := Attempt();
      var entries := set f | f in files && f.dir == dir;
      while ok && entries != {}
        invariant forall f :: Held(files, f) == Held(old(files), f)
                           || (f.dir == dir && Marked(f.name, marker) && f.name !in wanted && Held(files, f).None?)
        invariant forall f :: f in entries ==> f.dir == dir
        invariant ok ==> forall f :: f in files && f.dir == dir && Marked(f.name, marker) && f.name !in wanted ==> f in entries
        invariant Cost(old(script), script, if ok then 0 else 1)
        decreases |entries|, ok
      {
        var f :| f in entries;
        if Marked(f.name, marker) && f.name !in wanted {
          ok := Attempt();
          if ok { files := files - {f}; }
        }
        entries := entries - {f};
      }
    }

    /** Make `dir` hold exactly `wanted` among the files carrying `marker`. Writes come
        first, so a failure leaves too many files rather than too few. */
    method Sync(dir: string, marker: string, wanted: Files) returns (ok: bool)
      modifies this`files, this`script
      ensures Outside(old(files), files, dir, marker, wanted)
      ensures Between(old(files), files, dir, wanted)
      ensures ok ==> Written(files, dir, wanted) && Swept(files, dir, marker, wanted)
      ensures Written(files, dir, wanted) || old(files).Keys <= files.Keys
      ensures Cost(old(script), script, if ok then 0 else 1)
    {
      ok := WriteWanted(dir, wanted);
      if ok {
        label Wrote:
        ok := SweepStale(dir, marker, wanted);
        forall name | name in wanted ensures Held(files, File(dir, name)) == Some(wanted[name]) {
          assert Held(old@Wrote(files), File(dir, name)) == Some(wanted[name]);
        }
      }
    }

    /** `verify_files`: read everything back. */
    method Verify(wanted: Tree) returns (v: Verdict)
      modifies this`script
      ensures v.Good? ==> forall f :: f in wanted ==> Held(files, f) == Some(wanted[f])
      ensures v.Missing? ==> v.f in wanted && v.f !in files
      ensures v.Differs? ==> v.f in wanted && v.f in files && files[v.f] != wanted[v.f]
      ensures Cost(old(script), script, if v.Unreadable? then 1 else 0)
    {
      var todo := wanted.Keys;
      while todo != {}
        invariant todo <= wanted.Keys
        invariant forall f :: f in wanted.Keys - todo ==> Held(files, f) == Some(wanted[f])
        invariant Cost(old(script), script, 0)
        decreases |todo|
      {
        var f :| f in todo;
        var r := Read(f);
        match r {
          case Err(_) => return Unreadable(f);
          case Ok(None) => return Missing(f);
          case Ok(Some(found)) =>
            if found != wanted[f] { return Differs(f); }
        }
        todo := todo - {f};
      }
      v := Good;
    }

    /** `LastApplied::load`: a record that cannot be read is no record. */
    method Load(name: string) returns (a: Option<Artifacts>)
      modifies this`script
      ensures a.Some? ==> name in recorded && a.value == recorded[name]
      ensures Cost(old(script), script, if a.None? && name in recorded then 1 else 0)
    {
      var ok := Attempt();
      a := if ok && name in recorded then Some(recorded[name]) else None;
    }

    /** `LastApplied::save`. */
    method Save(name: string, a: Artifacts) returns (ok: bool)
      modifies this`recorded, this`script
      ensures recorded == if ok then old(recorded)[name := a] else old(recorded)
      ensures Cost(old(script), script, if ok then 0 else 1)
    {
      ok := Attempt();
      if ok { recorded := recorded[name := a]; }
    }
  }
}
