/** Applying a plan and undoing it: one renderer's artifacts at a time, everything
    rendered and checked first, everything put back when a step fails. */
module Transaction {
  import opened Wrappers
  import opened Config
  import opened Networkd
  import opened NetworkdDevices
  import opened ArtifactSets
  import opened HostObject

  /** A subsystem: what it is called, what it owns, and its two pure steps. */
  datatype Renderer = Renderer(
    name: string,
    territory: Territory,
    networkd: bool,
    render: Node -> Option<Artifacts>,
    check: Artifacts -> bool)

  // ----- one renderer ----------------------------------------------------

  ghost predicate ManagedCoherent(managed: seq<Managed>) {
    && (forall i, j :: 0 <= i < j < |managed| ==> managed[i].dir != managed[j].dir)
    && (forall i, name :: 0 <= i < |managed| && name in managed[i].files ==> Marked(name, managed[i].marker))
  }

  lemma SyncedOne(before: Tree, after: Tree, managed: seq<Managed>, i: nat, f: File)
    requires ManagedCoherent(managed) && i < |managed|
    requires Outside(before, after, managed[i].dir, managed[i].marker, managed[i].files)
    requires Written(after, managed[i].dir, managed[i].files) && Swept(after, managed[i].dir, managed[i].marker, managed[i].files)
    requires ReachesIn(managed[..i], f) ==> Held(before, f) == WantedIn(managed, f)
    ensures ReachesIn(managed[..i + 1], f) ==> Held(after, f) == WantedIn(managed, f)
  {
    hide Marked, WantedIn;
    ReachesSnoc(managed, i, f);
    if ReachesOne(managed[i], f) {
      WantedAt(managed, i, f);
      if f.name in managed[i].files { assert f == File(managed[i].dir, f.name); }
    } else if ReachesIn(managed[..i], f) {
      var j :| 0 <= j < i && ReachesOne(managed[..i][j], f);
      assert managed[j].dir != managed[i].dir;
    }
  }

  /** Each file is as it was, or one the directories decide and as they want it. */
  ghost predicate PartwayIn(before: Tree, after: Tree, managed: seq<Managed>) {
    forall f :: Held(after, f) == Held(before, f) || (ReachesIn(managed, f) && Held(after, f) == WantedIn(managed, f))
  }

  lemma PartwayOne(before: Tree, middle: Tree, after: Tree, managed: seq<Managed>, i: nat)
    requires ManagedCoherent(managed) && i < |managed| && PartwayIn(before, middle, managed)
    requires Outside(middle, after, managed[i].dir, managed[i].marker, managed[i].files)
    requires Between(middle, after, managed[i].dir, managed[i].files)
    ensures PartwayIn(before, after, managed)
  {
    hide Marked, WantedIn;
    forall f | Held(after, f) != Held(middle, f) ensures ReachesIn(managed, f) && Held(after, f) == WantedIn(managed, f) {
      assert ReachesOne(managed[i], f);
      WantedAt(managed, i, f);
    }
  }

  method SyncAll(m: Machine, managed: seq<Managed>) returns (ok: bool)
    requires ManagedCoherent(managed)
    modifies m`files, m`script
    ensures PartwayIn(old(m.files), m.files, managed)
    ensures ok ==> forall f :: ReachesIn(managed, f) ==> Held(m.files, f) == WantedIn(managed, f)
    ensures Cost(old(m.script), m.script, if ok then 0 else 1)
  {
    hide Marked, WantedIn, Written, Swept, Between, Outside, ManagedCoherent, PartwayIn;
    ok := true;
    var i := 0;
    NothingSynced(m.files, managed);
    while i < |managed|
      invariant 0 <= i <= |managed| && ok
      invariant PartwayIn(old(m.files), m.files, managed)
      invariant forall f :: ReachesIn(managed[..i], f) ==> Held(m.files, f) == WantedIn(managed, f)
      invariant Cost(old(m.script), m.script, 0)
    {
      ghost var before := m.files;
      ok := m.Sync(managed[i].dir, managed[i].marker, managed[i].files);
      PartwayOne(old(m.files), before, m.files, managed, i);
      if !ok { return; }
      forall f | ReachesIn(managed[..i + 1], f) ensures Held(m.files, f) == WantedIn(managed, f) {
        SyncedOne(before, m.files, managed, i, f);
      }
      i := i + 1;
    }
    assert managed[..i] == managed;
  }

  lemma NothingSynced(tree: Tree, managed: seq<Managed>)
    ensures PartwayIn(tree, tree, managed)
    ensures forall f :: !ReachesIn(managed[..0], f)
  {
  }

  method WriteAll(m: Machine, files: Tree) returns (ok: bool)
    modifies m`files, m`script
    ensures forall f :: Held(m.files, f) == Held(old(m.files), f) || (f in files && Held(m.files, f) == Some(files[f]))
    ensures ok ==> forall f :: f in files ==> Held(m.files, f) == Some(files[f])
    ensures Cost(old(m.script), m.script, if ok then 0 else 1)
  {
    ok := true;
    var todo := files.Keys;
    while todo != {}
      invariant ok && todo <= files.Keys
      invariant forall f :: Held(m.files, f) == Held(old(m.files), f) || (f in files && Held(m.files, f) == Some(files[f]))
      invariant forall f :: f in files.Keys - todo ==> Held(m.files, f) == Some(files[f])
      invariant Cost(old(m.script), m.script, 0)
      decreases |todo|
    {
      var f :| f in todo;
      ok := m.Write(f, files[f]);
      if !ok { return; }
      todo := todo - {f};
    }
  }

  /** Destroys devices until one delete fails; `gone` are those destroyed. */
  method DeleteAll(m: Machine, devices: set<string>) returns (ok: bool, ghost gone: set<string>)
    modifies m`live, m`script
    ensures gone <= devices && m.live == old(m.live) - gone
    ensures ok ==> gone == devices
    ensures Cost(old(m.script), m.script, if ok then 0 else 1)
  {
    ok, gone := true, {};
    var todo := devices;
    while todo != {}
      invariant ok && todo <= devices && gone == devices - todo && m.live == old(m.live) - gone
      invariant Cost(old(m.script), m.script, 0)
      decreases |todo|
    {
      var device :| device in todo;
      ok := m.Run(RecreateNetdev(device));
      if !ok { return; }
      todo, gone := todo - {device}, gone + {device};
    }
  }

  /** What a list of commands does to the devices, the files being what they are. */
  function Effects(live: Live, ours: Files, actions: seq<Action>): Live {
    if actions == [] then live else
      var earlier := Effects(live, ours, actions[..|actions| - 1]);
      match actions[|actions| - 1]
      case RecreateNetdev(device) => earlier - {device}
      case ReloadNetworkd => Reloaded(earlier, ours)
      case _ => earlier
  }

  /** Only a delete takes a device away: any other list of commands keeps every device
      with its definition. */
  lemma {:induction false} EffectsKeep(live: Live, ours: Files, actions: seq<Action>)
    requires forall i :: 0 <= i < |actions| ==> !actions[i].RecreateNetdev?
    ensures Keeps(live, Effects(live, ours, actions), {})
    decreases |actions|
  {
    if actions != [] {
      EffectsKeep(live, ours, actions[..|actions| - 1]);
      MidwayKeeps(Effects(live, ours, actions[..|actions| - 1]), ours, Progress({}, true));
      assert forall earlier: Live :: earlier - {} == earlier;
    }
  }

  /** Runs commands until one fails; `ran` of them succeeded. */
  method RunAll(m: Machine, actions: seq<Action>) returns (ok: bool, ghost ran: nat)
    modifies m`live, m`script
    ensures ran <= |actions| && m.live == Effects(old(m.live), Ours(m.files, m.networkd), actions[..ran])
    ensures ok ==> ran == |actions|
    ensures Cost(old(m.script), m.script, if ok then 0 else 1)
  {
    hide Reloaded, Ours;
    ok, ran := true, 0;
    var i := 0;
    while i < |actions|
      invariant 0 <= i <= |actions| && ok && ran == i
      invariant m.live == Effects(old(m.live), Ours(m.files, m.networkd), actions[..i])
      invariant Cost(old(m.script), m.script, 0)
    {
      ok := m.Run(actions[i]);
      if !ok { return; }
      assert actions[..i + 1][..i] == actions[..i];
      i, ran := i + 1, ran + 1;
    }
  }

  /** The devices a renderer destroys before its commands. */
  function ToDestroy(r: Renderer, seen: Option<Artifacts>, a: Artifacts): set<string> {
    if r.networkd then Recreations(Described(seen), Described(Some(a))) else {}
  }

  /** Files first, then destroy what has to be rebuilt, then the commands. Wherever it
      stops: a file is as it was or as wanted, only devices to rebuild are destroyed, and
      no command runs before every file is in place and those devices are gone. */
  method Apply(m: Machine, r: Renderer, a: Artifacts)
    returns (ok: bool, seen: Option<Artifacts>, ghost gone: set<string>, ghost ran: nat)
    requires Coherent(a)
    modifies m`files, m`live, m`script
    ensures Partway(old(m.files), m.files, a)
    ensures gone <= ToDestroy(r, seen, a) && ran <= |a.actions|
    ensures m.live == Effects(old(m.live) - gone, Ours(m.files, m.networkd), a.actions[..ran])
    ensures gone != {} || 0 < ran ==> InPlace(m.files, a)
    ensures 0 < ran ==> gone == ToDestroy(r, seen, a)
    ensures ok ==> InPlace(m.files, a) && gone == ToDestroy(r, seen, a) && ran == |a.actions|
    ensures (forall i :: 0 <= i < |a.actions| ==> !a.actions[i].RecreateNetdev?) ==> Keeps(old(m.live), m.live, ToDestroy(r, seen, a))
    ensures seen.Some? ==> r.name in m.recorded && seen.value == m.recorded[r.name]
    ensures Cost(old(m.script), m.script, if !ok || (r.networkd && r.name in m.recorded && seen.None?) then 1 else 0)
  {
    hide Marked, WantedIn, ReachesIn, Recreations, Ours, Effects, Keeps;
    seen, gone, ran := None, {}, 0;
    NothingDone(m.live, Ours(m.files, m.networkd), a.actions, ToDestroy(r, None, a));
    ok := SyncAll(m, a.managed);
    NothingDone(m.live, Ours(m.files, m.networkd), a.actions, ToDestroy(r, None, a));
    if !ok { return; }
    label Synced:
    ok := WriteAll(m, a.files);
    NothingDone(m.live, Ours(m.files, m.networkd), a.actions, ToDestroy(r, None, a));
    if !ok { return; }
    forall f | Reaches(a, f) ensures Held(m.files, f) == Wanted(a, f) {
      if f !in a.files { assert Held(m.files, f) == Held(old@Synced(m.files), f); }
    }
    if r.networkd {
      seen := m.Load(r.name);
      ok, gone := DeleteAll(m, Recreations(Described(seen), Described(Some(a))));
    }
    LeftAfter(old(m.live), gone, ToDestroy(r, seen, a), Ours(m.files, m.networkd), a.actions, 0);
    if !ok { return; }
    ok, ran := RunAll(m, a.actions);
    LeftAfter(old(m.live), gone, ToDestroy(r, seen, a), Ours(m.files, m.networkd), a.actions, ran);
  }

  lemma LeftAfter(live: Live, gone: set<string>, most: set<string>, ours: Files, actions: seq<Action>, ran: nat)
    requires gone <= most && ran <= |actions|
    ensures (forall i :: 0 <= i < |actions| ==> !actions[i].RecreateNetdev?) ==>
              Keeps(live, Effects(live - gone, ours, actions[..ran]), most)
    ensures ran == 0 ==> Effects(live - gone, ours, actions[..ran]) == live - gone
  {
    if forall i :: 0 <= i < |actions| ==> !actions[i].RecreateNetdev? {
      EffectsKeep(live - gone, ours, actions[..ran]);
    }
  }

  lemma NothingDone(live: Live, ours: Files, actions: seq<Action>, most: set<string>)
    ensures live == Effects(live - {}, ours, actions[..0])
    ensures Keeps(live, live, most)
  {
    assert live - {} == live;
  }

  method Verify(m: Machine, a: Artifacts) returns (ok: bool)
    requires Coherent(a)
    modifies m`script
    ensures ok ==> forall f :: Wanted(a, f).Some? ==> Held(m.files, f) == Wanted(a, f)
    ensures Cost(old(m.script), m.script, if !ok && InPlace(m.files, a) then 1 else 0)
  {
    hide WantedIn, Marked, Reaches, ReachesIn;
    forall f ensures Held(AllFiles(a.managed, a.files), f) == Wanted(a, f) { AllFilesWanted(a.managed, a.files, f); }
    forall f | Wanted(a, f).Some? ensures Reaches(a, f) { WantedIsReached(a, f); }
    hide Wanted, AllFiles;
    var v := m.Verify(AllFiles(a.managed, a.files));
    if v.Missing? || v.Differs? { assert Held(AllFiles(a.managed, a.files), v.f) == Wanted(a, v.f); }
    ok := v.Good?;
  }
}
