/** Device convergence: what is live after applies is what the files describe. */
module NetworkdDevices {
  import opened Wrappers
  import opened Text
  import opened Config
  import opened Ini
  import opened Networkd

  /** Live virtual devices, each with the definition it was created from. */
  type Live = map<string, string>

  // ----- file names and devices ------------------------------------------

  lemma DeviceOfNetdev(name: string)
    ensures DeviceOf(VirtualFile(name, "netdev")) == Some(name)
  {
    var file := VirtualFile(name, "netdev");
    var stem := "20" + MARKER + name;
    assert file == stem + ".netdev";
    assert file[|file| - 7..] == ".netdev" && file[..|file| - 7] == stem;
    assert stem[1..][1..] == MARKER + name;
    assert stem[0] == '2' && stem[1..][0] == '0';
    assert (MARKER + name)[|MARKER|..] == name;
    assert AfterFirst(MARKER + name, MARKER) == Some(name);
    assert AfterFirst(stem[1..], MARKER) == AfterFirst(stem[1..][1..], MARKER);
    assert AfterFirst(stem, MARKER) == AfterFirst(stem[1..], MARKER);
  }

  lemma NetworkIsNoDevice(stem: string)
    ensures DeviceOf(stem + ".network").None?
    ensures EndsWith(stem + ".network", ".network")
  {
    var file := stem + ".network";
    var tail := file[|file| - |".netdev"|..];
    assert tail[6] == 'k' && ".netdev"[6] == 'v';
    assert file[|file| - |".network"|..] == ".network";
  }

  /** Every `.netdev` in the set is named the way a rendered one is. */
  ghost predicate Shaped(files: Files) {
    forall file :: file in files && DeviceOf(file).Some? ==> file == VirtualFile(DeviceOf(file).value, "netdev")
  }

  lemma ShapedDevices(files: Files, device: string)
    requires Shaped(files)
    ensures device in Devices(files) <==> VirtualFile(device, "netdev") in files
  {
    DeviceOfNetdev(device);
  }

  function Definition(files: Files, device: string): string
    requires VirtualFile(device, "netdev") in files
  {
    files[VirtualFile(device, "netdev")]
  }

  // ----- one apply -------------------------------------------------------

  /** `networkctl reload`: create what is described and missing, change nothing else. */
  function Reloaded(live: Live, files: Files): Live {
    live + map device | device in Devices(files) - live.Keys && VirtualFile(device, "netdev") in files :: Definition(files, device)
  }

  /** What applying `after` over `before` does to the devices. */
  function Applied(live: Live, before: Files, after: Files): Live {
    Reloaded(live - Recreations(before, after), after)
  }

  /** How far an apply came with the devices: which it destroyed, and whether it
      reloaded. */
  datatype Progress = Progress(gone: set<string>, reloaded: bool)

  /** The devices where an apply of `after` stopped. */
  function Midway(live: Live, after: Files, p: Progress): Live {
    if p.reloaded then Reloaded(live - p.gone, after) else live - p.gone
  }

  /** Where an apply can stop: it destroys only what has to be rebuilt, and reloads only
      after destroying all of it. */
  predicate Can(p: Progress, before: Files, after: Files) {
    && p.gone <= Recreations(before, after)
    && (p.reloaded ==> p.gone == Recreations(before, after))
  }

  /** Every device outside `gone` is still there, with the definition it had. */
  ghost predicate Keeps(live: Live, now: Live, gone: set<string>) {
    forall device :: device in live && device !in gone ==> device in now && now[device] == live[device]
  }

  /** Two definitions a live device can go between without being rebuilt. */
  predicate SameOnCreation(a: string, b: string) {
    a == b || !NeedsRecreating(a, b)
  }

  /** Exactly the described devices are live, each with the create-time settings described. */
  ghost predicate Settled(live: Live, files: Files) {
    && live.Keys == Devices(files)
    && forall device :: device in live && VirtualFile(device, "netdev") in files ==>
         SameOnCreation(live[device], Definition(files, device))
  }

  lemma SameTransitive(a: string, b: string, c: string)
    requires SameOnCreation(a, b) && SameOnCreation(b, c)
    ensures SameOnCreation(a, c)
  {
    hide KindOf, Anywhere, Recreate, SettingsOf;
  }

  lemma RecreatedIff(before: Files, after: Files, device: string)
    requires Shaped(before)
    ensures device in Recreations(before, after) <==>
            var file := VirtualFile(device, "netdev");
            file in before && (file !in after || NeedsRecreating(before[file], after[file]))
  {
    hide NeedsRecreating, DeviceOf;
    DeviceOfNetdev(device);
  }

  /** After every successful apply the live devices are exactly the described ones,
      and every create-time setting of each is the one described. */
  lemma ApplySettles(live: Live, before: Files, after: Files)
    requires Shaped(before) && Shaped(after) && Settled(live, before)
    ensures Settled(Applied(live, before, after), after)
  {
    hide NeedsRecreating, Devices, Recreations, DeviceOf, VirtualFile;
    var kept := live - Recreations(before, after);
    var then_ := Applied(live, before, after);
    forall device ensures device in then_ <==> device in Devices(after) {
      RecreatedIff(before, after, device);
      ShapedDevices(before, device);
      ShapedDevices(after, device);
    }
    forall device | device in then_ && VirtualFile(device, "netdev") in after
      ensures SameOnCreation(then_[device], Definition(after, device))
    {
      ShapedDevices(before, device);
      ShapedDevices(after, device);
      RecreatedIff(before, after, device);
      if device in kept {
        SameTransitive(live[device], Definition(before, device), Definition(after, device));
      }
    }
  }

  lemma MidwayKeeps(live: Live, after: Files, p: Progress)
    ensures Keeps(live, Midway(live, after, p), p.gone)
  {
    hide Devices, VirtualFile;
  }

  lemma KeepsMore(live: Live, now: Live, gone: set<string>, more: set<string>)
    requires Keeps(live, now, gone) && gone <= more
    ensures Keeps(live, now, more)
  {
  }

  lemma KeepsBoth(live: Live, middle: Live, now: Live, gone: set<string>)
    requires Keeps(live, middle, gone) && Keeps(middle, now, gone)
    ensures Keeps(live, now, gone)
  {
  }

  /** Wherever an apply stops: a device can be destroyed only when its definition is gone
      or a create-time setting of it changed, and is by an apply that gets to the reload;
      every other live device is left as it is. */
  lemma DestroysOnlyChanged(live: Live, before: Files, after: Files, p: Progress, device: string)
    requires Shaped(before) && Settled(live, before) && Can(p, before, after) && device in live
    ensures var file := VirtualFile(device, "netdev");
            && file in before
            && (device in p.gone ==> file !in after || NeedsRecreating(before[file], after[file]))
            && (p.reloaded && (file !in after || NeedsRecreating(before[file], after[file])) ==> device in p.gone)
            && (device !in p.gone ==> device in Midway(live, after, p) && Midway(live, after, p)[device] == live[device])
  {
    hide NeedsRecreating, DeviceOf, Devices, Recreations;
    ShapedDevices(before, device);
    RecreatedIff(before, after, device);
  }

  /** No delete is ever asked for a device that is not there. */
  lemma DeletesExist(live: Live, before: Files, after: Files)
    requires Shaped(before) && Settled(live, before)
    ensures Recreations(before, after) <= live.Keys
  {
    hide NeedsRecreating, DeviceOf;
  }

  // ----- runs of applies -------------------------------------------------

  /** The devices after applying each file set in turn, over nothing at first. */
  function AppliedAll(sets: seq<Files>): Live {
    if sets == [] then map[] else
      var earlier := sets[..|sets| - 1];
      Applied(AppliedAll(earlier), if earlier == [] then map[] else earlier[|earlier| - 1], sets[|sets| - 1])
  }

  lemma {:induction false} AllSettled(sets: seq<Files>)
    requires sets != [] && forall i :: 0 <= i < |sets| ==> Shaped(sets[i])
    ensures Settled(AppliedAll(sets), sets[|sets| - 1])
    decreases |sets|
  {
    hide Applied, Shaped, Settled;
    var earlier := sets[..|sets| - 1];
    if earlier == [] {
      assert Shaped(map[]) && Settled(map[], map[]) by { NothingSettled(); }
      ApplySettles(map[], map[], sets[|sets| - 1]);
    } else {
      AllSettled(earlier);
      ApplySettles(AppliedAll(earlier), earlier[|earlier| - 1], sets[|sets| - 1]);
    }
  }

  lemma NothingSettled()
    ensures Shaped(map[]) && Settled(map[], map[])
  {
  }

  // ----- undoing a failed apply ------------------------------------------

  /** An apply of `after` stopped at `p`; then `before` was applied again, which destroyed
      `again` first. */
  function RestoredFrom(live: Live, before: Files, after: Files, p: Progress, again: set<string>): Live {
    Midway(Midway(live, after, p), before, Progress(again, true))
  }

  /** Each definition says all that creating a device takes, so that applying the same
      files twice destroys nothing. */
  ghost predicate Decided(files: Files) {
    forall file :: file in files && DeviceOf(file).Some? ==> !NeedsRecreating(files[file], files[file])
  }

  /** A reload with nothing destroyed first brings the devices to the new files exactly
      when no device is gone and no create-time setting changed. */
  lemma ReloadSettlesIff(live: Live, before: Files, after: Files)
    requires Shaped(before) && Shaped(after) && Settled(live, before)
    ensures Settled(Reloaded(live, after), after) <==>
            && Devices(before) <= Devices(after)
            && forall device :: device in Devices(before) && VirtualFile(device, "netdev") in before && VirtualFile(device, "netdev") in after ==>
                 SameOnCreation(Definition(before, device), Definition(after, device))
  {
    hide NeedsRecreating, Devices, DeviceOf, VirtualFile;
    var now := Reloaded(live, after);
    forall device ensures device in Devices(before) <==> VirtualFile(device, "netdev") in before { ShapedDevices(before, device); }
    forall device ensures device in Devices(after) <==> VirtualFile(device, "netdev") in after { ShapedDevices(after, device); }
    assert now.Keys == Devices(before) + Devices(after);
    forall device | device in Devices(before) && device in Devices(after)
      ensures SameOnCreation(now[device], Definition(after, device)) <==> SameOnCreation(Definition(before, device), Definition(after, device))
    {
      assert now[device] == live[device] && SameOnCreation(live[device], Definition(before, device));
      SameSymmetric(live[device], Definition(before, device));
      if SameOnCreation(live[device], Definition(after, device)) {
        SameTransitive(Definition(before, device), live[device], Definition(after, device));
      }
      if SameOnCreation(Definition(before, device), Definition(after, device)) {
        SameTransitive(live[device], Definition(before, device), Definition(after, device));
      }
    }
    if Devices(before) <= Devices(after) { assert now.Keys == Devices(after); }
  }

  /** An apply that could not read what was last applied destroys nothing. */
  lemma UnreadSettlesIff(live: Live, before: Files, after: Files)
    requires Shaped(before) && Shaped(after) && Settled(live, before)
    ensures Settled(Applied(live, map[], after), after) <==>
            && Devices(before) <= Devices(after)
            && forall device :: device in Devices(before) && VirtualFile(device, "netdev") in before && VirtualFile(device, "netdev") in after ==>
                 SameOnCreation(Definition(before, device), Definition(after, device))
  {
    hide Settled, Shaped, Devices, VirtualFile, SameOnCreation;
    assert live - Recreations(map[], after) == live;
    hide Recreations, Reloaded;
    ReloadSettlesIff(live, before, after);
  }

  /** Putting the files back puts the devices back, wherever the failed apply stopped,
      exactly when it did not reload, or it added no device and none it destroyed came
      back with another create-time setting. */
  lemma RestoreSettlesIff(live: Live, before: Files, after: Files, p: Progress, again: set<string>)
    requires Shaped(before) && Shaped(after) && Settled(live, before)
    requires p.gone <= Recreations(before, after) && again <= Recreations(before, before)
    ensures Settled(RestoredFrom(live, before, after, p, again), before) <==>
            !p.reloaded || (Devices(after) <= Devices(before) && SameAgain(before, after, p.gone - again))
  {
    hide NeedsRecreating, Devices, DeviceOf, VirtualFile, Recreations, Reloaded;
    DeletesExist(live, before, after);
    DeletesExist(live, before, before);
    var end := RestoredFrom(live, before, after, p, again);
    RestoredKeys(live, before, after, p, again);
    forall device | device in live ensures VirtualFile(device, "netdev") in before { ShapedDevices(before, device); }
    assert end.Keys == Devices(before) <==> !p.reloaded || Devices(after) <= Devices(before);
    forall device | device in live
      ensures SameOnCreation(end[device], Definition(before, device)) <==>
              (p.reloaded && device in p.gone - again && device in Devices(after) ==>
                 VirtualFile(device, "netdev") in after && SameOnCreation(Definition(after, device), Definition(before, device)))
    {
      RestoredAt(live, before, after, p, again, device);
    }
    forall device ensures device in Devices(after) <==> VirtualFile(device, "netdev") in after { ShapedDevices(after, device); }
  }

  /** The devices of `gone` that `after` describes are created from it as from `before`. */
  ghost predicate SameAgain(before: Files, after: Files, gone: set<string>) {
    forall device :: device in gone && VirtualFile(device, "netdev") in before && VirtualFile(device, "netdev") in after ==>
      SameOnCreation(Definition(after, device), Definition(before, device))
  }

  lemma RestoredKeys(live: Live, before: Files, after: Files, p: Progress, again: set<string>)
    requires Shaped(before) && Shaped(after) && live.Keys == Devices(before)
    requires p.gone <= live.Keys && again <= live.Keys
    ensures RestoredFrom(live, before, after, p, again).Keys
            == if p.reloaded then Devices(before) + Devices(after) else Devices(before)
  {
    hide NeedsRecreating, Devices, DeviceOf, VirtualFile, Recreations;
    forall device ensures device in Devices(before) <==> VirtualFile(device, "netdev") in before { ShapedDevices(before, device); }
    forall device ensures device in Devices(after) <==> VirtualFile(device, "netdev") in after { ShapedDevices(after, device); }
  }

  lemma RestoredAt(live: Live, before: Files, after: Files, p: Progress, again: set<string>, device: string)
    requires Shaped(before) && Shaped(after) && Settled(live, before)
    requires p.gone <= live.Keys && again <= live.Keys && device in live
    ensures var end := RestoredFrom(live, before, after, p, again);
            && VirtualFile(device, "netdev") in before && device in end
            && (SameOnCreation(end[device], Definition(before, device)) <==>
                (p.reloaded && device in p.gone - again && device in Devices(after) ==>
                   VirtualFile(device, "netdev") in after && SameOnCreation(Definition(after, device), Definition(before, device))))
  {
    hide NeedsRecreating, Devices, DeviceOf, VirtualFile, Recreations;
    ShapedDevices(before, device);
    ShapedDevices(after, device);
  }

  /** With every definition complete: exactly when the failed apply did not reload, or
      added no device and destroyed none it describes. */
  lemma DecidedRestoreIff(live: Live, before: Files, after: Files, p: Progress)
    requires Shaped(before) && Shaped(after) && Decided(before) && Settled(live, before)
    requires p.gone <= Recreations(before, after)
    ensures Settled(RestoredFrom(live, before, after, p, {}), before) <==>
            !p.reloaded || (Devices(after) <= Devices(before) && p.gone !! Devices(after))
  {
    hide Settled, Devices, DeviceOf, VirtualFile, Recreations, RestoredFrom;
    RestoreSettlesIff(live, before, after, p, {});
    assert p.gone - {} == p.gone;
    hide NeedsRecreating;
    forall device | device in p.gone ensures device in Devices(after) <==> VirtualFile(device, "netdev") in after { ShapedDevices(after, device); }
    forall device | device in p.gone && VirtualFile(device, "netdev") in after
      ensures VirtualFile(device, "netdev") in before && !SameOnCreation(Definition(after, device), Definition(before, device))
    {
      ChangedIsNotSame(before, after, device);
    }
  }

  lemma ChangedIsNotSame(before: Files, after: Files, device: string)
    requires Shaped(before) && Decided(before)
    requires device in Recreations(before, after) && VirtualFile(device, "netdev") in after
    ensures VirtualFile(device, "netdev") in before && !SameOnCreation(Definition(after, device), Definition(before, device))
  {
    RecreatedIff(before, after, device);
    var was, now := Definition(before, device), Definition(after, device);
    DeviceOfNetdev(device);
    if SameOnCreation(now, was) { SameSymmetric(now, was); }
  }

  /** A failing case: the first apply adds a device and fails after its reload. Once
      nothing is described again, the device is still live. */
  lemma AddedDeviceStays(name: string, text: string)
    ensures var after: Files := map[VirtualFile(name, "netdev") := text];
            var p := Progress({}, true);
            && Can(p, map[], after) && Settled(map[], map[])
            && RestoredFrom(map[], map[], after, p, {}) == map[name := text]
            && !Settled(RestoredFrom(map[], map[], after, p, {}), map[])
  {
    var after: Files := map[VirtualFile(name, "netdev") := text];
    DeviceOfNetdev(name);
    hide VirtualFile, DeviceOf, NeedsRecreating;
    assert Devices(after) == {name};
    assert RestoredFrom(map[], map[], after, Progress({}, true), {}) == map[name := text];
  }

  /** What applying the same files again would destroy, applying others destroys too. */
  lemma RedoneIsChanged(before: Files, after: Files)
    ensures Recreations(before, before) <= Recreations(before, after)
  {
    hide DeviceOf;
    forall file | file in before && file in after && NeedsRecreating(before[file], before[file])
      ensures NeedsRecreating(before[file], after[file])
    {
      hide SettingsOf, Recreate, Anywhere;
    }
    hide NeedsRecreating;
  }

  lemma SameSymmetric(a: string, b: string)
    requires SameOnCreation(a, b)
    ensures SameOnCreation(b, a)
  {
    hide KindOf, Anywhere, Recreate, SettingsOf;
  }

  lemma NothingToRedo(files: Files)
    requires Decided(files)
    ensures Recreations(files, files) == {}
  {
    hide NeedsRecreating, DeviceOf;
  }
}
