/** The commit pipeline over every renderer: render all, check all, apply and verify one
    at a time, restore in reverse when one fails, and record only when all succeeded. */
module CommitPipeline {
  import opened Wrappers
  import opened Config
  import opened Networkd
  import opened NetworkdDevices
  import opened ArtifactSets
  import opened HostObject
  import opened Transaction

  datatype Outcome =
    | Done(unrecorded: seq<string>)
    | RenderFailed(subsystem: string)
    | CheckFailed(subsystem: string)
    | RolledBack(subsystem: string)
    | Unrecovered(subsystem: string, problems: seq<string>)

  /** What the restore says of each renderer it comes to. */
  datatype Note = Restored(name: string) | NothingToRestore(name: string) | Problem(name: string)

  /** How a run went: what was planned; what each renderer tried had recorded, as its
      apply read it; how many were applied whole; how far networkd's apply got; what each
      renderer was put back to; and how far putting networkd back got. */
  datatype Run = Run(
    plan: seq<Artifacts>,
    seen: seq<Option<Artifacts>>,
    done: nat,
    devices: Progress,
    back: seq<Option<Artifacts>>,
    redone: Progress)

  // ----- what every renderer keeps to ------------------------------------

  /** Artifacts stay inside the renderer's territory, and only networkd's renderer
      talks to networkd. */
  ghost predicate Lawful(r: Renderer, a: Artifacts, networkd: string) {
    && Fits(a, r.territory)
    && (if r.networkd then
          a.managed != [] && a.managed[0].dir == networkd && a.managed[0].marker == MARKER && a.actions == [ReloadNetworkd]
        else
          forall i :: 0 <= i < |a.actions| ==> !a.actions[i].ReloadNetworkd? && !a.actions[i].RecreateNetdev?)
  }

  ghost predicate LawfulAll(renderers: seq<Renderer>, plan: seq<Artifacts>, networkd: string) {
    |plan| == |renderers| && forall i :: 0 <= i < |plan| ==> Lawful(renderers[i], plan[i], networkd)
  }

  ghost predicate LawfulRecords(renderers: seq<Renderer>, recorded: map<string, Artifacts>, networkd: string) {
    forall i :: 0 <= i < |renderers| && renderers[i].name in recorded ==> Lawful(renderers[i], recorded[renderers[i].name], networkd)
  }

  /** No file has two owners, no name is used twice, and networkd has one renderer. */
  ghost predicate Apart(renderers: seq<Renderer>) {
    forall i, j :: 0 <= i < j < |renderers| ==>
      && Disjoint(renderers[i].territory, renderers[j].territory)
      && renderers[i].name != renderers[j].name
      && !(renderers[i].networkd && renderers[j].networkd)
  }

  lemma ApartOne(renderers: seq<Renderer>, i: nat, j: nat, a: Artifacts, b: Artifacts, networkd: string, f: File)
    requires Apart(renderers) && i < |renderers| && j < |renderers| && i != j
    requires Lawful(renderers[i], a, networkd) && Lawful(renderers[j], b, networkd)
    ensures !(Reaches(a, f) && Reaches(b, f))
  {
    hide Marked, Reaches, Owns, Coherent;
    ReachesInside(a, renderers[i].territory, f);
    ReachesInside(b, renderers[j].territory, f);
    if i < j {
      assert Disjoint(renderers[i].territory, renderers[j].territory);
    } else {
      assert Disjoint(renderers[j].territory, renderers[i].territory);
    }
  }

  /** What one renderer put in place survives another being applied. */
  lemma InPlaceKept(renderers: seq<Renderer>, i: nat, j: nat, a: Artifacts, b: Artifacts, networkd: string,
                    before: Tree, after: Tree)
    requires Apart(renderers) && i < |renderers| && j < |renderers| && i != j
    requires Lawful(renderers[i], a, networkd) && Lawful(renderers[j], b, networkd)
    requires InPlace(before, a) && Partway(before, after, b)
    ensures InPlace(after, a)
  {
    hide Reaches, Lawful, Apart, Wanted;
    forall f | Reaches(a, f) ensures Held(after, f) == Wanted(a, f) { ApartOne(renderers, i, j, a, b, networkd, f); }
  }

  lemma {:induction false} QuietEffects(live: Live, ours: Files, actions: seq<Action>)
    requires forall i :: 0 <= i < |actions| ==> !actions[i].ReloadNetworkd? && !actions[i].RecreateNetdev?
    ensures Effects(live, ours, actions) == live
    decreases |actions|
  {
    if actions != [] { QuietEffects(live, ours, actions[..|actions| - 1]); }
  }

  /** One apply, wherever it stopped, as the devices see it. */
  lemma StoppedDevices(r: Renderer, a: Artifacts, seen: Option<Artifacts>, gone: set<string>, ran: nat, live: Live,
                       tree: Tree, networkd: string)
    requires Lawful(r, a, networkd) && gone <= ToDestroy(r, seen, a) && ran <= |a.actions|
    requires 0 < ran ==> InPlace(tree, a) && gone == ToDestroy(r, seen, a)
    ensures Effects(live - gone, Ours(tree, networkd), a.actions[..ran]) ==
            if r.networkd then Midway(live, Described(Some(a)), Progress(gone, 0 < ran)) else live
    ensures r.networkd ==> Can(Progress(gone, 0 < ran), Described(seen), Described(Some(a)))
  {
    hide Marked, Recreations, Reloaded, Reaches, Wanted, Ours;
    if r.networkd {
      if 0 < ran {
        OursWhenInPlace(tree, a, networkd);
        assert a.actions[..ran] == [ReloadNetworkd] && [ReloadNetworkd][..0] == [];
        assert Effects(live - gone, Ours(tree, networkd), []) == live - gone;
      }
    } else {
      assert live - gone == live;
      QuietEffects(live, Ours(tree, networkd), a.actions[..ran]);
    }
  }

  // ----- steps 6 and 7 ---------------------------------------------------

  method RenderAll(renderers: seq<Renderer>, candidate: Node) returns (r: Result<seq<Artifacts>, string>)
    ensures r.Ok? ==> |r.value| == |renderers| && forall i :: 0 <= i < |renderers| ==> renderers[i].render(candidate) == Some(r.value[i])
    ensures r.Err? ==> exists i :: 0 <= i < |renderers| && r.error == renderers[i].name && renderers[i].render(candidate).None?
                                   && forall j :: 0 <= j < i ==> renderers[j].render(candidate).Some?
  {
    var plan: seq<Artifacts> := [];
    var i := 0;
    while i < |renderers|
      invariant |plan| == i <= |renderers|
      invariant forall j :: 0 <= j < i ==> renderers[j].render(candidate) == Some(plan[j])
    {
      match renderers[i].render(candidate) {
        case None => return Err(renderers[i].name);
        case Some(a) => plan := plan + [a];
      }
      i := i + 1;
    }
    r := Ok(plan);
  }

  method CheckAll(renderers: seq<Renderer>, plan: seq<Artifacts>) returns (failed: Option<string>)
    requires |plan| == |renderers|
    ensures failed.None? ==> forall i :: 0 <= i < |renderers| ==> renderers[i].check(plan[i])
    ensures failed.Some? ==> exists i :: 0 <= i < |renderers| && failed.value == renderers[i].name && !renderers[i].check(plan[i])
                                         && forall j :: 0 <= j < i ==> renderers[j].check(plan[j])
  {
    var i := 0;
    while i < |renderers|
      invariant 0 <= i <= |renderers|
      invariant forall j :: 0 <= j < i ==> renderers[j].check(plan[j])
    {
      if !renderers[i].check(plan[i]) { return Some(renderers[i].name); }
      i := i + 1;
    }
    failed := None;
  }

  // ----- what a row of applies leaves -------------------------------------

  /** The plans of the first `k` renderers, and nothing for the others. */
  function UpTo(plan: seq<Artifacts>, k: nat): seq<Option<Artifacts>> {
    seq(|plan|, i requires 0 <= i < |plan| => if i < k then Some(plan[i]) else None)
  }

  ghost predicate DecidedBy(a: Option<Artifacts>, tree: Tree, f: File) {
    a.Some? && Reaches(a.value, f) && Held(tree, f) == Wanted(a.value, f)
  }

  /** Each file is as it was, or decided by one of the artifacts and as those want it. */
  ghost predicate Mixed(before: Tree, after: Tree, arts: seq<Option<Artifacts>>) {
    forall f :: Held(after, f) == Held(before, f) || exists i :: 0 <= i < |arts| && DecidedBy(arts[i], after, f)
  }

  ghost predicate LawfulSome(renderers: seq<Renderer>, arts: seq<Option<Artifacts>>, networkd: string) {
    |arts| == |renderers| && forall i :: 0 <= i < |arts| && arts[i].Some? ==> Lawful(renderers[i], arts[i].value, networkd)
  }

  lemma NothingMixed(tree: Tree, arts: seq<Option<Artifacts>>)
    ensures Mixed(tree, tree, arts)
  {
  }

  lemma MixedStep(before: Tree, middle: Tree, after: Tree, arts: seq<Option<Artifacts>>, i: nat, a: Artifacts)
    requires i < |arts| && arts[i].None? && Mixed(before, middle, arts) && Partway(middle, after, a)
    ensures Mixed(before, after, arts[i := Some(a)])
  {
    hide Reaches, Wanted;
    var more := arts[i := Some(a)];
    forall f: File | Held(after, f) != Held(before, f) ensures exists j :: 0 <= j < |more| && DecidedBy(more[j], after, f) {
      if Held(after, f) == Held(middle, f) {
        var j :| 0 <= j < |arts| && DecidedBy(arts[j], middle, f);
        assert DecidedBy(more[j], after, f);
      } else {
        assert DecidedBy(more[i], after, f);
      }
    }
  }

  /** Only the renderer that owns a file decides it. */
  lemma OnlyOwn(before: Tree, after: Tree, renderers: seq<Renderer>, arts: seq<Option<Artifacts>>, networkd: string,
                i: nat, f: File)
    requires Apart(renderers) && LawfulSome(renderers, arts, networkd) && Mixed(before, after, arts)
    requires i < |renderers| && Owns(renderers[i].territory, f)
    ensures Held(after, f) == Held(before, f) || DecidedBy(arts[i], after, f)
  {
    hide Lawful, Owns, Reaches, Wanted, Apart;
    if Held(after, f) != Held(before, f) {
      var j :| 0 <= j < |arts| && DecidedBy(arts[j], after, f);
      if j != i { NotAnother(renderers, i, j, arts[j].value, networkd, f); }
    }
  }

  lemma NotAnother(renderers: seq<Renderer>, i: nat, j: nat, a: Artifacts, networkd: string, f: File)
    requires Apart(renderers) && i < |renderers| && j < |renderers| && i != j
    requires Lawful(renderers[j], a, networkd) && Owns(renderers[i].territory, f)
    ensures !Reaches(a, f)
  {
    hide Owns, Reaches, Coherent;
    ReachesInside(a, renderers[j].territory, f);
    if i < j {
      assert Disjoint(renderers[i].territory, renderers[j].territory);
    } else {
      assert Disjoint(renderers[j].territory, renderers[i].territory);
    }
  }

  /** Nobody's file: outside every territory. */
  ghost predicate Foreign(renderers: seq<Renderer>, f: File) {
    forall i :: 0 <= i < |renderers| ==> !Owns(renderers[i].territory, f)
  }

  lemma ForeignKept(before: Tree, after: Tree, renderers: seq<Renderer>, arts: seq<Option<Artifacts>>, networkd: string,
                    f: File)
    requires LawfulSome(renderers, arts, networkd) && Mixed(before, after, arts) && Foreign(renderers, f)
    ensures Held(after, f) == Held(before, f)
  {
    hide Reaches, Wanted, Owns, Coherent;
    forall i | 0 <= i < |arts| && arts[i].Some? ensures !Reaches(arts[i].value, f) {
      ReachesInside(arts[i].value, renderers[i].territory, f);
    }
  }

  // ----- steps 8 and 9 ---------------------------------------------------

  /** The devices once the renderers with a `seen` have been applied, networkd's as far
      as `p`. */
  ghost predicate DevicesAfter(live: Live, now: Live, renderers: seq<Renderer>, plan: seq<Artifacts>,
                              seen: seq<Option<Artifacts>>, p: Progress)
    requires |seen| <= |renderers| == |plan|
  {
    && ((forall i :: 0 <= i < |seen| ==> !renderers[i].networkd) ==> now == live)
    && (forall i :: 0 <= i < |seen| && renderers[i].networkd ==>
          now == Midway(live, Described(Some(plan[i])), p) && Can(p, Described(seen[i]), Described(Some(plan[i]))))
  }

  function Known(recorded: map<string, Artifacts>, name: string): Option<Artifacts> {
    if name in recorded then Some(recorded[name]) else None
  }

  /** Each is what the renderer recorded, unless it could not be read. */
  ghost predicate TrueRecords(renderers: seq<Renderer>, recorded: map<string, Artifacts>, read: seq<Option<Artifacts>>) {
    && |read| <= |renderers|
    && forall i :: 0 <= i < |read| ==> read[i].None? || read[i] == Known(recorded, renderers[i].name)
  }

  /** networkd's record, if it has one, was read. */
  predicate AllRead(renderers: seq<Renderer>, recorded: map<string, Artifacts>, seen: seq<Option<Artifacts>>) {
    |seen| <= |renderers| && forall i :: 0 <= i < |seen| && renderers[i].networkd ==> seen[i] == Known(recorded, renderers[i].name)
  }

  /** One renderer at a time, until one does not apply or does not verify. `done` are
      applied whole; of the next one, if any, each file is as before or as planned. */
  method ApplyAll(m: Machine, renderers: seq<Renderer>, plan: seq<Artifacts>)
    returns (done: nat, seen: seq<Option<Artifacts>>, ghost p: Progress)
    requires LawfulAll(renderers, plan, m.networkd) && Apart(renderers)
    modifies m`files, m`live, m`script
    ensures done <= |renderers| && |seen| == if done < |renderers| then done + 1 else done
    ensures Mixed(old(m.files), m.files, UpTo(plan, |seen|))
    ensures forall i :: 0 <= i < done ==> InPlace(m.files, plan[i])
    ensures DevicesAfter(old(m.live), m.live, renderers, plan, seen, p)
    ensures forall i :: 0 <= i < done && renderers[i].networkd ==> p.reloaded
    ensures TrueRecords(renderers, m.recorded, seen)
    ensures Cost(old(m.script), m.script, if done < |renderers| || !AllRead(renderers, m.recorded, seen) then 1 else 0)
  {
    hide InPlace, Partway, Mixed, Apart, Lawful, Effects, Midway, Can, Described, Recreations, Ours,
         Reaches, Wanted, Coherent, Keeps, DevicesAfter, TrueRecords, UpTo;
    seen, p, done := [], Progress({}, false), 0;
    NothingMixed(m.files, UpTo(plan, 0));
    NoDevices(m.live, renderers, plan, m.recorded);
    while done < |renderers|
      invariant 0 <= done <= |renderers| && |seen| == done
      invariant Mixed(old(m.files), m.files, UpTo(plan, done))
      invariant forall i :: 0 <= i < done ==> InPlace(m.files, plan[i])
      invariant DevicesAfter(old(m.live), m.live, renderers, plan, seen, p)
      invariant forall i :: 0 <= i < done && renderers[i].networkd ==> p.reloaded
      invariant TrueRecords(renderers, m.recorded, seen)
      invariant Cost(old(m.script), m.script, if !AllRead(renderers, m.recorded, seen) then 1 else 0)
    {
      ghost var before, live := m.files, m.live;
      LawfulCoherent(renderers[done], plan[done], m.networkd);
      var applied, known, gone, ran := Apply(m, renderers[done], plan[done]);
      UpToNext(plan, done);
      MixedStep(old(m.files), before, m.files, UpTo(plan, done), done, plan[done]);
      StoppedDevices(renderers[done], plan[done], known, gone, ran, live, m.files, m.networkd);
      DevicesSnoc(old(m.live), live, m.live, renderers, plan, seen, known, p, Progress(gone, 0 < ran));
      TrueSnoc(renderers, m.recorded, seen, known);
      forall i | 0 <= i < done ensures InPlace(m.files, plan[i]) {
        InPlaceKept(renderers, i, done, plan[i], plan[done], m.networkd, before, m.files);
      }
      seen := seen + [known];
      if renderers[done].networkd {
        p := Progress(gone, 0 < ran);
        OnlyNetworkd(renderers, done);
        ReloadsOnce(renderers[done], plan[done], m.networkd);
      }
      if !applied { return; }
      var verified := Verify(m, plan[done]);
      if !verified { return; }
      done := done + 1;
    }
  }

  lemma NoDevices(live: Live, renderers: seq<Renderer>, plan: seq<Artifacts>, recorded: map<string, Artifacts>)
    requires |renderers| == |plan|
    ensures DevicesAfter(live, live, renderers, plan, [], Progress({}, false))
    ensures TrueRecords(renderers, recorded, [])
  {
  }

  lemma UpToNext(plan: seq<Artifacts>, k: nat)
    requires k < |plan|
    ensures |UpTo(plan, k)| == |plan| && UpTo(plan, k)[k].None?
    ensures UpTo(plan, k + 1) == UpTo(plan, k)[k := Some(plan[k])]
  {
  }

  lemma OnlyNetworkd(renderers: seq<Renderer>, k: nat)
    requires Apart(renderers) && k < |renderers| && renderers[k].networkd
    ensures forall i :: 0 <= i < |renderers| && i != k ==> !renderers[i].networkd
  {
    hide Disjoint;
  }

  lemma ReloadsOnce(r: Renderer, a: Artifacts, networkd: string)
    requires Lawful(r, a, networkd) && r.networkd
    ensures a.actions == [ReloadNetworkd]
  {
  }

  lemma LawfulCoherent(r: Renderer, a: Artifacts, networkd: string)
    requires Lawful(r, a, networkd)
    ensures Coherent(a)
  {
  }

  lemma TrueSnoc(renderers: seq<Renderer>, recorded: map<string, Artifacts>, read: seq<Option<Artifacts>>,
                 known: Option<Artifacts>)
    requires TrueRecords(renderers, recorded, read) && |read| < |renderers|
    requires known.None? || known == Known(recorded, renderers[|read|].name)
    ensures TrueRecords(renderers, recorded, read + [known])
  {
  }

  lemma DevicesSnoc(live: Live, before: Live, after: Live, renderers: seq<Renderer>, plan: seq<Artifacts>,
                    seen: seq<Option<Artifacts>>, known: Option<Artifacts>, p: Progress, next: Progress)
    requires |seen| < |renderers| == |plan| && Apart(renderers)
    requires DevicesAfter(live, before, renderers, plan, seen, p)
    requires var k := |seen|;
             && after == (if renderers[k].networkd then Midway(before, Described(Some(plan[k])), next) else before)
             && (renderers[k].networkd ==> Can(next, Described(known), Described(Some(plan[k]))))
    ensures DevicesAfter(live, after, renderers, plan, seen + [known], if renderers[|seen|].networkd then next else p)
  {
    hide Midway, Can, Described, Disjoint;
  }

  // ----- undoing ---------------------------------------------------------

  /** Every renderer from `lo` to `hi` that has a record was put back to it. */
  predicate PutAllBack(renderers: seq<Renderer>, recorded: map<string, Artifacts>, back: seq<Option<Artifacts>>, lo: nat, hi: nat) {
    hi <= |back| == |renderers| && forall i :: lo <= i < hi ==> back[i] == Known(recorded, renderers[i].name)
  }

  /** Every renderer that was put back is as it recorded. */
  ghost predicate PutBack(tree: Tree, back: seq<Option<Artifacts>>) {
    forall i :: 0 <= i < |back| && back[i].Some? ==> InPlace(tree, back[i].value)
  }

  lemma PutBackOne(middle: Tree, after: Tree, renderers: seq<Renderer>, back: seq<Option<Artifacts>>, i: nat,
                   a: Artifacts, networkd: string)
    requires Apart(renderers) && LawfulSome(renderers, back, networkd) && i < |renderers|
    requires Lawful(renderers[i], a, networkd)
    requires PutBack(middle, back) && Partway(middle, after, a) && InPlace(after, a)
    ensures PutBack(after, back[i := Some(a)])
  {
    hide InPlace, Partway, Lawful, Apart;
    forall j | 0 <= j < |back| && j != i && back[j].Some? ensures InPlace(after, back[j].value) {
      InPlaceKept(renderers, j, i, back[j].value, a, networkd, middle, after);
    }
  }

  /** The devices once renderers have been put back, networkd's as far as `q`. */
  ghost predicate BroughtBack(live: Live, now: Live, renderers: seq<Renderer>, back: seq<Option<Artifacts>>, q: Progress)
    requires |back| == |renderers|
  {
    && ((forall i :: 0 <= i < |back| && renderers[i].networkd ==> back[i].None?) ==> now == live && q == Progress({}, false))
    && (forall i :: 0 <= i < |back| && renderers[i].networkd && back[i].Some? ==>
          now == Midway(live, Described(back[i]), q) && q.gone <= Recreations(Described(back[i]), Described(back[i])))
  }

  lemma BroughtOne(live: Live, before: Live, after: Live, renderers: seq<Renderer>, back: seq<Option<Artifacts>>,
                   i: nat, a: Artifacts, known: Option<Artifacts>, q: Progress, next: Progress)
    requires |back| == |renderers| && i < |back| && back[i].None? && Apart(renderers)
    requires BroughtBack(live, before, renderers, back, q)
    requires known.None? || known == Some(a)
    requires after == if renderers[i].networkd then Midway(before, Described(Some(a)), next) else before
    requires renderers[i].networkd ==> Can(next, Described(known), Described(Some(a)))
    ensures BroughtBack(live, after, renderers, back[i := Some(a)], if renderers[i].networkd then next else q)
  {
    hide Midway, Recreations, Disjoint;
    var more := back[i := Some(a)];
    if renderers[i].networkd {
      OnlyNetworkd(renderers, i);
      assert before == live;
      if known.None? { assert Recreations(map[], Described(Some(a))) == {} by { NothingDescribed(Described(Some(a))); } }
    } else {
      assert forall j :: 0 <= j < |back| && renderers[j].networkd ==> more[j] == back[j];
    }
  }

  lemma NothingDescribed(after: Files)
    ensures Recreations(map[], after) == {}
  {
  }

  /** Most recently applied first, each from what it last recorded: `back` says what each
      was put back to, and is nothing exactly for those noted as having nothing. */
  method Restore(m: Machine, renderers: seq<Renderer>, count: nat)
    returns (problems: seq<string>, notes: seq<Note>, ghost back: seq<Option<Artifacts>>, ghost q: Progress)
    requires Apart(renderers) && count <= |renderers| && LawfulRecords(renderers, m.recorded, m.networkd)
    modifies m`files, m`live, m`script
    ensures |back| == |renderers| && TrueRecords(renderers, m.recorded, back)
    ensures forall i :: count <= i < |back| ==> back[i].None?
    ensures forall i :: 0 <= i < count ==> (back[i].None? <==> NothingToRestore(renderers[i].name) in notes)
    ensures Mixed(old(m.files), m.files, back) && (problems == [] ==> PutBack(m.files, back))
    ensures BroughtBack(old(m.live), m.live, renderers, back, q)
    ensures problems == [] ==> forall i :: 0 <= i < count && renderers[i].networkd && back[i].Some? ==> q.reloaded
    ensures Cost(old(m.script), m.script, if problems != [] || !PutAllBack(renderers, m.recorded, back, 0, count) then 1 else 0)
  {
    hide InPlace, Partway, Mixed, PutBack, Apart, Lawful, LawfulRecords, Effects, Reaches, Wanted, Coherent,
         Recreations, Ours, Described, Midway, Can, BroughtBack, TrueRecords, Keeps;
    problems, notes, q := [], [], Progress({}, false);
    back := seq(|renderers|, _ => None);
    var i := count;
    NothingMixed(m.files, back);
    NothingBack(m.files, m.live, renderers, m.recorded, m.networkd, back);
    while i > 0
      invariant 0 <= i <= count && |back| == |renderers|
      invariant TrueRecords(renderers, m.recorded, back)
      invariant forall j :: 0 <= j < i || count <= j < |back| ==> back[j].None?
      invariant forall j :: i <= j < count ==> (back[j].None? <==> NothingToRestore(renderers[j].name) in notes)
      invariant forall j :: 0 <= j < i ==> NothingToRestore(renderers[j].name) !in notes
      invariant Mixed(old(m.files), m.files, back) && (problems == [] ==> PutBack(m.files, back))
      invariant BroughtBack(old(m.live), m.live, renderers, back, q)
      invariant problems == [] ==> forall j :: 0 <= j < count && renderers[j].networkd && back[j].Some? ==> q.reloaded
      invariant Cost(old(m.script), m.script, if problems != [] || !PutAllBack(renderers, m.recorded, back, i, count) then 1 else 0)
    {
      i := i - 1;
      ghost var before, live, said := m.files, m.live, notes;
      NamesApart(renderers, i);
      var previous := m.Load(renderers[i].name);
      match previous {
        case None =>
          notes := notes + [NothingToRestore(renderers[i].name)];
        case Some(a) =>
          RecordsAre(renderers, m.recorded, m.networkd, i, back);
          LawfulCoherent(renderers[i], a, m.networkd);
          var ok, known, gone, ran := Apply(m, renderers[i], a);
          MixedStep(old(m.files), before, m.files, back, i, a);
          StoppedDevices(renderers[i], a, known, gone, ran, live, m.files, m.networkd);
          BroughtOne(old(m.live), live, m.live, renderers, back, i, a, known, q, Progress(gone, 0 < ran));
          TrueOne(renderers, m.recorded, back, i);
          if renderers[i].networkd {
            q := Progress(gone, 0 < ran);
            OnlyNetworkd(renderers, i);
            ReloadsOnce(renderers[i], a, m.networkd);
          }
          if ok {
            if problems == [] { PutBackOne(before, m.files, renderers, back, i, a, m.networkd); }
            notes := notes + [Restored(renderers[i].name)];
          } else {
            problems := problems + [renderers[i].name];
            notes := notes + [Problem(renderers[i].name)];
          }
          back := back[i := Some(a)];
      }
      SaidBefore(said, notes);
    }
  }

  lemma SaidBefore(said: seq<Note>, notes: seq<Note>)
    requires |said| < |notes| && notes == said + [notes[|said|]]
    ensures forall n :: n in notes <==> n in said || n == notes[|said|]
  {
  }

  lemma NamesApart(renderers: seq<Renderer>, i: nat)
    requires Apart(renderers) && i < |renderers|
    ensures forall j :: 0 <= j < |renderers| && j != i ==> renderers[j].name != renderers[i].name
  {
    hide Disjoint;
  }

  lemma RecordsAre(renderers: seq<Renderer>, recorded: map<string, Artifacts>, networkd: string, i: nat,
                   back: seq<Option<Artifacts>>)
    requires LawfulRecords(renderers, recorded, networkd) && i < |renderers| && renderers[i].name in recorded
    requires |back| == |renderers| && TrueRecords(renderers, recorded, back)
    ensures Lawful(renderers[i], recorded[renderers[i].name], networkd)
    ensures LawfulSome(renderers, back, networkd)
  {
    hide Lawful;
  }

  lemma TrueOne(renderers: seq<Renderer>, recorded: map<string, Artifacts>, back: seq<Option<Artifacts>>, i: nat)
    requires TrueRecords(renderers, recorded, back) && i < |back| && renderers[i].name in recorded
    ensures TrueRecords(renderers, recorded, back[i := Some(recorded[renderers[i].name])])
  {
  }

  lemma NothingBack(tree: Tree, live: Live, renderers: seq<Renderer>, recorded: map<string, Artifacts>,
                    networkd: string, back: seq<Option<Artifacts>>)
    requires |back| == |renderers| && forall i :: 0 <= i < |back| ==> back[i].None?
    ensures PutBack(tree, back) && BroughtBack(live, live, renderers, back, Progress({}, false))
    ensures TrueRecords(renderers, recorded, back)
  {
  }

  predicate SameRecord(before: map<string, Artifacts>, after: map<string, Artifacts>, name: string) {
    (name in after <==> name in before) && (name in before ==> after[name] == before[name])
  }

  /** The first `k` plans are recorded, but for those listed, and nothing else changed. */
  ghost predicate RecordedTo(before: map<string, Artifacts>, after: map<string, Artifacts>,
                             renderers: seq<Renderer>, plan: seq<Artifacts>,
                             unrecorded: seq<string>, k: nat)
    requires k <= |renderers| == |plan|
  {
    && (forall i :: 0 <= i < k && renderers[i].name !in unrecorded ==> renderers[i].name in after && after[renderers[i].name] == plan[i])
    && (forall name :: name in unrecorded ==> exists i :: 0 <= i < k && renderers[i].name == name)
    && (forall name :: name in unrecorded || (forall i :: 0 <= i < k ==> renderers[i].name != name) ==> SameRecord(before, after, name))
  }

  lemma RecordedOneMore(before: map<string, Artifacts>, now: map<string, Artifacts>, renderers: seq<Renderer>,
                        plan: seq<Artifacts>,
                        unrecorded: seq<string>, k: nat)
    requires k < |renderers| == |plan| && forall i :: 0 <= i < k ==> renderers[i].name != renderers[k].name
    requires RecordedTo(before, now, renderers, plan, unrecorded, k)
    ensures RecordedTo(before, now[renderers[k].name := plan[k]], renderers, plan, unrecorded, k + 1)
    ensures RecordedTo(before, now, renderers, plan, unrecorded + [renderers[k].name], k + 1)
  {
    var name, saved := renderers[k].name, now[renderers[k].name := plan[k]];
    assert forall other :: other in unrecorded ==> other != name;
    assert SameRecord(before, now, name);
    forall other | other in unrecorded || (forall i :: 0 <= i < k + 1 ==> renderers[i].name != other) ensures SameRecord(before, saved, other) {
      assert other != name && SameRecord(before, now, other);
    }
    assert forall i :: 0 <= i < k && renderers[i].name !in unrecorded ==> saved[renderers[i].name] == now[renderers[i].name];
  }

  /** Records every plan; a record that cannot be written is left as it was. */
  method RememberAll(m: Machine, renderers: seq<Renderer>, plan: seq<Artifacts>) returns (unrecorded: seq<string>)
    requires |plan| == |renderers| && Apart(renderers)
    modifies m`recorded, m`script
    ensures RecordedTo(old(m.recorded), m.recorded, renderers, plan, unrecorded, |renderers|)
    ensures Cost(old(m.script), m.script, |unrecorded|)
  {
    assert forall i, j :: 0 <= i < j < |renderers| ==> renderers[i].name != renderers[j].name;
    unrecorded := [];
    assert RecordedTo(m.recorded, m.recorded, renderers, plan, [], 0);
    hide Apart, RecordedTo;
    var i := 0;
    while i < |renderers|
      invariant 0 <= i <= |renderers|
      invariant RecordedTo(old(m.recorded), m.recorded, renderers, plan, unrecorded, i)
      invariant Cost(old(m.script), m.script, |unrecorded|)
    {
      RecordedOneMore(old(m.recorded), m.recorded, renderers, plan, unrecorded, i);
      var ok := m.Save(renderers[i].name, plan[i]);
      if !ok { unrecorded := unrecorded + [renderers[i].name]; }
      i := i + 1;
    }
  }

  /** A record afterwards is the plan's, or the one from before. */
  lemma RecordOf(before: map<string, Artifacts>, after: map<string, Artifacts>, renderers: seq<Renderer>,
                 plan: seq<Artifacts>, unrecorded: seq<string>, i: nat)
    requires |plan| == |renderers| && RecordedTo(before, after, renderers, plan, unrecorded, |renderers|)
    requires i < |renderers| && renderers[i].name in after
    ensures after[renderers[i].name] == plan[i]
            || (renderers[i].name in before && after[renderers[i].name] == before[renderers[i].name])
  {
    if renderers[i].name in unrecorded { assert SameRecord(before, after, renderers[i].name); }
  }

  lemma RecordsLawful(before: map<string, Artifacts>, after: map<string, Artifacts>, renderers: seq<Renderer>,
                      plan: seq<Artifacts>, unrecorded: seq<string>, networkd: string)
    requires LawfulAll(renderers, plan, networkd) && LawfulRecords(renderers, before, networkd)
    requires RecordedTo(before, after, renderers, plan, unrecorded, |renderers|)
    ensures LawfulRecords(renderers, after, networkd)
  {
    hide Lawful, RecordedTo;
    forall i | 0 <= i < |renderers| && renderers[i].name in after ensures Lawful(renderers[i], after[renderers[i].name], networkd) {
      RecordOf(before, after, renderers, plan, unrecorded, i);
    }
  }

  // ----- the files after a failure ---------------------------------------

  /** A file of the `i`th renderer after a restore that reported no problem, the apply of
      the one at `done` having failed: as put back where that decides it; otherwise as
      planned, or for the failing renderer perhaps not yet; otherwise as it was. */
  ghost predicate UndoneAt(before: Tree, after: Tree, run: Run, i: nat, f: File)
    requires i < |run.plan| && i < |run.back|
  {
    if i > run.done then Held(after, f) == Held(before, f)
    else if run.back[i].Some? && Reaches(run.back[i].value, f) then Held(after, f) == Wanted(run.back[i].value, f)
    else if Reaches(run.plan[i], f) then
      Held(after, f) == Wanted(run.plan[i], f) || (i == run.done && Held(after, f) == Held(before, f))
    else Held(after, f) == Held(before, f)
  }

  ghost predicate Undone(before: Tree, after: Tree, renderers: seq<Renderer>, run: Run) {
    && |run.plan| == |run.back| == |renderers|
    && forall i, f :: 0 <= i < |renderers| && Owns(renderers[i].territory, f) ==> UndoneAt(before, after, run, i, f)
  }

  lemma UndoneHolds(before: Tree, middle: Tree, after: Tree, renderers: seq<Renderer>, run: Run, networkd: string,
                    i: nat, f: File)
    requires Apart(renderers) && LawfulAll(renderers, run.plan, networkd) && LawfulSome(renderers, run.back, networkd)
    requires run.done < |renderers| && Mixed(before, middle, UpTo(run.plan, run.done + 1))
    requires forall j :: 0 <= j < run.done ==> InPlace(middle, run.plan[j])
    requires Mixed(middle, after, run.back) && PutBack(after, run.back)
    requires forall j :: run.done < j < |run.back| ==> run.back[j].None?
    requires i < |renderers| && Owns(renderers[i].territory, f)
    ensures UndoneAt(before, after, run, i, f)
  {
    hide Lawful, Wanted, Apart, Owns, Reaches, Mixed;
    LawfulUpTo(renderers, run.plan, networkd, run.done + 1);
    OnlyOwn(before, middle, renderers, UpTo(run.plan, run.done + 1), networkd, i, f);
    OnlyOwn(middle, after, renderers, run.back, networkd, i, f);
  }

  lemma LawfulUpTo(renderers: seq<Renderer>, plan: seq<Artifacts>, networkd: string, k: nat)
    requires LawfulAll(renderers, plan, networkd)
    ensures LawfulSome(renderers, UpTo(plan, k), networkd)
  {
    hide Lawful;
  }

  /** Exactly when a file is back, of a renderer that was put back and owned it as it had
      recorded: for one before the failing one, if and only if the plan named it outside
      the managed directories only where the record does too; of the failing one, always
      then, and otherwise it is back or as planned. */
  lemma BackIff(before: Tree, after: Tree, renderers: seq<Renderer>, run: Run, networkd: string, i: nat, f: File)
    requires LawfulAll(renderers, run.plan, networkd) && LawfulSome(renderers, run.back, networkd)
    requires Undone(before, after, renderers, run)
    requires i < |renderers| && i <= run.done && Owns(renderers[i].territory, f) && run.back[i].Some?
    requires Held(before, f) == Wanted(run.back[i].value, f)
    ensures i < run.done ==> (Held(after, f) == Held(before, f) <==> (f in run.plan[i].files ==> f in run.back[i].value.files))
    ensures (f in run.plan[i].files ==> f in run.back[i].value.files) ==> Held(after, f) == Held(before, f)
    ensures f in run.plan[i].files && f !in run.back[i].value.files ==>
              && Held(before, f).None?
              && (Held(after, f) == Some(run.plan[i].files[f]) || (i == run.done && Held(after, f) == Held(before, f)))
  {
    hide Owns, Managing, ReachesIn, Coherent;
    var record, planned := run.back[i].value, run.plan[i];
    assert UndoneAt(before, after, run, i, f);
    ReachesInside(record, renderers[i].territory, f);
    ReachesInside(planned, renderers[i].territory, f);
    if f in planned.files && f !in record.files {
      OutsideManaged(planned, f);
      if Wanted(record, f).Some? { WantedIsReached(record, f); }
    }
  }

  lemma OutsideManaged(a: Artifacts, f: File)
    requires Coherent(a) && f in a.files
    ensures !ReachesIn(a.managed, f)
  {
  }

  /** A renderer said to have nothing to restore is left as planned: its files are back
      exactly when they were as planned already. */
  lemma LeftIff(before: Tree, after: Tree, renderers: seq<Renderer>, run: Run, i: nat, f: File)
    requires Undone(before, after, renderers, run)
    requires i < |renderers| && i < run.done && Owns(renderers[i].territory, f) && run.back[i].None?
    ensures Reaches(run.plan[i], f) ==> Held(after, f) == Wanted(run.plan[i], f)
    ensures Held(after, f) == Held(before, f) <==> (Reaches(run.plan[i], f) ==> Held(before, f) == Wanted(run.plan[i], f))
  {
    hide Owns, Reaches, Wanted;
    assert UndoneAt(before, after, run, i, f);
  }

  /** A renderer of a single file that it writes only when the config names something. */
  function Sometimes(name: string, f: File, text: string): Renderer {
    Renderer(name, Territory([], {f}), false,
             (config: Node) => Some(Artifacts([], if config != EMPTY_INTERIOR then map[f := text] else map[], [])),
             (a: Artifacts) => true)
  }

  const NOTHING := Artifacts([], map[], [])

  /** Two such renderers, the second of which failed after the first was applied. */
  function Two(f: File, g: File, text: string): seq<Renderer> {
    [Sometimes("first", f, text), Sometimes("second", g, text)]
  }

  function TwoRun(f: File, g: File, text: string, back: Option<Artifacts>): Run {
    Run([Artifacts([], map[f := text], []), Artifacts([], map[g := text], [])], [None, None], 1, Progress({}, false),
        [back, Some(NOTHING)], Progress({}, false))
  }

  lemma TwoFit(f: File, g: File, text: string, config: Node)
    requires f != g && config != EMPTY_INTERIOR
    ensures Apart(Two(f, g, text)) && LawfulAll(Two(f, g, text), TwoRun(f, g, text, None).plan, "")
    ensures forall i :: 0 <= i < 2 ==>
              && Two(f, g, text)[i].render(EMPTY_INTERIOR) == Some(NOTHING)
              && Two(f, g, text)[i].render(config) == Some(TwoRun(f, g, text, None).plan[i])
  {
    assert Two(f, g, text)[0].name == "first" && Two(f, g, text)[1].name == "second";
  }

  /** A failing case: the first plan writes a file its record does not name, and the
      second renderer fails. Restored, the file stays; and had the record not been
      readable, so would the planned text of a file the record does name. */
  lemma StrayFileStays(f: File, g: File, old_: string, new_: string, after: Tree)
    requires f != g && old_ != new_
    ensures Undone(map[], map[f := new_], Two(f, g, new_), TwoRun(f, g, new_, Some(NOTHING)))
    ensures Undone(map[], after, Two(f, g, new_), TwoRun(f, g, new_, Some(NOTHING))) ==> Held(after, f) == Some(new_)
    ensures Undone(map[f := old_], after, Two(f, g, new_), TwoRun(f, g, new_, None)) ==> Held(after, f) == Some(new_)
  {
    var read, unread := TwoRun(f, g, new_, Some(NOTHING)), TwoRun(f, g, new_, None);
    assert Reaches(read.plan[0], f) && !Reaches(NOTHING, f) && Owns(Two(f, g, new_)[0].territory, f);
    if Undone(map[], after, Two(f, g, new_), read) { assert UndoneAt(map[], after, read, 0, f); }
    if Undone(map[f := old_], after, Two(f, g, new_), unread) { assert UndoneAt(map[f := old_], after, unread, 0, f); }
  }

  /** In every outcome a file somebody owns holds what it held, what its owner planned, or
      what its owner last recorded. */
  ghost predicate OldPlannedOrRecorded(before: Tree, after: Tree, renderers: seq<Renderer>, plan: seq<Artifacts>,
                                       recorded: map<string, Artifacts>)
    requires |plan| == |renderers|
  {
    forall i, f :: 0 <= i < |renderers| && Owns(renderers[i].territory, f) ==>
      || Held(after, f) == Held(before, f)
      || DecidedBy(Some(plan[i]), after, f)
      || DecidedBy(Known(recorded, renderers[i].name), after, f)
  }

  // ----- the devices after a failure -------------------------------------

  /** The devices after a restore: networkd's apply as far as it got, and then what it
      was put back to, if anything, as far as that got. */
  ghost predicate WentBack(live: Live, now: Live, renderers: seq<Renderer>, run: Run) {
    && |run.plan| == |run.back| == |renderers| && |run.seen| == run.done + 1 <= |renderers|
    && ((forall i :: 0 <= i <= run.done ==> !renderers[i].networkd) ==> now == live)
    && (forall i :: 0 <= i <= run.done && renderers[i].networkd ==>
          var planned, back := Described(Some(run.plan[i])), Described(run.back[i]);
          && now == Midway(Midway(live, planned, run.devices), back, run.redone)
          && Can(run.devices, Described(run.seen[i]), planned) && (i < run.done ==> run.devices.reloaded)
          && run.redone.gone <= Recreations(back, back) && (run.back[i].None? ==> !run.redone.reloaded))
  }

  lemma WentBackHolds(live: Live, middle: Live, now: Live, renderers: seq<Renderer>, run: Run)
    requires Apart(renderers) && |run.plan| == |run.back| == |renderers| && |run.seen| == run.done + 1 <= |renderers|
    requires DevicesAfter(live, middle, renderers, run.plan, run.seen, run.devices)
    requires forall i :: 0 <= i < run.done && renderers[i].networkd ==> run.devices.reloaded
    requires BroughtBack(middle, now, renderers, run.back, run.redone)
    requires forall i :: run.done < i < |run.back| ==> run.back[i].None?
    ensures WentBack(live, now, renderers, run)
  {
    hide Recreations, Can, Disjoint, Described, Reloaded;
    if i :| 0 <= i <= run.done && renderers[i].networkd {
      OnlyNetworkd(renderers, i);
      assert middle - {} == middle;
    }
  }

  /** For networkd put back without a problem: the devices are as recorded again exactly
      when its apply did not reload, or added no device and changed no create-time
      setting of one it destroyed. */
  lemma DevicesBackIff(live: Live, now: Live, renderers: seq<Renderer>, recorded: map<string, Artifacts>, run: Run, i: nat)
    requires WentBack(live, now, renderers, run) && TrueRecords(renderers, recorded, run.seen) && TrueRecords(renderers, recorded, run.back)
    requires i <= run.done && renderers[i].networkd && run.back[i].Some? && run.redone.reloaded
    requires Shaped(Described(run.back[i])) && Shaped(Described(Some(run.plan[i]))) && Settled(live, Described(run.back[i]))
    ensures var planned, back := Described(Some(run.plan[i])), Described(run.back[i]);
            Settled(now, back) <==>
            !run.devices.reloaded
            || (Devices(planned) <= Devices(back) && SameAgain(back, planned, run.devices.gone - run.redone.gone))
  {
    hide Settled, Shaped, Devices, Described, Recreations, Midway, SameAgain;
    var planned, back := Described(Some(run.plan[i])), Described(run.back[i]);
    if run.seen[i].None? { NoneRead(planned); }
    assert run.redone == Progress(run.redone.gone, true);
    RestoreSettlesIff(live, back, planned, run.devices, run.redone.gone);
  }

  lemma NoneRead(planned: Files)
    ensures Described(None) == map[] && Recreations(map[], planned) == {}
  {
  }

  /** In every outcome a device whose definition is neither gone from the plan nor changed
      in a create-time setting is still there, as it was. */
  ghost predicate DevicesKept(live: Live, now: Live, renderers: seq<Renderer>, plan: seq<Artifacts>,
                              recorded: map<string, Artifacts>)
    requires |plan| == |renderers|
  {
    && ((forall i :: 0 <= i < |renderers| ==> !renderers[i].networkd) ==> now == live)
    && (forall i :: 0 <= i < |renderers| && renderers[i].networkd ==>
          Keeps(live, now, Recreations(Described(Known(recorded, renderers[i].name)), Described(Some(plan[i])))))
  }

  lemma AppliedKeeps(live: Live, now: Live, renderers: seq<Renderer>, plan: seq<Artifacts>, seen: seq<Option<Artifacts>>,
                     p: Progress, recorded: map<string, Artifacts>)
    requires Apart(renderers) && |seen| <= |renderers| == |plan| && TrueRecords(renderers, recorded, seen)
    requires DevicesAfter(live, now, renderers, plan, seen, p)
    ensures DevicesKept(live, now, renderers, plan, recorded)
  {
    hide Recreations, Described, Disjoint, Keeps, Midway;
    forall i | 0 <= i < |renderers| && renderers[i].networkd
      ensures Keeps(live, now, Recreations(Described(Known(recorded, renderers[i].name)), Described(Some(plan[i]))))
    {
      var most := Recreations(Described(Known(recorded, renderers[i].name)), Described(Some(plan[i])));
      OnlyNetworkd(renderers, i);
      if i < |seen| {
        MidwayKeeps(live, Described(Some(plan[i])), p);
        NoneRead(Described(Some(plan[i])));
        KeepsMore(live, now, p.gone, most);
      } else {
        EverythingKept(live, most);
      }
    }
  }

  lemma BackKeeps(live: Live, middle: Live, now: Live, renderers: seq<Renderer>, plan: seq<Artifacts>,
                  back: seq<Option<Artifacts>>, q: Progress, recorded: map<string, Artifacts>)
    requires Apart(renderers) && |plan| == |back| == |renderers| && TrueRecords(renderers, recorded, back)
    requires DevicesKept(live, middle, renderers, plan, recorded) && BroughtBack(middle, now, renderers, back, q)
    ensures DevicesKept(live, now, renderers, plan, recorded)
  {
    hide Recreations, Described, Disjoint, Keeps, Midway;
    forall i | 0 <= i < |renderers| && renderers[i].networkd
      ensures Keeps(live, now, Recreations(Described(Known(recorded, renderers[i].name)), Described(Some(plan[i]))))
    {
      var record, planned := Described(Known(recorded, renderers[i].name)), Described(Some(plan[i]));
      OnlyNetworkd(renderers, i);
      if back[i].Some? {
        MidwayKeeps(middle, record, q);
        RedoneIsChanged(record, planned);
        KeepsMore(middle, now, q.gone, Recreations(record, planned));
        KeepsBoth(live, middle, now, Recreations(record, planned));
      }
    }
  }

  lemma EverythingKept(live: Live, gone: set<string>)
    ensures Keeps(live, live, gone)
  {
  }

  lemma KeptAtFirst(live: Live, renderers: seq<Renderer>, plan: seq<Artifacts>, recorded: map<string, Artifacts>)
    requires |plan| == |renderers|
    ensures DevicesKept(live, live, renderers, plan, recorded)
  {
    hide Recreations, Described;
  }

  /** Devices that were as last recorded are now as planned. */
  ghost predicate Converged(live: Live, now: Live, renderers: seq<Renderer>, plan: seq<Artifacts>,
                            seen: seq<Option<Artifacts>>)
    requires |renderers| == |plan| == |seen|
  {
    forall i :: 0 <= i < |renderers| && renderers[i].networkd && Shaped(Described(seen[i])) && Shaped(Described(Some(plan[i])))
                && Settled(live, Described(seen[i]))
                ==> Settled(now, Described(Some(plan[i])))
  }

  lemma DevicesSettle(live: Live, now: Live, renderers: seq<Renderer>, plan: seq<Artifacts>,
                      seen: seq<Option<Artifacts>>, p: Progress)
    requires |renderers| == |plan| == |seen| && DevicesAfter(live, now, renderers, plan, seen, p)
    requires forall i :: 0 <= i < |renderers| && renderers[i].networkd ==> p.reloaded
    ensures Converged(live, now, renderers, plan, seen)
  {
    hide Settled, Shaped, Described, Recreations, Reloaded;
    forall i | 0 <= i < |renderers| && renderers[i].networkd && Shaped(Described(seen[i])) && Shaped(Described(Some(plan[i])))
      && Settled(live, Described(seen[i]))
      ensures Settled(now, Described(Some(plan[i])))
    {
      ApplySettles(live, Described(seen[i]), Described(Some(plan[i])));
    }
  }

  // ----- the whole pipeline ----------------------------------------------

  /** Steps 6 to 9, whatever fails. Rendering and checking touch nothing; a file nobody
      owns never changes; records change only on success; a device the plan does not
      change in a create-time setting is never destroyed, and a file somebody owns holds
      what it held, what was planned or what was recorded. A success leaves every planned
      file in place and the devices as one apply of networkd's files makes them. A failure
      reported as restored leaves each file and device as `Undone` and `WentBack` say,
      which is not always as before: `BackIff`, `LeftIff` and `DevicesBackIff` say when. */
  method Commit(m: Machine, renderers: seq<Renderer>, candidate: Node)
    returns (o: Outcome, notes: seq<Note>, ghost run: Run)
    requires Apart(renderers) && LawfulRecords(renderers, m.recorded, m.networkd)
    requires forall i :: 0 <= i < |renderers| && renderers[i].render(candidate).Some? ==>
               Lawful(renderers[i], renderers[i].render(candidate).value, m.networkd)
    modifies m`files, m`live, m`recorded, m`script
    ensures o.RenderFailed? || o.CheckFailed? ==> unchanged(m)
    ensures o.RenderFailed? <==> exists i :: 0 <= i < |renderers| && renderers[i].render(candidate).None?
    ensures !o.RenderFailed? ==> |run.plan| == |renderers| && forall i :: 0 <= i < |renderers| ==> renderers[i].render(candidate) == Some(run.plan[i])
    ensures !o.RenderFailed? ==> (o.CheckFailed? <==> exists i :: 0 <= i < |renderers| && !renderers[i].check(run.plan[i]))
    ensures forall f :: Foreign(renderers, f) ==> Held(m.files, f) == Held(old(m.files), f)
    ensures !o.RenderFailed? ==> OldPlannedOrRecorded(old(m.files), m.files, renderers, run.plan, old(m.recorded))
    ensures !o.RenderFailed? ==> DevicesKept(old(m.live), m.live, renderers, run.plan, old(m.recorded))
    ensures LawfulRecords(renderers, m.recorded, m.networkd)
    ensures !o.Done? ==> m.recorded == old(m.recorded)
    ensures o.Done? ==> forall i :: 0 <= i < |renderers| ==> InPlace(m.files, run.plan[i])
    ensures o.Done? ==> RecordedTo(old(m.recorded), m.recorded, renderers, run.plan, o.unrecorded, |renderers|)
    ensures o.Done? ==> |run.seen| == |renderers| && DevicesAfter(old(m.live), m.live, renderers, run.plan, run.seen, run.devices)
    ensures o.Done? ==> forall i :: 0 <= i < |renderers| && renderers[i].networkd ==> run.devices.reloaded
    ensures o.Done? ==> Converged(old(m.live), m.live, renderers, run.plan, run.seen)
    ensures o.RolledBack? || o.Unrecovered? ==> run.done < |renderers| && o.subsystem == renderers[run.done].name
                                                && WentBack(old(m.live), m.live, renderers, run)
                                                && forall i :: 0 <= i <= run.done ==> (run.back[i].None? <==> NothingToRestore(renderers[i].name) in notes)
    ensures o.RolledBack? ==> Undone(old(m.files), m.files, renderers, run)
    ensures o.RolledBack? ==> forall i :: 0 <= i <= run.done && renderers[i].networkd && run.back[i].Some? ==> run.redone.reloaded
    ensures TrueRecords(renderers, old(m.recorded), run.seen) && TrueRecords(renderers, old(m.recorded), run.back)
    ensures o.Done? ==> |o.unrecorded| <= Faults(old(m.script)) && (Faults(old(m.script)) == 0 ==> AllRead(renderers, old(m.recorded), run.seen))
    ensures o.RolledBack? || o.Unrecovered? ==> 0 < Faults(old(m.script))
    ensures Faults(old(m.script)) == 1 ==> !o.Unrecovered?
    ensures Faults(old(m.script)) == 1 && o.RolledBack? ==> PutAllBack(renderers, m.recorded, run.back, 0, run.done + 1)
  {
    hide InPlace, Partway, Mixed, PutBack, Apart, Lawful, Owns, Disjoint, Reaches, Wanted,
         DevicesAfter, LawfulRecords, LawfulAll, LawfulSome, Foreign, Converged, RecordedTo, DevicesKept, TrueRecords,
         OldPlannedOrRecorded, Undone, WentBack, BroughtBack;
    notes, run := [], Run([], [], 0, Progress({}, false), [], Progress({}, false));
    NoDevices(m.live, [], [], m.recorded);
    NoneTrue(renderers, m.recorded);
    var rendered := RenderAll(renderers, candidate);
    if rendered.Err? { return RenderFailed(rendered.error), notes, run; }
    var plan := rendered.value;
    run := run.(plan := plan);
    AllLawful(renderers, plan, candidate, m.networkd);
    KeptAtFirst(m.live, renderers, plan, m.recorded);
    SameAtFirst(m.files, renderers, plan, m.recorded);
    var failed := CheckAll(renderers, plan);
    if failed.Some? { return CheckFailed(failed.value), notes, run; }

    var done, seen, p := ApplyAll(m, renderers, plan);
    run := run.(seen := seen, done := done, devices := p);
    ghost var middle, between := m.files, m.live;
    AppliedKeeps(old(m.live), m.live, renderers, plan, seen, p, m.recorded);
    AppliedFiles(old(m.files), m.files, renderers, plan, |seen|, m.recorded, m.networkd);
    if done == |renderers| {
      DevicesSettle(old(m.live), m.live, renderers, plan, seen, p);
      var unrecorded := RememberAll(m, renderers, plan);
      RecordsLawful(old(m.recorded), m.recorded, renderers, plan, unrecorded, m.networkd);
      return Done(unrecorded), notes, run;
    }
    var problems, said, back, q := Restore(m, renderers, done + 1);
    notes, run := said, run.(back := back, redone := q);
    BackLawful(renderers, m.recorded, m.networkd, back);
    BackKeeps(old(m.live), between, m.live, renderers, plan, back, q, m.recorded);
    BackFiles(old(m.files), middle, m.files, renderers, plan, |seen|, back, m.recorded, m.networkd);
    WentBackHolds(old(m.live), between, m.live, renderers, run);
    if problems != [] { return Unrecovered(renderers[done].name, problems), notes, run; }
    AllUndone(old(m.files), middle, m.files, renderers, run, m.networkd);
    o := RolledBack(renderers[done].name);
  }

  lemma NoneTrue(renderers: seq<Renderer>, recorded: map<string, Artifacts>)
    ensures TrueRecords(renderers, recorded, [])
  {
  }

  lemma AllLawful(renderers: seq<Renderer>, plan: seq<Artifacts>, candidate: Node, networkd: string)
    requires |plan| == |renderers| && forall i :: 0 <= i < |renderers| ==> renderers[i].render(candidate) == Some(plan[i])
    requires forall i :: 0 <= i < |renderers| && renderers[i].render(candidate).Some? ==>
               Lawful(renderers[i], renderers[i].render(candidate).value, networkd)
    ensures LawfulAll(renderers, plan, networkd)
  {
    hide Lawful;
  }

  lemma BackLawful(renderers: seq<Renderer>, recorded: map<string, Artifacts>, networkd: string, back: seq<Option<Artifacts>>)
    requires LawfulRecords(renderers, recorded, networkd) && |back| == |renderers| && TrueRecords(renderers, recorded, back)
    ensures LawfulSome(renderers, back, networkd)
  {
    hide Lawful;
  }

  lemma SameAtFirst(tree: Tree, renderers: seq<Renderer>, plan: seq<Artifacts>, recorded: map<string, Artifacts>)
    requires |plan| == |renderers|
    ensures OldPlannedOrRecorded(tree, tree, renderers, plan, recorded)
  {
  }

  lemma AppliedFiles(before: Tree, after: Tree, renderers: seq<Renderer>, plan: seq<Artifacts>, k: nat,
                     recorded: map<string, Artifacts>, networkd: string)
    requires Apart(renderers) && LawfulAll(renderers, plan, networkd) && Mixed(before, after, UpTo(plan, k))
    ensures OldPlannedOrRecorded(before, after, renderers, plan, recorded)
    ensures forall f :: Foreign(renderers, f) ==> Held(after, f) == Held(before, f)
  {
    hide Lawful, Mixed, Reaches, Wanted, Owns, Apart, Foreign, LawfulSome;
    LawfulUpTo(renderers, plan, networkd, k);
    forall i, f | 0 <= i < |renderers| && Owns(renderers[i].territory, f)
      ensures Held(after, f) == Held(before, f) || DecidedBy(Some(plan[i]), after, f)
    {
      OnlyOwn(before, after, renderers, UpTo(plan, k), networkd, i, f);
    }
    forall f | Foreign(renderers, f) ensures Held(after, f) == Held(before, f) {
      ForeignKept(before, after, renderers, UpTo(plan, k), networkd, f);
    }
  }

  lemma BackFiles(before: Tree, middle: Tree, after: Tree, renderers: seq<Renderer>, plan: seq<Artifacts>, k: nat,
                  back: seq<Option<Artifacts>>, recorded: map<string, Artifacts>, networkd: string)
    requires Apart(renderers) && LawfulAll(renderers, plan, networkd) && Mixed(before, middle, UpTo(plan, k))
    requires LawfulSome(renderers, back, networkd) && TrueRecords(renderers, recorded, back) && Mixed(middle, after, back)
    ensures OldPlannedOrRecorded(before, after, renderers, plan, recorded)
    ensures forall f :: Foreign(renderers, f) ==> Held(after, f) == Held(middle, f)
  {
    hide Lawful, Mixed, Reaches, Wanted, Owns, Apart, Foreign;
    LawfulUpTo(renderers, plan, networkd, k);
    forall i, f | 0 <= i < |renderers| && Owns(renderers[i].territory, f)
      ensures Held(after, f) == Held(before, f) || DecidedBy(Some(plan[i]), after, f)
              || DecidedBy(Known(recorded, renderers[i].name), after, f)
    {
      OnlyOwn(before, middle, renderers, UpTo(plan, k), networkd, i, f);
      OnlyOwn(middle, after, renderers, back, networkd, i, f);
    }
    forall f | Foreign(renderers, f) ensures Held(after, f) == Held(middle, f) {
      ForeignKept(middle, after, renderers, back, networkd, f);
    }
  }

  lemma AllUndone(before: Tree, middle: Tree, after: Tree, renderers: seq<Renderer>, run: Run, networkd: string)
    requires Apart(renderers) && LawfulAll(renderers, run.plan, networkd) && LawfulSome(renderers, run.back, networkd)
    requires run.done < |renderers| && Mixed(before, middle, UpTo(run.plan, run.done + 1))
    requires forall j :: 0 <= j < run.done ==> InPlace(middle, run.plan[j])
    requires Mixed(middle, after, run.back) && PutBack(after, run.back)
    requires forall j :: run.done < j < |run.back| ==> run.back[j].None?
    ensures Undone(before, after, renderers, run)
  {
    assert |run.plan| == |run.back| == |renderers|;
    hide Lawful, Mixed, Owns, Apart, UndoneAt, InPlace, PutBack, LawfulAll, LawfulSome;
    forall i, f | 0 <= i < |renderers| && Owns(renderers[i].territory, f) ensures UndoneAt(before, after, run, i, f) {
      UndoneHolds(before, middle, after, renderers, run, networkd, i, f);
    }
  }
}
