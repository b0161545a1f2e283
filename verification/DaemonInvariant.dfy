/** What every reachable state of the daemon satisfies, including the states a
    crash leaves after any number of an action's writes. */
module DaemonInvariant {
  import opened Wrappers
  import opened Config
  import opened Daemon
  import Curly
  import Diff

  // ----- the archive -----------------------------------------------------

  ghost predicate Increasing(archive: seq<Revision>) {
    forall i, j :: 0 <= i < j < |archive| ==> archive[i].revision < archive[j].revision
  }

  ghost predicate AllBelow(archive: seq<Revision>, bound: nat) {
    forall i :: 0 <= i < |archive| ==> archive[i].revision < bound
  }

  function LastKept(all: seq<Revision>): seq<Revision> {
    if |all| > KEEP then all[|all| - KEEP..] else all
  }

  lemma OldestFirst(all: seq<Revision>)
    requires Increasing(all) && all != []
    ensures Oldest(all) == 0
  {
    assert all[Oldest(all)].revision <= all[0].revision;
  }

  lemma PruneOne(all: seq<Revision>)
    requires Increasing(all) && |all| > KEEP
    ensures Prune(all) == Prune(all[1..])
  {
    hide Oldest, Increasing;
    OldestFirst(all);
    assert all[..0] + all[0 + 1..] == all[1..];
  }

  /** Pruning revisions written in order keeps exactly the newest. */
  lemma {:induction false} PruneKeepsNewest(all: seq<Revision>)
    requires Increasing(all)
    ensures Prune(all) == LastKept(all)
    decreases |all|
  {
    hide Oldest, Increasing, Prune;
    if |all| > KEEP {
      PruneOne(all);
      IncreasingRest(all);
      PruneKeepsNewest(all[1..]);
      assert all[1..][|all| - 1 - KEEP..] == all[|all| - KEEP..];
    } else {
      PruneNone(all);
    }
  }

  lemma PruneNone(all: seq<Revision>)
    requires |all| <= KEEP
    ensures Prune(all) == all
  {
  }

  lemma IncreasingRest(all: seq<Revision>)
    requires Increasing(all) && all != []
    ensures Increasing(all[1..])
  {
  }

  lemma RecordKeeps(archive: seq<Revision>, r: Revision)
    requires Increasing(archive) && AllBelow(archive, r.revision)
    ensures var kept := Prune(archive + [r]);
            kept == LastKept(archive + [r]) && Increasing(kept) && AllBelow(kept, r.revision + 1) && |kept| <= KEEP
  {
    hide Prune;
    PruneKeepsNewest(archive + [r]);
  }

  // ----- the invariant ---------------------------------------------------

  /** The generation and configuration on record; what a restart would come up with. */
  function OnRecord(d: Disk): (nat, Node) {
    d.recorded.UnwrapOr((0, EMPTY_INTERIOR))
  }

  /** A marker's commit is on record and on the machine, or on its way to being rolled
      back but not yet disarmed, which only happens once its deadline has passed. */
  ghost predicate MarkerOk(p: Pending, d: Disk, now: int) {
    && p.generation == p.previousGeneration + 1
    && AllBelow(d.archive, p.generation)
    && (|| (OnRecord(d) == (p.generation, p.committed) && (d.host == p.committed || (d.host == p.previous && p.Expired(now))))
        || (OnRecord(d).0 > p.generation && OnRecord(d).1 == p.previous && d.host == p.previous && p.Expired(now)))
  }

  ghost predicate DiskOk(d: Disk, now: int) {
    && (d.recorded.Some? ==> d.recorded.value.0 > 0)
    && (forall id :: id in d.sessions ==> d.sessions[id].base <= OnRecord(d).0)
    && Increasing(d.archive) && |d.archive| <= KEEP && AllBelow(d.archive, OnRecord(d).0 + 1)
    && (d.marker.Some? ==> MarkerOk(d.marker.value, d, now))
  }

  ghost predicate HistoryOk(m: Memory) {
    && |m.history| <= HISTORY
    && (forall i, j :: 0 <= i < j < |m.history| ==> m.history[i].0 < m.history[j].0)
    && (forall i :: 0 <= i < |m.history| ==> m.history[i].0 < m.generation)
  }

  /** Between requests, memory and disk say the same. */
  ghost predicate InStep(m: Memory, d: Disk) {
    && OnRecord(d) == (m.generation, m.running)
    && m.sessions == d.sessions
    && m.pending == d.marker
    && (m.timer <==> m.pending.Some?)
    && (m.pending.Some? ==> (m.generation, m.running) == (m.pending.value.generation, m.pending.value.committed))
    && (m.pending.Some? ==> d.host == m.pending.value.committed)
  }

  ghost predicate Inv(s: System) {
    DiskOk(s.disk, s.now) && (s.Up? ==> InStep(s.memory, s.disk) && HistoryOk(s.memory))
  }

  lemma InitialInv(s: System)
    requires Initial(s)
    ensures Inv(s)
  {
  }

  lemma LaterOk(d: Disk, now: int, later: int)
    requires DiskOk(d, now) && now <= later
    ensures DiskOk(d, later)
  {
  }

  lemma PerformOne(d: Disk, a: Write)
    ensures PerformAll(d, [a]) == Perform(d, a)
  {
    assert [a][1..] == [];
  }

  lemma PerformTwo(d: Disk, a: Write, b: Write)
    ensures PerformAll(d, [a, b]) == Perform(Perform(d, a), b)
  {
    assert [a, b][1..] == [b];
    PerformOne(Perform(d, a), b);
  }

  lemma PerformThree(d: Disk, a: Write, b: Write, c: Write)
    ensures PerformAll(d, [a, b, c]) == Perform(Perform(Perform(d, a), b), c)
  {
    assert [a, b, c][1..] == [b, c];
    PerformTwo(Perform(d, a), b, c);
  }

  lemma PerformFour(d: Disk, a: Write, b: Write, c: Write, e: Write)
    ensures PerformAll(d, [a, b, c, e]) == Perform(Perform(Perform(Perform(d, a), b), c), e)
  {
    assert [a, b, c, e][1..] == [b, c, e];
    PerformThree(Perform(d, a), b, c, e);
  }

  // ----- every prefix of an action's writes ------------------------------

  /** The disk is sound now and after each further write. */
  ghost predicate Sound(d: Disk, ws: seq<Write>, now: int)
    decreases |ws|
  {
    DiskOk(d, now) && (ws != [] ==> Sound(Perform(d, ws[0]), ws[1..], now))
  }

  lemma {:induction false} SoundPrefix(d: Disk, ws: seq<Write>, now: int, k: nat)
    requires Sound(d, ws, now) && k <= |ws|
    ensures DiskOk(PerformAll(d, ws[..k]), now)
    decreases k
  {
    if k > 0 {
      assert ws[..k][1..] == ws[1..][..k - 1];
      SoundPrefix(Perform(d, ws[0]), ws[1..], now, k - 1);
    }
  }

  lemma SoundCons(d: Disk, w: Write, ws: seq<Write>, now: int)
    requires DiskOk(d, now) && Sound(Perform(d, w), ws, now)
    ensures Sound(d, [w] + ws, now)
    ensures PerformAll(d, [w] + ws) == PerformAll(Perform(d, w), ws)
  {
    assert ([w] + ws)[1..] == ws;
  }

  lemma SoundOne(d: Disk, w: Write, now: int)
    requires DiskOk(d, now) && DiskOk(Perform(d, w), now)
    ensures Sound(d, [w], now) && PerformAll(d, [w]) == Perform(d, w)
  {
    assert [w][1..] == [];
  }

  lemma {:induction false} SoundConcat(d: Disk, a: seq<Write>, b: seq<Write>, now: int)
    requires Sound(d, a, now) && Sound(PerformAll(d, a), b, now)
    ensures Sound(d, a + b, now) && PerformAll(d, a + b) == PerformAll(PerformAll(d, a), b)
    decreases |a|
  {
    if a == [] {
      assert a + b == b;
    } else {
      assert (a + b)[1..] == a[1..] + b;
      SoundConcat(Perform(d, a[0]), a[1..], b, now);
    }
  }

  /** What an action leaves: sound after every write, and in step at the end. */
  ghost predicate Lands(m: Memory, ws: seq<Write>, d: Disk, now: int) {
    Sound(d, ws, now) && InStep(m, PerformAll(d, ws)) && HistoryOk(m)
  }

  lemma EditedLands(m: Memory, d: Disk, id: SessionId, session: Session, now: int)
    requires DiskOk(d, now) && InStep(m, d) && HistoryOk(m) && session.base <= m.generation
    ensures var o := Edited(m, id, session); Lands(o.memory, o.writes, d, now)
  {
    var w := SaveSession(id, session);
    assert DiskOk(Perform(d, w), now);
    SoundOne(d, w, now);
  }

  lemma StillLands(m: Memory, d: Disk, now: int)
    requires DiskOk(d, now) && InStep(m, d) && HistoryOk(m)
    ensures Lands(m, [], d, now)
  {
  }

  lemma NewestOk(m: Memory)
    requires HistoryOk(m)
    ensures var h := Newest(m.history + [(m.generation, m.running)]);
            && |h| <= HISTORY && h != [] && h[|h| - 1] == (m.generation, m.running)
            && (forall i, j :: 0 <= i < j < |h| ==> h[i].0 < h[j].0)
            && (forall i :: 0 <= i < |h| ==> h[i].0 < m.generation + 1)
  {
  }

  /** The three writes every changing commit starts with. */
  lemma PromoteSound(d: Disk, id: SessionId, level: Session, config: Node, now: int)
    requires DiskOk(d, now) && d.marker.None? && level.base == OnRecord(d).0 + 1
    ensures var ws := [ApplyHost(config), SaveRunning(level.base, config), SaveSession(id, level)];
            && Sound(d, ws, now)
            && PerformAll(d, ws) == d.(host := config, recorded := Some((level.base, config)), sessions := d.sessions[id := level])
  {
    var d1 := Perform(d, ApplyHost(config));
    var d2 := Perform(d1, SaveRunning(level.base, config));
    var d3 := Perform(d2, SaveSession(id, level));
    assert DiskOk(d1, now) && DiskOk(d2, now) && DiskOk(d3, now);
    SoundOne(d2, SaveSession(id, level), now);
    SoundCons(d1, SaveRunning(level.base, config), [SaveSession(id, level)], now);
    SoundCons(d, ApplyHost(config), [SaveRunning(level.base, config)] + [SaveSession(id, level)], now);
    assert [ApplyHost(config)] + ([SaveRunning(level.base, config)] + [SaveSession(id, level)])
        == [ApplyHost(config), SaveRunning(level.base, config), SaveSession(id, level)];
  }

  /** The shape of a changing commit: three promoting writes, then one that either
      archives the revision or arms the marker. */
  lemma CommitShape(schema: Schema, m: Memory, id: SessionId, comment: Option<string>, minutes: Option<nat>, c: Context)
    requires HistoryOk(m) && Owned(m, id, c.uid) && (m.timer <==> m.pending.Some?)
    requires DoCommit(schema, m, id, comment, minutes, c).writes != []
    ensures var o := DoCommit(schema, m, id, comment, minutes, c);
            var candidate := m.sessions[id].candidate;
            var level := m.sessions[id].(base := m.generation + 1);
            && m.pending.None? && |o.writes| == 4
            && o.writes == [ApplyHost(candidate), SaveRunning(level.base, candidate), SaveSession(id, level)] + [o.writes[3]]
            && o.memory.running == candidate && o.memory.generation == m.generation + 1
            && o.memory.sessions == m.sessions[id := level]
            && HistoryOk(o.memory) && (o.memory.timer <==> o.memory.pending.Some?)
            && (minutes.None? ==> o.memory.pending.None? && o.writes[3].Record? && o.writes[3].revision.revision == m.generation + 1)
            && (minutes.Some? ==> o.memory.pending.Some? && o.writes[3] == Arm(o.memory.pending.value) && var p := o.memory.pending.value;
                  p.generation == m.generation + 1 && p.previousGeneration == m.generation && p.committed == candidate && p.previous == m.running)
  {
    hide Curly.Render, Newest, Diff.Changes;
    NewestOk(m);
  }

  lemma CommitLands(schema: Schema, m: Memory, d: Disk, id: SessionId, comment: Option<string>,
                    minutes: Option<nat>, c: Context)
    requires DiskOk(d, c.now) && InStep(m, d) && HistoryOk(m) && Owned(m, id, c.uid)
    ensures var o := DoCommit(schema, m, id, comment, minutes, c); Lands(o.memory, o.writes, d, c.now)
  {
    hide HistoryOk, Perform, PerformAll, Sound;
    var o := DoCommit(schema, m, id, comment, minutes, c);
    if o.writes == [] {
      NoWritesNoChange(schema, m, id, comment, minutes, c);
      StillLands(m, d, c.now);
    } else {
      hide DoCommit;
      CommitShape(schema, m, id, comment, minutes, c);
      var candidate := m.sessions[id].candidate;
      var level := m.sessions[id].(base := m.generation + 1);
      var first := [ApplyHost(candidate), SaveRunning(level.base, candidate), SaveSession(id, level)];
      var saved := PerformAll(d, first);
      var last := o.writes[3];
      PromoteSound(d, id, level, candidate, c.now);
      PromotedOk(d, first, c.now);
      if minutes.None? {
        RecordSound(saved, last.revision, c.now);
      } else {
        ArmSound(saved, last.pending, c.now);
      }
      SoundConcat(d, first, [last], c.now);
    }
  }

  lemma NoWritesNoChange(schema: Schema, m: Memory, id: SessionId, comment: Option<string>, minutes: Option<nat>,
                         c: Context)
    requires Owned(m, id, c.uid) && DoCommit(schema, m, id, comment, minutes, c).writes == []
    ensures DoCommit(schema, m, id, comment, minutes, c).memory == m
  {
    hide Curly.Render, Newest, Diff.Changes;
  }

  lemma PromotedOk(d: Disk, ws: seq<Write>, now: int)
    requires Sound(d, ws, now)
    ensures DiskOk(PerformAll(d, ws), now)
  {
    SoundPrefix(d, ws, now, |ws|);
    assert ws[..|ws|] == ws;
  }

  lemma RecordSound(d: Disk, r: Revision, now: int)
    requires DiskOk(d, now) && d.marker.None?
    requires AllBelow(d.archive, r.revision) && r.revision <= OnRecord(d).0
    ensures Sound(d, [Record(r)], now) && PerformAll(d, [Record(r)]) == d.(archive := LastKept(d.archive + [r]))
  {
    hide Prune;
    RecordKeeps(d.archive, r);
    assert DiskOk(Perform(d, Record(r)), now);
    SoundOne(d, Record(r), now);
  }

  lemma ArmSound(d: Disk, p: Pending, now: int)
    requires DiskOk(d, now) && MarkerOk(p, d, now)
    ensures Sound(d, [Arm(p)], now) && PerformAll(d, [Arm(p)]) == d.(marker := Some(p))
  {
    assert DiskOk(Perform(d, Arm(p)), now);
    SoundOne(d, Arm(p), now);
  }

  lemma ConfirmLands(schema: Schema, m: Memory, d: Disk, c: Context)
    requires DiskOk(d, c.now) && InStep(m, d) && HistoryOk(m)
    ensures var o := DoConfirm(schema, m, c); Lands(o.memory, o.writes, d, c.now)
  {
    hide Curly.Render, Prune;
    var o := DoConfirm(schema, m, c);
    if m.pending.None? {
      StillLands(m, d, c.now);
    } else {
      var d1 := Perform(d, Disarm);
      var r := o.writes[1].revision;
      assert DiskOk(d1, c.now);
      RecordSound(d1, r, c.now);
      SoundCons(d, Disarm, [Record(r)], c.now);
      assert o.writes == [Disarm] + [Record(r)];
    }
  }

  lemma HandleLands(schema: Schema, m: Memory, d: Disk, r: Request, c: Context)
    requires DiskOk(d, c.now) && InStep(m, d) && HistoryOk(m)
    ensures var o := Handle(schema, m, d, r, c); Lands(o.memory, o.writes, d, c.now)
  {
    hide Curly.Render, Curly.Parse, Lands, DoCommit, DoConfirm, Find;
    StillLands(m, d, c.now);
    match r
    case OpenSession(id) => EditedLands(m, d, id, Session(c.uid, m.running, m.generation), c.now);
    case Save => SaveLands(schema, m, d, c.now);
    case Use(id, op) =>
      if Owned(m, id, c.uid) {
        var session := m.sessions[id];
        match op
        case Close => CloseLands(m, d, id, c.now);
        case Set(path, value) => AmendedLands(m, d, id, schema.applySet(session.candidate, path, value), c.now);
        case Delete(path, value) => AmendedLands(m, d, id, schema.applyDelete(session.candidate, path, value), c.now);
        case Discard => EditedLands(m, d, id, session.(candidate := m.running, base := m.generation), c.now);
        case Load(source) => LoadLands(schema, m, d, id, source, c.now);
        case Commit(comment, minutes) => CommitLands(schema, m, d, id, comment, minutes, c);
        case Confirm => ConfirmLands(schema, m, d, c);
      }
  }

  lemma AmendedLands(m: Memory, d: Disk, id: SessionId, candidate: Option<Node>, now: int)
    requires DiskOk(d, now) && InStep(m, d) && HistoryOk(m) && id in m.sessions
    ensures var o := Amended(m, id, candidate); Lands(o.memory, o.writes, d, now)
  {
    hide Lands;
    StillLands(m, d, now);
    if candidate.Some? { EditedLands(m, d, id, m.sessions[id].(candidate := candidate.value), now); }
  }

  lemma LoadLands(schema: Schema, m: Memory, d: Disk, id: SessionId, source: Source, now: int)
    requires DiskOk(d, now) && InStep(m, d) && HistoryOk(m) && id in m.sessions
    ensures var o := DoLoad(schema, m, d, id, source); Lands(o.memory, o.writes, d, now)
  {
    hide Lands, Curly.Parse, Find;
    StillLands(m, d, now);
    var text := SourceText(d, source);
    if text.Some? && Curly.Parse(text.value).Ok? {
      EditedLands(m, d, id, m.sessions[id].(candidate := Curly.Parse(text.value).value), now);
    }
  }

  lemma SaveLands(schema: Schema, m: Memory, d: Disk, now: int)
    requires DiskOk(d, now) && InStep(m, d) && HistoryOk(m)
    ensures Lands(m, [SaveBoot(Curly.Render(m.running, schema.tags))], d, now)
  {
    hide Curly.Render;
    var w := SaveBoot(Curly.Render(m.running, schema.tags));
    assert DiskOk(Perform(d, w), now);
    SoundOne(d, w, now);
  }

  lemma CloseLands(m: Memory, d: Disk, id: SessionId, now: int)
    requires DiskOk(d, now) && InStep(m, d) && HistoryOk(m)
    ensures Lands(m.(sessions := m.sessions - {id}), [ForgetSession(id)], d, now)
  {
    assert DiskOk(Perform(d, ForgetSession(id)), now);
    SoundOne(d, ForgetSession(id), now);
  }

  // ----- rolling back, restarting ----------------------------------------

  /** Undoing a commit whose window has passed, from memory recovered or live. */
  lemma RollBackLands(m: Memory, d: Disk, c: Context)
    requires DiskOk(d, c.now) && HistoryOk(m) && m.pending.Some? && d.marker == m.pending
    requires m.pending.value.Expired(c.now)
    requires OnRecord(d) == (m.generation, m.running) && m.sessions == d.sessions
    ensures var (after, ws) := RollBack(m, c.applies); Lands(after, ws, d, c.now)
  {
    var p := m.pending.value;
    var (after, ws) := RollBack(m, c.applies);
    if c.applies {
      var save := SaveRunning(m.generation + 1, p.previous);
      var d1 := Perform(d, ApplyHost(p.previous));
      var d2 := Perform(d1, save);
      assert DiskOk(d1, c.now) && DiskOk(d2, c.now) && DiskOk(Perform(d2, Disarm), c.now);
      SoundOne(d2, Disarm, c.now);
      SoundCons(d1, save, [Disarm], c.now);
      SoundCons(d, ApplyHost(p.previous), [save] + [Disarm], c.now);
      assert ws == [ApplyHost(p.previous)] + ([save] + [Disarm]);
    } else {
      assert DiskOk(Perform(d, Disarm), c.now);
      SoundOne(d, Disarm, c.now);
    }
  }

  lemma ResumeLands(d: Disk, c: Context)
    requires DiskOk(d, c.now)
    ensures var (m, ws) := Resume(Recover(d), d, c); Lands(m, ws, d, c.now)
  {
    var m := Recover(d);
    if d.marker.Some? && d.marker.value.Expired(c.now) {
      RollBackLands(m.(pending := d.marker), d, c);
    }
  }

  lemma BootLands(schema: Schema, m: Memory, d: Disk, c: Context)
    requires DiskOk(d, c.now) && InStep(m, d) && HistoryOk(m)
    ensures var (after, ws) := Boot(schema, m, d, c); Lands(after, ws, d, c.now)
  {
    hide Curly.Parse;
    var (after, ws) := Boot(schema, m, d, c);
    if ws == [] {
      StillLands(m, d, c.now);
    } else {
      var config := after.running;
      var save := SaveRunning(1, config);
      var d1 := Perform(d, ApplyHost(config));
      assert DiskOk(d1, c.now) && DiskOk(Perform(d1, save), c.now) && DiskOk(Perform(d, save), c.now);
      if |ws| == 2 {
        SoundOne(d1, save, c.now);
        SoundCons(d, ApplyHost(config), [save], c.now);
        assert ws == [ApplyHost(config)] + [save];
      } else {
        SoundOne(d, save, c.now);
        assert ws == [save];
      }
    }
  }

  lemma RestartLands(schema: Schema, d: Disk, c: Context)
    requires DiskOk(d, c.now)
    ensures var (m, ws) := Restart(schema, d, c); Lands(m, ws, d, c.now)
  {
    hide Curly.Parse, Resume, Boot;
    var (resumed, first) := Resume(Recover(d), d, c);
    ResumeLands(d, c);
    PromotedOk(d, first, c.now);
    var between := PerformAll(d, first);
    ResumeWrites(d, c);
    BootIgnoresRunDir(schema, resumed, d, first, c);
    BootLands(schema, resumed, between, c);
    SoundConcat(d, first, Boot(schema, resumed, d, c).1, c.now);
  }

  lemma ResumeWrites(d: Disk, c: Context)
    ensures var ws := Resume(Recover(d), d, c).1; forall i :: 0 <= i < |ws| ==> !ws[i].SaveBoot?
  {
  }

  /** Resuming never writes config.boot, so booting reads the same file after it. */
  lemma BootIgnoresRunDir(schema: Schema, m: Memory, d: Disk, ws: seq<Write>, c: Context)
    requires forall i :: 0 <= i < |ws| ==> !ws[i].SaveBoot?
    ensures Boot(schema, m, PerformAll(d, ws), c) == Boot(schema, m, d, c)
  {
    hide Curly.Parse;
    BootKept(d, ws);
  }

  lemma {:induction false} BootKept(d: Disk, ws: seq<Write>)
    requires forall i :: 0 <= i < |ws| ==> !ws[i].SaveBoot?
    ensures PerformAll(d, ws).boot == d.boot
    decreases |ws|
  {
    if ws != [] { BootKept(Perform(d, ws[0]), ws[1..]); }
  }

  // ----- steps and runs --------------------------------------------------

  lemma EffectLands(schema: Schema, s: System, e: Event)
    requires Inv(s) && Enabled(schema, s, e)
    ensures var (m, ws) := Effect(schema, s, e); Lands(m, ws, s.disk, e.context.now)
  {
    hide Lands, Handle, Restart, RollBack, DiskOk;
    LaterOk(s.disk, s.now, e.context.now);
    match e.action
    case Ask(request) => HandleLands(schema, s.memory, s.disk, request, e.context);
    case Fire => RollBackLands(s.memory, s.disk, e.context);
    case Start => RestartLands(schema, s.disk, e.context);
  }

  /** Every event keeps the invariant, wherever in its writes a crash lands. */
  lemma StepInv(schema: Schema, s: System, e: Event)
    requires Inv(s) && Enabled(schema, s, e)
    ensures Inv(Next(schema, s, e))
  {
    hide Effect, DiskOk;
    var (m, ws) := Effect(schema, s, e);
    EffectLands(schema, s, e);
    var k := if e.crash.Some? then e.crash.value else |ws|;
    SoundPrefix(s.disk, ws, e.context.now, k);
    assert ws[..|ws|] == ws;
  }

  lemma {:induction false} RunInv(schema: Schema, ss: seq<System>, es: seq<Event>, i: nat)
    requires IsRun(schema, ss, es) && Inv(ss[0]) && i < |ss|
    ensures Inv(ss[i])
  {
    hide Inv, Enabled, Next;
    if i > 0 {
      RunInv(schema, ss, es, i - 1);
      var _ := ss[i - 1];
      assert ss[i - 1 + 1] == Next(schema, ss[i - 1], es[i - 1]);
      StepInv(schema, ss[i - 1], es[i - 1]);
    }
  }
}
