/** Commit-confirm and the archive, over whole runs. */
module DaemonConfirm {
  import opened Wrappers
  import opened Config
  import opened Daemon
  import opened DaemonInvariant
  import opened DaemonRuns
  import Curly
  import Diff

  predicate IsConfirm(e: Event) {
    e.action.Ask? && e.action.request.Use? && e.action.request.operation.Confirm?
  }

  // ----- while the window is open ----------------------------------------

  lemma NoArmWhilePending(schema: Schema, s: System, e: Event)
    requires Inv(s) && Enabled(schema, s, e) && s.disk.marker.Some?
    ensures var ws := Effect(schema, s, e).1; forall i :: 0 <= i < |ws| ==> !ws[i].Arm?
  {
    hide Curly.Render, Curly.Parse, Diff.Changes, Find, Newest, DiskOk;
  }

  /** A pending commit is not replaced by another. */
  lemma MarkerStays(schema: Schema, s: System, e: Event)
    requires Inv(s) && Enabled(schema, s, e) && s.disk.marker.Some?
    ensures var m := Next(schema, s, e).disk.marker; m.None? || m == s.disk.marker
  {
    hide Effect, Next, Enabled, Inv;
    NextDisk(schema, s, e);
    EnabledPrefix(schema, s, e);
    NoArmWhilePending(schema, s, e);
    MarkerWrites(s.disk, Performed(schema, s, e));
  }

  lemma {:induction false} NoDisarmKeeps(d: Disk, ws: seq<Write>)
    requires d.marker.Some? && forall i :: 0 <= i < |ws| ==> ws[i] != Disarm
    ensures PerformAll(d, ws).marker.Some?
    decreases |ws|
  {
    if ws != [] { NoDisarmKeeps(Perform(d, ws[0]), ws[1..]); }
  }

  lemma DisarmedBy(schema: Schema, s: System, e: Event, i: nat)
    requires Enabled(schema, s, e) && i < |Effect(schema, s, e).1| && Effect(schema, s, e).1[i] == Disarm
    ensures IsConfirm(e) || !e.action.Ask?
  {
    hide Curly.Render, Curly.Parse, Diff.Changes, Find, Newest;
  }

  // ----- how it ends -----------------------------------------------------

  /** What a confirmation leaves: the commit stays, and its revision is archived
      once the second of the two writes is done. */
  ghost predicate Kept(schema: Schema, s: System, e: Event, after: System, p: Pending) {
    && Current(after) == (p.generation, p.committed) && after.disk.host == p.committed
    && after.disk.archive ==
       if e.crash == Some(1) then s.disk.archive
       else LastKept(s.disk.archive + [RevisionOf(schema, p.generation, e.context.uid, p.comment, p.committed)])
  }

  /** What a rollback leaves: the configuration from before, on the machine and on record
      under a new number, and nothing archived -- unless the machine refuses it, which
      keeps the commit. */
  ghost predicate Undone(s: System, e: Event, after: System, p: Pending) {
    && p.Expired(e.context.now)
    && after.disk.archive == s.disk.archive
    && (if e.context.applies then
          Current(after).1 == p.previous && Current(after).0 > p.generation && after.disk.host == p.previous
        else
          Current(after) == Current(s) && after.disk.host == s.disk.host)
  }

  lemma ConfirmEnds(schema: Schema, s: System, e: Event)
    requires Inv(s) && Enabled(schema, s, e) && s.disk.marker.Some? && Next(schema, s, e).disk.marker.None?
    requires IsConfirm(e)
    ensures Kept(schema, s, e, Next(schema, s, e), s.disk.marker.value)
  {
    hide Curly.Render, Next, Enabled, DiskOk, Prune;
    var p := s.disk.marker.value;
    var r := RevisionOf(schema, p.generation, e.context.uid, p.comment, p.committed);
    EnabledPrefix(schema, s, e);
    NextDisk(schema, s, e);
    StepInv(schema, s, e);
    CurrentOnRecord(Next(schema, s, e));
    ConfirmIsOwned(schema, s, e);
    ArchiveBelow(s);
    RecordKeeps(s.disk.archive, r);
    var d1 := Perform(s.disk, Disarm);
    var ws := Performed(schema, s, e);
    if e.crash == Some(1) {
      assert ws == [Disarm];
      PerformOne(s.disk, Disarm);
    } else if e.crash == Some(0) {
      assert false;
    } else {
      assert ws == [Disarm, Record(r)];
      PerformTwo(s.disk, Disarm, Record(r));
    }
  }

  lemma ArchiveBelow(s: System)
    requires Inv(s) && s.disk.marker.Some?
    ensures Increasing(s.disk.archive) && AllBelow(s.disk.archive, s.disk.marker.value.generation)
  {
  }

  lemma ConfirmIsOwned(schema: Schema, s: System, e: Event)
    requires Enabled(schema, s, e) && IsConfirm(e) && Next(schema, s, e).disk.marker != s.disk.marker
    ensures Effect(schema, s, e) ==
              (DoConfirm(schema, s.memory, e.context).memory, DoConfirm(schema, s.memory, e.context).writes)
  {
    hide Curly.Render;
  }

  /** A rollback that got as far as removing the marker made all its writes. */
  lemma MarkerGoesLast(d: Disk, m: Memory, applies: bool, k: nat)
    requires m.pending.Some? && d.marker.Some? && k <= |RollBack(m, applies).1|
    requires PerformAll(d, RollBack(m, applies).1[..k]).marker.None?
    ensures var after := PerformAll(d, RollBack(m, applies).1[..k]);
            && after.archive == d.archive
            && OnRecord(after) == (if applies then (m.generation + 1, m.pending.value.previous) else OnRecord(d))
            && after.host == (if applies then m.pending.value.previous else d.host)
  {
    var ws := RollBack(m, applies).1;
    if k < |ws| {
      NoDisarmKeeps(d, ws[..k]);
      assert false;
    }
    assert ws[..k] == ws;
    var p := m.pending.value;
    if applies { PerformThree(d, ApplyHost(p.previous), SaveRunning(m.generation + 1, p.previous), Disarm); }
    else { PerformOne(d, Disarm); }
  }

  /** What a rollback leaves once it has made `k` of its three writes. */
  function RolledBackTo(d: Disk, m: Memory, k: nat): Disk
    requires m.pending.Some?
  {
    var previous := m.pending.value.previous;
    var d1 := if k >= 1 then d.(host := previous) else d;
    var d2 := if k >= 2 then d1.(recorded := Some((m.generation + 1, previous))) else d1;
    if k >= 3 then d2.(marker := None) else d2
  }

  lemma RollBackStops(d: Disk, m: Memory, k: nat)
    requires m.pending.Some? && k <= |RollBack(m, true).1|
    ensures PerformAll(d, RollBack(m, true).1[..k]) == RolledBackTo(d, m, k)
  {
    var p := m.pending.value;
    var ws := RollBack(m, true).1;
    if k == 1 {
      assert ws[..1] == [ApplyHost(p.previous)];
      PerformOne(d, ApplyHost(p.previous));
    } else if k == 2 {
      assert ws[..2] == [ApplyHost(p.previous), SaveRunning(m.generation + 1, p.previous)];
      PerformTwo(d, ApplyHost(p.previous), SaveRunning(m.generation + 1, p.previous));
    } else if k == 3 {
      assert ws[..3] == ws;
      PerformThree(d, ApplyHost(p.previous), SaveRunning(m.generation + 1, p.previous), Disarm);
    }
  }

  /** A rollback that a crash stopped before its last write, and the restart after it,
      together: what the rollback alone would have left, except that the number may be one
      higher. If the machine refuses it the second time, the marker goes and whatever the
      first had done stays, even where that is the earlier configuration on the machine
      under the record of the commit. */
  lemma RollBackWhole(schema: Schema, d: Disk, m: Memory, c: Context, k: nat, later: Context)
    requires DiskOk(d, c.now) && OnRecord(d) == (m.generation, m.running)
    requires m.pending.Some? && d.marker == m.pending && m.pending.value.Expired(c.now)
    requires k < |RollBack(m, c.applies).1| && c.now <= later.now
    ensures var stopped := PerformAll(d, RollBack(m, c.applies).1[..k]);
            var whole := PerformAll(d, RollBack(m, true).1);
            var (after, ws) := Restart(schema, stopped, later);
            var end := PerformAll(stopped, ws);
            && stopped == RolledBackTo(d, m, k) && whole == RolledBackTo(d, m, 3)
            && after.pending.None? && !after.timer && (after.generation, after.running) == OnRecord(end)
            && (later.applies ==>
                  && end == whole.(recorded := end.recorded) && OnRecord(end).1 == OnRecord(whole).1
                  && OnRecord(end).0 == m.generation + if k == 2 then 2 else 1)
            && (!later.applies ==> end == RolledBackTo(d, m, k).(marker := None))
  {
    var p := m.pending.value;
    if c.applies { RollBackStops(d, m, k); }
    RollBackStops(d, m, 3);
    assert RollBack(m, true).1[..3] == RollBack(m, true).1;
    PendingIsNumbered(d, c.now);
    var stopped := RolledBackTo(d, m, k);
    var again := Recover(stopped).(pending := Some(p));
    var (resumed, ws) := RollBack(again, later.applies);
    assert Resume(Recover(stopped), stopped, later) == (resumed, ws);
    BootOnlyOnBoot(schema, resumed, stopped, later);
    assert ws + [] == ws;
    assert Restart(schema, stopped, later) == (resumed, ws);
    if later.applies {
      RollBackStops(stopped, again, 3);
      assert ws[..3] == ws;
    } else {
      PerformOne(stopped, Disarm);
    }
  }

  /** Restarting inside the window writes nothing. */
  lemma StartKeepsMarker(schema: Schema, s: System, e: Event)
    requires Inv(s) && Enabled(schema, s, e) && e.action == Start
    requires s.disk.marker.Some? && !s.disk.marker.value.Expired(e.context.now)
    ensures Next(schema, s, e).disk == s.disk
  {
    hide Next, Enabled, DiskOk, Boot, RollBack;
    EnabledPrefix(schema, s, e);
    NextDisk(schema, s, e);
    PendingIsNumbered(s.disk, s.now);
    BootOnlyOnBoot(schema, Resume(Recover(s.disk), s.disk, e.context).0, s.disk, e.context);
    assert Performed(schema, s, e) == [];
  }

  /** Firing, and restarting after the deadline, both come down to a rollback. */
  lemma UndoIsRollBack(schema: Schema, s: System, e: Event)
    requires Inv(s) && Enabled(schema, s, e) && s.disk.marker.Some? && Next(schema, s, e).disk.marker.None?
    requires !e.action.Ask?
    ensures s.disk.marker.value.Expired(e.context.now)
    ensures exists m: Memory :: m.pending == s.disk.marker && m.generation == Current(s).0
                             && Effect(schema, s, e).1 == RollBack(m, e.context.applies).1
  {
    hide Next, Enabled, DiskOk, Boot, RollBack;
    var p := s.disk.marker.value;
    EnabledPrefix(schema, s, e);
    NextDisk(schema, s, e);
    if e.action == Fire {
      FiredLate(schema, s, e);
      assert Effect(schema, s, e).1 == RollBack(s.memory, e.context.applies).1;
    } else {
      var m := Recover(s.disk).(pending := Some(p));
      var resumed := Resume(Recover(s.disk), s.disk, e.context).0;
      PendingIsNumbered(s.disk, s.now);
      RollBackNumbers(m, e.context.applies);
      BootOnlyOnBoot(schema, resumed, s.disk, e.context);
      if !p.Expired(e.context.now) {
        StartKeepsMarker(schema, s, e);
      }
      var ws := RollBack(m, e.context.applies).1;
      assert ws + [] == ws;
      assert Effect(schema, s, e).1 == ws;
    }
  }

  lemma RollBackNumbers(m: Memory, applies: bool)
    ensures RollBack(m, applies).0.generation >= m.generation
  {
  }

  lemma FiredLate(schema: Schema, s: System, e: Event)
    requires Enabled(schema, s, e) && e.action == Fire
    ensures s.Up? && s.memory.pending.Some? && s.memory.pending.value.Expired(e.context.now)
  {
    hide Effect;
  }

  lemma UndoEnds(schema: Schema, s: System, e: Event)
    requires Inv(s) && Enabled(schema, s, e) && s.disk.marker.Some? && Next(schema, s, e).disk.marker.None?
    requires !e.action.Ask?
    ensures Undone(s, e, Next(schema, s, e), s.disk.marker.value)
  {
    hide Next, Enabled, DiskOk, RollBack, Effect;
    EnabledPrefix(schema, s, e);
    UndoIsRollBack(schema, s, e);
    var m: Memory :| m.pending == s.disk.marker && m.generation == Current(s).0
                     && Effect(schema, s, e).1 == RollBack(m, e.context.applies).1;
    NextDisk(schema, s, e);
    StepInv(schema, s, e);
    CurrentOnRecord(s);
    CurrentOnRecord(Next(schema, s, e));
    var ws := Effect(schema, s, e).1;
    var k := if e.crash.Some? then e.crash.value else |ws|;
    assert ws[..|ws|] == ws;
    MarkerGoesLast(s.disk, m, e.context.applies, k);
    MarkerNumbered(s);
  }

  lemma MarkerNumbered(s: System)
    requires Inv(s) && s.disk.marker.Some?
    ensures Current(s).0 >= s.disk.marker.value.generation
  {
  }

  /** However a pending commit stops pending, it was confirmed or it was undone. */
  lemma PendingEnds(schema: Schema, s: System, e: Event)
    requires Inv(s) && Enabled(schema, s, e) && s.disk.marker.Some? && Next(schema, s, e).disk.marker.None?
    ensures if IsConfirm(e) then Kept(schema, s, e, Next(schema, s, e), s.disk.marker.value)
            else Undone(s, e, Next(schema, s, e), s.disk.marker.value)
  {
    hide Effect, Next, Enabled, Inv, Kept, Undone;
    NextDisk(schema, s, e);
    EnabledPrefix(schema, s, e);
    if !IsConfirm(e) && e.action.Ask? {
      var ws := Performed(schema, s, e);
      if i :| 0 <= i < |ws| && ws[i] == Disarm {
        assert Effect(schema, s, e).1[i] == Disarm;
        DisarmedBy(schema, s, e, i);
      } else {
        NoDisarmKeeps(s.disk, ws);
      }
    } else if IsConfirm(e) {
      ConfirmEnds(schema, s, e);
    } else {
      UndoEnds(schema, s, e);
    }
  }

  // ----- the whole story of one commit -----------------------------------

  /** The run is waiting on one commit from just after step `a` until just before step `z`. */
  ghost predicate Window(ss: seq<System>, a: nat, z: nat) {
    && a + 1 < z < |ss| && ss[a].disk.marker.None? && ss[z].disk.marker.None?
    && forall i :: a < i < z ==> ss[i].disk.marker.Some?
  }

  lemma {:induction false} WindowHolds(schema: Schema, ss: seq<System>, es: seq<Event>, a: nat, z: nat, i: nat)
    requires IsRun(schema, ss, es) && Inv(ss[0]) && Window(ss, a, z) && a < i < z
    ensures ss[i].disk.marker == ss[a + 1].disk.marker
    decreases i
  {
    hide Next, Enabled, Inv;
    if i > a + 1 {
      WindowHolds(schema, ss, es, a, z, i - 1);
      RunInv(schema, ss, es, i - 1);
      assert ss[i - 1 + 1] == Next(schema, ss[i - 1], es[i - 1]);
      MarkerStays(schema, ss[i - 1], es[i - 1]);
    }
  }

  lemma NowMoves(schema: Schema, s: System, e: Event)
    requires Enabled(schema, s, e)
    ensures Next(schema, s, e).now == e.context.now
  {
    hide Effect;
  }

  lemma InTime(s: System)
    requires Inv(s) && s.disk.marker.Some? && (s.Up? || !s.disk.marker.value.Expired(s.now))
    ensures var p := s.disk.marker.value; Current(s) == (p.generation, p.committed) && s.disk.host == p.committed
  {
  }

  /** Over every run: a commit under confirmation is what is running, on record and on the
      machine, for as long as it is pending and its time is not up, which is the minutes
      asked for from when it was asked; it is kept by a confirmation and by nothing else; and undoing
      it brings back the configuration that was current just before it, as long as
      the machine accepts that configuration again. */
  lemma ConfirmOrRollBack(schema: Schema, ss: seq<System>, es: seq<Event>, a: nat, z: nat, i: nat)
    requires IsRun(schema, ss, es) && Inv(ss[0]) && Window(ss, a, z) && a < i < z
    ensures var p := ss[a + 1].disk.marker.value;
            && AskedFor(p, ss[a], es[a]) && p.previous == Current(ss[a]).1
            && (!IsConfirm(es[z - 1]) ==> ss[z].now >= es[a].context.now + 60 * p.minutes)
            && ss[i].disk.marker == Some(p)
            && (ss[i].Up? ==> Current(ss[i]) == (p.generation, p.committed) && ss[i].disk.host == p.committed)
            && (!p.Expired(ss[i].now) ==> Current(ss[i]) == (p.generation, p.committed) && ss[i].disk.host == p.committed)
            && (IsConfirm(es[z - 1]) ==> Kept(schema, ss[z - 1], es[z - 1], ss[z], p))
            && (!IsConfirm(es[z - 1]) ==> Undone(ss[z - 1], es[z - 1], ss[z], p))
            && (!IsConfirm(es[z - 1]) && es[z - 1].context.applies ==>
                  Current(ss[z]).1 == Current(ss[a]).1 && ss[z].disk.host == Current(ss[a]).1)
  {
    hide Next, Enabled, Kept, Inv, Current;
    RunInv(schema, ss, es, a);
    RunInv(schema, ss, es, i);
    RunInv(schema, ss, es, z - 1);
    assert ss[a + 1] == Next(schema, ss[a], es[a]);
    assert ss[z - 1 + 1] == Next(schema, ss[z - 1], es[z - 1]);
    ArmedByCommit(schema, ss[a], es[a]);
    WindowHolds(schema, ss, es, a, z, i);
    WindowHolds(schema, ss, es, a, z, z - 1);
    if ss[i].Up? || !ss[i].disk.marker.value.Expired(ss[i].now) { InTime(ss[i]); }
    PendingEnds(schema, ss[z - 1], es[z - 1]);
    NowMoves(schema, ss[z - 1], es[z - 1]);
  }

  // ----- what is never archived ------------------------------------------

  /** What is archived is a commit of now, or the one whose confirmation is awaited. */
  lemma RecordsNow(schema: Schema, s: System, e: Event)
    requires Inv(s) && Enabled(schema, s, e)
    ensures var ws := Effect(schema, s, e).1;
            forall i :: 0 <= i < |ws| ==> ws[i].Record? ==>
              ws[i].revision.revision > Current(s).0 || (s.disk.marker.Some? && ws[i].revision.revision == s.disk.marker.value.generation)
  {
    hide Curly.Render, Curly.Parse, Diff.Changes, Find, Newest, DiskOk;
  }

  ghost predicate Holds(archive: seq<Revision>, revision: nat) {
    exists i :: 0 <= i < |archive| && archive[i].revision == revision
  }

  lemma {:induction false} PruneSubset(all: seq<Revision>, revision: nat)
    requires Holds(Prune(all), revision)
    ensures Holds(all, revision)
    decreases |all|
  {
    if |all| > KEEP {
      var i := Oldest(all);
      var rest := all[..i] + all[i + 1..];
      PruneSubset(rest, revision);
      var j :| 0 <= j < |rest| && rest[j].revision == revision;
      assert rest[j] == all[if j < i then j else j + 1];
    }
  }

  lemma {:induction false} WritesDoNotArchive(d: Disk, ws: seq<Write>, revision: nat)
    requires forall i :: 0 <= i < |ws| ==> ws[i].Record? ==> ws[i].revision.revision > revision
    requires !Holds(d.archive, revision)
    ensures !Holds(PerformAll(d, ws).archive, revision)
    decreases |ws|
  {
    if ws != [] {
      var d1 := Perform(d, ws[0]);
      if Holds(d1.archive, revision) {
        PruneSubset(d.archive + [ws[0].revision], revision);
      }
      WritesDoNotArchive(d1, ws[1..], revision);
    }
  }

  /** The number is not archived, and no commit that is pending or still to come has it. */
  ghost predicate Gone(s: System, revision: nat) {
    && Current(s).0 >= revision && !Holds(s.disk.archive, revision)
    && (s.disk.marker.Some? ==> s.disk.marker.value.generation > revision)
  }

  lemma GoneStep(schema: Schema, s: System, e: Event, revision: nat)
    requires Inv(s) && Enabled(schema, s, e) && Gone(s, revision)
    ensures Gone(Next(schema, s, e), revision)
  {
    hide Next, Enabled, Inv, Current, Holds, Effect;
    StepRises(schema, s, e);
    NextDisk(schema, s, e);
    EnabledPrefix(schema, s, e);
    RecordsNow(schema, s, e);
    WritesDoNotArchive(s.disk, Performed(schema, s, e), revision);
    if Next(schema, s, e).disk.marker.Some? {
      if s.disk.marker.Some? {
        MarkerStays(schema, s, e);
      } else {
        ArmedAbove(schema, s, e);
      }
    }
  }

  lemma ArmedAbove(schema: Schema, s: System, e: Event)
    requires Inv(s) && Enabled(schema, s, e) && s.disk.marker.None? && Next(schema, s, e).disk.marker.Some?
    ensures Next(schema, s, e).disk.marker.value.generation > Current(s).0
  {
    hide Next, Enabled, Effect;
    ArmedByCommit(schema, s, e);
    StepInv(schema, s, e);
  }

  lemma {:induction false} StaysUnarchived(schema: Schema, ss: seq<System>, es: seq<Event>, z: nat, t: nat,
                              revision: nat)
    requires IsRun(schema, ss, es) && Inv(ss[0]) && z <= t < |ss| && Gone(ss[z], revision)
    ensures Gone(ss[t], revision)
    decreases t
  {
    hide Next, Enabled, Inv, Gone;
    if z < t {
      StaysUnarchived(schema, ss, es, z, t - 1, revision);
      RunInv(schema, ss, es, t - 1);
      assert ss[t - 1 + 1] == Next(schema, ss[t - 1], es[t - 1]);
      GoneStep(schema, ss[t - 1], es[t - 1], revision);
    }
  }

  /** A commit that was pending and was not confirmed, whether the rollback took or the
      machine refused it, was never a revision, then or ever after. */
  lemma RolledBackNeverArchived(schema: Schema, ss: seq<System>, es: seq<Event>, a: nat, z: nat, t: nat)
    requires IsRun(schema, ss, es) && Inv(ss[0]) && Window(ss, a, z) && z <= t < |ss|
    requires !IsConfirm(es[z - 1])
    ensures !Holds(ss[t].disk.archive, ss[a + 1].disk.marker.value.generation)
  {
    hide Next, Enabled, DiskOk, Current;
    var revision := ss[a + 1].disk.marker.value.generation;
    ConfirmOrRollBack(schema, ss, es, a, z, z - 1);
    RunInv(schema, ss, es, z - 1);
    ArchiveBelow(ss[z - 1]);
    MarkerNumbered(ss[z - 1]);
    StaysUnarchived(schema, ss, es, z, t, revision);
  }

  // ----- where the protection starts -------------------------------------

  function CommitCrash(id: SessionId, comment: Option<string>, minutes: nat, c: Context, k: nat): Event {
    Event(Ask(Use(id, Commit(comment, Some(minutes)))), c, Some(k))
  }

  /** A commit that asked to be confirmed and crashed after `k` of its four writes: the
      machine has the change from the first write on, but only the last one leaves
      anything that would ever undo it. */
  lemma CrashWindow(schema: Schema, s: System, id: SessionId, comment: Option<string>, minutes: nat, c: Context, k: nat)
    requires Inv(s) && CommitsChange(schema, s, id, comment, Some(minutes), c) && c.now >= s.now && k <= 4
    ensures Enabled(schema, s, CommitCrash(id, comment, minutes, c, k))
    ensures var after := Next(schema, s, CommitCrash(id, comment, minutes, c, k)).disk;
            var candidate := s.memory.sessions[id].candidate;
            && (after.marker.Some? <==> k == 4)
            && (after.host == candidate || (k == 0 && after.host == s.disk.host))
            && OnRecord(after) == if k >= 2 then (s.memory.generation + 1, candidate) else OnRecord(s.disk)
  {
    CommitNeedsLevel(schema, s, id, comment, Some(minutes), c);
    var e := CommitCrash(id, comment, minutes, c, k);
    var o := DoCommit(schema, s.memory, id, comment, Some(minutes), c);
    assert o.writes != [] by { ChangingCommitWrites(schema, s.memory, id, comment, minutes, c); }
    assert Effect(schema, s, e).1 == o.writes;
    CommitShape(schema, s.memory, id, comment, Some(minutes), c);
    hide DoCommit, HistoryOk;
    var candidate, level := s.memory.sessions[id].candidate, s.memory.sessions[id].(base := s.memory.generation + 1);
    var apply, save, keep := ApplyHost(candidate), SaveRunning(level.base, candidate), SaveSession(id, level);
    if k == 1 {
      assert o.writes[..1] == [apply];
      PerformOne(s.disk, apply);
    } else if k == 2 {
      assert o.writes[..2] == [apply, save];
      PerformTwo(s.disk, apply, save);
    } else if k == 3 {
      assert o.writes[..3] == [apply, save, keep];
      PerformThree(s.disk, apply, save, keep);
    } else if k == 4 {
      assert o.writes[..4] == [apply, save, keep, o.writes[3]];
      PerformFour(s.disk, apply, save, keep, o.writes[3]);
    }
  }

  lemma ChangingCommitWrites(schema: Schema, m: Memory, id: SessionId, comment: Option<string>, minutes: nat,
                             c: Context)
    requires Owned(m, id, c.uid)
    requires var r := DoCommit(schema, m, id, comment, Some(minutes), c).response; r.Committed? && r.changed
    ensures DoCommit(schema, m, id, comment, Some(minutes), c).writes != []
  {
    hide Curly.Render, Newest, Diff.Changes;
  }
}
