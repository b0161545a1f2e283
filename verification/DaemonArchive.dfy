/** What the archive and the saved configuration hold, over whole runs. */
module DaemonArchive {
  import opened Wrappers
  import opened Config
  import opened Daemon
  import opened DaemonInvariant
  import opened DaemonRuns
  import opened DaemonConfirm
  import Curly
  import CurlyDepth
  import Diff

  function Records(ws: seq<Write>): seq<Revision> {
    if ws == [] then []
    else (if ws[0].Record? then [ws[0].revision] else []) + Records(ws[1..])
  }

  /** Every revision written in the first `j` events of a run, in order. */
  function Written(schema: Schema, ss: seq<System>, es: seq<Event>, j: nat): seq<Revision>
    requires j <= |es| && |ss| == |es| + 1
    requires forall i :: 0 <= i < |es| ==> Enabled(schema, ss[i], es[i])
  {
    if j == 0 then [] else Written(schema, ss, es, j - 1) + Records(Performed(schema, ss[j - 1], es[j - 1]))
  }

  lemma {:induction false} RecordsNone(ws: seq<Write>)
    requires forall i :: 0 <= i < |ws| ==> !ws[i].Record?
    ensures Records(ws) == []
  {
    if ws != [] { RecordsNone(ws[1..]); }
  }

  lemma {:induction false} RecordsOne(ws: seq<Write>, k: nat)
    requires k < |ws| && ws[k].Record? && forall i :: 0 <= i < |ws| && i != k ==> !ws[i].Record?
    ensures Records(ws) == [ws[k].revision]
  {
    if k == 0 { RecordsNone(ws[1..]); } else { RecordsOne(ws[1..], k - 1); }
  }

  /** The numbers of revisions still to come start here. */
  function NextNumber(s: System): nat {
    if s.disk.marker.Some? then s.disk.marker.value.generation else OnRecord(s.disk).0 + 1
  }

  lemma {:induction false} ArchiveUnwritten(d: Disk, ws: seq<Write>)
    requires forall i :: 0 <= i < |ws| ==> !ws[i].Record?
    ensures PerformAll(d, ws).archive == d.archive
    decreases |ws|
  {
    if ws != [] { ArchiveUnwritten(Perform(d, ws[0]), ws[1..]); }
  }

  lemma {:induction false} PerformConcat(d: Disk, a: seq<Write>, b: seq<Write>)
    ensures PerformAll(d, a + b) == PerformAll(PerformAll(d, a), b)
    decreases |a|
  {
    if a == [] {
      assert a + b == b;
    } else {
      assert (a + b)[1..] == a[1..] + b;
      PerformConcat(Perform(d, a[0]), a[1..], b);
    }
  }

  /** A revision is the last of an event's writes, and the only one. */
  lemma RecordIsLast(schema: Schema, s: System, e: Event, k: nat)
    requires Enabled(schema, s, e) && k < |Effect(schema, s, e).1| && Effect(schema, s, e).1[k].Record?
    ensures var ws := Effect(schema, s, e).1;
            k == |ws| - 1 && forall i :: 0 <= i < k ==> !ws[i].Record?
    ensures s.Up? && e.action.Ask? && e.action.request.Use?
    ensures e.action.request.operation.Commit? || e.action.request.operation.Confirm?
  {
    hide Curly.Render, Curly.Parse, Diff.Changes, Find, Newest;
  }

  /** A revision is written under the number of what is then current, with its text. */
  lemma RecordIsCurrent(schema: Schema, s: System, e: Event, k: nat)
    requires Inv(s) && Enabled(schema, s, e) && k < |Performed(schema, s, e)| && Performed(schema, s, e)[k].Record?
    ensures var r := Performed(schema, s, e)[k].revision;
            var (generation, config) := Current(Next(schema, s, e));
            && r.revision == generation == NextNumber(s) && r.text == Curly.Render(config, schema.tags)
            && Next(schema, s, e).disk.marker.None?
  {
    hide Curly.Render, Curly.Parse, Diff.Changes, Find, Newest, Next, Enabled, Effect, DiskOk, Prune;
    EnabledPrefix(schema, s, e);
    RecordIsLast(schema, s, e, k);
    NextDisk(schema, s, e);
    StepInv(schema, s, e);
    CurrentOnRecord(s);
    CurrentOnRecord(Next(schema, s, e));
    var ws := Effect(schema, s, e).1;
    assert Performed(schema, s, e) == ws by { assert ws[..|ws|] == ws; }
    if e.action.request.operation.Commit? {
      CommitRecords(schema, s, e, k);
    } else {
      ConfirmRecords(schema, s, e, k);
    }
  }

  lemma CommitRecords(schema: Schema, s: System, e: Event, k: nat)
    requires Inv(s) && Enabled(schema, s, e) && s.Up? && e.action.Ask? && e.action.request.Use?
    requires e.action.request.operation.Commit?
    requires var ws := Effect(schema, s, e).1; k == |ws| - 1 && ws[k].Record?
    ensures var ws := Effect(schema, s, e).1;
            var d := PerformAll(s.disk, ws);
            && s.disk.marker.None? && d.marker.None?
            && ws[k].revision.revision == OnRecord(d).0 == OnRecord(s.disk).0 + 1
            && ws[k].revision.text == Curly.Render(OnRecord(d).1, schema.tags)
  {
    hide Curly.Render, Diff.Changes, Newest, DiskOk, Prune;
    var m := s.memory;
    var id := e.action.request.id;
    var op := e.action.request.operation;
    assert Effect(schema, s, e).1 == DoCommit(schema, m, id, op.comment, op.minutes, e.context).writes;
    var candidate := m.sessions[id].candidate;
    var level := m.sessions[id].(base := m.generation + 1);
    var last := Effect(schema, s, e).1[k];
    assert Effect(schema, s, e).1 == [ApplyHost(candidate), SaveRunning(level.base, candidate), SaveSession(id, level)] + [last];
    PerformConcat(s.disk, [ApplyHost(candidate), SaveRunning(level.base, candidate), SaveSession(id, level)], [last]);
    PerformThree(s.disk, ApplyHost(candidate), SaveRunning(level.base, candidate), SaveSession(id, level));
    PerformOne(PerformAll(s.disk, [ApplyHost(candidate), SaveRunning(level.base, candidate), SaveSession(id, level)]), last);
  }

  lemma ConfirmRecords(schema: Schema, s: System, e: Event, k: nat)
    requires Inv(s) && Enabled(schema, s, e) && s.Up? && IsConfirm(e)
    requires var ws := Effect(schema, s, e).1; k == |ws| - 1 && ws[k].Record?
    ensures var ws := Effect(schema, s, e).1;
            var d := PerformAll(s.disk, ws);
            && s.disk.marker.Some? && d.marker.None?
            && ws[k].revision.revision == OnRecord(d).0 == s.disk.marker.value.generation
            && ws[k].revision.text == Curly.Render(OnRecord(d).1, schema.tags)
  {
    hide Curly.Render, DiskOk, Prune;
    var last := Effect(schema, s, e).1[k];
    assert Effect(schema, s, e).1 == DoConfirm(schema, s.memory, e.context).writes == [Disarm, last];
    PerformTwo(s.disk, Disarm, last);
  }

  lemma NumbersAdvance(schema: Schema, s: System, e: Event)
    requires Inv(s) && Enabled(schema, s, e)
    ensures NextNumber(Next(schema, s, e)) >= NextNumber(s)
  {
    hide Next, Enabled, Effect, DiskOk;
    var after := Next(schema, s, e);
    StepRises(schema, s, e);
    StepInv(schema, s, e);
    CurrentOnRecord(s);
    CurrentOnRecord(after);
    if s.disk.marker.Some? {
      MarkerNumbered(s);
      MarkerStays(schema, s, e);
    } else if after.disk.marker.Some? {
      ArmedByCommit(schema, s, e);
      MarkerFollows(after);
    }
  }

  lemma MarkerFollows(s: System)
    requires Inv(s) && s.disk.marker.Some?
    ensures s.disk.marker.value.generation == s.disk.marker.value.previousGeneration + 1
  {
  }

  lemma KeepAfterKeep(all: seq<Revision>, r: Revision)
    ensures LastKept(LastKept(all) + [r]) == LastKept(all + [r])
  {
    if |all| > KEEP {
      assert (all[|all| - KEEP..] + [r])[1..] == (all + [r])[|all| + 1 - KEEP..];
    }
  }

  lemma LastRecords(d: Disk, ws: seq<Write>, k: nat)
    requires k + 1 == |ws| && ws[k].Record? && forall i :: 0 <= i < k ==> !ws[i].Record?
    ensures Records(ws) == [ws[k].revision] && PerformAll(d, ws).archive == Prune(d.archive + [ws[k].revision])
  {
    hide PerformAll, Prune, Records;
    var front, last := ws[..k], Record(ws[k].revision);
    RecordsOne(ws, k);
    assert ws == front + [last];
    PerformConcat(d, front, [last]);
    ArchiveUnwritten(d, front);
    PerformOne(PerformAll(d, front), last);
  }

  lemma PerformedLast(schema: Schema, s: System, e: Event, k: nat)
    requires Inv(s) && Enabled(schema, s, e)
    requires var ws := Performed(schema, s, e); k < |ws| && ws[k].Record?
    ensures var ws := Performed(schema, s, e); k + 1 == |ws| && forall i :: 0 <= i < k ==> !ws[i].Record?
  {
    hide Next, Enabled, Effect, Inv;
    EnabledPrefix(schema, s, e);
    assert Effect(schema, s, e).1[k] == Performed(schema, s, e)[k];
    RecordIsLast(schema, s, e, k);
  }

  /** The write that archives is the last one. */
  lemma RecordingWrites(schema: Schema, s: System, e: Event, k: nat)
    requires Inv(s) && Enabled(schema, s, e)
    requires var ws := Performed(schema, s, e); k < |ws| && ws[k].Record?
    ensures var r := Performed(schema, s, e)[k].revision;
            && Records(Performed(schema, s, e)) == [r] && Next(schema, s, e).disk.archive == Prune(s.disk.archive + [r])
  {
    hide Next, Enabled, Effect, Inv, Prune, PerformAll, Records, Performed;
    NextDisk(schema, s, e);
    PerformedLast(schema, s, e, k);
    LastRecords(s.disk, Performed(schema, s, e), k);
  }

  lemma RecordingStep(schema: Schema, s: System, e: Event, all: seq<Revision>, k: nat)
    requires Inv(s) && Enabled(schema, s, e)
    requires Increasing(all) && AllBelow(all, NextNumber(s)) && s.disk.archive == LastKept(all)
    requires var ws := Performed(schema, s, e); k < |ws| && ws[k].Record?
    ensures var more := all + Records(Performed(schema, s, e));
            && Increasing(more) && AllBelow(more, NextNumber(Next(schema, s, e)))
            && Next(schema, s, e).disk.archive == LastKept(more)
  {
    hide Next, Enabled, Effect, Inv, LastKept, NextNumber, Prune, Performed, Increasing, AllBelow, Records;
    RecordingWrites(schema, s, e, k);
    RecordIsCurrent(schema, s, e, k);
    AfterRecord(schema, s, e);
    JoinsKept(all, Performed(schema, s, e)[k].revision, NextNumber(s));
  }

  lemma JoinsKept(all: seq<Revision>, r: Revision, bound: nat)
    requires Increasing(all) && AllBelow(all, bound) && bound <= r.revision
    ensures Increasing(all + [r]) && AllBelow(all + [r], r.revision + 1)
    ensures Prune(LastKept(all) + [r]) == LastKept(all + [r])
  {
    hide LastKept, Prune;
    KeptSound(all);
    KeptBelow(all, r.revision);
    RecordKeeps(LastKept(all), r);
    KeepAfterKeep(all, r);
  }

  /** One event adds at most one revision, numbered above all before it. */
  lemma ArchiveStep(schema: Schema, s: System, e: Event, all: seq<Revision>)
    requires Inv(s) && Enabled(schema, s, e)
    requires Increasing(all) && AllBelow(all, NextNumber(s)) && s.disk.archive == LastKept(all)
    ensures var more := all + Records(Performed(schema, s, e));
            && Increasing(more) && AllBelow(more, NextNumber(Next(schema, s, e)))
            && Next(schema, s, e).disk.archive == LastKept(more)
  {
    hide Next, Enabled, Effect, Inv, LastKept, NextNumber, Prune, Performed, PerformAll;
    var ws := Performed(schema, s, e);
    NextDisk(schema, s, e);
    NumbersAdvance(schema, s, e);
    if k :| 0 <= k < |ws| && ws[k].Record? {
      RecordingStep(schema, s, e, all, k);
    } else {
      RecordsNone(ws);
      ArchiveUnwritten(s.disk, ws);
      assert all + [] == all;
    }
  }

  lemma AfterRecord(schema: Schema, s: System, e: Event)
    requires Inv(s) && Enabled(schema, s, e) && Next(schema, s, e).disk.marker.None?
    ensures NextNumber(Next(schema, s, e)) == Current(Next(schema, s, e)).0 + 1
  {
    hide Next, Enabled;
    StepInv(schema, s, e);
    CurrentOnRecord(Next(schema, s, e));
  }

  lemma KeptSound(all: seq<Revision>)
    requires Increasing(all)
    ensures Increasing(LastKept(all))
  {
  }

  lemma KeptBelow(all: seq<Revision>, bound: nat)
    requires AllBelow(all, bound)
    ensures AllBelow(LastKept(all), bound)
  {
  }

  lemma {:induction false} ArchiveHolds(schema: Schema, ss: seq<System>, es: seq<Event>, j: nat)
    requires IsRun(schema, ss, es) && Initial(ss[0]) && j < |ss|
    ensures var all := Written(schema, ss, es, j);
            Increasing(all) && AllBelow(all, NextNumber(ss[j])) && ss[j].disk.archive == LastKept(all)
  {
    hide Next, Enabled, Inv, Records, Effect;
    InitialInv(ss[0]);
    if j > 0 {
      ArchiveHolds(schema, ss, es, j - 1);
      RunInv(schema, ss, es, j - 1);
      assert ss[j - 1 + 1] == Next(schema, ss[j - 1], es[j - 1]);
      ArchiveStep(schema, ss[j - 1], es[j - 1], Written(schema, ss, es, j - 1));
    }
  }

  /** Over every run since a reboot with an empty archive: revisions are written in
      strictly rising order, each once, and the archive holds exactly the newest
      fifty of them. */
  lemma ArchiveIsNewest(schema: Schema, ss: seq<System>, es: seq<Event>, j: nat)
    requires IsRun(schema, ss, es) && Initial(ss[0]) && j < |ss|
    ensures Increasing(Written(schema, ss, es, j))
    ensures ss[j].disk.archive == LastKept(Written(schema, ss, es, j))
    ensures |ss[j].disk.archive| <= KEEP
  {
    hide Next, Enabled, Written;
    ArchiveHolds(schema, ss, es, j);
  }

  /** Each of those revisions is the text of what was current under its number. */
  lemma {:induction false} WrittenFaithful(schema: Schema, ss: seq<System>, es: seq<Event>, j: nat, k: nat)
    requires IsRun(schema, ss, es) && Inv(ss[0]) && j < |ss| && k < |Written(schema, ss, es, j)|
    ensures var r := Written(schema, ss, es, j)[k];
            exists i :: 0 <= i <= j && Current(ss[i]).0 == r.revision && r.text == Curly.Render(Current(ss[i]).1, schema.tags)
    decreases j
  {
    hide Next, Enabled, Inv, Effect, Curly.Render;
    var before := Written(schema, ss, es, j - 1);
    if k < |before| {
      WrittenFaithful(schema, ss, es, j - 1, k);
    } else {
      var ws := Performed(schema, ss[j - 1], es[j - 1]);
      RunInv(schema, ss, es, j - 1);
      assert ss[j - 1 + 1] == Next(schema, ss[j - 1], es[j - 1]);
      RecordsCome(ws, k - |before|);
      var n :| 0 <= n < |ws| && ws[n].Record? && ws[n].revision == Records(ws)[k - |before|];
      RecordIsCurrent(schema, ss[j - 1], es[j - 1], n);
    }
  }

  lemma {:induction false} RecordsCome(ws: seq<Write>, k: nat)
    requires k < |Records(ws)|
    ensures exists n :: 0 <= n < |ws| && ws[n].Record? && ws[n].revision == Records(ws)[k]
  {
    if ws[0].Record? && k == 0 {
    } else {
      RecordsCome(ws[1..], if ws[0].Record? then k - 1 else k);
      var n :| 0 <= n < |ws[1..]| && ws[1..][n].Record? && ws[1..][n].revision == Records(ws[1..])[if ws[0].Record? then k - 1 else k];
      assert ws[n + 1] == ws[1..][n];
    }
  }

  /** Reading an archived revision gives back the configuration that number named,
      for every run and every state of it, when that configuration's braces are
      within the parser's reach and its root carries no comment. */
  lemma ArchiveReadsBack(schema: Schema, ss: seq<System>, es: seq<Event>, j: nat, k: nat, i: nat)
    requires IsRun(schema, ss, es) && Initial(ss[0]) && i <= j < |ss| && k < |ss[j].disk.archive|
    requires Current(ss[i]).0 == ss[j].disk.archive[k].revision && Current(ss[i]).1.IsInterior()
    ensures var config := Current(ss[i]).1;
            && ss[j].disk.archive[k].text == Curly.Render(config, schema.tags)
            && (Curly.Parse(ss[j].disk.archive[k].text) == Ok(config) <==>
                  config.comment.None? && Curly.Nesting(config, schema.tags) <= Curly.MAX_DEPTH)
  {
    hide Next, Enabled, Inv, Written, Curly.Render, Curly.Parse, Curly.Nesting;
    InitialInv(ss[0]);
    ArchiveHolds(schema, ss, es, j);
    var all := Written(schema, ss, es, j);
    var n := if |all| > KEEP then |all| - KEEP + k else k;
    assert ss[j].disk.archive[k] == all[n];
    WrittenFaithful(schema, ss, es, j, n);
    var h :| 0 <= h <= j && Current(ss[h]).0 == all[n].revision && all[n].text == Curly.Render(Current(ss[h]).1, schema.tags);
    if h <= i { GenerationNamesOne(schema, ss, es, h, i); } else { GenerationNamesOne(schema, ss, es, i, h); }
    CurlyDepth.RoundTripIff(Current(ss[i]).1, schema.tags);
  }

  function CandidateOf(m: Memory, id: SessionId): Option<Node> {
    if id in m.sessions then Some(m.sessions[id].candidate) else None
  }

  /** Saving and loading back makes the candidate what is running -- exactly when the
      text can be read back, given that what is running is valid. */
  lemma SaveThenLoad(schema: Schema, m: Memory, d: Disk, id: SessionId, c: Context)
    requires Owned(m, id, c.uid) && m.running.IsInterior() && schema.validTree(m.running)
    ensures var saved := PerformAll(d, Handle(schema, m, d, Save, c).writes);
            var o := Handle(schema, m, saved, Use(id, Load(Saved)), c);
            (o.response == Done && CandidateOf(o.memory, id) == Some(m.running)) <==>
            (m.running.comment.None? && Curly.Nesting(m.running, schema.tags) <= Curly.MAX_DEPTH)
  {
    hide Curly.Render, Curly.Parse, Curly.Nesting, Diff.Changes;
    PerformOne(d, SaveBoot(Curly.Render(m.running, schema.tags)));
    CurlyDepth.RoundTripIff(m.running, schema.tags);
  }
}
