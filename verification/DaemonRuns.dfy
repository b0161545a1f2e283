/** What holds over whole runs of the daemon, crashes and restarts included. */
module DaemonRuns {
  import opened Wrappers
  import opened Config
  import opened Daemon
  import opened DaemonInvariant
  import Curly
  import Diff

  /** The generation and configuration the daemon would answer with, or come back with. */
  function Current(s: System): (nat, Node) {
    if s.Up? then (s.memory.generation, s.memory.running) else OnRecord(s.disk)
  }

  lemma CurrentOnRecord(s: System)
    requires Inv(s)
    ensures Current(s) == OnRecord(s.disk)
  {
    hide DiskOk;
  }

  // ----- the writes of one event -----------------------------------------

  function Performed(schema: Schema, s: System, e: Event): seq<Write>
    requires Enabled(schema, s, e)
  {
    var ws := Effect(schema, s, e).1;
    if e.crash.Some? then ws[..e.crash.value] else ws
  }

  lemma NextDisk(schema: Schema, s: System, e: Event)
    requires Enabled(schema, s, e)
    ensures Next(schema, s, e).disk == PerformAll(s.disk, Performed(schema, s, e))
    ensures Next(schema, s, e).Up? <==> e.crash.None?
    ensures Next(schema, s, e).Up? ==> Next(schema, s, e).memory == Effect(schema, s, e).0
  {
    hide Effect;
  }

  /** Every configuration recorded takes a new, higher number. */
  ghost predicate Rising(ws: seq<Write>, bound: nat) {
    forall i :: 0 <= i < |ws| ==> ws[i].SaveRunning? ==> ws[i].generation > bound
  }

  lemma HandleRises(schema: Schema, m: Memory, d: Disk, r: Request, c: Context)
    ensures Rising(Handle(schema, m, d, r, c).writes, m.generation)
  {
    hide Curly.Render, Curly.Parse, Newest, Diff.Changes, Find;
  }

  lemma RestartRises(schema: Schema, d: Disk, c: Context)
    ensures Rising(Restart(schema, d, c).1, OnRecord(d).0)
  {
    hide Curly.Parse;
  }

  lemma EffectRises(schema: Schema, s: System, e: Event)
    requires Inv(s) && Enabled(schema, s, e)
    ensures Rising(Effect(schema, s, e).1, OnRecord(s.disk).0)
  {
    hide Handle, Restart, DiskOk;
    match e.action
    case Ask(request) => HandleRises(schema, s.memory, s.disk, request, e.context);
    case Fire =>
    case Start => RestartRises(schema, s.disk, e.context);
  }

  lemma {:induction false} RecordRises(d: Disk, ws: seq<Write>, bound: nat)
    requires Rising(ws, bound)
    ensures OnRecord(PerformAll(d, ws)) == OnRecord(d) || OnRecord(PerformAll(d, ws)).0 > bound
    decreases |ws|
  {
    if ws != [] {
      var d1 := Perform(d, ws[0]);
      assert ws[0].SaveRunning? ==> OnRecord(d1).0 > bound;
      RecordRises(d1, ws[1..], bound);
    }
  }

  // ----- a generation names one configuration ----------------------------

  lemma StepRises(schema: Schema, s: System, e: Event)
    requires Inv(s) && Enabled(schema, s, e)
    ensures Current(Next(schema, s, e)) == Current(s) || Current(Next(schema, s, e)).0 > Current(s).0
  {
    hide Effect, Next, Enabled, Inv, Rising, Current;
    EffectRises(schema, s, e);
    NextDisk(schema, s, e);
    StepInv(schema, s, e);
    CurrentOnRecord(s);
    CurrentOnRecord(Next(schema, s, e));
    var bound := OnRecord(s.disk).0;
    EnabledPrefix(schema, s, e);
    RisingPrefix(Effect(schema, s, e).1, bound, if e.crash.Some? then e.crash.value else |Effect(schema, s, e).1|);
    assert Effect(schema, s, e).1[..|Effect(schema, s, e).1|] == Effect(schema, s, e).1;
    RecordRises(s.disk, Performed(schema, s, e), bound);
  }

  lemma EnabledPrefix(schema: Schema, s: System, e: Event)
    requires Enabled(schema, s, e)
    ensures s.Up? <==> !e.action.Start?
    ensures e.crash.Some? ==> e.crash.value <= |Effect(schema, s, e).1|
  {
    hide Effect;
  }

  lemma RisingPrefix(ws: seq<Write>, bound: nat, k: nat)
    requires Rising(ws, bound) && k <= |ws|
    ensures Rising(ws[..k], bound)
  {
  }

  /** Over every run, crashes and restarts included, generations never go back and
      one generation never names two configurations. */
  lemma {:induction false} GenerationNamesOne(schema: Schema, ss: seq<System>, es: seq<Event>, i: nat, j: nat)
    requires IsRun(schema, ss, es) && Inv(ss[0]) && i <= j < |ss|
    ensures Current(ss[i]).0 <= Current(ss[j]).0
    ensures Current(ss[i]).0 == Current(ss[j]).0 ==> Current(ss[i]).1 == Current(ss[j]).1
    decreases j - i
  {
    hide Current, Next, Enabled, Inv;
    if i < j {
      GenerationNamesOne(schema, ss, es, i, j - 1);
      RunInv(schema, ss, es, j - 1);
      assert ss[j - 1 + 1] == Next(schema, ss[j - 1], es[j - 1]);
      StepRises(schema, ss[j - 1], es[j - 1]);
    }
  }

  // ----- no lost updates -------------------------------------------------

  ghost predicate CommitsChange(schema: Schema, s: System, id: SessionId, comment: Option<string>,
                                minutes: Option<nat>, c: Context) {
    && s.Up?
    && var r := Handle(schema, s.memory, s.disk, Use(id, Commit(comment, minutes)), c).response;
       r.Committed? && r.changed
  }

  lemma CommitNeedsLevel(schema: Schema, s: System, id: SessionId, comment: Option<string>, minutes: Option<nat>,
                         c: Context)
    requires CommitsChange(schema, s, id, comment, minutes, c)
    ensures s.Up? && id in s.memory.sessions && s.memory.sessions[id].base == s.memory.generation
    ensures s.memory.sessions[id].uid == c.uid && s.memory.pending.None?
    ensures schema.validTree(s.memory.sessions[id].candidate) && schema.constraints(s.memory.sessions[id].candidate)
  {
    hide Curly.Render, Newest, Diff.Changes;
  }

  /** Whether an event is a request to open or use session `id`. */
  predicate Concerns(e: Event, id: SessionId) {
    e.action.Ask? && (e.action.request.OpenSession? || e.action.request.Use?) && e.action.request.id == id
  }

  lemma RequestTouchesOwn(schema: Schema, m: Memory, d: Disk, r: Request, c: Context, id: SessionId)
    requires !((r.OpenSession? || r.Use?) && r.id == id)
    ensures var ws := Handle(schema, m, d, r, c).writes;
            forall i :: 0 <= i < |ws| ==> (ws[i].SaveSession? || ws[i].ForgetSession?) ==> ws[i].id != id
  {
    hide Curly.Render, Curly.Parse, Newest, Diff.Changes, Find;
  }

  lemma RestartTouchesNone(schema: Schema, d: Disk, c: Context)
    ensures var ws := Restart(schema, d, c).1; forall i :: 0 <= i < |ws| ==> !ws[i].SaveSession? && !ws[i].ForgetSession?
  {
    hide Curly.Parse;
  }

  lemma EffectTouchesOwn(schema: Schema, s: System, e: Event, id: SessionId)
    requires Enabled(schema, s, e) && !Concerns(e, id)
    ensures var ws := Effect(schema, s, e).1;
            forall i :: 0 <= i < |ws| ==> (ws[i].SaveSession? || ws[i].ForgetSession?) ==> ws[i].id != id
  {
    hide Handle, Restart;
    match e.action
    case Ask(request) => RequestTouchesOwn(schema, s.memory, s.disk, request, e.context, id);
    case Fire =>
    case Start => RestartTouchesNone(schema, s.disk, e.context);
  }

  lemma {:induction false} WritesTouchOwn(d: Disk, ws: seq<Write>, id: SessionId)
    requires forall i :: 0 <= i < |ws| ==> (ws[i].SaveSession? || ws[i].ForgetSession?) ==> ws[i].id != id
    ensures id in PerformAll(d, ws).sessions <==> id in d.sessions
    ensures id in d.sessions ==> PerformAll(d, ws).sessions[id] == d.sessions[id]
    decreases |ws|
  {
    if ws != [] { WritesTouchOwn(Perform(d, ws[0]), ws[1..], id); }
  }

  function SessionOf(s: System, id: SessionId): Option<Session> {
    var sessions := if s.Up? then s.memory.sessions else s.disk.sessions;
    if id in sessions then Some(sessions[id]) else None
  }

  /** Nothing but its owner's own requests changes a session: not other operators'
      requests, not a rollback, not a crash or a restart. */
  lemma SessionUntouched(schema: Schema, s: System, e: Event, id: SessionId)
    requires Inv(s) && Enabled(schema, s, e) && !Concerns(e, id)
    ensures SessionOf(Next(schema, s, e), id) == SessionOf(s, id)
  {
    hide Effect, Next, Enabled, DiskOk;
    EffectTouchesOwn(schema, s, e, id);
    EnabledPrefix(schema, s, e);
    NextDisk(schema, s, e);
    StepInv(schema, s, e);
    WritesTouchOwn(s.disk, Performed(schema, s, e), id);
  }

  /** Whether an event brings session `id` level with the running configuration, if
      anything does: it opens it, discards its edits, or commits it. */
  predicate Levels(e: Event, id: SessionId) {
    && Concerns(e, id)
    && (e.action.request.OpenSession? || e.action.request.operation.Discard? || e.action.request.operation.Commit?)
  }

  predicate LevelWith(session: Session, current: (nat, Node)) {
    session.base == current.0 && session.candidate == current.1
  }

  function InSessions(sessions: map<SessionId, Session>, id: SessionId): Option<Session> {
    if id in sessions then Some(sessions[id]) else None
  }

  /** What the writes of an event leave of a session: its old base, or, if the event
      levels it, the generation and configuration on record with it. */
  ghost predicate BaseOrLevel(before: Option<Session>, after: Option<Session>, d: Disk, levels: bool) {
    after.Some? ==>
      || (before.Some? && before.value.base == after.value.base)
      || (levels && LevelWith(after.value, OnRecord(d)))
  }

  lemma OneWrite(d: Disk, id: SessionId, ws: seq<Write>, k: nat, levels: bool)
    requires |ws| <= 1 && k <= |ws|
    requires forall i :: 0 <= i < |ws| && ws[i].SaveSession? && ws[i].id == id ==>
               BaseOrLevel(InSessions(d.sessions, id), Some(ws[i].session), d, levels)
    ensures BaseOrLevel(InSessions(d.sessions, id), InSessions(PerformAll(d, ws[..k]).sessions, id), PerformAll(d, ws[..k]), levels)
  {
    if k == 1 { PerformOne(d, ws[0]); assert ws[..1] == [ws[0]]; }
  }

  lemma PerformNone(d: Disk)
    ensures PerformAll(d, []) == d
  {
  }

  lemma CommitBases(schema: Schema, m: Memory, d: Disk, id: SessionId, comment: Option<string>, minutes: Option<nat>,
                    c: Context, k: nat)
    requires Owned(m, id, c.uid) && InStep(m, d) && HistoryOk(m) && k <= |DoCommit(schema, m, id, comment, minutes, c).writes|
    ensures var after := PerformAll(d, DoCommit(schema, m, id, comment, minutes, c).writes[..k]);
            BaseOrLevel(InSessions(d.sessions, id), InSessions(after.sessions, id), after, true)
  {
    hide DoCommit, HistoryOk, Prune, PerformAll;
    var o := DoCommit(schema, m, id, comment, minutes, c);
    assert PerformAll(d, o.writes[..0]) == d by { PerformNone(d); }
    if o.writes != [] {
      CommitShape(schema, m, id, comment, minutes, c);
      var candidate, level := m.sessions[id].candidate, m.sessions[id].(base := m.generation + 1);
      var apply, save, keep := ApplyHost(candidate), SaveRunning(level.base, candidate), SaveSession(id, level);
      if k == 1 {
        assert o.writes[..1] == [apply];
        PerformOne(d, apply);
      } else if k == 2 {
        assert o.writes[..2] == [apply, save];
        PerformTwo(d, apply, save);
      } else if k == 3 {
        assert o.writes[..3] == [apply, save, keep];
        PerformThree(d, apply, save, keep);
      } else if k == 4 {
        assert o.writes[..4] == [apply, save, keep, o.writes[3]];
        PerformFour(d, apply, save, keep, o.writes[3]);
      }
    }
  }

  lemma ConfirmBases(schema: Schema, m: Memory, d: Disk, id: SessionId, c: Context, k: nat, levels: bool)
    requires k <= |DoConfirm(schema, m, c).writes|
    ensures var after := PerformAll(d, DoConfirm(schema, m, c).writes[..k]);
            BaseOrLevel(InSessions(d.sessions, id), InSessions(after.sessions, id), after, levels)
  {
    hide Curly.Render, Prune;
    var ws := DoConfirm(schema, m, c).writes[..k];
    WritesTouchOwn(d, ws, id);
  }

  lemma OperationBases(schema: Schema, m: Memory, d: Disk, id: SessionId, op: Operation, c: Context, k: nat)
    requires Owned(m, id, c.uid) && InStep(m, d) && HistoryOk(m) && k <= |Operate(schema, m, d, id, op, c).writes|
    ensures var after := PerformAll(d, Operate(schema, m, d, id, op, c).writes[..k]);
            BaseOrLevel(InSessions(d.sessions, id), InSessions(after.sessions, id), after, op.Discard? || op.Commit?)
  {
    hide Curly.Render, Curly.Parse, Find, DoCommit, DoConfirm, HistoryOk, PerformAll;
    var ws := Operate(schema, m, d, id, op, c).writes;
    match op
    case Commit(comment, minutes) => CommitBases(schema, m, d, id, comment, minutes, c, k);
    case Confirm => ConfirmBases(schema, m, d, id, c, k, false);
    case _ => OneWrite(d, id, ws, k, op.Discard?);
  }

  lemma RequestBases(schema: Schema, s: System, e: Event, id: SessionId)
    requires Inv(s) && Enabled(schema, s, e) && Concerns(e, id)
    ensures var after := Next(schema, s, e).disk;
            BaseOrLevel(InSessions(s.disk.sessions, id), InSessions(after.sessions, id), after, Levels(e, id))
  {
    hide Next, Enabled, DiskOk, HistoryOk, Operate, BaseOrLevel;
    NextDisk(schema, s, e);
    EnabledPrefix(schema, s, e);
    var ws := Effect(schema, s, e).1;
    var k := if e.crash.Some? then e.crash.value else |ws|;
    assert ws[..|ws|] == ws;
    match e.action.request
    case OpenSession(_) =>
      assert ws == [SaveSession(id, Session(e.context.uid, s.memory.running, s.memory.generation))];
      LeveledIs(s.disk, ws[0].session);
      OneWrite(s.disk, id, ws, k, true);
    case Use(_, op) =>
      if Owned(s.memory, id, e.context.uid) {
        OperationBases(schema, s.memory, s.disk, id, op, e.context, k);
      } else {
        OneWrite(s.disk, id, ws, k, Levels(e, id));
      }
  }

  lemma LeveledIs(d: Disk, session: Session)
    requires LevelWith(session, OnRecord(d))
    ensures forall before :: BaseOrLevel(before, Some(session), d, true)
  {
  }

  lemma StepBases(schema: Schema, s: System, e: Event, id: SessionId)
    requires Inv(s) && Enabled(schema, s, e)
    ensures var after := Next(schema, s, e);
            SessionOf(after, id).Some? ==>
              || (SessionOf(s, id).Some? && SessionOf(s, id).value.base == SessionOf(after, id).value.base)
              || (Levels(e, id) && LevelWith(SessionOf(after, id).value, Current(after)))
  {
    hide Next, Enabled, DiskOk, HistoryOk;
    StepInv(schema, s, e);
    CurrentOnRecord(Next(schema, s, e));
    if Concerns(e, id) {
      RequestBases(schema, s, e, id);
    } else {
      SessionUntouched(schema, s, e, id);
    }
  }

  /** Session `id` was brought level by the event before state `i`, and has had the same
      base ever since, up to state `j`. */
  ghost predicate LevelSince(ss: seq<System>, es: seq<Event>, id: SessionId, i: nat, j: nat) {
    && 0 < i <= j < |ss| && |ss| == |es| + 1 && Levels(es[i - 1], id)
    && SessionOf(ss[i], id).Some? && LevelWith(SessionOf(ss[i], id).value, Current(ss[i]))
    && forall k :: i <= k <= j ==> SessionOf(ss[k], id).Some? && SessionOf(ss[k], id).value.base == SessionOf(ss[i], id).value.base
  }

  lemma {:induction false} EverySessionWasLevel(schema: Schema, ss: seq<System>, es: seq<Event>, j: nat, id: SessionId)
    requires IsRun(schema, ss, es) && Initial(ss[0]) && j < |ss| && SessionOf(ss[j], id).Some?
    ensures exists i: nat :: LevelSince(ss, es, id, i, j)
    decreases j
  {
    hide Next, Enabled, Inv, Current;
    if j > 0 {
      InitialInv(ss[0]);
      RunInv(schema, ss, es, j - 1);
      assert ss[j - 1 + 1] == Next(schema, ss[j - 1], es[j - 1]);
      StepBases(schema, ss[j - 1], es[j - 1], id);
      if Levels(es[j - 1], id) && LevelWith(SessionOf(ss[j], id).value, Current(ss[j])) {
        assert LevelSince(ss, es, id, j, j);
      } else {
        EverySessionWasLevel(schema, ss, es, j - 1, id);
        var i: nat :| LevelSince(ss, es, id, i, j - 1);
        assert LevelSince(ss, es, id, i, j);
      }
    }
  }

  /** No lost updates: every changing commit in every run replaces exactly the
      configuration that its session's edits started from, when it was opened, discarded
      or committed last, whatever happened in between. */
  lemma NoLostUpdate(schema: Schema, ss: seq<System>, es: seq<Event>, j: nat, id: SessionId, comment: Option<string>,
                     minutes: Option<nat>, c: Context)
    requires IsRun(schema, ss, es) && Initial(ss[0]) && j < |ss| && CommitsChange(schema, ss[j], id, comment, minutes, c)
    ensures exists i: nat :: LevelSince(ss, es, id, i, j) && SessionOf(ss[i], id).value.candidate == ss[j].memory.running
  {
    hide Handle, Next, Enabled, Inv, CommitsChange;
    CommitNeedsLevel(schema, ss[j], id, comment, minutes, c);
    EverySessionWasLevel(schema, ss, es, j, id);
    var i: nat :| LevelSince(ss, es, id, i, j);
    InitialInv(ss[0]);
    GenerationNamesOne(schema, ss, es, i, j);
  }

  // ----- history ---------------------------------------------------------

  lemma RequestHistory(schema: Schema, m: Memory, d: Disk, r: Request, c: Context, entry: (nat, Node))
    requires entry in Handle(schema, m, d, r, c).memory.history
    ensures entry in m.history || entry == (m.generation, m.running)
  {
    hide Curly.Render, Curly.Parse, Diff.Changes, Find;
  }

  lemma RestartHistory(schema: Schema, d: Disk, c: Context)
    ensures Restart(schema, d, c).0.history == []
  {
    hide Curly.Parse;
  }

  lemma HistoryGrows(schema: Schema, s: System, e: Event, entry: (nat, Node))
    requires Enabled(schema, s, e) && e.crash.None? && entry in Next(schema, s, e).memory.history
    ensures s.Up? && (entry in s.memory.history || entry == (s.memory.generation, s.memory.running))
  {
    hide Handle, Restart;
    match e.action
    case Ask(request) => RequestHistory(schema, s.memory, s.disk, request, e.context, entry);
    case Fire =>
    case Start => RestartHistory(schema, s.disk, e.context);
  }

  /** Every history entry is what was running under that number earlier in the run. */
  lemma {:induction false} HistoryTrue(schema: Schema, ss: seq<System>, es: seq<Event>, j: nat, entry: (nat, Node))
    requires IsRun(schema, ss, es) && Initial(ss[0]) && j < |ss| && ss[j].Up? && entry in ss[j].memory.history
    ensures exists i :: 0 <= i < j && Current(ss[i]) == entry
    decreases j
  {
    hide Enabled, Next;
    assert j > 0;
    assert ss[j - 1 + 1] == Next(schema, ss[j - 1], es[j - 1]);
    UpMeansNoCrash(schema, ss[j - 1], es[j - 1]);
    HistoryGrows(schema, ss[j - 1], es[j - 1], entry);
    if entry in ss[j - 1].memory.history {
      HistoryTrue(schema, ss, es, j - 1, entry);
    } else {
      assert Current(ss[j - 1]) == entry;
    }
  }

  lemma UpMeansNoCrash(schema: Schema, s: System, e: Event)
    requires Enabled(schema, s, e) && Next(schema, s, e).Up?
    ensures e.crash.None?
  {
    hide Effect;
  }

  /** The history a stale session is shown: at most eight entries, rising, each the
      configuration that generation named throughout the run. */
  lemma HistoryFaithful(schema: Schema, ss: seq<System>, es: seq<Event>, j: nat, k: nat, i: nat)
    requires IsRun(schema, ss, es) && Initial(ss[0]) && i <= j < |ss| && ss[j].Up? && k < |ss[j].memory.history|
    requires Current(ss[i]).0 == ss[j].memory.history[k].0
    ensures |ss[j].memory.history| <= HISTORY
    ensures k > 0 ==> ss[j].memory.history[k - 1].0 < ss[j].memory.history[k].0
    ensures Current(ss[i]).1 == ss[j].memory.history[k].1
  {
    hide Next, Enabled, DiskOk;
    InitialInv(ss[0]);
    RunInv(schema, ss, es, j);
    var entry := ss[j].memory.history[k];
    HistoryTrue(schema, ss, es, j, entry);
    var h :| 0 <= h < j && Current(ss[h]) == entry;
    if h <= i { GenerationNamesOne(schema, ss, es, h, i); } else { GenerationNamesOne(schema, ss, es, i, h); }
  }

  // ----- what a restart rebuilds -----------------------------------------

  /** Stopping between requests and starting again is invisible, except that the
      history is lost and a commit whose window has passed is rolled back; and the
      saved configuration is re-applied exactly when nothing had been recovered. */
  lemma RestartInvisible(schema: Schema, s: System, c: Context)
    requires Inv(s) && s.Up? && c.now >= s.now
    ensures var (m, ws) := Restart(schema, s.disk, c);
            && m.history == [] && m.sessions == s.memory.sessions
            && (!IsBoot(s.memory) && !(s.memory.pending.Some? && s.memory.pending.value.Expired(c.now)) ==>
                  m == s.memory.(history := []) && ws == [])
            && (s.memory.pending.Some? && s.memory.pending.value.Expired(c.now) ==>
                  (m, ws) == ((RollBack(s.memory, c.applies).0).(history := []), RollBack(s.memory, c.applies).1))
            && (IsBoot(s.memory) ==> (m, ws) == Boot(schema, s.memory.(history := []), s.disk, c))
  {
    hide Boot, DiskOk;
    var blank := s.memory.(history := []);
    assert Recover(s.disk) == blank.(pending := None, timer := false);
    PendingIsNumbered(s.disk, s.now);
    var resumed := Resume(Recover(s.disk), s.disk, c).0;
    if s.memory.pending.Some? {
      assert !IsBoot(resumed);
      var first := Resume(Recover(s.disk), s.disk, c).1;
      assert first + [] == first;
      assert s.memory.pending.value.Expired(c.now) || resumed == blank;
      BootOnlyOnBoot(schema, resumed, s.disk, c);
    } else {
      assert resumed == blank;
      BootOnlyOnBoot(schema, blank, s.disk, c);
      BootKeeps(schema, blank, s.disk, c);
      assert Restart(schema, s.disk, c).1 == [] + Boot(schema, blank, s.disk, c).1 == Boot(schema, blank, s.disk, c).1;
    }
  }

  lemma PendingIsNumbered(d: Disk, now: int)
    requires DiskOk(d, now)
    ensures d.marker.Some? ==> OnRecord(d).0 > 0
  {
  }

  lemma BootKeeps(schema: Schema, m: Memory, d: Disk, c: Context)
    ensures Boot(schema, m, d, c).0.history == m.history && Boot(schema, m, d, c).0.sessions == m.sessions
  {
    hide Curly.Parse;
  }

  lemma BootOnlyOnBoot(schema: Schema, m: Memory, d: Disk, c: Context)
    ensures !IsBoot(m) ==> Boot(schema, m, d, c) == (m, [])
  {
    hide Curly.Parse;
  }

  // ----- commit-confirm --------------------------------------------------

  /** The marker a commit under confirmation asks for: its window in minutes, the deadline
      that many minutes on, who asked, and the candidate. */
  predicate AskedFor(p: Pending, s: System, e: Event) {
    && s.Up? && e.action.Ask? && e.action.request.Use? && e.action.request.operation.Commit?
    && e.action.request.operation.minutes == Some(p.minutes) && p.deadline == e.context.now + 60 * p.minutes
    && p.session == e.action.request.id && p.uid == e.context.uid && p.comment == e.action.request.operation.comment
    && p.session in s.memory.sessions && p.committed == s.memory.sessions[p.session].candidate
  }

  /** A marker is only ever put down by a commit, which records in it the
      configuration and number that were current just before. */
  lemma ArmedByCommit(schema: Schema, s: System, e: Event)
    requires Inv(s) && Enabled(schema, s, e) && s.disk.marker.None? && Next(schema, s, e).disk.marker.Some?
    ensures var p := Next(schema, s, e).disk.marker.value;
            && AskedFor(p, s, e)
            && p.previous == Current(s).1 && p.previousGeneration == Current(s).0
            && Current(Next(schema, s, e)) == (p.generation, p.committed)
  {
    hide Effect, Next, Enabled, DiskOk;
    NextDisk(schema, s, e);
    StepInv(schema, s, e);
    MarkerWrites(s.disk, Performed(schema, s, e));
    var ws := Performed(schema, s, e);
    var i :| 0 <= i < |ws| && ws[i].Arm? && ws[i].pending == Next(schema, s, e).disk.marker.value;
    EnabledPrefix(schema, s, e);
    assert ws[i] == Effect(schema, s, e).1[i];
    ArmOnlyByCommit(schema, s, e, i);
    CurrentOnRecord(Next(schema, s, e));
    JustArmed(schema, s, e);
  }

  /** A marker that is down afterwards was there before or was written. */
  lemma {:induction false} MarkerWrites(d: Disk, ws: seq<Write>)
    ensures var m := PerformAll(d, ws).marker;
            m.Some? ==> m == d.marker || exists i :: 0 <= i < |ws| && ws[i].Arm? && ws[i].pending == m.value
    decreases |ws|
  {
    if ws != [] {
      MarkerWrites(Perform(d, ws[0]), ws[1..]);
      var m := PerformAll(d, ws).marker;
      if m.Some? && m != Perform(d, ws[0]).marker {
        var i :| 0 <= i < |ws[1..]| && ws[1..][i].Arm? && ws[1..][i].pending == m.value;
        assert ws[i + 1] == ws[1..][i];
      } else if m.Some? && ws[0].Arm? {
        assert ws[0].pending == m.value;
      }
    }
  }

  lemma RequestArms(schema: Schema, m: Memory, d: Disk, r: Request, c: Context, i: nat)
    requires i < |Handle(schema, m, d, r, c).writes| && Handle(schema, m, d, r, c).writes[i].Arm?
    ensures r.Use? && r.operation.Commit? && Owned(m, r.id, c.uid)
    ensures DoCommit(schema, m, r.id, r.operation.comment, r.operation.minutes, c) == Handle(schema, m, d, r, c)
  {
    hide Curly.Render, Curly.Parse, Diff.Changes, Find, Newest, DoCommit;
  }

  lemma RestartArmsNone(schema: Schema, d: Disk, c: Context)
    ensures var ws := Restart(schema, d, c).1; forall i :: 0 <= i < |ws| ==> !ws[i].Arm?
  {
    hide Curly.Parse;
  }

  lemma CommitArms(schema: Schema, m: Memory, id: SessionId, comment: Option<string>, minutes: Option<nat>, c: Context, i: nat)
    requires Owned(m, id, c.uid) && HistoryOk(m)
    requires var ws := DoCommit(schema, m, id, comment, minutes, c).writes; i < |ws| && ws[i].Arm?
    ensures var p := DoCommit(schema, m, id, comment, minutes, c).writes[i].pending;
            && minutes == Some(p.minutes) && p.deadline == c.now + 60 * p.minutes
            && p.session == id && p.uid == c.uid && p.comment == comment && p.committed == m.sessions[id].candidate
            && p.previous == m.running && p.previousGeneration == m.generation && p.generation == m.generation + 1
  {
    hide Curly.Render, Diff.Changes, Newest, HistoryOk;
    NewestOk(m);
  }

  lemma ArmOnlyByCommit(schema: Schema, s: System, e: Event, i: nat)
    requires Inv(s) && Enabled(schema, s, e)
    requires i < |Effect(schema, s, e).1| && Effect(schema, s, e).1[i].Arm?
    ensures var p := Effect(schema, s, e).1[i].pending;
            && AskedFor(p, s, e)
            && p.previous == s.memory.running && p.previousGeneration == s.memory.generation
            && p.generation == s.memory.generation + 1
  {
    hide Handle, Restart, DoCommit, DiskOk, HistoryOk;
    match e.action
    case Ask(request) =>
      RequestArms(schema, s.memory, s.disk, request, e.context, i);
      CommitArms(schema, s.memory, request.id, request.operation.comment, request.operation.minutes, e.context, i);
    case Fire =>
    case Start => RestartArmsNone(schema, s.disk, e.context);
  }

  /** A marker written by this very event has not been rolled back by it. */
  lemma JustArmed(schema: Schema, s: System, e: Event)
    requires Inv(s) && Enabled(schema, s, e) && s.disk.marker.None? && Next(schema, s, e).disk.marker.Some?
    requires Inv(Next(schema, s, e)) && s.Up?
    requires Next(schema, s, e).disk.marker.value.generation == s.memory.generation + 1
    ensures OnRecord(Next(schema, s, e).disk) == (s.memory.generation + 1, Next(schema, s, e).disk.marker.value.committed)
  {
    hide Effect, Next, Enabled;
    NextDisk(schema, s, e);
    RecordAtMost(schema, s, e);
  }

  lemma {:induction false} RecordBounded(d: Disk, ws: seq<Write>, bound: nat)
    requires OnRecord(d).0 <= bound
    requires forall i :: 0 <= i < |ws| ==> ws[i].SaveRunning? ==> ws[i].generation <= bound
    ensures OnRecord(PerformAll(d, ws)).0 <= bound
    decreases |ws|
  {
    if ws != [] { RecordBounded(Perform(d, ws[0]), ws[1..], bound); }
  }

  /** A request moves the generation by at most one. */
  lemma RecordAtMost(schema: Schema, s: System, e: Event)
    requires Inv(s) && Enabled(schema, s, e) && s.Up?
    ensures OnRecord(Next(schema, s, e).disk).0 <= s.memory.generation + 1
  {
    hide Next, Enabled, Effect, DiskOk;
    NextDisk(schema, s, e);
    EnabledPrefix(schema, s, e);
    SaveAtMost(schema, s, e);
    RecordBounded(s.disk, Performed(schema, s, e), s.memory.generation + 1);
  }

  lemma SaveAtMost(schema: Schema, s: System, e: Event)
    requires Enabled(schema, s, e) && s.Up?
    ensures var ws := Effect(schema, s, e).1;
            forall i :: 0 <= i < |ws| ==> ws[i].SaveRunning? ==> ws[i].generation <= s.memory.generation + 1
  {
    hide Curly.Render, Curly.Parse, Diff.Changes, Find, Newest;
  }
}
