/** What each request comes to, for its answer, the daemon's memory and its disk. */
module DaemonRequests {
  import opened Wrappers
  import opened Config
  import opened Daemon
  import opened DaemonInvariant
  import opened DaemonRuns
  import Curly
  import CurlyDepth
  import Diff

  // ----- commits ---------------------------------------------------------

  /** Level with running, with nothing else pending. */
  predicate MayCommit(m: Memory, session: Session) {
    m.pending.None? && session.base == m.generation
  }

  predicate Acceptable(schema: Schema, config: Node) {
    schema.validTree(config) && schema.constraints(config)
  }

  /** When a commit takes: asked by the owner, level, valid, a change, and the machine
      applies it. */
  predicate Takes(schema: Schema, m: Memory, id: SessionId, c: Context) {
    && id in m.sessions && m.sessions[id].uid == c.uid && MayCommit(m, m.sessions[id])
    && Acceptable(schema, m.sessions[id].candidate)
    && Diff.Changes(m.running, m.sessions[id].candidate) != {} && c.applies
  }

  function CommitOf(schema: Schema, m: Memory, d: Disk, id: SessionId, comment: Option<string>, minutes: Option<nat>, c: Context): Outcome {
    Handle(schema, m, d, Use(id, Commit(comment, minutes)), c)
  }

  /** Every answer a commit can get, each exactly when. */
  lemma CommitAnswers(schema: Schema, m: Memory, d: Disk, id: SessionId, comment: Option<string>, minutes: Option<nat>,
                      c: Context)
    ensures var r := CommitOf(schema, m, d, id, comment, minutes, c).response;
            var owned := id in m.sessions && m.sessions[id].uid == c.uid;
            && (r == Refused <==> !owned)
            && (r == Conflict <==> owned && !MayCommit(m, m.sessions[id]))
            && (r == Invalid <==> owned && MayCommit(m, m.sessions[id]) && !Acceptable(schema, m.sessions[id].candidate))
            && ((r.Committed? && !r.changed) <==>
                  owned && MayCommit(m, m.sessions[id]) && Acceptable(schema, m.sessions[id].candidate)
                  && Diff.Changes(m.running, m.sessions[id].candidate) == {})
            && (r.Committed? && !r.changed ==> r == Committed(m.generation, false, None))
            && ((r.Committed? && r.changed) <==> Takes(schema, m, id, c))
            && (Takes(schema, m, id, c) && minutes.None? ==> r == Committed(m.generation + 1, true, None))
            && (Takes(schema, m, id, c) && minutes.Some? ==> r == Committed(m.generation + 1, true, Some(60 * minutes.value)))
            && (r == Failed || r.Committed? || r in {Refused, Conflict, Invalid})
  {
    hide Curly.Render, Newest, Diff.Changes;
  }

  /** A commit that does not take changes nothing. */
  lemma CommitOrNothing(schema: Schema, m: Memory, d: Disk, id: SessionId, comment: Option<string>, minutes: Option<nat>,
                        c: Context)
    requires !Takes(schema, m, id, c)
    ensures var o := CommitOf(schema, m, d, id, comment, minutes, c); o.memory == m && o.writes == []
  {
    hide Curly.Render, Newest, Diff.Changes;
  }

  /** What a commit under confirmation leaves to be undone. */
  function MarkerFor(m: Memory, id: SessionId, comment: Option<string>, window: nat, c: Context): Pending
    requires id in m.sessions
  {
    Pending(c.now + 60 * window, window, id, c.uid, comment, m.running, m.generation, m.sessions[id].candidate, m.generation + 1)
  }

  /** The last eight, or all there are. */
  predicate LatestEight<T(==)>(kept: seq<T>, all: seq<T>) {
    |kept| == (if |all| > 8 then 8 else |all|) && kept == all[|all| - |kept|..]
  }

  lemma NewestAreEight(all: seq<(nat, Node)>)
    ensures LatestEight(Newest(all), all)
  {
    if |all| <= HISTORY { assert all[0..] == all; }
  }

  /** What a commit that takes leaves in memory and on disk. */
  lemma CommitDoes(schema: Schema, m: Memory, d: Disk, id: SessionId, comment: Option<string>, minutes: Option<nat>,
                   c: Context)
    requires Takes(schema, m, id, c) && HistoryOk(m)
    ensures var o := CommitOf(schema, m, d, id, comment, minutes, c);
            var after := PerformAll(d, o.writes);
            var candidate, level := m.sessions[id].candidate, m.sessions[id].(base := m.generation + 1);
            && o.memory.running == candidate && o.memory.generation == m.generation + 1
            && o.memory.sessions == m.sessions[id := level]
            && LatestEight(o.memory.history, m.history + [(m.generation, m.running)])
            && after.host == candidate && after.recorded == Some((m.generation + 1, candidate))
            && after.sessions == d.sessions[id := level] && after.boot == d.boot
            && (minutes.None? ==>
                  && o.memory.pending.None? && after.marker == d.marker
                  && after.archive == Prune(d.archive + [Revision(m.generation + 1, c.uid, comment, Curly.Render(candidate, schema.tags))]))
            && (minutes.Some? ==>
                  && o.memory.pending == Some(MarkerFor(m, id, comment, minutes.value, c)) && o.memory.timer
                  && after.marker == o.memory.pending && after.archive == d.archive)
  {
    hide Curly.Render, Prune, HistoryOk, PerformAll, LatestEight, CommitOf, Takes;
    var o := CommitOf(schema, m, d, id, comment, minutes, c);
    CommitMemory(schema, m, d, id, comment, minutes, c);
    assert id in m.sessions by { TakesOwn(schema, m, id, c); }
    PerformFour(d, o.writes[0], o.writes[1], o.writes[2], o.writes[3]);
  }

  lemma TakesOwn(schema: Schema, m: Memory, id: SessionId, c: Context)
    requires Takes(schema, m, id, c)
    ensures id in m.sessions
  {
  }

  /** The writes of a commit that takes, and the memory it leaves. */
  lemma CommitMemory(schema: Schema, m: Memory, d: Disk, id: SessionId, comment: Option<string>, minutes: Option<nat>, c: Context)
    requires Takes(schema, m, id, c) && HistoryOk(m)
    ensures var o := CommitOf(schema, m, d, id, comment, minutes, c);
            var candidate, level := m.sessions[id].candidate, m.sessions[id].(base := m.generation + 1);
            && o.memory.running == candidate && o.memory.generation == m.generation + 1
            && o.memory.sessions == m.sessions[id := level]
            && LatestEight(o.memory.history, m.history + [(m.generation, m.running)])
            && o.memory.pending == (if minutes.None? then None else Some(MarkerFor(m, id, comment, minutes.value, c)))
            && (minutes.Some? ==> o.memory.timer)
            && o.writes == [ApplyHost(candidate), SaveRunning(m.generation + 1, candidate), SaveSession(id, level),
                            if minutes.None? then Record(Revision(m.generation + 1, c.uid, comment, Curly.Render(candidate, schema.tags)))
                            else Arm(MarkerFor(m, id, comment, minutes.value, c))]
  {
    hide Curly.Render, Newest, Diff.Changes, HistoryOk, LatestEight, CommitOf;
    NewestOk(m);
    NewestAreEight(m.history + [(m.generation, m.running)]);
    CommitIs(schema, m, d, id, comment, minutes, c);
  }

  lemma CommitIs(schema: Schema, m: Memory, d: Disk, id: SessionId, comment: Option<string>, minutes: Option<nat>, c: Context)
    requires Owned(m, id, c.uid)
    ensures CommitOf(schema, m, d, id, comment, minutes, c) == DoCommit(schema, m, id, comment, minutes, c)
  {
    hide DoCommit;
  }

  /** Confirming: only an owner of a session may, and only while something is pending. */
  lemma ConfirmDoes(schema: Schema, m: Memory, d: Disk, id: SessionId, c: Context)
    ensures var o := Handle(schema, m, d, Use(id, Confirm), c);
            var after := PerformAll(d, o.writes);
            if id in m.sessions && m.sessions[id].uid == c.uid && m.pending.Some? then
              var p := m.pending.value;
              && o.response == Committed(p.generation, true, None)
              && o.memory == m.(pending := None, timer := false)
              && after == d.(marker := None, archive := Prune(d.archive + [Revision(p.generation, c.uid, p.comment, Curly.Render(p.committed, schema.tags))]))
            else
              o.response == Refused && o.memory == m && after == d
  {
    hide Curly.Render, Prune, PerformAll;
    var ws := Handle(schema, m, d, Use(id, Confirm), c).writes;
    PerformNone(d);
    if ws != [] {
      assert ws == [ws[0], ws[1]];
      PerformTwo(d, ws[0], ws[1]);
    }
  }

  /** A stale session is shown the changes from the very configuration its edits started
      from, if the history still has it. */
  lemma StaleIsTold(schema: Schema, ss: seq<System>, es: seq<Event>, j: nat, id: SessionId, k: nat)
    requires IsRun(schema, ss, es) && Initial(ss[0]) && j < |ss| && ss[j].Up? && id in ss[j].memory.sessions
    requires k < |ss[j].memory.history| && ss[j].memory.history[k].0 == ss[j].memory.sessions[id].base
    ensures exists i: nat :: LevelSince(ss, es, id, i, j) && SessionOf(ss[i], id).value.candidate == ss[j].memory.history[k].1
  {
    hide Next, Enabled, Inv, Current;
    EverySessionWasLevel(schema, ss, es, j, id);
    var i: nat :| LevelSince(ss, es, id, i, j);
    HistoryFaithful(schema, ss, es, j, k, i);
  }

  // ----- edits -----------------------------------------------------------

  /** The session has become `session`, in memory and on disk, and nothing else changed. */
  predicate Became(o: Outcome, m: Memory, d: Disk, id: SessionId, session: Session) {
    && o.response == Done && o.memory == m.(sessions := m.sessions[id := session])
    && PerformAll(d, o.writes) == d.(sessions := d.sessions[id := session])
  }

  predicate Unchanged(o: Outcome, m: Memory, d: Disk) {
    o.memory == m && o.writes == [] && PerformAll(d, o.writes) == d
  }

  lemma SavesOne(m: Memory, d: Disk, id: SessionId, session: Session)
    ensures Became(Edited(m, id, session), m, d, id, session)
  {
    PerformOne(d, SaveSession(id, session));
  }

  lemma OpenDoes(schema: Schema, m: Memory, d: Disk, id: SessionId, c: Context)
    ensures Became(Handle(schema, m, d, OpenSession(id), c), m, d, id, Session(c.uid, m.running, m.generation))
  {
    hide Became, Edited;
    SavesOne(m, d, id, Session(c.uid, m.running, m.generation));
  }

  /** Closing takes the session away, in memory and on disk, and nothing else. */
  lemma CloseDoes(schema: Schema, m: Memory, d: Disk, id: SessionId, c: Context)
    requires id in m.sessions && m.sessions[id].uid == c.uid
    ensures var o := Handle(schema, m, d, Use(id, Close), c);
            && o.response == Done && o.memory == m.(sessions := m.sessions - {id})
            && PerformAll(d, o.writes) == d.(sessions := d.sessions - {id})
  {
    PerformOne(d, ForgetSession(id));
  }

  /** What the owner's `set`, `delete` and `discard` do: the schema is asked about a `set`
      for a `set` and about a `delete` for a `delete`, and a refusal leaves the session
      alone; discarding is level with running again. */
  lemma EditDoes(schema: Schema, m: Memory, d: Disk, id: SessionId, path: Path, value: Option<string>, c: Context)
    requires id in m.sessions && m.sessions[id].uid == c.uid
    ensures var session := m.sessions[id];
            var set_, delete := Handle(schema, m, d, Use(id, Set(path, value)), c), Handle(schema, m, d, Use(id, Delete(path, value)), c);
            var with, without := schema.applySet(session.candidate, path, value), schema.applyDelete(session.candidate, path, value);
            && (with.Some? ==> Became(set_, m, d, id, Session(session.uid, with.value, session.base)))
            && (with.None? ==> set_.response == Invalid && Unchanged(set_, m, d))
            && (without.Some? ==> Became(delete, m, d, id, Session(session.uid, without.value, session.base)))
            && (without.None? ==> delete.response == Invalid && Unchanged(delete, m, d))
            && Became(Handle(schema, m, d, Use(id, Discard), c), m, d, id, Session(session.uid, m.running, m.generation))
  {
    hide Became, Edited, PerformAll;
    var session := m.sessions[id];
    PerformNone(d);
    SavesOne(m, d, id, session.(candidate := m.running, base := m.generation));
    var with, without := schema.applySet(session.candidate, path, value), schema.applyDelete(session.candidate, path, value);
    if with.Some? { SavesOne(m, d, id, session.(candidate := with.value)); }
    if without.Some? { SavesOne(m, d, id, session.(candidate := without.value)); }
  }

  /** The text a source names, if there is one. */
  ghost predicate Names(d: Disk, source: Source, text: string) {
    match source
    case Saved => d.boot == Some(text)
    case Archived(revision) => exists i :: 0 <= i < |d.archive| && d.archive[i].revision == revision && d.archive[i].text == text
  }

  lemma {:induction false} FindFinds(archive: seq<Revision>, revision: nat)
    ensures Find(archive, revision).Some? ==> Find(archive, revision).value in archive && Find(archive, revision).value.revision == revision
    ensures Find(archive, revision).None? ==> forall i :: 0 <= i < |archive| ==> archive[i].revision != revision
  {
    if archive != [] { FindFinds(archive[1..], revision); }
  }

  lemma SourceNames(d: Disk, source: Source, text: string)
    requires Increasing(d.archive)
    ensures SourceText(d, source) == Some(text) <==> Names(d, source, text)
  {
    hide Find;
    if source.Archived? { FindFinds(d.archive, source.revision); }
  }

  /** Loading: the candidate becomes what the text parses to, if there is a text, it parses
      and the schema takes the tree; otherwise nothing changes. */
  lemma LoadDoes(schema: Schema, m: Memory, d: Disk, id: SessionId, source: Source, c: Context)
    requires id in m.sessions && m.sessions[id].uid == c.uid && Increasing(d.archive)
    ensures var o := Handle(schema, m, d, Use(id, Load(source)), c);
            && (forall text :: Names(d, source, text) && Curly.Parse(text).Ok? && schema.validTree(Curly.Parse(text).value) ==>
                  Became(o, m, d, id, Session(m.sessions[id].uid, Curly.Parse(text).value, m.sessions[id].base)))
            && (o.response == Done <==> exists text :: Names(d, source, text) && Curly.Parse(text).Ok? && schema.validTree(Curly.Parse(text).value))
            && (o.response != Done ==> Unchanged(o, m, d))
            && ((forall text :: !Names(d, source, text)) ==> o.response == Refused)
            && (forall text :: Names(d, source, text) && Curly.Parse(text).Err? ==> o.response == if source.Saved? then Invalid else Refused)
            && (forall text :: Names(d, source, text) && Curly.Parse(text).Ok? && !schema.validTree(Curly.Parse(text).value) ==> o.response == Invalid)
  {
    hide Became, PerformAll, Curly.Parse, SourceText, Names, Increasing;
    PerformNone(d);
    forall text ensures SourceText(d, source) == Some(text) <==> Names(d, source, text) { SourceNames(d, source, text); }
    if SourceText(d, source).Some? && Curly.Parse(SourceText(d, source).value).Ok? {
      SavesOne(m, d, id, m.sessions[id].(candidate := Curly.Parse(SourceText(d, source).value).value));
    }
  }

  /** Nobody can use the session of another, or one that does not exist. */
  lemma StrangersRefused(schema: Schema, m: Memory, d: Disk, id: SessionId, op: Operation, c: Context)
    requires id !in m.sessions || m.sessions[id].uid != c.uid
    ensures var o := Handle(schema, m, d, Use(id, op), c); o.response == Refused && Unchanged(o, m, d)
  {
  }

  // ----- booting ---------------------------------------------------------

  /** `/run` as a reboot leaves it. */
  predicate EmptyRun(d: Disk) {
    d.recorded.None? && d.sessions == map[] && d.marker.None?
  }

  /** The saved text can be used: it parses, the schema accepts the tree, and the machine
      applies it. */
  predicate Usable(schema: Schema, text: string, c: Context) {
    && Curly.Parse(text).Ok? && Acceptable(schema, Curly.Parse(text).value) && c.applies
  }

  /** What a boot comes up with: the saved configuration, running, recorded and on the
      machine, as the first generation; if it cannot be used, the defaults; and with
      nothing saved, nothing. */
  lemma BootComesUp(schema: Schema, d: Disk, c: Context)
    requires EmptyRun(d)
    ensures var (m, ws) := Restart(schema, d, c);
            var after := PerformAll(d, ws);
            && m.sessions == map[] && m.pending.None? && !m.timer && m.history == []
            && (d.boot.None? ==> ws == [] && after == d && m.running == EMPTY_INTERIOR && m.generation == 0)
            && (d.boot.Some? && Usable(schema, d.boot.value, c) ==>
                  var config := Curly.Parse(d.boot.value).value;
                  m.running == config && m.generation == 1 && after == d.(host := config, recorded := Some((1, config))))
            && (d.boot.Some? && !Usable(schema, d.boot.value, c) ==>
                  && m.running == schema.defaults && m.generation == 1
                  && after == d.(host := if c.defaults then schema.defaults else d.host, recorded := Some((1, schema.defaults))))
  {
    hide Curly.Parse, PerformAll;
    var ws := Restart(schema, d, c).1;
    PerformNone(d);
    if |ws| == 1 {
      PerformOne(d, ws[0]);
      assert ws == [ws[0]];
    } else if |ws| == 2 {
      PerformTwo(d, ws[0], ws[1]);
      assert ws == [ws[0], ws[1]];
    }
  }

  /** The disk after a reboot: `/run` is gone. */
  function Rebooted(d: Disk): Disk {
    d.(recorded := None, sessions := map[], marker := None)
  }

  /** Saving and then rebooting comes up with what was running, if the schema and the
      machine still take it, exactly when the text can be read back; or else when what was
      running is the defaults that are then fallen back to. */
  lemma SaveThenReboot(schema: Schema, m: Memory, d: Disk, c: Context, later: Context)
    requires m.running.IsInterior() && Acceptable(schema, m.running) && later.applies
    ensures var saved := PerformAll(d, Handle(schema, m, d, Save, c).writes);
            var (booted, ws) := Restart(schema, Rebooted(saved), later);
            var text := Curly.Render(m.running, schema.tags);
            && saved == d.(boot := Some(text))
            && (booted.running == m.running <==>
                  || (m.running.comment.None? && Curly.Nesting(m.running, schema.tags) <= Curly.MAX_DEPTH)
                  || (!Usable(schema, text, later) && schema.defaults == m.running))
            && (m.running.comment.None? && Curly.Nesting(m.running, schema.tags) <= Curly.MAX_DEPTH ==>
                  PerformAll(Rebooted(saved), ws).host == m.running)
  {
    hide Curly.Render, Curly.Parse, Curly.Nesting, Boot, Resume;
    PerformOne(d, SaveBoot(Curly.Render(m.running, schema.tags)));
    CurlyDepth.RoundTripIff(m.running, schema.tags);
    BootComesUp(schema, Rebooted(d.(boot := Some(Curly.Render(m.running, schema.tags)))), later);
  }
}
