/** The daemon as it is written: fields under one lock, updated in place, with the
    disk written along the way. Each method is tied to the functions of `Daemon`. */
module ConfigdObject {
  import opened Wrappers
  import opened Config
  import opened Daemon
  import Curly
  import Diff

  class Configd {
    const schema: Schema
    var running: Node
    var generation: nat
    var history: seq<(nat, Node)>
    var sessions: map<SessionId, Session>
    var pending: Option<Pending>
    var timer: bool
    var disk: Disk
    /** Every write made so far, in order: a crash leaves some prefix of it on disk. */
    ghost var log: seq<Write>

    /** `start`: what the files under /run say, with nothing pending yet. */
    constructor (schema: Schema, disk: Disk)
      ensures this.schema == schema && this.disk == disk && log == []
      ensures View() == Recover(disk)
    {
      this.schema, this.disk := schema, disk;
      var recorded := disk.recorded.UnwrapOr((0, EMPTY_INTERIOR));
      generation, running := recorded.0, recorded.1;
      history, sessions, pending, timer := [], disk.sessions, None, false;
      log := [];
    }

    function View(): Memory
      reads this
    {
      Memory(running, generation, history, sessions, pending, timer)
    }

    /** The one way the disk changes. */
    method Put(w: Write)
      modifies this`disk, this`log
      ensures disk == Perform(old(disk), w) && log == old(log) + [w]
    {
      disk := Perform(disk, w);
      log := log + [w];
    }

    /** What every request promises: memory and writes as the specification has them. */
    twostate predicate Did(o: Outcome)
      reads this
    {
      View() == o.memory && log == old(log) + o.writes && disk == PerformAll(old(disk), o.writes)
    }

    method Replace(id: SessionId, session: Session)
      modifies this
      ensures Did(Edited(old(View()), id, session))
    {
      sessions := sessions[id := session];
      Put(SaveSession(id, session));
      OneWrite(old(disk), SaveSession(id, session));
    }

    /** `open` */
    method Open(id: SessionId, uid: nat) returns (r: Response)
      modifies this
      ensures var o := Handle(schema, old(View()), old(disk), OpenSession(id), Context(uid, 0, true, true));
              Did(o) && r == o.response
    {
      Replace(id, Session(uid, running, generation));
      r := Done;
    }

    /** `discard` */
    method DiscardCandidate(id: SessionId, uid: nat) returns (r: Response)
      modifies this
      ensures var o := Handle(schema, old(View()), old(disk), Use(id, Discard), Context(uid, 0, true, true));
              Did(o) && r == o.response
    {
      NoWrites(disk, log);
      if id !in sessions || sessions[id].uid != uid {
        return Refused;
      }
      var session := sessions[id];
      session := session.(candidate := running);
      session := session.(base := generation);
      Replace(id, session);
      r := Done;
    }

    /** `set`, on a copy of the candidate. */
    method SetValue(id: SessionId, path: Path, value: Option<string>, uid: nat) returns (r: Response)
      modifies this
      ensures var o := Handle(schema, old(View()), old(disk), Use(id, Set(path, value)), Context(uid, 0, true, true));
              Did(o) && r == o.response
    {
      NoWrites(disk, log);
      if id !in sessions || sessions[id].uid != uid {
        return Refused;
      }
      var session := sessions[id];
      var candidate := schema.applySet(session.candidate, path, value);
      if candidate.None? {
        return Invalid;
      }
      Replace(id, session.(candidate := candidate.value));
      r := Done;
    }

    /** `delete`, on a copy of the candidate. */
    method DeleteValue(id: SessionId, path: Path, value: Option<string>, uid: nat) returns (r: Response)
      modifies this
      ensures var o := Handle(schema, old(View()), old(disk), Use(id, Delete(path, value)), Context(uid, 0, true, true));
              Did(o) && r == o.response
    {
      NoWrites(disk, log);
      if id !in sessions || sessions[id].uid != uid {
        return Refused;
      }
      var session := sessions[id];
      var candidate := schema.applyDelete(session.candidate, path, value);
      if candidate.None? {
        return Invalid;
      }
      Replace(id, session.(candidate := candidate.value));
      r := Done;
    }

    /** `save` */
    method SaveRunningToBoot() returns (r: Response)
      modifies this
      ensures var o := Handle(schema, old(View()), old(disk), Save, Context(0, 0, true, true));
              Did(o) && r == o.response
    {
      hide Curly.Render;
      var text := Curly.Render(running, schema.tags);
      Put(SaveBoot(text));
      OneWrite(old(disk), SaveBoot(text));
      r := Done;
    }

    /** `load` */
    method LoadFrom(id: SessionId, source: Source, uid: nat) returns (r: Response)
      modifies this
      ensures var o := Handle(schema, old(View()), old(disk), Use(id, Load(source)), Context(uid, 0, true, true));
              Did(o) && r == o.response
    {
      hide Curly.Parse;
      NoWrites(disk, log);
      if id !in sessions || sessions[id].uid != uid {
        return Refused;
      }
      var text := SourceText(disk, source);
      if text.None? {
        return Refused;
      }
      var config := Curly.Parse(text.value);
      if config.Err? {
        return if source.Saved? then Invalid else Refused;
      }
      if !schema.validTree(config.value) {
        return Invalid;
      }
      Replace(id, sessions[id].(candidate := config.value));
      r := Done;
    }

    /** Remember what was running, and no more than `HISTORY` of those. */
    method Remember(was: nat, config: Node)
      modifies `history
      ensures history == Newest(old(history) + [(was, config)]) && history != []
    {
      history := history + [(was, config)];
      while |history| > HISTORY
        invariant Newest(history) == Newest(old(history) + [(was, config)]) && history != []
        decreases |history|
      {
        assert history[1..][|history| - 1 - HISTORY..] == history[|history| - HISTORY..];
        history := history[1..];
      }
    }

    /** Step 10: promote an applied candidate, and level its session with it. */
    method Promote(id: SessionId, candidate: Node)
      requires id in sessions
      modifies this
      ensures var level := old(sessions[id]).(base := old(generation) + 1);
              && View() == old(View()).(running := candidate, generation := old(generation) + 1,
                                        history := Newest(old(history) + [(old(generation), old(running))]),
                                        sessions := old(sessions)[id := level])
              && history != []
              && log == old(log) + [SaveRunning(old(generation) + 1, candidate), SaveSession(id, level)]
              && disk == Perform(Perform(old(disk), SaveRunning(old(generation) + 1, candidate)), SaveSession(id, level))
    {
      hide Perform, Newest;
      Remember(generation, running);
      running := candidate;
      generation := generation + 1;
      Put(SaveRunning(generation, running));
      var session := sessions[id].(base := generation);
      sessions := sessions[id := session];
      Put(SaveSession(id, session));
    }

    /** Steps 1 to 10 of a commit. */
    method CommitSession(id: SessionId, comment: Option<string>, minutes: Option<nat>, c: Context) returns (r: Response)
      modifies this
      ensures var o := Handle(schema, old(View()), old(disk), Use(id, Commit(comment, minutes)), c);
              Did(o) && r == o.response
    {
      hide Curly.Render, Diff.Changes, Perform, PerformAll, Newest;
      ghost var disk0 := disk;
      NoWrites(disk, log);
      if id !in sessions || sessions[id].uid != c.uid {
        return Refused;
      }
      if pending.Some? {
        return Conflict;
      }
      var candidate := sessions[id].candidate;
      if sessions[id].base != generation {
        return Conflict;
      }
      if !schema.validTree(candidate) || !schema.constraints(candidate) {
        return Invalid;
      }
      if Diff.Changes(running, candidate) == {} {
        return Committed(generation, false, None);
      }
      if !c.applies {
        return Failed;
      }
      r := ApplyAndPromote(id, candidate, comment, minutes, c);
    }

    /** The steps of a commit past the last one that can refuse it. */
    method ApplyAndPromote(id: SessionId, candidate: Node, comment: Option<string>, minutes: Option<nat>, c: Context)
      returns (r: Response)
      requires Owned(View(), id, c.uid) && pending.None? && candidate == sessions[id].candidate
      requires sessions[id].base == generation && schema.validTree(candidate) && schema.constraints(candidate)
      requires Diff.Changes(running, candidate) != {} && c.applies
      modifies this
      ensures var o := DoCommit(schema, old(View()), id, comment, minutes, c);
              Did(o) && r == o.response
    {
      hide Curly.Render, Diff.Changes, Perform, PerformAll, Newest;
      ghost var disk0, level := disk, sessions[id].(base := generation + 1);
      Put(ApplyHost(candidate));
      var was := generation;
      Promote(id, candidate);
      ghost var first := [ApplyHost(candidate), SaveRunning(generation, candidate), SaveSession(id, level)];
      match minutes {
        case None =>
          var revision := RevisionOf(schema, generation, c.uid, comment, running);
          Put(Record(revision));
          FourWrites(disk0, first[0], first[1], first[2], Record(revision));
          assert log == old(log) + (first + [Record(revision)]);
          r := Committed(generation, true, None);
        case Some(window) =>
          var p := Pending(c.now + window * 60, window, id, c.uid, comment, history[|history| - 1].1, was, running, generation);
          Put(Arm(p));
          FourWrites(disk0, first[0], first[1], first[2], Arm(p));
          assert log == old(log) + (first + [Arm(p)]);
          pending := Some(p);
          timer := true;
          r := Committed(generation, true, Some(p.Remaining(c.now)));
      }
    }

    /** `confirm` */
    method ConfirmPending(id: SessionId, c: Context) returns (r: Response)
      modifies this
      ensures var o := Handle(schema, old(View()), old(disk), Use(id, Confirm), c);
              Did(o) && r == o.response
    {
      hide Curly.Render;
      ghost var disk0 := disk;
      NoWrites(disk, log);
      if id !in sessions || sessions[id].uid != c.uid {
        return Refused;
      }
      if pending.None? {
        return Refused;
      }
      var p := pending.value;
      pending := None;
      timer := false;
      Put(Disarm);
      var revision := RevisionOf(schema, p.generation, c.uid, p.comment, p.committed);
      Put(Record(revision));
      TwoWrites(disk0, Disarm, Record(revision));
      r := Committed(p.generation, true, None);
    }

    /** `roll_back` */
    method RollBackPending(applies: bool)
      modifies this
      ensures var (m, ws) := RollBack(old(View()), applies); Did(Outcome(m, ws, Done))
    {
      ghost var disk0 := disk;
      NoWrites(disk, log);
      if pending.None? {
        return;
      }
      var p := pending.value;
      pending := None;
      timer := false;
      if applies {
        Put(ApplyHost(p.previous));
        running := p.previous;
        generation := generation + 1;
        Put(SaveRunning(generation, running));
        Put(Disarm);
        ThreeWrites(disk0, ApplyHost(p.previous), SaveRunning(generation, p.previous), Disarm);
      } else {
        Put(Disarm);
        OneWrite(disk0, Disarm);
      }
    }

    /** `resume`, called once, right after `start`. */
    method ResumePending(c: Context)
      modifies this
      ensures var (m, ws) := Resume(old(View()), old(disk), c); Did(Outcome(m, ws, Done))
    {
      NoWrites(disk, log);
      if disk.marker.None? {
        return;
      }
      pending := disk.marker;
      if disk.marker.value.Expired(c.now) {
        RollBackPending(c.applies);
      } else {
        timer := true;
      }
    }

    /** `boot`: only when nothing was recovered from /run. */
    method BootSaved(c: Context)
      modifies this
      ensures var (m, ws) := Boot(schema, old(View()), old(disk), c); Did(Outcome(m, ws, Done))
    {
      hide Curly.Parse;
      ghost var disk0 := disk;
      NoWrites(disk, log);
      if generation > 0 || running.body != Interior(map[]) || disk.boot.None? {
        return;
      }
      var saved := Curly.Parse(disk.boot.value);
      if saved.Ok? && schema.validTree(saved.value) && schema.constraints(saved.value) && c.applies {
        Put(ApplyHost(saved.value));
        Adopt(saved.value);
        TwoWrites(disk0, ApplyHost(saved.value), SaveRunning(generation, saved.value));
        return;
      }
      if c.defaults {
        Put(ApplyHost(schema.defaults));
        Adopt(schema.defaults);
        TwoWrites(disk0, ApplyHost(schema.defaults), SaveRunning(generation, schema.defaults));
      } else {
        Adopt(schema.defaults);
        OneWrite(disk0, SaveRunning(generation, schema.defaults));
        assert [] + [SaveRunning(generation, schema.defaults)] == [SaveRunning(generation, schema.defaults)];
      }
    }

    /** `adopt` */
    method Adopt(config: Node)
      modifies this
      ensures View() == old(View()).(running := config, generation := old(generation) + 1)
      ensures log == old(log) + [SaveRunning(generation, config)] && disk == Perform(old(disk), SaveRunning(generation, config))
    {
      running := config;
      generation := generation + 1;
      Put(SaveRunning(generation, running));
    }

    /** `close` */
    method CloseSession(id: SessionId, uid: nat) returns (r: Response)
      modifies this
      ensures var o := Handle(schema, old(View()), old(disk), Use(id, Close), Context(uid, 0, true, true));
              Did(o) && r == o.response
    {
      NoWrites(disk, log);
      if id !in sessions || sessions[id].uid != uid {
        return Refused;
      }
      sessions := sessions - {id};
      Put(ForgetSession(id));
      OneWrite(old(disk), ForgetSession(id));
      r := Done;
    }
  }

  // ----- short lists of writes -------------------------------------------

  lemma NoWrites(d: Disk, log: seq<Write>)
    ensures PerformAll(d, []) == d && log + [] == log
  {
  }

  lemma OneWrite(d: Disk, a: Write)
    ensures PerformAll(d, [a]) == Perform(d, a)
  {
    assert [a][1..] == [];
  }

  lemma TwoWrites(d: Disk, a: Write, b: Write)
    ensures PerformAll(d, [a, b]) == Perform(Perform(d, a), b)
  {
    assert [a, b][1..] == [b];
    OneWrite(Perform(d, a), b);
  }

  lemma ThreeWrites(d: Disk, a: Write, b: Write, c: Write)
    ensures PerformAll(d, [a, b, c]) == Perform(Perform(Perform(d, a), b), c)
  {
    assert [a, b, c][1..] == [b, c];
    TwoWrites(Perform(d, a), b, c);
  }

  lemma FourWrites(d: Disk, a: Write, b: Write, c: Write, e: Write)
    ensures PerformAll(d, [a, b, c] + [e]) == Perform(Perform(Perform(Perform(d, a), b), c), e)
  {
    assert ([a, b, c] + [e])[1..] == [b, c, e];
    ThreeWrites(Perform(d, a), b, c, e);
  }
}
