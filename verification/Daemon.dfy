/** The configuration daemon: what each request does to its memory, and the writes
    it makes on the way, in order. */
module Daemon {
  import opened Wrappers
  import opened Config
  import Curly
  import Diff

  type SessionId = string

  /** Running configurations kept to tell a stale session what moved. */
  const HISTORY: nat := 8

  /** Revisions kept before the oldest are pruned. */
  const KEEP: nat := 50

  /** What the daemon asks of the schema. */
  datatype Schema = Schema(
    tags: Path -> bool,
    validTree: Node -> bool,
    constraints: Node -> bool,
    applySet: (Node, Path, Option<string>) -> Option<Node>,
    applyDelete: (Node, Path, Option<string>) -> Option<Node>,
    defaults: Node)

  datatype Session = Session(uid: nat, candidate: Node, base: nat)

  /** A commit that is applied and waiting to be kept. */
  datatype Pending = Pending(
    deadline: int,
    minutes: nat,
    session: SessionId,
    uid: nat,
    comment: Option<string>,
    previous: Node,
    previousGeneration: nat,
    committed: Node,
    generation: nat)
  {
    function Remaining(now: int): nat {
      if deadline > now then deadline - now else 0
    }

    predicate Expired(now: int) {
      Remaining(now) == 0
    }
  }

  /** An archived configuration, in the text it is archived in. */
  datatype Revision = Revision(revision: nat, uid: nat, comment: Option<string>, text: string)

  datatype Memory = Memory(
    running: Node,
    generation: nat,
    history: seq<(nat, Node)>,
    sessions: map<SessionId, Session>,
    pending: Option<Pending>,
    timer: bool)

  /** What outlives the process: the files under /run and /etc, and the machine. */
  datatype Disk = Disk(
    recorded: Option<(nat, Node)>,
    sessions: map<SessionId, Session>,
    marker: Option<Pending>,
    archive: seq<Revision>,
    boot: Option<string>,
    host: Node)

  // ----- writes ----------------------------------------------------------

  datatype Write =
    | ApplyHost(config: Node)
    | SaveRunning(generation: nat, config: Node)
    | SaveSession(id: SessionId, session: Session)
    | ForgetSession(id: SessionId)
    | Record(revision: Revision)
    | Arm(pending: Pending)
    | Disarm
    | SaveBoot(text: string)

  /** The entry a listing newest first would put last. */
  function Oldest(archive: seq<Revision>): (i: nat)
    requires archive != []
    ensures i < |archive| && forall k :: 0 <= k < |archive| ==> archive[i].revision <= archive[k].revision
  {
    if |archive| == 1 then 0 else
      var i := Oldest(archive[1..]) + 1;
      if archive[i].revision <= archive[0].revision then i else 0
  }

  /** Drop everything older than the newest `KEEP`. */
  function Prune(archive: seq<Revision>): seq<Revision>
    decreases |archive|
  {
    if |archive| <= KEEP then archive else
      var i := Oldest(archive);
      Prune(archive[..i] + archive[i + 1..])
  }

  function Perform(d: Disk, w: Write): Disk {
    match w
    case ApplyHost(config) => d.(host := config)
    case SaveRunning(generation, config) => d.(recorded := Some((generation, config)))
    case SaveSession(id, session) => d.(sessions := d.sessions[id := session])
    case ForgetSession(id) => d.(sessions := d.sessions - {id})
    case Record(revision) => d.(archive := Prune(d.archive + [revision]))
    case Arm(pending) => d.(marker := Some(pending))
    case Disarm => d.(marker := None)
    case SaveBoot(text) => d.(boot := Some(text))
  }

  function PerformAll(d: Disk, ws: seq<Write>): Disk
    decreases |ws|
  {
    if ws == [] then d else PerformAll(Perform(d, ws[0]), ws[1..])
  }

  // ----- requests --------------------------------------------------------

  datatype Source = Saved | Archived(revision: nat)

  /** What the owner of a session can ask of it. */
  datatype Operation =
    | Close
    | Set(path: Path, value: Option<string>)
    | Delete(path: Path, value: Option<string>)
    | Discard
    | Load(source: Source)
    | Commit(comment: Option<string>, minutes: Option<nat>)
    | Confirm

  datatype Request =
    | OpenSession(id: SessionId)
    | Use(id: SessionId, operation: Operation)
    | Save

  datatype Response =
    | Done
    | Refused
    | Conflict
    | Invalid
    | Failed
    | Committed(generation: nat, changed: bool, confirmWithin: Option<nat>)

  datatype Outcome = Outcome(memory: Memory, writes: seq<Write>, response: Response)

  /** Who asks, when, and whether the machine accepts what is applied, the defaults
      included. */
  datatype Context = Context(uid: nat, now: int, applies: bool, defaults: bool)

  predicate Owned(m: Memory, id: SessionId, uid: nat) {
    id in m.sessions && m.sessions[id].uid == uid
  }

  /** A request that only changes its own session, and saves it. */
  function Edited(m: Memory, id: SessionId, session: Session): Outcome {
    Outcome(m.(sessions := m.sessions[id := session]), [SaveSession(id, session)], Done)
  }

  function Newest(history: seq<(nat, Node)>): seq<(nat, Node)> {
    if |history| > HISTORY then history[|history| - HISTORY..] else history
  }

  function RevisionOf(schema: Schema, generation: nat, uid: nat, comment: Option<string>, config: Node): Revision {
    Revision(generation, uid, comment, Curly.Render(config, schema.tags))
  }

  function DoCommit(schema: Schema, m: Memory, id: SessionId, comment: Option<string>, minutes: Option<nat>,
                    c: Context): Outcome
    requires Owned(m, id, c.uid)
  {
    var session := m.sessions[id];
    var candidate := session.candidate;
    if m.pending.Some? || session.base != m.generation then Outcome(m, [], Conflict)
    else if !schema.validTree(candidate) || !schema.constraints(candidate) then Outcome(m, [], Invalid)
    else if Diff.Changes(m.running, candidate) == {} then Outcome(m, [], Committed(m.generation, false, None))
    else if !c.applies then Outcome(m, [], Failed)
    else
      var generation := m.generation + 1;
      var history := Newest(m.history + [(m.generation, m.running)]);
      var level := session.(base := generation);
      var promoted := m.(running := candidate, generation := generation, history := history,
                         sessions := m.sessions[id := level]);
      var writes := [ApplyHost(candidate), SaveRunning(generation, candidate), SaveSession(id, level)];
      match minutes
      case None =>
        Outcome(promoted, writes + [Record(RevisionOf(schema, generation, c.uid, comment, candidate))],
                Committed(generation, true, None))
      case Some(window) =>
        var pending := Pending(c.now + window * 60, window, id, c.uid, comment, history[|history| - 1].1,
                               m.generation, candidate, generation);
        Outcome(promoted.(pending := Some(pending), timer := true), writes + [Arm(pending)],
                Committed(generation, true, Some(pending.Remaining(c.now))))
  }

  function DoConfirm(schema: Schema, m: Memory, c: Context): Outcome {
    match m.pending
    case None => Outcome(m, [], Refused)
    case Some(p) =>
      Outcome(m.(pending := None, timer := false),
              [Disarm, Record(RevisionOf(schema, p.generation, c.uid, p.comment, p.committed))],
              Committed(p.generation, true, None))
  }

  /** The newest archived configuration with this number. */
  function Find(archive: seq<Revision>, revision: nat): Option<Revision> {
    if archive == [] then None
    else if archive[0].revision == revision then Some(archive[0])
    else Find(archive[1..], revision)
  }

  function SourceText(d: Disk, source: Source): Option<string> {
    match source
    case Saved => d.boot
    case Archived(revision) =>
      match Find(d.archive, revision) case None => None case Some(r) => Some(r.text)
  }

  function DoLoad(schema: Schema, m: Memory, d: Disk, id: SessionId, source: Source): Outcome
    requires id in m.sessions
  {
    match SourceText(d, source)
    case None => Outcome(m, [], Refused)
    case Some(text) =>
      match Curly.Parse(text)
      case Err(_) => Outcome(m, [], if source.Saved? then Invalid else Refused)
      case Ok(config) =>
        if !schema.validTree(config) then Outcome(m, [], Invalid)
        else Edited(m, id, m.sessions[id].(candidate := config))
  }

  function Operate(schema: Schema, m: Memory, d: Disk, id: SessionId, op: Operation, c: Context): Outcome
    requires Owned(m, id, c.uid)
  {
    var session := m.sessions[id];
    match op
    case Close => Outcome(m.(sessions := m.sessions - {id}), [ForgetSession(id)], Done)
    case Set(path, value) => Amended(m, id, schema.applySet(session.candidate, path, value))
    case Delete(path, value) => Amended(m, id, schema.applyDelete(session.candidate, path, value))
    case Discard => Edited(m, id, session.(candidate := m.running, base := m.generation))
    case Load(source) => DoLoad(schema, m, d, id, source)
    case Commit(comment, minutes) => DoCommit(schema, m, id, comment, minutes, c)
    case Confirm => DoConfirm(schema, m, c)
  }

  /** An edit goes to a copy of the candidate, which is kept only if the schema took it. */
  function Amended(m: Memory, id: SessionId, candidate: Option<Node>): Outcome
    requires id in m.sessions
  {
    if candidate.None? then Outcome(m, [], Invalid)
    else Edited(m, id, m.sessions[id].(candidate := candidate.value))
  }

  function Handle(schema: Schema, m: Memory, d: Disk, r: Request, c: Context): Outcome {
    match r
    case OpenSession(id) => Edited(m, id, Session(c.uid, m.running, m.generation))
    case Use(id, op) => if Owned(m, id, c.uid) then Operate(schema, m, d, id, op, c) else Outcome(m, [], Refused)
    case Save => Outcome(m, [SaveBoot(Curly.Render(m.running, schema.tags))], Done)
  }

  // ----- the timer, and starting up --------------------------------------

  /** Undo the pending commit, through the same pipeline that applied it. */
  function RollBack(m: Memory, applies: bool): (Memory, seq<Write>) {
    match m.pending
    case None => (m, [])
    case Some(p) =>
      var idle := m.(pending := None, timer := false);
      if applies then
        (idle.(running := p.previous, generation := m.generation + 1),
         [ApplyHost(p.previous), SaveRunning(m.generation + 1, p.previous), Disarm])
      else (idle, [Disarm])
  }

  /** `start`: what the files under /run say. */
  function Recover(d: Disk): Memory {
    var (generation, running) := d.recorded.UnwrapOr((0, EMPTY_INTERIOR));
    Memory(running, generation, [], d.sessions, None, false)
  }

  /** `resume`: pick up a commit that was waiting to be confirmed. */
  function Resume(m: Memory, d: Disk, c: Context): (Memory, seq<Write>) {
    match d.marker
    case None => (m, [])
    case Some(p) =>
      if p.Expired(c.now) then RollBack(m.(pending := Some(p)), c.applies)
      else (m.(pending := Some(p), timer := true), [])
  }

  /** Whether this start is a boot, with nothing recovered from /run. */
  predicate IsBoot(m: Memory) {
    m.generation == 0 && m.running.body == Interior(map[])
  }

  /** `boot`: apply the saved configuration, or the defaults, but only on a real boot. */
  function Boot(schema: Schema, m: Memory, d: Disk, c: Context): (Memory, seq<Write>) {
    if !IsBoot(m) || d.boot.None? then (m, []) else
      match Curly.Parse(d.boot.value)
      case Ok(config) =>
        if schema.validTree(config) && schema.constraints(config) && c.applies then
          (m.(running := config, generation := m.generation + 1),
           [ApplyHost(config), SaveRunning(m.generation + 1, config)])
        else FallBack(schema, m, c)
      case Err(_) => FallBack(schema, m, c)
  }

  function FallBack(schema: Schema, m: Memory, c: Context): (Memory, seq<Write>) {
    (m.(running := schema.defaults, generation := m.generation + 1),
     (if c.defaults then [ApplyHost(schema.defaults)] else []) + [SaveRunning(m.generation + 1, schema.defaults)])
  }

  function Restart(schema: Schema, d: Disk, c: Context): (Memory, seq<Write>) {
    var (resumed, first) := Resume(Recover(d), d, c);
    var (booted, second) := Boot(schema, resumed, d, c);
    (booted, first + second)
  }

  // ----- the system ------------------------------------------------------

  datatype System = Up(memory: Memory, disk: Disk, now: int) | Down(disk: Disk, now: int)

  datatype Action = Ask(request: Request) | Fire | Start

  /** Something happens; with `crash` set, the process dies after that many of its writes. */
  datatype Event = Event(action: Action, context: Context, crash: Option<nat>)

  /** The memory and the writes of an action run to its end. */
  function Effect(schema: Schema, s: System, e: Event): (Memory, seq<Write>)
    requires s.Up? <==> !e.action.Start?
  {
    match e.action
    case Ask(request) =>
      var outcome := Handle(schema, s.memory, s.disk, request, e.context);
      (outcome.memory, outcome.writes)
    case Fire => RollBack(s.memory, e.context.applies)
    case Start => Restart(schema, s.disk, e.context)
  }

  /** What can happen: the clock does not go back, a session id is fresh, and the
      timer fires no earlier than its deadline. */
  predicate Enabled(schema: Schema, s: System, e: Event) {
    && e.context.now >= s.now
    && (s.Up? <==> !e.action.Start?)
    && (e.action == Fire ==> s.memory.timer && s.memory.pending.Some? && s.memory.pending.value.Expired(e.context.now))
    && (e.action.Ask? && e.action.request.OpenSession? ==>
          e.action.request.id !in s.memory.sessions && e.action.request.id !in s.disk.sessions)
    && (e.crash.Some? ==> e.crash.value <= |Effect(schema, s, e).1|)
  }

  function Next(schema: Schema, s: System, e: Event): System
    requires Enabled(schema, s, e)
  {
    var (memory, writes) := Effect(schema, s, e);
    match e.crash
    case None => Up(memory, PerformAll(s.disk, writes), e.context.now)
    case Some(k) => Down(PerformAll(s.disk, writes[..k]), e.context.now)
  }

  /** The machine just rebooted: /run is empty, the rest of the disk survives. */
  predicate Initial(s: System) {
    s.Down? && s.disk.recorded.None? && s.disk.sessions == map[] && s.disk.marker.None? && s.disk.archive == []
  }

  ghost predicate IsRun(schema: Schema, ss: seq<System>, es: seq<Event>) {
    && |ss| == |es| + 1
    && forall i :: 0 <= i < |es| ==> Enabled(schema, ss[i], es[i]) && ss[i + 1] == Next(schema, ss[i], es[i])
  }
}
