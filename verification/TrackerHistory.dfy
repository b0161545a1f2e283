/** The flap count, fed by samples and by events, against the sequence of states the link
    was ever seen in. */
module TrackerHistory {
  import opened Wrappers
  import opened Tracker

  /** What one link was seen doing, and when its counters were cleared. */
  datatype Mark = Seen(operstate: nat, at: nat) | Wiped(at: nat)

  function SeenIn(links: seq<Link>, name: string, now: nat): seq<Mark> {
    if links == [] then [] else
      var last := links[|links| - 1];
      SeenIn(links[..|links| - 1], name, now) + if last.name == name then [Seen(last.operstate, now)] else []
  }

  /** Samples and events interleaved as they came. */
  function Marks(events: seq<Event>, name: string): seq<Mark> {
    if events == [] then [] else
      Marks(events[..|events| - 1], name) +
      match events[|events| - 1]
      case Sampling(links, now) => SeenIn(links, name, now)
      case Noting(link, now) => if link.name == name then [Seen(link.operstate, now)] else []
      case Clearing(cleared, _, now) => if cleared == name then [Wiped(now)] else []
  }

  // ----- what the count should be ----------------------------------------

  /** `p` is the sighting just before `i`. */
  ghost predicate JustBefore(marks: seq<Mark>, p: int, i: int) {
    0 <= p < i < |marks| && marks[p].Seen? && forall q :: p < q < i ==> !marks[q].Seen?
  }

  /** At `i` the link was seen in another state than the time before. */
  ghost predicate Turns(marks: seq<Mark>, i: int) {
    0 <= i < |marks| && marks[i].Seen? && exists p :: JustBefore(marks, p, i) && marks[p].operstate != marks[i].operstate
  }

  /** The transitions since the counters were last cleared. */
  ghost function TurnsSinceWipe(marks: seq<Mark>): set<int> {
    set i | 0 <= i < |marks| && Turns(marks, i) && forall j :: i < j < |marks| ==> !marks[j].Wiped?
  }

  ghost predicate NeverBefore(marks: seq<Mark>, i: int) {
    0 <= i < |marks| && marks[i].Seen? && forall q :: 0 <= q < i ==> !marks[q].Seen?
  }

  /** The link entered the state it is in at `i`. */
  ghost predicate Entered(marks: seq<Mark>, i: int) {
    && (Turns(marks, i) || NeverBefore(marks, i))
    && forall j :: i < j < |marks| ==> !Turns(marks, j)
  }

  ghost predicate Latest(marks: seq<Mark>, p: int) {
    0 <= p < |marks| && marks[p].Seen? && forall q :: p < q < |marks| ==> !marks[q].Seen?
  }

  /** What a history has to say after these marks. */
  ghost predicate Tells(h: History, marks: seq<Mark>) {
    && h.changes == |TurnsSinceWipe(marks)|
    && (h.since.None? <==> forall i :: 0 <= i < |marks| ==> !marks[i].Seen?)
    && (h.since.Some? ==> exists p :: Latest(marks, p) && h.operstate == marks[p].operstate)
    && (h.since.Some? ==> exists i :: Entered(marks, i) && h.since.value == marks[i].at)
  }

  // ----- one mark at a time ----------------------------------------------

  lemma TurnsPrefix(marks: seq<Mark>, mark: Mark, i: int)
    requires i < |marks|
    ensures Turns(marks + [mark], i) == Turns(marks, i)
    ensures NeverBefore(marks + [mark], i) == NeverBefore(marks, i)
  {
    var more := marks + [mark];
    forall p ensures JustBefore(more, p, i) == JustBefore(marks, p, i) {
      assert forall q :: 0 <= q < |marks| ==> more[q] == marks[q];
    }
  }

  lemma TurnsLast(marks: seq<Mark>, mark: Mark, p: int)
    requires Latest(marks, p) && mark.Seen?
    ensures Turns(marks + [mark], |marks|) <==> marks[p].operstate != mark.operstate
    ensures !NeverBefore(marks + [mark], |marks|)
  {
    var more := marks + [mark];
    assert JustBefore(more, p, |marks|);
    forall q | JustBefore(more, q, |marks|) ensures q == p {
      assert more[q] == marks[q] && more[p] == marks[p];
    }
  }

  lemma WipedTurns(marks: seq<Mark>, at: nat)
    ensures TurnsSinceWipe(marks + [Wiped(at)]) == {}
    ensures !Turns(marks + [Wiped(at)], |marks|)
  {
    assert (marks + [Wiped(at)])[|marks|].Wiped?;
  }

  lemma SeenTurns(marks: seq<Mark>, mark: Mark)
    requires mark.Seen?
    ensures TurnsSinceWipe(marks + [mark]) ==
            TurnsSinceWipe(marks) + if Turns(marks + [mark], |marks|) then {|marks|} else {}
  {
    hide Turns;
    var more := marks + [mark];
    assert more[|marks|] == mark && forall j :: 0 <= j < |marks| ==> more[j] == marks[j];
    forall i | 0 <= i < |marks| ensures i in TurnsSinceWipe(more) <==> i in TurnsSinceWipe(marks) {
      TurnsPrefix(marks, mark, i);
    }
  }

  lemma LatestMoves(marks: seq<Mark>, mark: Mark)
    ensures mark.Seen? ==> Latest(marks + [mark], |marks|)
    ensures mark.Wiped? ==> forall p :: Latest(marks, p) ==> Latest(marks + [mark], p)
  {
  }

  lemma EnteredStays(marks: seq<Mark>, mark: Mark, i: int)
    requires Entered(marks, i) && !Turns(marks + [mark], |marks|)
    ensures Entered(marks + [mark], i)
  {
    hide Turns, NeverBefore;
    TurnsIndex(marks, i);
    TurnsPrefix(marks, mark, i);
    forall j | i < j < |marks| + 1 ensures !Turns(marks + [mark], j) {
      if j < |marks| { TurnsPrefix(marks, mark, j); }
    }
  }

  lemma TurnsIndex(marks: seq<Mark>, i: int)
    requires Turns(marks, i) || NeverBefore(marks, i)
    ensures 0 <= i < |marks|
  {
  }

  lemma FirstTells(h: History, marks: seq<Mark>, operstate: nat, now: nat)
    requires Tells(h, marks) && h.since.None?
    ensures Tells(Sampled(h, operstate, now), marks + [Seen(operstate, now)])
  {
    var mark := Seen(operstate, now);
    var more := marks + [mark];
    assert more[|marks|] == mark;
    assert NeverBefore(more, |marks|) && !Turns(more, |marks|);
    SeenTurns(marks, mark);
    LatestMoves(marks, mark);
    assert Entered(more, |marks|);
    hide TurnsSinceWipe, Turns, NeverBefore, Latest, Entered;
  }

  lemma MovedTells(h: History, marks: seq<Mark>, operstate: nat, now: nat)
    requires Tells(h, marks) && h.since.Some? && h.operstate != operstate
    ensures Tells(Sampled(h, operstate, now), marks + [Seen(operstate, now)])
  {
    var mark := Seen(operstate, now);
    var more := marks + [mark];
    assert more[|marks|] == mark;
    var p :| Latest(marks, p) && h.operstate == marks[p].operstate;
    TurnsLast(marks, mark, p);
    hide Turns, NeverBefore, JustBefore;
    LatestMoves(marks, mark);
    hide Latest;
    SeenTurns(marks, mark);
    OneMoreTurn(marks);
    hide TurnsSinceWipe;
    assert Entered(more, |marks|);
    hide Entered;
  }

  lemma OneMoreTurn(marks: seq<Mark>)
    ensures |TurnsSinceWipe(marks) + {|marks|}| == |TurnsSinceWipe(marks)| + 1
  {
    hide Turns;
    assert |marks| !in TurnsSinceWipe(marks);
  }

  lemma StillTells(h: History, marks: seq<Mark>, operstate: nat, now: nat)
    requires Tells(h, marks) && h.since.Some? && h.operstate == operstate
    ensures Tells(Sampled(h, operstate, now), marks + [Seen(operstate, now)])
  {
    var mark := Seen(operstate, now);
    var more := marks + [mark];
    assert more[|marks|] == mark;
    var p :| Latest(marks, p) && h.operstate == marks[p].operstate;
    TurnsLast(marks, mark, p);
    hide Turns, NeverBefore;
    SeenTurns(marks, mark);
    hide TurnsSinceWipe;
    LatestMoves(marks, mark);
    var i :| Entered(marks, i) && h.since.value == marks[i].at;
    TurnsIndex(marks, i);
    EnteredStays(marks, mark, i);
    hide Entered;
    assert more[i] == marks[i];
  }

  /** Seeing the link keeps the history true. */
  lemma SampledTells(h: History, marks: seq<Mark>, operstate: nat, now: nat)
    requires Tells(h, marks)
    ensures Tells(Sampled(h, operstate, now), marks + [Seen(operstate, now)])
  {
    hide Tells, Sampled;
    if h.since.None? { FirstTells(h, marks, operstate, now); }
    else if h.operstate != operstate { MovedTells(h, marks, operstate, now); }
    else { StillTells(h, marks, operstate, now); }
  }

  lemma ClearedTells(h: History, marks: seq<Mark>, stats: Stats, now: nat)
    requires Tells(h, marks)
    ensures Tells(Cleared(h, stats, now), marks + [Wiped(now)])
  {
    var mark := Wiped(now);
    var more := marks + [mark];
    WipedTurns(marks, now);
    LatestMoves(marks, mark);
    assert more[|marks|] == mark && forall i :: 0 <= i < |marks| ==> more[i] == marks[i];
    if h.since.Some? {
      var p :| Latest(marks, p) && h.operstate == marks[p].operstate;
      assert Latest(more, p) && more[p] == marks[p];
      var i :| Entered(marks, i) && h.since.value == marks[i].at;
      hide Turns, NeverBefore;
      TurnsIndex(marks, i);
      EnteredStays(marks, mark, i);
      assert more[i] == marks[i];
    }
  }

  /** An event and a sample that say the same have the same effect. */
  lemma NotedIsSampled(h: History, operstate: nat, now: nat)
    ensures Noted(h, operstate, now) == Sampled(h, operstate, now)
  {
  }

  lemma {:induction false} RoundTells(s: State, links: seq<Link>, name: string, now: nat, marks: seq<Mark>)
    requires Tells(HistoryAt(s, name), marks)
    ensures Tells(HistoryAt(SeeLinks(s, links, now), name), marks + SeenIn(links, name, now))
    decreases |links|
  {
    hide Tells, Sampled, Pruned;
    if links == [] {
      assert marks + [] == marks;
    } else {
      var front, last := links[..|links| - 1], links[|links| - 1];
      RoundTells(s, front, name, now, marks);
      if last.name == name {
        SampledTells(HistoryAt(SeeLinks(s, front, now), name), marks + SeenIn(front, name, now), last.operstate, now);
        assert marks + SeenIn(links, name, now) == marks + SeenIn(front, name, now) + [Seen(last.operstate, now)];
      } else {
        assert marks + SeenIn(links, name, now) == marks + SeenIn(front, name, now);
      }
    }
  }

  lemma NothingTold()
    ensures Tells(FRESH, [])
  {
    assert TurnsSinceWipe([]) == {};
  }

  /** For every run of samples, events and clears, in any order and at any times: the
      count is the number of transitions seen since the last clear, and the time is when
      the link entered the state it is in. */
  lemma {:induction false} HistoryTells(events: seq<Event>, name: string)
    ensures Tells(HistoryAt(Run(events), name), Marks(events, name))
  {
    hide Tells, Sampled, Noted, Cleared, SeeLinks, SeenIn, Present;
    if events == [] {
      NothingTold();
    } else {
      var front, last := events[..|events| - 1], events[|events| - 1];
      HistoryTells(front, name);
      var s, marks := Run(front), Marks(front, name);
      match last {
        case Sampling(links, now) => RoundTells(s, links, name, now, marks);
        case Noting(link, now) =>
          if link.name == name {
            NotedIsSampled(HistoryAt(s, name), link.operstate, now);
            SampledTells(HistoryAt(s, name), marks, link.operstate, now);
          } else {
            assert marks + [] == marks;
          }
        case Clearing(cleared, stats, now) =>
          if cleared == name {
            ClearedTells(HistoryAt(s, name), marks, stats, now);
          } else {
            assert marks + [] == marks;
          }
      }
    }
  }

  // ----- cleared counters ------------------------------------------------

  /** The last time the counters of an interface were cleared, and what they were. */
  function LastClear(events: seq<Event>, name: string): Option<(Stats, nat)> {
    if events == [] then None else
      match events[|events| - 1]
      case Clearing(cleared, stats, now) => if cleared == name then Some((stats, now)) else LastClear(events[..|events| - 1], name)
      case _ => LastClear(events[..|events| - 1], name)
  }

  lemma {:induction false} LinksKeepBaseline(s: State, links: seq<Link>, name: string, now: nat)
    ensures HistoryAt(SeeLinks(s, links, now), name).baseline == HistoryAt(s, name).baseline
    ensures HistoryAt(SeeLinks(s, links, now), name).clearedAt == HistoryAt(s, name).clearedAt
    decreases |links|
  {
    hide Pruned;
    if links != [] { LinksKeepBaseline(s, links[..|links| - 1], name, now); }
  }

  /** For every run: the baseline is what the counters were when last cleared, whatever was
      sampled, noted or cleared elsewhere since, the interface being gone included. */
  lemma {:induction false} BaselineTells(events: seq<Event>, name: string)
    ensures var h := HistoryAt(Run(events), name);
            match LastClear(events, name)
            case None => h.baseline.None? && h.clearedAt.None?
            case Some((stats, now)) => h.baseline == Some(stats) && h.clearedAt == Some(now)
  {
    hide SeeLinks, Present;
    if events != [] {
      var front, last := events[..|events| - 1], events[|events| - 1];
      BaselineTells(front, name);
      if last.Sampling? { LinksKeepBaseline(Run(front), last.links, name, last.now); }
    }
  }
}
