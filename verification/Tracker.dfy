/** What the interface tracker remembers between samples: a pruned window of counters and
    a count of link changes, against everything it was ever told. */
module Tracker {
  import opened Wrappers

  const HISTORY: nat := 900

  /** The counters of an interface, in the kernel's order. */
  datatype Stats = Stats(
    rxPackets: nat, txPackets: nat, rxBytes: nat, txBytes: nat, rxErrors: nat, txErrors: nat, rxDropped: nat,
    txDropped: nat, multicast: nat, collisions: nat, rxLengthErrors: nat, rxOverErrors: nat, rxCrcErrors: nat,
    rxFrameErrors: nat)

  datatype Link = Link(name: string, operstate: nat, stats: Option<Stats>)
  datatype Sample = Sample(at: nat, inOctets: nat, inPackets: nat, outOctets: nat, outPackets: nat)
  datatype History = History(changes: nat, since: Option<nat>, operstate: nat, clearedAt: Option<nat>, baseline: Option<Stats>)
  datatype State = State(samples: map<string, seq<Sample>>, history: map<string, History>)
  datatype Rates = Rates(
    interval: nat, inBits: real, inPackets: real, inPercent: real, outBits: real, outPackets: real, outPercent: real)

  const FRESH := History(0, None, 0, None, None)
  const EMPTY := State(map[], map[])

  function HistoryAt(s: State, name: string): History {
    if name in s.history then s.history[name] else FRESH
  }

  function SamplesAt(s: State, name: string): seq<Sample> {
    if name in s.samples then s.samples[name] else []
  }

  // ----- steps -----------------------------------------------------------

  /** A sampler sees the state of a link. */
  function Sampled(h: History, operstate: nat, now: nat): History {
    if h.since.None? then h.(since := Some(now), operstate := operstate)
    else if h.operstate != operstate then h.(operstate := operstate, changes := h.changes + 1, since := Some(now))
    else h
  }

  /** An event arrives between samples. */
  function Noted(h: History, operstate: nat, now: nat): History {
    var moved := h.since.Some? && h.operstate != operstate;
    h.(changes := if moved then h.changes + 1 else h.changes,
       operstate := operstate,
       since := if moved || h.since.None? then Some(now) else h.since)
  }

  function Cleared(h: History, stats: Stats, now: nat): History {
    h.(baseline := Some(stats), clearedAt := Some(now), changes := 0)
  }

  function Minus(a: nat, b: nat): nat {
    if a < b then 0 else a - b
  }

  /** The counters since a baseline; a counter that was reset below it shows nothing. */
  function Since(stats: Stats, baseline: Stats): Stats {
    Stats(Minus(stats.rxPackets, baseline.rxPackets), Minus(stats.txPackets, baseline.txPackets),
          Minus(stats.rxBytes, baseline.rxBytes), Minus(stats.txBytes, baseline.txBytes),
          Minus(stats.rxErrors, baseline.rxErrors), Minus(stats.txErrors, baseline.txErrors),
          Minus(stats.rxDropped, baseline.rxDropped), Minus(stats.txDropped, baseline.txDropped),
          Minus(stats.multicast, baseline.multicast), Minus(stats.collisions, baseline.collisions),
          Minus(stats.rxLengthErrors, baseline.rxLengthErrors), Minus(stats.rxOverErrors, baseline.rxOverErrors),
          Minus(stats.rxCrcErrors, baseline.rxCrcErrors), Minus(stats.rxFrameErrors, baseline.rxFrameErrors))
  }

  /** Samples no older than the window, seen from `now`. */
  function Pruned(samples: seq<Sample>, now: nat): seq<Sample> {
    if samples != [] && Minus(now, samples[0].at) > HISTORY then Pruned(samples[1..], now) else samples
  }

  function Reading(stats: Stats, now: nat): Sample {
    Sample(now, stats.rxBytes, stats.rxPackets, stats.txBytes, stats.txPackets)
  }

  function SeeLink(s: State, link: Link, now: nat): State {
    var history := s.history[link.name := Sampled(HistoryAt(s, link.name), link.operstate, now)];
    match link.stats
    case None => State(s.samples, history)
    case Some(stats) => State(s.samples[link.name := Pruned(SamplesAt(s, link.name) + [Reading(stats, now)], now)], history)
  }

  function SeeLinks(s: State, links: seq<Link>, now: nat): State {
    if links == [] then s else SeeLink(SeeLinks(s, links[..|links| - 1], now), links[|links| - 1], now)
  }

  function Present(links: seq<Link>): set<string> {
    set i | 0 <= i < |links| :: links[i].name
  }

  /** One round of counters; an interface that is gone stops being sampled. */
  function Round(s: State, links: seq<Link>, now: nat): State {
    var seen := SeeLinks(s, links, now);
    State(seen.samples - (seen.samples.Keys - Present(links)), seen.history)
  }

  function Note(s: State, link: Link, now: nat): State {
    s.(history := s.history[link.name := Noted(HistoryAt(s, link.name), link.operstate, now)])
  }

  function Clear(s: State, name: string, stats: Stats, now: nat): State {
    s.(history := s.history[name := Cleared(HistoryAt(s, name), stats, now)])
  }

  // ----- runs ------------------------------------------------------------

  datatype Event =
    | Sampling(links: seq<Link>, now: nat)
    | Noting(link: Link, now: nat)
    | Clearing(name: string, stats: Stats, now: nat)

  function Step(s: State, e: Event): State {
    match e
    case Sampling(links, now) => Round(s, links, now)
    case Noting(link, now) => Note(s, link, now)
    case Clearing(name, stats, now) => Clear(s, name, stats, now)
  }

  function Run(events: seq<Event>): State {
    if events == [] then EMPTY else Step(Run(events[..|events| - 1]), events[|events| - 1])
  }

  // ----- rates -----------------------------------------------------------

  /** The first sample at or after `cutoff`. */
  function FirstSince(samples: seq<Sample>, cutoff: nat): Option<Sample> {
    if samples == [] then None
    else if samples[0].at >= cutoff then Some(samples[0])
    else FirstSince(samples[1..], cutoff)
  }

  function Per(new_: nat, old_: nat, elapsed: nat): real
    requires elapsed > 0
  {
    Minus(new_, old_) as real / elapsed as real
  }

  /** Preamble, start delimiter and gap: the bytes of a frame that no counter counts. */
  const FRAMING := 20.0

  /** The share of the line in use, in percent, framing included; a port of no known speed
      has no line. */
  function Utilisation(bits: real, packets: real, speed: Option<nat>): real {
    if speed.None? || speed.value == 0 then 0.0 else
      var used := bits + packets * FRAMING * 8.0;
      (if used > 0.0 then used else 0.0) / (speed.value as real * 1000000.0) * 100.0
  }

  /** The rates over a list of samples, whoever kept it. */
  function RatesOver(samples: seq<Sample>, interval: nat, speed: Option<nat>): Option<Rates> {
    if samples == [] then None else
      var newest := samples[|samples| - 1];
      var oldest := FirstSince(samples, Minus(newest.at, interval)).UnwrapOr(samples[0]);
      var elapsed := Minus(newest.at, oldest.at);
      if elapsed == 0 then None else
        var inBits, inPackets := Per(newest.inOctets, oldest.inOctets, elapsed) * 8.0, Per(newest.inPackets, oldest.inPackets, elapsed);
        var outBits, outPackets := Per(newest.outOctets, oldest.outOctets, elapsed) * 8.0, Per(newest.outPackets, oldest.outPackets, elapsed);
        Some(Rates(interval, inBits, inPackets, Utilisation(inBits, inPackets, speed),
                   outBits, outPackets, Utilisation(outBits, outPackets, speed)))
  }

  /** Every sample of one interface in a round. */
  function Readings(links: seq<Link>, name: string, now: nat): seq<Sample> {
    if links == [] then [] else
      var last := links[|links| - 1];
      Readings(links[..|links| - 1], name, now)
      + if last.name == name && last.stats.Some? then [Reading(last.stats.value, now)] else []
  }

  /** Every sample of an interface since it last appeared. */
  function Unpruned(events: seq<Event>, name: string): seq<Sample> {
    if events == [] then [] else
      var before := Unpruned(events[..|events| - 1], name);
      match events[|events| - 1]
      case Sampling(links, now) => if name in Present(links) then before + Readings(links, name, now) else []
      case _ => before
  }

  /** The clock does not go back between rounds. */
  ghost predicate Ordered(events: seq<Event>) {
    forall i, j :: 0 <= i < j < |events| && events[i].Sampling? && events[j].Sampling? ==> events[i].now <= events[j].now
  }

  /** `kept` is what pruning leaves of `all`: what was dropped is too old for any window. */
  ghost predicate Keeps(all: seq<Sample>, kept: seq<Sample>) {
    && (kept == [] ==> all == [])
    && |kept| <= |all| && all[|all| - |kept|..] == kept
    && forall i :: 0 <= i < |all| - |kept| ==> all[i].at + HISTORY < all[|all| - 1].at
  }

  lemma {:induction false} PrunedKeeps(samples: seq<Sample>, now: nat)
    requires samples != [] && samples[|samples| - 1].at == now
    ensures Keeps(samples, Pruned(samples, now))
  {
    if Minus(now, samples[0].at) > HISTORY {
      assert |samples| > 1;
      PrunedKeeps(samples[1..], now);
      var kept := Pruned(samples[1..], now);
      forall i | 0 <= i < |samples| - |kept| ensures samples[i].at + HISTORY < now {
        if i > 0 { assert samples[i] == samples[1..][i - 1]; }
      }
    }
  }

  lemma KeepsOneMore(all: seq<Sample>, kept: seq<Sample>, s: Sample)
    requires Keeps(all, kept) && (all != [] ==> all[|all| - 1].at <= s.at)
    ensures Keeps(all + [s], Pruned(kept + [s], s.at))
  {
    PrunedKeeps(kept + [s], s.at);
    hide Pruned;
    KeepsSuffix(all, kept, s, Pruned(kept + [s], s.at));
  }

  lemma KeepsSuffix(all: seq<Sample>, kept: seq<Sample>, s: Sample, left: seq<Sample>)
    requires Keeps(all, kept) && (all != [] ==> all[|all| - 1].at <= s.at) && Keeps(kept + [s], left)
    ensures Keeps(all + [s], left)
  {
    var whole, more, dropped := all + [s], kept + [s], |all| - |kept|;
    assert whole[dropped..] == more;
    assert whole[|whole| - |left|..] == more[|more| - |left|..];
    forall i | 0 <= i < |whole| - |left| ensures whole[i].at + HISTORY < s.at {
      if i >= dropped { assert whole[i] == more[i - dropped]; } else { assert whole[i] == all[i]; }
    }
  }

  ghost predicate AllAt(samples: seq<Sample>, at: nat) {
    forall i :: 0 <= i < |samples| ==> samples[i].at == at
  }

  lemma {:induction false} ReadingsAt(links: seq<Link>, name: string, now: nat)
    ensures AllAt(Readings(links, name, now), now)
  {
    if links != [] { ReadingsAt(links[..|links| - 1], name, now); }
  }

  lemma SeenSamples(s: State, link: Link, now: nat, name: string)
    ensures SamplesAt(SeeLink(s, link, now), name) ==
            if link.name == name && link.stats.Some? then Pruned(SamplesAt(s, name) + [Reading(link.stats.value, now)], now)
            else SamplesAt(s, name)
  {
    hide Pruned, Sampled;
  }

  /** A round keeps the window of one interface. */
  lemma {:induction false} RoundKeeps(s: State, links: seq<Link>, now: nat, name: string, all: seq<Sample>)
    requires Keeps(all, SamplesAt(s, name)) && (all != [] ==> all[|all| - 1].at <= now)
    ensures Keeps(all + Readings(links, name, now), SamplesAt(SeeLinks(s, links, now), name))
    decreases |links|
  {
    hide Keeps, Pruned, SeeLink, SamplesAt;
    if links == [] {
      assert all + [] == all;
    } else {
      var front, last := links[..|links| - 1], links[|links| - 1];
      RoundKeeps(s, front, now, name, all);
      ReadingsAt(front, name, now);
      SeenSamples(SeeLinks(s, front, now), last, now, name);
      var soFar := all + Readings(front, name, now);
      if last.name == name && last.stats.Some? {
        KeepsOneMore(soFar, SamplesAt(SeeLinks(s, front, now), name), Reading(last.stats.value, now));
        assert all + Readings(links, name, now) == soFar + [Reading(last.stats.value, now)];
      } else {
        assert all + Readings(links, name, now) == soFar;
      }
    }
  }

  ghost predicate LatestBefore(events: seq<Event>, all: seq<Sample>) {
    all == [] || exists i :: 0 <= i < |events| && events[i].Sampling? && events[i].now == all[|all| - 1].at
  }

  lemma {:induction false} UnprunedLatest(events: seq<Event>, name: string)
    ensures LatestBefore(events, Unpruned(events, name))
  {
    hide Present;
    if events != [] {
      var front, last := events[..|events| - 1], events[|events| - 1];
      UnprunedLatest(front, name);
      var before := Unpruned(front, name);
      assert before != [] ==> exists i :: 0 <= i < |front| && events[i] == front[i] && events[i].Sampling? && events[i].now == before[|before| - 1].at;
      if last.Sampling? {
        ReadingsAt(last.links, name, last.now);
        assert events[|events| - 1] == last;
      }
    }
  }

  lemma OrderedFront(events: seq<Event>)
    requires Ordered(events) && events != []
    ensures Ordered(events[..|events| - 1])
  {
    var front := events[..|events| - 1];
    assert forall i :: 0 <= i < |front| ==> front[i] == events[i];
  }

  lemma SampledBefore(events: seq<Event>, name: string)
    requires Ordered(events) && events != [] && events[|events| - 1].Sampling?
    ensures var all := Unpruned(events[..|events| - 1], name);
            all != [] ==> all[|all| - 1].at <= events[|events| - 1].now
  {
    var front, last := events[..|events| - 1], events[|events| - 1];
    UnprunedLatest(front, name);
    hide Unpruned;
    var all := Unpruned(front, name);
    if all != [] {
      var i :| 0 <= i < |front| && front[i].Sampling? && front[i].now == all[|all| - 1].at;
      assert front[i] == events[i];
    }
  }

  lemma RoundSamples(s: State, links: seq<Link>, now: nat, name: string)
    ensures SamplesAt(Round(s, links, now), name) == if name in Present(links) then SamplesAt(SeeLinks(s, links, now), name) else []
  {
    hide SeeLinks, Present;
  }

  lemma OthersKeepSamples(s: State, e: Event, name: string)
    requires !e.Sampling?
    ensures SamplesAt(Step(s, e), name) == SamplesAt(s, name)
  {
  }

  lemma {:induction false} WindowKept(events: seq<Event>, name: string)
    requires Ordered(events)
    ensures Keeps(Unpruned(events, name), SamplesAt(Run(events), name))
  {
    hide Keeps, SamplesAt, Ordered, SeeLinks, Readings, Present, Round, Note, Clear;
    if events == [] {
      assert Keeps(Unpruned(events, name), SamplesAt(Run(events), name)) by { NothingKept(name); }
    } else {
      var front, last := events[..|events| - 1], events[|events| - 1];
      OrderedFront(events);
      WindowKept(front, name);
      match last {
        case Sampling(links, now) =>
          SampledBefore(events, name);
          RoundSamples(Run(front), links, now, name);
          if name in Present(links) {
            RoundKeeps(Run(front), links, now, name, Unpruned(front, name));
          } else {
            KeepsNothing();
          }
        case _ =>
          OthersKeepSamples(Run(front), last, name);
      }
    }
  }

  lemma NothingKept(name: string)
    ensures SamplesAt(EMPTY, name) == [] && Keeps([], [])
  {
  }

  lemma KeepsNothing()
    ensures Keeps([], [])
  {
  }

  lemma {:induction false} FirstSinceSkips(all: seq<Sample>, k: nat, cutoff: nat)
    requires k <= |all| && forall i :: 0 <= i < k ==> all[i].at < cutoff
    ensures FirstSince(all, cutoff) == FirstSince(all[k..], cutoff)
    decreases k
  {
    if k > 0 {
      assert all[1..][k - 1..] == all[k..];
      FirstSinceSkips(all[1..], k - 1, cutoff);
    }
  }

  lemma {:induction false} NewestQualifies(samples: seq<Sample>, cutoff: nat)
    requires samples != [] && samples[|samples| - 1].at >= cutoff
    ensures FirstSince(samples, cutoff).Some?
  {
    if samples[0].at < cutoff { NewestQualifies(samples[1..], cutoff); }
  }

  lemma SameRates(all: seq<Sample>, kept: seq<Sample>, interval: nat, speed: Option<nat>)
    requires Keeps(all, kept) && interval <= HISTORY
    ensures RatesOver(kept, interval, speed) == RatesOver(all, interval, speed)
  {
    if all != [] {
      var newest := all[|all| - 1];
      assert kept[|kept| - 1] == newest;
      var cutoff := Minus(newest.at, interval);
      FirstSinceSkips(all, |all| - |kept|, cutoff);
      NewestQualifies(kept, cutoff);
    }
  }

  /** For every run of the tracker whose clock does not go back, and every interval up to
      the window: the rate over the pruned buffer is the rate over every sample taken
      since the interface last appeared. */
  lemma PruningIsInvisible(events: seq<Event>, name: string, interval: nat, speed: Option<nat>)
    requires Ordered(events) && interval <= HISTORY
    ensures RatesOver(SamplesAt(Run(events), name), interval, speed) == RatesOver(Unpruned(events, name), interval, speed)
  {
    hide Keeps, RatesOver, Ordered, Run, Unpruned;
    WindowKept(events, name);
    SameRates(Unpruned(events, name), SamplesAt(Run(events), name), interval, speed);
  }

  function Octets(octets: nat): Stats {
    Stats(0, 0, octets, 0, 0, 0, 0, 0, 0, 0, 0, 0, 0, 0)
  }

  function One(octets: nat, now: nat): Event {
    Sampling([Link("eth0", 6, Some(Octets(octets)))], now)
  }

  lemma OneSample(s: State, octets: nat, now: nat)
    ensures SamplesAt(Step(s, One(octets, now)), "eth0") == Pruned(SamplesAt(s, "eth0") + [Sample(now, octets, 0, 0, 0)], now)
    ensures forall events :: Unpruned(events + [One(octets, now)], "eth0") == Unpruned(events, "eth0") + [Sample(now, octets, 0, 0, 0)]
  {
    var links := [Link("eth0", 6, Some(Octets(octets)))];
    assert links[0].name in Present(links);
    assert links[..0] == [];
    assert SeeLinks(s, links, now) == SeeLink(s, links[0], now);
    assert Readings(links, "eth0", now) == [Sample(now, octets, 0, 0, 0)];
    forall events ensures Unpruned(events + [One(octets, now)], "eth0") == Unpruned(events, "eth0") + [Sample(now, octets, 0, 0, 0)] {
      var more := events + [One(octets, now)];
      assert more[..|events|] == events;
    }
  }

  lemma RunMore(events: seq<Event>, e: Event)
    ensures Run(events + [e]) == Step(Run(events), e)
  {
    hide Step;
    assert (events + [e])[..|events|] == events;
  }

  /** The window is exactly that long: a second more and pruning shows. */
  lemma WindowIsExact()
    ensures exists events, name :: Ordered(events) &&
              RatesOver(SamplesAt(Run(events), name), HISTORY + 1, None) != RatesOver(Unpruned(events, name), HISTORY + 1, None)
  {
    hide Step, Pruned, RatesOver, Ordered, One;
    var a, b, c := Sample(0, 0, 0, 0, 0), Sample(1, 0, 0, 0, 0), Sample(901, 901, 0, 0, 0);
    ExactWindow(a, b, c);
    var e0: seq<Event> := [];
    assert SamplesAt(Run(e0), "eth0") == [] && Unpruned(e0, "eth0") == [];
    hide Run, Unpruned, SamplesAt;
    var e1, e2, e3 := e0 + [One(0, 0)], e0 + [One(0, 0)] + [One(0, 1)], e0 + [One(0, 0)] + [One(0, 1)] + [One(901, 901)];
    OneSample(Run(e0), 0, 0);
    RunMore(e0, One(0, 0));
    assert [] + [a] == [a] && [a] + [b] == [a, b] && [a, b] + [c] == [a, b, c];
    OneSample(Run(e1), 0, 1);
    RunMore(e1, One(0, 1));
    OneSample(Run(e2), 901, 901);
    RunMore(e2, One(901, 901));
    assert Ordered(e3) by { InOrder(e3); }
    assert RatesOver(SamplesAt(Run(e3), "eth0"), HISTORY + 1, None) != RatesOver(Unpruned(e3, "eth0"), HISTORY + 1, None);
  }

  lemma InOrder(events: seq<Event>)
    requires |events| == 3 && events[0] == One(0, 0) && events[1] == One(0, 1) && events[2] == One(901, 901)
    ensures Ordered(events)
  {
  }

  lemma ExactWindow(a: Sample, b: Sample, c: Sample)
    requires a == Sample(0, 0, 0, 0, 0) && b == Sample(1, 0, 0, 0, 0) && c == Sample(901, 901, 0, 0, 0)
    ensures Pruned([a], 0) == [a] && Pruned([a, b], 1) == [a, b] && Pruned([a, b] + [c], 901) == [b, c]
    ensures RatesOver([b, c], HISTORY + 1, None) != RatesOver([a, b, c], HISTORY + 1, None)
  {
    assert ([a, b] + [c])[1..] == [b, c];
    assert FirstSince([a, b, c], 0) == Some(a) && FirstSince([b, c], 0) == Some(b);
  }
}
