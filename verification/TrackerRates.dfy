/** What a rate is, in the counters the tracker was told of. */
module TrackerRates {
  import opened Wrappers
  import opened Tracker

  /** The counters of an interface, and when they were read. */
  datatype Count = Count(at: nat, stats: Stats)

  function Told(links: seq<Link>, name: string, now: nat): seq<Count> {
    if links == [] then [] else
      var last := links[|links| - 1];
      Told(links[..|links| - 1], name, now) + if last.name == name && last.stats.Some? then [Count(now, last.stats.value)] else []
  }

  predicate Among(links: seq<Link>, name: string) {
    exists i :: 0 <= i < |links| && links[i].name == name
  }

  /** Everything the tracker was told of an interface since it last appeared. */
  function Counts(events: seq<Event>, name: string): seq<Count> {
    if events == [] then [] else
      var before := Counts(events[..|events| - 1], name);
      match events[|events| - 1]
      case Sampling(links, now) => if Among(links, name) then before + Told(links, name, now) else []
      case _ => before
  }

  /** The oldest reading within `interval` of the newest. */
  ghost predicate OldestWithin(counts: seq<Count>, i: int, interval: nat) {
    && 0 <= i < |counts| && counts[i].at + interval >= counts[|counts| - 1].at
    && forall j :: 0 <= j < i ==> counts[j].at + interval < counts[|counts| - 1].at
  }

  function Growth(now: nat, before: nat): nat {
    if now > before then now - before else 0
  }

  /** The share of a line of `speed` megabits a second: each frame takes twenty bytes more
      on the wire than its counters say. */
  ghost predicate LineShare(percent: real, bits: real, packets: real, speed: Option<nat>) {
    if speed.None? || speed.value == 0 then percent == 0.0
    else percent * (speed.value as real * 10000.0) == bits + packets * 160.0
  }

  /** The mean rates over `elapsed` seconds in which the counters went from `old` to `now`;
      a counter that went back counts for nothing. */
  ghost predicate MeanRates(r: Rates, old_: Stats, now: Stats, elapsed: nat, speed: Option<nat>) {
    && r.inBits * elapsed as real == 8.0 * Growth(now.rxBytes, old_.rxBytes) as real
    && r.inPackets * elapsed as real == Growth(now.rxPackets, old_.rxPackets) as real
    && r.outBits * elapsed as real == 8.0 * Growth(now.txBytes, old_.txBytes) as real
    && r.outPackets * elapsed as real == Growth(now.txPackets, old_.txPackets) as real
    && LineShare(r.inPercent, r.inBits, r.inPackets, speed) && LineShare(r.outPercent, r.outBits, r.outPackets, speed)
  }

  /** What the rates say of the readings: nothing without two of different times, and
      otherwise the means from the oldest within the interval to the newest. */
  ghost predicate Tells(r: Option<Rates>, counts: seq<Count>, interval: nat, speed: Option<nat>) {
    && (counts == [] ==> r.None?)
    && forall i :: OldestWithin(counts, i, interval) ==> TellsBetween(r, counts[i], counts[|counts| - 1], interval, speed)
  }

  ghost predicate TellsBetween(r: Option<Rates>, old_: Count, newest: Count, interval: nat, speed: Option<nat>) {
    && (r.None? <==> newest.at <= old_.at)
    && (r.Some? ==> r.value.interval == interval && MeanRates(r.value, old_.stats, newest.stats, newest.at - old_.at, speed))
  }

  /** There is such a reading whenever there is any. */
  lemma OldestExists(counts: seq<Count>, interval: nat)
    requires counts != []
    ensures exists i :: OldestWithin(counts, i, interval)
  {
    var i := OldestFrom(counts, 0, interval);
  }

  lemma {:induction false} OldestFrom(counts: seq<Count>, from: nat, interval: nat) returns (i: nat)
    requires from < |counts| && forall j :: 0 <= j < from ==> counts[j].at + interval < counts[|counts| - 1].at
    ensures OldestWithin(counts, i, interval)
    decreases |counts| - from
  {
    if counts[from].at + interval >= counts[|counts| - 1].at { i := from; } else { i := OldestFrom(counts, from + 1, interval); }
  }

  // ----- the samples that are kept ---------------------------------------

  ghost predicate Reads(s: Sample, c: Count) {
    && s.at == c.at && s.inOctets == c.stats.rxBytes && s.inPackets == c.stats.rxPackets
    && s.outOctets == c.stats.txBytes && s.outPackets == c.stats.txPackets
  }

  /** The samples hold the traffic counters of the readings. */
  ghost predicate SampledFrom(samples: seq<Sample>, counts: seq<Count>) {
    && |samples| == |counts|
    && forall i :: 0 <= i < |counts| ==> Reads(samples[i], counts[i])
  }

  lemma {:induction false} ReadingsSampled(links: seq<Link>, name: string, now: nat)
    ensures SampledFrom(Readings(links, name, now), Told(links, name, now))
  {
    if links != [] { ReadingsSampled(links[..|links| - 1], name, now); }
  }

  lemma SampledConcat(a: seq<Sample>, b: seq<Sample>, c: seq<Count>, d: seq<Count>)
    requires SampledFrom(a, c) && SampledFrom(b, d)
    ensures SampledFrom(a + b, c + d)
  {
  }

  lemma {:induction false} UnprunedSampled(events: seq<Event>, name: string)
    ensures SampledFrom(Unpruned(events, name), Counts(events, name))
  {
    hide Readings, Told, SampledFrom, Present;
    if events == [] {
      NothingSampled();
    } else {
      var front, last := events[..|events| - 1], events[|events| - 1];
      UnprunedSampled(front, name);
      if last.Sampling? {
        ReadingsSampled(last.links, name, last.now);
        AmongPresent(last.links, name);
        SampledConcat(Unpruned(front, name), Readings(last.links, name, last.now), Counts(front, name), Told(last.links, name, last.now));
        NothingSampled();
      }
    }
  }

  lemma NothingSampled()
    ensures SampledFrom([], [])
  {
  }

  lemma AmongPresent(links: seq<Link>, name: string)
    ensures name in Present(links) <==> Among(links, name)
  {
  }

  // ----- the rates -------------------------------------------------------

  lemma {:induction false} FirstSinceIs(samples: seq<Sample>, cutoff: nat, i: nat)
    requires i < |samples| && samples[i].at >= cutoff && forall j :: 0 <= j < i ==> samples[j].at < cutoff
    ensures FirstSince(samples, cutoff) == Some(samples[i])
    decreases i
  {
    if i > 0 { FirstSinceIs(samples[1..], cutoff, i - 1); }
  }

  lemma PerIs(new_: nat, old_: nat, elapsed: nat)
    requires elapsed > 0
    ensures Per(new_, old_, elapsed) * elapsed as real == Growth(new_, old_) as real
    ensures Per(new_, old_, elapsed) * 8.0 * elapsed as real == 8.0 * Growth(new_, old_) as real
    ensures Per(new_, old_, elapsed) >= 0.0
  {
    var per, e := Per(new_, old_, elapsed), elapsed as real;
    assert per * e == Growth(new_, old_) as real;
    assert per * 8.0 * e == 8.0 * (per * e);
  }

  lemma UtilisationIs(bits: real, packets: real, speed: Option<nat>)
    requires bits >= 0.0 && packets >= 0.0
    ensures LineShare(Utilisation(bits, packets, speed), bits, packets, speed)
  {
    if speed.Some? && speed.value > 0 {
      var used, line := bits + packets * 160.0, speed.value as real * 1000000.0;
      assert used >= 0.0 && packets * FRAMING * 8.0 == packets * 160.0;
      Share(used, line);
    }
  }

  lemma Share(used: real, line: real)
    requires line > 0.0
    ensures used / line * 100.0 * (line / 100.0) == used
  {
    assert used / line * 100.0 * (line / 100.0) == used / line * line;
  }

  lemma RatesTell(samples: seq<Sample>, counts: seq<Count>, interval: nat, speed: Option<nat>)
    requires SampledFrom(samples, counts)
    ensures Tells(RatesOver(samples, interval, speed), counts, interval, speed)
  {
    hide RatesOver, TellsBetween;
    if counts == [] { NoRates(interval, speed); }
    forall i | OldestWithin(counts, i, interval)
      ensures TellsBetween(RatesOver(samples, interval, speed), counts[i], counts[|counts| - 1], interval, speed)
    {
      var newest := samples[|samples| - 1];
      FirstSinceIs(samples, Minus(newest.at, interval), i);
      RatesFrom(samples, i, counts[i], counts[|counts| - 1], interval, speed);
    }
  }

  lemma NoRates(interval: nat, speed: Option<nat>)
    ensures RatesOver([], interval, speed).None?
  {
  }

  lemma RatesFrom(samples: seq<Sample>, i: nat, old_: Count, newest: Count, interval: nat, speed: Option<nat>)
    requires i < |samples| && Reads(samples[i], old_) && Reads(samples[|samples| - 1], newest)
    requires FirstSince(samples, Minus(newest.at, interval)) == Some(samples[i])
    ensures TellsBetween(RatesOver(samples, interval, speed), old_, newest, interval, speed)
  {
    hide Utilisation, Per, FirstSince, LineShare, Growth;
    if newest.at > old_.at { MeansAre(samples[i], samples[|samples| - 1], newest.at - old_.at, speed); }
  }

  lemma MeansAre(old_: Sample, newest: Sample, elapsed: nat, speed: Option<nat>)
    requires elapsed > 0
    ensures var inBits, inPackets := Per(newest.inOctets, old_.inOctets, elapsed) * 8.0, Per(newest.inPackets, old_.inPackets, elapsed);
            var outBits, outPackets := Per(newest.outOctets, old_.outOctets, elapsed) * 8.0, Per(newest.outPackets, old_.outPackets, elapsed);
            && inBits * elapsed as real == 8.0 * Growth(newest.inOctets, old_.inOctets) as real
            && inPackets * elapsed as real == Growth(newest.inPackets, old_.inPackets) as real
            && outBits * elapsed as real == 8.0 * Growth(newest.outOctets, old_.outOctets) as real
            && outPackets * elapsed as real == Growth(newest.outPackets, old_.outPackets) as real
            && LineShare(Utilisation(inBits, inPackets, speed), inBits, inPackets, speed)
            && LineShare(Utilisation(outBits, outPackets, speed), outBits, outPackets, speed)
  {
    hide Per, Utilisation, LineShare, Growth;
    PerIs(newest.inOctets, old_.inOctets, elapsed);
    PerIs(newest.inPackets, old_.inPackets, elapsed);
    PerIs(newest.outOctets, old_.outOctets, elapsed);
    PerIs(newest.outPackets, old_.outPackets, elapsed);
    UtilisationIs(Per(newest.inOctets, old_.inOctets, elapsed) * 8.0, Per(newest.inPackets, old_.inPackets, elapsed), speed);
    UtilisationIs(Per(newest.outOctets, old_.outOctets, elapsed) * 8.0, Per(newest.outPackets, old_.outPackets, elapsed), speed);
  }

  /** For every run whose clock does not go back and every interval up to the window: the
      rates the tracker gives are the mean growth of the counters it was told of. */
  lemma RunTells(events: seq<Event>, name: string, interval: nat, speed: Option<nat>)
    requires Ordered(events) && interval <= HISTORY
    ensures Tells(RatesOver(SamplesAt(Run(events), name), interval, speed), Counts(events, name), interval, speed)
  {
    hide Tells, SampledFrom, RatesOver, Run, Counts, Unpruned, Ordered;
    PruningIsInvisible(events, name, interval, speed);
    UnprunedSampled(events, name);
    RatesTell(Unpruned(events, name), Counts(events, name), interval, speed);
  }

  // ----- counters since a clear ------------------------------------------

  const COUNTERS := 14

  /** One counter of an interface. */
  function At(s: Stats, i: nat): nat
    requires i < COUNTERS
  {
    match i
    case 0 => s.rxPackets case 1 => s.txPackets case 2 => s.rxBytes case 3 => s.txBytes
    case 4 => s.rxErrors case 5 => s.txErrors case 6 => s.rxDropped case 7 => s.txDropped
    case 8 => s.multicast case 9 => s.collisions case 10 => s.rxLengthErrors case 11 => s.rxOverErrors
    case 12 => s.rxCrcErrors case _ => s.rxFrameErrors
  }

  /** Each counter shown is its own growth since the baseline, if there is one. */
  ghost predicate Grown(shown: Stats, stats: Stats, baseline: Option<Stats>) {
    forall i :: 0 <= i < COUNTERS ==>
      At(shown, i) == if baseline.None? then At(stats, i) else Growth(At(stats, i), At(baseline.value, i))
  }

  lemma CounterGrows(stats: Stats, baseline: Stats, i: nat)
    requires i < COUNTERS
    ensures At(Since(stats, baseline), i) == Growth(At(stats, i), At(baseline, i))
  {
  }

  lemma SinceIsGrowth(stats: Stats, baseline: Stats)
    ensures Grown(Since(stats, baseline), stats, Some(baseline))
  {
    hide Since, At, Growth;
    forall i | 0 <= i < COUNTERS ensures At(Since(stats, baseline), i) == Growth(At(stats, i), At(baseline, i)) {
      CounterGrows(stats, baseline, i);
    }
  }
}
