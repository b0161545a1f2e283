/** The tracker as it is written: two maps updated in place, tied to `Tracker`. */
module TrackerObject {
  import opened Wrappers
  import T = Tracker
  import H = TrackerHistory
  import R = TrackerRates

  class Tracker {
    var samples: map<string, seq<T.Sample>>
    var history: map<string, T.History>
    /** Everything the tracker was told, in order. */
    ghost var events: seq<T.Event>

    function View(): T.State
      reads this
    {
      T.State(samples, history)
    }

    ghost predicate Valid()
      reads this
    {
      View() == T.Run(events)
    }

    constructor ()
      ensures Valid() && events == []
    {
      samples, history, events := map[], map[], [];
    }

    method SeeState(link: T.Link, now: nat)
      modifies this`history
      ensures history == old(history)[link.name := T.Sampled(T.HistoryAt(old(View()), link.name), link.operstate, now)]
    {
      var h := if link.name in history then history[link.name] else T.FRESH;
      if h.since.None? {
        h := h.(since := Some(now), operstate := link.operstate);
      } else if h.operstate != link.operstate {
        h := h.(operstate := link.operstate, changes := h.changes + 1, since := Some(now));
      }
      history := history[link.name := h];
    }

    method PushSample(name: string, stats: T.Stats, now: nat)
      modifies this`samples
      ensures samples == old(samples)[name := T.Pruned(T.SamplesAt(old(View()), name) + [T.Reading(stats, now)], now)]
    {
      var buffer := (if name in samples then samples[name] else []) + [T.Reading(stats, now)];
      ghost var pushed := buffer;
      while buffer != [] && T.Minus(now, buffer[0].at) > T.HISTORY
        invariant T.Pruned(buffer, now) == T.Pruned(pushed, now)
        decreases |buffer|
      {
        buffer := buffer[1..];
      }
      samples := samples[name := buffer];
    }

    /** Record one round of counters, and notice anything that changed state. */
    method Sample(links: seq<T.Link>, now: nat)
      requires Valid()
      modifies this
      ensures Valid() && events == old(events) + [T.Sampling(links, now)]
    {
      hide T.Pruned, T.Sampled;
      ghost var start := View();
      var i := 0;
      while i < |links|
        invariant 0 <= i <= |links|
        invariant View() == T.SeeLinks(start, links[..i], now) && events == old(events)
        modifies this
      {
        assert links[..i + 1][..i] == links[..i];
        SeeState(links[i], now);
        match links[i].stats {
          case None =>
          case Some(stats) => PushSample(links[i].name, stats, now);
        }
        i := i + 1;
      }
      assert links[..i] == links;
      var present := T.Present(links);
      samples := samples - (samples.Keys - present);
      events := events + [T.Sampling(links, now)];
      T.RunMore(old(events), T.Sampling(links, now));
    }

    /** A link event that arrived between samples. */
    method NoteEvent(link: T.Link, now: nat)
      requires Valid()
      modifies this
      ensures Valid() && events == old(events) + [T.Noting(link, now)]
    {
      hide T.SeeLinks, T.Present;
      var h := if link.name in history then history[link.name] else T.FRESH;
      if h.since.Some? && h.operstate != link.operstate {
        h := h.(changes := h.changes + 1, since := Some(now));
      }
      h := h.(operstate := link.operstate);
      if h.since.None? { h := h.(since := Some(now)); }
      history := history[link.name := h];
      events := events + [T.Noting(link, now)];
      T.RunMore(old(events), T.Noting(link, now));
    }

    method Clear(name: string, stats: T.Stats, now: nat)
      requires Valid()
      modifies this
      ensures Valid() && events == old(events) + [T.Clearing(name, stats, now)]
    {
      hide T.SeeLinks, T.Present;
      var h := if name in history then history[name] else T.FRESH;
      history := history[name := h.(baseline := Some(stats), clearedAt := Some(now), changes := 0)];
      events := events + [T.Clearing(name, stats, now)];
      T.RunMore(old(events), T.Clearing(name, stats, now));
    }

    /** The rate over the buffer, which is the rate over everything ever sampled since the
        interface appeared, as long as the clock never went back: the mean growth of each
        counter from the oldest reading within the interval. */
    method Rates(name: string, interval: nat, speed: Option<nat>) returns (r: Option<T.Rates>)
      requires Valid()
      ensures r == T.RatesOver(T.SamplesAt(View(), name), interval, speed)
      ensures T.Ordered(events) && interval <= T.HISTORY ==> r == T.RatesOver(T.Unpruned(events, name), interval, speed)
      ensures T.Ordered(events) && interval <= T.HISTORY ==> R.Tells(r, R.Counts(events, name), interval, speed)
    {
      if T.Ordered(events) && interval <= T.HISTORY {
        T.PruningIsInvisible(events, name, interval, speed);
        R.RunTells(events, name, interval, speed);
      }
      hide T.Run, T.Unpruned, T.Ordered, T.Utilisation, R.Tells, R.Counts;
      if name !in samples || samples[name] == [] { return None; }
      var buffer := samples[name];
      var newest := buffer[|buffer| - 1];
      var cutoff := T.Minus(newest.at, interval);
      var i := 0;
      while i < |buffer| && buffer[i].at < cutoff
        invariant 0 <= i <= |buffer|
        invariant T.FirstSince(buffer[i..], cutoff) == T.FirstSince(buffer, cutoff)
      {
        assert buffer[i..][1..] == buffer[i + 1..];
        i := i + 1;
      }
      var oldest := if i < |buffer| then buffer[i] else buffer[0];
      assert T.FirstSince(buffer, cutoff) == if i < |buffer| then Some(buffer[i]) else None;
      var elapsed := T.Minus(newest.at, oldest.at);
      if elapsed == 0 { return None; }
      var inBits, inPackets := T.Per(newest.inOctets, oldest.inOctets, elapsed) * 8.0, T.Per(newest.inPackets, oldest.inPackets, elapsed);
      var outBits, outPackets := T.Per(newest.outOctets, oldest.outOctets, elapsed) * 8.0, T.Per(newest.outPackets, oldest.outPackets, elapsed);
      r := Some(T.Rates(interval, inBits, inPackets, T.Utilisation(inBits, inPackets, speed),
                        outBits, outPackets, T.Utilisation(outBits, outPackets, speed)));
    }

    /** Transitions since the last clear, however they were noticed. */
    method Changes(name: string) returns (n: nat)
      requires Valid()
      ensures n == |H.TurnsSinceWipe(H.Marks(events, name))|
    {
      H.HistoryTells(events, name);
      hide T.Run, H.Marks, H.TurnsSinceWipe;
      n := if name in history then history[name].changes else 0;
    }

    /** Seconds the link has been in its current state. */
    method Since(name: string, now: nat) returns (r: Option<nat>)
      requires Valid()
      ensures r.Some? ==> exists i :: H.Entered(H.Marks(events, name), i) && r.value == T.Minus(now, H.Marks(events, name)[i].at)
      ensures r.None? <==> forall i :: 0 <= i < |H.Marks(events, name)| ==> !H.Marks(events, name)[i].Seen?
    {
      H.HistoryTells(events, name);
      hide T.Run, H.Marks, H.TurnsSinceWipe, H.Entered, H.Latest;
      if name !in history { return None; }
      match history[name].since {
        case None => r := None;
        case Some(at) => r := Some(T.Minus(now, at));
      }
    }

    /** The counters as they are shown: what they came to since they were last cleared. */
    method Shown(name: string, stats: T.Stats) returns (shown: T.Stats)
      requires Valid()
      ensures shown == match H.LastClear(events, name) case None => stats case Some((then_, _)) => T.Since(stats, then_)
      ensures R.Grown(shown, stats, match H.LastClear(events, name) case None => None case Some((then_, _)) => Some(then_))
    {
      if H.LastClear(events, name).Some? { R.SinceIsGrowth(stats, H.LastClear(events, name).value.0); }
      H.BaselineTells(events, name);
      hide T.Run, H.LastClear, T.Since;
      if name !in history { return stats; }
      match history[name].baseline {
        case None => shown := stats;
        case Some(baseline) => shown := T.Since(stats, baseline);
      }
    }

    /** Seconds since the counters were cleared. */
    method LastClear(name: string, now: nat) returns (r: Option<nat>)
      requires Valid()
      ensures r == match H.LastClear(events, name) case None => None case Some((_, at)) => Some(T.Minus(now, at))
    {
      H.BaselineTells(events, name);
      hide T.Run, H.LastClear;
      if name !in history { return None; }
      match history[name].clearedAt {
        case None => r := None;
        case Some(at) => r := Some(T.Minus(now, at));
      }
    }
  }
}
