/** Sliding-window traffic metrics: samples kept in a queue that is trimmed lazily from the head. */
module Metrics {
  import opened Wrappers
  import opened Percentiles

  datatype Sample = Sample(completedAt: real, path: string, latencyMs: real, statusCode: int)

  /** What has happened to the in-flight counter. */
  datatype Tick = Started | Finished

  datatype WindowError = NotPositive

  datatype Snapshot = Snapshot(
    windowSeconds: int,
    originRequestRate: real,
    concurrentRequests: int,
    requestCount: nat,
    errorRate: real,
    p50: real,
    p95: real,
    p99: real,
    requestsByPath: map<string, nat>)

  // ---------- the window ----------

  /** Samples completed at or after `cutoff`. */
  function Retained(samples: seq<Sample>, cutoff: real): seq<Sample>
  {
    if samples == [] then []
    else Retained(samples[..|samples| - 1], cutoff) +
         if samples[|samples| - 1].completedAt >= cutoff then [samples[|samples| - 1]] else []
  }

  predicate Ordered(samples: seq<Sample>)
  {
    forall i, j | 0 <= i <= j < |samples| :: samples[i].completedAt <= samples[j].completedAt
  }

  /** Every sample was completed between two times. */
  predicate CompletedWithin(samples: seq<Sample>, from: real, to: real)
  {
    forall i | 0 <= i < |samples| :: from <= samples[i].completedAt <= to
  }

  lemma {:induction false} RetainedKeepsAll(samples: seq<Sample>, cutoff: real)
    requires forall i | 0 <= i < |samples| :: samples[i].completedAt >= cutoff
    ensures Retained(samples, cutoff) == samples
  {
    if samples != [] {
      RetainedKeepsAll(samples[..|samples| - 1], cutoff);
    }
  }

  lemma {:induction false} RetainedDropsHead(samples: seq<Sample>, cutoff: real)
    requires samples != [] && samples[0].completedAt < cutoff
    ensures Retained(samples, cutoff) == Retained(samples[1..], cutoff)
  {
    if |samples| > 1 {
      RetainedDropsHead(samples[..|samples| - 1], cutoff);
      assert samples[1..][..|samples| - 2] == samples[..|samples| - 1][1..];
    }
  }

  /** Trimming early loses nothing that a later trim would have kept. */
  lemma {:induction false} RetainedTwice(samples: seq<Sample>, early: real, late: real)
    requires early <= late
    ensures Retained(Retained(samples, early), late) == Retained(samples, late)
  {
    if samples != [] {
      RetainedTwice(samples[..|samples| - 1], early, late);
      var kept := Retained(samples[..|samples| - 1], early);
      var last := samples[|samples| - 1];
      RetainedAppend(kept, last, late);
      assert kept + [] == kept;
    }
  }

  lemma RetainedAppend(samples: seq<Sample>, last: Sample, cutoff: real)
    ensures Retained(samples + [last], cutoff) ==
            Retained(samples, cutoff) + if last.completedAt >= cutoff then [last] else []
  {}

  lemma AppendKeepsOrder(history: seq<Sample>, last: Sample, from: real, clock: real)
    requires Ordered(history) && CompletedWithin(history, from, clock)
    requires from <= clock <= last.completedAt
    ensures Ordered(history + [last]) && CompletedWithin(history + [last], from, last.completedAt)
  {}

  lemma LaterBound(history: seq<Sample>, from: real, clock: real, now: real)
    requires CompletedWithin(history, from, clock) && clock <= now
    ensures CompletedWithin(history, from, now)
  {}

  /** The retained samples of an ordered history are exactly those from some position on. */
  lemma {:induction false} RetainedIsSuffix(history: seq<Sample>, cutoff: real) returns (k: nat)
    requires Ordered(history)
    ensures k <= |history| && Retained(history, cutoff) == history[k..]
    ensures forall i | 0 <= i < |history| :: history[i].completedAt >= cutoff <==> k <= i
  {
    if history == [] || history[0].completedAt >= cutoff {
      RetainedKeepsAll(history, cutoff);
      k := 0;
    } else {
      RetainedDropsHead(history, cutoff);
      var tail := RetainedIsSuffix(history[1..], cutoff);
      k := tail + 1;
      forall i | 0 <= i < |history|
        ensures history[i].completedAt >= cutoff <==> k <= i
      {
        if i > 0 {
          assert history[i] == history[1..][i - 1];
        }
      }
    }
  }

  // ---------- the in-flight counter ----------

  /** The counter after `ticks`: a finish never takes it below zero. */
  function InFlightAfter(ticks: seq<Tick>): int
  {
    if ticks == [] then 0
    else
      var before := InFlightAfter(ticks[..|ticks| - 1]);
      if ticks[|ticks| - 1].Started? then before + 1 else Max(0, before - 1)
  }

  /** Starts minus finishes. */
  function Balance(ticks: seq<Tick>): int
  {
    if ticks == [] then 0
    else Balance(ticks[..|ticks| - 1]) + if ticks[|ticks| - 1].Started? then 1 else -1
  }

  lemma BalanceOfSuffix(ticks: seq<Tick>, j: nat)
    requires j < |ticks|
    ensures Balance(ticks[j..]) ==
            Balance(ticks[..|ticks| - 1][j..]) + if ticks[|ticks| - 1].Started? then 1 else -1
  {
    assert ticks[j..][..|ticks[j..]| - 1] == ticks[..|ticks| - 1][j..];
  }

  /** The counter is the largest balance of any suffix, the empty one included. */
  lemma {:induction false} InFlightIsLargestSuffixBalance(ticks: seq<Tick>) returns (k: nat)
    ensures k <= |ticks| && InFlightAfter(ticks) == Balance(ticks[k..])
    ensures forall j | 0 <= j <= |ticks| :: Balance(ticks[j..]) <= InFlightAfter(ticks)
  {
    if ticks == [] {
      k := 0;
    } else {
      var n := |ticks| - 1;
      var m := InFlightIsLargestSuffixBalance(ticks[..n]);
      BalanceOfSuffix(ticks, m);
      assert ticks[n + 1..] == [] && ticks[..n][n..] == [];
      k := if ticks[n].Finished? && InFlightAfter(ticks[..n]) == 0 then n + 1 else m;
      forall j | 0 <= j <= |ticks|
        ensures Balance(ticks[j..]) <= InFlightAfter(ticks)
      {
        if j <= n {
          BalanceOfSuffix(ticks, j);
          assert Balance(ticks[..n][j..]) <= InFlightAfter(ticks[..n]);
        }
      }
    }
  }

  lemma InFlightStep(ticks: seq<Tick>, tick: Tick)
    ensures InFlightAfter(ticks + [tick]) ==
            if tick.Started? then InFlightAfter(ticks) + 1 else Max(0, InFlightAfter(ticks) - 1)
  {}

  // ---------- the summary ----------

  function Latencies(samples: seq<Sample>): seq<real>
  {
    seq(|samples|, i requires 0 <= i < |samples| => samples[i].latencyMs)
  }

  /** The positions of the samples that failed. */
  function Failed(samples: seq<Sample>): set<nat>
  {
    set i: nat | i < |samples| && samples[i].statusCode >= 500
  }

  function ErrorCount(samples: seq<Sample>): (n: nat)
    ensures n <= |samples|
    ensures n == |Failed(samples)|
  {
    if samples == [] then 0
    else
      var last := |samples| - 1;
      var earlier := ErrorCount(samples[..last]);
      if samples[last].statusCode >= 500 then
        assert Failed(samples) == Failed(samples[..last]) + {last};
        earlier + 1
      else
        assert Failed(samples) == Failed(samples[..last]);
        earlier
  }

  function ForPath(samples: seq<Sample>, path: string): seq<Sample>
  {
    if samples == [] then []
    else ForPath(samples[..|samples| - 1], path) +
         if samples[|samples| - 1].path == path then [samples[|samples| - 1]] else []
  }

  function CountsByPath(samples: seq<Sample>): map<string, nat>
  {
    map path | path in set s | s in samples :: s.path :: |ForPath(samples, path)|
  }

  function Elapsed(windowSeconds: int, startedAt: real, now: real): real
  {
    var uptime := now - startedAt;
    var span := if uptime <= windowSeconds as real then uptime else windowSeconds as real;
    if span <= 1.0 then 1.0 else span
  }

  function Summarize(windowSeconds: int, startedAt: real, inFlight: int, samples: seq<Sample>, now: real): Snapshot
  {
    var latencies := Sort(Latencies(samples));
    Snapshot(
      windowSeconds,
      |samples| as real / Elapsed(windowSeconds, startedAt, now),
      inFlight,
      |samples|,
      if samples == [] then 0.0 else ErrorCount(samples) as real / |samples| as real,
      Percentile(latencies, 0.50),
      Percentile(latencies, 0.95),
      Percentile(latencies, 0.99),
      CountsByPath(samples))
  }

  class TrafficMetrics {
    const windowSeconds: int
    const startedAt: real
    var samples: seq<Sample>
    var inFlight: int

    /** Every sample ever recorded, every start and finish, and the last time the clock was read. */
    ghost var history: seq<Sample>
    ghost var ticks: seq<Tick>
    ghost var clock: real

    ghost predicate Valid()
      reads this
    {
      && windowSeconds > 0
      && startedAt <= clock
      && Ordered(history) && CompletedWithin(history, startedAt, clock)
      && samples == Retained(history, clock - windowSeconds as real)
      && inFlight == InFlightAfter(ticks)
    }

    constructor (windowSeconds: int, now: real)
      requires windowSeconds > 0
      ensures Valid() && this.windowSeconds == windowSeconds && startedAt == clock == now
      ensures history == [] && ticks == [] && inFlight == 0
    {
      this.windowSeconds := windowSeconds;
      startedAt := now;
      samples := [];
      inFlight := 0;
      history := [];
      ticks := [];
      clock := now;
    }

    /** Construction as callers see it: a window that is not positive is an error. */
    static method Create(windowSeconds: int, now: real) returns (r: Result<TrafficMetrics, WindowError>)
      ensures r.Failure? <==> windowSeconds <= 0
      ensures r.Success? ==> fresh(r.value) && r.value.Valid() && r.value.history == [] && r.value.ticks == []
                             && r.value.windowSeconds == windowSeconds && r.value.startedAt == now
    {
      if windowSeconds <= 0 {
        return Failure(NotPositive);
      }
      var metrics := new TrafficMetrics(windowSeconds, now);
      return Success(metrics);
    }

    method RequestStarted()
      requires Valid()
      modifies this`inFlight, this`ticks
      ensures Valid()
      ensures ticks == old(ticks) + [Started] && inFlight == old(inFlight) + 1
    {
      inFlight := inFlight + 1;
      InFlightStep(ticks, Started);
      ticks := ticks + [Started];
    }

    /** Records the sample; it is in the window, and what has left the window is gone. */
    method RequestFinished(path: string, latencyMs: real, statusCode: int, now: real)
      requires Valid()
      requires clock <= now
      modifies this`samples, this`inFlight, this`history, this`ticks, this`clock
      ensures Valid()
      ensures history == old(history) + [Sample(now, path, latencyMs, statusCode)]
      ensures ticks == old(ticks) + [Finished] && inFlight == Max(0, old(inFlight) - 1)
      ensures clock == now
      ensures samples != [] && samples[|samples| - 1] == Sample(now, path, latencyMs, statusCode)
    {
      hide Retained, InFlightAfter, Ordered, CompletedWithin;
      inFlight := Max(0, inFlight - 1);
      InFlightStep(ticks, Finished);
      ticks := ticks + [Finished];
      var sample := Sample(now, path, latencyMs, statusCode);
      RetainedAppend(history, sample, clock - windowSeconds as real);
      AppendKeepsOrder(history, sample, startedAt, clock);
      samples := samples + [sample];
      history := history + [sample];
      DropExpired(now);
      RetainedAppend(old(history), sample, now - windowSeconds as real);
    }

    /** Summarizes exactly the samples of the whole history that are in the window now, and truthfully. */
    method TakeSnapshot(now: real) returns (snapshot: Snapshot)
      requires Valid()
      requires clock <= now
      modifies this`samples, this`clock
      ensures Valid()
      ensures clock == now
      ensures snapshot == Summarize(windowSeconds, startedAt, inFlight,
                                    Retained(history, now - windowSeconds as real), now)
      ensures snapshot.windowSeconds == windowSeconds && snapshot.concurrentRequests == inFlight
      ensures var recent := Retained(history, now - windowSeconds as real);
              && IsTrueAverage(snapshot, recent, Elapsed(windowSeconds, startedAt, now))
              && ShowsPercentile(recent, 0.50, snapshot.p50)
              && ShowsPercentile(recent, 0.95, snapshot.p95)
              && ShowsPercentile(recent, 0.99, snapshot.p99)
    {
      hide Retained, Ordered, CompletedWithin, IsTrueAverage, ShowsPercentile;
      LaterBound(history, startedAt, clock, now);
      DropExpired(now);
      var recent := samples;
      var concurrent := inFlight;

      var latencies := Sort(Latencies(recent));
      var errors := ErrorCount(recent);
      var elapsed := Elapsed(windowSeconds, startedAt, now);
      var endpointCounts := CountsByPath(recent);
      snapshot := Snapshot(
        windowSeconds,
        |recent| as real / elapsed,
        concurrent,
        |recent|,
        if recent == [] then 0.0 else errors as real / |recent| as real,
        Percentile(latencies, 0.50),
        Percentile(latencies, 0.95),
        Percentile(latencies, 0.99),
        endpointCounts);
      SummaryIsTrueAverage(windowSeconds, startedAt, inFlight, recent, now);
      SnapshotPercentilesAreNearestRanks(windowSeconds, startedAt, inFlight, recent, now);
    }

    /** Pops expired samples off the head; because samples arrive in order, what stays is the filter. */
    method DropExpired(now: real)
      requires clock <= now
      requires Ordered(history)
      requires samples == Retained(history, clock - windowSeconds as real)
      modifies this`samples, this`clock
      ensures samples == Retained(history, now - windowSeconds as real)
      ensures clock == now
    {
      hide Retained;
      var cutoff := now - windowSeconds as real;
      RetainedTwice(history, clock - windowSeconds as real, cutoff);
      ghost var k := RetainedIsSuffix(history, clock - windowSeconds as real);
      while samples != [] && samples[0].completedAt < cutoff
        invariant Ordered(samples)
        invariant Retained(samples, cutoff) == Retained(history, cutoff)
        decreases |samples|
      {
        RetainedDropsHead(samples, cutoff);
        samples := samples[1..];
      }
      RetainedKeepsAll(samples, cutoff);
      clock := now;
    }
  }

  // ---------- what a snapshot means ----------

  lemma {:induction false} RetainedBounds(samples: seq<Sample>, cutoff: real, from: real, to: real)
    requires CompletedWithin(samples, from, to)
    ensures CompletedWithin(Retained(samples, cutoff), from, to)
    ensures forall i | 0 <= i < |Retained(samples, cutoff)| :: cutoff <= Retained(samples, cutoff)[i].completedAt
  {
    if samples != [] {
      RetainedBounds(samples[..|samples| - 1], cutoff, from, to);
    }
  }

  lemma {:induction false} ForPathOnly(samples: seq<Sample>, path: string)
    ensures |ForPath(samples, path)| <= |samples|
    ensures forall s :: s in ForPath(samples, path) <==> s in samples && s.path == path
  {
    if samples != [] {
      ForPathOnly(samples[..|samples| - 1], path);
    }
  }

  ghost function SumValues(counts: map<string, nat>): nat
  {
    if counts == map[] then 0
    else var path :| path in counts; counts[path] + SumValues(counts - {path})
  }

  lemma {:induction false} SumValuesFrom(counts: map<string, nat>, path: string)
    requires path in counts
    ensures SumValues(counts) == counts[path] + SumValues(counts - {path})
    decreases |counts|
  {
    var first :| first in counts && SumValues(counts) == counts[first] + SumValues(counts - {first});
    if first != path {
      SumValuesFrom(counts - {first}, path);
      SumValuesFrom(counts - {path}, first);
      assert counts - {first} - {path} == counts - {path} - {first};
    }
  }

  function WithoutPath(samples: seq<Sample>, path: string): seq<Sample>
  {
    if samples == [] then []
    else WithoutPath(samples[..|samples| - 1], path) +
         if samples[|samples| - 1].path == path then [] else [samples[|samples| - 1]]
  }

  lemma {:induction false} PathsPartition(samples: seq<Sample>, path: string)
    ensures |samples| == |ForPath(samples, path)| + |WithoutPath(samples, path)|
    ensures forall s | s in WithoutPath(samples, path) :: s in samples && s.path != path
  {
    if samples != [] {
      PathsPartition(samples[..|samples| - 1], path);
    }
  }

  lemma {:induction false} OtherPathsStay(samples: seq<Sample>, path: string, other: string)
    requires other != path
    ensures ForPath(WithoutPath(samples, path), other) == ForPath(samples, other)
  {
    if samples != [] {
      var n := |samples| - 1;
      OtherPathsStay(samples[..n], path, other);
      var rest := WithoutPath(samples[..n], path);
      if samples[n].path == path {
        assert WithoutPath(samples, path) == rest;
        assert ForPath(samples, other) == ForPath(samples[..n], other);
      } else {
        assert (rest + [samples[n]])[..|rest|] == rest;
      }
    }
  }

  /** Counts kept per path add up to the number of samples. */
  lemma {:induction false} CountsAddUp(samples: seq<Sample>, counts: map<string, nat>)
    requires forall s | s in samples :: s.path in counts
    requires forall path | path in counts :: counts[path] == |ForPath(samples, path)|
    ensures SumValues(counts) == |samples|
    decreases |counts|
  {
    assert samples != [] ==> samples[0] in samples;
    if counts != map[] {
      var path :| path in counts;
      PathsPartition(samples, path);
      SumValuesFrom(counts, path);
      forall other | other in counts && other != path
        ensures ForPath(WithoutPath(samples, path), other) == ForPath(samples, other)
      {
        OtherPathsStay(samples, path, other);
      }
      CountsAddUp(WithoutPath(samples, path), counts - {path});
    }
  }

  lemma CountsAreForPath(samples: seq<Sample>)
    ensures SumValues(CountsByPath(samples)) == |samples|
    ensures forall path :: path in CountsByPath(samples) <==> exists s :: s in samples && s.path == path
    ensures forall path | path in CountsByPath(samples) ::
              CountsByPath(samples)[path] == |ForPath(samples, path)| > 0
  {
    var counts := CountsByPath(samples);
    forall path | path in counts
      ensures counts[path] == |ForPath(samples, path)| > 0
    {
      var s :| s in samples && s.path == path;
      ForPathOnly(samples, path);
      assert s in ForPath(samples, path);
    }
    CountsAddUp(samples, counts);
  }

  lemma RatesMultiplyBack(count: nat, elapsed: real)
    requires elapsed >= 1.0
    ensures count as real / elapsed * elapsed == count as real
  {}

  lemma FractionIsInUnitInterval(part: nat, whole: nat)
    requires part <= whole && whole > 0
    ensures 0.0 <= part as real / whole as real <= 1.0
    ensures part as real / whole as real * whole as real == part as real
  {}

  // ---------- counting by position ----------

  /** The positions of the samples of a path. */
  function OnPath(samples: seq<Sample>, path: string): set<nat>
  {
    set i: nat | i < |samples| && samples[i].path == path
  }

  /** The positions of the samples that took no longer than `v`. */
  function NoSlowerThan(samples: seq<Sample>, v: real): set<nat>
  {
    set i: nat | i < |samples| && samples[i].latencyMs <= v
  }

  lemma {:induction false} ForPathIsOnPath(samples: seq<Sample>, path: string)
    ensures |ForPath(samples, path)| == |OnPath(samples, path)|
  {
    if samples != [] {
      var n := |samples| - 1;
      ForPathIsOnPath(samples[..n], path);
      assert n !in OnPath(samples[..n], path);
      assert OnPath(samples, path) == OnPath(samples[..n], path) + if samples[n].path == path then {n} else {};
    }
  }

  lemma {:induction false} CountIsNoSlower(samples: seq<Sample>, v: real)
    ensures CountAtMost(Latencies(samples), v) == |NoSlowerThan(samples, v)|
  {
    if samples != [] {
      var n := |samples| - 1;
      CountIsNoSlower(samples[..n], v);
      assert Latencies(samples) == Latencies(samples[..n]) + [samples[n].latencyMs];
      assert CountAtMost([samples[n].latencyMs], v) == if samples[n].latencyMs <= v then 1 else 0;
      hide CountAtMost, Latencies;
      CountSplits(Latencies(samples[..n]), [samples[n].latencyMs], v);
      assert n !in NoSlowerThan(samples[..n], v);
      assert NoSlowerThan(samples, v) ==
             NoSlowerThan(samples[..n], v) + if samples[n].latencyMs <= v then {n} else {};
    }
  }

  /** The figures of a snapshot are what their names say of the samples it counts. */
  ghost predicate IsTrueAverage(snapshot: Snapshot, recent: seq<Sample>, elapsed: real)
  {
    && snapshot.requestCount == |recent|
    && snapshot.originRequestRate * elapsed == |recent| as real
    && SumValues(snapshot.requestsByPath) == |recent|
    && (forall path | path in snapshot.requestsByPath ::
          snapshot.requestsByPath[path] == |OnPath(recent, path)| > 0)
    && (forall s | s in recent :: s.path in snapshot.requestsByPath)
    && 0.0 <= snapshot.errorRate <= 1.0
    && snapshot.errorRate * |recent| as real == |Failed(recent)| as real
    && (recent == [] ==> snapshot.errorRate == 0.0)
    && snapshot.p50 <= snapshot.p95 <= snapshot.p99
  }

  /**
   * A snapshot of a recorded history: the rate is the true average over `elapsed` seconds that
   * cover every counted sample, the per-path counts partition the count, and the error rate is the
   * fraction of the samples in the window that failed.
   */
  lemma SnapshotIsTrueAverage(windowSeconds: int, startedAt: real, inFlight: int, history: seq<Sample>, now: real)
    requires windowSeconds > 0
    requires CompletedWithin(history, startedAt, now)
    ensures var recent := Retained(history, now - windowSeconds as real);
            var elapsed := Elapsed(windowSeconds, startedAt, now);
            && CompletedWithin(recent, now - elapsed, now)
            && IsTrueAverage(Summarize(windowSeconds, startedAt, inFlight, recent, now), recent, elapsed)
  {
    hide Summarize, IsTrueAverage, Retained;
    var recent := Retained(history, now - windowSeconds as real);
    RetainedBounds(history, now - windowSeconds as real, startedAt, now);
    SummaryIsTrueAverage(windowSeconds, startedAt, inFlight, recent, now);
  }

  lemma SummaryIsTrueAverage(windowSeconds: int, startedAt: real, inFlight: int, recent: seq<Sample>, now: real)
    ensures IsTrueAverage(Summarize(windowSeconds, startedAt, inFlight, recent, now), recent,
                          Elapsed(windowSeconds, startedAt, now))
  {
    hide Percentile, Sort, CountsByPath, SumValues, ForPath, Elapsed, Failed, OnPath;
    var elapsed := Elapsed(windowSeconds, startedAt, now);
    RatesMultiplyBack(|recent|, elapsed) by { ElapsedIsAtLeastOne(windowSeconds, startedAt, now); }
    CountsAreExact(recent);
    if recent != [] {
      FractionIsInUnitInterval(ErrorCount(recent), |recent|);
    } else {
      assert ErrorCount(recent) == 0;
    }
    PercentilesOfSameList(Latencies(recent));
  }

  /** Exactly the paths that occur are counted, with the number of their samples, and the counts add up. */
  lemma CountsAreExact(recent: seq<Sample>)
    ensures SumValues(CountsByPath(recent)) == |recent|
    ensures forall path :: path in CountsByPath(recent) <==> exists s :: s in recent && s.path == path
    ensures forall path | path in CountsByPath(recent) :: CountsByPath(recent)[path] == |OnPath(recent, path)| > 0
  {
    CountsAreForPath(recent);
    hide SumValues, ForPath, OnPath;
    forall path | path in CountsByPath(recent)
      ensures CountsByPath(recent)[path] == |OnPath(recent, path)|
    {
      ForPathIsOnPath(recent, path);
    }
  }

  /** The divisor of the rate is the shortest span of at least a second that covers the window since start-up. */
  lemma ElapsedIsShortestCover(windowSeconds: int, startedAt: real, now: real)
    requires windowSeconds > 0
    ensures var elapsed := Elapsed(windowSeconds, startedAt, now);
            && 1.0 <= elapsed <= windowSeconds as real
            && (windowSeconds as real <= elapsed || now - startedAt <= elapsed)
            && (elapsed == 1.0 || elapsed == windowSeconds as real || elapsed == now - startedAt)
            && (elapsed <= now - startedAt || elapsed == 1.0)
  {}

  /** `v` is the smallest latency of a sample that at least `need` of the samples do not exceed. */
  predicate IsLeastLatency(recent: seq<Sample>, need: real, v: real)
  {
    && (exists i :: 0 <= i < |recent| && recent[i].latencyMs == v)
    && need <= |NoSlowerThan(recent, v)| as real
    && forall i | 0 <= i < |recent| && need <= |NoSlowerThan(recent, recent[i].latencyMs)| as real ::
         v <= recent[i].latencyMs
  }

  /** `v` is the smallest latency of a sample that at least the given fraction of the samples do not exceed. */
  predicate IsNearestLatency(recent: seq<Sample>, percentile: real, v: real)
  {
    IsLeastLatency(recent, percentile * |recent| as real, v)
  }

  lemma LeastCoveringIsLeastLatency(recent: seq<Sample>, need: real, v: real)
    requires IsLeastCovering(Latencies(recent), need, v)
    ensures IsLeastLatency(recent, need, v)
  {
    hide NoSlowerThan, CountAtMost;
    var latencies := Latencies(recent);
    assert forall i | 0 <= i < |recent| :: latencies[i] == recent[i].latencyMs;
    var k :| 0 <= k < |latencies| && latencies[k] == v;
    CountIsNoSlower(recent, v);
    forall i | 0 <= i < |recent|
      ensures CountAtMost(latencies, recent[i].latencyMs) == |NoSlowerThan(recent, recent[i].latencyMs)|
      ensures recent[i].latencyMs in latencies
    {
      CountIsNoSlower(recent, recent[i].latencyMs);
      assert latencies[i] in latencies;
    }
  }

  lemma NearestRankIsNearestLatency(recent: seq<Sample>, percentile: real, v: real)
    requires IsNearestRank(Latencies(recent), percentile, v)
    ensures IsNearestLatency(recent, percentile, v)
  {
    assert |Latencies(recent)| == |recent|;
    hide IsLeastCovering, IsLeastLatency, Latencies;
    LeastCoveringIsLeastLatency(recent, percentile * |recent| as real, v);
  }

  /** What a snapshot shows for a percentile: the rounded nearest rank, zero without samples. */
  ghost predicate ShowsPercentile(recent: seq<Sample>, percentile: real, shown: real)
  {
    if recent == [] then shown == 0.0
    else exists v :: IsNearestLatency(recent, percentile, v) && shown == Round3(v)
  }

  lemma PercentileIsShown(recent: seq<Sample>, percentile: real)
    requires percentile <= 1.0
    ensures ShowsPercentile(recent, percentile, Percentile(Sort(Latencies(recent)), percentile))
  {
    hide IsNearestRank, IsNearestLatency, Ranked, Round3;
    var latencies := Latencies(recent);
    if recent == [] {
      assert Sort(latencies) == [];
    } else {
      RankedIsNearestRank(latencies, percentile);
      NearestRankIsNearestLatency(recent, percentile, Ranked(Sort(latencies), percentile));
    }
  }

  /** The percentiles of a snapshot are the rounded nearest ranks of its samples' latencies, zero without samples. */
  lemma SnapshotPercentilesAreNearestRanks(
      windowSeconds: int, startedAt: real, inFlight: int, recent: seq<Sample>, now: real)
    ensures var snapshot := Summarize(windowSeconds, startedAt, inFlight, recent, now);
            && ShowsPercentile(recent, 0.50, snapshot.p50)
            && ShowsPercentile(recent, 0.95, snapshot.p95)
            && ShowsPercentile(recent, 0.99, snapshot.p99)
  {
    PercentileIsShown(recent, 0.50);
    PercentileIsShown(recent, 0.95);
    PercentileIsShown(recent, 0.99);
    hide ShowsPercentile, Percentile, Elapsed;
  }

  lemma ElapsedIsAtLeastOne(windowSeconds: int, startedAt: real, now: real)
    ensures Elapsed(windowSeconds, startedAt, now) >= 1.0
  {}

  lemma {:induction false} SomeUpperBound(xs: seq<real>) returns (top: real)
    ensures forall x | x in xs :: x <= top
  {
    if xs == [] {
      top := 0.0;
    } else {
      var rest := SomeUpperBound(xs[1..]);
      assert xs == [xs[0]] + xs[1..];
      top := if rest >= xs[0] then rest else xs[0];
    }
  }

  lemma PercentilesOfSameList(xs: seq<real>)
    ensures Percentile(Sort(xs), 0.50) <= Percentile(Sort(xs), 0.95) <= Percentile(Sort(xs), 0.99)
  {
    var top := SomeUpperBound(xs);
    PercentilesAreOrdered(xs, 0.50, 0.95, top);
    PercentilesAreOrdered(xs, 0.95, 0.99, top);
  }
}
