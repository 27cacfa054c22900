/** What decides a half-open breaker: the log it is read from, how late a refresh
    may come before samples are lost, and which samples count at all. */
module HalfOpen {
  import opened Common
  import opened SecondCounters
  import opened Breaker

  /** A failure reopens, otherwise a success closes, otherwise nothing changes. */
  function Decision(ok: int, failed: int): BreakerState {
    if 0 < failed then Open else if 0 < ok then Closed else BreakerState.HalfOpen
  }

  /** The refresh at `nowS` leaves the state that the log from the second of the
      half-open transition on calls for. */
  ghost predicate DecidedByLog(evs: seq<Event>, cand: CandidateRef, nowS: real, p: Params) {
    var ho := Truncate(SnapOf(evs, cand, p).halfOpenedAtS);
    SnapOf(evs + [Refresh(nowS)], cand, p).state ==
      Decision(
        Logged(LogOf(evs), cand, ho, Truncate(nowS), Successes),
        Logged(LogOf(evs), cand, ho, Truncate(nowS), Failures))
  }

  ghost predicate HalfOpenAt(evs: seq<Event>, cand: CandidateRef, nowS: real, gapS: real, p: Params) {
    && Timed(evs + [Refresh(nowS)])
    && Cadence(evs + [Refresh(nowS)], gapS)
    && SnapOf(evs, cand, p).state == BreakerState.HalfOpen
  }

  lemma TimelyIsDecidedByLog(evs: seq<Event>, cand: CandidateRef, nowS: real, p: Params)
    requires 1.0 <= p.windowS && 0.0 < p.openDurationS
    requires HalfOpenAt(evs, cand, nowS, WindowTtl(p.windowS) as real - 1.0, p)
    ensures DecidedByLog(evs, cand, nowS, p)
  {
    HalfOpenDecidedByLog(evs, cand, nowS, p);
    var all := evs + [Refresh(nowS)];
    assert forall i :: 0 <= i < |evs| ==> all[i] == evs[i];
    LogOfTimed(evs, all[|evs|].nowS);
    LoggedZero(LogOf(evs), cand, Truncate(SnapOf(evs, cand, p).halfOpenedAtS), Truncate(nowS));
  }

  lemma {:induction false} CadenceWeakens(evs: seq<Event>, gapS: real, widerS: real)
    requires Cadence(evs, gapS) && gapS <= widerS
    ensures Cadence(evs, widerS)
  {
    if evs != [] {
      CadenceWeakens(evs[..|evs| - 1], gapS, widerS);
    }
  }

  lemma {:induction false} CadenceSnoc(evs: seq<Event>, ev: Event, gapS: real)
    requires Cadence(evs, gapS)
    requires ev.Refresh? && LastRefresh(evs).Some? ==> ev.nowS <= LastRefresh(evs).value + gapS
    ensures Cadence(evs + [ev], gapS)
    ensures LastRefresh(evs + [ev]) == if ev.Refresh? then Some(ev.nowS) else LastRefresh(evs)
  {
    assert (evs + [ev])[..|evs|] == evs;
  }

  lemma TimedSnoc(evs: seq<Event>, ev: Event)
    requires Timed(evs) && 0.0 <= TimeOf(ev) && (ev.Took? ==> BreakerSample(ev.sample))
    requires evs != [] ==> TimeOf(evs[|evs| - 1]) <= TimeOf(ev)
    ensures Timed(evs + [ev])
  {
  }

  // ------------------------------------------------------------ a run that half-opens

  function FailureAt(cand: CandidateRef, sec: nat): Event {
    Took(Sample(cand, sec as real, sec, Tally(0, 1, 0, 0)))
  }

  /** `n` failures at time zero. */
  function Failing(cand: CandidateRef, n: nat): seq<Event> {
    if n == 0 then [] else Failing(cand, n - 1) + [FailureAt(cand, 0)]
  }

  /** Then a refresh in each of the seconds 0 .. k-1. */
  function Tripped(cand: CandidateRef, n: nat, k: nat): seq<Event> {
    if k == 0 then Failing(cand, n) else Tripped(cand, n, k - 1) + [Refresh((k - 1) as real)]
  }

  lemma {:induction false} FailingTimes(cand: CandidateRef, n: nat)
    ensures Timed(Failing(cand, n))
    ensures |Failing(cand, n)| == n && forall i :: 0 <= i < n ==> TimeOf(Failing(cand, n)[i]) == 0.0
  {
    if n != 0 {
      FailingTimes(cand, n - 1);
      TimedSnoc(Failing(cand, n - 1), FailureAt(cand, 0));
    }
  }

  lemma {:induction false} FailingCadence(cand: CandidateRef, n: nat, gapS: real)
    ensures Cadence(Failing(cand, n), gapS) && LastRefresh(Failing(cand, n)) == None
  {
    if n != 0 {
      FailingCadence(cand, n - 1, gapS);
      CadenceSnoc(Failing(cand, n - 1), FailureAt(cand, 0), gapS);
    }
  }

  lemma {:induction false} FailingLog(cand: CandidateRef, n: nat)
    ensures |LogOf(Failing(cand, n))| == n
    ensures forall i :: 0 <= i < n ==> LogOf(Failing(cand, n))[i] == FailureAt(cand, 0).sample
  {
    if n != 0 {
      var init := Failing(cand, n - 1);
      FailingLog(cand, n - 1);
      assert (init + [FailureAt(cand, 0)])[..|init|] == init;
    }
  }

  lemma {:induction false} FailingNeverSeen(cand: CandidateRef, n: nat, p: Params)
    ensures SnapOf(Failing(cand, n), cand, p) == NEVER_SEEN
  {
    if n != 0 {
      FailingNeverSeen(cand, n - 1, p);
      SampleStep(Failing(cand, n - 1), FailureAt(cand, 0).sample, p);
    }
  }

  lemma {:induction false} AllFailures(log: seq<Sample>, cand: CandidateRef, lo: int, hi: int)
    requires forall i :: 0 <= i < |log| ==> log[i] == FailureAt(cand, 0).sample
    requires lo <= 0 <= hi
    ensures Logged(log, cand, lo, hi, Failures) == |log| && Logged(log, cand, lo, hi, Successes) == 0
  {
    if log != [] {
      AllFailures(log[..|log| - 1], cand, lo, hi);
    }
  }

  lemma FirstReading(cand: CandidateRef, evs: seq<Event>, p: Params) returns (r: Reading)
    requires 1.0 <= p.windowS && evs == Failing(cand, p.minSamples)
    ensures r == ReadingAt(Store(LogOf(evs), WindowTtl(p.windowS)), NEVER_SEEN, cand, 0.0, p)
    ensures r.nowS == 0.0 && r.failures == r.total == p.minSamples
  {
    FailingTimes(cand, p.minSamples);
    FailingLog(cand, p.minSamples);
    WindowCountsAreLogged(evs, NEVER_SEEN, cand, 0.0, p);
    AllFailures(LogOf(evs), cand, Truncate(0.0 - p.windowS), Truncate(0.0));
    r := ReadingAt(Store(LogOf(evs), WindowTtl(p.windowS)), NEVER_SEEN, cand, 0.0, p);
  }

  lemma {:induction false} FirstRefreshTrips(evs: seq<Event>, cand: CandidateRef, p: Params)
    requires 1.0 <= p.windowS && 0.0 < p.openDurationS && p.failureThreshold <= 1.0
    requires evs == Failing(cand, p.minSamples)
    ensures
      var e := SnapOf(evs + [Refresh(0.0)], cand, p);
      e.state == Open && e.openedAtS == 0.0
  {
    FailingNeverSeen(cand, p.minSamples, p);
    RefreshStep(evs, cand, 0.0, p);
    var r := FirstReading(cand, evs, p);
    AllFailedTrips(r, p);
  }

  lemma AllFailedTrips(r: Reading, p: Params)
    requires 0.0 < p.openDurationS && p.failureThreshold <= 1.0 && r.failures == r.total == p.minSamples
    ensures Refreshed(NEVER_SEEN, r, p) == Snap(Open, r.nowS, r.total, r.failures, 0.0)
  {
    assert r.failures as real / r.total as real == 1.0;
  }

  lemma StaysOpen(e: Snap, r: Reading, p: Params)
    requires e.state == Open && r.nowS < e.openedAtS + p.openDurationS
    ensures Refreshed(e, r, p).state == Open && Refreshed(e, r, p).openedAtS == e.openedAtS
  {
  }

  lemma {:induction false} TrippedTimes(cand: CandidateRef, n: nat, k: nat)
    requires 1 <= k
    ensures
      var evs := Tripped(cand, n, k);
      Timed(evs) && evs != [] && TimeOf(evs[|evs| - 1]) == (k - 1) as real
  {
    if k == 1 {
      FailingTimes(cand, n);
    } else {
      TrippedTimes(cand, n, k - 1);
    }
    TimedSnoc(Tripped(cand, n, k - 1), Refresh((k - 1) as real));
  }

  lemma {:induction false} TrippedCadence(cand: CandidateRef, n: nat, k: nat, gapS: real)
    requires 1 <= k && 1.0 <= gapS
    ensures Cadence(Tripped(cand, n, k), gapS) && LastRefresh(Tripped(cand, n, k)) == Some((k - 1) as real)
  {
    if k == 1 {
      FailingCadence(cand, n, gapS);
    } else {
      TrippedCadence(cand, n, k - 1, gapS);
    }
    CadenceSnoc(Tripped(cand, n, k - 1), Refresh((k - 1) as real), gapS);
  }

  lemma {:induction false} TrippedLog(cand: CandidateRef, n: nat, k: nat)
    ensures LogOf(Tripped(cand, n, k)) == LogOf(Failing(cand, n))
  {
    if k != 0 {
      TrippedLog(cand, n, k - 1);
      RefreshLogsNothing(Tripped(cand, n, k - 1), (k - 1) as real);
    }
  }

  lemma {:induction false} TrippedOpens(cand: CandidateRef, k: nat, p: Params)
    requires 1.0 <= p.windowS && 0.0 < p.openDurationS && p.failureThreshold <= 1.0
    requires 1 <= k && (k - 1) as real < p.openDurationS
    ensures
      var e := SnapOf(Tripped(cand, p.minSamples, k), cand, p);
      e.state == Open && e.openedAtS == 0.0
  {
    if k == 1 {
      FirstRefreshTrips(Tripped(cand, p.minSamples, 0), cand, p);
    } else {
      TrippedOpens(cand, k - 1, p);
      OpenThrough(Tripped(cand, p.minSamples, k - 1), (k - 1) as real, cand, p);
    }
  }

  lemma OpenThrough(init: seq<Event>, nowS: real, cand: CandidateRef, p: Params)
    requires SnapOf(init, cand, p).state == Open && nowS < SnapOf(init, cand, p).openedAtS + p.openDurationS
    ensures SnapOf(init + [Refresh(nowS)], cand, p).state == Open
    ensures SnapOf(init + [Refresh(nowS)], cand, p).openedAtS == SnapOf(init, cand, p).openedAtS
  {
    RefreshStep(init, cand, nowS, p);
    var e := SnapOf(init, cand, p);
    StaysOpen(e, ReadingAt(Store(LogOf(init), WindowTtl(p.windowS)), e, cand, nowS, p), p);
  }

  /** One more failure in second j, and a refresh later in that second, when the
      breaker has been open for long enough. */
  function HalfOpened(cand: CandidateRef, n: nat, j: nat, hoS: real): seq<Event> {
    Tripped(cand, n, j) + [FailureAt(cand, j)] + [Refresh(hoS)]
  }

  ghost predicate HalfOpensIn(p: Params, j: nat, hoS: real) {
    && 1.0 <= p.windowS && 0.0 < p.openDurationS && p.failureThreshold <= 1.0
    && 1 <= j && (j - 1) as real < p.openDurationS <= j as real <= hoS < (j + 1) as real
  }

  lemma {:induction false} HalfOpenedFacts(cand: CandidateRef, p: Params, j: nat, hoS: real, gapS: real)
    requires HalfOpensIn(p, j, hoS) && 2.0 <= gapS
    ensures
      var evs := HalfOpened(cand, p.minSamples, j, hoS);
      && Timed(evs) && Cadence(evs, gapS)
      && evs != [] && TimeOf(evs[|evs| - 1]) == hoS
      && LastRefresh(evs) == Some(hoS)
      && LogOf(evs) == LogOf(Failing(cand, p.minSamples)) + [FailureAt(cand, j).sample]
      && SnapOf(evs, cand, p).state == BreakerState.HalfOpen && SnapOf(evs, cand, p).halfOpenedAtS == hoS
  {
    var open := Tripped(cand, p.minSamples, j);
    var failed := open + [FailureAt(cand, j)];
    TrippedTimes(cand, p.minSamples, j);
    TrippedCadence(cand, p.minSamples, j, gapS);
    TrippedLog(cand, p.minSamples, j);
    TrippedOpens(cand, j, p);
    TimedSnoc(open, FailureAt(cand, j));
    CadenceSnoc(open, FailureAt(cand, j), gapS);
    SampleStep(open, FailureAt(cand, j).sample, p);
    TimedSnoc(failed, Refresh(hoS));
    CadenceSnoc(failed, Refresh(hoS), gapS);
    RefreshLogsNothing(failed, hoS);
    RefreshStep(failed, cand, hoS, p);
    OpenHalfOpens(
      SnapOf(failed, cand, p),
      ReadingAt(Store(LogOf(failed), WindowTtl(p.windowS)), SnapOf(failed, cand, p), cand, hoS, p), p);
  }

  lemma OpenHalfOpens(e: Snap, r: Reading, p: Params)
    requires e.state == Open && e.openedAtS + p.openDurationS <= r.nowS
    ensures Refreshed(e, r, p).state == BreakerState.HalfOpen && Refreshed(e, r, p).halfOpenedAtS == r.nowS
  {
  }

  lemma LogEnds(cand: CandidateRef, p: Params, j: nat, hoS: real, i: nat)
    requires HalfOpensIn(p, j, hoS)
    ensures
      var log := LogOf(HalfOpened(cand, p.minSamples, j, hoS));
      && |log| == p.minSamples + 1 && log[|log| - 1] == FailureAt(cand, j).sample
      && (i < |log| ==> log[i].atS <= j as real && log[i].cand == cand)
  {
    HalfOpenedFacts(cand, p, j, hoS, 2.0);
    FailingLog(cand, p.minSamples);
  }

  /** The failure in second j counts for the next refresh, although it was taken
      before the breaker half-opened: at least one failure is in the log's range. */
  lemma {:induction false} EarlyFailureIsCounted(cand: CandidateRef, p: Params, j: nat, hoS: real, nowS: real)
    requires HalfOpensIn(p, j, hoS) && hoS <= nowS
    ensures
      var evs := HalfOpened(cand, p.minSamples, j, hoS);
      0 < Logged(LogOf(evs), cand, Truncate(hoS), Truncate(nowS), Failures)
  {
    var log := LogOf(HalfOpened(cand, p.minSamples, j, hoS));
    LogEnds(cand, p, j, hoS, 0);
    HalfOpenedFacts(cand, p, j, hoS, 2.0);
    LogOfTimed(HalfOpened(cand, p.minSamples, j, hoS), hoS);
    LoggedZero(log[..|log| - 1], cand, Truncate(hoS), Truncate(nowS));
    assert Truncate(hoS) == j;
    assert In(log[|log| - 1], cand, Truncate(hoS), Truncate(nowS));
  }

  /** Half-open counting includes the whole second of the transition: a failure
      taken before it reopens the breaker although nothing was logged after it. */
  lemma EarlyFailureReopens(cand: CandidateRef, p: Params, j: nat, hoS: real, nowS: real)
    requires HalfOpensIn(p, j, hoS) && hoS <= nowS <= hoS + WindowTtl(p.windowS) as real - 1.0
    ensures
      var evs := HalfOpened(cand, p.minSamples, j, hoS);
      && HalfOpenAt(evs, cand, nowS, WindowTtl(p.windowS) as real - 1.0, p)
      && SnapOf(evs, cand, p).halfOpenedAtS == hoS
      && (forall i :: 0 <= i < |LogOf(evs)| ==> LogOf(evs)[i].atS <= hoS)
      && SnapOf(evs + [Refresh(nowS)], cand, p).state == Open
  {
    var evs := HalfOpened(cand, p.minSamples, j, hoS);
    var gap := WindowTtl(p.windowS) as real - 1.0;
    WindowTtlAtLeastFour(p.windowS);
    HalfOpenedFacts(cand, p, j, hoS, gap);
    TimedSnoc(evs, Refresh(nowS));
    CadenceSnoc(evs, Refresh(nowS), gap);
    TimelyIsDecidedByLog(evs, cand, nowS, p);
    EarlyFailureIsCounted(cand, p, j, hoS, nowS);
    forall i | 0 <= i < |LogOf(evs)|
      ensures LogOf(evs)[i].atS <= hoS
    {
      LogEnds(cand, p, j, hoS, i);
    }
  }

  lemma WindowTtlAtLeastFour(windowS: real)
    requires 1.0 <= windowS
    ensures 4 <= WindowTtl(windowS)
  {
    TruncateBounds(windowS);
  }

  // ------------------------------------------------------------ a refresh that comes too late

  lemma {:induction false} StoreExpires(log: seq<Sample>, ttlS: int, cand: CandidateRef, nowS: real)
    requires forall i :: 0 <= i < |log| ==> log[i].atS + ttlS as real < nowS
    ensures forall sec :: !Holds(Store(log, ttlS), cand, sec, nowS)
  {
    if log != [] {
      var before := Store(log[..|log| - 1], ttlS);
      StoreExpires(log[..|log| - 1], ttlS, cand, nowS);
      forall sec
        ensures !Holds(Store(log, ttlS), cand, sec, nowS)
      {
        assert !Holds(before, cand, sec, nowS);
      }
    }
  }

  /** Once everything has expired the refresh decides nothing, whatever was logged. */
  lemma LateRefreshForgets(cand: CandidateRef, p: Params, j: nat, hoS: real, nowS: real)
    requires HalfOpensIn(p, j, hoS) && hoS <= nowS && j as real + WindowTtl(p.windowS) as real < nowS
    ensures
      var evs := HalfOpened(cand, p.minSamples, j, hoS);
      && SnapOf(evs + [Refresh(nowS)], cand, p).state == BreakerState.HalfOpen
      && !DecidedByLog(evs, cand, nowS, p)
  {
    var evs := HalfOpened(cand, p.minSamples, j, hoS);
    HalfOpenedFacts(cand, p, j, hoS, 2.0);
    EarlyFailureIsCounted(cand, p, j, hoS, nowS);
    forall i | 0 <= i < |LogOf(evs)|
      ensures LogOf(evs)[i].atS + WindowTtl(p.windowS) as real < nowS
    {
      LogEnds(cand, p, j, hoS, i);
    }
    var cells := Store(LogOf(evs), WindowTtl(p.windowS));
    StoreExpires(LogOf(evs), WindowTtl(p.windowS), cand, nowS);
    RefreshStep(evs, cand, nowS, p);
    ReadNothing(cells, cand, Truncate(hoS), Truncate(nowS), nowS, Successes);
    ReadNothing(cells, cand, Truncate(hoS), Truncate(nowS), nowS, Failures);
    NoProbeChangesNothing(SnapOf(evs, cand, p), ReadingAt(cells, SnapOf(evs, cand, p), cand, nowS, p), p);
  }

  lemma NoProbeChangesNothing(e: Snap, r: Reading, p: Params)
    requires e.state == BreakerState.HalfOpen && r.probeOk == 0 && r.probeFailed == 0
    ensures Refreshed(e, r, p).state == BreakerState.HalfOpen
  {
  }

  // ------------------------------------------------------------ a breaker that never trips

  lemma {:induction false} ReadNotNegative(
    log: seq<Sample>, ttlS: int, cand: CandidateRef, lo: int, hi: int, nowS: real, f: Field)
    requires f == Successes || f == Failures
    ensures 0 <= Read(Store(log, ttlS), cand, lo, hi, nowS, f)
    decreases hi - lo
  {
    if lo <= hi {
      ReadNotNegative(log, ttlS, cand, lo, hi - 1, nowS, f);
    }
  }

  lemma NeverTrips(r: Reading, p: Params)
    requires 1.0 < p.failureThreshold && 0 <= r.failures <= r.total
    ensures Refreshed(Snap(Closed, 0.0, 0, 0, 0.0), r, p).state == Closed
    ensures forall e: Snap :: e.state == Closed ==> Refreshed(e, r, p).state == Closed
  {
    if 0 < r.total {
      QuotientBelow(r.failures as real, r.total as real, p.failureThreshold);
    }
  }

  lemma QuotientBelow(a: real, b: real, threshold: real)
    requires 1.0 < threshold && 0.0 < b && a <= b
    ensures a / b < threshold
  {
    var q := a / b;
    assert q * b == a;
    assert (1.0 - q) * b == b - a;
    OtherFactor(1.0 - q, b);
  }

  lemma OtherFactor(a: real, b: real)
    requires 0.0 < b && 0.0 <= a * b
    ensures 0.0 <= a
  {
  }

  lemma {:induction false} HighThresholdStaysClosed(evs: seq<Event>, cand: CandidateRef, p: Params)
    requires 1.0 < p.failureThreshold
    ensures SnapOf(evs, cand, p).state == Closed
  {
    if evs != [] {
      var init, last := evs[..|evs| - 1], evs[|evs| - 1];
      HighThresholdStaysClosed(init, cand, p);
      assert evs == init + [last];
      match last {
        case Took(s) => SampleStep(init, s, p);
        case Refresh(now) =>
          var prev, ttl := SnapOf(init, cand, p), WindowTtl(p.windowS);
          var lo, hi := Truncate(now - p.windowS), Truncate(now);
          RefreshStep(init, cand, now, p);
          ReadNotNegative(LogOf(init), ttl, cand, lo, hi, now, Successes);
          ReadNotNegative(LogOf(init), ttl, cand, lo, hi, now, Failures);
          NeverTrips(ReadingAt(Store(LogOf(init), ttl), prev, cand, now, p), p);
      }
    } else {
      assert ReadingsOf([], cand, p) == [];
    }
  }

  // ------------------------------------------------------------ how far apart refreshes may be

  /** With refreshes at most `gapS` apart, every run decides its half-open breakers
      by the log. */
  ghost predicate AlwaysDecidedByLog(gapS: real, p: Params) {
    forall evs, cand, nowS :: HalfOpenAt(evs, cand, nowS, gapS, p) ==> DecidedByLog(evs, cand, nowS, p)
  }

  /** Refreshes at most `gapS` apart decide every half-open breaker of every run by
      what was logged if and only if the gap is at most TTL - 1 seconds, or the
      threshold is so high that no breaker ever opens. */
  lemma CadenceIsExact(gapS: real, p: Params)
    requires 1.0 <= p.windowS && 0.0 < p.openDurationS
    ensures AlwaysDecidedByLog(gapS, p) <==>
      gapS <= (4 * Truncate(p.windowS)) as real - 1.0 || 1.0 < p.failureThreshold
  {
    if gapS <= WindowTtl(p.windowS) as real - 1.0 {
      forall evs, cand, nowS | HalfOpenAt(evs, cand, nowS, gapS, p)
        ensures DecidedByLog(evs, cand, nowS, p)
      {
        CadenceWeakens(evs + [Refresh(nowS)], gapS, WindowTtl(p.windowS) as real - 1.0);
        TimelyIsDecidedByLog(evs, cand, nowS, p);
      }
    } else if 1.0 < p.failureThreshold {
      forall evs, cand, nowS
        ensures !HalfOpenAt(evs, cand, nowS, gapS, p)
      {
        HighThresholdStaysClosed(evs, cand, p);
      }
    } else {
      WideGapFails(gapS, p);
    }
  }

  lemma WideGapFails(gapS: real, p: Params)
    requires 1.0 <= p.windowS && 0.0 < p.openDurationS && p.failureThreshold <= 1.0
    requires WindowTtl(p.windowS) as real - 1.0 < gapS
    ensures !AlwaysDecidedByLog(gapS, p)
  {
    var cand := CandidateRef("p", "m");
    var j, hoS := LateInSecond(gapS, p);
    var evs, nowS := HalfOpened(cand, p.minSamples, j, hoS), hoS + gapS;
    WindowTtlAtLeastFour(p.windowS);
    HalfOpenedFacts(cand, p, j, hoS, gapS);
    TimedSnoc(evs, Refresh(nowS));
    CadenceSnoc(evs, Refresh(nowS), gapS);
    LateRefreshForgets(cand, p, j, hoS, nowS);
    assert HalfOpenAt(evs, cand, nowS, gapS, p);
  }

  /** A moment so late in its second that a gap over TTL - 1 outlives a sample from the second's start. */
  lemma LateInSecond(gapS: real, p: Params) returns (j: nat, hoS: real)
    requires 1.0 <= p.windowS && 0.0 < p.openDurationS && p.failureThreshold <= 1.0
    requires WindowTtl(p.windowS) as real - 1.0 < gapS
    ensures HalfOpensIn(p, j, hoS) && j as real + WindowTtl(p.windowS) as real < hoS + gapS
  {
    var d := p.openDurationS;
    j := if d.Floor as real == d then d.Floor else d.Floor + 1;
    var slack := gapS - (WindowTtl(p.windowS) as real - 1.0);
    hoS := j as real + 1.0 - if slack < 1.0 then slack / 2.0 else 0.5;
  }

  // ------------------------------------------------------------ strictly later samples

  /** Logged after the transition, up to second `hi`. */
  function LoggedAfter(log: seq<Sample>, cand: CandidateRef, hoS: real, hi: int, f: Field): int {
    if log == [] then 0
    else
      var s := log[|log| - 1];
      LoggedAfter(log[..|log| - 1], cand, hoS, hi, f)
      + if s.cand == cand && hoS < s.atS && s.sec <= hi then s.tally.Get(f) else 0
  }

  /** Logged in the second of the transition, but not after it. */
  function LoggedEarly(log: seq<Sample>, cand: CandidateRef, hoS: real, hi: int, f: Field): int {
    if log == [] then 0
    else
      var s := log[|log| - 1];
      LoggedEarly(log[..|log| - 1], cand, hoS, hi, f)
      + if s.cand == cand && s.sec == Truncate(hoS) && s.atS <= hoS && s.sec <= hi then s.tally.Get(f) else 0
  }

  lemma {:induction false} LoggedParts(log: seq<Sample>, cand: CandidateRef, hoS: real, hi: int, f: Field)
    requires forall i :: 0 <= i < |log| ==> BreakerSample(log[i])
    requires 0.0 <= hoS
    ensures Logged(log, cand, Truncate(hoS), hi, f) ==
      LoggedEarly(log, cand, hoS, hi, f) + LoggedAfter(log, cand, hoS, hi, f)
    ensures f == Successes || f == Failures ==>
      0 <= LoggedEarly(log, cand, hoS, hi, f) && 0 <= LoggedAfter(log, cand, hoS, hi, f)
  {
    if log != [] {
      LoggedParts(log[..|log| - 1], cand, hoS, hi, f);
    }
  }

  lemma DecisionIff(ok: nat, failed: nat, earlyOk: nat, earlyFailed: nat)
    ensures Decision(earlyOk + ok, earlyFailed + failed) == Decision(ok, failed) <==>
      0 < failed || (earlyFailed == 0 && (0 < ok || earlyOk == 0))
  {
  }

  /** The refresh of a half-open breaker decides as the strictly later samples alone
      would if and only if one of those failed, or no failure was logged earlier in
      the transition's second and, unless a later sample succeeded, no success either. */
  lemma {:induction false} StrictDecisionIff(evs: seq<Event>, cand: CandidateRef, nowS: real, p: Params)
    requires 1.0 <= p.windowS && 0.0 < p.openDurationS
    requires HalfOpenAt(evs, cand, nowS, WindowTtl(p.windowS) as real - 1.0, p)
    ensures
      var log, hoS, hi := LogOf(evs), SnapOf(evs, cand, p).halfOpenedAtS, Truncate(nowS);
      var ok, failed := LoggedAfter(log, cand, hoS, hi, Successes), LoggedAfter(log, cand, hoS, hi, Failures);
      SnapOf(evs + [Refresh(nowS)], cand, p).state == Decision(ok, failed) <==>
        || 0 < failed
        || (LoggedEarly(log, cand, hoS, hi, Failures) == 0 &&
            (0 < ok || LoggedEarly(log, cand, hoS, hi, Successes) == 0))
  {
    var log, hoS, hi := LogOf(evs), SnapOf(evs, cand, p).halfOpenedAtS, Truncate(nowS);
    TimelyIsDecidedByLog(evs, cand, nowS, p);
    HalfOpenStamped(evs, cand, nowS, p);
    LoggedParts(log, cand, hoS, hi, Successes);
    LoggedParts(log, cand, hoS, hi, Failures);
    DecisionIff(
      LoggedAfter(log, cand, hoS, hi, Successes), LoggedAfter(log, cand, hoS, hi, Failures),
      LoggedEarly(log, cand, hoS, hi, Successes), LoggedEarly(log, cand, hoS, hi, Failures));
  }

  lemma {:induction false} HalfOpenStamped(evs: seq<Event>, cand: CandidateRef, nowS: real, p: Params)
    requires 1.0 <= p.windowS && 0.0 < p.openDurationS
    requires HalfOpenAt(evs, cand, nowS, WindowTtl(p.windowS) as real - 1.0, p)
    ensures 0.0 <= SnapOf(evs, cand, p).halfOpenedAtS
    ensures forall i :: 0 <= i < |LogOf(evs)| ==> BreakerSample(LogOf(evs)[i])
  {
    var all := evs + [Refresh(nowS)];
    assert all[..|evs|] == evs && forall i :: 0 <= i < |evs| ==> all[i] == evs[i];
    LogOfTimed(evs, all[|evs|].nowS);
    HalfOpenSince(evs, cand, p);
  }

  // ------------------------------------------------------------ from open to closed

  function SnapsOf(evs: seq<Event>, cand: CandidateRef, p: Params): (snaps: seq<Snap>)
    ensures |snaps| == |evs| + 1 && forall k :: 0 <= k <= |evs| ==> snaps[k] == SnapOf(evs[..k], cand, p)
  {
    seq(|evs| + 1, k requires 0 <= k <= |evs| => SnapOf(evs[..k], cand, p))
  }

  lemma {:induction false} CadencePrefix(evs: seq<Event>, k: nat, gapS: real)
    requires Cadence(evs, gapS) && k <= |evs|
    ensures Cadence(evs[..k], gapS)
    decreases |evs|
  {
    if k == |evs| {
      assert evs[..k] == evs;
    } else {
      CadencePrefix(evs[..|evs| - 1], k, gapS);
      assert evs[..|evs| - 1][..k] == evs[..k];
    }
  }

  lemma OnlyRefreshCloses(init: seq<Event>, ev: Event, cand: CandidateRef, p: Params)
    requires SnapOf(init, cand, p).state != Closed && SnapOf(init + [ev], cand, p).state == Closed
    ensures ev.Refresh? && SnapOf(init, cand, p).state == BreakerState.HalfOpen
  {
    match ev {
      case Took(s) => SampleStep(init, s, p);
      case Refresh(now) => RefreshStep(init, cand, now, p);
    }
  }

  /** A run with timely refreshes goes from open to closed only through a half-open
      snapshot that had waited out the open duration, at a refresh before which a
      success and no failure was logged from the second of the half-open transition on. */
  lemma ClosesOnLoggedProbe(evs: seq<Event>, cand: CandidateRef, p: Params, i: nat, j: nat) returns (m: nat)
    requires 1.0 <= p.windowS && 0.0 < p.openDurationS
    requires Timed(evs) && Cadence(evs, WindowTtl(p.windowS) as real - 1.0) && i < j <= |evs|
    requires SnapOf(evs[..i], cand, p).state == Open && SnapOf(evs[..j], cand, p).state == Closed
    ensures i < m < j && evs[m].Refresh?
    ensures
      var e := SnapOf(evs[..m], cand, p);
      var ho, hi := Truncate(e.halfOpenedAtS), Truncate(TimeOf(evs[m]));
      && e.state == BreakerState.HalfOpen
      && e.openedAtS + p.openDurationS <= e.halfOpenedAtS
      && 0 < Logged(LogOf(evs[..m]), cand, ho, hi, Successes)
      && Logged(LogOf(evs[..m]), cand, ho, hi, Failures) == 0
      && SnapOf(evs[..m + 1], cand, p).state == Closed
  {
    m := LastClosing(SnapsOf(evs, cand, p), i, j);
    ClosingAt(evs, cand, p, m);
  }

  lemma PrefixGrows(evs: seq<Event>, m: nat)
    requires m < |evs| && Timed(evs)
    ensures evs[..m + 1] == evs[..m] + [evs[m]] && Timed(evs[..m] + [evs[m]])
  {
  }

  lemma {:induction false} ClosingAt(evs: seq<Event>, cand: CandidateRef, p: Params, m: nat)
    requires 1.0 <= p.windowS && 0.0 < p.openDurationS
    requires Timed(evs) && Cadence(evs, WindowTtl(p.windowS) as real - 1.0) && m < |evs|
    requires SnapOf(evs[..m], cand, p).state != Closed && SnapOf(evs[..m + 1], cand, p).state == Closed
    ensures evs[m].Refresh?
    ensures
      var e := SnapOf(evs[..m], cand, p);
      var ho, hi := Truncate(e.halfOpenedAtS), Truncate(TimeOf(evs[m]));
      && e.state == BreakerState.HalfOpen
      && e.openedAtS + p.openDurationS <= e.halfOpenedAtS
      && 0 < Logged(LogOf(evs[..m]), cand, ho, hi, Successes)
      && Logged(LogOf(evs[..m]), cand, ho, hi, Failures) == 0
  {
    PrefixGrows(evs, m);
    OnlyRefreshCloses(evs[..m], evs[m], cand, p);
    CadencePrefix(evs, m + 1, WindowTtl(p.windowS) as real - 1.0);
    ClosingRefresh(evs[..m], cand, evs[m].nowS, p);
  }

  lemma {:induction false} ClosingRefresh(init: seq<Event>, cand: CandidateRef, nowS: real, p: Params)
    requires 1.0 <= p.windowS && 0.0 < p.openDurationS
    requires HalfOpenAt(init, cand, nowS, WindowTtl(p.windowS) as real - 1.0, p)
    requires SnapOf(init + [Refresh(nowS)], cand, p).state == Closed
    ensures
      var e := SnapOf(init, cand, p);
      var ho, hi := Truncate(e.halfOpenedAtS), Truncate(nowS);
      && e.openedAtS + p.openDurationS <= e.halfOpenedAtS
      && 0 < Logged(LogOf(init), cand, ho, hi, Successes)
      && Logged(LogOf(init), cand, ho, hi, Failures) == 0
  {
    HalfOpenDecidedByLog(init, cand, nowS, p);
    StampsFitState(ReadingsOf(init, cand, p), p);
  }
}
