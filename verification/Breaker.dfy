/** The sliding-window circuit breaker: the state machine of one candidate, and
    the per-replica set of breakers over shared counters. */
module Breaker {
  import opened Common
  import opened SecondCounters
  import TokenBucket

  datatype Snap = Snap(
    state: BreakerState, openedAtS: real, samples: int, failures: int, halfOpenedAtS: real)

  const NEVER_SEEN := Snap(Closed, 0.0, 0, 0, 0.0)

  datatype Params = Params(
    windowS: NonNegativeReal, minSamples: Positive, openDurationS: real, failureThreshold: real)

  /** What one refresh reads about one candidate: the window's counts, and the
      counts of the seconds since the half-open transition. */
  datatype Reading = Reading(nowS: real, total: int, failures: int, probeOk: int, probeFailed: int)

  function NextState(prev: Snap, r: Reading, p: Params): Snap {
    match prev.state
    case Open => prev.(samples := r.total, failures := r.failures)
    case HalfOpen =>
      if 0 < r.probeFailed then Snap(Open, r.nowS, r.total, r.failures, 0.0)
      else if 0 < r.probeOk then Snap(Closed, 0.0, r.total, r.failures, 0.0)
      else prev.(samples := r.total, failures := r.failures)
    case Closed =>
      if p.minSamples <= r.total && p.failureThreshold <= r.failures as real / r.total as real
      then Snap(Open, r.nowS, r.total, r.failures, 0.0)
      else Snap(Closed, 0.0, r.total, r.failures, 0.0)
  }

  function AfterWindow(e: Snap, nowS: real, p: Params): Snap {
    if e.state == Open && p.openDurationS <= nowS - e.openedAtS
    then e.(state := HalfOpen, halfOpenedAtS := nowS)
    else e
  }

  function Refreshed(prev: Snap, r: Reading, p: Params): Snap {
    AfterWindow(NextState(prev, r, p), r.nowS, p)
  }

  // ------------------------------------------------------------ dwell, over any readings

  function SnapAfter(rs: seq<Reading>, p: Params): Snap {
    if rs == [] then NEVER_SEEN else Refreshed(SnapAfter(rs[..|rs| - 1], p), rs[|rs| - 1], p)
  }

  predicate Clocked(rs: seq<Reading>) {
    forall i, j :: 0 <= i < j < |rs| ==> rs[i].nowS <= rs[j].nowS
  }

  predicate Consistent(e: Snap, p: Params) {
    match e.state
    case Closed => e.openedAtS == 0.0 && e.halfOpenedAtS == 0.0
    case Open => e.halfOpenedAtS == 0.0
    case HalfOpen => e.openedAtS + p.openDurationS <= e.halfOpenedAtS
  }

  /** The stamps always fit the state: a closed breaker has none, an open one no
      half-open time, a half-open one waited out the open duration. */
  lemma {:induction false} StampsFitState(rs: seq<Reading>, p: Params)
    requires 0.0 < p.openDurationS
    ensures Consistent(SnapAfter(rs, p), p)
  {
    if rs != [] {
      StampsFitState(rs[..|rs| - 1], p);
    }
  }

  lemma {:induction false} SnapStep(rs: seq<Reading>, p: Params, k: nat)
    requires k < |rs|
    ensures SnapAfter(rs[..k + 1], p) == Refreshed(SnapAfter(rs[..k], p), rs[k], p)
  {
    assert rs[..k + 1][..k] == rs[..k];
  }

  /** After a refresh leaves the breaker open since t, every refresh before
      t + openDuration yields open, still since t. */
  lemma {:induction false} OpenDwells(rs: seq<Reading>, p: Params, i: nat, j: nat)
    requires Clocked(rs) && i <= j <= |rs| && 0 < j
    requires SnapAfter(rs[..i], p).state == Open
    requires rs[j - 1].nowS < SnapAfter(rs[..i], p).openedAtS + p.openDurationS
    ensures SnapAfter(rs[..j], p).state == Open
    ensures SnapAfter(rs[..j], p).openedAtS == SnapAfter(rs[..i], p).openedAtS
    decreases j
  {
    if i < j {
      SnapStep(rs, p, j - 1);
      if i < j - 1 {
        OpenDwells(rs, p, i, j - 1);
      }
    }
  }

  /** A breaker that opens is stamped with the time of the refresh that opened it. */
  lemma {:induction false} TripIsStamped(rs: seq<Reading>, p: Params, k: nat)
    requires 0.0 < p.openDurationS && k < |rs|
    requires SnapAfter(rs[..k], p).state != Open && SnapAfter(rs[..k + 1], p).state == Open
    ensures SnapAfter(rs[..k + 1], p).openedAtS == rs[k].nowS
    ensures SnapAfter(rs[..k], p).state == HalfOpen ==> 0 < rs[k].probeFailed
    ensures SnapAfter(rs[..k], p).state == Closed ==>
      p.minSamples <= rs[k].total && p.failureThreshold * rs[k].total as real <= rs[k].failures as real
  {
    SnapStep(rs, p, k);
    if SnapAfter(rs[..k], p).state == Closed {
      ThresholdReached(p.failureThreshold, rs[k].failures, rs[k].total);
    }
  }

  lemma ThresholdReached(q: real, a: int, b: int)
    requires 0 < b
    ensures q <= a as real / b as real <==> q * b as real <= a as real
  {
    var d := a as real / b as real;
    assert d * b as real == a as real;
    assert (d - q) * b as real == a as real - q * b as real;
    assert 0.0 <= d - q <==> 0.0 <= (d - q) * b as real;
  }

  lemma {:induction false} OnlyHalfOpenCloses(rs: seq<Reading>, p: Params, m: nat)
    requires m < |rs|
    requires SnapAfter(rs[..m], p).state != Closed && SnapAfter(rs[..m + 1], p).state == Closed
    ensures SnapAfter(rs[..m], p).state == HalfOpen && 0 < rs[m].probeOk && rs[m].probeFailed <= 0
  {
    SnapStep(rs, p, m);
  }

  function Snaps(rs: seq<Reading>, p: Params): seq<Snap> {
    seq(|rs| + 1, k requires 0 <= k <= |rs| => SnapAfter(rs[..k], p))
  }

  lemma {:induction false} LastClosing(snaps: seq<Snap>, i: nat, j: nat) returns (m: nat)
    requires i < j < |snaps| && snaps[i].state == Open && snaps[j].state == Closed
    ensures i <= m < j && snaps[m].state != Closed && snaps[m + 1].state == Closed
    decreases j
  {
    m := j - 1;
    if snaps[m].state == Closed {
      m := LastClosing(snaps, i, j - 1);
    }
  }

  /** Open never becomes closed without a half-open refresh in between, at least
      openDuration after the breaker opened, followed by one that reads a probe
      success and no probe failure. */
  lemma ClosesThroughHalfOpen(rs: seq<Reading>, p: Params, i: nat, j: nat) returns (m: nat)
    requires Clocked(rs) && 0.0 < p.openDurationS && i < j <= |rs|
    requires SnapAfter(rs[..i], p).state == Open && SnapAfter(rs[..j], p).state == Closed
    ensures i < m < j
    ensures SnapAfter(rs[..m], p).state == HalfOpen && SnapAfter(rs[..m + 1], p).state == Closed
    ensures 0 < rs[m].probeOk && rs[m].probeFailed <= 0
    ensures SnapAfter(rs[..i], p).openedAtS + p.openDurationS <= rs[m - 1].nowS
  {
    m := LastClosing(Snaps(rs, p), i, j);
    OnlyHalfOpenCloses(rs, p, m);
    HalfOpenWaited(rs, p, i, m);
  }

  lemma {:induction false} HalfOpenWaited(rs: seq<Reading>, p: Params, i: nat, m: nat)
    requires Clocked(rs) && i <= m <= |rs|
    requires SnapAfter(rs[..i], p).state == Open && SnapAfter(rs[..m], p).state == HalfOpen
    ensures i < m && SnapAfter(rs[..i], p).openedAtS + p.openDurationS <= rs[m - 1].nowS
  {
    if rs[m - 1].nowS < SnapAfter(rs[..i], p).openedAtS + p.openDurationS {
      OpenDwells(rs, p, i, m);
    }
  }

  // ------------------------------------------------------------ one candidate against its log

  function ReadingAt(cells: Cells, prev: Snap, cand: CandidateRef, nowS: real, p: Params): Reading {
    var lo, hi := Truncate(nowS - p.windowS), Truncate(nowS);
    var ho := Truncate(prev.halfOpenedAtS);
    Reading(
      nowS,
      Read(cells, cand, lo, hi, nowS, Successes) + Read(cells, cand, lo, hi, nowS, Failures),
      Read(cells, cand, lo, hi, nowS, Failures),
      if prev.state == HalfOpen then Read(cells, cand, ho, hi, nowS, Successes) else 0,
      if prev.state == HalfOpen then Read(cells, cand, ho, hi, nowS, Failures) else 0)
  }

  datatype Event = Took(sample: Sample) | Refresh(nowS: real)

  function TimeOf(ev: Event): real {
    match ev
    case Took(s) => s.atS
    case Refresh(now) => now
  }

  function LogOf(evs: seq<Event>): seq<Sample> {
    if evs == [] then []
    else
      var last := evs[|evs| - 1];
      LogOf(evs[..|evs| - 1]) + if last.Took? then [last.sample] else []
  }

  function ReadingsOf(evs: seq<Event>, cand: CandidateRef, p: Params): seq<Reading> {
    if evs == [] then []
    else
      var init, last := evs[..|evs| - 1], evs[|evs| - 1];
      var before := ReadingsOf(init, cand, p);
      if last.Took? then before
      else
        var cells := Store(LogOf(init), WindowTtl(p.windowS));
        before + [ReadingAt(cells, SnapAfter(before, p), cand, last.nowS, p)]
  }

  /** The candidate's snapshot after a run of samples and refreshes. */
  function SnapOf(evs: seq<Event>, cand: CandidateRef, p: Params): Snap {
    SnapAfter(ReadingsOf(evs, cand, p), p)
  }

  predicate BreakerSample(s: Sample) {
    && (s.tally == Tally(1, 0, 0, 0) || s.tally == Tally(0, 1, 0, 0))
    && 0.0 <= s.atS
    && s.sec == Truncate(s.atS)
  }

  /** Samples and refreshes share one clock that never runs backwards and never
      reads less than zero. */
  predicate Timed(evs: seq<Event>) {
    && (forall i :: 0 <= i < |evs| ==> 0.0 <= TimeOf(evs[i]))
    && (forall i :: 0 <= i < |evs| && evs[i].Took? ==> BreakerSample(evs[i].sample))
    && (forall i, j :: 0 <= i < j < |evs| ==> TimeOf(evs[i]) <= TimeOf(evs[j]))
  }

  function LastRefresh(evs: seq<Event>): Option<real> {
    if evs == [] then None
    else if evs[|evs| - 1].Refresh? then Some(evs[|evs| - 1].nowS)
    else LastRefresh(evs[..|evs| - 1])
  }

  /** Refreshes come at most `gapS` apart. */
  predicate Cadence(evs: seq<Event>, gapS: real) {
    evs != [] ==>
      var init, last := evs[..|evs| - 1], evs[|evs| - 1];
      && Cadence(init, gapS)
      && (last.Refresh? && LastRefresh(init).Some? ==> last.nowS <= LastRefresh(init).value + gapS)
  }

  lemma {:induction false} LogOfTimed(evs: seq<Event>, nowS: real)
    requires Timed(evs) && (forall i :: 0 <= i < |evs| ==> TimeOf(evs[i]) <= nowS)
    ensures Ordered(LogOf(evs), nowS) && Stamped(LogOf(evs))
    ensures forall i :: 0 <= i < |LogOf(evs)| ==> BreakerSample(LogOf(evs)[i])
  {
    if evs != [] {
      var n := |evs| - 1;
      LogOfTimed(evs[..n], TimeOf(evs[n]));
    }
  }

  /** The window counts of a refresh are the logged counts of that window. */
  lemma {:induction false} WindowCountsAreLogged(evs: seq<Event>, prev: Snap, cand: CandidateRef, nowS: real, p: Params)
    requires 1.0 <= p.windowS
    requires Timed(evs) && (forall i :: 0 <= i < |evs| ==> TimeOf(evs[i]) <= nowS)
    ensures
      var r := ReadingAt(Store(LogOf(evs), WindowTtl(p.windowS)), prev, cand, nowS, p);
      && r.failures == WindowLogged(LogOf(evs), cand, nowS, p.windowS, Failures)
      && r.total == r.failures + WindowLogged(LogOf(evs), cand, nowS, p.windowS, Successes)
  {
    LogOfTimed(evs, nowS);
    ReadingCountsWindow(LogOf(evs), prev, cand, nowS, p);
  }

  lemma {:induction false} ReadingCountsWindow(log: seq<Sample>, prev: Snap, cand: CandidateRef, nowS: real, p: Params)
    requires 1.0 <= p.windowS && Ordered(log, nowS) && Stamped(log)
    ensures
      var r := ReadingAt(Store(log, WindowTtl(p.windowS)), prev, cand, nowS, p);
      && r.failures == WindowLogged(log, cand, nowS, p.windowS, Failures)
      && r.total == r.failures + WindowLogged(log, cand, nowS, p.windowS, Successes)
  {
    WindowIsLogged(log, cand, nowS, p.windowS);
    assert WindowRead(log, cand, nowS, p.windowS, Failures) == WindowLogged(log, cand, nowS, p.windowS, Failures);
    assert WindowRead(log, cand, nowS, p.windowS, Successes) == WindowLogged(log, cand, nowS, p.windowS, Successes);
  }

  lemma {:induction false} LoggedZero(log: seq<Sample>, cand: CandidateRef, lo: int, hi: int)
    requires forall i :: 0 <= i < |log| ==> BreakerSample(log[i])
    ensures 0 <= Logged(log, cand, lo, hi, Successes) && 0 <= Logged(log, cand, lo, hi, Failures)
    ensures Logged(log, cand, lo, hi, Successes) == 0 && Logged(log, cand, lo, hi, Failures) == 0 ==>
      forall i :: 0 <= i < |log| ==> !In(log[i], cand, lo, hi)
  {
    if log != [] {
      LoggedZero(log[..|log| - 1], cand, lo, hi);
    }
  }

  /** Everything logged in the seconds from the half-open transition on was taken
      less than a second before the last refresh, or after it. */
  ghost predicate ProbesRecent(log: seq<Sample>, cand: CandidateRef, halfOpenedAtS: real, sinceS: real) {
    forall i :: 0 <= i < |log| && log[i].cand == cand && Truncate(halfOpenedAtS) <= log[i].sec ==>
      sinceS - 1.0 < log[i].atS
  }

  lemma {:induction false} ProbeReadExact(
    log: seq<Sample>, cand: CandidateRef, halfOpenedAtS: real, sinceS: real, nowS: real, ttlS: int)
    requires Ordered(log, nowS) && ProbesRecent(log, cand, halfOpenedAtS, sinceS)
    requires nowS <= sinceS + ttlS as real - 1.0
    ensures forall f ::
      Read(Store(log, ttlS), cand, Truncate(halfOpenedAtS), Truncate(nowS), nowS, f)
        == Logged(log, cand, Truncate(halfOpenedAtS), Truncate(nowS), f)
  {
    forall f
      ensures Read(Store(log, ttlS), cand, Truncate(halfOpenedAtS), Truncate(nowS), nowS, f)
        == Logged(log, cand, Truncate(halfOpenedAtS), Truncate(nowS), f)
    {
      ReadIsLogged(log, cand, Truncate(halfOpenedAtS), Truncate(nowS), nowS, ttlS, f);
    }
  }

  /** A half-open breaker turned so at or before the last refresh, and was probed only since. */
  ghost predicate ProbedSince(evs: seq<Event>, cand: CandidateRef, p: Params) {
    && LastRefresh(evs).Some?
    && 0.0 <= SnapOf(evs, cand, p).halfOpenedAtS <= LastRefresh(evs).value
    && ProbesRecent(LogOf(evs), cand, SnapOf(evs, cand, p).halfOpenedAtS, LastRefresh(evs).value)
  }

  lemma SampleKeepsProbedSince(evs: seq<Event>, cand: CandidateRef, p: Params)
    requires evs != [] && Timed(evs) && evs[|evs| - 1].Took? && ProbedSince(evs[..|evs| - 1], cand, p)
    ensures ProbedSince(evs, cand, p)
  {
    LastRefreshBounds(evs[..|evs| - 1]);
  }

  lemma {:induction false} RefreshFacts(init: seq<Event>, nowS: real)
    requires Timed(init + [Refresh(nowS)])
    ensures Timed(init) && forall i :: 0 <= i < |init| ==> TimeOf(init[i]) <= nowS
    ensures LastRefresh(init + [Refresh(nowS)]) == Some(nowS)
    ensures LogOf(init + [Refresh(nowS)]) == LogOf(init)
    ensures 0.0 <= nowS
  {
    var evs := init + [Refresh(nowS)];
    assert evs[..|init|] == init && evs[|init|] == Refresh(nowS);
    assert TimeOf(evs[|init|]) == nowS;
    forall i | 0 <= i < |init|
      ensures evs[i] == init[i] && TimeOf(evs[i]) <= TimeOf(evs[|init|])
    {
    }
  }

  /** A half-open snapshot keeps its stamp, and a new one is stamped with the refresh. */
  lemma HalfOpenStamp(prev: Snap, r: Reading, p: Params)
    requires 0.0 < p.openDurationS && Refreshed(prev, r, p).state == HalfOpen
    ensures Refreshed(prev, r, p).halfOpenedAtS == if prev.state == HalfOpen then prev.halfOpenedAtS else r.nowS
  {
  }

  lemma RefreshStartsProbedSince(init: seq<Event>, nowS: real, cand: CandidateRef, p: Params)
    requires 0.0 < p.openDurationS && Timed(init + [Refresh(nowS)])
    requires SnapOf(init, cand, p).state != HalfOpen && SnapOf(init + [Refresh(nowS)], cand, p).state == HalfOpen
    ensures ProbedSince(init + [Refresh(nowS)], cand, p)
  {
    RefreshFacts(init, nowS);
    RefreshStep(init, cand, nowS, p);
    var prev, log := SnapOf(init, cand, p), LogOf(init);
    HalfOpenStamp(prev, ReadingAt(Store(log, WindowTtl(p.windowS)), prev, cand, nowS, p), p);
    LogOfTimed(init, nowS);
    forall i | 0 <= i < |log| && log[i].cand == cand && Truncate(nowS) <= log[i].sec
      ensures nowS - 1.0 < log[i].atS
    {
      SecondNotBefore(log[i].atS, nowS);
    }
  }

  lemma {:induction false} RefreshKeepsProbedSince(init: seq<Event>, nowS: real, cand: CandidateRef, p: Params)
    requires 1.0 <= p.windowS && 0.0 < p.openDurationS
    requires Timed(init + [Refresh(nowS)])
    requires Cadence(init, WindowTtl(p.windowS) as real - 1.0)
    requires SnapOf(init, cand, p).state == HalfOpen && SnapOf(init + [Refresh(nowS)], cand, p).state == HalfOpen
    requires ProbedSince(init, cand, p) && nowS <= LastRefresh(init).value + WindowTtl(p.windowS) as real - 1.0
    ensures ProbedSince(init + [Refresh(nowS)], cand, p)
  {
    RefreshFacts(init, nowS);
    RefreshStep(init, cand, nowS, p);
    var prev, log := SnapOf(init, cand, p), LogOf(init);
    HalfOpenStamp(prev, ReadingAt(Store(log, WindowTtl(p.windowS)), prev, cand, nowS, p), p);
    LogOfTimed(init, nowS);
    StillHalfOpenMeansNoProbe(init, cand, nowS, p);
    LastRefreshBounds(init);
    StillHalfOpenRecent(log, cand, prev.halfOpenedAtS, nowS);
  }

  lemma StillHalfOpenRecent(log: seq<Sample>, cand: CandidateRef, halfOpenedAtS: real, nowS: real)
    requires Ordered(log, nowS) && forall i :: 0 <= i < |log| ==> BreakerSample(log[i])
    requires 0.0 <= nowS
    requires forall i :: 0 <= i < |log| && log[i].cand == cand ==>
      log[i].sec < Truncate(halfOpenedAtS) || Truncate(nowS) < log[i].sec
    ensures ProbesRecent(log, cand, halfOpenedAtS, nowS)
  {
    forall i | 0 <= i < |log| && log[i].cand == cand && Truncate(nowS) < log[i].sec
      ensures nowS - 1.0 < log[i].atS
    {
      SecondNotBefore(log[i].atS, nowS);
    }
  }

  lemma {:induction false} HalfOpenSince(evs: seq<Event>, cand: CandidateRef, p: Params)
    requires 1.0 <= p.windowS && 0.0 < p.openDurationS
    requires Timed(evs) && Cadence(evs, WindowTtl(p.windowS) as real - 1.0)
    requires SnapOf(evs, cand, p).state == HalfOpen
    ensures ProbedSince(evs, cand, p)
  {
    if evs != [] {
      var init, last := evs[..|evs| - 1], evs[|evs| - 1];
      assert evs == init + [last];
      if last.Took? {
        HalfOpenSince(init, cand, p);
        SampleKeepsProbedSince(evs, cand, p);
      } else if SnapOf(init, cand, p).state == HalfOpen {
        HalfOpenSince(init, cand, p);
        RefreshKeepsProbedSince(init, last.nowS, cand, p);
      } else {
        RefreshStartsProbedSince(init, last.nowS, cand, p);
      }
    }
  }

  lemma {:induction false} LastRefreshBounds(evs: seq<Event>)
    requires Timed(evs) && LastRefresh(evs).Some?
    ensures exists i :: 0 <= i < |evs| && TimeOf(evs[i]) == LastRefresh(evs).value
  {
    if evs[|evs| - 1].Refresh? {
      assert TimeOf(evs[|evs| - 1]) == LastRefresh(evs).value;
    } else {
      LastRefreshBounds(evs[..|evs| - 1]);
    }
  }

  /** What the next refresh of a half-open breaker reads is what was logged. */
  lemma {:induction false} ProbeCountsAreLogged(evs: seq<Event>, cand: CandidateRef, nowS: real, p: Params)
    requires 1.0 <= p.windowS && 0.0 < p.openDurationS
    requires Timed(evs + [Refresh(nowS)])
    requires Cadence(evs, WindowTtl(p.windowS) as real - 1.0)
    requires SnapOf(evs, cand, p).state == HalfOpen
    requires LastRefresh(evs).Some? && nowS <= LastRefresh(evs).value + WindowTtl(p.windowS) as real - 1.0
    requires ProbesRecent(LogOf(evs), cand, SnapOf(evs, cand, p).halfOpenedAtS, LastRefresh(evs).value)
    ensures
      var prev := SnapOf(evs, cand, p);
      var r := ReadingAt(Store(LogOf(evs), WindowTtl(p.windowS)), prev, cand, nowS, p);
      && r.probeOk == Logged(LogOf(evs), cand, Truncate(prev.halfOpenedAtS), Truncate(nowS), Successes)
      && r.probeFailed == Logged(LogOf(evs), cand, Truncate(prev.halfOpenedAtS), Truncate(nowS), Failures)
  {
    var all := evs + [Refresh(nowS)];
    assert all[|evs|] == Refresh(nowS) && forall i :: 0 <= i < |evs| ==> all[i] == evs[i];
    LogOfTimed(evs, nowS);
    ProbeReadExact(LogOf(evs), cand, SnapOf(evs, cand, p).halfOpenedAtS, LastRefresh(evs).value, nowS,
                   WindowTtl(p.windowS));
  }

  lemma {:induction false} StillHalfOpenMeansNoProbe(evs: seq<Event>, cand: CandidateRef, nowS: real, p: Params)
    requires 1.0 <= p.windowS && 0.0 < p.openDurationS
    requires Timed(evs + [Refresh(nowS)])
    requires Cadence(evs, WindowTtl(p.windowS) as real - 1.0)
    requires SnapOf(evs, cand, p).state == HalfOpen
    requires LastRefresh(evs).Some? && nowS <= LastRefresh(evs).value + WindowTtl(p.windowS) as real - 1.0
    requires ProbesRecent(LogOf(evs), cand, SnapOf(evs, cand, p).halfOpenedAtS, LastRefresh(evs).value)
    requires SnapOf(evs + [Refresh(nowS)], cand, p).state == HalfOpen
    ensures forall i :: 0 <= i < |LogOf(evs)| && LogOf(evs)[i].cand == cand ==>
      LogOf(evs)[i].sec < Truncate(SnapOf(evs, cand, p).halfOpenedAtS) || Truncate(nowS) < LogOf(evs)[i].sec
  {
    var e := SnapOf(evs, cand, p);
    ProbeCountsAreLogged(evs, cand, nowS, p);
    RefreshStep(evs, cand, nowS, p);
    StillHalfOpenReadNothing(e, ReadingAt(Store(LogOf(evs), WindowTtl(p.windowS)), e, cand, nowS, p), p);
    RefreshFacts(evs, nowS);
    LogOfTimed(evs, nowS);
    NothingLoggedIn(LogOf(evs), cand, Truncate(e.halfOpenedAtS), Truncate(nowS));
  }

  lemma StillHalfOpenReadNothing(e: Snap, r: Reading, p: Params)
    requires 0.0 < p.openDurationS && e.state == HalfOpen && Refreshed(e, r, p).state == HalfOpen
    ensures r.probeOk <= 0 && r.probeFailed <= 0
  {
  }

  lemma {:induction false} NothingLoggedIn(log: seq<Sample>, cand: CandidateRef, lo: int, hi: int)
    requires forall i :: 0 <= i < |log| ==> BreakerSample(log[i])
    requires Logged(log, cand, lo, hi, Successes) <= 0 && Logged(log, cand, lo, hi, Failures) <= 0
    ensures forall i :: 0 <= i < |log| && log[i].cand == cand ==> log[i].sec < lo || hi < log[i].sec
  {
    LoggedZero(log, cand, lo, hi);
    forall i | 0 <= i < |log| && log[i].cand == cand
      ensures log[i].sec < lo || hi < log[i].sec
    {
      assert !In(log[i], cand, lo, hi);
    }
  }

  lemma {:induction false} SampleStep(evs: seq<Event>, s: Sample, p: Params)
    ensures LogOf(evs + [Took(s)]) == LogOf(evs) + [s]
    ensures forall c :: SnapOf(evs + [Took(s)], c, p) == SnapOf(evs, c, p)
  {
    assert (evs + [Took(s)])[..|evs|] == evs;
  }

  lemma {:induction false} RefreshLogsNothing(evs: seq<Event>, nowS: real)
    ensures LogOf(evs + [Refresh(nowS)]) == LogOf(evs)
  {
    assert (evs + [Refresh(nowS)])[..|evs|] == evs;
  }

  lemma {:induction false} RefreshStep(evs: seq<Event>, cand: CandidateRef, nowS: real, p: Params)
    ensures SnapOf(evs + [Refresh(nowS)], cand, p) ==
      Refreshed(
        SnapOf(evs, cand, p),
        ReadingAt(Store(LogOf(evs), WindowTtl(p.windowS)), SnapOf(evs, cand, p), cand, nowS, p),
        p)
  {
    var all := evs + [Refresh(nowS)];
    assert all[..|evs|] == evs;
    var rs := ReadingsOf(all, cand, p);
    assert rs[..|rs| - 1] == ReadingsOf(evs, cand, p);
  }

  /** With refreshes at most 4W - 1 seconds apart, the refresh of a half-open
      breaker reopens it exactly when a failure was logged from the second of the
      half-open transition on, closes it exactly when a success but no failure
      was, and otherwise leaves it half-open. */
  lemma {:induction false} HalfOpenDecidedByLog(evs: seq<Event>, cand: CandidateRef, nowS: real, p: Params)
    requires 1.0 <= p.windowS && 0.0 < p.openDurationS
    requires Timed(evs + [Refresh(nowS)])
    requires Cadence(evs + [Refresh(nowS)], WindowTtl(p.windowS) as real - 1.0)
    requires SnapOf(evs, cand, p).state == HalfOpen
    ensures
      var ho := Truncate(SnapOf(evs, cand, p).halfOpenedAtS);
      var ok := Logged(LogOf(evs), cand, ho, Truncate(nowS), Successes);
      var failed := Logged(LogOf(evs), cand, ho, Truncate(nowS), Failures);
      var next := SnapOf(evs + [Refresh(nowS)], cand, p).state;
      && (next == Open <==> 0 < failed)
      && (next == Closed <==> 0 < ok && failed == 0)
      && (next == HalfOpen <==> ok == 0 && failed == 0)
  {
    var all := evs + [Refresh(nowS)];
    assert all[..|evs|] == evs && forall i :: 0 <= i < |evs| ==> all[i] == evs[i];
    HalfOpenSince(evs, cand, p);
    ProbeCountsAreLogged(evs, cand, nowS, p);
    RefreshStep(evs, cand, nowS, p);
    LogOfTimed(evs, nowS);
    LoggedZero(LogOf(evs), cand, Truncate(SnapOf(evs, cand, p).halfOpenedAtS), Truncate(nowS));
  }

  /** What every refresh leaves as the snapshot's counts. */
  lemma RefreshKeepsCounts(prev: Snap, r: Reading, p: Params)
    ensures Refreshed(prev, r, p).samples == r.total && Refreshed(prev, r, p).failures == r.failures
  {
  }

  /** Open since now if there are enough samples and the failed share reaches the
      threshold, otherwise closed. */
  predicate TripsExactly(next: Snap, failed: int, total: int, nowS: real, p: Params) {
    && (next.state == Open <==> p.minSamples <= total && p.failureThreshold * total as real <= failed as real)
    && (next.state == Open || next.state == Closed)
    && next.openedAtS == if next.state == Open then nowS else 0.0
  }

  lemma ClosedStep(prev: Snap, r: Reading, p: Params, failed: int, total: int)
    requires prev.state == Closed && 0.0 < p.openDurationS && r.total == total && r.failures == failed
    ensures TripsExactly(Refreshed(prev, r, p), failed, total, r.nowS, p)
  {
    if p.minSamples <= total {
      ThresholdReached(p.failureThreshold, failed, total);
    }
  }

  lemma RefreshRead(evs: seq<Event>, cand: CandidateRef, nowS: real, p: Params) returns (r: Reading)
    requires 1.0 <= p.windowS && Timed(evs + [Refresh(nowS)])
    ensures r.nowS == nowS
    ensures r.failures == Logged(LogOf(evs), cand, Truncate(nowS - p.windowS), Truncate(nowS), Failures)
    ensures r.total == r.failures + Logged(LogOf(evs), cand, Truncate(nowS - p.windowS), Truncate(nowS), Successes)
    ensures SnapOf(evs + [Refresh(nowS)], cand, p) == Refreshed(SnapOf(evs, cand, p), r, p)
  {
    RefreshFacts(evs, nowS);
    RefreshStep(evs, cand, nowS, p);
    var prev := SnapOf(evs, cand, p);
    WindowCountsAreLogged(evs, prev, cand, nowS, p);
    r := ReadingAt(Store(LogOf(evs), WindowTtl(p.windowS)), prev, cand, nowS, p);
  }

  /** The counts a refresh keeps are those logged in its window. */
  lemma {:induction false} CountsAreLogged(evs: seq<Event>, cand: CandidateRef, nowS: real, p: Params)
    requires 1.0 <= p.windowS && Timed(evs + [Refresh(nowS)])
    ensures
      var lo, hi := Truncate(nowS - p.windowS), Truncate(nowS);
      var next := SnapOf(evs + [Refresh(nowS)], cand, p);
      && next.failures == Logged(LogOf(evs), cand, lo, hi, Failures)
      && next.samples == Logged(LogOf(evs), cand, lo, hi, Successes) + Logged(LogOf(evs), cand, lo, hi, Failures)
  {
    var r := RefreshRead(evs, cand, nowS, p);
    RefreshKeepsCounts(SnapOf(evs, cand, p), r, p);
  }

  /** A refresh opens a closed breaker exactly when the window logged enough samples and
      the failed share of them reaches the threshold; otherwise it stays closed. */
  lemma ClosedDecidedByLog(evs: seq<Event>, cand: CandidateRef, nowS: real, p: Params)
    returns (failed: int, total: int)
    requires 1.0 <= p.windowS && 0.0 < p.openDurationS
    requires Timed(evs + [Refresh(nowS)]) && SnapOf(evs, cand, p).state == Closed
    ensures failed == Logged(LogOf(evs), cand, Truncate(nowS - p.windowS), Truncate(nowS), Failures)
    ensures total == failed + Logged(LogOf(evs), cand, Truncate(nowS - p.windowS), Truncate(nowS), Successes)
    ensures TripsExactly(SnapOf(evs + [Refresh(nowS)], cand, p), failed, total, nowS, p)
  {
    var r := RefreshRead(evs, cand, nowS, p);
    failed, total := r.failures, r.total;
    ClosedStep(SnapOf(evs, cand, p), r, p, failed, total);
  }

  /** A refresh turns an open breaker half-open exactly when the open duration has
      passed, whatever was logged; otherwise it stays open since the same moment. */
  lemma OpenDecidedByClock(evs: seq<Event>, cand: CandidateRef, nowS: real, p: Params)
    requires SnapOf(evs, cand, p).state == Open
    ensures
      var prev, next := SnapOf(evs, cand, p), SnapOf(evs + [Refresh(nowS)], cand, p);
      && next.openedAtS == prev.openedAtS
      && if prev.openedAtS + p.openDurationS <= nowS
         then next.state == HalfOpen && next.halfOpenedAtS == nowS
         else next.state == Open
  {
    RefreshStep(evs, cand, nowS, p);
  }

  lemma {:induction false} ReadNothing(cells: Cells, cand: CandidateRef, lo: int, hi: int, nowS: real, f: Field)
    requires forall sec :: !Holds(cells, cand, sec, nowS)
    ensures Read(cells, cand, lo, hi, nowS, f) == 0
    decreases hi - lo
  {
    if lo <= hi {
      ReadNothing(cells, cand, lo, hi - 1, nowS, f);
      assert !Holds(cells, cand, hi, nowS);
    }
  }

  // ------------------------------------------------------------ all candidates of a replica

  function SnapFor(snapshot: map<CandidateRef, Snap>, cand: CandidateRef): Snap {
    if cand in snapshot then snapshot[cand] else NEVER_SEEN
  }

  /** A candidate nothing is held of reads as all zeros and stays as it was never seen. */
  lemma UnseenStaysUnseen(cells: Cells, cand: CandidateRef, nowS: real, p: Params)
    requires forall sec :: !Holds(cells, cand, sec, nowS)
    ensures Refreshed(NEVER_SEEN, ReadingAt(cells, NEVER_SEEN, cand, nowS, p), p) == NEVER_SEEN
  {
    ReadNothing(cells, cand, Truncate(nowS - p.windowS), Truncate(nowS), nowS, Successes);
    ReadNothing(cells, cand, Truncate(nowS - p.windowS), Truncate(nowS), nowS, Failures);
  }

  /** The counters hold the log of the history, and every candidate's snapshot is
      the one its own run of samples and refreshes leads to. */
  ghost predicate Tracks(cells: Cells, snapshot: map<CandidateRef, Snap>, history: seq<Event>, p: Params) {
    && cells == Store(LogOf(history), WindowTtl(p.windowS))
    && Stamped(LogOf(history))
    && forall c :: SnapFor(snapshot, c) == SnapOf(history, c, p)
  }

  lemma SampleTracked(cells: Cells, snapshot: map<CandidateRef, Snap>, history: seq<Event>, s: Sample, p: Params)
    requires Tracks(cells, snapshot, history, p) && s.sec == Truncate(s.atS)
    ensures Tracks(Record(cells, s, WindowTtl(p.windowS)), snapshot, history + [Took(s)], p)
  {
    StoreGrows(LogOf(history), s, WindowTtl(p.windowS));
    SampleStep(history, s, p);
  }

  /** Deciding, then transitioning every seeded candidate refreshes all candidates there are. */
  lemma AllRefreshed(
    cells: Cells, seeded: map<CandidateRef, Snap>, decided: map<CandidateRef, Snap>, next: map<CandidateRef, Snap>,
    nowS: real, p: Params)
    requires forall c, sec :: Holds(cells, c, sec, nowS) ==> c in seeded
    requires decided.Keys == seeded.Keys && next.Keys == decided.Keys
    requires forall c :: c in decided ==> decided[c] == NextState(seeded[c], ReadingAt(cells, seeded[c], c, nowS, p), p)
    requires forall c :: c in next ==> next[c] == AfterWindow(decided[c], nowS, p)
    ensures forall c ::
      SnapFor(next, c) == Refreshed(SnapFor(seeded, c), ReadingAt(cells, SnapFor(seeded, c), c, nowS, p), p)
  {
    forall c
      ensures SnapFor(next, c) == Refreshed(SnapFor(seeded, c), ReadingAt(cells, SnapFor(seeded, c), c, nowS, p), p)
    {
      if c !in seeded {
        UnseenStaysUnseen(cells, c, nowS, p);
      }
    }
  }

  lemma RefreshTracked(
    cells: Cells, before: map<CandidateRef, Snap>, after: map<CandidateRef, Snap>, history: seq<Event>, nowS: real,
    p: Params)
    requires Tracks(cells, before, history, p)
    requires forall c ::
      SnapFor(after, c) == Refreshed(SnapFor(before, c), ReadingAt(cells, SnapFor(before, c), c, nowS, p), p)
    ensures Tracks(cells, after, history + [Refresh(nowS)], p)
  {
    RefreshLogsNothing(history, nowS);
    forall c
      ensures SnapFor(after, c) == SnapOf(history + [Refresh(nowS)], c, p)
    {
      RefreshStep(history, c, nowS, p);
      assert SnapFor(before, c) == SnapOf(history, c, p);
    }
  }

  class BreakerSet {
    const params: Params
    const state: TokenBucket.RedisState
    var cells: Cells
    var snapshot: map<CandidateRef, Snap>
    ghost var history: seq<Event>

    constructor (state: TokenBucket.RedisState, params: Params)
      ensures Valid() && this.params == params && this.state == state && snapshot == map[] && history == []
    {
      this.state := state;
      this.params := params;
      cells := map[];
      snapshot := map[];
      history := [];
    }

    ghost predicate Valid()
      reads this
    {
      Tracks(cells, snapshot, history, params)
    }

    method Increment(cand: CandidateRef, ok: bool, nowS: real)
      requires Valid()
      modifies this`cells, this`history
      ensures Valid()
      ensures history == old(history) + [Took(
        Sample(cand, nowS, Truncate(nowS), if ok then Tally(1, 0, 0, 0) else Tally(0, 1, 0, 0)))]
    {
      var s := Sample(cand, nowS, Truncate(nowS), if ok then Tally(1, 0, 0, 0) else Tally(0, 1, 0, 0));
      SampleTracked(cells, snapshot, history, s, params);
      cells := Record(cells, s, WindowTtl(params.windowS));
      history := history + [Took(s)];
    }

    /** Adds every candidate that has a live sample key and no snapshot entry yet. */
    method SeedSnapshotFromKeys(nowS: real)
      modifies this`snapshot
      ensures forall c :: SnapFor(snapshot, c) == SnapFor(old(snapshot), c)
      ensures forall c, sec :: Holds(cells, c, sec, nowS) ==> c in snapshot
    {
      var keys := cells.Keys;
      while keys != {}
        invariant keys <= cells.Keys
        invariant forall c :: SnapFor(snapshot, c) == SnapFor(old(snapshot), c)
        invariant forall c, sec :: Holds(cells, c, sec, nowS) ==> (c, sec) in keys || c in snapshot
        decreases |keys|
      {
        var key :| key in keys;
        keys := keys - {key};
        if Holds(cells, key.0, key.1, nowS) && key.0 !in snapshot {
          snapshot := snapshot[key.0 := NEVER_SEEN];
        }
      }
    }

    /** One refresh moves every candidate by its own readings and no other's. */
    method RefreshSnapshot(nowS: real)
      requires Valid()
      modifies this`snapshot, this`history
      ensures Valid() && history == old(history) + [Refresh(nowS)]
      ensures forall c ::
        SnapFor(snapshot, c) ==
          Refreshed(SnapFor(old(snapshot), c), ReadingAt(cells, SnapFor(old(snapshot), c), c, nowS, params), params)
    {
      SeedSnapshotFromKeys(nowS);
      ghost var seeded := snapshot;
      var next := AggregateInto(snapshot, nowS);
      ghost var decided := next;
      next := TransitionAfterWindowInto(next, nowS);
      AllRefreshed(cells, seeded, decided, next, nowS, params);
      RefreshTracked(cells, seeded, next, history, nowS, params);
      snapshot := next;
      history := history + [Refresh(nowS)];
    }

    method AggregateInto(entries: map<CandidateRef, Snap>, nowS: real) returns (next: map<CandidateRef, Snap>)
      ensures next.Keys == entries.Keys
      ensures forall c :: c in next ==>
        next[c] == NextState(entries[c], ReadingAt(cells, entries[c], c, nowS, params), params)
    {
      next := entries;
      var todo := entries.Keys;
      while todo != {}
        invariant todo <= entries.Keys == next.Keys
        invariant forall c :: c in next ==>
          next[c] == if c in todo then entries[c]
                     else NextState(entries[c], ReadingAt(cells, entries[c], c, nowS, params), params)
        decreases |todo|
      {
        var cand :| cand in todo;
        todo := todo - {cand};
        var r := ReadCandidate(cand, entries[cand], nowS);
        next := next[cand := NextState(entries[cand], r, params)];
      }
    }

    method ReadCandidate(cand: CandidateRef, entry: Snap, nowS: real) returns (r: Reading)
      ensures r == ReadingAt(cells, entry, cand, nowS, params)
    {
      var t := SumSeconds(cells, cand, Truncate(nowS - params.windowS), Truncate(nowS), nowS);
      assert t.Get(Successes) == t.successes && t.Get(Failures) == t.failures;
      r := Reading(nowS, t.successes + t.failures, t.failures, 0, 0);
      if entry.state == HalfOpen {
        var ho := SumSeconds(cells, cand, Truncate(entry.halfOpenedAtS), Truncate(nowS), nowS);
        assert ho.Get(Successes) == ho.successes && ho.Get(Failures) == ho.failures;
        r := r.(probeOk := ho.successes, probeFailed := ho.failures);
      }
    }

    method TransitionAfterWindowInto(entries: map<CandidateRef, Snap>, nowS: real)
      returns (next: map<CandidateRef, Snap>)
      ensures next.Keys == entries.Keys
      ensures forall c :: c in next ==> next[c] == AfterWindow(entries[c], nowS, params)
    {
      next := entries;
      var todo := entries.Keys;
      while todo != {}
        invariant todo <= entries.Keys == next.Keys
        invariant forall c :: c in next ==>
          next[c] == if c in todo then entries[c] else AfterWindow(entries[c], nowS, params)
        decreases |todo|
      {
        var cand :| cand in todo;
        todo := todo - {cand};
        var entry := entries[cand];
        if entry.state == Open && params.openDurationS <= nowS - entry.openedAtS {
          next := next[cand := entry.(state := HalfOpen, halfOpenedAtS := nowS)];
        }
      }
    }

    /** Takes the fleet-wide probe slot for ten seconds. */
    method TryProbe(cand: CandidateRef, nowMs: int) returns (ok: bool)
      modifies state`probes
      ensures ok == !TokenBucket.Held(old(state.probes), cand, nowMs)
      ensures state.probes ==
        if ok then old(state.probes)[cand := nowMs + 1000 * PROBE_TTL_S] else old(state.probes)
    {
      ok := state.AcquireProbeLock(cand, nowMs, PROBE_TTL_S);
    }
  }

  // ------------------------------------------------------------ the probe slot

  const PROBE_TTL_S := 10

  function ProbesAfter(probes: map<CandidateRef, int>, cand: CandidateRef, times: seq<int>): map<CandidateRef, int> {
    if times == [] then probes
    else
      var before := ProbesAfter(probes, cand, times[..|times| - 1]);
      var now := times[|times| - 1];
      if TokenBucket.Held(before, cand, now) then before else before[cand := now + 1000 * PROBE_TTL_S]
  }

  /** Attempt k of replicas asking at these times gets the slot. */
  predicate Wins(probes: map<CandidateRef, int>, cand: CandidateRef, times: seq<int>, k: nat)
    requires k < |times|
  {
    !TokenBucket.Held(ProbesAfter(probes, cand, times[..k]), cand, times[k])
  }

  lemma {:induction false} SlotStaysHeld(
    probes: map<CandidateRef, int>, cand: CandidateRef, times: seq<int>, i: nat, j: nat)
    requires i < j <= |times| && Wins(probes, cand, times, i)
    requires forall a, b :: 0 <= a < b < |times| ==> times[a] <= times[b]
    ensures
      var after := ProbesAfter(probes, cand, times[..j]);
      cand in after && times[i] + 1000 * PROBE_TTL_S <= after[cand]
    decreases j
  {
    assert times[..j][..j - 1] == times[..j - 1];
    if i < j - 1 {
      SlotStaysHeld(probes, cand, times, i, j - 1);
    }
  }

  /** However many replicas ask, two grants of the probe slot are more than its
      ten-second TTL apart: within any ten seconds at most one replica probes. */
  lemma ProbesAreSpaced(probes: map<CandidateRef, int>, cand: CandidateRef, times: seq<int>, i: nat, j: nat)
    requires i < j < |times| && Wins(probes, cand, times, i) && Wins(probes, cand, times, j)
    requires forall a, b :: 0 <= a < b < |times| ==> times[a] <= times[b]
    ensures times[i] + 10000 < times[j]
  {
    SlotStaysHeld(probes, cand, times, i, j);
  }

  lemma {:induction false} HolderWon(probes: map<CandidateRef, int>, cand: CandidateRef, times: seq<int>, j: nat)
    returns (i: nat)
    requires j <= |times| && cand !in probes && cand in ProbesAfter(probes, cand, times[..j])
    ensures i < j && Wins(probes, cand, times, i)
    ensures ProbesAfter(probes, cand, times[..j])[cand] == times[i] + 1000 * PROBE_TTL_S
    decreases j
  {
    assert times[..j][..j - 1] == times[..j - 1];
    if Wins(probes, cand, times, j - 1) {
      i := j - 1;
    } else {
      i := HolderWon(probes, cand, times, j - 1);
    }
  }

  /** A slot that was free at first is granted exactly when nobody won it within the
      ten seconds before. */
  lemma WinsIff(probes: map<CandidateRef, int>, cand: CandidateRef, times: seq<int>, j: nat)
    requires j < |times| && cand !in probes
    requires forall a, b :: 0 <= a < b < |times| ==> times[a] <= times[b]
    ensures Wins(probes, cand, times, j) <==>
      forall i :: 0 <= i < j && Wins(probes, cand, times, i) ==> times[i] + 10000 < times[j]
  {
    forall i | 0 <= i < j && Wins(probes, cand, times, i) && Wins(probes, cand, times, j)
      ensures times[i] + 10000 < times[j]
    {
      ProbesAreSpaced(probes, cand, times, i, j);
    }
    if !Wins(probes, cand, times, j) {
      var i := HolderWon(probes, cand, times, j);
    }
  }
}
