/** Per-second sample counters in Redis, each with a TTL, and the plain event log
    they stand for. The breaker and the observation recorder both keep these. */
module SecondCounters {
  import opened Common

  datatype Field = Successes | Failures | LatencySumMs | LatencyCount

  /** The hash of one second. */
  datatype Tally = Tally(successes: nat, failures: nat, latencySumMs: int, latencyCount: nat) {
    function Get(f: Field): int {
      match f
      case Successes => successes
      case Failures => failures
      case LatencySumMs => latencySumMs
      case LatencyCount => latencyCount
    }
  }

  /** One record call: at `atS`, in second `sec`, it adds `tally` for the candidate. */
  datatype Sample = Sample(cand: CandidateRef, atS: real, sec: int, tally: Tally)

  datatype Cell = Cell(tally: Tally, expiresAtS: real)

  type Cells = map<(CandidateRef, int), Cell>

  predicate Holds(cells: Cells, cand: CandidateRef, sec: int, nowS: real) {
    (cand, sec) in cells && nowS <= cells[(cand, sec)].expiresAtS
  }

  function Live(cells: Cells, cand: CandidateRef, sec: int, nowS: real): Tally {
    if Holds(cells, cand, sec, nowS) then cells[(cand, sec)].tally else Tally(0, 0, 0, 0)
  }

  /** HINCRBY on each field, then EXPIRE; a TTL that is not positive removes the key at once. */
  function Record(cells: Cells, s: Sample, ttlS: int): Cells {
    var held := Live(cells, s.cand, s.sec, s.atS);
    var tally := Tally(
      held.successes + s.tally.successes, held.failures + s.tally.failures,
      held.latencySumMs + s.tally.latencySumMs, held.latencyCount + s.tally.latencyCount);
    if ttlS <= 0 then cells - {(s.cand, s.sec)} else cells[(s.cand, s.sec) := Cell(tally, s.atS + ttlS as real)]
  }

  function Store(log: seq<Sample>, ttlS: int): Cells {
    if log == [] then map[] else Record(Store(log[..|log| - 1], ttlS), log[|log| - 1], ttlS)
  }

  lemma {:induction false} StoreGrows(log: seq<Sample>, s: Sample, ttlS: int)
    ensures Store(log + [s], ttlS) == Record(Store(log, ttlS), s, ttlS)
  {
    assert (log + [s])[..|log|] == log;
  }

  /** What a reader sums over the seconds lo..hi. */
  function Read(cells: Cells, cand: CandidateRef, lo: int, hi: int, nowS: real, f: Field): int
    decreases hi - lo
  {
    if hi < lo then 0 else Read(cells, cand, lo, hi - 1, nowS, f) + Live(cells, cand, hi, nowS).Get(f)
  }

  predicate In(s: Sample, cand: CandidateRef, lo: int, hi: int) {
    s.cand == cand && lo <= s.sec <= hi
  }

  /** The same sum taken over the event log. */
  function Logged(log: seq<Sample>, cand: CandidateRef, lo: int, hi: int, f: Field): int {
    if log == [] then 0
    else
      var s := log[|log| - 1];
      Logged(log[..|log| - 1], cand, lo, hi, f) + if In(s, cand, lo, hi) then s.tally.Get(f) else 0
  }

  predicate Ordered(log: seq<Sample>, nowS: real) {
    && (forall i :: 0 <= i < |log| ==> log[i].atS <= nowS)
    && (forall i, j :: 0 <= i < j < |log| ==> log[i].atS <= log[j].atS)
  }

  /** Every sample carries the second of its own clock reading. */
  predicate Stamped(log: seq<Sample>) {
    forall i :: 0 <= i < |log| ==> log[i].sec == Truncate(log[i].atS)
  }

  /** No cell of the range has outlived its TTL at `nowS`. */
  predicate Unexpired(log: seq<Sample>, cand: CandidateRef, lo: int, hi: int, nowS: real, ttlS: int) {
    forall i :: 0 <= i < |log| && In(log[i], cand, lo, hi) ==> 0 < ttlS && nowS <= log[i].atS + ttlS as real
  }

  lemma {:induction false} CellIsLogged(
    log: seq<Sample>, cand: CandidateRef, sec: int, nowS: real, ttlS: int, f: Field)
    requires Ordered(log, nowS) && Unexpired(log, cand, sec, sec, nowS, ttlS)
    ensures Live(Store(log, ttlS), cand, sec, nowS).Get(f) == Logged(log, cand, sec, sec, f)
  {
    if log != [] {
      var init, s := log[..|log| - 1], log[|log| - 1];
      var before := Store(init, ttlS);
      assert Store(log, ttlS) == Record(before, s, ttlS);
      if In(s, cand, sec, sec) {
        CellIsLogged(init, cand, sec, s.atS, ttlS, f);
        assert In(log[|log| - 1], cand, sec, sec);
      } else {
        CellIsLogged(init, cand, sec, nowS, ttlS, f);
        assert Live(Record(before, s, ttlS), cand, sec, nowS) == Live(before, cand, sec, nowS);
      }
    }
  }

  lemma {:induction false} LoggedSplits(log: seq<Sample>, cand: CandidateRef, lo: int, hi: int, f: Field)
    requires lo <= hi
    ensures Logged(log, cand, lo, hi, f) == Logged(log, cand, lo, hi - 1, f) + Logged(log, cand, hi, hi, f)
  {
    if log != [] {
      LoggedSplits(log[..|log| - 1], cand, lo, hi, f);
    }
  }

  lemma {:induction false} LoggedEmptyRange(log: seq<Sample>, cand: CandidateRef, lo: int, hi: int, f: Field)
    requires hi < lo
    ensures Logged(log, cand, lo, hi, f) == 0
  {
    if log != [] {
      LoggedEmptyRange(log[..|log| - 1], cand, lo, hi, f);
    }
  }

  /** As long as no cell of the range has expired, reading the counters counts the log. */
  lemma {:induction false} ReadIsLogged(
    log: seq<Sample>, cand: CandidateRef, lo: int, hi: int, nowS: real, ttlS: int, f: Field)
    requires Ordered(log, nowS) && Unexpired(log, cand, lo, hi, nowS, ttlS)
    ensures Read(Store(log, ttlS), cand, lo, hi, nowS, f) == Logged(log, cand, lo, hi, f)
    decreases hi - lo
  {
    if hi < lo {
      LoggedEmptyRange(log, cand, lo, hi, f);
    } else {
      ReadIsLogged(log, cand, lo, hi - 1, nowS, ttlS, f);
      CellIsLogged(log, cand, hi, nowS, ttlS, f);
      LoggedSplits(log, cand, lo, hi, f);
    }
  }

  // ------------------------------------------------------------ the sliding window

  /** Counters are kept for four windows, the window counted in whole seconds. */
  function WindowTtl(windowS: real): int {
    4 * Truncate(windowS)
  }

  lemma TruncateBounds(x: real)
    ensures x - 1.0 < Truncate(x) as real < x + 1.0
    ensures 0.0 <= x ==> Truncate(x) as real <= x
    ensures x <= 0.0 ==> x <= Truncate(x) as real
  {
  }

  /** A sample whose second is not before that of `x` was taken after x - 2; on a
      clock that is never negative, after x - 1. */
  lemma SecondNotBefore(atS: real, x: real)
    requires Truncate(x) <= Truncate(atS)
    ensures x - 2.0 < atS
    ensures 0.0 <= atS ==> x - 1.0 < atS
  {
    TruncateBounds(x);
    TruncateBounds(atS);
  }

  lemma WindowUnexpired(log: seq<Sample>, cand: CandidateRef, nowS: real, windowS: real)
    requires 1.0 <= windowS && Ordered(log, nowS) && Stamped(log)
    ensures Unexpired(log, cand, Truncate(nowS - windowS), Truncate(nowS), nowS, WindowTtl(windowS))
  {
    forall i | 0 <= i < |log| && In(log[i], cand, Truncate(nowS - windowS), Truncate(nowS))
      ensures nowS < log[i].atS + WindowTtl(windowS) as real
    {
      SecondNotBefore(log[i].atS, nowS - windowS);
      TruncateBounds(windowS);
      assert 1 <= Truncate(windowS);
    }
  }

  /** What a reader sums over the window that ends at `nowS`, and what was logged in it. */
  function WindowRead(log: seq<Sample>, cand: CandidateRef, nowS: real, windowS: real, f: Field): int {
    Read(Store(log, WindowTtl(windowS)), cand, Truncate(nowS - windowS), Truncate(nowS), nowS, f)
  }

  function WindowLogged(log: seq<Sample>, cand: CandidateRef, nowS: real, windowS: real, f: Field): int {
    Logged(log, cand, Truncate(nowS - windowS), Truncate(nowS), f)
  }

  ghost predicate WindowExact(log: seq<Sample>, cand: CandidateRef, nowS: real, windowS: real) {
    forall f :: WindowRead(log, cand, nowS, windowS, f) == WindowLogged(log, cand, nowS, windowS, f)
  }

  lemma WindowIsLogged(log: seq<Sample>, cand: CandidateRef, nowS: real, windowS: real)
    requires 1.0 <= windowS && Ordered(log, nowS) && Stamped(log)
    ensures WindowExact(log, cand, nowS, windowS)
  {
    WindowUnexpired(log, cand, nowS, windowS);
    forall f
      ensures WindowRead(log, cand, nowS, windowS, f) == WindowLogged(log, cand, nowS, windowS, f)
    {
      ReadIsLogged(log, cand, Truncate(nowS - windowS), Truncate(nowS), nowS, WindowTtl(windowS), f);
    }
  }

  lemma {:induction false} SingleSample(s: Sample, f: Field)
    ensures Logged([s], s.cand, s.sec, s.sec, f) == s.tally.Get(f)
    ensures Read(Store([s], 0), s.cand, s.sec, s.sec, s.atS, f) == 0
  {
    var log := [s];
    assert log[..0] == [];
    assert Logged(log[..0], s.cand, s.sec, s.sec, f) == 0;
    assert !Holds(Store(log, 0), s.cand, s.sec, s.atS);
    assert Read(Store(log, 0), s.cand, s.sec, s.sec - 1, s.atS, f) == 0;
  }

  lemma ShortWindowLosesSample(windowS: real, s: Sample)
    requires 0.0 < windowS < 1.0
    requires s.atS == 0.0 && s.sec == 0 && s.tally.successes == 1
    ensures Ordered([s], 0.0) && Stamped([s]) && !WindowExact([s], s.cand, 0.0, windowS)
  {
    assert WindowTtl(windowS) == 0 && Truncate(0.0 - windowS) == 0 && Truncate(0.0) == 0;
    SingleSample(s, Successes);
    assert WindowRead([s], s.cand, 0.0, windowS, Successes) != WindowLogged([s], s.cand, 0.0, windowS, Successes);
  }

  /** The counters refine the event log for every log, candidate and moment if and
      only if the window is at least one second; below that the TTL is zero and
      every sample vanishes as it is written. */
  lemma CountersRefineLog(windowS: real)
    requires 0.0 < windowS
    ensures
      (forall log, cand, nowS :: Ordered(log, nowS) && Stamped(log) ==> WindowExact(log, cand, nowS, windowS)) <==>
      1.0 <= windowS
  {
    if 1.0 <= windowS {
      forall log, cand, nowS | Ordered(log, nowS) && Stamped(log)
        ensures WindowExact(log, cand, nowS, windowS)
      {
        WindowIsLogged(log, cand, nowS, windowS);
      }
    } else {
      ShortWindowLosesSample(windowS, Sample(CandidateRef("p", "m"), 0.0, 0, Tally(1, 0, 0, 0)));
    }
  }

  /** A pipeline of reads over a range of seconds, summed in a loop. */
  method SumSeconds(cells: Cells, cand: CandidateRef, lo: int, hi: int, nowS: real) returns (t: Tally)
    ensures forall f :: t.Get(f) == Read(cells, cand, lo, hi, nowS, f)
  {
    var successes, failures, latencySumMs, latencyCount := 0, 0, 0, 0;
    var sec := lo;
    while sec <= hi
      invariant lo <= sec && (sec <= hi + 1 || sec == lo)
      invariant 0 <= successes == Read(cells, cand, lo, sec - 1, nowS, Successes)
      invariant 0 <= failures == Read(cells, cand, lo, sec - 1, nowS, Failures)
      invariant latencySumMs == Read(cells, cand, lo, sec - 1, nowS, LatencySumMs)
      invariant 0 <= latencyCount == Read(cells, cand, lo, sec - 1, nowS, LatencyCount)
      decreases hi - sec
    {
      var row := Live(cells, cand, sec, nowS);
      successes := successes + row.successes;
      failures := failures + row.failures;
      latencySumMs := latencySumMs + row.latencySumMs;
      latencyCount := latencyCount + row.latencyCount;
      sec := sec + 1;
    }
    t := Tally(successes, failures, latencySumMs, latencyCount);
    forall f
      ensures t.Get(f) == Read(cells, cand, lo, hi, nowS, f)
    {
      assert hi < lo ==> Read(cells, cand, lo, hi, nowS, f) == 0;
    }
  }
}
