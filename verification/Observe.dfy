/** The observation recorder behind health scores. */
module Observe {
  import opened Common
  import opened SecondCounters

  datatype WindowAggregate = WindowAggregate(
    successes: nat, failures: nat, total: nat, meanLatencyS: real, errorRate: real)

  function SuccessSample(cand: CandidateRef, latencyS: real, nowS: real): Sample {
    Sample(cand, nowS, Truncate(nowS), Tally(1, 0, Truncate(latencyS * 1000.0), 1))
  }

  function FailureSample(cand: CandidateRef, nowS: real): Sample {
    Sample(cand, nowS, Truncate(nowS), Tally(0, 1, 0, 0))
  }

  lemma AppendOrdered(log: seq<Sample>, s: Sample)
    requires Ordered(log, s.atS)
    ensures Ordered(log + [s], s.atS)
  {
  }

  /** Four windows of TTL outlive every second the aggregate reads. */
  lemma AggregateUnexpired(log: seq<Sample>, cand: CandidateRef, nowS: real, windowS: Positive)
    requires Ordered(log, nowS) && Stamped(log)
    ensures Unexpired(log, cand, Truncate(nowS) - windowS, Truncate(nowS), nowS, 4 * windowS)
  {
    forall i | 0 <= i < |log| && In(log[i], cand, Truncate(nowS) - windowS, Truncate(nowS))
      ensures nowS < log[i].atS + (4 * windowS) as real
    {
      TruncateBounds(nowS);
      TruncateBounds(log[i].atS);
    }
  }

  lemma AggregateIsLogged(log: seq<Sample>, cand: CandidateRef, nowS: real, windowS: Positive)
    requires Ordered(log, nowS) && Stamped(log)
    ensures
      var lo, hi := Truncate(nowS) - windowS, Truncate(nowS);
      forall f :: Read(Store(log, 4 * windowS), cand, lo, hi, nowS, f) == Logged(log, cand, lo, hi, f)
  {
    AggregateUnexpired(log, cand, nowS, windowS);
    var lo, hi := Truncate(nowS) - windowS, Truncate(nowS);
    forall f
      ensures Read(Store(log, 4 * windowS), cand, lo, hi, nowS, f) == Logged(log, cand, lo, hi, f)
    {
      ReadIsLogged(log, cand, lo, hi, nowS, 4 * windowS, f);
    }
  }

  /** All that was recorded for the candidate in the seconds lo..hi. */
  function LoggedTally(log: seq<Sample>, cand: CandidateRef, lo: int, hi: int): (t: Tally)
    ensures forall f :: t.Get(f) == Logged(log, cand, lo, hi, f)
  {
    if log == [] then Tally(0, 0, 0, 0)
    else
      var s := log[|log| - 1];
      var t := LoggedTally(log[..|log| - 1], cand, lo, hi);
      if In(s, cand, lo, hi)
      then Tally(
        t.successes + s.tally.successes, t.failures + s.tally.failures,
        t.latencySumMs + s.tally.latencySumMs, t.latencyCount + s.tally.latencyCount)
      else t
  }

  lemma TallyIsLogged(log: seq<Sample>, cand: CandidateRef, nowS: real, windowS: Positive, t: Tally)
    requires Ordered(log, nowS) && Stamped(log)
    requires forall f ::
      t.Get(f) == Read(Store(log, 4 * windowS), cand, Truncate(nowS) - windowS, Truncate(nowS), nowS, f)
    ensures t == LoggedTally(log, cand, Truncate(nowS) - windowS, Truncate(nowS))
  {
    AggregateIsLogged(log, cand, nowS, windowS);
    var l := LoggedTally(log, cand, Truncate(nowS) - windowS, Truncate(nowS));
    assert t.Get(Successes) == l.Get(Successes) && t.Get(Failures) == l.Get(Failures);
    assert t.Get(LatencySumMs) == l.Get(LatencySumMs) && t.Get(LatencyCount) == l.Get(LatencyCount);
  }

  // ------------------------------------------------------------ the summary, by the calls recorded

  datatype Call = Succeeded(cand: CandidateRef, latencyS: real, atS: real) | Failed(cand: CandidateRef, atS: real)

  function SampleOf(c: Call): Sample {
    match c
    case Succeeded(cand, latencyS, atS) => SuccessSample(cand, latencyS, atS)
    case Failed(cand, atS) => FailureSample(cand, atS)
  }

  function SamplesOf(calls: seq<Call>): seq<Sample> {
    seq(|calls|, i requires 0 <= i < |calls| => SampleOf(calls[i]))
  }

  predicate Counts(c: Call, cand: CandidateRef, sinceS: int) {
    c.cand == cand && sinceS as real <= c.atS
  }

  function Successful(calls: seq<Call>, cand: CandidateRef, sinceS: int): nat {
    if calls == [] then 0
    else
      var c := calls[|calls| - 1];
      Successful(calls[..|calls| - 1], cand, sinceS) + if Counts(c, cand, sinceS) && c.Succeeded? then 1 else 0
  }

  function Unsuccessful(calls: seq<Call>, cand: CandidateRef, sinceS: int): nat {
    if calls == [] then 0
    else
      var c := calls[|calls| - 1];
      Unsuccessful(calls[..|calls| - 1], cand, sinceS) + if Counts(c, cand, sinceS) && c.Failed? then 1 else 0
  }

  /** The seconds that the successful calls took together. */
  function SecondsTaken(calls: seq<Call>, cand: CandidateRef, sinceS: int): real {
    if calls == [] then 0.0
    else
      var c := calls[|calls| - 1];
      SecondsTaken(calls[..|calls| - 1], cand, sinceS)
      + if Counts(c, cand, sinceS) && c.Succeeded? then c.latencyS else 0.0
  }

  predicate CallsBefore(calls: seq<Call>, nowS: real) {
    forall i :: 0 <= i < |calls| ==> 0.0 <= calls[i].atS <= nowS
  }

  /** The tally counts the calls, and each latency is off by less than a millisecond. */
  predicate Tallies(t: Tally, calls: seq<Call>, cand: CandidateRef, sinceS: int) {
    && t.successes == t.latencyCount == Successful(calls, cand, sinceS)
    && t.failures == Unsuccessful(calls, cand, sinceS)
    && -(t.successes as real) <= t.latencySumMs as real - 1000.0 * SecondsTaken(calls, cand, sinceS)
    && t.latencySumMs as real - 1000.0 * SecondsTaken(calls, cand, sinceS) <= t.successes as real
  }

  lemma InSinceIff(c: Call, cand: CandidateRef, lo: int, nowS: real)
    requires 0.0 <= c.atS <= nowS
    ensures In(SampleOf(c), cand, lo, Truncate(nowS)) <==> Counts(c, cand, lo)
  {
    TruncateBounds(c.atS);
    TruncateBounds(nowS);
  }

  lemma {:induction false} TallyCounts(calls: seq<Call>, cand: CandidateRef, lo: int, nowS: real)
    requires CallsBefore(calls, nowS)
    ensures Tallies(LoggedTally(SamplesOf(calls), cand, lo, Truncate(nowS)), calls, cand, lo)
  {
    if calls != [] {
      var n := |calls| - 1;
      TallyCounts(calls[..n], cand, lo, nowS);
      assert SamplesOf(calls)[..n] == SamplesOf(calls[..n]);
      InSinceIff(calls[n], cand, lo, nowS);
    }
  }

  predicate ErrorRateOf(rate: real, ok: nat, failed: nat) {
    if ok + failed == 0 then rate == 0.0 else rate * (ok + failed) as real == failed as real
  }

  predicate MeanLatencyOf(mean: real, ok: nat, seconds: real) {
    if ok == 0 then mean == 0.0
    else seconds - 0.001 * ok as real <= mean * ok as real <= seconds + 0.001 * ok as real
  }

  lemma ErrorRateIs(failures: nat, total: nat)
    requires failures <= total
    ensures ErrorRateOf(ErrorRate(failures, total), total - failures, failures)
  {
  }

  lemma MeanLatencyIs(sumMs: int, ok: nat, seconds: real)
    requires -(ok as real) <= sumMs as real - 1000.0 * seconds <= ok as real
    ensures MeanLatencyOf(MeanLatency(sumMs, ok), ok, seconds)
  {
    var mean := MeanLatency(sumMs, ok);
    assert mean * 1000.0 * ok as real == 1000.0 * (mean * ok as real);
  }

  /** What the aggregate says of the calls in the window: the failed share, and the
      mean latency up to a millisecond; zero where nothing was recorded. */
  predicate Summarizes(a: WindowAggregate, calls: seq<Call>, cand: CandidateRef, sinceS: int) {
    var ok, failed := Successful(calls, cand, sinceS), Unsuccessful(calls, cand, sinceS);
    && a.successes == ok && a.failures == failed && a.total == ok + failed
    && ErrorRateOf(a.errorRate, ok, failed)
    && MeanLatencyOf(a.meanLatencyS, ok, SecondsTaken(calls, cand, sinceS))
  }

  lemma SummaryOfTally(t: Tally, calls: seq<Call>, cand: CandidateRef, sinceS: int)
    requires Tallies(t, calls, cand, sinceS)
    ensures Summarizes(Summary(t), calls, cand, sinceS)
  {
    ErrorRateIs(t.failures, t.successes + t.failures);
    MeanLatencyIs(t.latencySumMs, t.latencyCount, SecondsTaken(calls, cand, sinceS));
  }

  lemma SummaryOfCalls(calls: seq<Call>, cand: CandidateRef, nowS: real, windowS: Positive)
    requires CallsBefore(calls, nowS)
    ensures
      var since := Truncate(nowS) - windowS;
      Summarizes(Summary(LoggedTally(SamplesOf(calls), cand, since, Truncate(nowS))), calls, cand, since)
  {
    var since := Truncate(nowS) - windowS;
    TallyCounts(calls, cand, since, nowS);
    SummaryOfTally(LoggedTally(SamplesOf(calls), cand, since, Truncate(nowS)), calls, cand, since);
  }

  class Observer {
    const windowS: Positive
    var cells: Cells
    ghost var log: seq<Sample>

    constructor (windowS: Positive)
      ensures this.windowS == windowS && log == [] && Valid()
    {
      this.windowS := windowS;
      cells := map[];
      log := [];
    }

    ghost predicate Valid()
      reads this
    {
      cells == Store(log, 4 * windowS) && Stamped(log)
    }

    method Add(s: Sample)
      requires Valid() && s.sec == Truncate(s.atS)
      modifies this
      ensures Valid() && log == old(log) + [s]
    {
      StoreGrows(log, s, 4 * windowS);
      cells := Record(cells, s, 4 * windowS);
      log := log + [s];
    }

    method RecordSuccess(cand: CandidateRef, latencyS: real, nowS: real)
      requires Valid() && Ordered(log, nowS)
      modifies this
      ensures Valid() && log == old(log) + [SuccessSample(cand, latencyS, nowS)] && Ordered(log, nowS)
    {
      AppendOrdered(log, SuccessSample(cand, latencyS, nowS));
      Add(SuccessSample(cand, latencyS, nowS));
    }

    method RecordFailure(cand: CandidateRef, nowS: real)
      requires Valid() && Ordered(log, nowS)
      modifies this
      ensures Valid() && log == old(log) + [FailureSample(cand, nowS)] && Ordered(log, nowS)
    {
      AppendOrdered(log, FailureSample(cand, nowS));
      Add(FailureSample(cand, nowS));
    }

    /** The aggregate is the summary of exactly the logged calls of the last window. */
    method Aggregate(cand: CandidateRef, nowS: real) returns (a: WindowAggregate)
      requires Valid() && Ordered(log, nowS)
      ensures a == Summary(LoggedTally(log, cand, Truncate(nowS) - windowS, Truncate(nowS)))
    {
      var now := Truncate(nowS);
      var t := SumSeconds(cells, cand, now - windowS, now, nowS);
      TallyIsLogged(log, cand, nowS, windowS, t);
      a := Summary(t);
    }
  }

  /** The error rate is the failed share, the mean the sum over the count; both are zero without data. */
  function Summary(t: Tally): (a: WindowAggregate)
    ensures a.successes == t.successes && a.failures == t.failures && a.total == t.successes + t.failures
    ensures if t.latencyCount == 0 then a.meanLatencyS == 0.0
            else a.meanLatencyS * 1000.0 * t.latencyCount as real == t.latencySumMs as real
    ensures a.errorRate * a.total as real == a.failures as real
    ensures 0.0 <= a.errorRate <= 1.0
  {
    WindowAggregate(
      t.successes, t.failures, t.successes + t.failures,
      MeanLatency(t.latencySumMs, t.latencyCount), ErrorRate(t.failures, t.successes + t.failures))
  }

  function MeanLatency(sumMs: int, count: nat): (r: real)
    ensures count == 0 ==> r == 0.0
    ensures r * 1000.0 * count as real == if count == 0 then 0.0 else sumMs as real
  {
    if count == 0 then 0.0
    else
      var q := sumMs as real / count as real;
      assert q * count as real == sumMs as real;
      q / 1000.0
  }

  function ErrorRate(failures: nat, total: nat): (r: real)
    requires failures <= total
    ensures r * total as real == failures as real
    ensures 0.0 <= r <= 1.0
  {
    if total == 0 then 0.0
    else
      var q := failures as real / total as real;
      assert q * total as real == failures as real;
      q
  }
}
