/** One refresh tick: counters, bucket readings and breaker states become the
    signals that the weights are computed from. */
module Refresh {
  import opened Common
  import opened Weights
  import TokenBucket
  import SecondCounters
  import Observe
  import Breaker

  // ------------------------------------------------------------ two views of one config

  /** The candidate lines of all tiers, in configuration order. */
  function Flatten(tiers: seq<seq<TierEntry>>): seq<TierEntry> {
    if tiers == [] then [] else Flatten(tiers[..|tiers| - 1]) + tiers[|tiers| - 1]
  }

  /** Line j of tier i comes right after the lines of the earlier tiers and j lines of its own. */
  lemma {:induction false} LineOfTier(tiers: seq<seq<TierEntry>>, i: nat, j: nat)
    requires i < |tiers| && j < |tiers[i]|
    ensures
      var k := |Flatten(tiers[..i])| + j;
      k < |Flatten(tiers)| && Flatten(tiers)[k] == tiers[i][j]
    decreases |tiers|
  {
    var n := |tiers| - 1;
    if i < n {
      LineOfTier(tiers[..n], i, j);
      assert tiers[..n][..i] == tiers[..i];
    }
  }

  /** And there are no other lines. */
  lemma {:induction false} TierOfLine(tiers: seq<seq<TierEntry>>, k: nat) returns (i: nat, j: nat)
    requires k < |Flatten(tiers)|
    ensures i < |tiers| && j < |tiers[i]| && k == |Flatten(tiers[..i])| + j
    decreases |tiers|
  {
    var n := |tiers| - 1;
    if k < |Flatten(tiers[..n])| {
      i, j := TierOfLine(tiers[..n], k);
      assert tiers[..n][..i] == tiers[..i];
    } else {
      i, j := n, k - |Flatten(tiers[..n])|;
    }
  }

  /** Weight and limits as the refresh task sees them: the first line of a candidate wins. */
  function FirstWins(lines: seq<TierEntry>): map<CandidateRef, TierEntry> {
    if lines == [] then map[]
    else
      var seen := FirstWins(lines[..|lines| - 1]);
      var last := lines[|lines| - 1];
      if last.Ref() in seen then seen else seen[last.Ref() := last]
  }

  /** Limits as the bucket sees them: the last line of a candidate wins. */
  function LastWins(lines: seq<TierEntry>): map<CandidateRef, RateLimit> {
    if lines == [] then map[]
    else LastWins(lines[..|lines| - 1])[lines[|lines| - 1].Ref() := lines[|lines| - 1].limits]
  }

  lemma {:induction false} ViewsCoverRefs(lines: seq<TierEntry>)
    ensures FirstWins(lines).Keys == LastWins(lines).Keys == Refs(lines)
    ensures forall c :: c in FirstWins(lines) ==> FirstWins(lines)[c] in lines && FirstWins(lines)[c].Ref() == c
  {
    if lines != [] {
      var n := |lines| - 1;
      ViewsCoverRefs(lines[..n]);
      assert lines == lines[..n] + [lines[n]];
    }
  }

  predicate IsFirst(lines: seq<TierEntry>, c: CandidateRef, i: nat) {
    i < |lines| && lines[i].Ref() == c && forall k :: 0 <= k < i ==> lines[k].Ref() != c
  }

  predicate IsLast(lines: seq<TierEntry>, c: CandidateRef, i: nat) {
    i < |lines| && lines[i].Ref() == c && forall k :: i < k < |lines| ==> lines[k].Ref() != c
  }

  lemma {:induction false} FirstWinsIsFirst(lines: seq<TierEntry>, c: CandidateRef) returns (i: nat)
    requires c in FirstWins(lines)
    ensures IsFirst(lines, c, i) && FirstWins(lines)[c] == lines[i]
  {
    var n := |lines| - 1;
    if c in FirstWins(lines[..n]) {
      i := FirstWinsIsFirst(lines[..n], c);
      assert lines[..n][i] == lines[i] && forall k :: 0 <= k < i ==> lines[..n][k] == lines[k];
    } else {
      i := n;
      ViewsCoverRefs(lines[..n]);
      assert forall k :: 0 <= k < n ==> lines[..n][k] == lines[k] && lines[k] in lines[..n];
    }
  }

  lemma {:induction false} LastWinsIsLast(lines: seq<TierEntry>, c: CandidateRef) returns (i: nat)
    requires c in LastWins(lines)
    ensures IsLast(lines, c, i) && LastWins(lines)[c] == lines[i].limits
  {
    var n := |lines| - 1;
    if lines[n].Ref() == c {
      i := n;
    } else {
      i := LastWinsIsLast(lines[..n], c);
      assert lines[..n][i] == lines[i] && forall k :: i < k < n ==> lines[..n][k] == lines[k];
    }
  }

  /** Both views agree on a candidate's limit if and only if its first and its
      last line carry the same one. */
  lemma {:induction false} ViewsAgreeIff(lines: seq<TierEntry>, c: CandidateRef, i: nat, j: nat)
    requires IsFirst(lines, c, i) && IsLast(lines, c, j)
    ensures c in FirstWins(lines) && c in LastWins(lines)
    ensures FirstWins(lines)[c].limits == LastWins(lines)[c] <==> lines[i].limits == lines[j].limits
  {
    ViewsCoverRefs(lines);
    assert lines[i] in lines;
    var i' := FirstWinsIsFirst(lines, c);
    var j' := LastWinsIsLast(lines, c);
    assert i == i' && j == j';
  }

  method AllCandidates(tiers: seq<seq<TierEntry>>) returns (seen: map<CandidateRef, TierEntry>)
    ensures seen == FirstWins(Flatten(tiers))
  {
    seen := map[];
    for i := 0 to |tiers|
      invariant seen == FirstWins(Flatten(tiers[..i]))
    {
      seen := AddTier(seen, Flatten(tiers[..i]), tiers[i]);
      assert tiers[..i + 1][..i] == tiers[..i];
    }
    assert tiers[..|tiers|] == tiers;
  }

  lemma {:induction false} FirstWinsGrows(lines: seq<TierEntry>, t: TierEntry)
    ensures FirstWins(lines + [t]) ==
      if t.Ref() in FirstWins(lines) then FirstWins(lines) else FirstWins(lines)[t.Ref() := t]
  {
    assert (lines + [t])[..|lines|] == lines;
  }

  method AddTier(before: map<CandidateRef, TierEntry>, ghost lines: seq<TierEntry>, tier: seq<TierEntry>)
    returns (seen: map<CandidateRef, TierEntry>)
    requires before == FirstWins(lines)
    ensures seen == FirstWins(lines + tier)
  {
    seen := before;
    assert lines + tier[..0] == lines;
    for j := 0 to |tier|
      invariant seen == FirstWins(lines + tier[..j])
    {
      FirstWinsGrows(lines + tier[..j], tier[j]);
      assert lines + tier[..j + 1] == lines + tier[..j] + [tier[j]];
      if tier[j].Ref() !in seen {
        seen := seen[tier[j].Ref() := tier[j]];
      }
    }
    assert tier[..|tier|] == tier;
  }

  // ------------------------------------------------------------ readings and weights

  /** A reading of zero tokens against a key in any state the scripts leave it in. */
  function ReadBudget(e: TokenBucket.Entry, nowMs: int, limit: RateLimit, cap: RateLimit): real {
    var a := TokenBucket.Acquire(e, nowMs, limit, 0);
    BudgetScore(a.entry.rpm.value / TokenBucket.UNIT, cap.rpm, a.entry.tpm.value / TokenBucket.UNIT, cap.tpm)
  }

  lemma RatioAtMostOne(a: int, b: int)
    requires 0 < b
    ensures a as real / b as real <= 1.0 <==> a <= b
  {
    var q := a as real / b as real;
    assert q * b as real == a as real;
    OrderScales(1.0, q, b as real);
  }

  /** Budget scores stay within [0,1] on every reachable bucket level if and only
      if the cap they are divided by is at least the bucket's own limit in one
      dimension; for requests one less is enough, because the reading itself
      spends one. */
  lemma BudgetInUnitIff(limit: RateLimit, cap: RateLimit)
    ensures
      (forall e, nowMs :: TokenBucket.WellFormed(e) ==> 0.0 <= ReadBudget(e, nowMs, limit, cap) <= 1.0) <==>
      (limit.rpm - 1 <= cap.rpm || limit.tpm <= cap.tpm)
  {
    forall e, nowMs | TokenBucket.WellFormed(e)
      ensures 0.0 <= ReadBudget(e, nowMs, limit, cap)
      ensures limit.rpm - 1 <= cap.rpm || limit.tpm <= cap.tpm ==> ReadBudget(e, nowMs, limit, cap) <= 1.0
    {
      TokenBucket.AcquireKeepsLevels(e, nowMs, limit, 0);
      var a := TokenBucket.Acquire(e, nowMs, limit, 0);
      RatioAtMostOne(a.entry.rpm.value / TokenBucket.UNIT, cap.rpm);
      RatioAtMostOne(a.entry.tpm.value / TokenBucket.UNIT, cap.tpm);
    }
    if cap.rpm < limit.rpm - 1 && cap.tpm < limit.tpm {
      var a := TokenBucket.Acquire(TokenBucket.ABSENT, 0, limit, 0);
      assert a.entry.rpm.value / TokenBucket.UNIT == limit.rpm - 1;
      assert a.entry.tpm.value / TokenBucket.UNIT == limit.tpm;
      RatioAtMostOne(limit.rpm - 1, cap.rpm);
      RatioAtMostOne(limit.tpm, cap.tpm);
      assert !(ReadBudget(TokenBucket.ABSENT, 0, limit, cap) <= 1.0);
    }
  }

  /** What a tick reads about one candidate: the configured line, the summary of
      the logged window, and the bucket levels left after the reading itself. */
  ghost function SignalsAt(
    line: TierEntry, brk: BreakerState, log: seq<SecondCounters.Sample>, windowS: Positive,
    e: TokenBucket.Entry, limit: RateLimit, nowS: real, nowMs: int): Signals
  {
    var agg := Observe.Summary(
      Observe.LoggedTally(log, line.Ref(), Truncate(nowS) - windowS, Truncate(nowS)));
    var a := TokenBucket.Acquire(e, nowMs, limit, 0);
    Signals(
      line.weight, agg.errorRate, agg.meanLatencyS,
      a.entry.rpm.value / TokenBucket.UNIT, line.limits.rpm, a.entry.tpm.value / TokenBucket.UNIT, line.limits.tpm,
      brk)
  }

  predicate WholeUnits(n: int, level: int) {
    n * 60000 <= level < (n + 1) * 60000
  }

  /** The signals of a line after these calls: its own weight and limits, the failed
      share and the mean latency of the calls in the window, and the whole requests
      and tokens left in the bucket. */
  predicate SignalsOf(
    s: Signals, line: TierEntry, brk: BreakerState, calls: seq<Observe.Call>, sinceS: int, rpmLeft: int, tpmLeft: int)
  {
    var ok, failed := Observe.Successful(calls, line.Ref(), sinceS), Observe.Unsuccessful(calls, line.Ref(), sinceS);
    && s.baseWeight == line.weight && s.breaker == brk
    && s.rpmCap == line.limits.rpm && s.tpmCap == line.limits.tpm
    && Observe.ErrorRateOf(s.errorRate, ok, failed)
    && Observe.MeanLatencyOf(s.meanLatencyS, ok, Observe.SecondsTaken(calls, line.Ref(), sinceS))
    && WholeUnits(s.rpmRemaining, rpmLeft) && WholeUnits(s.tpmRemaining, tpmLeft)
  }

  lemma SignalsOfCalls(
    line: TierEntry, brk: BreakerState, calls: seq<Observe.Call>, windowS: Positive,
    e: TokenBucket.Entry, limit: RateLimit, nowS: real, nowMs: int)
    requires Observe.CallsBefore(calls, nowS)
    ensures
      var left := TokenBucket.Acquire(e, nowMs, limit, 0).entry;
      SignalsOf(
        SignalsAt(line, brk, Observe.SamplesOf(calls), windowS, e, limit, nowS, nowMs),
        line, brk, calls, Truncate(nowS) - windowS, left.rpm.value, left.tpm.value)
  {
    Observe.SummaryOfCalls(calls, line.Ref(), nowS, windowS);
  }

  /** The best signals a tick can read: no failure, no latency, a full bucket less
      the request that the reading spends. */
  function BestSignals(line: TierEntry, limit: RateLimit): Signals {
    Signals(line.weight, 0.0, 0.0, limit.rpm - 1, line.limits.rpm, limit.tpm, line.limits.tpm, Closed)
  }

  /** No tick reads better signals, and an idle candidate with an empty Redis reads exactly these. */
  lemma BestIsBest(
    line: TierEntry, brk: BreakerState, log: seq<SecondCounters.Sample>, windowS: Positive,
    e: TokenBucket.Entry, limit: RateLimit, nowS: real, nowMs: int)
    requires TokenBucket.NotNegative(e)
    ensures 0.0 <= SignalsAt(line, brk, log, windowS, e, limit, nowS, nowMs).errorRate <= 1.0
    ensures NoWorse(BestSignals(line, limit), SignalsAt(line, brk, log, windowS, e, limit, nowS, nowMs))
  {
    TokenBucket.ReadingInRange(e, nowMs, limit);
    var agg := Observe.Summary(Observe.LoggedTally(log, line.Ref(), Truncate(nowS) - windowS, Truncate(nowS)));
    assert 0.0 <= agg.errorRate <= 1.0;
  }

  lemma IdleIsBest(
    line: TierEntry, log: seq<SecondCounters.Sample>, windowS: Positive, e: TokenBucket.Entry, limit: RateLimit,
    nowS: real, nowMs: int)
    requires |log| == 0 && e == TokenBucket.ABSENT
    ensures SignalsAt(line, Closed, log, windowS, e, limit, nowS, nowMs) == BestSignals(line, limit)
  {
    FullReading(e, limit, nowMs);
  }

  lemma FullReading(e: TokenBucket.Entry, limit: RateLimit, nowMs: int)
    requires e == TokenBucket.ABSENT
    ensures
      var a := TokenBucket.Acquire(e, nowMs, limit, 0).entry;
      a.rpm.value / TokenBucket.UNIT == limit.rpm - 1 && a.tpm.value / TokenBucket.UNIT == limit.tpm
  {
  }

  predicate InRange(w: real, line: TierEntry, routing: Routing) {
    w == 0.0 || routing.minWeightFloor <= w <= line.weight
  }

  /** The guard on the configuration: in one dimension the limit the weights divide
      by is at least the bucket's own (one less is enough for requests), or the base
      weight is zero, or even the best product falls below the floor. */
  predicate LimitsGuard(line: TierEntry, limit: RateLimit, routing: Routing) {
    || limit.rpm - 1 <= line.limits.rpm
    || limit.tpm <= line.limits.tpm
    || line.weight == 0.0
    || line.weight * BudgetScore(limit.rpm - 1, line.limits.rpm, limit.tpm, line.limits.tpm) < routing.minWeightFloor
  }

  /** The best weight before the floor cuts it, and what the guard says about it. */
  lemma BestWeight(line: TierEntry, limit: RateLimit, routing: Routing) returns (top: real)
    requires 0.0 <= line.weight
    ensures SignalWeight(BestSignals(line, limit), routing) == if top < routing.minWeightFloor then 0.0 else top
    ensures LimitsGuard(line, limit, routing) <==> top <= line.weight || top < routing.minWeightFloor
  {
    var b := BestBudget(line, limit);
    top := line.weight * b;
    BestWeightIs(line, limit, routing, b, top);
    TopAtMostBase(line.weight, b, top);
    GuardByTop(line, limit, routing, b, top);
  }

  lemma GuardByTop(line: TierEntry, limit: RateLimit, routing: Routing, b: real, top: real)
    requires b == BudgetScore(limit.rpm - 1, line.limits.rpm, limit.tpm, line.limits.tpm) && top == line.weight * b
    ensures LimitsGuard(line, limit, routing) <==>
      || limit.rpm - 1 <= line.limits.rpm || limit.tpm <= line.limits.tpm || line.weight == 0.0
      || top < routing.minWeightFloor
  {
    var b' := BudgetScore(limit.rpm - 1, line.limits.rpm, limit.tpm, line.limits.tpm);
    assert line.weight * b' == top;
  }

  lemma BestBudget(line: TierEntry, limit: RateLimit) returns (b: real)
    ensures b == BudgetScore(limit.rpm - 1, line.limits.rpm, limit.tpm, line.limits.tpm)
    ensures b <= 1.0 <==> limit.rpm - 1 <= line.limits.rpm || limit.tpm <= line.limits.tpm
  {
    b := BudgetScore(limit.rpm - 1, line.limits.rpm, limit.tpm, line.limits.tpm);
    BudgetAtMostOne(limit.rpm - 1, line.limits.rpm, limit.tpm, line.limits.tpm);
  }

  lemma BestWeightIs(line: TierEntry, limit: RateLimit, routing: Routing, b: real, top: real)
    requires b == BudgetScore(limit.rpm - 1, line.limits.rpm, limit.tpm, line.limits.tpm) && top == line.weight * b
    ensures SignalWeight(BestSignals(line, limit), routing) == if top < routing.minWeightFloor then 0.0 else top
  {
    IdleHealth(routing.targetLatencyS);
    assert line.weight * 1.0 * b == top;
  }

  lemma TopAtMostBase(base: real, b: real, top: real)
    requires 0.0 <= base && top == base * b
    ensures top <= base <==> b <= 1.0 || base == 0.0
  {
    if base != 0.0 {
      OrderScales(1.0, b, base);
    }
  }

  lemma BudgetAtMostOne(rpm: nat, rpmCap: Positive, tpm: nat, tpmCap: Positive)
    ensures BudgetScore(rpm, rpmCap, tpm, tpmCap) <= 1.0 <==> rpm <= rpmCap || tpm <= tpmCap
  {
    RatioAtMostOne(rpm, rpmCap);
    RatioAtMostOne(tpm, tpmCap);
  }

  lemma IdleHealth(target: PositiveReal)
    ensures HealthScore(0.0, 0.0, target) == 1.0
  {
    var q := target / (target + MaxReal(0.0, 0.0));
    assert q * target == target;
    OrderScales(q, 1.0, target);
    OrderScales(1.0, q, target);
  }

  lemma BestInRangeIff(line: TierEntry, limit: RateLimit, routing: Routing)
    requires 0.0 <= line.weight
    ensures InRange(SignalWeight(BestSignals(line, limit), routing), line, routing) <==> LimitsGuard(line, limit, routing)
  {
    var top := BestWeight(line, limit, routing);
  }

  lemma InRangeLikeBest(s: Signals, line: TierEntry, limit: RateLimit, routing: Routing)
    requires 0.0 <= line.weight && 0.0 <= s.errorRate && NoWorse(BestSignals(line, limit), s)
    requires InRange(SignalWeight(BestSignals(line, limit), routing), line, routing)
    ensures InRange(SignalWeight(s, routing), line, routing)
  {
    WeightMonotone(s, BestSignals(line, limit), routing);
  }

  /** Whatever a tick reads about the line, its weight is zero or between floor and base. */
  ghost predicate TicksInRange(line: TierEntry, limit: RateLimit, routing: Routing) {
    forall brk, log, windowS, e, nowS, nowMs :: TokenBucket.NotNegative(e) ==>
      InRange(SignalWeight(SignalsAt(line, brk, log, windowS, e, limit, nowS, nowMs), routing), line, routing)
  }

  lemma BestInRangeSuffices(line: TierEntry, limit: RateLimit, routing: Routing)
    requires 0.0 <= line.weight && InRange(SignalWeight(BestSignals(line, limit), routing), line, routing)
    ensures TicksInRange(line, limit, routing)
  {
    forall brk, log, windowS, e, nowS, nowMs | TokenBucket.NotNegative(e)
      ensures InRange(SignalWeight(SignalsAt(line, brk, log, windowS, e, limit, nowS, nowMs), routing), line, routing)
    {
      BestIsBest(line, brk, log, windowS, e, limit, nowS, nowMs);
      InRangeLikeBest(SignalsAt(line, brk, log, windowS, e, limit, nowS, nowMs), line, limit, routing);
    }
  }

  lemma BestInRangeNeeded(
    s: Signals, line: TierEntry, limit: RateLimit, routing: Routing, log: seq<SecondCounters.Sample>,
    windowS: Positive, e: TokenBucket.Entry, nowS: real, nowMs: int)
    requires TicksInRange(line, limit, routing) && TokenBucket.NotNegative(e)
    requires s == SignalsAt(line, Closed, log, windowS, e, limit, nowS, nowMs) && s == BestSignals(line, limit)
    ensures InRange(SignalWeight(BestSignals(line, limit), routing), line, routing)
  {
    TickAt(s, line, Closed, log, windowS, e, limit, nowS, nowMs, routing);
  }

  /** A tick over an empty log and an empty Redis reads the best signals. */
  lemma IdleTick(line: TierEntry, limit: RateLimit)
    returns (s: Signals, log: seq<SecondCounters.Sample>, windowS: Positive, e: TokenBucket.Entry, nowS: real, nowMs: int)
    ensures TokenBucket.NotNegative(e)
    ensures s == SignalsAt(line, Closed, log, windowS, e, limit, nowS, nowMs)
    ensures s == BestSignals(line, limit)
  {
    log, windowS, e, nowS, nowMs := IdleInputs();
    s := SignalsAt(line, Closed, log, windowS, e, limit, nowS, nowMs);
    IdleIsBest(line, log, windowS, e, limit, nowS, nowMs);
  }

  lemma IdleInputs()
    returns (log: seq<SecondCounters.Sample>, windowS: Positive, e: TokenBucket.Entry, nowS: real, nowMs: int)
    ensures |log| == 0 && e == TokenBucket.ABSENT && TokenBucket.NotNegative(e)
  {
    log, windowS, e, nowS, nowMs := [], 1, TokenBucket.ABSENT, 0.0, 0;
  }

  lemma TickAt(
    s: Signals, line: TierEntry, brk: BreakerState, log: seq<SecondCounters.Sample>, windowS: Positive,
    e: TokenBucket.Entry, limit: RateLimit, nowS: real, nowMs: int, routing: Routing)
    requires TicksInRange(line, limit, routing) && TokenBucket.NotNegative(e)
    requires s == SignalsAt(line, brk, log, windowS, e, limit, nowS, nowMs)
    ensures InRange(SignalWeight(s, routing), line, routing)
  {
  }

  /** Every weight a tick can compute for a candidate is zero or between the floor
      and the base weight if and only if the configuration passes the guard; the tick
      that fails otherwise finds an empty log and an empty Redis. */
  lemma WeightsInRangeIff(line: TierEntry, limit: RateLimit, routing: Routing)
    requires 0.0 <= line.weight
    ensures TicksInRange(line, limit, routing) <==> LimitsGuard(line, limit, routing)
  {
    BestInRangeIff(line, limit, routing);
    if InRange(SignalWeight(BestSignals(line, limit), routing), line, routing) {
      BestInRangeSuffices(line, limit, routing);
    } else if TicksInRange(line, limit, routing) {
      var s, log, windowS, e, nowS, nowMs := IdleTick(line, limit);
      BestInRangeNeeded(s, line, limit, routing, log, windowS, e, nowS, nowMs);
    }
  }

  /** Over an empty log and an empty Redis a configuration that fails the guard
      gives a weight above the base weight. */
  lemma IdleExceeds(
    s: Signals, line: TierEntry, log: seq<SecondCounters.Sample>, windowS: Positive, e: TokenBucket.Entry,
    limit: RateLimit, nowS: real, nowMs: int, routing: Routing)
    requires 0.0 <= line.weight && !LimitsGuard(line, limit, routing)
    requires |log| == 0 && e == TokenBucket.ABSENT
    requires s == SignalsAt(line, Closed, log, windowS, e, limit, nowS, nowMs)
    ensures line.weight < SignalWeight(s, routing)
  {
    IdleIsBest(line, log, windowS, e, limit, nowS, nowMs);
    UnguardedExceeds(s, line, limit, routing);
  }

  lemma UnguardedExceeds(s: Signals, line: TierEntry, limit: RateLimit, routing: Routing)
    requires 0.0 <= line.weight && !LimitsGuard(line, limit, routing) && s == BestSignals(line, limit)
    ensures line.weight < SignalWeight(s, routing)
  {
    var top := BestWeight(line, limit, routing);
  }

  // ------------------------------------------------------------ the tick

  predicate Available(c: CandidateRef, providers: Option<set<string>>) {
    providers.None? || c.provider in providers.value
  }

  /** The clocks at one candidate's reading: of the counters, of the reading handed to
      the script, and of Redis when the script runs. */
  datatype Clocks = Clocks(nowS: real, nowMs: int, atMs: int)

  type Schedule = CandidateRef -> Clocks

  /** Everything a tick reads, as it was before the tick; the candidates are read one
      after another, each at its own moment. */
  datatype Scene = Scene(
    first: map<CandidateRef, TierEntry>, states: CandidateRef -> BreakerState, log: seq<SecondCounters.Sample>,
    windowS: Positive, keys: map<CandidateRef, TokenBucket.Entry>, limits: map<CandidateRef, RateLimit>,
    providers: Option<set<string>>, when: Schedule)
  {
    predicate Reads(c: CandidateRef) {
      c in first && c in limits && Available(c, providers)
    }

    ghost predicate Watches(
      observer: Observe.Observer, bucket: TokenBucket.RedisTokenBucket)
      reads observer
    {
      log == observer.log && windowS == observer.windowS && limits == bucket.limits
    }

    function Held(c: CandidateRef): TokenBucket.Entry {
      TokenBucket.Lookup(keys, c, when(c).atMs)
    }

    /** Signals for exactly the configured candidates whose provider is available. */
    ghost function Signals(): Cache {
      map c | c in first && Reads(c) ::
        SignalsAt(first[c], states(c), log, windowS, Held(c), limits[c], when(c).nowS, when(c).nowMs)
    }

    /** The bucket of each candidate that was read: reading spends one request. */
    ghost function Spent(): map<CandidateRef, TokenBucket.Entry> {
      map c | c in first && Reads(c) ::
        TokenBucket.AcquireAt(Held(c), when(c).nowMs, when(c).atMs, limits[c], 0).entry
    }
  }

  /** One candidate's signals. Its bucket is read, which spends one request of it. */
  method ReadSignals(
    ghost scene: Scene, line: TierEntry, brk: BreakerState, observer: Observe.Observer,
    bucket: TokenBucket.RedisTokenBucket, at: Clocks)
    returns (s: Signals)
    requires observer.Valid() && SecondCounters.Ordered(observer.log, at.nowS) && bucket.state.Valid()
    requires scene.Watches(observer, bucket) && scene.Reads(line.Ref()) && at == scene.when(line.Ref())
    requires line == scene.first[line.Ref()] && brk == scene.states(line.Ref())
    requires TokenBucket.Lookup(bucket.state.keys, line.Ref(), at.atMs) == scene.Held(line.Ref())
    modifies bucket.state`keys
    ensures bucket.state.Valid()
    ensures s == scene.Signals()[line.Ref()]
    ensures bucket.state.keys == old(bucket.state.keys)[line.Ref() := scene.Spent()[line.Ref()]]
  {
    var agg := observer.Aggregate(line.Ref(), at.nowS);
    var left := bucket.Remaining(line.Ref(), at.nowMs, at.atMs);
    s := Signals(
      line.weight, agg.errorRate, agg.meanLatencyS,
      left.rpm, line.limits.rpm, left.tpm, line.limits.tpm, brk);
  }

  /** Reads every available candidate once; no other candidate's bucket changes. */
  method CollectSignals(
    ghost scene: Scene, first: map<CandidateRef, TierEntry>, states: CandidateRef -> BreakerState,
    observer: Observe.Observer, bucket: TokenBucket.RedisTokenBucket, providers: Option<set<string>>,
    when: Schedule)
    returns (out: Cache)
    requires observer.Valid() && bucket.state.Valid()
    requires forall c :: c in first ==> SecondCounters.Ordered(observer.log, when(c).nowS)
    requires scene.Watches(observer, bucket) && scene.when == when
    requires scene.first == first && scene.states == states && scene.providers == providers
    requires scene.keys == bucket.state.keys && first.Keys <= bucket.limits.Keys
    requires forall c :: c in first ==> first[c].Ref() == c
    modifies bucket.state`keys
    ensures bucket.state.Valid()
    ensures out == scene.Signals()
    ensures bucket.state.keys == scene.keys + scene.Spent()
  {
    out := map[];
    var todo := first.Keys;
    NothingRead(scene);
    while todo != {}
      invariant todo <= first.Keys
      invariant bucket.state.Valid()
      invariant out == scene.Signals() - todo
      invariant bucket.state.keys == scene.keys + (scene.Spent() - todo)
      decreases |todo|
    {
      var cand :| cand in todo;
      if Available(cand, providers) {
        StillHeld(scene, todo, cand);
        OneMoreKey(scene.Signals(), todo, cand);
        OneMoreUpdate(scene.keys, scene.Spent(), todo, cand);
        var s := ReadSignals(scene, first[cand], states(cand), observer, bucket, when(cand));
        out := out[cand := s];
      } else {
        NotRead(scene, todo, cand);
      }
      todo := todo - {cand};
    }
    AllRead(scene);
  }

  lemma NothingRead(scene: Scene)
    ensures scene.Signals() - scene.first.Keys == map[]
    ensures scene.keys + (scene.Spent() - scene.first.Keys) == scene.keys
  {
    NoUpdateYet(map[], scene.Signals(), scene.first.Keys);
    NoUpdateYet(scene.keys, scene.Spent(), scene.first.Keys);
  }

  lemma NotRead(scene: Scene, todo: set<CandidateRef>, c: CandidateRef)
    requires !scene.Reads(c)
    ensures scene.Signals() - todo == scene.Signals() - (todo - {c})
    ensures scene.Spent() - todo == scene.Spent() - (todo - {c})
  {
    NotAKey(scene.Signals(), todo, c);
    NotAKey(scene.Spent(), todo, c);
  }

  lemma AllRead(scene: Scene)
    ensures scene.Signals() - {} == scene.Signals() && scene.Spent() - {} == scene.Spent()
  {
    NothingLeft(scene.Signals());
    NothingLeft(scene.Spent());
  }

  lemma StillHeld(scene: Scene, todo: set<CandidateRef>, c: CandidateRef)
    requires c in todo
    ensures TokenBucket.Lookup(scene.keys + (scene.Spent() - todo), c, scene.when(c).atMs) == scene.Held(c)
  {
  }

  function StatesOf(snapshot: map<CandidateRef, Breaker.Snap>): CandidateRef -> BreakerState {
    c => Breaker.SnapFor(snapshot, c).state
  }

  /** The scene belongs to this configuration, with levels the scripts can leave behind. */
  ghost predicate SceneOf(scene: Scene, lines: seq<TierEntry>) {
    && scene.first == FirstWins(lines) && scene.limits == LastWins(lines)
    && forall k :: k in scene.keys ==> TokenBucket.NotNegative(scene.keys[k])
  }

  /** A tick after start-up: nothing logged, nothing in Redis, no breaker seen, and
      the candidate's provider available. */
  ghost predicate FirstScene(scene: Scene, lines: seq<TierEntry>, c: CandidateRef) {
    FreshScene(scene, lines, c) && |scene.log| == 0
  }

  ghost predicate FreshScene(scene: Scene, lines: seq<TierEntry>, c: CandidateRef) {
    && scene.first == FirstWins(lines) && scene.limits == LastWins(lines)
    && scene.keys == map[] && scene.states(c) == Closed && Available(c, scene.providers)
  }

  lemma SomeFirstScene(lines: seq<TierEntry>, c: CandidateRef) returns (scene: Scene)
    ensures FirstScene(scene, lines, c)
  {
    scene := Scene(FirstWins(lines), StatesOf(map[]), [], 1, map[], LastWins(lines), None, c => Clocks(0.0, 0, 0));
  }

  lemma {:induction false} FreshSceneReads(scene: Scene, lines: seq<TierEntry>, c: CandidateRef)
    requires FreshScene(scene, lines, c) && c in FirstWins(lines) && c in LastWins(lines)
    ensures c in scene.Signals()
    ensures scene.Held(c) == TokenBucket.ABSENT
    ensures scene.Signals()[c] == SignalsAt(
      FirstWins(lines)[c], Closed, scene.log, scene.windowS, scene.Held(c), LastWins(lines)[c],
      scene.when(c).nowS, scene.when(c).nowMs)
  {
    assert scene.Reads(c);
  }

  /** If the configuration fails the guard, the first tick already exceeds the base weight. */
  lemma {:induction false} FirstTickExceeds(scene: Scene, lines: seq<TierEntry>, routing: Routing, c: CandidateRef)
    requires FirstScene(scene, lines, c) && c in FirstWins(lines) && c in LastWins(lines)
    requires 0.0 <= FirstWins(lines)[c].weight && !LimitsGuard(FirstWins(lines)[c], LastWins(lines)[c], routing)
    ensures FirstWins(lines)[c].weight < Weight(scene.Signals(), routing, c)
  {
    FreshSceneReads(scene, lines, c);
    IdleExceeds(
      scene.Signals()[c], FirstWins(lines)[c], scene.log, scene.windowS, scene.Held(c), LastWins(lines)[c],
      scene.when(c).nowS, scene.when(c).nowMs, routing);
  }

  ghost predicate SceneWeightInRange(scene: Scene, lines: seq<TierEntry>, routing: Routing, c: CandidateRef)
    requires c in FirstWins(lines)
  {
    InRange(Weight(scene.Signals(), routing, c), FirstWins(lines)[c], routing)
  }

  lemma {:induction false} SceneInRange(scene: Scene, lines: seq<TierEntry>, routing: Routing, c: CandidateRef)
    requires SceneOf(scene, lines) && c in FirstWins(lines) && c in LastWins(lines)
    requires TicksInRange(FirstWins(lines)[c], LastWins(lines)[c], routing)
    ensures SceneWeightInRange(scene, lines, routing, c)
  {
    if c in scene.Signals() {
      TickAt(
        scene.Signals()[c], FirstWins(lines)[c], scene.states(c), scene.log, scene.windowS, scene.Held(c),
        LastWins(lines)[c], scene.when(c).nowS, scene.when(c).nowMs, routing);
    }
  }

  lemma {:induction false} FirstTickOutOfRange(scene: Scene, lines: seq<TierEntry>, routing: Routing, c: CandidateRef)
    requires FirstScene(scene, lines, c) && c in FirstWins(lines) && c in LastWins(lines)
    requires 0.0 <= FirstWins(lines)[c].weight && !LimitsGuard(FirstWins(lines)[c], LastWins(lines)[c], routing)
    ensures SceneOf(scene, lines) && !SceneWeightInRange(scene, lines, routing, c)
  {
    FirstTickExceeds(scene, lines, routing, c);
  }

  /** Every tick over a configuration leaves a candidate's weight at zero or between
      the floor and its base weight if and only if the candidate's first line and the
      limit of its last line pass the guard. */
  lemma {:induction false} TickWeightsInRangeIff(lines: seq<TierEntry>, routing: Routing, c: CandidateRef)
    requires c in FirstWins(lines) && c in LastWins(lines) && 0.0 <= FirstWins(lines)[c].weight
    ensures
      (forall scene :: SceneOf(scene, lines) ==> SceneWeightInRange(scene, lines, routing, c)) <==>
      LimitsGuard(FirstWins(lines)[c], LastWins(lines)[c], routing)
  {
    WeightsInRangeIff(FirstWins(lines)[c], LastWins(lines)[c], routing);
    if LimitsGuard(FirstWins(lines)[c], LastWins(lines)[c], routing) {
      forall scene | SceneOf(scene, lines)
        ensures SceneWeightInRange(scene, lines, routing, c)
      {
        SceneInRange(scene, lines, routing, c);
      }
    } else {
      var scene := SomeFirstScene(lines, c);
      FirstTickOutOfRange(scene, lines, routing, c);
    }
  }

  /** A tick reads exactly the configured candidates whose provider is available. */
  lemma {:induction false} TickReadsAvailable(scene: Scene, lines: seq<TierEntry>, c: CandidateRef)
    requires scene.first == FirstWins(lines) && scene.limits == LastWins(lines)
    ensures c in scene.Signals() <==>
      c in Refs(lines) && (scene.providers == None || c.provider in scene.providers.value)
  {
    ViewsCoverRefs(lines);
  }

  /** For each it caches the signals of its first line, its breaker's snapshot, the calls
      recorded in its window and the bucket level the reading leaves. */
  lemma TickReadsCalls(
    scene: Scene, snapshot: map<CandidateRef, Breaker.Snap>, calls: seq<Observe.Call>, c: CandidateRef)
    requires scene.states == StatesOf(snapshot) && scene.log == Observe.SamplesOf(calls)
    requires c in scene.Signals() && Observe.CallsBefore(calls, scene.when(c).nowS)
    ensures
      SignalsOf(
        scene.Signals()[c], scene.first[c], if c in snapshot then snapshot[c].state else Closed, calls,
        Truncate(scene.when(c).nowS) - scene.windowS, scene.Spent()[c].rpm.value, scene.Spent()[c].tpm.value)
  {
    var at := scene.when(c);
    SignalsOfCalls(
      scene.first[c], scene.states(c), calls, scene.windowS, scene.Held(c), scene.limits[c], at.nowS, at.nowMs);
  }

  /** Whatever is picked from a tick's cache is configured and available, its breaker's
      snapshot is not open, and the tick left it a whole request and a token, and saw
      some call of it succeed or none at all. */
  lemma PickedIsUsable(
    scene: Scene, snapshot: map<CandidateRef, Breaker.Snap>, routing: Routing, tier: seq<TierEntry>,
    exclude: set<CandidateRef>, u: real, c: CandidateRef)
    requires scene.states == StatesOf(snapshot)
    requires forall k :: k in scene.first ==> 0.0 <= scene.first[k].weight
    requires Choice(tier, exclude, WeightIn(scene.Signals(), routing), u) == Some(c)
    ensures c in scene.first && c in scene.limits && Available(c, scene.providers)
    ensures !(c in snapshot && snapshot[c].state == Open)
    ensures 60000 <= scene.Spent()[c].rpm.value && 60000 <= scene.Spent()[c].tpm.value
    ensures scene.Signals()[c].errorRate < 1.0
  {
    ChoiceIsEligible(tier, exclude, WeightIn(scene.Signals(), routing), u);
    assert c in scene.Signals();
    WeightedIsUsable(scene.Signals()[c], routing);
  }

  class RefreshTask {
    const tiers: seq<seq<TierEntry>>
    const observer: Observe.Observer
    const bucket: TokenBucket.RedisTokenBucket
    const breakers: Breaker.BreakerSet
    const engine: WeightEngine
    const providers: Option<set<string>>

    constructor (
      tiers: seq<seq<TierEntry>>, observer: Observe.Observer, bucket: TokenBucket.RedisTokenBucket,
      breakers: Breaker.BreakerSet, engine: WeightEngine, providers: Option<set<string>>)
      ensures this.tiers == tiers && this.observer == observer && this.bucket == bucket
      ensures this.breakers == breakers && this.engine == engine && this.providers == providers
    {
      this.tiers := tiers;
      this.observer := observer;
      this.bucket := bucket;
      this.breakers := breakers;
      this.engine := engine;
      this.providers := providers;
    }

    /** What the tick reads once it has refreshed the breakers. */
    ghost function SceneAt(keys: map<CandidateRef, TokenBucket.Entry>, when: Schedule): Scene
      reads observer, breakers
    {
      Scene(FirstWins(Flatten(tiers)), StatesOf(breakers.snapshot), observer.log, observer.windowS, keys,
            bucket.limits, providers, when)
    }

    /** One tick: refresh the breakers, read every candidate, replace the cache. */
    method Tick(monotonicS: real, when: Schedule)
      requires observer.Valid()
      requires forall c :: c in FirstWins(Flatten(tiers)) ==> SecondCounters.Ordered(observer.log, when(c).nowS)
      requires breakers.Valid()
      requires bucket.state.Valid() && bucket.limits == LastWins(Flatten(tiers))
      modifies bucket.state`keys, breakers`snapshot, breakers`history, engine`cache
      ensures breakers.Valid() && breakers.history == old(breakers.history) + [Breaker.Refresh(monotonicS)]
      ensures bucket.state.Valid()
      ensures
        var scene := SceneAt(old(bucket.state.keys), when);
        && engine.cache == scene.Signals()
        && bucket.state.keys == old(bucket.state.keys) + scene.Spent()
    {
      breakers.RefreshSnapshot(monotonicS);
      var first := AllCandidates(tiers);
      ViewsCoverRefs(Flatten(tiers));
      ghost var scene := SceneAt(bucket.state.keys, when);
      var signals := CollectSignals(
        scene, first, StatesOf(breakers.snapshot), observer, bucket, providers, when);
      engine.UpdateCache(signals);
    }
  }
}
