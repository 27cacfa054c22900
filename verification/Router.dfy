/** The failover router: one `Route` call against an arbitrary world.

    Everything the loop cannot control is an argument: for pass k the world says
    what the clock reads, what the engine's weights are, what the draw is, whether the
    bucket grants, what the vendor answers and when, and whether anything else raises.
    The weights of a pass are those
    of the cache at that moment; the refresh task may replace it between passes. */
module Router {
  import opened Common
  import opened Weights

  datatype ProviderError =
    RateLimited | Transient5xx | Timeout | BadRequest | AuthError | ContentFiltered | OtherProviderError

  datatype Answer = Result | Raises(error: ProviderError)

  /** What may go wrong besides: the acquire raises (Redis is down, the candidate has no
      limit entry, its reply is lost), or the vendor call raises something that is
      not a provider error, or recording its outcome does; cancellation counts too. */
  datatype Fault = NoFault | AcquireRaises | CallRaises

  datatype Status =
    | BucketEmpty | VendorMissing
    | StatusOk | StatusRateLimited | StatusTransient5xx | StatusTimeout
    | StatusBadRequest | StatusAuth | StatusContentFiltered
    | StatusRaised

  /** One candidate the loop picked, and what came of it. */
  datatype Visit = Visit(cand: CandidateRef, status: Status)

  datatype Attempt = Attempt(cand: CandidateRef, idx: nat, status: Status, latencyMs: nat)

  datatype ErrorKind = InvalidRequest | Auth | UpstreamUnavailable | DeadlineExceeded

  datatype Outcome =
    | Served(attempts: seq<Attempt>)
    | Failed(kind: ErrorKind, tried: seq<Visit>)
    | Raised   // an exception that is not the router's passes through

  datatype Pass = Pass(
    nowS: real, weights: WeightFn, u: UnitDraw, granted: bool, t0S: real, answer: Answer, doneS: real,
    fault: Fault)

  type World = nat -> Pass

  const MIN_REMAINING_S := 1.5
  const MIN_TIMEOUT_S := 0.1

  datatype Settings = Settings(
    tiers: map<string, seq<TierEntry>>, vendors: set<string>,
    totalBudgetS: real, perAttemptMaxS: real, bufferS: real)

  function ErrorStatus(e: ProviderError): Status {
    match e
    case RateLimited => StatusRateLimited
    case Transient5xx => StatusTransient5xx
    case Timeout => StatusTimeout
    case BadRequest => StatusBadRequest
    case AuthError => StatusAuth
    case ContentFiltered => StatusContentFiltered
    case OtherProviderError => StatusTransient5xx
  }

  function AnswerStatus(a: Answer): Status {
    match a
    case Result => StatusOk
    case Raises(e) => ErrorStatus(e)
  }

  predicate Called(s: Status) {
    s != BucketEmpty && s != VendorMissing && s != StatusRaised
  }

  predicate NonRetryable(s: Status) {
    s == StatusBadRequest || s == StatusAuth || s == StatusContentFiltered
  }

  /** The loop goes on to another candidate after this status. */
  predicate Continues(s: Status) {
    s != StatusOk && !NonRetryable(s) && s != StatusRaised
  }

  function NonRetryableKind(s: Status): ErrorKind {
    if s == StatusAuth then Auth else InvalidRequest
  }

  function AttemptTimeout(cfg: Settings, remainingS: real): real {
    MinReal(MaxReal(MIN_TIMEOUT_S, remainingS - cfg.bufferS), cfg.perAttemptMaxS)
  }

  function LatencyMs(p: Pass): nat {
    Max(0, Truncate((p.doneS - p.t0S) * 1000.0))
  }

  // ------------------------------------------------------------ what a run is

  function Visited(visits: seq<Visit>): set<CandidateRef> {
    if visits == [] then {} else Visited(visits[..|visits| - 1]) + {visits[|visits| - 1].cand}
  }

  function PassStatus(cfg: Settings, p: Pass, cand: CandidateRef): Status {
    if p.fault == AcquireRaises then StatusRaised
    else if !p.granted then BucketEmpty
    else if cand.provider !in cfg.vendors then VendorMissing
    else if p.fault == CallRaises then StatusRaised
    else AnswerStatus(p.answer)
  }

  /** With enough time left, the draw over the candidates not yet visited chose
      the visit's candidate, and bucket, vendor table and vendor decided its status. */
  ghost predicate PassVisits(
    cfg: Settings, tier: seq<TierEntry>, deadlineS: real, exclude: set<CandidateRef>, p: Pass, v: Visit)
  {
    && MIN_REMAINING_S <= deadlineS - p.nowS
    && Choice(tier, exclude, p.weights, p.u) == Some(v.cand)
    && v.status == PassStatus(cfg, p, v.cand)
  }

  /** A run the loop has not left: every visit so far made it try another candidate. */
  ghost predicate Going(cfg: Settings, tier: seq<TierEntry>, deadlineS: real, world: World, visits: seq<Visit>) {
    visits == [] ||
    (var k := |visits| - 1;
     && Going(cfg, tier, deadlineS, world, visits[..k])
     && PassVisits(cfg, tier, deadlineS, Visited(visits[..k]), world(k), visits[k])
     && Continues(visits[k].status))
  }

  /** A whole run: only its last visit may have made the loop return. */
  ghost predicate Run(cfg: Settings, tier: seq<TierEntry>, deadlineS: real, world: World, visits: seq<Visit>) {
    visits == [] ||
    (var k := |visits| - 1;
     && Going(cfg, tier, deadlineS, world, visits[..k])
     && PassVisits(cfg, tier, deadlineS, Visited(visits[..k]), world(k), visits[k]))
  }

  function AttemptsOf(visits: seq<Visit>, world: World): seq<Attempt> {
    if visits == [] then []
    else
      var k := |visits| - 1;
      var before := AttemptsOf(visits[..k], world);
      if Called(visits[k].status)
      then before + [Attempt(visits[k].cand, |before|, visits[k].status, LatencyMs(world(k)))]
      else before
  }

  /** How a call that made these visits must end. */
  ghost predicate Ends(
    cfg: Settings, tier: seq<TierEntry>, deadlineS: real, world: World, visits: seq<Visit>, outcome: Outcome)
  {
    var n := |visits|;
    var attempts := AttemptsOf(visits, world);
    if n != 0 && visits[n - 1].status == StatusOk then
      outcome == Served(attempts)
    else if n != 0 && NonRetryable(visits[n - 1].status) then
      outcome == Failed(NonRetryableKind(visits[n - 1].status), visits)
    else if n != 0 && visits[n - 1].status == StatusRaised then
      outcome == Raised
    else if deadlineS - world(n).nowS < MIN_REMAINING_S then
      outcome == Failed(if attempts == [] then UpstreamUnavailable else DeadlineExceeded, visits)
    else
      && Choice(tier, Visited(visits), world(n).weights, world(n).u) == None
      && outcome == Failed(UpstreamUnavailable, visits)
  }

  // ------------------------------------------------------------ the loop

  lemma {:induction false} VisitsSnoc(
    cfg: Settings, tier: seq<TierEntry>, deadlineS: real, world: World, visits: seq<Visit>, v: Visit)
    requires Going(cfg, tier, deadlineS, world, visits)
    requires PassVisits(cfg, tier, deadlineS, Visited(visits), world(|visits|), v)
    ensures Run(cfg, tier, deadlineS, world, visits + [v])
    ensures Continues(v.status) ==> Going(cfg, tier, deadlineS, world, visits + [v])
    ensures Visited(visits + [v]) == Visited(visits) + {v.cand}
    ensures AttemptsOf(visits + [v], world) ==
      if Called(v.status)
      then AttemptsOf(visits, world)
           + [Attempt(v.cand, |AttemptsOf(visits, world)|, v.status, LatencyMs(world(|visits|)))]
      else AttemptsOf(visits, world)
  {
    assert (visits + [v])[..|visits|] == visits;
  }

  lemma {:induction false} LastVisitEnds(
    cfg: Settings, tier: seq<TierEntry>, deadlineS: real, world: World, visits: seq<Visit>, v: Visit)
    requires !Continues(v.status)
    ensures Ends(
      cfg, tier, deadlineS, world, visits + [v],
      if v.status == StatusOk then Served(AttemptsOf(visits + [v], world))
      else if v.status == StatusRaised then Raised
      else Failed(NonRetryableKind(v.status), visits + [v]))
  {
    assert (visits + [v])[|visits|] == v;
  }

  /** A run that goes on ends when time is short or no candidate is left. */
  lemma {:induction false} GoingEnds(
    cfg: Settings, tier: seq<TierEntry>, deadlineS: real, world: World, visits: seq<Visit>, outcome: Outcome)
    requires Going(cfg, tier, deadlineS, world, visits)
    requires
      var p, attempts := world(|visits|), AttemptsOf(visits, world);
      if deadlineS - p.nowS < MIN_REMAINING_S then
        outcome == Failed(if attempts == [] then UpstreamUnavailable else DeadlineExceeded, visits)
      else
        Choice(tier, Visited(visits), p.weights, p.u) == None && outcome == Failed(UpstreamUnavailable, visits)
    ensures Run(cfg, tier, deadlineS, world, visits)
    ensures Ends(cfg, tier, deadlineS, world, visits, outcome)
  {
  }

  class Router {
    const cfg: Settings

    constructor (cfg: Settings)
      ensures this.cfg == cfg
    {
      this.cfg := cfg;
    }

    /** One routed request. `visits` is the sequence of candidates the loop picked. */
    method Route(model: string, startS: real, world: World) returns (outcome: Outcome, visits: seq<Visit>)
      ensures model !in cfg.tiers ==> outcome == Failed(InvalidRequest, []) && visits == []
      ensures model in cfg.tiers ==>
        && Run(cfg, cfg.tiers[model], startS + cfg.totalBudgetS, world, visits)
        && Ends(cfg, cfg.tiers[model], startS + cfg.totalBudgetS, world, visits, outcome)
    {
      if model !in cfg.tiers {
        return Failed(InvalidRequest, []), [];
      }
      outcome, visits := RouteTier(cfg.tiers[model], startS + cfg.totalBudgetS, world);
    }

    /** One pass: pick, acquire, and call the vendor if it is configured. */
    method VisitNext(tier: seq<TierEntry>, exclude: set<CandidateRef>, p: Pass) returns (v: Option<Visit>)
      ensures v.None? <==> Choice(tier, exclude, p.weights, p.u) == None
      ensures v.Some? ==>
        && Choice(tier, exclude, p.weights, p.u) == Some(v.value.cand)
        && v.value.status == PassStatus(cfg, p, v.value.cand)
        && v.value.cand in Refs(tier) && v.value.cand !in exclude
    {
      var cand := PickBy(tier, exclude, p.weights, p.u);
      if cand == None {
        return None;
      }
      ChoiceIsEligible(tier, exclude, p.weights, p.u);
      if p.fault == AcquireRaises {
        return Some(Visit(cand.value, StatusRaised));
      }
      if !p.granted {
        return Some(Visit(cand.value, BucketEmpty));
      }
      if cand.value.provider !in cfg.vendors {
        return Some(Visit(cand.value, VendorMissing));
      }
      if p.fault == CallRaises {
        return Some(Visit(cand.value, StatusRaised));
      }
      match p.answer {
        case Result => v := Some(Visit(cand.value, StatusOk));
        case Raises(e) => v := Some(Visit(cand.value, ErrorStatus(e)));
      }
    }

    /** The failover loop. */
    method RouteTier(tier: seq<TierEntry>, deadline: real, world: World) returns (outcome: Outcome, visits: seq<Visit>)
      ensures Run(cfg, tier, deadline, world, visits)
      ensures Ends(cfg, tier, deadline, world, visits, outcome)
    {
      visits := [];
      var exclude: set<CandidateRef> := {};
      var tried: seq<Visit> := [];
      var attempts: seq<Attempt> := [];
      ghost var all := Refs(tier);
      while true
        invariant Going(cfg, tier, deadline, world, visits)
        invariant tried == visits
        invariant exclude == Visited(visits)
        invariant attempts == AttemptsOf(visits, world)
        decreases |all - exclude|
      {
        var p := world(|visits|);
        var remaining := deadline - p.nowS;
        if remaining < MIN_REMAINING_S {
          if attempts != [] {
            outcome := Failed(DeadlineExceeded, tried);
            GoingEnds(cfg, tier, deadline, world, visits, outcome);
            return;
          }
          break;
        }
        var next := VisitNext(tier, exclude, p);
        if next == None {
          break;
        }
        var v := next.value;
        OneFewerLeft(all, exclude, v.cand);
        VisitsSnoc(cfg, tier, deadline, world, visits, v);
        if Called(v.status) {
          attempts := attempts + [Attempt(v.cand, |attempts|, v.status, LatencyMs(p))];
        }
        if !Continues(v.status) {
          LastVisitEnds(cfg, tier, deadline, world, visits, v);
        }
        visits := visits + [v];
        if v.status == StatusRaised {
          return Raised, visits;
        }
        if v.status == StatusOk {
          return Served(attempts), visits;
        }
        tried := tried + [v];
        if NonRetryable(v.status) {
          return Failed(NonRetryableKind(v.status), tried), visits;
        }
        exclude := exclude + {v.cand};
      }
      outcome := Failed(UpstreamUnavailable, tried);
      GoingEnds(cfg, tier, deadline, world, visits, outcome);
    }
  }

  lemma OneFewerLeft(all: set<CandidateRef>, exclude: set<CandidateRef>, c: CandidateRef)
    requires c in all && c !in exclude
    ensures |all - (exclude + {c})| < |all - exclude|
  {
    assert all - exclude == (all - (exclude + {c})) + {c};
  }

  // ------------------------------------------------------------ what every run keeps

  predicate Distinct(visits: seq<Visit>) {
    forall i, j :: 0 <= i < j < |visits| ==> visits[i].cand != visits[j].cand
  }

  lemma {:induction false} VisitedMembers(visits: seq<Visit>, i: nat)
    requires i < |visits|
    ensures visits[i].cand in Visited(visits)
  {
    if i < |visits| - 1 {
      VisitedMembers(visits[..|visits| - 1], i);
    }
  }

  lemma RunLast(cfg: Settings, tier: seq<TierEntry>, deadlineS: real, world: World, visits: seq<Visit>)
    requires Run(cfg, tier, deadlineS, world, visits) && visits != []
    ensures
      var k := |visits| - 1;
      && Run(cfg, tier, deadlineS, world, visits[..k])
      && visits[k].cand in Refs(tier) && visits[k].cand !in Visited(visits[..k])
      && 0.0 < world(k).weights(visits[k].cand)
      && visits[k].status == PassStatus(cfg, world(k), visits[k].cand)
      && (k != 0 ==> Continues(visits[k - 1].status))
  {
    var k := |visits| - 1;
    ChoiceIsEligible(tier, Visited(visits[..k]), world(k).weights, world(k).u);
  }

  lemma FreshKeepsDistinct(visits: seq<Visit>)
    requires visits != [] && Distinct(visits[..|visits| - 1])
    requires visits[|visits| - 1].cand !in Visited(visits[..|visits| - 1])
    ensures Distinct(visits)
  {
    var k := |visits| - 1;
    forall i | 0 <= i < k
      ensures visits[i].cand != visits[k].cand
    {
      VisitedMembers(visits[..k], i);
      assert visits[..k][i] == visits[i];
    }
  }

  lemma {:induction false} VisitsDistinct(
    cfg: Settings, tier: seq<TierEntry>, deadlineS: real, world: World, visits: seq<Visit>)
    requires Run(cfg, tier, deadlineS, world, visits)
    ensures Distinct(visits)
    ensures |visits| == |Visited(visits)|
    ensures Visited(visits) <= Refs(tier)
    decreases |visits|
  {
    if visits != [] {
      var k := |visits| - 1;
      RunLast(cfg, tier, deadlineS, world, visits);
      VisitsDistinct(cfg, tier, deadlineS, world, visits[..k]);
      FreshKeepsDistinct(visits);
    }
  }

  lemma {:induction false} VisitsWeighed(
    cfg: Settings, tier: seq<TierEntry>, deadlineS: real, world: World, visits: seq<Visit>, i: nat)
    requires Run(cfg, tier, deadlineS, world, visits) && i < |visits|
    ensures visits[i].cand in Refs(tier) && 0.0 < world(i).weights(visits[i].cand)
    decreases |visits|
  {
    RunLast(cfg, tier, deadlineS, world, visits);
    if i < |visits| - 1 {
      VisitsWeighed(cfg, tier, deadlineS, world, visits[..|visits| - 1], i);
    }
  }

  /** No candidate is picked twice, every pick is of the tier and had positive
      weight at its pass, so a call makes at most one pass per candidate. */
  lemma NoCandidateTwice(cfg: Settings, tier: seq<TierEntry>, deadlineS: real, world: World, visits: seq<Visit>)
    requires Run(cfg, tier, deadlineS, world, visits)
    ensures Distinct(visits)
    ensures forall i :: 0 <= i < |visits| ==>
      visits[i].cand in Refs(tier) && 0.0 < world(i).weights(visits[i].cand)
    ensures |visits| <= |Refs(tier)|
  {
    VisitsDistinct(cfg, tier, deadlineS, world, visits);
    SubsetIsNoLarger(Visited(visits), Refs(tier));
    forall i | 0 <= i < |visits|
      ensures visits[i].cand in Refs(tier) && 0.0 < world(i).weights(visits[i].cand)
    {
      VisitsWeighed(cfg, tier, deadlineS, world, visits, i);
    }
  }

  lemma {:induction false} SubsetIsNoLarger<T>(a: set<T>, b: set<T>)
    requires a <= b
    ensures |a| <= |b|
  {
    if a != {} {
      var x :| x in a;
      SubsetIsNoLarger(a - {x}, b - {x});
    }
  }

  function CountStatus(visits: seq<Visit>, s: Status): nat {
    if visits == [] then 0
    else CountStatus(visits[..|visits| - 1], s) + if visits[|visits| - 1].status == s then 1 else 0
  }

  function Grants(world: World, n: nat): nat {
    if n == 0 then 0 else Grants(world, n - 1) + if world(n - 1).granted then 1 else 0
  }

  /** The part of a run that is about outcomes only. */
  predicate Settled(cfg: Settings, world: World, visits: seq<Visit>) {
    && (forall k :: 0 <= k < |visits| ==> visits[k].status == PassStatus(cfg, world(k), visits[k].cand))
    && (forall k :: 0 <= k < |visits| - 1 ==> Continues(visits[k].status))
  }

  lemma {:induction false} RunSettled(
    cfg: Settings, tier: seq<TierEntry>, deadlineS: real, world: World, visits: seq<Visit>)
    requires Run(cfg, tier, deadlineS, world, visits)
    ensures Settled(cfg, world, visits)
    decreases |visits|
  {
    if visits != [] {
      RunLast(cfg, tier, deadlineS, world, visits);
      RunSettled(cfg, tier, deadlineS, world, visits[..|visits| - 1]);
    }
  }

  /** Visits that ended in an exception after their acquire was granted. */
  function RaisedHolding(visits: seq<Visit>, world: World): nat {
    if visits == [] then 0
    else
      var k := |visits| - 1;
      RaisedHolding(visits[..k], world) + if visits[k].status == StatusRaised && world(k).granted then 1 else 0
  }

  lemma {:induction false} RaisesOnlyAtTheEnd(cfg: Settings, world: World, visits: seq<Visit>)
    requires Settled(cfg, world, visits)
    ensures visits != [] && visits[|visits| - 1].status != StatusRaised ==> CountStatus(visits, StatusRaised) == 0
    ensures CountStatus(visits, StatusRaised) <= 1
    decreases |visits|
  {
    if visits != [] {
      var n := |visits| - 1;
      RaisesOnlyAtTheEnd(cfg, world, visits[..n]);
      assert n != 0 ==> Continues(visits[n - 1].status) && visits[..n][n - 1] == visits[n - 1];
    }
  }

  lemma {:induction false} PicksConserved(world: World, visits: seq<Visit>)
    ensures |visits| ==
      CountStatus(visits, BucketEmpty) + CountStatus(visits, VendorMissing) + |AttemptsOf(visits, world)|
      + CountStatus(visits, StatusRaised)
  {
    if visits != [] {
      PicksConserved(world, visits[..|visits| - 1]);
    }
  }

  lemma {:induction false} GrantsConserved(cfg: Settings, world: World, visits: seq<Visit>)
    requires Settled(cfg, world, visits)
    ensures Grants(world, |visits|) ==
      |AttemptsOf(visits, world)| + CountStatus(visits, VendorMissing) + RaisedHolding(visits, world)
    decreases |visits|
  {
    if visits != [] {
      GrantsConserved(cfg, world, visits[..|visits| - 1]);
    }
  }

  /** Conservation over a whole run: every pick ended as an empty bucket, a missing
      vendor, an attempt or, at most once, an exception; and every bucket grant was
      spent on one of the last three. */
  lemma {:induction false} PicksAndGrantsConserved(
    cfg: Settings, tier: seq<TierEntry>, deadlineS: real, world: World, visits: seq<Visit>)
    requires Run(cfg, tier, deadlineS, world, visits)
    ensures |visits| ==
      CountStatus(visits, BucketEmpty) + CountStatus(visits, VendorMissing) + |AttemptsOf(visits, world)|
      + CountStatus(visits, StatusRaised)
    ensures CountStatus(visits, StatusRaised) <= 1
    ensures Grants(world, |visits|) ==
      |AttemptsOf(visits, world)| + CountStatus(visits, VendorMissing) + RaisedHolding(visits, world)
  {
    RunSettled(cfg, tier, deadlineS, world, visits);
    PicksConserved(world, visits);
    GrantsConserved(cfg, world, visits);
    RaisesOnlyAtTheEnd(cfg, world, visits);
  }

  /** The attempts are numbered, and each is one of the visits and reached its vendor. */
  predicate Numbered(attempts: seq<Attempt>, visits: seq<Visit>) {
    forall i :: 0 <= i < |attempts| ==>
      attempts[i].idx == i && Called(attempts[i].status) && Visit(attempts[i].cand, attempts[i].status) in visits
  }

  lemma NumberedSnoc(attempts: seq<Attempt>, visits: seq<Visit>, v: Visit, latencyMs: nat)
    requires Numbered(attempts, visits)
    ensures Numbered(attempts, visits + [v])
    ensures Called(v.status) ==> Numbered(attempts + [Attempt(v.cand, |attempts|, v.status, latencyMs)], visits + [v])
  {
    assert v in visits + [v] && forall x :: x in visits ==> x in visits + [v];
    assert Visit(v.cand, v.status) == v;
  }

  lemma {:induction false} AttemptsAreVisits(visits: seq<Visit>, world: World)
    ensures Numbered(AttemptsOf(visits, world), visits)
  {
    if visits != [] {
      var n := |visits| - 1;
      AttemptsAreVisits(visits[..n], world);
      NumberedSnoc(AttemptsOf(visits[..n], world), visits[..n], visits[n], LatencyMs(world(n)));
      assert visits == visits[..n] + [visits[n]];
    }
  }

  lemma {:induction false} OnlyLastAttemptEnds(cfg: Settings, world: World, visits: seq<Visit>)
    requires Settled(cfg, world, visits)
    ensures
      var attempts := AttemptsOf(visits, world);
      && (forall i :: 0 <= i < |attempts| - 1 ==> Continues(attempts[i].status))
      && (attempts != [] && !Continues(attempts[|attempts| - 1].status) ==>
            Visit(attempts[|attempts| - 1].cand, attempts[|attempts| - 1].status) == visits[|visits| - 1])
    decreases |visits|
  {
    if visits != [] {
      var n := |visits| - 1;
      OnlyLastAttemptEnds(cfg, world, visits[..n]);
      assert n != 0 ==> Continues(visits[n - 1].status) && visits[..n][n - 1] == visits[n - 1];
    }
  }

  /** In every run attempt indices are 0..k-1 in order; each attempt is a visit that
      reached the vendor; only the last can be a success or a non-retryable error,
      and then it is the last visit too. */
  lemma {:induction false} AttemptsInOrder(
    cfg: Settings, tier: seq<TierEntry>, deadlineS: real, world: World, visits: seq<Visit>)
    requires Run(cfg, tier, deadlineS, world, visits)
    ensures
      var attempts := AttemptsOf(visits, world);
      && Numbered(attempts, visits)
      && (forall i :: 0 <= i < |attempts| - 1 ==> Continues(attempts[i].status))
      && (attempts != [] && !Continues(attempts[|attempts| - 1].status) ==>
            Visit(attempts[|attempts| - 1].cand, attempts[|attempts| - 1].status) == visits[|visits| - 1])
  {
    RunSettled(cfg, tier, deadlineS, world, visits);
    AttemptsAreVisits(visits, world);
    OnlyLastAttemptEnds(cfg, world, visits);
  }

  /** A call succeeds exactly when its last visit did, and then with all its
      attempts; an error of the router names every visit; any other exception is
      let through exactly when the last visit raised it. */
  lemma {:induction false} ServedIffLastOk(
    cfg: Settings, tier: seq<TierEntry>, deadlineS: real, world: World, visits: seq<Visit>, outcome: Outcome)
    requires Run(cfg, tier, deadlineS, world, visits)
    requires Ends(cfg, tier, deadlineS, world, visits, outcome)
    ensures outcome.Served? <==> visits != [] && visits[|visits| - 1].status == StatusOk
    ensures outcome.Served? ==>
      && |outcome.attempts| == CountCalled(visits)
      && 0 < |outcome.attempts|
      && outcome.attempts[|outcome.attempts| - 1].cand == visits[|visits| - 1].cand
      && outcome.attempts[|outcome.attempts| - 1].status == StatusOk
    ensures outcome.Failed? ==> outcome.tried == visits
    ensures outcome.Raised? <==> visits != [] && visits[|visits| - 1].status == StatusRaised
    ensures outcome.Failed? && outcome.kind == DeadlineExceeded ==>
      0 < CountCalled(visits) && deadlineS - world(|visits|).nowS < MIN_REMAINING_S
  {
    CalledAreAttempts(visits, world);
    EndsByLast(cfg, tier, deadlineS, world, visits, outcome);
    if outcome.Served? {
      LastAttemptIsLastVisit(visits, world);
    }
  }

  lemma {:induction false} EndsByLast(
    cfg: Settings, tier: seq<TierEntry>, deadlineS: real, world: World, visits: seq<Visit>, outcome: Outcome)
    requires Ends(cfg, tier, deadlineS, world, visits, outcome)
    ensures outcome.Served? <==> visits != [] && visits[|visits| - 1].status == StatusOk
    ensures outcome.Raised? <==> visits != [] && visits[|visits| - 1].status == StatusRaised
    ensures outcome.Served? ==> outcome.attempts == AttemptsOf(visits, world)
    ensures outcome.Failed? ==> outcome.tried == visits
    ensures outcome.Failed? && outcome.kind == DeadlineExceeded ==>
      AttemptsOf(visits, world) != [] && deadlineS - world(|visits|).nowS < MIN_REMAINING_S
  {
  }

  lemma {:induction false} LastAttemptIsLastVisit(visits: seq<Visit>, world: World)
    requires visits != [] && Called(visits[|visits| - 1].status)
    ensures
      var attempts, last := AttemptsOf(visits, world), visits[|visits| - 1];
      && attempts != []
      && attempts[|attempts| - 1].cand == last.cand && attempts[|attempts| - 1].status == last.status
  {
  }

  function CountCalled(visits: seq<Visit>): nat {
    if visits == [] then 0
    else CountCalled(visits[..|visits| - 1]) + if Called(visits[|visits| - 1].status) then 1 else 0
  }

  lemma {:induction false} CalledAreAttempts(visits: seq<Visit>, world: World)
    ensures |AttemptsOf(visits, world)| == CountCalled(visits)
  {
    if visits != [] {
      CalledAreAttempts(visits[..|visits| - 1], world);
    }
  }

  /** When the call gives up with time left, every candidate it did not visit has
      no weight at that moment. */
  lemma {:induction false} ExhaustedMeansWeightless(
    cfg: Settings, tier: seq<TierEntry>, deadlineS: real, world: World, visits: seq<Visit>, outcome: Outcome)
    requires Ends(cfg, tier, deadlineS, world, visits, outcome)
    requires outcome.Failed? && outcome.kind == UpstreamUnavailable
    requires MIN_REMAINING_S <= deadlineS - world(|visits|).nowS
    ensures forall t :: t in tier && t.Ref() !in Visited(visits) ==>
      world(|visits|).weights(t.Ref()) <= 0.0
  {
    var p := world(|visits|);
    NoChoiceIffWeightless(tier, Visited(visits), p.weights, p.u);
  }

  // ------------------------------------------------------------ outcomes, by what the world answered

  /** The bucket granted, the vendor is configured, and it answered. */
  predicate Reached(cfg: Settings, p: Pass, c: CandidateRef) {
    p.fault == NoFault && p.granted && c.provider in cfg.vendors
  }

  predicate Answered(cfg: Settings, p: Pass, c: CandidateRef, answers: set<Answer>) {
    Reached(cfg, p, c) && p.answer in answers
  }

  predicate Thrown(cfg: Settings, p: Pass, c: CandidateRef) {
    p.fault == AcquireRaises || (p.fault == CallRaises && p.granted && c.provider in cfg.vendors)
  }

  /** The bucket denied, the vendor is missing, or it answered with an error that
      another candidate may not have. */
  predicate Retried(cfg: Settings, p: Pass, c: CandidateRef) {
    || (p.fault != AcquireRaises && (!p.granted || c.provider !in cfg.vendors))
    || Answered(cfg, p, c, {Raises(RateLimited), Raises(Transient5xx), Raises(Timeout), Raises(OtherProviderError)})
  }

  lemma StatusByAnswer(cfg: Settings, p: Pass, c: CandidateRef)
    ensures
      var s := PassStatus(cfg, p, c);
      && (Called(s) <==> Reached(cfg, p, c))
      && (s == StatusOk <==> Answered(cfg, p, c, {Result}))
      && (Continues(s) <==> Retried(cfg, p, c))
      && (s == StatusRaised <==> Thrown(cfg, p, c))
      && (NonRetryable(s) && NonRetryableKind(s) == InvalidRequest <==>
            Answered(cfg, p, c, {Raises(BadRequest), Raises(ContentFiltered)}))
      && (NonRetryable(s) && NonRetryableKind(s) == Auth <==> Answered(cfg, p, c, {Raises(AuthError)}))
  {
  }

  /** How a call ends that gave up on its own. */
  predicate GaveUp(outcome: Outcome) {
    outcome.Failed? && (outcome.kind == UpstreamUnavailable || outcome.kind == DeadlineExceeded)
  }

  predicate FailedAs(outcome: Outcome, kind: ErrorKind) {
    outcome.Failed? && outcome.kind == kind
  }

  /** In every run each visit but the last was denied, found no vendor or got a
      retryable answer; what the last one got decides how the call ends. */
  lemma OutcomeByAnswers(
    cfg: Settings, tier: seq<TierEntry>, deadlineS: real, world: World, visits: seq<Visit>, outcome: Outcome)
    requires Run(cfg, tier, deadlineS, world, visits) && Ends(cfg, tier, deadlineS, world, visits, outcome)
    ensures forall k :: 0 <= k < |visits| - 1 ==> Retried(cfg, world(k), visits[k].cand)
    ensures visits == [] ==> FailedAs(outcome, UpstreamUnavailable)
    ensures visits != [] ==>
      var p, c := world(|visits| - 1), visits[|visits| - 1].cand;
      && (outcome.Served? <==> Answered(cfg, p, c, {Result}))
      && (FailedAs(outcome, InvalidRequest) <==>
            Answered(cfg, p, c, {Raises(BadRequest), Raises(ContentFiltered)}))
      && (FailedAs(outcome, Auth) <==> Answered(cfg, p, c, {Raises(AuthError)}))
      && (GaveUp(outcome) <==> Retried(cfg, p, c))
      && (outcome.Raised? <==> Thrown(cfg, p, c))
  {
    RunSettled(cfg, tier, deadlineS, world, visits);
    forall k | 0 <= k < |visits|
      ensures visits[k].status == PassStatus(cfg, world(k), visits[k].cand)
      ensures Continues(visits[k].status) <==> Retried(cfg, world(k), visits[k].cand)
    {
      StatusByAnswer(cfg, world(k), visits[k].cand);
    }
    if visits != [] {
      StatusByAnswer(cfg, world(|visits| - 1), visits[|visits| - 1].cand);
      EndsByLast(cfg, tier, deadlineS, world, visits, outcome);
      EndsAsKind(cfg, tier, deadlineS, world, visits, outcome);
    }
  }

  lemma EndsAsKind(
    cfg: Settings, tier: seq<TierEntry>, deadlineS: real, world: World, visits: seq<Visit>, outcome: Outcome)
    requires Ends(cfg, tier, deadlineS, world, visits, outcome) && visits != []
    ensures
      var s := visits[|visits| - 1].status;
      && (GaveUp(outcome) <==> Continues(s))
      && (forall kind :: kind == InvalidRequest || kind == Auth ==>
            (FailedAs(outcome, kind) <==> NonRetryable(s) && NonRetryableKind(s) == kind))
  {
  }

  /** The visits that reached their vendor. */
  function CountReached(cfg: Settings, world: World, visits: seq<Visit>): nat {
    if visits == [] then 0
    else
      var k := |visits| - 1;
      CountReached(cfg, world, visits[..k]) + if Reached(cfg, world(k), visits[k].cand) then 1 else 0
  }

  lemma {:induction false} AttemptsReached(cfg: Settings, world: World, visits: seq<Visit>)
    requires Settled(cfg, world, visits)
    ensures |AttemptsOf(visits, world)| == CountReached(cfg, world, visits)
    decreases |visits|
  {
    if visits != [] {
      var k := |visits| - 1;
      AttemptsReached(cfg, world, visits[..k]);
      StatusByAnswer(cfg, world(k), visits[k].cand);
    }
  }

  /** A call that gave up is out of time exactly when some visit reached its vendor
      and less than a second and a half is left; no visit starts with less. */
  lemma {:induction false} OutOfTimeIff(
    cfg: Settings, tier: seq<TierEntry>, deadlineS: real, world: World, visits: seq<Visit>, outcome: Outcome)
    requires Run(cfg, tier, deadlineS, world, visits) && Ends(cfg, tier, deadlineS, world, visits, outcome)
    ensures FailedAs(outcome, DeadlineExceeded) <==>
      && GaveUp(outcome)
      && CountReached(cfg, world, visits) != 0 && deadlineS - world(|visits|).nowS < 1.5
    ensures visits != [] ==> 1.5 <= deadlineS - world(|visits| - 1).nowS
  {
    RunSettled(cfg, tier, deadlineS, world, visits);
    AttemptsReached(cfg, world, visits);
  }

  /** An attempt's status says what the vendor answered; an unknown error counts as transient. */
  predicate StatusSays(s: Status, a: Answer) {
    && (s == StatusOk <==> a == Result)
    && (s == StatusRateLimited <==> a == Raises(RateLimited))
    && (s == StatusTransient5xx <==> a == Raises(Transient5xx) || a == Raises(OtherProviderError))
    && (s == StatusTimeout <==> a == Raises(Timeout))
    && (s == StatusBadRequest <==> a == Raises(BadRequest))
    && (s == StatusAuth <==> a == Raises(AuthError))
    && (s == StatusContentFiltered <==> a == Raises(ContentFiltered))
  }

  /** Whole milliseconds between two readings, none if the clock went back. */
  predicate WholeMs(ms: nat, fromS: real, toS: real) {
    if toS <= fromS then ms == 0 else ms as real <= (toS - fromS) * 1000.0 < ms as real + 1.0
  }

  lemma LatencyIs(p: Pass)
    ensures WholeMs(LatencyMs(p), p.t0S, p.doneS)
  {
  }

  /** Attempt i records visit k. */
  predicate Records(a: Attempt, i: nat, v: Visit, p: Pass) {
    && a.cand == v.cand && a.idx == i
    && StatusSays(a.status, p.answer)
    && WholeMs(a.latencyMs, p.t0S, p.doneS)
  }

  /** Attempt i is the i-th visit that reached its vendor, with the vendor's answer and
      the whole milliseconds between the clock readings around the call. */
  lemma {:induction false} AttemptIsVisit(cfg: Settings, world: World, visits: seq<Visit>, i: nat) returns (k: nat)
    requires Settled(cfg, world, visits) && i < |AttemptsOf(visits, world)|
    ensures k < |visits| && Reached(cfg, world(k), visits[k].cand) && CountReached(cfg, world, visits[..k]) == i
    ensures Records(AttemptsOf(visits, world)[i], i, visits[k], world(k))
    decreases |visits|
  {
    var n := |visits| - 1;
    if i < |AttemptsOf(visits[..n], world)| {
      k := AttemptIsVisit(cfg, world, visits[..n], i);
      assert visits[..n][..k] == visits[..k];
    } else {
      k := n;
      StatusByAnswer(cfg, world(n), visits[n].cand);
      AttemptsReached(cfg, world, visits[..n]);
      LatencyIs(world(n));
    }
  }

  /** The vendor's timeout is what is left beside the buffer, at least 0.1 s, at most the maximum. */
  lemma TimeoutIs(cfg: Settings, remainingS: real)
    ensures
      var left, t := remainingS - cfg.bufferS, AttemptTimeout(cfg, remainingS);
      && (0.1 <= left <= cfg.perAttemptMaxS ==> t == left)
      && (left <= 0.1 <= cfg.perAttemptMaxS ==> t == 0.1)
      && (cfg.perAttemptMaxS <= left || cfg.perAttemptMaxS <= 0.1 ==> t == cfg.perAttemptMaxS)
  {
  }

  // ------------------------------------------------------------ the deadline

  /** An acquire takes at most `a`, a vendor call overruns its timeout by at most
      `e`, an observation write takes at most `o`. The reading that ends pass k is
      the next reading of the clock, whether the loop goes on or returns. */
  ghost predicate Timely(
    cfg: Settings, deadlineS: real, world: World, visits: seq<Visit>, a: real, e: real, o: real)
  {
    forall k :: 0 <= k < |visits| ==>
      var p := world(k);
      if visits[k].status != BucketEmpty && visits[k].status != VendorMissing then
        && p.t0S <= p.nowS + a
        && p.doneS <= p.t0S + AttemptTimeout(cfg, deadlineS - p.nowS) + e
        && world(k + 1).nowS <= p.doneS + o
      else
        world(k + 1).nowS <= p.nowS + a
  }

  /** The timeout handed to a vendor always leaves the buffer before the deadline
      if and only if the 0.1 s minimum never wins over what is left. */
  lemma TimeoutLeavesBuffer(cfg: Settings)
    ensures
      (forall remaining {:trigger AttemptTimeout(cfg, remaining)} :: MIN_REMAINING_S <= remaining ==>
        AttemptTimeout(cfg, remaining) <= remaining - cfg.bufferS) <==>
      (cfg.bufferS <= MIN_REMAINING_S - MIN_TIMEOUT_S || cfg.perAttemptMaxS <= MIN_REMAINING_S - cfg.bufferS)
  {
    assert AttemptTimeout(cfg, MIN_REMAINING_S) <= MIN_REMAINING_S - cfg.bufferS ==>
      cfg.bufferS <= MIN_REMAINING_S - MIN_TIMEOUT_S || cfg.perAttemptMaxS <= MIN_REMAINING_S - cfg.bufferS;
  }

  /** The call returns by deadline - buffer + a + e + o, unless the loop's first
      clock reading was already later than that. */
  lemma ReturnsByDeadline(
    cfg: Settings, tier: seq<TierEntry>, deadlineS: real, world: World, visits: seq<Visit>, a: real, e: real, o: real)
    requires cfg.bufferS <= MIN_REMAINING_S - MIN_TIMEOUT_S || 0.0 <= cfg.perAttemptMaxS <= MIN_REMAINING_S - cfg.bufferS
    requires 0.0 <= a && 0.0 <= e && 0.0 <= o
    requires Run(cfg, tier, deadlineS, world, visits)
    requires Timely(cfg, deadlineS, world, visits, a, e, o)
    ensures world(|visits|).nowS <= MaxReal(world(0).nowS, deadlineS - cfg.bufferS + a + e + o)
  {
    if visits != [] {
      var k := |visits| - 1;
      TimeoutLeavesBuffer(cfg);
      assert AttemptTimeout(cfg, deadlineS - world(k).nowS) <= deadlineS - world(k).nowS - cfg.bufferS;
    }
  }

  /** The default half-second buffer absorbs exactly the half second by which the
      OpenAI and Anthropic adapters may overrun their timeout. */
  lemma BufferAbsorbsOverrun(
    cfg: Settings, tier: seq<TierEntry>, startS: real, world: World, visits: seq<Visit>, a: real, o: real)
    requires cfg.totalBudgetS == 10.0 && cfg.perAttemptMaxS == 8.0 && cfg.bufferS == 0.5
    requires 0.0 <= a && 0.0 <= o && world(0).nowS == startS
    requires Run(cfg, tier, startS + cfg.totalBudgetS, world, visits)
    requires Timely(cfg, startS + cfg.totalBudgetS, world, visits, a, 0.5, o)
    ensures world(|visits|).nowS <= startS + 10.0 + a + o
  {
    ReturnsByDeadline(cfg, tier, startS + cfg.totalBudgetS, world, visits, a, 0.5, o);
  }
}
