/** The weight engine: scores, effective weights, and the weighted draw. */
module Weights {
  import opened Common

  /** Latest known signals of one candidate. */
  datatype Signals = Signals(
    baseWeight: real, errorRate: real, meanLatencyS: real,
    rpmRemaining: int, rpmCap: int, tpmRemaining: int, tpmCap: int, breaker: BreakerState)

  type PositiveReal = x: real | 0.0 < x witness 1.0

  datatype Routing = Routing(targetLatencyS: PositiveReal, minWeightFloor: NonNegativeReal)

  type Cache = map<CandidateRef, Signals>

  function HealthScore(errorRate: real, meanLatencyS: real, targetLatencyS: PositiveReal): real {
    MaxReal(0.0, 1.0 - errorRate) * (targetLatencyS / (targetLatencyS + MaxReal(0.0, meanLatencyS)))
  }

  function BudgetScore(rpmRemaining: int, rpmCap: int, tpmRemaining: int, tpmCap: int): real {
    if rpmCap <= 0 || tpmCap <= 0 then 0.0
    else
      MinReal(
        MaxReal(0.0, rpmRemaining as real / rpmCap as real),
        MaxReal(0.0, tpmRemaining as real / tpmCap as real))
  }

  function EffectiveWeight(
    base: real, health: real, budget: real, breaker: BreakerState, floor: NonNegativeReal): real
  {
    Cut(base * health * budget, breaker, floor)
  }

  /** An open breaker or a product below the floor leaves no weight. */
  function Cut(w: real, breaker: BreakerState, floor: NonNegativeReal): real {
    if breaker == Open || w < floor then 0.0 else w
  }

  function SignalWeight(s: Signals, routing: Routing): real {
    EffectiveWeight(
      s.baseWeight,
      HealthScore(s.errorRate, s.meanLatencyS, routing.targetLatencyS),
      BudgetScore(s.rpmRemaining, s.rpmCap, s.tpmRemaining, s.tpmCap),
      s.breaker,
      routing.minWeightFloor)
  }

  function Weight(cache: Cache, routing: Routing, cand: CandidateRef): real {
    if cand in cache then SignalWeight(cache[cand], routing) else 0.0
  }

  // ------------------------------------------------------------ scores

  lemma MulMonotone(a: real, b: real, c: real)
    requires 0.0 <= a <= b && 0.0 <= c
    ensures 0.0 <= a * c <= b * c
  {
  }

  lemma DivMonotone(a: real, b: real, c: real)
    requires a <= b && 0.0 < c
    ensures a / c <= b / c
  {
  }

  lemma DivAntitone(a: real, c: real, d: real)
    requires 0.0 <= a && 0.0 < c <= d
    ensures 0.0 <= a / d <= a / c
  {
    var p, q := a / c, a / d;
    assert p * c == a && q * d == a;
    assert 0.0 <= q;
    MulMonotone(c, d, q);
    assert (p - q) * c == a - q * c;
    assert 0.0 <= (p - q) * c;
  }

  lemma ProductMonotone(base: real, h1: real, h2: real, b1: real, b2: real)
    requires 0.0 <= base && 0.0 <= h1 <= h2 && 0.0 <= b1 <= b2
    ensures 0.0 <= base * h1 * b1 <= base * h2 * b2
  {
    MulMonotone(h1, h2, base);
    MulMonotone(base * h1, base * h2, b1);
    MulMonotone(b1, b2, base * h2);
  }

  lemma QuotientInUnit(a: real, b: real)
    requires 0.0 <= a <= b && 0.0 < b
    ensures 0.0 <= a / b <= 1.0
  {
    DivMonotone(0.0, a, b);
    DivMonotone(a, b, b);
  }

  lemma ProductInUnit(a: real, b: real)
    requires 0.0 <= a <= 1.0 && 0.0 <= b <= 1.0
    ensures 0.0 <= a * b <= 1.0
  {
    MulMonotone(a, 1.0, b);
    assert a * b <= b;
  }

  lemma HealthInUnit(errorRate: real, meanLatencyS: real, target: PositiveReal)
    requires 0.0 <= errorRate
    ensures 0.0 <= HealthScore(errorRate, meanLatencyS, target) <= 1.0
  {
    var f := MaxReal(0.0, 1.0 - errorRate);
    var q := target / (target + MaxReal(0.0, meanLatencyS));
    QuotientInUnit(target, target + MaxReal(0.0, meanLatencyS));
    ProductInUnit(f, q);
    assert HealthScore(errorRate, meanLatencyS, target) == f * q;
  }

  lemma BudgetInUnit(rpm: int, rpmCap: int, tpm: int, tpmCap: int)
    requires rpm <= rpmCap || tpm <= tpmCap
    ensures 0.0 <= BudgetScore(rpm, rpmCap, tpm, tpmCap) <= 1.0
  {
    if 0 < rpmCap && 0 < tpmCap {
      if rpm <= rpmCap {
        DivMonotone(rpm as real, rpmCap as real, rpmCap as real);
      } else {
        DivMonotone(tpm as real, tpmCap as real, tpmCap as real);
      }
    }
  }

  lemma EffectiveInRange(base: real, health: real, budget: real, breaker: BreakerState, floor: NonNegativeReal)
    requires 0.0 <= base && 0.0 <= health <= 1.0 && 0.0 <= budget <= 1.0
    ensures
      var w := EffectiveWeight(base, health, budget, breaker, floor);
      w == 0.0 || floor <= w <= base
  {
    ProductMonotone(base, health, 1.0, budget, 1.0);
  }

  lemma CutMonotone(w1: real, w2: real, k1: BreakerState, k2: BreakerState, floor: NonNegativeReal)
    requires 0.0 <= w1 <= w2 && (k1 == Open || k2 != Open)
    ensures 0.0 <= Cut(w1, k1, floor) <= Cut(w2, k2, floor)
  {
  }

  lemma EffectiveMonotone(
    base: real, h1: real, h2: real, b1: real, b2: real, k1: BreakerState, k2: BreakerState, floor: NonNegativeReal)
    requires 0.0 <= base && 0.0 <= h1 <= h2 && 0.0 <= b1 <= b2 && (k1 == Open || k2 != Open)
    ensures 0.0 <= EffectiveWeight(base, h1, b1, k1, floor) <= EffectiveWeight(base, h2, b2, k2, floor)
  {
    ProductMonotone(base, h1, h2, b1, b2);
    CutMonotone(base * h1 * b1, base * h2 * b2, k1, k2, floor);
  }

  /** Scores in [0,1] leave every effective weight at zero or between the floor
      and the base weight. */
  lemma WeightInRange(s: Signals, routing: Routing)
    requires 0.0 <= s.baseWeight && 0.0 <= s.errorRate
    requires s.rpmRemaining <= s.rpmCap || s.tpmRemaining <= s.tpmCap
    ensures
      var w := SignalWeight(s, routing);
      w == 0.0 || routing.minWeightFloor <= w <= s.baseWeight
  {
    HealthInUnit(s.errorRate, s.meanLatencyS, routing.targetLatencyS);
    BudgetInUnit(s.rpmRemaining, s.rpmCap, s.tpmRemaining, s.tpmCap);
    var h := HealthScore(s.errorRate, s.meanLatencyS, routing.targetLatencyS);
    var b := BudgetScore(s.rpmRemaining, s.rpmCap, s.tpmRemaining, s.tpmCap);
    EffectiveInRange(s.baseWeight, h, b, s.breaker, routing.minWeightFloor);
  }

  lemma HealthMonotone(e1: real, l1: real, e2: real, l2: real, target: PositiveReal)
    requires e1 <= e2 && MaxReal(0.0, l1) <= MaxReal(0.0, l2)
    ensures 0.0 <= HealthScore(e2, l2, target) <= HealthScore(e1, l1, target)
  {
    var f1, f2 := MaxReal(0.0, 1.0 - e1), MaxReal(0.0, 1.0 - e2);
    var d1, d2 := target + MaxReal(0.0, l1), target + MaxReal(0.0, l2);
    DivAntitone(target, d1, d2);
    ProductMonotone(1.0, f2, f1, target / d2, target / d1);
  }

  lemma BudgetMonotone(rpm1: int, tpm1: int, rpm2: int, tpm2: int, rpmCap: int, tpmCap: int)
    requires rpm1 <= rpm2 && tpm1 <= tpm2
    ensures 0.0 <= BudgetScore(rpm1, rpmCap, tpm1, tpmCap) <= BudgetScore(rpm2, rpmCap, tpm2, tpmCap)
  {
    if 0 < rpmCap && 0 < tpmCap {
      DivMonotone(rpm1 as real, rpm2 as real, rpmCap as real);
      DivMonotone(tpm1 as real, tpm2 as real, tpmCap as real);
    }
  }

  /** `better` is at least as healthy and has at least as much budget left as `worse`. */
  predicate NoWorse(better: Signals, worse: Signals) {
    && worse.baseWeight == better.baseWeight
    && worse.rpmCap == better.rpmCap && worse.tpmCap == better.tpmCap
    && better.errorRate <= worse.errorRate
    && MaxReal(0.0, better.meanLatencyS) <= MaxReal(0.0, worse.meanLatencyS)
    && worse.rpmRemaining <= better.rpmRemaining
    && worse.tpmRemaining <= better.tpmRemaining
    && (worse.breaker == Open || better.breaker != Open)
  }

  /** The weight never grows with the error rate or the latency and never shrinks
      with the remaining budget, also across the floor cut-off. */
  lemma WeightMonotone(worse: Signals, better: Signals, routing: Routing)
    requires NoWorse(better, worse) && 0.0 <= better.baseWeight
    ensures 0.0 <= SignalWeight(worse, routing) <= SignalWeight(better, routing)
  {
    HealthMonotone(better.errorRate, better.meanLatencyS, worse.errorRate, worse.meanLatencyS, routing.targetLatencyS);
    BudgetMonotone(worse.rpmRemaining, worse.tpmRemaining, better.rpmRemaining, better.tpmRemaining,
                   better.rpmCap, better.tpmCap);
    var h1 := HealthScore(worse.errorRate, worse.meanLatencyS, routing.targetLatencyS);
    var h2 := HealthScore(better.errorRate, better.meanLatencyS, routing.targetLatencyS);
    var b1 := BudgetScore(worse.rpmRemaining, worse.rpmCap, worse.tpmRemaining, worse.tpmCap);
    var b2 := BudgetScore(better.rpmRemaining, better.rpmCap, better.tpmRemaining, better.tpmCap);
    EffectiveMonotone(better.baseWeight, h1, h2, b1, b2, worse.breaker, better.breaker, routing.minWeightFloor);
  }

  // ------------------------------------------------------------ what the scores are

  /** The health of known signals: the share of calls that did not fail, times the
      share of the target in target plus latency; half of it at the target latency. */
  lemma HealthLaw(errorRate: real, meanLatencyS: real, target: PositiveReal)
    requires 0.0 <= errorRate <= 1.0 && 0.0 <= meanLatencyS
    ensures HealthScore(errorRate, meanLatencyS, target) * (target + meanLatencyS) == (1.0 - errorRate) * target
    ensures HealthScore(errorRate, target, target) * 2.0 == 1.0 - errorRate
  {
    var f := 1.0 - errorRate;
    var q, half := target / (target + meanLatencyS), target / (target + target);
    assert q * (target + meanLatencyS) == target;
    assert f * q * (target + meanLatencyS) == f * (q * (target + meanLatencyS));
    assert half * (target + target) == target;
    OneHalf(half, target);
  }

  lemma OneHalf(half: real, target: PositiveReal)
    requires half * (target + target) == target
    ensures half == 0.5
  {
    assert (half - 0.5) * (target + target) == 0.0;
  }

  /** A candidate whose calls all failed has no health, whatever its latency. */
  lemma AllFailedHasNoHealth(errorRate: real, meanLatencyS: real, target: PositiveReal)
    requires 1.0 <= errorRate
    ensures HealthScore(errorRate, meanLatencyS, target) == 0.0
  {
  }

  /** `b` is the smaller of the two remaining shares. */
  predicate SmallerShare(b: real, rpm: nat, rpmCap: Positive, tpm: nat, tpmCap: Positive) {
    && b * rpmCap as real <= rpm as real && b * tpmCap as real <= tpm as real
    && (b * rpmCap as real == rpm as real || b * tpmCap as real == tpm as real)
  }

  lemma BudgetLaw(rpm: nat, rpmCap: Positive, tpm: nat, tpmCap: Positive)
    ensures SmallerShare(BudgetScore(rpm, rpmCap, tpm, tpmCap), rpm, rpmCap, tpm, tpmCap)
  {
    var p, q := rpm as real / rpmCap as real, tpm as real / tpmCap as real;
    assert p * rpmCap as real == rpm as real && q * tpmCap as real == tpm as real;
    DivMonotone(0.0, rpm as real, rpmCap as real);
    DivMonotone(0.0, tpm as real, tpmCap as real);
    if p <= q {
      MulMonotone(p, q, tpmCap as real);
    } else {
      MulMonotone(q, p, rpmCap as real);
    }
  }

  /** A missing cap, or nothing left in one dimension, leaves no budget. */
  lemma NoBudgetLaw(rpm: int, rpmCap: int, tpm: int, tpmCap: int)
    requires rpmCap <= 0 || tpmCap <= 0 || rpm <= 0 || tpm <= 0
    ensures BudgetScore(rpm, rpmCap, tpm, tpmCap) == 0.0
  {
    if 0 < rpmCap && 0 < tpmCap {
      if rpm <= 0 {
        DivMonotone(rpm as real, 0.0, rpmCap as real);
      } else {
        DivMonotone(tpm as real, 0.0, tpmCap as real);
      }
    }
  }

  /** A candidate that is not cached has no weight, and an open breaker takes all of it;
      otherwise the product of base, health and budget is kept exactly, unless it is
      below the floor. */
  lemma WeightLaw(cache: Cache, routing: Routing, cand: CandidateRef)
    ensures cand !in cache ==> Weight(cache, routing, cand) == 0.0
    ensures cand in cache ==>
      var s, w := cache[cand], Weight(cache, routing, cand);
      var h := HealthScore(s.errorRate, s.meanLatencyS, routing.targetLatencyS);
      var b := BudgetScore(s.rpmRemaining, s.rpmCap, s.tpmRemaining, s.tpmCap);
      && (s.breaker == Open ==> w == 0.0)
      && (s.breaker != Open && routing.minWeightFloor <= s.baseWeight * h * b ==> w == s.baseWeight * h * b)
      && (s.baseWeight * h * b < routing.minWeightFloor ==> w == 0.0)
  {
  }

  /** Whatever has weight has a breaker that is not open, some success, and a request
      and a token left. */
  lemma WeightedIsUsable(s: Signals, routing: Routing)
    requires 0.0 < SignalWeight(s, routing) && 0.0 <= s.baseWeight
    ensures s.breaker != Open && s.errorRate < 1.0 && 0 < s.rpmRemaining && 0 < s.tpmRemaining
  {
    if 1.0 <= s.errorRate {
      AllFailedHasNoHealth(s.errorRate, s.meanLatencyS, routing.targetLatencyS);
    }
    if s.rpmRemaining <= 0 || s.tpmRemaining <= 0 {
      NoBudgetLaw(s.rpmRemaining, s.rpmCap, s.tpmRemaining, s.tpmCap);
    }
  }

  // ------------------------------------------------------------ the draw

  type WeightFn = CandidateRef -> real

  function WeightIn(cache: Cache, routing: Routing): WeightFn {
    cand => Weight(cache, routing, cand)
  }

  function Refs(tier: seq<TierEntry>): set<CandidateRef> {
    set t | t in tier :: t.Ref()
  }

  /** The candidates the draw runs over, in tier order: not excluded, positive weight. */
  function Eligible(tier: seq<TierEntry>, exclude: set<CandidateRef>, w: WeightFn): seq<CandidateRef> {
    if tier == [] then []
    else
      var last := tier[|tier| - 1].Ref();
      Eligible(tier[..|tier| - 1], exclude, w)
      + (if last !in exclude && 0.0 < w(last) then [last] else [])
  }

  function Prefix(ws: seq<real>, k: nat): real
    requires k <= |ws|
  {
    if k == 0 then 0.0 else Prefix(ws, k - 1) + ws[k - 1]
  }

  function Total(ws: seq<real>): real {
    Prefix(ws, |ws|)
  }

  predicate AllPositive(ws: seq<real>) {
    forall i :: 0 <= i < |ws| ==> 0.0 < ws[i]
  }

  /** Point `r` of the stacked weights falls into the slice of entry `i`: above the
      weights before it and not above its own. The first slice also takes zero. */
  predicate InSlice(ws: seq<real>, r: real, i: nat)
    requires i < |ws|
  {
    (i == 0 || Prefix(ws, i) < r) && r <= Prefix(ws, i + 1)
  }

  function WeightsOf(cands: seq<CandidateRef>, w: WeightFn): (ws: seq<real>)
    ensures |ws| == |cands|
  {
    seq(|cands|, i requires 0 <= i < |cands| => w(cands[i]))
  }

  /** The first entry from `i` on whose stacked weight reaches `r`. */
  function SliceAt(ws: seq<real>, r: real, i: nat): (k: nat)
    requires i < |ws|
    ensures i <= k < |ws|
    decreases |ws| - i
  {
    if r <= Prefix(ws, i + 1) || i == |ws| - 1 then i else SliceAt(ws, r, i + 1)
  }

  /** The entry that draw `u` selects. */
  function DrawIndex(ws: seq<real>, u: real): (k: nat)
    requires ws != []
    ensures k < |ws|
  {
    SliceAt(ws, u * Total(ws), 0)
  }

  /** What the engine returns for draw `u`. */
  function Choice(tier: seq<TierEntry>, exclude: set<CandidateRef>, w: WeightFn, u: real): Option<CandidateRef> {
    var cands := Eligible(tier, exclude, w);
    if cands == [] then None
    else
      var ws := WeightsOf(cands, w);
      Some(cands[DrawIndex(ws, u)])
  }

  lemma {:induction false} PrefixMonotone(ws: seq<real>, i: nat, j: nat)
    requires AllPositive(ws) && i <= j <= |ws|
    ensures Prefix(ws, i) <= Prefix(ws, j)
    ensures i < j ==> Prefix(ws, i) < Prefix(ws, j)
    decreases j
  {
    if i < j {
      PrefixMonotone(ws, i, j - 1);
    }
  }

  /** At most one slice contains a draw, so the choice is a function of the draw. */
  lemma SliceUnique(ws: seq<real>, r: real, i: nat, j: nat)
    requires AllPositive(ws) && i < |ws| && j < |ws|
    requires InSlice(ws, r, i) && InSlice(ws, r, j)
    ensures i == j
  {
    if i < j {
      PrefixMonotone(ws, i + 1, j);
    } else if j < i {
      PrefixMonotone(ws, j + 1, i);
    }
  }

  lemma {:induction false} ScanFinds(ws: seq<real>, r: real, i: nat)
    requires i < |ws| && r < Total(ws)
    requires i == 0 || Prefix(ws, i) < r
    ensures InSlice(ws, r, SliceAt(ws, r, i))
    decreases |ws| - i
  {
    if r > Prefix(ws, i + 1) && i < |ws| - 1 {
      ScanFinds(ws, r, i + 1);
    }
  }

  /** For every draw in [0,1) exactly one slice contains it, and the scan returns
      that one: in exact arithmetic the fallback to the last entry is never needed. */
  lemma ScanIsExact(ws: seq<real>, u: real, i: nat)
    requires AllPositive(ws) && i < |ws| && 0.0 <= u < 1.0
    ensures u * Total(ws) < Total(ws)
    ensures DrawIndex(ws, u) == i <==> InSlice(ws, u * Total(ws), i)
  {
    PrefixMonotone(ws, 0, |ws|);
    OrderScales(u, 1.0, Total(ws));
    var r := u * Total(ws);
    ScanFinds(ws, r, 0);
    if InSlice(ws, r, i) {
      SliceUnique(ws, r, i, SliceAt(ws, r, 0));
    }
  }

  /** The draws that choose entry i form an interval of length w_i / total inside [0,1]. */
  lemma SliceIsShare(ws: seq<real>, u: real, i: nat)
    requires AllPositive(ws) && i < |ws|
    ensures 0.0 < Total(ws)
    ensures
      var lo, hi := Prefix(ws, i) / Total(ws), Prefix(ws, i + 1) / Total(ws);
      && 0.0 <= lo < hi <= 1.0
      && hi - lo == ws[i] / Total(ws)
      && (InSlice(ws, u * Total(ws), i) <==> (i == 0 || lo < u) && u <= hi)
  {
    PrefixMonotone(ws, 0, i);
    PrefixMonotone(ws, i, i + 1);
    PrefixMonotone(ws, i + 1, |ws|);
    Share(Prefix(ws, i), Prefix(ws, i + 1), Total(ws), u);
  }

  lemma Share(before: real, upTo: real, total: real, u: real)
    requires 0.0 <= before < upTo <= total
    ensures 0.0 <= before / total < upTo / total <= 1.0
    ensures upTo / total - before / total == (upTo - before) / total
    ensures before < u * total <==> before / total < u
    ensures u * total <= upTo <==> u <= upTo / total
  {
    var lo, hi := before / total, upTo / total;
    assert lo * total == before && hi * total == upTo;
    QuotientInUnit(before, total);
    QuotientInUnit(upTo, total);
    OrderScales(lo, u, total);
    OrderScales(hi, u, total);
    OrderScales(lo, hi, total);
  }

  lemma OrderScales(a: real, b: real, c: real)
    requires 0.0 < c
    ensures a < b <==> a * c < b * c
  {
    assert b * c - a * c == (b - a) * c;
  }

  lemma {:induction false} EligiblePositive(tier: seq<TierEntry>, exclude: set<CandidateRef>, w: WeightFn)
    ensures AllPositive(WeightsOf(Eligible(tier, exclude, w), w))
  {
    if tier != [] {
      EligiblePositive(tier[..|tier| - 1], exclude, w);
      var before := Eligible(tier[..|tier| - 1], exclude, w);
      var cands := Eligible(tier, exclude, w);
      forall i | 0 <= i < |cands|
        ensures 0.0 < WeightsOf(cands, w)[i]
      {
        if i < |before| {
          assert WeightsOf(cands, w)[i] == WeightsOf(before, w)[i];
        }
      }
    }
  }

  lemma {:induction false} EligibleMembers(
    tier: seq<TierEntry>, exclude: set<CandidateRef>, w: WeightFn, c: CandidateRef)
    ensures c in Eligible(tier, exclude, w) <==>
      c !in exclude && 0.0 < w(c) && exists t :: t in tier && t.Ref() == c
  {
    if tier != [] {
      var n := |tier| - 1;
      EligibleMembers(tier[..n], exclude, w, c);
      assert tier == tier[..n] + [tier[n]];
    }
  }

  /** No choice is made exactly when every candidate that is not excluded has weight zero. */
  lemma NoChoiceIffWeightless(tier: seq<TierEntry>, exclude: set<CandidateRef>, w: WeightFn, u: real)
    ensures Choice(tier, exclude, w, u) == None <==>
      forall t :: t in tier && t.Ref() !in exclude ==> w(t.Ref()) <= 0.0
  {
    var cands := Eligible(tier, exclude, w);
    if cands != [] {
      EligibleMembers(tier, exclude, w, cands[0]);
    }
    forall t | cands == [] && t in tier && t.Ref() !in exclude
      ensures w(t.Ref()) <= 0.0
    {
      EligibleMembers(tier, exclude, w, t.Ref());
    }
  }

  lemma ChoiceIsEligible(tier: seq<TierEntry>, exclude: set<CandidateRef>, w: WeightFn, u: real)
    requires Choice(tier, exclude, w, u).Some?
    ensures
      var c := Choice(tier, exclude, w, u).value;
      c !in exclude && 0.0 < w(c) && c in Refs(tier)
  {
    var c := Choice(tier, exclude, w, u).value;
    EligibleMembers(tier, exclude, w, c);
    assert c in Eligible(tier, exclude, w);
  }

  // ------------------------------------------------------------ the draw, by the lines of the tier

  /** A line the draw can fall on. */
  predicate Drawable(t: TierEntry, exclude: set<CandidateRef>, w: WeightFn) {
    t.Ref() !in exclude && 0.0 < w(t.Ref())
  }

  /** The weights of the drawable lines, summed up. */
  function Stack(tier: seq<TierEntry>, exclude: set<CandidateRef>, w: WeightFn): real {
    if tier == [] then 0.0
    else
      var last := tier[|tier| - 1];
      Stack(tier[..|tier| - 1], exclude, w) + if Drawable(last, exclude, w) then w(last.Ref()) else 0.0
  }

  /** Point `r` lies in line j's stretch of the sum; the first drawable line's begins at zero. */
  predicate InStretch(tier: seq<TierEntry>, exclude: set<CandidateRef>, w: WeightFn, r: real, j: nat)
    requires j < |tier|
  {
    && Drawable(tier[j], exclude, w)
    && (Stack(tier[..j], exclude, w) < r || Stack(tier[..j], exclude, w) == 0.0)
    && r <= Stack(tier[..j + 1], exclude, w)
  }

  lemma {:induction false} EligibleSnoc(tier: seq<TierEntry>, exclude: set<CandidateRef>, w: WeightFn, j: nat)
    requires j < |tier|
    ensures Eligible(tier[..j + 1], exclude, w) ==
      Eligible(tier[..j], exclude, w) + (if Drawable(tier[j], exclude, w) then [tier[j].Ref()] else [])
  {
    assert tier[..j + 1][..j] == tier[..j];
  }

  lemma {:induction false} EligiblePrefix(tier: seq<TierEntry>, exclude: set<CandidateRef>, w: WeightFn, j: nat)
    requires j <= |tier|
    ensures
      var k := |Eligible(tier[..j], exclude, w)|;
      && k <= |Eligible(tier, exclude, w)|
      && Eligible(tier, exclude, w)[..k] == Eligible(tier[..j], exclude, w)
    decreases |tier|
  {
    if j == |tier| {
      assert tier[..j] == tier;
    } else {
      var n := |tier| - 1;
      EligiblePrefix(tier[..n], exclude, w, j);
      assert tier[..n][..j] == tier[..j];
    }
  }

  lemma {:induction false} PrefixOfPrefix(ws: seq<real>, k: nat, j: nat)
    requires k <= j <= |ws|
    ensures Prefix(ws[..j], k) == Prefix(ws, k)
    decreases k
  {
    if k != 0 {
      PrefixOfPrefix(ws, k - 1, j);
    }
  }

  lemma {:induction false} StackIsTotal(tier: seq<TierEntry>, exclude: set<CandidateRef>, w: WeightFn)
    ensures Stack(tier, exclude, w) == Total(WeightsOf(Eligible(tier, exclude, w), w))
  {
    if tier != [] {
      var init := tier[..|tier| - 1];
      StackIsTotal(init, exclude, w);
      var before, now := WeightsOf(Eligible(init, exclude, w), w), WeightsOf(Eligible(tier, exclude, w), w);
      assert now[..|before|] == before;
      PrefixOfPrefix(now, |before|, |before|);
    }
  }

  lemma {:induction false} StackIsPrefix(tier: seq<TierEntry>, exclude: set<CandidateRef>, w: WeightFn, j: nat)
    requires j <= |tier|
    ensures
      var k := |Eligible(tier[..j], exclude, w)|;
      && k <= |Eligible(tier, exclude, w)|
      && Stack(tier[..j], exclude, w) == Prefix(WeightsOf(Eligible(tier, exclude, w), w), k)
  {
    var k := |Eligible(tier[..j], exclude, w)|;
    EligiblePrefix(tier, exclude, w, j);
    StackIsTotal(tier[..j], exclude, w);
    var ws := WeightsOf(Eligible(tier, exclude, w), w);
    assert ws[..k] == WeightsOf(Eligible(tier[..j], exclude, w), w);
    PrefixOfPrefix(ws, k, k);
  }

  /** A drawable line's stretch is the slice of its place among the eligible. */
  lemma {:induction false} StretchIsSlice(
    tier: seq<TierEntry>, exclude: set<CandidateRef>, w: WeightFn, r: real, j: nat)
    requires j < |tier| && Drawable(tier[j], exclude, w)
    ensures
      var cands := Eligible(tier, exclude, w);
      var k := |Eligible(tier[..j], exclude, w)|;
      && k < |cands| && cands[k] == tier[j].Ref()
      && (InStretch(tier, exclude, w, r, j) <==> InSlice(WeightsOf(cands, w), r, k))
  {
    var cands := Eligible(tier, exclude, w);
    var k := |Eligible(tier[..j], exclude, w)|;
    EligibleSnoc(tier, exclude, w, j);
    EligiblePrefix(tier, exclude, w, j + 1);
    assert cands[..k + 1][k] == tier[j].Ref();
    StackIsPrefix(tier, exclude, w, j);
    StackIsPrefix(tier, exclude, w, j + 1);
    EligiblePositive(tier, exclude, w);
    PrefixMonotone(WeightsOf(cands, w), 0, k);
  }

  /** The line behind a place among the eligible. */
  lemma {:induction false} LineAt(tier: seq<TierEntry>, exclude: set<CandidateRef>, w: WeightFn, k: nat)
    returns (j: nat)
    requires k < |Eligible(tier, exclude, w)|
    ensures j < |tier| && Drawable(tier[j], exclude, w) && |Eligible(tier[..j], exclude, w)| == k
  {
    var n := |tier| - 1;
    if k < |Eligible(tier[..n], exclude, w)| {
      j := LineAt(tier[..n], exclude, w, k);
      assert tier[..n][..j] == tier[..j];
    } else {
      j := n;
    }
  }

  lemma {:induction false} ChoiceOfSlice(
    tier: seq<TierEntry>, exclude: set<CandidateRef>, w: WeightFn, u: real, r: real, k: nat)
    requires 0.0 <= u < 1.0 && r == u * Stack(tier, exclude, w)
    requires k < |Eligible(tier, exclude, w)| && InSlice(WeightsOf(Eligible(tier, exclude, w), w), r, k)
    ensures Choice(tier, exclude, w, u) == Some(Eligible(tier, exclude, w)[k])
  {
    var ws := WeightsOf(Eligible(tier, exclude, w), w);
    StackIsTotal(tier, exclude, w);
    EligiblePositive(tier, exclude, w);
    ScanIsExact(ws, u, k);
  }

  lemma DrawnSlice(tier: seq<TierEntry>, exclude: set<CandidateRef>, w: WeightFn, u: real, r: real) returns (k: nat)
    requires 0.0 <= u < 1.0 && r == u * Stack(tier, exclude, w)
    requires |Eligible(tier, exclude, w)| != 0
    ensures k < |Eligible(tier, exclude, w)| && InSlice(WeightsOf(Eligible(tier, exclude, w), w), r, k)
  {
    var ws := WeightsOf(Eligible(tier, exclude, w), w);
    StackIsTotal(tier, exclude, w);
    EligiblePositive(tier, exclude, w);
    k := DrawIndex(ws, u);
    ScanIsExact(ws, u, k);
  }

  /** The draw is by weight: for every u in [0,1) the choice is the line whose stretch
      of the summed weights holds u times the whole. */
  lemma {:induction false} ChoiceIsByWeight(
    tier: seq<TierEntry>, exclude: set<CandidateRef>, w: WeightFn, u: real, r: real, j: nat)
    requires 0.0 <= u < 1.0 && r == u * Stack(tier, exclude, w)
    requires j < |tier| && InStretch(tier, exclude, w, r, j)
    ensures Choice(tier, exclude, w, u) == Some(tier[j].Ref())
  {
    StretchIsSlice(tier, exclude, w, r, j);
    ChoiceOfSlice(tier, exclude, w, u, r, |Eligible(tier[..j], exclude, w)|);
  }

  /** And there is such a line unless no line is drawable. */
  lemma SomeStretchHolds(
    tier: seq<TierEntry>, exclude: set<CandidateRef>, w: WeightFn, u: real, r: real, i: nat)
    returns (j: nat)
    requires 0.0 <= u < 1.0 && r == u * Stack(tier, exclude, w)
    requires i < |tier| && Drawable(tier[i], exclude, w)
    ensures j < |tier| && InStretch(tier, exclude, w, r, j)
  {
    StretchIsSlice(tier, exclude, w, r, i);
    var k := DrawnSlice(tier, exclude, w, u, r);
    j := LineAt(tier, exclude, w, k);
    StretchIsSlice(tier, exclude, w, r, j);
  }

  /** So the draws that choose a line form an interval of length weight / whole inside [0,1]. */
  lemma {:induction false} StretchIsShare(tier: seq<TierEntry>, exclude: set<CandidateRef>, w: WeightFn, j: nat)
    requires j < |tier| && Drawable(tier[j], exclude, w)
    ensures 0.0 < Stack(tier, exclude, w)
    ensures
      var total := Stack(tier, exclude, w);
      var lo, hi := Stack(tier[..j], exclude, w) / total, Stack(tier[..j + 1], exclude, w) / total;
      0.0 <= lo < hi <= 1.0 && hi - lo == w(tier[j].Ref()) / total
  {
    var cands := Eligible(tier, exclude, w);
    var k := |Eligible(tier[..j], exclude, w)|;
    StretchIsSlice(tier, exclude, w, 0.0, j);
    EligibleSnoc(tier, exclude, w, j);
    StackIsTotal(tier, exclude, w);
    StackIsPrefix(tier, exclude, w, j);
    StackIsPrefix(tier, exclude, w, j + 1);
    EligiblePositive(tier, exclude, w);
    SliceIsShare(WeightsOf(cands, w), 0.0, k);
  }

  /** The scan over the stacked weights. It always stops inside the list: falling
      through to the last candidate is dead code in exact arithmetic. */
  method Draw(weights: seq<real>, u: real) returns (i: nat)
    requires weights != [] && AllPositive(weights)
    requires 0.0 <= u < 1.0
    ensures i < |weights|
    ensures InSlice(weights, u * Total(weights), i)
    ensures i == DrawIndex(weights, u)
  {
    var total := 0.0;
    for k := 0 to |weights|
      invariant total == Prefix(weights, k)
    {
      total := total + weights[k];
    }
    var r := u * total;
    assert r < total by {
      PrefixMonotone(weights, 0, |weights|);
      OrderScales(u, 1.0, total);
    }
    var acc := 0.0;
    i := 0;
    while i < |weights|
      invariant i <= |weights|
      invariant acc == Prefix(weights, i)
      invariant i == 0 || acc < r
    {
      acc := acc + weights[i];
      if r <= acc {
        ScanIsExact(weights, u, i);
        return;
      }
      i := i + 1;
    }
    assert false;
  }

  /** One weighted draw over the candidates that are neither excluded nor weightless. */
  method PickBy(tier: seq<TierEntry>, exclude: set<CandidateRef>, w: WeightFn, u: real)
    returns (chosen: Option<CandidateRef>)
    requires 0.0 <= u < 1.0
    ensures chosen == Choice(tier, exclude, w, u)
  {
    var cands: seq<CandidateRef> := [];
    var weights: seq<real> := [];
    for k := 0 to |tier|
      invariant cands == Eligible(tier[..k], exclude, w)
      invariant weights == WeightsOf(cands, w)
    {
      var ref := tier[k].Ref();
      assert tier[..k + 1][..k] == tier[..k];
      if ref in exclude {
        continue;
      }
      if w(ref) <= 0.0 {
        continue;
      }
      cands := cands + [ref];
      weights := weights + [w(ref)];
    }
    assert tier[..|tier|] == tier;
    EligiblePositive(tier, exclude, w);
    if cands == [] {
      return None;
    }
    assert cands == Eligible(tier, exclude, w) && weights == WeightsOf(cands, w);
    var i := Draw(weights, u);
    chosen := Some(cands[i]);
  }

  /** Per-replica engine; `cache` is replaced as a whole by the refresh task. */
  class WeightEngine {
    const routing: Routing
    var cache: Cache

    constructor (routing: Routing)
      ensures this.routing == routing && cache == map[]
    {
      this.routing := routing;
      cache := map[];
    }

    method UpdateCache(signals: Cache)
      modifies this`cache
      ensures cache == signals
    {
      cache := signals;
    }

    method Pick(tier: seq<TierEntry>, exclude: set<CandidateRef>, u: real) returns (chosen: Option<CandidateRef>)
      requires 0.0 <= u < 1.0
      ensures chosen == Choice(tier, exclude, WeightIn(cache, routing), u)
    {
      chosen := PickBy(tier, exclude, WeightIn(cache, routing), u);
    }
  }
}
