/** The waits of the refresh loop: jittered exponential backoff over consecutive
    failed ticks, back to the base interval after a success. */
module Backoff {
  import opened Common

  const MAX_BACKOFF_S := 30.0

  /** 2 ** 1024 no longer converts to a float: the multiplication raises. */
  const MAX_EXPONENT := 1023

  type Interval = x: real | 0.0 < x witness 1.0

  function Pow2(n: nat): (p: nat)
    ensures 1 <= p
  {
    if n == 0 then 1 else 2 * Pow2(n - 1)
  }

  /** The base wait doubled n times. */
  function Doubled(base: Interval, n: nat): (d: Interval)
    ensures base <= d
  {
    if n == 0 then base else 2.0 * Doubled(base, n - 1)
  }

  function Nominal(base: Interval, failures: nat): real
    requires 1 <= failures
  {
    MinReal(MAX_BACKOFF_S, Doubled(base, failures - 1))
  }

  function Jittered(nominal: real, u: UnitDraw): real {
    nominal * (0.5 + u * 0.5)
  }

  /** How many ticks up to and including tick i failed in a row. */
  function Streak(ticks: seq<bool>, i: nat): nat
    requires i < |ticks|
  {
    if ticks[i] then 0 else 1 + if i == 0 then 0 else Streak(ticks, i - 1)
  }

  function WaitAfter(base: Interval, ticks: seq<bool>, draws: nat -> UnitDraw, i: nat): real
    requires i < |ticks|
  {
    if ticks[i] then base else Jittered(Nominal(base, Streak(ticks, i)), draws(i))
  }

  /** The loop over a sequence of tick outcomes (true is success), until it is
      stopped at the end of the sequence or dies of the exponent overflow. */
  method Loop(base: Interval, ticks: seq<bool>, draws: nat -> UnitDraw) returns (waits: seq<real>, died: bool)
    ensures |waits| <= |ticks|
    ensures forall i :: 0 <= i < |waits| ==> waits[i] == WaitAfter(base, ticks, draws, i)
    ensures died <==> exists i :: 0 <= i < |ticks| && MAX_EXPONENT < Streak(ticks, i) - 1
    ensures !died ==> |waits| == |ticks|
    ensures died ==> |waits| < |ticks| && MAX_EXPONENT < Streak(ticks, |waits|) - 1
    ensures forall i :: 0 <= i < |waits| ==> Streak(ticks, i) - 1 <= MAX_EXPONENT
  {
    waits := [];
    var consecutiveFailures := 0;
    var n := 0;
    while n < |ticks|
      invariant 0 <= n <= |ticks| && |waits| == n
      invariant consecutiveFailures == if n == 0 then 0 else Streak(ticks, n - 1)
      invariant forall i :: 0 <= i < n ==> Streak(ticks, i) - 1 <= MAX_EXPONENT
      invariant forall i :: 0 <= i < n ==> waits[i] == WaitAfter(base, ticks, draws, i)
    {
      var nextWaitS: real := base;
      if ticks[n] {
        consecutiveFailures := 0;
      } else {
        consecutiveFailures := consecutiveFailures + 1;
        if MAX_EXPONENT < consecutiveFailures - 1 {
          return waits, true;
        }
        nextWaitS := Jittered(Nominal(base, consecutiveFailures), draws(n));
      }
      waits := waits + [nextWaitS];
      n := n + 1;
    }
    died := false;
  }

  // ------------------------------------------------------------ bounds

  lemma JitterHalves(nominal: real, u: UnitDraw)
    requires 0.0 <= nominal
    ensures nominal / 2.0 <= Jittered(nominal, u) <= nominal
  {
    assert 0.0 <= nominal * u <= nominal;
    assert Jittered(nominal, u) == nominal / 2.0 + nominal * u / 2.0;
  }

  lemma JitterIsLinear(nominal: real, u: UnitDraw)
    ensures Jittered(nominal, u) == nominal / 2.0 + u * (nominal / 2.0)
  {
    assert nominal * (0.5 + u * 0.5) == nominal * 0.5 + nominal * (u * 0.5);
  }

  /** Doubling n times is multiplying by 2 ** n. */
  lemma {:induction false} DoubledIsScaled(base: Interval, n: nat)
    ensures Doubled(base, n) == base * Pow2(n) as real
  {
    if n != 0 {
      DoubledIsScaled(base, n - 1);
      assert Pow2(n) as real == 2.0 * Pow2(n - 1) as real;
    }
  }

  lemma {:induction false} DoubledMonotone(base: Interval, m: nat, n: nat)
    requires m <= n
    ensures Doubled(base, m) <= Doubled(base, n)
    decreases n
  {
    if m < n {
      DoubledMonotone(base, m, n - 1);
    }
  }

  /** Ticks lo .. lo+k-1 failed, and they start the streak. */
  predicate FailedFrom(ticks: seq<bool>, lo: nat, k: nat) {
    && lo + k <= |ticks|
    && (lo != 0 ==> ticks[lo - 1])
    && forall i :: lo <= i < lo + k ==> !ticks[i]
  }

  lemma {:induction false} StreakCounts(ticks: seq<bool>, lo: nat, k: nat, i: nat)
    requires FailedFrom(ticks, lo, k) && lo <= i < lo + k
    ensures Streak(ticks, i) == i - lo + 1
    decreases i
  {
    if lo < i {
      StreakCounts(ticks, lo, k, i - 1);
    }
  }

  function SumReal(ws: seq<real>): real {
    if ws == [] then 0.0 else SumReal(ws[..|ws| - 1]) + ws[|ws| - 1]
  }

  lemma {:induction false} DoublingSum(base: Interval, ws: seq<real>)
    requires forall i :: 0 <= i < |ws| ==> Doubled(base, i) / 2.0 <= ws[i] <= Doubled(base, i)
    ensures (Doubled(base, |ws|) - base) / 2.0 <= SumReal(ws) <= Doubled(base, |ws|) - base
  {
    if ws != [] {
      DoublingSum(base, ws[..|ws| - 1]);
    }
  }

  /** The wait after k + 1 failures in a row: 2 ** k times the base wait, at most 30 s; half of
      it, and of the other half the share that was drawn. */
  lemma WaitIs(base: Interval, ticks: seq<bool>, draws: nat -> UnitDraw, lo: nat, k: nat) returns (nominal: real)
    requires FailedFrom(ticks, lo, k + 1)
    ensures nominal <= 30.0 && nominal <= base * Pow2(k) as real
    ensures nominal == 30.0 || nominal == base * Pow2(k) as real
    ensures WaitAfter(base, ticks, draws, lo + k) == nominal / 2.0 + draws(lo + k) * (nominal / 2.0)
  {
    StreakCounts(ticks, lo, k + 1, lo + k);
    DoubledIsScaled(base, k);
    nominal := Nominal(base, k + 1);
    JitterIsLinear(nominal, draws(lo + k));
  }

  lemma {:induction false} FailureWait(base: Interval, ticks: seq<bool>, draws: nat -> UnitDraw, i: nat)
    requires i < |ticks| && !ticks[i]
    ensures
      var nominal := MinReal(MAX_BACKOFF_S, Doubled(base, Streak(ticks, i) - 1));
      nominal / 2.0 <= WaitAfter(base, ticks, draws, i) <= nominal
  {
    JitterHalves(Nominal(base, Streak(ticks, i)), draws(i));
  }

  lemma {:induction false} DoubledLessBase(base: Interval, k: nat)
    ensures Doubled(base, k) - base == base * (Pow2(k) - 1) as real
  {
    DoubledIsScaled(base, k);
    var p := Pow2(k) as real;
    assert (Pow2(k) - 1) as real == p - 1.0;
    assert base * (p - 1.0) == base * p - base;
  }

  lemma StreakWait(base: Interval, ticks: seq<bool>, draws: nat -> UnitDraw, lo: nat, k: nat, i: nat)
    requires FailedFrom(ticks, lo, k) && i < k
    requires Doubled(base, k - 1) <= MAX_BACKOFF_S
    ensures Doubled(base, i) / 2.0 <= WaitAfter(base, ticks, draws, lo + i) <= Doubled(base, i)
  {
    StreakCounts(ticks, lo, k, lo + i);
    assert Streak(ticks, lo + i) - 1 == i;
    FailureWait(base, ticks, draws, lo + i);
    DoubledMonotone(base, i, k - 1);
  }

  lemma WaitsDouble(
    base: Interval, ticks: seq<bool>, draws: nat -> UnitDraw, waits: seq<real>, lo: nat, k: nat)
    requires FailedFrom(ticks, lo, k) && lo + k <= |waits| <= |ticks|
    requires forall i :: 0 <= i < |waits| ==> waits[i] == WaitAfter(base, ticks, draws, i)
    requires k != 0 ==> Doubled(base, k - 1) <= MAX_BACKOFF_S
    ensures forall i :: 0 <= i < k ==> Doubled(base, i) / 2.0 <= waits[lo + i] <= Doubled(base, i)
  {
    forall i | 0 <= i < k
      ensures Doubled(base, i) / 2.0 <= waits[lo + i] <= Doubled(base, i)
    {
      StreakWait(base, ticks, draws, lo, k, i);
    }
  }

  /** While the doubled wait stays within the 30 s cap, k failed ticks in a row wait
      between base*(2^k - 1)/2 and base*(2^k - 1) in all. */
  lemma StreakWaits(
    base: Interval, ticks: seq<bool>, draws: nat -> UnitDraw, waits: seq<real>, lo: nat, k: nat)
    requires FailedFrom(ticks, lo, k) && lo + k <= |waits| <= |ticks|
    requires forall i :: 0 <= i < |waits| ==> waits[i] == WaitAfter(base, ticks, draws, i)
    requires k != 0 ==> Doubled(base, k - 1) <= MAX_BACKOFF_S
    ensures
      var most := base * (Pow2(k) - 1) as real;
      most / 2.0 <= SumReal(waits[lo..lo + k]) <= most
  {
    WaitsDouble(base, ticks, draws, waits, lo, k);
    var ws := waits[lo..lo + k];
    assert |ws| == k && forall i :: 0 <= i < k ==> ws[i] == waits[lo + i];
    DoublingSum(base, ws);
    DoubledLessBase(base, k);
  }

  /** From the cap on every wait lies between 15 and 30 seconds. */
  lemma {:induction false} CappedWait(base: Interval, ticks: seq<bool>, draws: nat -> UnitDraw, i: nat)
    requires i < |ticks| && !ticks[i]
    requires MAX_BACKOFF_S <= Doubled(base, Streak(ticks, i) - 1)
    ensures 15.0 <= WaitAfter(base, ticks, draws, i) <= 30.0
  {
    JitterHalves(30.0, draws(i));
  }

  /** A success erases the history: it waits the base interval, and every later streak
      counts as if the loop had started with it. */
  lemma {:induction false} SuccessForgets(
    base: Interval, before: seq<bool>, after: seq<bool>, draws: nat -> UnitDraw, i: nat)
    requires i < |after|
    ensures
      var ticks := before + [true] + after;
      && WaitAfter(base, ticks, draws, |before|) == base
      && Streak(ticks, |before| + 1 + i) == Streak([true] + after, 1 + i)
  {
    var ticks, anew := before + [true] + after, [true] + after;
    assert ticks[|before|] && ticks[|before| + 1 + i] == after[i] == anew[1 + i];
    if i != 0 {
      SuccessForgets(base, before, after, draws, i - 1);
    }
  }

  lemma {:induction false} StreakStarts(ticks: seq<bool>, i: nat) returns (lo: nat)
    requires i < |ticks| && !ticks[i]
    ensures lo <= i && FailedFrom(ticks, lo, i + 1 - lo)
  {
    if i == 0 || ticks[i - 1] {
      lo := i;
    } else {
      lo := StreakStarts(ticks, i - 1);
    }
  }

  /** The loop survives a history if and only if no 1025 ticks in a row fail in it:
      at the 1025th failure the exponent no longer fits a float. */
  lemma {:induction false} SurvivesIffNoLongOutage(ticks: seq<bool>)
    ensures (exists i :: 0 <= i < |ticks| && MAX_EXPONENT < Streak(ticks, i) - 1) <==>
      exists lo: nat :: FailedFrom(ticks, lo, 1025)
  {
    if i :| 0 <= i < |ticks| && MAX_EXPONENT < Streak(ticks, i) - 1 {
      var lo := StreakStarts(ticks, i);
      StreakCounts(ticks, lo, i + 1 - lo, i);
      assert FailedFrom(ticks, lo, 1025);
    }
    if lo: nat :| FailedFrom(ticks, lo, 1025) {
      StreakCounts(ticks, lo, 1025, lo + 1024);
      assert MAX_EXPONENT < Streak(ticks, lo + 1024) - 1;
    }
  }
}
