/** The ten-minute key expiry, on the same non-decreasing clock as the scripts.
    A full refill takes one minute, so an expired key and a long idle one look
    alike to every acquire. A clamp can tell them apart: on an expired key it
    creates a hash without a refill time. */
module BucketExpiry {
  import opened Common
  import opened TokenBucket
  import opened BucketRuns

  /** The stored levels are at least the cap and nothing else is stored. */
  predicate FullWithoutTime(e: Entry, limit: RateLimit) {
    e.lastMs.None? && e.expiresAtMs.None? && Full(e, limit)
  }

  /** `e` is what Redis holds at `nowMs`; `n` is what it would hold had no key
      ever expired. No acquire at or after `nowMs` can tell them apart. */
  predicate Alike(e: Entry, n: Entry, nowMs: int, limit: RateLimit) {
    && WellFormed(n)
    && (n.lastMs.Some? ==> n.lastMs.value <= nowMs)
    && (e == n || (FullWithoutTime(e, limit) && n.lastMs.Some? && n.lastMs.value + UNIT <= nowMs))
  }

  lemma AlikeLater(e: Entry, n: Entry, nowMs: int, laterMs: int, limit: RateLimit)
    requires Alike(e, n, nowMs, limit) && nowMs <= laterMs
    ensures Alike(Expire(e, laterMs), n, laterMs, limit)
  {
  }

  lemma AlikeAcquire(e: Entry, n: Entry, nowMs: int, limit: RateLimit, tokens: nat)
    requires Alike(e, n, nowMs, limit)
    ensures Acquire(e, nowMs, limit, tokens) == Acquire(n, nowMs, limit, tokens)
    ensures Alike(Acquire(e, nowMs, limit, tokens).entry, Acquire(n, nowMs, limit, tokens).entry, nowMs, limit)
  {
    AcquireKeepsLevels(n, nowMs, limit, tokens);
    if e != n {
      RefillFull(e.rpm, limit.rpm, Elapsed(e.lastMs, nowMs));
      RefillFull(e.tpm, limit.tpm, Elapsed(e.lastMs, nowMs));
      IdleRefills(n.rpm, limit.rpm, Elapsed(n.lastMs, nowMs));
      IdleRefills(n.tpm, limit.tpm, Elapsed(n.lastMs, nowMs));
      assert Levels(e, nowMs, limit) == Levels(n, nowMs, limit);
    }
  }

  /** The guard a caller can check: the key still has a refill time, or nothing
      was ever acquired from it, or the observation is not below the limits. */
  predicate ClampGuard(e: Entry, everAcquired: bool, rpm: nat, tpm: nat, limit: RateLimit) {
    e.lastMs.Some? || !everAcquired || (limit.rpm <= rpm && limit.tpm <= tpm)
  }

  lemma AlikeClamp(e: Entry, n: Entry, nowMs: int, limit: RateLimit, rpm: nat, tpm: nat)
    requires Alike(e, n, nowMs, limit)
    requires ClampGuard(e, n.lastMs.Some?, rpm, tpm, limit)
    ensures Alike(Clamp(e, rpm, tpm), Clamp(n, rpm, tpm), nowMs, limit)
  {
  }

  /** Every clamp of the run passed its guard on the key as Redis held it. */
  predicate Guarded(e: Entry, everAcquired: bool, evs: seq<Event>, limit: RateLimit)
    decreases |evs|
  {
    evs != [] ==>
      var live := Expire(e, evs[0].atMs);
      && (evs[0].Observe? ==> ClampGuard(live, everAcquired, evs[0].rpm, evs[0].tpm, limit))
      && Guarded(Step(e, evs[0], limit, true).entry, everAcquired || evs[0].TryAcquire?, evs[1..], limit)
  }

  lemma {:induction false} AlikeRun(e: Entry, n: Entry, clock: int, evs: seq<Event>, limit: RateLimit)
    requires Alike(e, n, clock, limit)
    requires Forwards(clock, evs) && Guarded(e, n.lastMs.Some?, evs, limit)
    ensures Decisions(e, evs, limit, true) == Decisions(n, evs, limit, false)
    ensures Alike(Final(e, evs, limit, true), Final(n, evs, limit, false), End(clock, evs), limit)
    decreases |evs|
  {
    if evs != [] {
      var now := evs[0].atMs;
      AlikeLater(e, n, clock, now, limit);
      var live := Expire(e, now);
      match evs[0] {
        case TryAcquire(_, tokens) => AlikeAcquire(live, n, now, limit, tokens);
        case Observe(_, rpm, tpm) => AlikeClamp(live, n, now, limit, rpm, tpm);
      }
      AlikeRun(Step(e, evs[0], limit, true).entry, Step(n, evs[0], limit, false).entry, now, evs[1..], limit);
    }
  }

  lemma {:induction false} AcquiresAreGuarded(e: Entry, everAcquired: bool, evs: seq<Event>, limit: RateLimit)
    requires Acquires(evs)
    ensures Guarded(e, everAcquired, evs, limit)
    decreases |evs|
  {
    if evs != [] {
      AcquiresAreGuarded(Step(e, evs[0], limit, true).entry, true, evs[1..], limit);
    }
  }

  /** With guarded clamps anywhere in between, a run with key expiry makes
      exactly the decisions of the run without it. */
  lemma {:induction false} ExpiryIsInvisible(clock: int, evs: seq<Event>, limit: RateLimit)
    requires Forwards(clock, evs) && Guarded(ABSENT, false, evs, limit)
    ensures Decisions(ABSENT, evs, limit, true) == Decisions(ABSENT, evs, limit, false)
    ensures Alike(Final(ABSENT, evs, limit, true), Final(ABSENT, evs, limit, false), End(clock, evs), limit)
  {
    AlikeRun(ABSENT, ABSENT, clock, evs, limit);
  }

  function Burst(atMs: int, n: nat): seq<Event>
    ensures |Burst(atMs, n)| == n && Acquires(Burst(atMs, n))
    ensures forall i :: 0 <= i < n ==> Burst(atMs, n)[i] == TryAcquire(atMs, 0)
  {
    seq(n, i => TryAcquire(atMs, 0))
  }

  /** A burst of empty requests at one moment is granted once per whole request held. */
  lemma {:induction false} BurstGrants(e: Entry, atMs: int, n: nat, limit: RateLimit, expiring: bool)
    requires WellFormed(e) && (e.lastMs.None? || e.lastMs.value == atMs)
    ensures
      var held := Min(limit.rpm, e.rpm.GetOr(limit.rpm * UNIT) / UNIT);
      forall i :: 0 <= i < n ==> Decisions(e, Burst(atMs, n), limit, expiring)[i] == (i < held)
    decreases n
  {
    if n != 0 {
      var a := Acquire(e, atMs, limit, 0);
      AcquireKeepsLevels(e, atMs, limit, 0);
      assert Live(e, atMs, expiring) == e;
      BurstGrants(a.entry, atMs, n - 1, limit, expiring);
      assert Burst(atMs, n)[1..] == Burst(atMs, n - 1);
      var ds := Decisions(e, Burst(atMs, n), limit, expiring);
      assert ds == [a.granted] + Decisions(a.entry, Burst(atMs, n - 1), limit, expiring);
    }
  }

  ghost predicate SameDecisionsFrom(e: Entry, n: Entry, clock: int, limit: RateLimit) {
    forall evs :: Acquires(evs) && Forwards(clock, evs) ==>
      Decisions(e, evs, limit, true) == Decisions(n, evs, limit, false)
  }

  /** After an unguarded clamp the key that expired holds the observed levels,
      the other one is full. */
  lemma UnguardedClampLevels(e: Entry, n: Entry, nowMs: int, limit: RateLimit, rpm: nat, tpm: nat)
    requires Alike(e, n, nowMs, limit) && !ClampGuard(e, n.lastMs.Some?, rpm, tpm, limit)
    ensures
      var e', n' := Clamp(e, rpm, tpm), Clamp(n, rpm, tpm);
      && WellFormed(e') && WellFormed(n')
      && e'.lastMs.None? && e'.expiresAtMs.None? && e'.rpm.Some?
      && (rpm < limit.rpm ==> e'.rpm.value == rpm * UNIT)
      && (tpm < limit.tpm ==> e'.tpm.value < limit.tpm * UNIT)
      && Levels(n', nowMs, limit) == Eager(limit.rpm * UNIT, limit.tpm * UNIT)
  {
    var n' := Clamp(n, rpm, tpm);
    var idle := Elapsed(n'.lastMs, nowMs);
    assert UNIT * limit.rpm <= idle * limit.rpm && UNIT * limit.tpm <= idle * limit.tpm;
  }

  lemma TokensShow(e: Entry, n: Entry, nowMs: int, limit: RateLimit)
    requires WellFormed(e) && WellFormed(n) && e.expiresAtMs.None?
    requires e.tpm.Some? && e.tpm.value < limit.tpm * UNIT && e.lastMs.None?
    requires Levels(n, nowMs, limit) == Eager(limit.rpm * UNIT, limit.tpm * UNIT)
    ensures !SameDecisionsFrom(e, n, nowMs, limit)
  {
    var evs := [TryAcquire(nowMs, limit.tpm)];
    assert Acquires(evs) && Forwards(nowMs, evs);
    assert Decisions(e, evs, limit, true)[0] == false;
    assert Decisions(n, evs, limit, false)[0] == true;
  }

  lemma RequestsShow(e: Entry, n: Entry, nowMs: int, limit: RateLimit, rpm: nat)
    requires WellFormed(e) && WellFormed(n) && e.expiresAtMs.None?
    requires e.rpm == Some(rpm * UNIT) && rpm < limit.rpm && e.lastMs.None?
    requires Levels(n, nowMs, limit) == Eager(limit.rpm * UNIT, limit.tpm * UNIT)
    ensures !SameDecisionsFrom(e, n, nowMs, limit)
  {
    var evs := Burst(nowMs, rpm + 1);
    assert Forwards(nowMs, evs);
    BurstGrants(e, nowMs, rpm + 1, limit, true);
    var a := Acquire(n, nowMs, limit, 0);
    AcquireKeepsLevels(n, nowMs, limit, 0);
    assert evs[1..] == Burst(nowMs, rpm);
    BurstGrants(a.entry, nowMs, rpm, limit, false);
    assert Decisions(n, evs, limit, false) == [a.granted] + Decisions(a.entry, Burst(nowMs, rpm), limit, false);
    assert Decisions(n, evs, limit, false)[rpm] == true;
    assert Decisions(e, evs, limit, true)[rpm] == false;
  }

  lemma UnguardedClampShows(e: Entry, n: Entry, nowMs: int, limit: RateLimit, rpm: nat, tpm: nat)
    requires Alike(e, n, nowMs, limit) && !ClampGuard(e, n.lastMs.Some?, rpm, tpm, limit)
    ensures !SameDecisionsFrom(Clamp(e, rpm, tpm), Clamp(n, rpm, tpm), nowMs, limit)
  {
    UnguardedClampLevels(e, n, nowMs, limit, rpm, tpm);
    if tpm < limit.tpm {
      TokensShow(Clamp(e, rpm, tpm), Clamp(n, rpm, tpm), nowMs, limit);
    } else {
      RequestsShow(Clamp(e, rpm, tpm), Clamp(n, rpm, tpm), nowMs, limit, rpm);
    }
  }

  /** After any guarded run, one more clamp keeps the expiry invisible to all
      later acquires if and only if it passes the guard. */
  lemma {:induction false} ClampGuardIsExact(
    clock: int, evs: seq<Event>, nowMs: int, limit: RateLimit, rpm: nat, tpm: nat)
    requires Forwards(clock, evs) && Guarded(ABSENT, false, evs, limit)
    requires End(clock, evs) <= nowMs
    ensures
      var e := Expire(Final(ABSENT, evs, limit, true), nowMs);
      var n := Final(ABSENT, evs, limit, false);
      SameDecisionsFrom(Clamp(e, rpm, tpm), Clamp(n, rpm, tpm), nowMs, limit) <==>
        ClampGuard(e, n.lastMs.Some?, rpm, tpm, limit)
  {
    ExpiryIsInvisible(clock, evs, limit);
    var e := Expire(Final(ABSENT, evs, limit, true), nowMs);
    var n := Final(ABSENT, evs, limit, false);
    AlikeLater(Final(ABSENT, evs, limit, true), n, End(clock, evs), nowMs, limit);
    if ClampGuard(e, n.lastMs.Some?, rpm, tpm, limit) {
      AlikeClamp(e, n, nowMs, limit, rpm, tpm);
      forall later | Acquires(later) && Forwards(nowMs, later)
        ensures Decisions(Clamp(e, rpm, tpm), later, limit, true) == Decisions(Clamp(n, rpm, tpm), later, limit, false)
      {
        AcquiresAreGuarded(Clamp(e, rpm, tpm), n.lastMs.Some?, later, limit);
        AlikeRun(Clamp(e, rpm, tpm), Clamp(n, rpm, tpm), nowMs, later, limit);
      }
    } else {
      UnguardedClampShows(e, n, nowMs, limit, rpm, tpm);
    }
  }

  /** One request, ten idle minutes, a clamp to zero on the expired key: the
      next request is refused, while an unexpired key would have refilled. */
  lemma ClampOnExpiredKeyIsVisible()
    ensures
      var limit := RateLimit(1, 1);
      var evs := [TryAcquire(0, 0), Observe(600001, 0, 1), TryAcquire(600001, 0)];
      && Decisions(ABSENT, evs, limit, true) == [true, false, false]
      && Decisions(ABSENT, evs, limit, false) == [true, false, true]
  {
    var limit := RateLimit(1, 1);
    var evs := [TryAcquire(0, 0), Observe(600001, 0, 1), TryAcquire(600001, 0)];
    assert evs[1..][1..] == [TryAcquire(600001, 0)] && evs[1..][1..][1..] == [];
    var first := Entry(Some(0), Some(60000), Some(0), Some(600000));
    forall expiring
      ensures Decisions(ABSENT, evs, limit, expiring) == [true, false, !expiring]
    {
      assert Step(ABSENT, evs[0], limit, expiring) == Acquired(first, true);
      var second := if expiring then Entry(Some(0), Some(60000), None, None) else first;
      assert Step(first, evs[1], limit, expiring) == Acquired(second, false);
      assert Step(second, evs[2], limit, expiring).granted == !expiring;
      assert Decisions(second, evs[1..][1..], limit, expiring) == [!expiring];
      assert Decisions(first, evs[1..], limit, expiring) == [false, !expiring];
    }
  }

  /** A millisecond earlier the key is still there, and the same run does not show the expiry. */
  lemma ClampOnLastMillisecondIsNot()
    ensures
      var limit := RateLimit(1, 1);
      var evs := [TryAcquire(0, 0), Observe(600000, 0, 1), TryAcquire(600000, 0)];
      forall expiring :: Decisions(ABSENT, evs, limit, expiring) == [true, false, true]
  {
    var limit := RateLimit(1, 1);
    var evs := [TryAcquire(0, 0), Observe(600000, 0, 1), TryAcquire(600000, 0)];
    assert evs[1..][1..] == [TryAcquire(600000, 0)] && evs[1..][1..][1..] == [];
    var first := Entry(Some(0), Some(60000), Some(0), Some(600000));
    forall expiring
      ensures Decisions(ABSENT, evs, limit, expiring) == [true, false, true]
    {
      assert Step(ABSENT, evs[0], limit, expiring) == Acquired(first, true);
      assert Step(first, evs[1], limit, expiring) == Acquired(first, false);
      assert Step(first, evs[2], limit, expiring).granted;
      assert Decisions(first, evs[1..][1..], limit, expiring) == [true];
      assert Decisions(first, evs[1..], limit, expiring) == [false, true];
    }
  }
}
