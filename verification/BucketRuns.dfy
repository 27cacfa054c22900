/** Whole runs of the token bucket on one key: what any sequence of acquires and
    clamps can be granted, that lazy refill is the plain per-millisecond refill,
    and when the ten-minute key expiry can be noticed. */
module BucketRuns {
  import opened Common
  import opened TokenBucket

  datatype Event =
    | TryAcquire(atMs: int, tokens: nat)
    | Observe(atMs: int, rpm: nat, tpm: nat)

  function Live(e: Entry, nowMs: int, expiring: bool): Entry {
    if expiring then Expire(e, nowMs) else e
  }

  function Step(e: Entry, ev: Event, limit: RateLimit, expiring: bool): Acquired {
    var live := Live(e, ev.atMs, expiring);
    match ev
    case TryAcquire(now, tokens) => Acquire(live, now, limit, tokens)
    case Observe(_, rpm, tpm) => Acquired(Clamp(live, rpm, tpm), false)
  }

  function Final(e: Entry, evs: seq<Event>, limit: RateLimit, expiring: bool): Entry
    decreases |evs|
  {
    if evs == [] then e else Final(Step(e, evs[0], limit, expiring).entry, evs[1..], limit, expiring)
  }

  /** One answer per event; a clamp's answer is false. */
  function Decisions(e: Entry, evs: seq<Event>, limit: RateLimit, expiring: bool): (ds: seq<bool>)
    ensures |ds| == |evs|
    decreases |evs|
  {
    if evs == [] then []
    else
      var s := Step(e, evs[0], limit, expiring);
      [s.granted] + Decisions(s.entry, evs[1..], limit, expiring)
  }

  function Requests(ds: seq<bool>): nat {
    if ds == [] then 0 else (if ds[0] then 1 else 0) + Requests(ds[1..])
  }

  function Tokens(evs: seq<Event>, ds: seq<bool>): nat
    requires |evs| == |ds|
  {
    if evs == [] then 0
    else
      (if ds[0] && evs[0].TryAcquire? then evs[0].tokens else 0) + Tokens(evs[1..], ds[1..])
  }

  // ------------------------------------------------------------ arbitrary clocks

  /** The milliseconds by which the clock moved forward between acquires. */
  function Forward(lastMs: Option<int>, evs: seq<Event>): nat
    decreases |evs|
  {
    if evs == [] then 0
    else if evs[0].TryAcquire? then Elapsed(lastMs, evs[0].atMs) + Forward(Some(evs[0].atMs), evs[1..])
    else Forward(lastMs, evs[1..])
  }

  function Level(level: Option<int>, cap: Positive): int {
    Min(cap * UNIT, level.GetOr(cap * UNIT))
  }

  lemma RefillSpends(level: Option<int>, cap: Positive, elapsed: nat)
    requires level.Some? ==> 0 <= level.value
    ensures 0 <= Level(level, cap) <= Refill(level, cap, elapsed) <= Level(level, cap) + elapsed * cap
    ensures Refill(level, cap, elapsed) <= cap * UNIT
  {
    assert 0 <= elapsed * cap && 0 <= cap * UNIT;
  }

  lemma AcquireSpends(e: Entry, nowMs: int, tokens: nat, limit: RateLimit)
    requires WellFormed(e)
    ensures
      var a := Acquire(e, nowMs, limit, tokens);
      var ms := Elapsed(e.lastMs, nowMs);
      && WellFormed(a.entry)
      && (if a.granted then UNIT else 0) + Level(a.entry.rpm, limit.rpm) <= Level(e.rpm, limit.rpm) + ms * limit.rpm
      && (if a.granted then tokens * UNIT else 0) + Level(a.entry.tpm, limit.tpm)
           <= Level(e.tpm, limit.tpm) + ms * limit.tpm
  {
    RefillSpends(e.rpm, limit.rpm, Elapsed(e.lastMs, nowMs));
    RefillSpends(e.tpm, limit.tpm, Elapsed(e.lastMs, nowMs));
    AcquireKeepsLevels(e, nowMs, limit, tokens);
  }

  lemma ClampSpends(e: Entry, rpm: nat, tpm: nat, limit: RateLimit)
    requires WellFormed(e)
    ensures
      var c := Clamp(e, rpm, tpm);
      && WellFormed(c)
      && Level(c.rpm, limit.rpm) <= Level(e.rpm, limit.rpm)
      && Level(c.tpm, limit.tpm) <= Level(e.tpm, limit.tpm)
  {
  }

  lemma StepSpends(e: Entry, ev: Event, limit: RateLimit)
    requires WellFormed(e)
    ensures
      var s := Step(e, ev, limit, false);
      var ms := if ev.TryAcquire? then Elapsed(e.lastMs, ev.atMs) else 0;
      && WellFormed(s.entry)
      && (if s.granted then UNIT else 0) + Level(s.entry.rpm, limit.rpm) <= Level(e.rpm, limit.rpm) + ms * limit.rpm
      && (if s.granted then ev.tokens * UNIT else 0) + Level(s.entry.tpm, limit.tpm)
           <= Level(e.tpm, limit.tpm) + ms * limit.tpm
  {
    match ev {
      case TryAcquire(now, tokens) => AcquireSpends(e, now, tokens, limit);
      case Observe(_, rpm, tpm) => ClampSpends(e, rpm, tpm, limit);
    }
  }

  /** Whatever the clock does, what is granted and what is left never exceed the
      level at the start plus the refill for the clock's forward moves. */
  lemma {:induction false} RunSpends(e: Entry, evs: seq<Event>, limit: RateLimit)
    requires WellFormed(e)
    ensures
      var f := Final(e, evs, limit, false);
      var ds := Decisions(e, evs, limit, false);
      var ms := Forward(e.lastMs, evs);
      && WellFormed(f)
      && Requests(ds) * UNIT + Level(f.rpm, limit.rpm) <= Level(e.rpm, limit.rpm) + ms * limit.rpm
      && Tokens(evs, ds) * UNIT + Level(f.tpm, limit.tpm) <= Level(e.tpm, limit.tpm) + ms * limit.tpm
    decreases |evs|
  {
    if evs != [] {
      var s := Step(e, evs[0], limit, false);
      var rest := evs[1..];
      StepSpends(e, evs[0], limit);
      RunSpends(s.entry, rest, limit);
      var ds := Decisions(e, evs, limit, false);
      assert ds[1..] == Decisions(s.entry, rest, limit, false);
      var ms0 := if evs[0].TryAcquire? then Elapsed(e.lastMs, evs[0].atMs) else 0;
      var ms1 := Forward(s.entry.lastMs, rest);
      assert Forward(e.lastMs, evs) == ms0 + ms1;
      TimesSum(ms0, ms1, limit.rpm);
      TimesSum(ms0, ms1, limit.tpm);
    }
  }

  lemma TimesSum(m: nat, n: nat, cap: Positive)
    ensures (m + n) * cap == m * cap + n * cap
  {
  }

  /** From a fresh key, with arbitrary (even backward) clock readings and no
      expiry: total grants in each dimension are at most the cap plus the
      refill over the forward clock movement. */
  lemma {:induction false} GrantsBounded(evs: seq<Event>, limit: RateLimit)
    ensures
      var ds := Decisions(ABSENT, evs, limit, false);
      var ms := Forward(None, evs);
      && Requests(ds) * UNIT <= limit.rpm * UNIT + ms * limit.rpm
      && Tokens(evs, ds) * UNIT <= limit.tpm * UNIT + ms * limit.tpm
  {
    RunSpends(ABSENT, evs, limit);
    var f := Final(ABSENT, evs, limit, false);
    assert 0 <= limit.rpm * UNIT && 0 <= limit.tpm * UNIT;
  }

  // ------------------------------------------------------------ lazy = eager

  /** The plain bucket: every millisecond each level grows by its limit, up to the cap. */
  datatype Eager = Eager(rpm: int, tpm: int)

  function Tick(b: Eager, limit: RateLimit): Eager {
    Eager(Min(limit.rpm * UNIT, b.rpm + limit.rpm), Min(limit.tpm * UNIT, b.tpm + limit.tpm))
  }

  function Ticks(b: Eager, n: nat, limit: RateLimit): Eager
    decreases n
  {
    if n == 0 then b else Ticks(Tick(b, limit), n - 1, limit)
  }

  predicate Affords(b: Eager, tokens: nat) {
    UNIT <= b.rpm && tokens * UNIT <= b.tpm
  }

  function Charge(b: Eager, tokens: nat): Eager {
    if Affords(b, tokens) then Eager(b.rpm - UNIT, b.tpm - tokens * UNIT) else b
  }

  predicate Acquires(evs: seq<Event>) {
    forall i :: 0 <= i < |evs| ==> evs[i].TryAcquire?
  }

  predicate Forwards(fromMs: int, evs: seq<Event>) {
    && (forall i :: 0 <= i < |evs| ==> fromMs <= evs[i].atMs)
    && (forall i, j :: 0 <= i < j < |evs| ==> evs[i].atMs <= evs[j].atMs)
  }

  function End(clock: int, evs: seq<Event>): int {
    if evs == [] then clock else evs[|evs| - 1].atMs
  }

  /** A clamp of the plain bucket: no level stays above the observation. */
  function Lower(b: Eager, rpm: nat, tpm: nat): Eager {
    Eager(Min(rpm * UNIT, b.rpm), Min(tpm * UNIT, b.tpm))
  }

  function EagerStep(b: Eager, ev: Event): Eager {
    match ev
    case TryAcquire(_, tokens) => Charge(b, tokens)
    case Observe(_, rpm, tpm) => Lower(b, rpm, tpm)
  }

  function EagerDecisions(b: Eager, clock: int, evs: seq<Event>, limit: RateLimit): seq<bool>
    requires Forwards(clock, evs)
    decreases |evs|
  {
    if evs == [] then []
    else
      var now := Ticks(b, evs[0].atMs - clock, limit);
      [evs[0].TryAcquire? && Affords(now, evs[0].tokens)]
      + EagerDecisions(EagerStep(now, evs[0]), evs[0].atMs, evs[1..], limit)
  }

  function EagerFinal(b: Eager, clock: int, evs: seq<Event>, limit: RateLimit): Eager
    requires Forwards(clock, evs)
    decreases |evs|
  {
    if evs == [] then b
    else EagerFinal(EagerStep(Ticks(b, evs[0].atMs - clock, limit), evs[0]), evs[0].atMs, evs[1..], limit)
  }

  /** The eager levels that a stored entry stands for, once brought to `nowMs`. */
  function Levels(e: Entry, nowMs: int, limit: RateLimit): Eager {
    var elapsed := Elapsed(e.lastMs, nowMs);
    Eager(Refill(e.rpm, limit.rpm, elapsed), Refill(e.tpm, limit.tpm, elapsed))
  }

  /** The stored levels, if any, are at least the cap. */
  predicate Full(e: Entry, limit: RateLimit) {
    limit.rpm * UNIT <= e.rpm.GetOr(limit.rpm * UNIT) && limit.tpm * UNIT <= e.tpm.GetOr(limit.tpm * UNIT)
  }

  lemma {:induction false} TicksAreRefill(b: Eager, n: nat, limit: RateLimit)
    requires b.rpm <= limit.rpm * UNIT && b.tpm <= limit.tpm * UNIT
    ensures Ticks(b, n, limit) == Eager(Refill(Some(b.rpm), limit.rpm, n), Refill(Some(b.tpm), limit.tpm, n))
    decreases n
  {
    if n != 0 {
      TicksAreRefill(Tick(b, limit), n - 1, limit);
      assert n * limit.rpm == limit.rpm + (n - 1) * limit.rpm;
      assert n * limit.tpm == limit.tpm + (n - 1) * limit.tpm;
    }
  }

  lemma RefillCompose(level: Option<int>, cap: Positive, m: nat, n: nat)
    ensures Refill(Some(Refill(level, cap, m)), cap, n) == Refill(level, cap, m + n)
  {
    assert (m + n) * cap == m * cap + n * cap;
    assert 0 <= n * cap;
  }

  lemma RefillFull(level: Option<int>, cap: Positive, n: nat)
    requires cap * UNIT <= level.GetOr(cap * UNIT)
    ensures Refill(level, cap, n) == cap * UNIT
  {
    assert 0 <= n * cap;
  }

  /** A minute without an acquire refills any level. */
  lemma IdleRefills(level: Option<int>, cap: Positive, idle: nat)
    requires UNIT <= idle && (level.Some? ==> 0 <= level.value)
    ensures Refill(level, cap, idle) == cap * UNIT
  {
    assert UNIT * cap <= idle * cap;
  }

  /** Bringing a level forward in two stages or in one gives the same level. */
  lemma {:induction false} LevelsCompose(e: Entry, midMs: int, nowMs: int, limit: RateLimit)
    requires e.lastMs.Some? ==> e.lastMs.value <= midMs
    requires midMs <= nowMs
    requires e.lastMs.None? ==> Full(e, limit)
    ensures Ticks(Levels(e, midMs, limit), nowMs - midMs, limit) == Levels(e, nowMs, limit)
  {
    var b, n := Levels(e, midMs, limit), nowMs - midMs;
    TicksAreRefill(b, n, limit);
    if e.lastMs.Some? {
      var m := Elapsed(e.lastMs, midMs);
      assert Elapsed(e.lastMs, nowMs) == m + n;
      RefillCompose(e.rpm, limit.rpm, m, n);
      RefillCompose(e.tpm, limit.tpm, m, n);
    } else {
      RefillFull(e.rpm, limit.rpm, 0);
      RefillFull(e.tpm, limit.tpm, 0);
      RefillFull(Some(limit.rpm * UNIT), limit.rpm, n);
      RefillFull(Some(limit.tpm * UNIT), limit.tpm, n);
    }
  }

  lemma LevelsAfterAcquire(e: Entry, nowMs: int, limit: RateLimit, tokens: nat)
    requires NotNegative(e)
    ensures Levels(Acquire(e, nowMs, limit, tokens).entry, nowMs, limit) == Charge(Levels(e, nowMs, limit), tokens)
    ensures Acquire(e, nowMs, limit, tokens).granted == Affords(Levels(e, nowMs, limit), tokens)
  {
    AcquireKeepsLevels(e, nowMs, limit, tokens);
  }

  /** A reading of zero tokens leaves the levels alone if and only if less than one
      request is left; otherwise it spends exactly one. */
  lemma ReadingSpendsIff(e: Entry, nowMs: int, limit: RateLimit)
    requires NotNegative(e)
    ensures
      var before := Levels(e, nowMs, limit);
      var after := Levels(Acquire(e, nowMs, limit, 0).entry, nowMs, limit);
      && (after == before <==> before.rpm < UNIT)
      && (UNIT <= before.rpm ==> after == before.(rpm := before.rpm - UNIT))
  {
    LevelsAfterAcquire(e, nowMs, limit, 0);
    RefillNotNegative(e.tpm, limit.tpm, Elapsed(e.lastMs, nowMs));
  }

  lemma RefillNotNegative(level: Option<int>, cap: Positive, elapsed: nat)
    requires level.Some? ==> 0 <= level.value
    ensures 0 <= Refill(level, cap, elapsed)
  {
    assert 0 <= elapsed * cap;
  }

  /** The stored entry stands for the plain bucket, and knows when it was refilled or is full. */
  predicate Mirrors(e: Entry, b: Eager, clock: int, limit: RateLimit) {
    && WellFormed(e)
    && b == Levels(e, clock, limit)
    && (e.lastMs.Some? ==> e.lastMs.value <= clock)
    && (e.lastMs.None? ==> Full(e, limit))
  }

  /** The guard of a clamp: the key was refilled this very millisecond, or the
      observation is not below what the refilled level would be. */
  predicate RefilledGuard(e: Entry, atMs: int, rpm: nat, tpm: nat, limit: RateLimit) {
    e.lastMs == Some(atMs) ||
    (Levels(e, atMs, limit).rpm <= rpm * UNIT && Levels(e, atMs, limit).tpm <= tpm * UNIT)
  }

  /** Every clamp of the run passed its guard. */
  predicate Refilled(e: Entry, evs: seq<Event>, limit: RateLimit)
    decreases |evs|
  {
    evs != [] ==>
      && (evs[0].Observe? ==> RefilledGuard(e, evs[0].atMs, evs[0].rpm, evs[0].tpm, limit))
      && Refilled(Step(e, evs[0], limit, false).entry, evs[1..], limit)
  }

  lemma MirrorsLater(e: Entry, b: Eager, clock: int, laterMs: int, limit: RateLimit)
    requires Mirrors(e, b, clock, limit) && clock <= laterMs
    ensures Mirrors(e, Ticks(b, laterMs - clock, limit), laterMs, limit)
  {
    LevelsCompose(e, clock, laterMs, limit);
  }

  lemma MirrorsAcquire(e: Entry, b: Eager, nowMs: int, tokens: nat, limit: RateLimit)
    requires Mirrors(e, b, nowMs, limit)
    ensures Mirrors(Acquire(e, nowMs, limit, tokens).entry, Charge(b, tokens), nowMs, limit)
    ensures Acquire(e, nowMs, limit, tokens).granted == Affords(b, tokens)
  {
    LevelsAfterAcquire(e, nowMs, limit, tokens);
    AcquireKeepsLevels(e, nowMs, limit, tokens);
  }

  /** One dimension: clamping the stored or the refilled level comes to the same
      exactly when no time has passed or the observation is not below the refilled level. */
  lemma ClampThenRefill(level: int, cap: Positive, elapsed: nat, observed: int)
    requires 0 <= level && 0 <= observed
    ensures
      var refilled := Refill(Some(level), cap, elapsed);
      Refill(Some(Min(observed, level)), cap, elapsed) == Min(observed, refilled) <==>
        elapsed == 0 || refilled <= observed
  {
    if elapsed != 0 {
      assert cap <= elapsed * cap;
    }
  }

  lemma MirrorsClamp(e: Entry, b: Eager, atMs: int, rpm: nat, tpm: nat, limit: RateLimit)
    requires Mirrors(e, b, atMs, limit) && RefilledGuard(e, atMs, rpm, tpm, limit)
    ensures Mirrors(Clamp(e, rpm, tpm), Lower(b, rpm, tpm), atMs, limit)
  {
    var elapsed := Elapsed(e.lastMs, atMs);
    ClampThenRefill(e.rpm.GetOr(rpm * UNIT), limit.rpm, elapsed, rpm * UNIT);
    ClampThenRefill(e.tpm.GetOr(tpm * UNIT), limit.tpm, elapsed, tpm * UNIT);
  }

  /** Lazy refill refines the bucket that refills every millisecond: on every run
      with a non-decreasing clock whose clamps pass the guard, the decisions are
      the same and the stored key still stands for the plain levels. */
  lemma {:induction false} LazyIsEager(e: Entry, b: Eager, clock: int, evs: seq<Event>, limit: RateLimit)
    requires Mirrors(e, b, clock, limit) && Forwards(clock, evs) && Refilled(e, evs, limit)
    ensures Decisions(e, evs, limit, false) == EagerDecisions(b, clock, evs, limit)
    ensures Mirrors(Final(e, evs, limit, false), EagerFinal(b, clock, evs, limit), End(clock, evs), limit)
    decreases |evs|
  {
    if evs != [] {
      var at := evs[0].atMs;
      var now := Ticks(b, at - clock, limit);
      MirrorsLater(e, b, clock, at, limit);
      match evs[0] {
        case TryAcquire(_, tokens) => MirrorsAcquire(e, now, at, tokens, limit);
        case Observe(_, rpm, tpm) => MirrorsClamp(e, now, at, rpm, tpm, limit);
      }
      LazyIsEager(Step(e, evs[0], limit, false).entry, EagerStep(now, evs[0]), at, evs[1..], limit);
    }
  }

  /** After any guarded run from a fresh key, one more clamp keeps the lazy bucket
      equal to the plain one from then on if and only if it passes the guard. */
  lemma {:induction false} RefilledGuardIsExact(
    clock: int, evs: seq<Event>, atMs: int, rpm: nat, tpm: nat, limit: RateLimit)
    requires Forwards(clock, evs) && Refilled(ABSENT, evs, limit) && End(clock, evs) <= atMs
    ensures
      var e := Final(ABSENT, evs, limit, false);
      var b := Ticks(EagerFinal(Levels(ABSENT, clock, limit), clock, evs, limit), atMs - End(clock, evs), limit);
      && b == Levels(e, atMs, limit)
      && ((forall t :: atMs <= t ==>
             Levels(Clamp(e, rpm, tpm), t, limit) == Ticks(Lower(b, rpm, tpm), t - atMs, limit)) <==>
          RefilledGuard(e, atMs, rpm, tpm, limit))
  {
    var start := Levels(ABSENT, clock, limit);
    LazyIsEager(ABSENT, start, clock, evs, limit);
    var e := Final(ABSENT, evs, limit, false);
    MirrorsLater(e, EagerFinal(start, clock, evs, limit), End(clock, evs), atMs, limit);
    var b := Levels(e, atMs, limit);
    if RefilledGuard(e, atMs, rpm, tpm, limit) {
      MirrorsClamp(e, b, atMs, rpm, tpm, limit);
      forall t | atMs <= t
        ensures Levels(Clamp(e, rpm, tpm), t, limit) == Ticks(Lower(b, rpm, tpm), t - atMs, limit)
      {
        MirrorsLater(Clamp(e, rpm, tpm), Lower(b, rpm, tpm), atMs, t, limit);
      }
    } else {
      UnrefilledClampShows(e, b, atMs, rpm, tpm, limit);
    }
  }

  lemma {:induction false} UnrefilledClampShows(e: Entry, b: Eager, atMs: int, rpm: nat, tpm: nat, limit: RateLimit)
    requires Mirrors(e, b, atMs, limit) && !RefilledGuard(e, atMs, rpm, tpm, limit)
    ensures exists t :: atMs <= t && Levels(Clamp(e, rpm, tpm), t, limit) != Ticks(Lower(b, rpm, tpm), t - atMs, limit)
  {
    var c, low := Clamp(e, rpm, tpm), Lower(b, rpm, tpm);
    if e.lastMs.Some? {
      ClampThenRefill(e.rpm.value, limit.rpm, Elapsed(e.lastMs, atMs), rpm * UNIT);
      ClampThenRefill(e.tpm.value, limit.tpm, Elapsed(e.lastMs, atMs), tpm * UNIT);
      assert Ticks(low, atMs - atMs, limit) == low;
      assert Levels(c, atMs, limit) != low;
    } else {
      assert Levels(c, atMs + 1, limit) == low;
      assert Ticks(low, 1, limit) == Ticks(Tick(low, limit), 0, limit) == Tick(low, limit);
      assert Ticks(low, atMs + 1 - atMs, limit) != low;
    }
  }
}
