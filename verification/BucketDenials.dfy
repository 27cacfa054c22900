/** What a denied acquire leaves behind. It writes its refill back, so a run that
    never made it keeps an older refill time and a lower stored level. Acquires
    cannot tell the two apart; a clamp can, because it cuts the stored level. */
module BucketDenials {
  import opened Common
  import opened TokenBucket
  import opened BucketRuns

  /** No acquire from `clock` on can tell the two keys apart, whenever it comes. */
  ghost predicate SameFrom(u: Entry, s: Entry, clock: int, limit: RateLimit) {
    forall t :: clock <= t ==> Levels(u, t, limit) == Levels(s, t, limit)
  }

  /** `s` is `u` without the refills that denied acquires wrote back. */
  predicate Trails(u: Entry, s: Entry, clock: int, limit: RateLimit) {
    && WellFormed(u) && WellFormed(s)
    && Levels(u, clock, limit) == Levels(s, clock, limit)
    && (u.lastMs.Some? ==> u.lastMs.value <= clock)
    && (s.lastMs.Some? ==> u.lastMs.Some? && s.lastMs.value <= u.lastMs.value)
    && (s.lastMs.None? ==> u == s || (u.lastMs.Some? && Full(s, limit)))
  }

  lemma TrailsLater(u: Entry, s: Entry, clock: int, laterMs: int, limit: RateLimit)
    requires Trails(u, s, clock, limit) && clock <= laterMs
    ensures Trails(u, s, laterMs, limit)
  {
    if u != s {
      LevelsCompose(u, clock, laterMs, limit);
      LevelsCompose(s, clock, laterMs, limit);
    }
  }

  lemma TrailsAreSame(u: Entry, s: Entry, clock: int, limit: RateLimit)
    requires Trails(u, s, clock, limit)
    ensures SameFrom(u, s, clock, limit)
  {
    forall t | clock <= t
      ensures Levels(u, t, limit) == Levels(s, t, limit)
    {
      TrailsLater(u, s, clock, t, limit);
    }
  }

  // ------------------------------------------------------------ one acquire

  lemma GrantedAlike(u: Entry, s: Entry, nowMs: int, tokens: nat, limit: RateLimit)
    requires Trails(u, s, nowMs, limit)
    ensures Acquire(u, nowMs, limit, tokens) == Acquire(s, nowMs, limit, tokens)
    ensures Trails(Acquire(u, nowMs, limit, tokens).entry, Acquire(s, nowMs, limit, tokens).entry, nowMs, limit)
  {
    AcquireKeepsLevels(u, nowMs, limit, tokens);
    assert Acquire(u, nowMs, limit, tokens) == Acquire(s, nowMs, limit, tokens) by {
      assert Levels(u, nowMs, limit).rpm == Levels(s, nowMs, limit).rpm;
      assert Levels(u, nowMs, limit).tpm == Levels(s, nowMs, limit).tpm;
    }
  }

  /** The guard of a denied acquire: the key already has a refill time, or is full. */
  predicate DeniedGuard(u: Entry, limit: RateLimit) {
    u.lastMs.Some? || Full(u, limit)
  }

  lemma DeniedTrails(u: Entry, s: Entry, nowMs: int, tokens: nat, limit: RateLimit)
    requires Trails(u, s, nowMs, limit) && DeniedGuard(u, limit)
    requires !Acquire(u, nowMs, limit, tokens).granted
    ensures Trails(Acquire(u, nowMs, limit, tokens).entry, s, nowMs, limit)
  {
    AcquireKeepsLevels(u, nowMs, limit, tokens);
    LevelsAfterAcquire(u, nowMs, limit, tokens);
  }

  lemma UnguardedDeniedShows(u: Entry, nowMs: int, tokens: nat, limit: RateLimit)
    requires WellFormed(u) && !DeniedGuard(u, limit) && !Acquire(u, nowMs, limit, tokens).granted
    ensures !SameFrom(Acquire(u, nowMs, limit, tokens).entry, u, nowMs, limit)
  {
    AcquireKeepsLevels(u, nowMs, limit, tokens);
    var a := Acquire(u, nowMs, limit, tokens).entry;
    assert Levels(a, nowMs + UNIT, limit) == Eager(limit.rpm * UNIT, limit.tpm * UNIT) by {
      IdleRefills(a.rpm, limit.rpm, UNIT);
      IdleRefills(a.tpm, limit.tpm, UNIT);
    }
    assert Levels(u, nowMs + UNIT, limit) != Eager(limit.rpm * UNIT, limit.tpm * UNIT);
  }

  // ------------------------------------------------------------ one clamp

  /** The guard of a clamp in one dimension: nothing was denied since the stored
      refill time, or the observation is not below the stored level, or the bucket
      would be full again by now even from the observation. On a key that has no
      refill time without the denied acquires, the observation must not be below the limit. */
  predicate DimensionGuard(
    level: Option<int>, lastMs: Option<int>, staleMs: Option<int>, atMs: int, observed: int, cap: Positive)
    requires staleMs.Some? ==> lastMs.Some?
  {
    || lastMs == staleMs
    || (if staleMs.None? then cap * UNIT <= observed
        else level.GetOr(observed) <= observed || cap * UNIT <= observed + (atMs - lastMs.value) * cap)
  }

  predicate TraceGuard(u: Entry, s: Entry, atMs: int, rpm: nat, tpm: nat, limit: RateLimit)
    requires s.lastMs.Some? ==> u.lastMs.Some?
  {
    && DimensionGuard(u.rpm, u.lastMs, s.lastMs, atMs, rpm * UNIT, limit.rpm)
    && DimensionGuard(u.tpm, u.lastMs, s.lastMs, atMs, tpm * UNIT, limit.tpm)
  }

  /** One dimension of a clamp on two keys that stand for the same level, refilled
      by `a` and by `b` since their refill times. */
  lemma ClampBoth(u: int, s: int, a: int, b: int, observed: int, full: int)
    requires 0 <= a <= b && Min(full, u + a) == Min(full, s + b)
    ensures Min(full, Min(observed, u) + a) == Min(full, Min(observed, s) + b) <==>
      a == b || u <= observed || full <= observed + a
  {
  }

  lemma OrderedProducts(m: nat, n: nat, cap: Positive)
    requires m <= n
    ensures 0 <= m * cap <= n * cap && (m * cap == n * cap <==> m == n)
  {
    var k := n - m;
    assert (m + k) * cap == m * cap + k * cap;
    TimesPositive(m, cap);
    TimesPositive(k, cap);
  }

  lemma TimesPositive(k: nat, cap: Positive)
    ensures k <= k * cap
  {
    assert k * cap == k + k * (cap - 1);
    assert 0 <= k * (cap - 1);
  }

  lemma DimensionIsExact(u: int, s: int, uMs: int, sMs: int, atMs: int, observed: int, cap: Positive)
    requires sMs <= uMs <= atMs
    requires Refill(Some(u), cap, atMs - uMs) == Refill(Some(s), cap, atMs - sMs)
    ensures Refill(Some(Min(observed, u)), cap, atMs - uMs) == Refill(Some(Min(observed, s)), cap, atMs - sMs) <==>
      DimensionGuard(Some(u), Some(uMs), Some(sMs), atMs, observed, cap)
  {
    OrderedProducts(atMs - uMs, atMs - sMs, cap);
    ClampBoth(u, s, (atMs - uMs) * cap, (atMs - sMs) * cap, observed, cap * UNIT);
  }

  lemma ClampWithTimes(u: Entry, s: Entry, atMs: int, rpm: nat, tpm: nat, limit: RateLimit)
    requires Trails(u, s, atMs, limit) && s.lastMs.Some?
    ensures Levels(Clamp(u, rpm, tpm), atMs, limit) == Levels(Clamp(s, rpm, tpm), atMs, limit) <==>
      TraceGuard(u, s, atMs, rpm, tpm, limit)
  {
    DimensionIsExact(u.rpm.value, s.rpm.value, u.lastMs.value, s.lastMs.value, atMs, rpm * UNIT, limit.rpm);
    DimensionIsExact(u.tpm.value, s.tpm.value, u.lastMs.value, s.lastMs.value, atMs, tpm * UNIT, limit.tpm);
  }

  lemma GuardedClampTrails(u: Entry, s: Entry, atMs: int, rpm: nat, tpm: nat, limit: RateLimit)
    requires Trails(u, s, atMs, limit) && TraceGuard(u, s, atMs, rpm, tpm, limit)
    ensures Trails(Clamp(u, rpm, tpm), Clamp(s, rpm, tpm), atMs, limit)
  {
    if s.lastMs.Some? {
      ClampWithTimes(u, s, atMs, rpm, tpm, limit);
    } else if u != s {
      FullThroughClamp(u.rpm.value, limit.rpm, Elapsed(u.lastMs, atMs), rpm * UNIT);
      FullThroughClamp(u.tpm.value, limit.tpm, Elapsed(u.lastMs, atMs), tpm * UNIT);
    }
  }

  lemma FullThroughClamp(level: int, cap: Positive, elapsed: nat, observed: int)
    requires cap * UNIT <= observed && Refill(Some(level), cap, elapsed) == cap * UNIT
    ensures Refill(Some(Min(observed, level)), cap, elapsed) == cap * UNIT
  {
    assert 0 <= elapsed * cap;
  }

  lemma UnguardedClampShows(u: Entry, s: Entry, atMs: int, rpm: nat, tpm: nat, limit: RateLimit)
    requires Trails(u, s, atMs, limit) && !TraceGuard(u, s, atMs, rpm, tpm, limit)
    ensures !SameFrom(Clamp(u, rpm, tpm), Clamp(s, rpm, tpm), atMs, limit)
  {
    var u', s' := Clamp(u, rpm, tpm), Clamp(s, rpm, tpm);
    if s.lastMs.Some? {
      ClampWithTimes(u, s, atMs, rpm, tpm, limit);
    } else {
      var t := u.lastMs.value + UNIT;
      var later := if t < atMs then atMs else t;
      IdleRefills(u'.rpm, limit.rpm, Elapsed(u'.lastMs, later));
      IdleRefills(u'.tpm, limit.tpm, Elapsed(u'.lastMs, later));
      assert Levels(u', later, limit) == Eager(limit.rpm * UNIT, limit.tpm * UNIT);
      assert Levels(s', later, limit) != Eager(limit.rpm * UNIT, limit.tpm * UNIT);
    }
  }

  // ------------------------------------------------------------ whole runs

  /** The run without its denied acquires. */
  function Kept(evs: seq<Event>, ds: seq<bool>): seq<Event>
    requires |evs| == |ds|
  {
    if evs == [] then []
    else (if ds[0] || evs[0].Observe? then [evs[0]] else []) + Kept(evs[1..], ds[1..])
  }

  /** Every denied acquire and every clamp of the run passed its guard. */
  predicate Spared(u: Entry, s: Entry, evs: seq<Event>, limit: RateLimit)
    requires s.lastMs.Some? ==> u.lastMs.Some?
    decreases |evs|
  {
    evs != [] ==>
      var u' := Step(u, evs[0], limit, false);
      var s' := Step(s, evs[0], limit, false).entry;
      if evs[0].Observe? then
        && TraceGuard(u, s, evs[0].atMs, evs[0].rpm, evs[0].tpm, limit)
        && Spared(u'.entry, s', evs[1..], limit)
      else if u'.granted then Spared(u'.entry, s', evs[1..], limit)
      else DeniedGuard(u, limit) && Spared(u'.entry, s, evs[1..], limit)
  }

  /** What a run and the same run without its denied acquires have in common at the end. */
  ghost predicate Invisible(u: Entry, s: Entry, clock: int, evs: seq<Event>, limit: RateLimit) {
    var kept := Kept(evs, Decisions(u, evs, limit, false));
    && (forall i :: 0 <= i < |kept| && kept[i].TryAcquire? ==> Decisions(s, kept, limit, false)[i])
    && Trails(Final(u, evs, limit, false), Final(s, kept, limit, false), End(clock, evs), limit)
  }

  lemma KeepFirst(u: Entry, s: Entry, clock: int, evs: seq<Event>, limit: RateLimit)
    requires evs != []
    requires evs[0].Observe? || (Step(u, evs[0], limit, false).granted && Step(s, evs[0], limit, false).granted)
    requires Invisible(
      Step(u, evs[0], limit, false).entry, Step(s, evs[0], limit, false).entry, evs[0].atMs, evs[1..], limit)
    ensures Invisible(u, s, clock, evs, limit)
  {
    var ds := Decisions(u, evs, limit, false);
    assert ds[1..] == Decisions(Step(u, evs[0], limit, false).entry, evs[1..], limit, false);
    var kept, rest := Kept(evs, ds), Kept(evs[1..], ds[1..]);
    assert kept == [evs[0]] + rest && kept[1..] == rest;
  }

  lemma DropFirst(u: Entry, s: Entry, clock: int, evs: seq<Event>, limit: RateLimit)
    requires evs != [] && evs[0].TryAcquire? && !Step(u, evs[0], limit, false).granted
    requires Invisible(Step(u, evs[0], limit, false).entry, s, evs[0].atMs, evs[1..], limit)
    ensures Invisible(u, s, clock, evs, limit)
  {
    var ds := Decisions(u, evs, limit, false);
    assert ds[1..] == Decisions(Step(u, evs[0], limit, false).entry, evs[1..], limit, false);
    assert Kept(evs, ds) == Kept(evs[1..], ds[1..]);
  }

  lemma {:induction false} TrailsRun(u: Entry, s: Entry, clock: int, evs: seq<Event>, limit: RateLimit)
    requires Trails(u, s, clock, limit) && Forwards(clock, evs) && Spared(u, s, evs, limit)
    ensures Invisible(u, s, clock, evs, limit)
    decreases |evs|
  {
    if evs != [] {
      var at := evs[0].atMs;
      TrailsLater(u, s, clock, at, limit);
      var u', s' := Step(u, evs[0], limit, false), Step(s, evs[0], limit, false).entry;
      match evs[0] {
        case Observe(_, rpm, tpm) =>
          GuardedClampTrails(u, s, at, rpm, tpm, limit);
          TrailsRun(u'.entry, s', at, evs[1..], limit);
          KeepFirst(u, s, clock, evs, limit);
        case TryAcquire(_, tokens) =>
          GrantedAlike(u, s, at, tokens, limit);
          if u'.granted {
            TrailsRun(u'.entry, s', at, evs[1..], limit);
            KeepFirst(u, s, clock, evs, limit);
          } else {
            DeniedTrails(u, s, at, tokens, limit);
            TrailsRun(u'.entry, s, at, evs[1..], limit);
            DropFirst(u, s, clock, evs, limit);
          }
      }
    }
  }

  /** Deleting all denied acquires from a guarded run, clamps included, leaves every
      other acquire granted and every later level unchanged. */
  lemma {:induction false} DeniedAreInvisible(clock: int, evs: seq<Event>, limit: RateLimit)
    requires Forwards(clock, evs) && Spared(ABSENT, ABSENT, evs, limit)
    ensures
      var kept := Kept(evs, Decisions(ABSENT, evs, limit, false));
      && (forall i :: 0 <= i < |kept| && kept[i].TryAcquire? ==> Decisions(ABSENT, kept, limit, false)[i])
      && SameFrom(Final(ABSENT, evs, limit, false), Final(ABSENT, kept, limit, false), End(clock, evs), limit)
  {
    TrailsRun(ABSENT, ABSENT, clock, evs, limit);
    var kept := Kept(evs, Decisions(ABSENT, evs, limit, false));
    TrailsAreSame(Final(ABSENT, evs, limit, false), Final(ABSENT, kept, limit, false), End(clock, evs), limit);
  }

  /** A run without clamps passes every guard. */
  lemma {:induction false} AcquiresAreSpared(u: Entry, s: Entry, evs: seq<Event>, limit: RateLimit)
    requires Acquires(evs) && DeniedGuard(u, limit) && (s.lastMs.Some? ==> u.lastMs.Some?)
    ensures Spared(u, s, evs, limit)
    decreases |evs|
  {
    if evs != [] {
      var u', s' := Step(u, evs[0], limit, false), Step(s, evs[0], limit, false).entry;
      AcquiresAreSpared(u'.entry, if u'.granted then s' else s, evs[1..], limit);
    }
  }

  /** After any guarded run, one more denied acquire, or one more clamp, leaves the
      deletion invisible if and only if it passes its guard. */
  lemma {:induction false} DeniedGuardsAreExact(
    clock: int, evs: seq<Event>, atMs: int, tokens: nat, rpm: nat, tpm: nat, limit: RateLimit)
    requires Forwards(clock, evs) && Spared(ABSENT, ABSENT, evs, limit) && End(clock, evs) <= atMs
    ensures
      var u := Final(ABSENT, evs, limit, false);
      var s := Final(ABSENT, Kept(evs, Decisions(ABSENT, evs, limit, false)), limit, false);
      && (s.lastMs.Some? ==> u.lastMs.Some?)
      && (SameFrom(Clamp(u, rpm, tpm), Clamp(s, rpm, tpm), atMs, limit) <==> TraceGuard(u, s, atMs, rpm, tpm, limit))
      && (!Acquire(u, atMs, limit, tokens).granted ==>
            (SameFrom(Acquire(u, atMs, limit, tokens).entry, s, atMs, limit) <==> DeniedGuard(u, limit)))
  {
    TrailsRun(ABSENT, ABSENT, clock, evs, limit);
    var u := Final(ABSENT, evs, limit, false);
    var s := Final(ABSENT, Kept(evs, Decisions(ABSENT, evs, limit, false)), limit, false);
    TrailsLater(u, s, End(clock, evs), atMs, limit);
    ClampGuardIsExact(u, s, atMs, rpm, tpm, limit);
    if !Acquire(u, atMs, limit, tokens).granted {
      DeniedGuardIsExact(u, s, atMs, tokens, limit);
    }
  }

  lemma ClampGuardIsExact(u: Entry, s: Entry, atMs: int, rpm: nat, tpm: nat, limit: RateLimit)
    requires Trails(u, s, atMs, limit)
    ensures SameFrom(Clamp(u, rpm, tpm), Clamp(s, rpm, tpm), atMs, limit) <==> TraceGuard(u, s, atMs, rpm, tpm, limit)
  {
    if TraceGuard(u, s, atMs, rpm, tpm, limit) {
      GuardedClampTrails(u, s, atMs, rpm, tpm, limit);
      TrailsAreSame(Clamp(u, rpm, tpm), Clamp(s, rpm, tpm), atMs, limit);
    } else {
      UnguardedClampShows(u, s, atMs, rpm, tpm, limit);
    }
  }

  lemma DeniedGuardIsExact(u: Entry, s: Entry, atMs: int, tokens: nat, limit: RateLimit)
    requires Trails(u, s, atMs, limit) && !Acquire(u, atMs, limit, tokens).granted
    ensures SameFrom(Acquire(u, atMs, limit, tokens).entry, s, atMs, limit) <==> DeniedGuard(u, limit)
  {
    if DeniedGuard(u, limit) {
      DeniedTrails(u, s, atMs, tokens, limit);
      TrailsAreSame(Acquire(u, atMs, limit, tokens).entry, s, atMs, limit);
    } else {
      UnguardedDeniedShows(u, atMs, tokens, limit);
    }
  }

  /** One request, half a minute, a denied request, a clamp to zero, half a minute
      more: the next request is refused, and granted had the denied one not been made. */
  lemma ClampAfterDeniedIsVisible()
    ensures
      var limit := RateLimit(1, 100);
      var evs := [TryAcquire(0, 0), TryAcquire(30000, 0), Observe(30000, 0, 100), TryAcquire(60000, 0)];
      var kept := [TryAcquire(0, 0), Observe(30000, 0, 100), TryAcquire(60000, 0)];
      && Decisions(ABSENT, evs, limit, false) == [true, false, false, false]
      && Decisions(ABSENT, kept, limit, false) == [true, false, true]
  {
    var limit := RateLimit(1, 100);
    var e1 := Step(ABSENT, TryAcquire(0, 0), limit, false);
    var e2 := Step(e1.entry, TryAcquire(30000, 0), limit, false);
    var e3 := Step(e2.entry, Observe(30000, 0, 100), limit, false);
    var e4 := Step(e3.entry, TryAcquire(60000, 0), limit, false);
    var k3 := Step(e1.entry, Observe(30000, 0, 100), limit, false);
    var k4 := Step(k3.entry, TryAcquire(60000, 0), limit, false);
    var evs := [TryAcquire(0, 0), TryAcquire(30000, 0), Observe(30000, 0, 100), TryAcquire(60000, 0)];
    var kept := [TryAcquire(0, 0), Observe(30000, 0, 100), TryAcquire(60000, 0)];
    assert evs[1..][1..][1..] == [TryAcquire(60000, 0)] && evs[1..][1..][1..][1..] == [];
    assert kept[1..][1..] == [TryAcquire(60000, 0)] && kept[1..][1..][1..] == [];
    calc {
      Decisions(ABSENT, evs, limit, false);
      [e1.granted] + Decisions(e1.entry, evs[1..], limit, false);
      [e1.granted] + ([e2.granted] + Decisions(e2.entry, evs[1..][1..], limit, false));
      [e1.granted] + ([e2.granted] + ([e3.granted] + Decisions(e3.entry, evs[1..][1..][1..], limit, false)));
      [e1.granted] + ([e2.granted] + ([e3.granted] + ([e4.granted] + [])));
    }
    calc {
      Decisions(ABSENT, kept, limit, false);
      [e1.granted] + Decisions(e1.entry, kept[1..], limit, false);
      [e1.granted] + ([k3.granted] + Decisions(k3.entry, kept[1..][1..], limit, false));
      [e1.granted] + ([k3.granted] + ([k4.granted] + []));
    }
  }
}
