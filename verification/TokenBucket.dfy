/** The two-dimensional token bucket: the acquire and clamp scripts that run
    atomically inside Redis, and the facade that drives them.

    Levels are kept in units of 1/60000 of a request (or token). A limit of n
    per minute then refills exactly n units per millisecond, and every level is
    an integer. */
module TokenBucket {
  import opened Common

  const UNIT := 60000
  const KEY_TTL_MS := 600000

  /** The hash stored under one bucket key, with the key's expiry time. A field
      that was never written is None; a key that does not exist is ABSENT. */
  datatype Entry = Entry(
    rpm: Option<int>, tpm: Option<int>, lastMs: Option<int>, expiresAtMs: Option<int>)

  const ABSENT := Entry(None, None, None, None)

  datatype Acquired = Acquired(entry: Entry, granted: bool)

  function Elapsed(lastMs: Option<int>, nowMs: int): nat {
    Max(0, nowMs - lastMs.GetOr(nowMs))
  }

  function Refill(level: Option<int>, cap: Positive, elapsed: nat): int {
    Min(cap * UNIT, level.GetOr(cap * UNIT) + elapsed * cap)
  }

  /** The acquire script on one key: lazy refill up to the reading it was given, then
      one request and `tokens` tokens are charged together or not at all. The expiry
      counts from when the script runs. */
  function AcquireAt(e: Entry, readMs: int, atMs: int, limit: RateLimit, tokens: nat): Acquired {
    var elapsed := Elapsed(e.lastMs, readMs);
    var rpm := Refill(e.rpm, limit.rpm, elapsed);
    var tpm := Refill(e.tpm, limit.tpm, elapsed);
    var ok := UNIT <= rpm && tokens * UNIT <= tpm;
    Acquired(
      Entry(
        Some(if ok then rpm - UNIT else rpm),
        Some(if ok then tpm - tokens * UNIT else tpm),
        Some(readMs),
        Some(atMs + KEY_TTL_MS)),
      ok)
  }

  /** A script that runs at its reading. */
  function Acquire(e: Entry, nowMs: int, limit: RateLimit, tokens: nat): Acquired {
    AcquireAt(e, nowMs, nowMs, limit, tokens)
  }

  /** The clamp script on one key: it neither moves the refill time nor the expiry. */
  function Clamp(e: Entry, rpmObserved: int, tpmObserved: int): Entry {
    Entry(
      Some(Min(rpmObserved * UNIT, e.rpm.GetOr(rpmObserved * UNIT))),
      Some(Min(tpmObserved * UNIT, e.tpm.GetOr(tpmObserved * UNIT))),
      e.lastMs,
      e.expiresAtMs)
  }

  /** What Redis still holds of a key at time `nowMs`: a key goes once its expiry time has passed. */
  function Expire(e: Entry, nowMs: int): Entry {
    if e.expiresAtMs.Some? && e.expiresAtMs.value < nowMs then ABSENT else e
  }

  function Lookup(keys: map<CandidateRef, Entry>, key: CandidateRef, nowMs: int): Entry {
    if key in keys then Expire(keys[key], nowMs) else ABSENT
  }

  predicate NotNegative(e: Entry) {
    && (e.rpm.Some? ==> 0 <= e.rpm.value)
    && (e.tpm.Some? ==> 0 <= e.tpm.value)
  }

  /** What every key satisfies whose scripts run at their readings, as long as no
      negative level is observed: levels are not negative, an expiry exists only with
      a refill time, and is ten minutes after it. */
  predicate WellFormed(e: Entry) {
    && NotNegative(e)
    && (e.rpm.Some? <==> e.tpm.Some?)
    && (e.lastMs.Some? ==> e.rpm.Some?)
    && (e.expiresAtMs.Some? <==> e.lastMs.Some?)
    && (e.expiresAtMs.Some? ==> e.expiresAtMs.value == e.lastMs.value + KEY_TTL_MS)
  }

  /** After an acquire both levels lie in [0, cap], and both dimensions were
      charged or neither was, by exactly the price of the request. */
  lemma AcquireKeepsLevels(e: Entry, nowMs: int, limit: RateLimit, tokens: nat)
    requires NotNegative(e)
    ensures
      var a := Acquire(e, nowMs, limit, tokens);
      var peek := Entry(
        Some(Refill(e.rpm, limit.rpm, Elapsed(e.lastMs, nowMs))),
        Some(Refill(e.tpm, limit.tpm, Elapsed(e.lastMs, nowMs))), Some(nowMs), Some(nowMs + KEY_TTL_MS));
      && WellFormed(a.entry)
      && 0 <= a.entry.rpm.value <= limit.rpm * UNIT
      && 0 <= a.entry.tpm.value <= limit.tpm * UNIT
      && (a.granted ==>
            && a.entry.rpm.value + UNIT == peek.rpm.value
            && a.entry.tpm.value + tokens * UNIT == peek.tpm.value)
      && (!a.granted ==> a.entry == peek && (peek.rpm.value < UNIT || peek.tpm.value < tokens * UNIT))
  {
    var elapsed := Elapsed(e.lastMs, nowMs);
    assert 0 <= elapsed * limit.rpm && 0 <= elapsed * limit.tpm;
    assert 0 <= limit.rpm * UNIT && 0 <= limit.tpm * UNIT;
  }

  /** A drained bucket affords a call exactly when its limits per minute have refilled the
      price since, and nothing refills while the clock goes back. */
  lemma DrainedAffordsIff(e: Entry, sinceMs: int, nowMs: int, limit: RateLimit, tokens: nat)
    requires e.rpm == Some(0) && e.tpm == Some(0) && e.lastMs == Some(sinceMs)
    ensures Acquire(e, nowMs, limit, tokens).granted <==>
      && sinceMs <= nowMs && tokens <= limit.tpm
      && 60000 <= (nowMs - sinceMs) * limit.rpm && tokens * 60000 <= (nowMs - sinceMs) * limit.tpm
  {
  }

  /** A key that is not there affords whatever fits the limit, and keeps the rest for ten minutes. */
  lemma AbsentAffordsIff(e: Entry, nowMs: int, limit: RateLimit, tokens: nat)
    requires e == ABSENT
    ensures
      var a := Acquire(e, nowMs, limit, tokens);
      && (a.granted <==> tokens <= limit.tpm)
      && (a.granted ==> a.entry.rpm.value == (limit.rpm - 1) * 60000
                        && a.entry.tpm.value == (limit.tpm - tokens) * 60000)
      && (forall atMs :: Expire(a.entry, atMs) == if atMs <= nowMs + 600000 then a.entry else ABSENT)
  {
  }

  /** A key is found as it was stored unless its expiry time has passed. */
  lemma FoundUntilExpiry(keys: map<CandidateRef, Entry>, key: CandidateRef, atMs: int)
    ensures Lookup(keys, key, atMs) ==
      if key !in keys || (keys[key].expiresAtMs.Some? && keys[key].expiresAtMs.value < atMs) then ABSENT else keys[key]
  {
  }

  /** Redis as the scripts see it. Each method is one atomic script. */
  class RedisState {
    var keys: map<CandidateRef, Entry>
    var probes: map<CandidateRef, int>

    constructor ()
      ensures keys == map[] && probes == map[]
    {
      keys := map[];
      probes := map[];
    }

    ghost predicate Valid()
      reads this
    {
      forall k :: k in keys ==> NotNegative(keys[k])
    }

    method RatelimitAcquire(key: CandidateRef, nowMs: int, atMs: int, limit: RateLimit, tokens: nat)
      returns (ok: bool, rpm: int, tpm: int)
      modifies this`keys
      ensures old(Valid()) ==> Valid()
      ensures
        var a := AcquireAt(Lookup(old(keys), key, atMs), nowMs, atMs, limit, tokens);
        && keys == old(keys)[key := a.entry]
        && ok == a.granted
        && rpm == a.entry.rpm.value / UNIT
        && tpm == a.entry.tpm.value / UNIT
      ensures rpm <= limit.rpm && tpm <= limit.tpm
      ensures old(Valid()) ==> 0 <= rpm && 0 <= tpm
    {
      var h := Lookup(keys, key, atMs);
      var rpmRem := h.rpm.GetOr(limit.rpm * UNIT);
      var tpmRem := h.tpm.GetOr(limit.tpm * UNIT);
      var lastMs := h.lastMs.GetOr(nowMs);
      var elapsed := nowMs - lastMs;
      if elapsed < 0 {
        elapsed := 0;
      }
      rpmRem := Min(limit.rpm * UNIT, rpmRem + elapsed * limit.rpm);
      tpmRem := Min(limit.tpm * UNIT, tpmRem + elapsed * limit.tpm);
      ok := false;
      if UNIT <= rpmRem && tokens * UNIT <= tpmRem {
        rpmRem := rpmRem - UNIT;
        tpmRem := tpmRem - tokens * UNIT;
        ok := true;
      }
      if NotNegative(h) {
        AcquireKeepsLevels(h, nowMs, limit, tokens);
      }
      WholeUnits(rpmRem, limit.rpm);
      WholeUnits(tpmRem, limit.tpm);
      keys := keys[key := Entry(Some(rpmRem), Some(tpmRem), Some(nowMs), Some(atMs + KEY_TTL_MS))];
      rpm := rpmRem / UNIT;
      tpm := tpmRem / UNIT;
    }

    method RatelimitClamp(key: CandidateRef, atMs: int, rpmObserved: int, tpmObserved: int)
      returns (rpm: int, tpm: int)
      modifies this`keys
      ensures old(Valid()) && 0 <= rpmObserved && 0 <= tpmObserved ==> Valid()
      ensures
        var e := Clamp(Lookup(old(keys), key, atMs), rpmObserved, tpmObserved);
        && keys == old(keys)[key := e]
        && rpm == e.rpm.value / UNIT
        && tpm == e.tpm.value / UNIT
      ensures rpm <= rpmObserved && tpm <= tpmObserved
    {
      var h := Lookup(keys, key, atMs);
      var rpmCur := h.rpm.GetOr(rpmObserved * UNIT);
      var tpmCur := h.tpm.GetOr(tpmObserved * UNIT);
      if rpmObserved * UNIT < rpmCur {
        rpmCur := rpmObserved * UNIT;
      }
      if tpmObserved * UNIT < tpmCur {
        tpmCur := tpmObserved * UNIT;
      }
      keys := keys[key := Entry(Some(rpmCur), Some(tpmCur), h.lastMs, h.expiresAtMs)];
      rpm := rpmCur / UNIT;
      tpm := tpmCur / UNIT;
    }

    /** SET NX EX: taken only when no unexpired holder exists. */
    method AcquireProbeLock(key: CandidateRef, nowMs: int, ttlS: Positive) returns (ok: bool)
      modifies this`probes
      ensures ok == !Held(old(probes), key, nowMs)
      ensures probes == if ok then old(probes)[key := nowMs + 1000 * ttlS] else old(probes)
    {
      ok := !(key in probes && nowMs <= probes[key]);
      if ok {
        probes := probes[key := nowMs + 1000 * ttlS];
      }
    }
  }

  predicate Held(probes: map<CandidateRef, int>, key: CandidateRef, nowMs: int) {
    key in probes && nowMs <= probes[key]
  }

  /** A reading of zero tokens spends a request if there is one, so it never shows all of them. */
  lemma ReadingInRange(e: Entry, nowMs: int, limit: RateLimit)
    ensures
      var a := Acquire(e, nowMs, limit, 0).entry;
      && a.rpm.value / UNIT <= limit.rpm
      && a.tpm.value / UNIT <= limit.tpm
      && (NotNegative(e) ==> 0 <= a.rpm.value / UNIT < limit.rpm && 0 <= a.tpm.value / UNIT)
  {
    if NotNegative(e) {
      AcquireKeepsLevels(e, nowMs, limit, 0);
    }
    WholeUnits(Acquire(e, nowMs, limit, 0).entry.rpm.value, limit.rpm);
    WholeUnits(Acquire(e, nowMs, limit, 0).entry.tpm.value, limit.tpm);
  }

  lemma WholeUnits(level: int, cap: Positive)
    ensures 0 <= level <==> 0 <= level / UNIT
    ensures level <= cap * UNIT ==> level / UNIT <= cap
    ensures level <= cap * UNIT - UNIT || level < UNIT ==> level / UNIT < cap
  {
  }

  datatype Reading = NoLimitEntry | Reading(granted: bool, rpm: int, tpm: int)

  /** The facade: one limit per candidate, refill of cap/60000 per millisecond. */
  class RedisTokenBucket {
    const state: RedisState
    const limits: map<CandidateRef, RateLimit>

    constructor (state: RedisState, limits: map<CandidateRef, RateLimit>)
      ensures this.state == state && this.limits == limits
    {
      this.state := state;
      this.limits := limits;
    }

    method TryAcquire(cand: CandidateRef, nowMs: int, atMs: int, tokens: nat) returns (r: Reading)
      modifies state`keys
      ensures old(state.Valid()) ==> state.Valid()
      ensures cand !in limits ==> r == NoLimitEntry && state.keys == old(state.keys)
      ensures cand in limits ==>
        var a := AcquireAt(Lookup(old(state.keys), cand, atMs), nowMs, atMs, limits[cand], tokens);
        && state.keys == old(state.keys)[cand := a.entry]
        && r == Reading(a.granted, a.entry.rpm.value / UNIT, a.entry.tpm.value / UNIT)
    {
      if cand !in limits {
        return NoLimitEntry;
      }
      var ok, rpm, tpm := state.RatelimitAcquire(cand, nowMs, atMs, limits[cand], tokens);
      r := Reading(ok, rpm, tpm);
    }

    /** A read that asks for zero tokens. It still spends one request when one
        is available, so no reading ever shows a full request bucket. */
    method Remaining(cand: CandidateRef, nowMs: int, atMs: int) returns (r: Reading)
      modifies state`keys
      ensures old(state.Valid()) ==> state.Valid()
      ensures cand !in limits ==> r == NoLimitEntry && state.keys == old(state.keys)
      ensures cand in limits ==>
        var a := AcquireAt(Lookup(old(state.keys), cand, atMs), nowMs, atMs, limits[cand], 0);
        && state.keys == old(state.keys)[cand := a.entry]
        && r == Reading(a.granted, a.entry.rpm.value / UNIT, a.entry.tpm.value / UNIT)
        && r.rpm <= limits[cand].rpm
        && r.tpm <= limits[cand].tpm
        && (old(state.Valid()) ==> 0 <= r.rpm < limits[cand].rpm && 0 <= r.tpm)
    {
      if cand !in limits {
        return NoLimitEntry;
      }
      ghost var before := Lookup(state.keys, cand, atMs);
      var ok, rpm, tpm := state.RatelimitAcquire(cand, nowMs, atMs, limits[cand], 0);
      ReadingInRange(before, nowMs, limits[cand]);
      r := Reading(ok, rpm, tpm);
    }
  }

  /** About four characters to a token, plus the whole response budget. */
  function EstimateTokens(promptChars: nat, maxTokens: nat): (n: nat)
    ensures 1 <= n
    ensures maxTokens <= n
    ensures promptChars + 4 * maxTokens < 4 * n + 4
    ensures n == 1 || 4 * n <= promptChars + 4 * maxTokens
  {
    Max(1, promptChars / 4 + maxTokens)
  }
}
