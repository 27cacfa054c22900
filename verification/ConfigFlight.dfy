/** Concurrent config loads and writes. A load checks the cache, queues for the
    refill lock, checks again, reads the database and stores what it read; a forced
    load skips both checks. A write upserts row by row and then drops the cached
    config. Every upsert makes a new version of the database, so a config read in
    the middle of a write is simply that version's. */
module ConfigFlight {
  import opened Common
  import ConfigStore

  /** What a load would find at each version; None when it would raise. */
  type Database = nat -> Option<ConfigStore.Config>

  datatype Reading = Reading(config: ConfigStore.Config, version: nat)

  /** Where one caller is suspended. */
  datatype Caller =
    | Queued(force: bool)                  // the first check missed or was skipped
    | Rechecking(force: bool)              // holds the lock
    | Loading(force: bool)                 // holds the lock, the recheck missed or was skipped
    | Storing(read: Reading, force: bool)  // holds the lock, the load succeeded
    | Returned(read: Reading, atS: real)
    | Raised

  datatype Kept = Kept(read: Reading, expiresAtS: real)

  /** `loads` are the successful database loads; the counts say why there can be more than one. */
  datatype Flight = Flight(
    callers: map<nat, Caller>, holder: Option<nat>, cached: Option<Kept>, version: nat, nowS: real,
    loads: seq<Reading>, failedStores: nat, forcedLoads: nat, invalidations: nat)

  datatype Step =
    | Arrive(id: nat, force: bool)
    | TakeLock(id: nat)
    | Recheck(id: nat)
    | LoadDone(id: nat, ok: bool)
    | StoreDone(id: nat, ok: bool)
    | Upsert
    | Drop                       // a write deletes the cached config
    | Advance(toS: real)         // the cached config goes once its time is past

  const COLD := Flight(map[], None, None, 0, 0.0, [], 0, 0, 0)

  function Put(f: Flight, id: nat, c: Caller): Flight {
    f.(callers := f.callers[id := c])
  }

  /** The lock holder is done. */
  function Leave(f: Flight, id: nat, c: Caller): Flight {
    Put(f, id, c).(holder := None)
  }

  function Apply(f: Flight, step: Step, db: Database, ttlS: nat): Flight {
    match step
    case Arrive(id, force) =>
      if id in f.callers then f
      else Put(f, id, if f.cached.Some? && !force then Returned(f.cached.value.read, f.nowS) else Queued(force))
    case TakeLock(id) =>
      if id in f.callers && f.callers[id].Queued? && f.holder == None
      then Put(f, id, Rechecking(f.callers[id].force)).(holder := Some(id)) else f
    case Recheck(id) =>
      if !(id in f.callers && f.callers[id].Rechecking?) then f
      else if f.cached.Some? && !f.callers[id].force then Leave(f, id, Returned(f.cached.value.read, f.nowS))
      else Put(f, id, Loading(f.callers[id].force))
    case LoadDone(id, ok) =>
      if !(id in f.callers && f.callers[id].Loading?) then f
      else if !ok || db(f.version) == None then Leave(f, id, Raised)
      else
        var read, force := Reading(db(f.version).value, f.version), f.callers[id].force;
        Put(f, id, Storing(read, force)).(
          loads := f.loads + [read], forcedLoads := f.forcedLoads + if force then 1 else 0)
    case StoreDone(id, ok) =>
      if !(id in f.callers && f.callers[id].Storing?) then f
      else
        var read := f.callers[id].read;
        if ok then Leave(f, id, Returned(read, f.nowS)).(cached := Some(Kept(read, f.nowS + ttlS as real)))
        else Leave(f, id, Raised).(failedStores := f.failedStores + 1)
    case Upsert => f.(version := f.version + 1)
    case Drop => Invalidated(f)
    case Advance(to) =>
      var g := f.(nowS := MaxReal(f.nowS, to));
      if g.cached.Some? && g.cached.value.expiresAtS < g.nowS then Invalidated(g) else g
  }

  function Invalidated(f: Flight): Flight {
    if f.cached == None then f else f.(cached := None, invalidations := f.invalidations + 1)
  }

  function RunFrom(f: Flight, steps: seq<Step>, db: Database, ttlS: nat): Flight {
    if steps == [] then f
    else Apply(RunFrom(f, steps[..|steps| - 1], db, ttlS), steps[|steps| - 1], db, ttlS)
  }

  function Run(steps: seq<Step>, db: Database, ttlS: nat): Flight {
    RunFrom(COLD, steps, db, ttlS)
  }

  lemma {:induction false} RunSnoc(f: Flight, steps: seq<Step>, step: Step, db: Database, ttlS: nat)
    ensures RunFrom(f, steps + [step], db, ttlS) == Apply(RunFrom(f, steps, db, ttlS), step, db, ttlS)
  {
    assert (steps + [step])[..|steps|] == steps;
  }

  lemma AppendSnoc(a: seq<Step>, b: seq<Step>)
    requires b != []
    ensures a + b == (a + b[..|b| - 1]) + [b[|b| - 1]]
  {
  }

  lemma {:induction false} RunAppend(f: Flight, a: seq<Step>, b: seq<Step>, db: Database, ttlS: nat)
    ensures RunFrom(f, a + b, db, ttlS) == RunFrom(RunFrom(f, a, db, ttlS), b, db, ttlS)
    decreases |b|
  {
    if b == [] {
      assert a + b == a;
    } else {
      var n := |b| - 1;
      RunAppend(f, a, b[..n], db, ttlS);
      AppendSnoc(a, b);
      RunSnoc(f, a + b[..n], b[n], db, ttlS);
    }
  }

  // ------------------------------------------------------------ how often the database is loaded

  predicate HoldsLock(c: Caller) {
    c.Rechecking? || c.Loading? || c.Storing?
  }

  /** A caller that was not forced has loaded and is about to warm the cache. */
  predicate Warming(f: Flight) {
    && f.holder.Some? && f.holder.value in f.callers
    && f.callers[f.holder.value].Storing? && !f.callers[f.holder.value].force
  }

  predicate CallerFits(f: Flight, id: nat, c: Caller) {
    && (HoldsLock(c) <==> f.holder == Some(id))
    && ((c.Loading? || c.Storing?) && !c.force ==> f.cached == None)
    && (c.Storing? || c.Returned? ==> c.read in f.loads)
  }

  predicate Inv(f: Flight) {
    && (forall id :: id in f.callers ==> CallerFits(f, id, f.callers[id]))
    && (f.holder.Some? ==> f.holder.value in f.callers)
    && (f.cached.Some? ==> f.cached.value.read in f.loads)
    && |f.loads| + (if Warming(f) || f.cached.Some? then 0 else 1)
       <= 1 + f.failedStores + f.forcedLoads + f.invalidations
  }

  lemma ApplyKeepsInv(f: Flight, step: Step, db: Database, ttlS: nat)
    requires Inv(f)
    ensures Inv(Apply(f, step, db, ttlS))
  {
    ApplyKeepsCallers(f, step, db, ttlS);
    ApplyKeepsCount(f, step, db, ttlS);
  }

  lemma ApplyKeepsCount(f: Flight, step: Step, db: Database, ttlS: nat)
    requires Inv(f)
    ensures
      var g := Apply(f, step, db, ttlS);
      && (g.holder.Some? ==> g.holder.value in g.callers)
      && (g.cached.Some? ==> g.cached.value.read in g.loads)
      && |g.loads| + (if Warming(g) || g.cached.Some? then 0 else 1)
         <= 1 + g.failedStores + g.forcedLoads + g.invalidations
  {
    if (step.LoadDone? || step.StoreDone? || step.Recheck?) && step.id in f.callers {
      assert CallerFits(f, step.id, f.callers[step.id]);
    }
  }

  lemma ApplyKeepsCallers(f: Flight, step: Step, db: Database, ttlS: nat)
    requires Inv(f)
    ensures
      var g := Apply(f, step, db, ttlS);
      forall id :: id in g.callers ==> CallerFits(g, id, g.callers[id])
  {
    var f' := Apply(f, step, db, ttlS);
    forall id | id in f'.callers
      ensures CallerFits(f', id, f'.callers[id])
    {
      if id in f.callers {
        assert CallerFits(f, id, f.callers[id]);
      }
    }
  }

  lemma {:induction false} RunKeepsInv(steps: seq<Step>, db: Database, ttlS: nat)
    ensures Inv(Run(steps, db, ttlS))
  {
    if steps != [] {
      RunKeepsInv(steps[..|steps| - 1], db, ttlS);
      ApplyKeepsInv(Run(steps[..|steps| - 1], db, ttlS), steps[|steps| - 1], db, ttlS);
    }
  }

  /** Single flight: however the callers interleave, the database load succeeds at
      most once, plus once for each forced load, for each failed cache write and for
      each time the cached config expired or was dropped; and whoever returns,
      returns a config that was loaded. */
  lemma SingleFlight(steps: seq<Step>, db: Database, ttlS: nat)
    ensures
      var f := Run(steps, db, ttlS);
      && |f.loads| <= 1 + f.failedStores + f.forcedLoads + f.invalidations
      && (forall id :: id in f.callers && f.callers[id].Returned? ==> f.callers[id].read in f.loads)
  {
    RunKeepsInv(steps, db, ttlS);
    var f := Run(steps, db, ttlS);
    assert forall id :: id in f.callers ==> CallerFits(f, id, f.callers[id]);
  }

  /** With no forced load, no failed cache write and no invalidation there is one
      load, and every caller that returns has its config. */
  lemma UndisturbedFlight(steps: seq<Step>, db: Database, ttlS: nat, id: nat, other: nat)
    ensures
      var f := Run(steps, db, ttlS);
      f.failedStores == 0 && f.forcedLoads == 0 && f.invalidations == 0 ==>
        && |f.loads| <= 1
        && (id in f.callers && f.callers[id].Returned? && other in f.callers && f.callers[other].Returned? ==>
              f.callers[id].read == f.callers[other].read)
  {
    SingleFlight(steps, db, ttlS);
  }

  /** The three counts count what they say: a load by a forced caller, a write to the
      cache that failed after a load, and a cached config that went. */
  lemma CountsAreReal(f: Flight, step: Step, db: Database, ttlS: nat)
    ensures
      var g := Apply(f, step, db, ttlS);
      && g.forcedLoads == f.forcedLoads
         + (if step.LoadDone? && |g.loads| == |f.loads| + 1 && f.callers[step.id].force then 1 else 0)
      && g.failedStores == f.failedStores
         + (if step.StoreDone? && !step.ok && step.id in f.callers && f.callers[step.id].Storing? then 1 else 0)
      && g.invalidations == f.invalidations + (if f.cached.Some? && g.cached == None then 1 else 0)
      && (g.loads == f.loads || (step.LoadDone? && step.id in f.callers && |g.loads| == |f.loads| + 1))
  {
  }

  // ------------------------------------------------------------ every allowance is used

  /** One caller alone, from its arrival to its store. */
  function Alone(id: nat, force: bool, ok: bool): seq<Step> {
    [Arrive(id, force)] + [TakeLock(id)] + [Recheck(id)] + [LoadDone(id, true)] + [StoreDone(id, ok)]
  }

  predicate NewIds(f: Flight, n: nat) {
    f.holder == None && forall id :: id in f.callers ==> id < n
  }

  lemma {:induction false} AloneIs(f: Flight, id: nat, force: bool, ok: bool, db: Database, ttlS: nat)
    ensures
      var loading := Apply(
        Apply(Apply(f, Arrive(id, force), db, ttlS), TakeLock(id), db, ttlS), Recheck(id), db, ttlS);
      RunFrom(f, Alone(id, force, ok), db, ttlS) ==
        Apply(Apply(loading, LoadDone(id, true), db, ttlS), StoreDone(id, ok), db, ttlS)
  {
    var s1 := [Arrive(id, force)];
    RunSnoc(f, [], Arrive(id, force), db, ttlS);
    assert [] + s1 == s1;
    RunSnoc(f, s1, TakeLock(id), db, ttlS);
    RunSnoc(f, s1 + [TakeLock(id)], Recheck(id), db, ttlS);
    RunSnoc(f, s1 + [TakeLock(id)] + [Recheck(id)], LoadDone(id, true), db, ttlS);
    RunSnoc(f, s1 + [TakeLock(id)] + [Recheck(id)] + [LoadDone(id, true)], StoreDone(id, ok), db, ttlS);
  }

  lemma AloneEnters(f: Flight, id: nat, force: bool, db: Database, ttlS: nat)
    requires id !in f.callers && f.holder == None && (force || f.cached == None)
    ensures
      Apply(Apply(Apply(f, Arrive(id, force), db, ttlS), TakeLock(id), db, ttlS), Recheck(id), db, ttlS) ==
        Put(f, id, Loading(force)).(holder := Some(id))
  {
    var f1 := Apply(f, Arrive(id, force), db, ttlS);
    assert f1 == Put(f, id, Queued(force));
    var f2 := Apply(f1, TakeLock(id), db, ttlS);
    assert f2 == Put(f1, id, Rechecking(force)).(holder := Some(id));
    assert f2.callers == f.callers[id := Rechecking(force)];
    assert f2.callers[id := Loading(force)] == f.callers[id := Loading(force)];
  }

  lemma AloneLeaves(f: Flight, id: nat, ok: bool, db: Database, ttlS: nat)
    requires id in f.callers && f.callers[id].Loading? && db(f.version).Some?
    ensures
      var g := Apply(Apply(f, LoadDone(id, true), db, ttlS), StoreDone(id, ok), db, ttlS);
      && g.callers.Keys == f.callers.Keys && g.holder == None && g.version == f.version
      && |g.loads| == |f.loads| + 1
      && g.failedStores == f.failedStores + (if ok then 0 else 1)
      && g.forcedLoads == f.forcedLoads + (if f.callers[id].force then 1 else 0)
      && g.invalidations == f.invalidations
      && (if ok then g.cached.Some? else g.cached == f.cached)
  {
  }

  /** The flight has used these allowances and no others, the next caller is `id`. */
  predicate Used(f: Flight, id: nat, failed: nat, forced: nat, dropped: nat, loads: nat) {
    && NewIds(f, id) && f.version == 0 && |f.loads| == loads
    && f.failedStores == failed && f.forcedLoads == forced && f.invalidations == dropped
  }

  lemma {:induction false} AloneLoads(
    f: Flight, id: nat, force: bool, ok: bool, failed: nat, forced: nat, dropped: nat, loads: nat, db: Database,
    ttlS: nat)
    requires Used(f, id, failed, forced, dropped, loads) && (force || f.cached == None) && db(0).Some?
    ensures
      var g := RunFrom(f, Alone(id, force, ok), db, ttlS);
      && Used(g, id + 1, failed + (if ok then 0 else 1), forced + (if force then 1 else 0), dropped, loads + 1)
      && (if ok then g.cached.Some? else g.cached == f.cached)
  {
    AloneIs(f, id, force, ok, db, ttlS);
    AloneEnters(f, id, force, db, ttlS);
    AloneLeaves(Put(f, id, Loading(force)).(holder := Some(id)), id, ok, db, ttlS);
  }

  function FailingStores(n: nat): seq<Step> {
    if n == 0 then [] else FailingStores(n - 1) + Alone(n - 1, false, false)
  }

  lemma {:induction false} FailingStoresLoad(n: nat, db: Database, ttlS: nat)
    requires db(0).Some?
    ensures
      var f := Run(FailingStores(n), db, ttlS);
      Used(f, n, n, 0, 0, n) && f.cached == None
  {
    if n != 0 {
      FailingStoresLoad(n - 1, db, ttlS);
      RunAppend(COLD, FailingStores(n - 1), Alone(n - 1, false, false), db, ttlS);
      AloneLoads(Run(FailingStores(n - 1), db, ttlS), n - 1, false, false, n - 1, 0, 0, n - 1, db, ttlS);
    }
  }

  lemma DropCounts(f: Flight, id: nat, failed: nat, forced: nat, dropped: nat, loads: nat, db: Database, ttlS: nat)
    requires Used(f, id, failed, forced, dropped, loads) && f.cached.Some?
    ensures
      var g := Apply(f, Drop, db, ttlS);
      Used(g, id, failed, forced, dropped + 1, loads) && g.cached == None
  {
  }

  lemma {:induction false} UseStore(failed: nat, db: Database, ttlS: nat)
    requires db(0).Some?
    ensures
      var g := Run(FailingStores(failed) + Alone(failed, false, true), db, ttlS);
      Used(g, failed + 1, failed, 0, 0, failed + 1) && g.cached.Some?
  {
    FailingStoresLoad(failed, db, ttlS);
    RunAppend(COLD, FailingStores(failed), Alone(failed, false, true), db, ttlS);
    AloneLoads(Run(FailingStores(failed), db, ttlS), failed, false, true, failed, 0, 0, failed, db, ttlS);
  }

  lemma UseForce(before: seq<Step>, failed: nat, forced: nat, db: Database, ttlS: nat)
    requires db(0).Some?
    requires Used(Run(before, db, ttlS), failed + forced + 1, failed, forced, 0, 1 + failed + forced)
    ensures
      var id := failed + forced + 1;
      var g := Run(before + Alone(id, true, true), db, ttlS);
      Used(g, id + 1, failed, forced + 1, 0, 1 + id) && g.cached.Some?
  {
    var id := failed + forced + 1;
    RunAppend(COLD, before, Alone(id, true, true), db, ttlS);
    AloneLoads(Run(before, db, ttlS), id, true, true, failed, forced, 0, id, db, ttlS);
  }

  lemma UseDrop(before: seq<Step>, failed: nat, forced: nat, dropped: nat, db: Database, ttlS: nat)
    requires db(0).Some?
    requires
      var f := Run(before, db, ttlS);
      Used(f, failed + forced + dropped + 1, failed, forced, dropped, 1 + failed + forced + dropped) && f.cached.Some?
    ensures
      var id := failed + forced + dropped + 1;
      var g := Run(before + [Drop] + Alone(id, false, true), db, ttlS);
      Used(g, id + 1, failed, forced, dropped + 1, 1 + id) && g.cached.Some?
  {
    var id := failed + forced + dropped + 1;
    RunSnoc(COLD, before, Drop, db, ttlS);
    DropCounts(Run(before, db, ttlS), id, failed, forced, dropped, id, db, ttlS);
    RunAppend(COLD, before + [Drop], Alone(id, false, true), db, ttlS);
    AloneLoads(Run(before + [Drop], db, ttlS), id, false, true, failed, forced, dropped + 1, id, db, ttlS);
  }

  /** The bound is reached for every combination of allowances: each failed cache
      write, each forced load and each invalidation is used for a load of its own. */
  lemma {:induction false} AllowancesAreUsed(failed: nat, forced: nat, dropped: nat, db: Database, ttlS: nat)
    returns (steps: seq<Step>)
    requires db(0).Some?
    ensures
      var f := Run(steps, db, ttlS);
      && Used(f, failed + forced + dropped + 1, failed, forced, dropped, 1 + failed + forced + dropped)
      && f.cached.Some?
    decreases failed + forced + dropped
  {
    var id := failed + forced + dropped;
    if 0 < dropped {
      var before := AllowancesAreUsed(failed, forced, dropped - 1, db, ttlS);
      UseDrop(before, failed, forced, dropped - 1, db, ttlS);
      steps := before + [Drop] + Alone(id, false, true);
    } else if 0 < forced {
      var before := AllowancesAreUsed(failed, forced - 1, 0, db, ttlS);
      UseForce(before, failed, forced - 1, db, ttlS);
      steps := before + Alone(id, true, true);
    } else {
      UseStore(failed, db, ttlS);
      steps := FailingStores(failed) + Alone(failed, false, true);
    }
  }

  // ------------------------------------------------------------ a warm cache

  /** A warm cache only changes when it is invalidated or a forced load replaces it,
      and without a forced caller no step reads the database. */
  lemma WarmStaysWarm(steps: seq<Step>, step: Step, db: Database, ttlS: nat)
    requires Run(steps, db, ttlS).cached.Some?
    ensures
      var f, f' := Run(steps, db, ttlS), Run(steps + [step], db, ttlS);
      && (f'.cached == f.cached || step == Drop || step.Advance?
          || (step.StoreDone? && step.id in f.callers && f.callers[step.id].Storing? && f.callers[step.id].force))
      && (f'.loads == f.loads || f'.forcedLoads == f.forcedLoads + 1)
  {
    RunKeepsInv(steps, db, ttlS);
    RunSnoc(COLD, steps, step, db, ttlS);
    var f := Run(steps, db, ttlS);
    if step.LoadDone? || step.StoreDone? {
      assert step.id in f.callers ==> CallerFits(f, step.id, f.callers[step.id]);
    }
  }

  /** Nothing that replaces or drops what is cached. */
  predicate Undisturbing(step: Step) {
    step != Drop && !(step.StoreDone? && step.ok)
  }

  /** What a caller stored answers every unforced caller at once for the whole TTL,
      unless it is dropped or another store replaces it. */
  lemma {:induction false} StoredIsServed(
    f: Flight, kept: Kept, steps: seq<Step>, id: nat, db: Database, ttlS: nat)
    requires f.cached == Some(kept) && (forall i :: 0 <= i < |steps| ==> Undisturbing(steps[i]))
    requires RunFrom(f, steps, db, ttlS).nowS <= kept.expiresAtS
    ensures
      var g := RunFrom(f, steps, db, ttlS);
      && g.cached == Some(kept)
      && (id !in g.callers ==> Apply(g, Arrive(id, false), db, ttlS).callers[id] == Returned(kept.read, g.nowS))
  {
    if steps != [] {
      StoredIsServed(f, kept, steps[..|steps| - 1], id, db, ttlS);
    }
  }

  /** A step makes a caller raise exactly when its load fails, finds nothing to load, or
      its write to the cache fails. */
  lemma RaisesIff(f: Flight, step: Step, id: nat, db: Database, ttlS: nat)
    requires id in f.callers && f.callers[id] != Raised
    ensures
      Apply(f, step, db, ttlS).callers[id] == Raised <==>
        || (f.callers[id].Storing? && step == StoreDone(id, false))
        || (f.callers[id].Loading? && step.LoadDone? && step.id == id && (!step.ok || db(f.version) == None))
  {
  }

  /** A forced caller returns what the database holds when it loads, whatever is cached. */
  lemma {:induction false} ForcedLoads(f: Flight, id: nat, db: Database, ttlS: nat)
    requires id !in f.callers && f.holder == None && db(f.version).Some?
    ensures
      var g := RunFrom(f, Alone(id, true, true), db, ttlS);
      && g.loads == f.loads + [Reading(db(f.version).value, f.version)]
      && id in g.callers && g.callers[id] == Returned(Reading(db(f.version).value, f.version), f.nowS)
  {
    AloneIs(f, id, true, true, db, ttlS);
    AloneEnters(f, id, true, db, ttlS);
  }

  // ------------------------------------------------------------ how stale a config can be

  /** A load read the database before version `n` and has not stored it yet. */
  predicate StaleInFlight(f: Flight, n: nat) {
    exists id :: id in f.callers && f.callers[id].Storing? && f.callers[id].read.version < n
  }

  predicate NotReturned(f: Flight, id: nat) {
    id in f.callers ==> !f.callers[id].Returned?
  }

  /** Callers that had not returned in `f` return version `n` or later in `g`. */
  predicate ReturnsSince(f: Flight, g: Flight, n: nat) {
    forall id :: id in g.callers && g.callers[id].Returned? && NotReturned(f, id) ==> n <= g.callers[id].read.version
  }

  /** From here on only version `n` or later can be stored or found. */
  predicate Since(f: Flight, n: nat) {
    && n <= f.version
    && (f.cached.Some? ==> n <= f.cached.value.read.version)
    && (forall id :: id in f.callers && f.callers[id].Storing? ==> n <= f.callers[id].read.version)
  }

  lemma ApplyKeepsSince(f: Flight, step: Step, n: nat, db: Database, ttlS: nat)
    requires Since(f, n)
    ensures Since(Apply(f, step, db, ttlS), n)
    ensures ReturnsSince(f, Apply(f, step, db, ttlS), n)
  {
  }

  lemma ApplyKeepsReturned(f: Flight, step: Step, id: nat, db: Database, ttlS: nat)
    requires id in f.callers && f.callers[id].Returned?
    ensures
      var g := Apply(f, step, db, ttlS);
      id in g.callers && g.callers[id] == f.callers[id]
  {
  }

  lemma {:induction false} RunKeepsSince(f: Flight, steps: seq<Step>, n: nat, db: Database, ttlS: nat)
    requires Since(f, n)
    ensures Since(RunFrom(f, steps, db, ttlS), n)
    ensures ReturnsSince(f, RunFrom(f, steps, db, ttlS), n)
  {
    if steps != [] {
      var k := |steps| - 1;
      var g, h := RunFrom(f, steps[..k], db, ttlS), RunFrom(f, steps, db, ttlS);
      RunKeepsSince(f, steps[..k], n, db, ttlS);
      ApplyKeepsSince(g, steps[k], n, db, ttlS);
      forall id | id in h.callers && h.callers[id].Returned? && NotReturned(f, id)
        ensures n <= h.callers[id].read.version
      {
        if !NotReturned(g, id) {
          ApplyKeepsReturned(g, steps[k], id, db, ttlS);
        }
      }
    }
  }

  /** Whatever happens after `f`, callers that return then have this version or a later one. */
  ghost predicate FreshFrom(f: Flight, n: nat, db: Database, ttlS: nat) {
    forall steps :: ReturnsSince(f, RunFrom(f, steps, db, ttlS), n)
  }

  /** A write's last step is the drop. Whoever returns after it has the written config
      or a later one, in every continuation, if and only if at the drop no load was in
      flight that had read the database before the write's last upsert. */
  lemma WriteIsSeenIff(f: Flight, db: Database, ttlS: nat)
    ensures FreshFrom(Apply(f, Drop, db, ttlS), f.version, db, ttlS) <==> !StaleInFlight(f, f.version)
  {
    var g := Apply(f, Drop, db, ttlS);
    if StaleInFlight(f, f.version) {
      var id :| id in f.callers && f.callers[id].Storing? && f.callers[id].read.version < f.version;
      StoreReturns(g, id, db, ttlS);
      var h := RunFrom(g, [StoreDone(id, true)], db, ttlS);
      assert NotReturned(g, id) && !ReturnsSince(g, h, f.version);
    } else {
      forall steps
        ensures ReturnsSince(g, RunFrom(g, steps, db, ttlS), f.version)
      {
        RunKeepsSince(g, steps, f.version, db, ttlS);
      }
    }
  }

  lemma {:induction false} StoreReturns(f: Flight, id: nat, db: Database, ttlS: nat)
    requires id in f.callers && f.callers[id].Storing?
    ensures
      var g := RunFrom(f, [StoreDone(id, true)], db, ttlS);
      && id in g.callers && g.callers[id] == Returned(f.callers[id].read, f.nowS)
      && g.cached == Some(Kept(f.callers[id].read, f.nowS + ttlS as real))
  {
    RunSnoc(f, [], StoreDone(id, true), db, ttlS);
    assert [] + [StoreDone(id, true)] == [StoreDone(id, true)];
  }

  /** Nothing older than version `n` is in flight, and what is cached of it goes by `byS`. */
  predicate StaleUntil(f: Flight, n: nat, byS: real) {
    && n <= f.version
    && (f.cached.Some? && f.cached.value.read.version < n ==> f.cached.value.expiresAtS <= byS)
    && (f.cached.Some? ==> f.nowS <= f.cached.value.expiresAtS)
    && (forall id :: id in f.callers && f.callers[id].Storing? ==> n <= f.callers[id].read.version)
  }

  /** Whoever returns an older config returned it by then. */
  predicate StaleReturnsBy(f: Flight, g: Flight, n: nat, byS: real) {
    forall id :: id in g.callers && g.callers[id].Returned? && NotReturned(f, id) ==>
      n <= g.callers[id].read.version || g.callers[id].atS <= byS
  }

  lemma ApplyKeepsStaleUntil(f: Flight, step: Step, n: nat, byS: real, db: Database, ttlS: nat)
    requires StaleUntil(f, n, byS)
    ensures StaleUntil(Apply(f, step, db, ttlS), n, byS)
    ensures StaleReturnsBy(f, Apply(f, step, db, ttlS), n, byS)
  {
  }

  /** A config that was read before version `n` and stored after all is served for at
      most the TTL: once no such load is in flight, every later answer with an older
      version is given by the time the cached one expires. */
  lemma {:induction false} StaleServedForTtl(
    f: Flight, steps: seq<Step>, n: nat, byS: real, db: Database, ttlS: nat)
    requires StaleUntil(f, n, byS)
    ensures StaleUntil(RunFrom(f, steps, db, ttlS), n, byS)
    ensures StaleReturnsBy(f, RunFrom(f, steps, db, ttlS), n, byS)
  {
    if steps != [] {
      var k := |steps| - 1;
      var g, h := RunFrom(f, steps[..k], db, ttlS), RunFrom(f, steps, db, ttlS);
      StaleServedForTtl(f, steps[..k], n, byS, db, ttlS);
      ApplyKeepsStaleUntil(g, steps[k], n, byS, db, ttlS);
      forall id | id in h.callers && h.callers[id].Returned? && NotReturned(f, id)
        ensures n <= h.callers[id].read.version || h.callers[id].atS <= byS
      {
        if !NotReturned(g, id) {
          ApplyKeepsReturned(g, steps[k], id, db, ttlS);
        }
      }
    }
  }

  /** The one stale load that can be in flight, since it holds the lock: from its
      store on, older configs are returned for at most the TTL. */
  lemma {:induction false} StaleStoreBounded(
    before: seq<Step>, id: nat, steps: seq<Step>, db: Database, ttlS: nat)
    requires
      var f := Run(before, db, ttlS);
      id in f.callers && f.callers[id].Storing?
    ensures
      var f := Run(before, db, ttlS);
      var g := RunFrom(f, [StoreDone(id, true)], db, ttlS);
      StaleReturnsBy(g, RunFrom(g, steps, db, ttlS), f.version, f.nowS + ttlS as real)
  {
    var f := Run(before, db, ttlS);
    RunKeepsInv(before, db, ttlS);
    StoreReturns(f, id, db, ttlS);
    var g := RunFrom(f, [StoreDone(id, true)], db, ttlS);
    OnlyHolderStores(f, id, db, ttlS);
    StaleServedForTtl(g, steps, f.version, f.nowS + ttlS as real, db, ttlS);
  }

  lemma {:induction false} OnlyHolderStores(f: Flight, id: nat, db: Database, ttlS: nat)
    requires Inv(f) && id in f.callers && f.callers[id].Storing?
    ensures StaleUntil(RunFrom(f, [StoreDone(id, true)], db, ttlS), f.version, f.nowS + ttlS as real)
  {
    RunSnoc(f, [], StoreDone(id, true), db, ttlS);
    assert [] + [StoreDone(id, true)] == [StoreDone(id, true)];
    assert forall i :: i in f.callers ==> CallerFits(f, i, f.callers[i]);
  }
}
