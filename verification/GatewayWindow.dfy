/** How much the shared buckets can grant, and so how many vendor calls they can
    pay for, in any window of the clock, over every interleaving of requests,
    refresh ticks, clamps and key expiry. */
module GatewayWindow {
  import opened Common
  import opened TokenBucket
  import opened Gateway
  import Router

  /** The scripts that run on one candidate's key between two moments. */
  datatype Window = Window(cand: CandidateRef, fromMs: int, toMs: int)

  predicate In(x: Script, w: Window) {
    x.cand == w.cand && w.fromMs <= x.atMs <= w.toMs
  }

  function RequestsIn(scripts: seq<Script>, w: Window): nat {
    if scripts == [] then 0
    else
      var x := scripts[|scripts| - 1];
      RequestsIn(scripts[..|scripts| - 1], w) + if In(x, w) && x.granted then 1 else 0
  }

  function TokensIn(scripts: seq<Script>, w: Window): nat {
    if scripts == [] then 0
    else
      var x := scripts[|scripts| - 1];
      TokensIn(scripts[..|scripts| - 1], w) + if In(x, w) && x.granted then x.tokens else 0
  }

  function LastIn(scripts: seq<Script>, w: Window): Option<Script> {
    if scripts == [] then None
    else if In(scripts[|scripts| - 1], w) then Some(scripts[|scripts| - 1])
    else LastIn(scripts[..|scripts| - 1], w)
  }

  /** From one reading to the next, the milliseconds the clock moved forward. */
  function MovedBy(last: Option<Script>, readMs: int): nat {
    if last.None? then 0 else Max(0, readMs - last.value.readMs)
  }

  /** The forward movement of the readings of the window's scripts, in the order they ran. */
  function Moved(scripts: seq<Script>, w: Window): nat {
    if scripts == [] then 0
    else
      var init, x := scripts[..|scripts| - 1], scripts[|scripts| - 1];
      Moved(init, w) + if In(x, w) then MovedBy(LastIn(init, w), x.readMs) else 0
  }

  lemma {:induction false} Snoc(scripts: seq<Script>, x: Script, w: Window)
    ensures RequestsIn(scripts + [x], w) == RequestsIn(scripts, w) + if In(x, w) && x.granted then 1 else 0
    ensures TokensIn(scripts + [x], w) == TokensIn(scripts, w) + if In(x, w) && x.granted then x.tokens else 0
    ensures LastIn(scripts + [x], w) == if In(x, w) then Some(x) else LastIn(scripts, w)
    ensures Moved(scripts + [x], w) ==
      Moved(scripts, w) + if In(x, w) then MovedBy(LastIn(scripts, w), x.readMs) else 0
  {
    assert (scripts + [x])[..|scripts|] == scripts;
  }

  // ------------------------------------------------------------ one dimension

  /** What was spent and what is left is at most a full bucket and the refill for the movement. */
  predicate Paid(spent: int, level: int, cap: Positive, moved: nat) {
    spent + level <= cap * UNIT + moved * cap
  }

  lemma FirstPays(level: Option<int>, cap: Positive, elapsed: nat, price: int)
    ensures Paid(price, Refill(level, cap, elapsed) - price, cap, 0)
  {
  }

  lemma NextPays(spent: int, level: int, cap: Positive, moved: nat, elapsed: nat, price: int)
    requires Paid(spent, level, cap, moved)
    ensures Paid(spent + price, Refill(Some(level), cap, elapsed) - price, cap, moved + elapsed)
  {
    assert (moved + elapsed) * cap == moved * cap + elapsed * cap;
  }

  /** A key that expired in between is full again, but a full refill has been paid for. */
  lemma FreshPays(spent: int, level: Option<int>, cap: Positive, moved: nat, idle: nat, elapsed: nat, price: int)
    requires Paid(spent, 0, cap, moved) && UNIT <= idle
    ensures Paid(spent + price, Refill(level, cap, elapsed) - price, cap, moved + idle)
  {
    assert (moved + idle) * cap == moved * cap + idle * cap;
    assert UNIT * cap <= idle * cap;
  }

  lemma PaidLess(spent: int, level: int, lower: int, cap: Positive, moved: nat)
    requires Paid(spent, level, cap, moved) && lower <= level
    ensures Paid(spent, lower, cap, moved)
  {
  }

  lemma PaidNothing(cap: Positive)
    ensures Paid(0, 0, cap, 0)
  {
  }

  // ------------------------------------------------------------ the key remembers its last script

  predicate Remembers(e: Entry, x: Script) {
    && e.lastMs == Some(x.readMs) && e.expiresAtMs == Some(x.atMs + KEY_TTL_MS)
    && e.rpm.Some? && e.tpm.Some?
  }

  predicate Forgot(e: Entry, x: Script, nowMs: int) {
    e.lastMs.None? && e.expiresAtMs.None? && x.atMs + KEY_TTL_MS < nowMs
  }

  /** What the window has been granted against what the key still holds. */
  datatype Account = Account(requests: int, tokens: int, moved: nat)

  predicate Covered(a: Account, e: Entry, x: Script, nowMs: int, lim: RateLimit) {
    || (Remembers(e, x) && Paid(a.requests, e.rpm.value, lim.rpm, a.moved)
                        && Paid(a.tokens, e.tpm.value, lim.tpm, a.moved))
    || Forgot(e, x, nowMs)
  }

  predicate Solvent(a: Account, lim: RateLimit) {
    Paid(a.requests, 0, lim.rpm, a.moved) && Paid(a.tokens, 0, lim.tpm, a.moved)
  }

  function AccountOf(scripts: seq<Script>, w: Window): Account {
    Account(RequestsIn(scripts, w) * UNIT, TokensIn(scripts, w) * UNIT, Moved(scripts, w))
  }

  function Charged(a: Account, x: Script, moved: nat): Account {
    Account(
      a.requests + (if x.granted then UNIT else 0), a.tokens + (if x.granted then x.tokens * UNIT else 0),
      a.moved + moved)
  }

  /** The script on the key, as a script of the log. */
  predicate IsRunOf(x: Script, e: Entry, e': Entry, lim: RateLimit) {
    var a := Ran(e, x.readMs, x.atMs, lim, x.tokens);
    e' == a.entry && x.granted == a.granted
  }

  lemma RanLevels(x: Script, e: Entry, e': Entry, lim: RateLimit)
    requires IsRunOf(x, e, e', lim) && NotNegative(e)
    ensures
      var live := Expire(e, x.atMs);
      var elapsed := Elapsed(live.lastMs, x.readMs);
      && Remembers(e', x) && NotNegative(e')
      && e'.rpm.value == Refill(live.rpm, lim.rpm, elapsed) - (if x.granted then UNIT else 0)
      && e'.tpm.value == Refill(live.tpm, lim.tpm, elapsed) - (if x.granted then x.tokens * UNIT else 0)
  {
    AcquireKeepsLevels(Expire(e, x.atMs), x.readMs, lim, x.tokens);
  }

  lemma FirstScript(x: Script, e: Entry, e': Entry, lim: RateLimit)
    requires IsRunOf(x, e, e', lim) && NotNegative(e)
    ensures
      var a := Charged(Account(0, 0, 0), x, 0);
      Covered(a, e', x, x.atMs, lim) && Solvent(a, lim)
  {
    RanLevels(x, e, e', lim);
    var live := Expire(e, x.atMs);
    var elapsed := Elapsed(live.lastMs, x.readMs);
    var a := Charged(Account(0, 0, 0), x, 0);
    FirstPays(live.rpm, lim.rpm, elapsed, a.requests);
    FirstPays(live.tpm, lim.tpm, elapsed, a.tokens);
    PaidLess(a.requests, e'.rpm.value, 0, lim.rpm, 0);
    PaidLess(a.tokens, e'.tpm.value, 0, lim.tpm, 0);
  }

  lemma NextScript(a: Account, x: Script, y: Script, e: Entry, e': Entry, lim: RateLimit)
    requires Covered(a, e, x, y.atMs, lim) && Solvent(a, lim) && IsRunOf(y, e, e', lim) && NotNegative(e)
    requires x.readMs <= x.atMs <= y.atMs && y.atMs <= y.readMs + MAX_LAG_MS
    ensures
      var a' := Charged(a, y, MovedBy(Some(x), y.readMs));
      Covered(a', e', y, y.atMs, lim) && Solvent(a', lim)
  {
    RanLevels(y, e, e', lim);
    var live := Expire(e, y.atMs);
    var elapsed, moved := Elapsed(live.lastMs, y.readMs), MovedBy(Some(x), y.readMs);
    var requests := if y.granted then UNIT else 0;
    var tokens := if y.granted then y.tokens * UNIT else 0;
    if Remembers(live, x) {
      NextPays(a.requests, live.rpm.value, lim.rpm, a.moved, elapsed, requests);
      NextPays(a.tokens, live.tpm.value, lim.tpm, a.moved, elapsed, tokens);
    } else {
      assert UNIT <= moved;
      FreshPays(a.requests, live.rpm, lim.rpm, a.moved, moved, elapsed, requests);
      FreshPays(a.tokens, live.tpm, lim.tpm, a.moved, moved, elapsed, tokens);
    }
    PaidLess(a.requests + requests, e'.rpm.value, 0, lim.rpm, a.moved + moved);
    PaidLess(a.tokens + tokens, e'.tpm.value, 0, lim.tpm, a.moved + moved);
  }

  lemma ClampCovers(a: Account, x: Script, e: Entry, nowMs: int, rpm: nat, tpm: nat, lim: RateLimit)
    requires Covered(a, e, x, nowMs, lim)
    ensures Covered(a, Clamp(Expire(e, nowMs), rpm, tpm), x, nowMs, lim)
  {
    var c := Clamp(Expire(e, nowMs), rpm, tpm);
    if Remembers(Expire(e, nowMs), x) {
      PaidLess(a.requests, e.rpm.value, c.rpm.value, lim.rpm, a.moved);
      PaidLess(a.tokens, e.tpm.value, c.tpm.value, lim.tpm, a.moved);
    }
  }

  // ------------------------------------------------------------ every step

  /** Scripts ran after their readings, in the order of the log, and not in the future. */
  predicate LogTimed(s: State) {
    && (forall k :: 0 <= k < |s.scripts| ==> s.scripts[k].readMs <= s.scripts[k].atMs <= s.nowMs)
    && (forall j, k :: 0 <= j < k < |s.scripts| ==> s.scripts[j].atMs <= s.scripts[k].atMs)
  }

  predicate KeysStored(s: State) {
    forall c :: c in s.keys ==> NotNegative(s.keys[c])
  }

  predicate WithinBudget(s: State, w: Window, limits: Limits) {
    var last, a := LastIn(s.scripts, w), AccountOf(s.scripts, w);
    if last.None? then a == Account(0, 0, 0)
    else
      && last.value.readMs <= last.value.atMs <= s.nowMs
      && Solvent(a, limits(w.cand))
      && (s.nowMs <= w.toMs ==> Covered(a, EntryFor(s, w.cand), last.value, s.nowMs, limits(w.cand)))
  }

  predicate Fine(s: State, w: Window, limits: Limits) {
    LogTimed(s) && KeysStored(s) && WithinBudget(s, w, limits)
  }

  /** One script: `s'` has its entry and its line in the log, and nothing else changed. */
  ghost predicate Scripted(s: State, s': State, x: Script, limits: Limits) {
    && s'.nowMs == s.nowMs && s'.scripts == s.scripts + [x]
    && x.readMs <= x.atMs == s.nowMs && x.atMs <= x.readMs + MAX_LAG_MS
    && s'.keys == s.keys[x.cand := EntryFor(s', x.cand)]
    && IsRunOf(x, EntryFor(s, x.cand), EntryFor(s', x.cand), limits(x.cand))
  }

  lemma ScriptedKeepsFine(s: State, s': State, x: Script, w: Window, limits: Limits)
    requires Fine(s, w, limits) && Scripted(s, s', x, limits)
    ensures Fine(s', w, limits)
  {
    Snoc(s.scripts, x, w);
    var e, e' := EntryFor(s, x.cand), EntryFor(s', x.cand);
    assert NotNegative(e);
    RanLevels(x, e, e', limits(x.cand));
    if In(x, w) {
      var last := LastIn(s.scripts, w);
      AccountGrows(s.scripts, x, w);
      if last.None? {
        FirstScript(x, e, e', limits(x.cand));
      } else {
        NextScript(AccountOf(s.scripts, w), last.value, x, e, e', limits(x.cand));
      }
    } else {
      assert AccountOf(s'.scripts, w) == AccountOf(s.scripts, w);
      if LastIn(s.scripts, w).Some? && s.nowMs <= w.toMs {
        LastInWindow(s.scripts, w);
        assert x.cand != w.cand && EntryFor(s', w.cand) == EntryFor(s, w.cand);
      }
    }
  }

  lemma {:induction false} AccountGrows(scripts: seq<Script>, x: Script, w: Window)
    requires In(x, w)
    ensures AccountOf(scripts + [x], w) == Charged(AccountOf(scripts, w), x, MovedBy(LastIn(scripts, w), x.readMs))
  {
    Snoc(scripts, x, w);
  }

  lemma {:induction false} LastInWindow(scripts: seq<Script>, w: Window)
    requires LastIn(scripts, w).Some?
    ensures In(LastIn(scripts, w).value, w)
  {
    if !In(scripts[|scripts| - 1], w) {
      LastInWindow(scripts[..|scripts| - 1], w);
    }
  }

  lemma ClampKeepsFine(s: State, cand: CandidateRef, rpm: nat, tpm: nat, w: Window, limits: Limits)
    requires Fine(s, w, limits)
    ensures Fine(s.(keys := s.keys[cand := Clamp(Expire(EntryFor(s, cand), s.nowMs), rpm, tpm)]), w, limits)
  {
    assert NotNegative(EntryFor(s, cand));
    if cand == w.cand && LastIn(s.scripts, w).Some? && s.nowMs <= w.toMs {
      ClampCovers(
        AccountOf(s.scripts, w), LastIn(s.scripts, w).value, EntryFor(s, cand), s.nowMs, rpm, tpm, limits(cand));
    }
  }

  lemma AdvanceKeepsFine(s: State, toMs: int, w: Window, limits: Limits)
    requires Fine(s, w, limits) && s.nowMs <= toMs
    ensures Fine(s.(nowMs := toMs), w, limits)
  {
  }

  lemma SameBucketsKeepFine(s: State, s': State, w: Window, limits: Limits)
    requires Fine(s, w, limits) && s'.keys == s.keys && s'.nowMs == s.nowMs && s'.scripts == s.scripts
    ensures Fine(s', w, limits)
  {
  }

  lemma RunIsScripted(s: State, cand: CandidateRef, readMs: int, tokens: nat, owner: Owner, limits: Limits)
    returns (x: Script)
    requires Gateway.Timely(s, readMs)
    ensures Scripted(s, RunScript(s, cand, readMs, tokens, owner, limits), x, limits)
  {
    x := RunScript(s, cand, readMs, tokens, owner, limits).scripts[|s.scripts|];
  }

  lemma AcquireKeepsFine(s: State, id: nat, readMs: int, lost: bool, w: Window, limits: Limits)
    requires Fine(s, w, limits) && Gateway.Timely(s, readMs)
    requires id in s.requests && s.requests[id].phase.Acquiring?
    ensures
      var r := s.requests[id];
      var s' := RunScript(s, r.phase.cand, readMs, r.est, ForRequest(id), limits);
      Fine(Next(s', id, Resolved(s', r, lost)), w, limits)
  {
    var r := s.requests[id];
    var s' := RunScript(s, r.phase.cand, readMs, r.est, ForRequest(id), limits);
    var x := RunIsScripted(s, r.phase.cand, readMs, r.est, ForRequest(id), limits);
    ScriptedKeepsFine(s, s', x, w, limits);
    SameBucketsKeepFine(s', Next(s', id, Resolved(s', r, lost)), w, limits);
  }

  lemma RefreshKeepsFine(s: State, cand: CandidateRef, readMs: int, w: Window, limits: Limits)
    requires Fine(s, w, limits) && Gateway.Timely(s, readMs)
    ensures Fine(RunScript(s, cand, readMs, 0, ForRefresh, limits), w, limits)
  {
    var x := RunIsScripted(s, cand, readMs, 0, ForRefresh, limits);
    ScriptedKeepsFine(s, RunScript(s, cand, readMs, 0, ForRefresh, limits), x, w, limits);
  }

  lemma OthersLeaveBuckets(s: State, step: Step, cfg: Router.Settings, limits: Limits)
    requires !step.AcquireFor? && !step.Refresh? && !step.ClampKey? && !step.Advance?
    ensures
      var s' := Apply(s, step, cfg, limits);
      s'.keys == s.keys && s'.nowMs == s.nowMs && s'.scripts == s.scripts
  {
  }

  lemma ApplyKeepsFine(s: State, step: Step, w: Window, cfg: Router.Settings, limits: Limits)
    requires Fine(s, w, limits)
    ensures Fine(Apply(s, step, cfg, limits), w, limits)
  {
    match step {
      case AcquireFor(id, readMs, lost) =>
        if id in s.requests && s.requests[id].phase.Acquiring? && Gateway.Timely(s, readMs) {
          AcquireKeepsFine(s, id, readMs, lost, w, limits);
        }
      case Refresh(cand, readMs) =>
        if Gateway.Timely(s, readMs) {
          RefreshKeepsFine(s, cand, readMs, w, limits);
        }
      case ClampKey(cand, rpm, tpm) => ClampKeepsFine(s, cand, rpm, tpm, w, limits);
      case Advance(to) => AdvanceKeepsFine(s, Max(s.nowMs, to), w, limits);
      case _ =>
        OthersLeaveBuckets(s, step, cfg, limits);
        SameBucketsKeepFine(s, Apply(s, step, cfg, limits), w, limits);
    }
  }

  lemma {:induction false} RunIsFine(nowMs: int, steps: seq<Step>, w: Window, cfg: Router.Settings, limits: Limits)
    ensures Fine(Run(nowMs, steps, cfg, limits), w, limits)
  {
    if steps != [] {
      RunIsFine(nowMs, steps[..|steps| - 1], w, cfg, limits);
      ApplyKeepsFine(Run(nowMs, steps[..|steps| - 1], cfg, limits), steps[|steps| - 1], w, cfg, limits);
    }
  }

  /** Grants to one candidate in any window are at most the cap plus the refill for
      the forward movement of the readings of the window's scripts. */
  lemma {:induction false} WindowGrantsBounded(
    nowMs: int, steps: seq<Step>, w: Window, cfg: Router.Settings, limits: Limits)
    ensures
      var scripts := Run(nowMs, steps, cfg, limits).scripts;
      var lim, ms := limits(w.cand), Moved(scripts, w);
      && RequestsIn(scripts, w) * UNIT <= lim.rpm * UNIT + ms * lim.rpm
      && TokensIn(scripts, w) * UNIT <= lim.tpm * UNIT + ms * lim.tpm
  {
    RunIsFine(nowMs, steps, w, cfg, limits);
    PaidNothing(limits(w.cand).rpm);
    PaidNothing(limits(w.cand).tpm);
    FineIsSolvent(Run(nowMs, steps, cfg, limits), w, limits);
  }

  lemma FineIsSolvent(s: State, w: Window, limits: Limits)
    requires Fine(s, w, limits)
    ensures Solvent(AccountOf(s.scripts, w), limits(w.cand))
  {
    PaidNothing(limits(w.cand).rpm);
    PaidNothing(limits(w.cand).tpm);
  }

  // ------------------------------------------------------------ how far the readings can move

  function FirstIn(scripts: seq<Script>, w: Window): Option<Script> {
    if scripts == [] then None
    else
      var before := FirstIn(scripts[..|scripts| - 1], w);
      if before.Some? then before
      else if In(scripts[|scripts| - 1], w) then Some(scripts[|scripts| - 1]) else None
  }

  /** The backward movement of the readings of the window's scripts. */
  function Back(scripts: seq<Script>, w: Window): nat {
    if scripts == [] then 0
    else
      var init, x := scripts[..|scripts| - 1], scripts[|scripts| - 1];
      var last := LastIn(init, w);
      Back(init, w) + if In(x, w) && last.Some? then Max(0, last.value.readMs - x.readMs) else 0
  }

  lemma {:induction false} MovedIsSpanAndBack(scripts: seq<Script>, w: Window)
    ensures LastIn(scripts, w).Some? <==> FirstIn(scripts, w).Some?
    ensures LastIn(scripts, w).Some? ==>
      && In(LastIn(scripts, w).value, w) && LastIn(scripts, w).value in scripts
      && In(FirstIn(scripts, w).value, w) && FirstIn(scripts, w).value in scripts
      && Moved(scripts, w) ==
           LastIn(scripts, w).value.readMs - FirstIn(scripts, w).value.readMs + Back(scripts, w)
    ensures LastIn(scripts, w).None? ==> Moved(scripts, w) == 0 && Back(scripts, w) == 0
  {
    if scripts != [] {
      var init := scripts[..|scripts| - 1];
      MovedIsSpanAndBack(init, w);
      assert scripts == init + [scripts[|scripts| - 1]];
    }
  }

  /** Every script of the window ran at most `lagMs` after its reading. */
  predicate LagAtMost(scripts: seq<Script>, w: Window, lagMs: nat) {
    forall k :: 0 <= k < |scripts| && In(scripts[k], w) ==>
      scripts[k].readMs <= scripts[k].atMs <= scripts[k].readMs + lagMs
  }

  /** The readings move forward by at most the window, the lag, and what they moved back. */
  lemma {:induction false} MovedBounded(scripts: seq<Script>, w: Window, lagMs: nat)
    requires LagAtMost(scripts, w, lagMs) && w.fromMs <= w.toMs
    ensures Moved(scripts, w) <= w.toMs - w.fromMs + lagMs + Back(scripts, w)
  {
    MovedIsSpanAndBack(scripts, w);
  }

  /** Readings that are used at once never move back. */
  lemma {:induction false} PromptNeverBack(scripts: seq<Script>, w: Window)
    requires LagAtMost(scripts, w, 0)
    requires forall j, k :: 0 <= j < k < |scripts| ==> scripts[j].atMs <= scripts[k].atMs
    ensures Back(scripts, w) == 0
  {
    if scripts != [] {
      var n := |scripts| - 1;
      PromptNeverBack(scripts[..n], w);
      if In(scripts[n], w) && LastIn(scripts[..n], w).Some? {
        MovedIsSpanAndBack(scripts[..n], w);
        var j :| 0 <= j < n && scripts[..n][j] == LastIn(scripts[..n], w).value;
        assert scripts[j] == scripts[..n][j];
      }
    }
  }

  // ------------------------------------------------------------ vendor calls in a window

  function SumOf(f: seq<nat>): nat {
    if f == [] then 0 else SumOf(f[..|f| - 1]) + f[|f| - 1]
  }

  function SumAt(ix: seq<nat>, f: seq<nat>): nat
    requires forall i :: 0 <= i < |ix| ==> ix[i] < |f|
  {
    if ix == [] then 0 else SumAt(ix[..|ix| - 1], f) + f[ix[|ix| - 1]]
  }

  lemma {:induction false} SumAtRemove(ix: seq<nat>, f: seq<nat>, p: nat)
    requires p < |ix| && forall i :: 0 <= i < |ix| ==> ix[i] < |f|
    ensures SumAt(ix, f) == SumAt(ix[..p] + ix[p + 1..], f) + f[ix[p]]
  {
    var n := |ix| - 1;
    if p == n {
      assert ix[..p] + ix[p + 1..] == ix[..n];
    } else {
      SumAtRemove(ix[..n], f, p);
      assert (ix[..p] + ix[p + 1..])[..n - 1] == ix[..n][..p] + ix[..n][p + 1..];
    }
  }

  lemma {:induction false} SumAtShorter(ix: seq<nat>, f: seq<nat>)
    requires f != [] && forall i :: 0 <= i < |ix| ==> ix[i] < |f| - 1
    ensures SumAt(ix, f) == SumAt(ix, f[..|f| - 1])
  {
    if ix != [] {
      SumAtShorter(ix[..|ix| - 1], f);
    }
  }

  /** Distinct positions of a sequence sum to at most the whole sequence. */
  lemma {:induction false} DistinctSum(ix: seq<nat>, f: seq<nat>)
    requires forall i :: 0 <= i < |ix| ==> ix[i] < |f|
    requires forall i, j :: 0 <= i < j < |ix| ==> ix[i] != ix[j]
    ensures SumAt(ix, f) <= SumOf(f)
    decreases |f|
  {
    if f != [] {
      var n := |f| - 1;
      if p :| 0 <= p < |ix| && ix[p] == n {
        var rest := ix[..p] + ix[p + 1..];
        SumAtRemove(ix, f, p);
        SumAtShorter(rest, f);
        DistinctSum(rest, f[..n]);
      } else {
        SumAtShorter(ix, f);
        DistinctSum(ix, f[..n]);
      }
    }
  }

  /** Calls whose script ran in the window, and the tokens they were estimated at. */
  function CallsIn(s: State, calls: seq<Call>, w: Window): nat
    requires forall i :: 0 <= i < |calls| ==> calls[i].script < |s.scripts|
  {
    if calls == [] then 0
    else
      var c := calls[|calls| - 1];
      CallsIn(s, calls[..|calls| - 1], w) + if In(s.scripts[c.script], w) then 1 else 0
  }

  function CallTokensIn(s: State, calls: seq<Call>, w: Window): nat
    requires forall i :: 0 <= i < |calls| ==> calls[i].script < |s.scripts|
  {
    if calls == [] then 0
    else
      var c := calls[|calls| - 1];
      CallTokensIn(s, calls[..|calls| - 1], w) + if In(s.scripts[c.script], w) then c.tokens else 0
  }

  /** Requests of the bucket that refresh ticks spent in the window. */
  function RefreshesIn(scripts: seq<Script>, w: Window): nat {
    if scripts == [] then 0
    else
      var x := scripts[|scripts| - 1];
      RefreshesIn(scripts[..|scripts| - 1], w) + if In(x, w) && x.granted && x.owner == ForRefresh then 1 else 0
  }

  predicate ForCall(x: Script, w: Window) {
    In(x, w) && x.granted && x.owner != ForRefresh
  }

  /** Per script: one, or its tokens, if it granted a request's acquire inside the window. */
  function RequestOnes(scripts: seq<Script>, w: Window): (f: seq<nat>)
    ensures |f| == |scripts|
  {
    seq(|scripts|, i requires 0 <= i < |scripts| => if ForCall(scripts[i], w) then 1 else 0)
  }

  function RequestTokens(scripts: seq<Script>, w: Window): (f: seq<nat>)
    ensures |f| == |scripts|
  {
    seq(|scripts|, i requires 0 <= i < |scripts| => if ForCall(scripts[i], w) then scripts[i].tokens else 0)
  }

  lemma {:induction false} OnesAndRefreshes(scripts: seq<Script>, w: Window)
    ensures SumOf(RequestOnes(scripts, w)) + RefreshesIn(scripts, w) == RequestsIn(scripts, w)
    ensures SumOf(RequestTokens(scripts, w)) <= TokensIn(scripts, w)
  {
    if scripts != [] {
      var n := |scripts| - 1;
      OnesAndRefreshes(scripts[..n], w);
      assert RequestOnes(scripts, w)[..n] == RequestOnes(scripts[..n], w);
      assert RequestTokens(scripts, w)[..n] == RequestTokens(scripts[..n], w);
    }
  }

  function ScriptIndices(calls: seq<Call>): (ix: seq<nat>)
    ensures |ix| == |calls| && forall i :: 0 <= i < |ix| ==> ix[i] == calls[i].script
  {
    seq(|calls|, i requires 0 <= i < |calls| => calls[i].script)
  }

  lemma {:induction false} CallsAreSums(s: State, calls: seq<Call>, w: Window)
    requires forall i :: 0 <= i < |calls| ==> calls[i].script < |s.scripts|
    requires forall i :: 0 <= i < |calls| ==>
      OwnGrant(s, calls[i].script, calls[i].id, calls[i].cand, calls[i].tokens)
    ensures CallsIn(s, calls, w) == SumAt(ScriptIndices(calls), RequestOnes(s.scripts, w))
    ensures CallTokensIn(s, calls, w) == SumAt(ScriptIndices(calls), RequestTokens(s.scripts, w))
  {
    if calls != [] {
      var n := |calls| - 1;
      CallsAreSums(s, calls[..n], w);
      assert ScriptIndices(calls)[..n] == ScriptIndices(calls[..n]);
    }
  }

  /** Distinct grants behind the calls: calls and refreshes together are at most what was granted. */
  lemma {:induction false} CallsWithinGrants(s: State, w: Window)
    requires Backed(s)
    ensures forall i :: 0 <= i < |s.calls| ==> s.calls[i].script < |s.scripts|
    ensures CallsIn(s, s.calls, w) + RefreshesIn(s.scripts, w) <= RequestsIn(s.scripts, w)
    ensures CallTokensIn(s, s.calls, w) <= TokensIn(s.scripts, w)
  {
    assert forall i :: 0 <= i < |s.calls| ==>
      OwnGrant(s, s.calls[i].script, s.calls[i].id, s.calls[i].cand, s.calls[i].tokens);
    CallsAreSums(s, s.calls, w);
    DistinctSum(ScriptIndices(s.calls), RequestOnes(s.scripts, w));
    DistinctSum(ScriptIndices(s.calls), RequestTokens(s.scripts, w));
    OnesAndRefreshes(s.scripts, w);
  }

  /** Across any interleaving of requests, refresh ticks and clamps, with scripts up
      to nine minutes late and in any order: for any candidate and any window, the
      vendor calls paid for in the window plus the requests refresh ticks spent in it
      are at most the request cap plus its refill over the movement of the readings,
      and the calls' summed token estimates at most the token cap plus its refill. */
  lemma {:induction false} VendorCallsBounded(
    nowMs: int, steps: seq<Step>, w: Window, cfg: Router.Settings, limits: Limits)
    ensures
      var s := Run(nowMs, steps, cfg, limits);
      var lim, ms := limits(w.cand), Moved(s.scripts, w);
      && (forall i :: 0 <= i < |s.calls| ==> s.calls[i].script < |s.scripts|)
      && (CallsIn(s, s.calls, w) + RefreshesIn(s.scripts, w)) * UNIT <= lim.rpm * UNIT + ms * lim.rpm
      && CallTokensIn(s, s.calls, w) * UNIT <= lim.tpm * UNIT + ms * lim.tpm
  {
    CallsAreBacked(nowMs, steps, cfg, limits);
    CallsWithinGrants(Run(nowMs, steps, cfg, limits), w);
    WindowGrantsBounded(nowMs, steps, w, cfg, limits);
  }

  /** Cap plus refill over the window and `lagMs` more. */
  predicate WithinWindow(scripts: seq<Script>, w: Window, lim: RateLimit, lagMs: nat)
    requires w.fromMs <= w.toMs
  {
    var ms := w.toMs - w.fromMs + lagMs;
    && RequestsIn(scripts, w) * UNIT <= lim.rpm * UNIT + ms * lim.rpm
    && TokensIn(scripts, w) * UNIT <= lim.tpm * UNIT + ms * lim.tpm
  }

  /** As long as the readings of the window never move back, its grants stay within cap
      plus refill over its length and the longest lag. */
  lemma {:induction false} InOrderWithin(
    nowMs: int, steps: seq<Step>, w: Window, lagMs: nat, cfg: Router.Settings, limits: Limits)
    requires w.fromMs <= w.toMs && LagAtMost(Run(nowMs, steps, cfg, limits).scripts, w, lagMs)
    requires Back(Run(nowMs, steps, cfg, limits).scripts, w) == 0
    ensures WithinWindow(Run(nowMs, steps, cfg, limits).scripts, w, limits(w.cand), lagMs)
  {
    RunIsFine(nowMs, steps, w, cfg, limits);
    SolventWithin(Run(nowMs, steps, cfg, limits), w, lagMs, limits);
  }

  lemma {:induction false} SolventWithin(s: State, w: Window, lagMs: nat, limits: Limits)
    requires Fine(s, w, limits) && w.fromMs <= w.toMs && LagAtMost(s.scripts, w, lagMs) && Back(s.scripts, w) == 0
    ensures WithinWindow(s.scripts, w, limits(w.cand), lagMs)
  {
    FineIsSolvent(s, w, limits);
    MovedBounded(s.scripts, w, lagMs);
    var ms := w.toMs - w.fromMs + lagMs;
    TimesMonotone(Moved(s.scripts, w), ms, limits(w.cand).rpm);
    TimesMonotone(Moved(s.scripts, w), ms, limits(w.cand).tpm);
  }

  lemma TimesMonotone(m: nat, n: nat, cap: Positive)
    requires m <= n
    ensures m * cap <= n * cap
  {
  }

  /** The vendor calls paid for in such a window, with the requests that refresh ticks spent in it. */
  lemma {:induction false} InOrderCallsBounded(
    nowMs: int, steps: seq<Step>, w: Window, lagMs: nat, cfg: Router.Settings, limits: Limits)
    requires w.fromMs <= w.toMs && LagAtMost(Run(nowMs, steps, cfg, limits).scripts, w, lagMs)
    requires Back(Run(nowMs, steps, cfg, limits).scripts, w) == 0
    ensures
      var s := Run(nowMs, steps, cfg, limits);
      var lim, ms := limits(w.cand), w.toMs - w.fromMs + lagMs;
      && (forall i :: 0 <= i < |s.calls| ==> s.calls[i].script < |s.scripts|)
      && (CallsIn(s, s.calls, w) + RefreshesIn(s.scripts, w)) * UNIT <= lim.rpm * UNIT + ms * lim.rpm
      && CallTokensIn(s, s.calls, w) * UNIT <= lim.tpm * UNIT + ms * lim.tpm
  {
    InOrderWithin(nowMs, steps, w, lagMs, cfg, limits);
    CallsAreBacked(nowMs, steps, cfg, limits);
    CallsWithinGrants(Run(nowMs, steps, cfg, limits), w);
  }

  /** Scripts that run at their readings are always in order. */
  lemma {:induction false} PromptWithin(nowMs: int, steps: seq<Step>, w: Window, cfg: Router.Settings, limits: Limits)
    requires w.fromMs <= w.toMs && LagAtMost(Run(nowMs, steps, cfg, limits).scripts, w, 0)
    ensures Back(Run(nowMs, steps, cfg, limits).scripts, w) == 0
    ensures WithinWindow(Run(nowMs, steps, cfg, limits).scripts, w, limits(w.cand), 0)
  {
    RunIsFine(nowMs, steps, w, cfg, limits);
    PromptNeverBack(Run(nowMs, steps, cfg, limits).scripts, w);
    InOrderWithin(nowMs, steps, w, 0, cfg, limits);
  }

  // ------------------------------------------------------------ readings out of order

  /** At one moment, n pairs of scripts: the first of each given a reading of that
      moment, the second one that is `lagMs` old. */
  function Swing(cand: CandidateRef, nowMs: int, lagMs: nat, n: nat): seq<Step> {
    if n == 0 then []
    else Swing(cand, nowMs, lagMs, n - 1) + [Gateway.Refresh(cand, nowMs), Gateway.Refresh(cand, nowMs - lagMs)]
  }

  /** The key between two pairs of a swing. */
  predicate Swung(e: Entry, nowMs: int, lagMs: nat, lim: RateLimit) {
    && e.lastMs == Some(nowMs - lagMs) && e.expiresAtMs == Some(nowMs + KEY_TTL_MS)
    && e.rpm.Some? && 0 <= e.rpm.value < lim.rpm * UNIT
    && e.tpm.Some? && 0 <= e.tpm.value
  }

  function Grant(granted: bool): nat {
    if granted then UNIT else 0
  }

  /** The first script of a pair leaves the bucket short of full, and what it granted
      and left is at least one unit more than there was. */
  lemma FirstOfPair(e: Entry, nowMs: int, lagMs: nat, lim: RateLimit)
    requires 1 <= lagMs && (e == ABSENT || Swung(e, nowMs, lagMs, lim))
    ensures
      var a := Ran(e, nowMs, nowMs, lim, 0);
      && Swung(a.entry, nowMs, 0, lim)
      && 1 <= Grant(a.granted) + a.entry.rpm.value
      && (e != ABSENT ==> e.rpm.value + 1 <= Grant(a.granted) + a.entry.rpm.value)
      && (e == ABSENT || UNIT <= lagMs * lim.rpm ==> a.granted)
  {
    AtLeastFactor(lagMs, lim.rpm);
    AtLeastFactor(lagMs, lim.tpm);
  }

  lemma AtLeastFactor(m: nat, cap: Positive)
    ensures m <= m * cap
  {
    assert m * cap == m + m * (cap - 1);
    assert 0 <= m * (cap - 1);
  }

  /** The second script of a pair finds no time passed, and turns the refill time back. */
  lemma SecondOfPair(e: Entry, nowMs: int, lagMs: nat, lim: RateLimit)
    requires Swung(e, nowMs, 0, lim)
    ensures
      var b := Ran(e, nowMs - lagMs, nowMs, lim, 0);
      Swung(b.entry, nowMs, lagMs, lim) && Grant(b.granted) + b.entry.rpm.value == e.rpm.value
  {
  }

  /** One more script of a refresh, at the state's moment. */
  ghost predicate Refreshed(s: State, s': State, cand: CandidateRef, readMs: int, lim: RateLimit) {
    var a := Ran(EntryFor(s, cand), readMs, s.nowMs, lim, 0);
    && s'.nowMs == s.nowMs && EntryFor(s', cand) == a.entry
    && s'.scripts == s.scripts + [Script(cand, readMs, s.nowMs, 0, ForRefresh, a.granted)]
  }

  lemma ApplyRefresh(s: State, cand: CandidateRef, readMs: int, cfg: Router.Settings, limits: Limits)
    requires Gateway.Timely(s, readMs)
    ensures Refreshed(s, Apply(s, Gateway.Refresh(cand, readMs), cfg, limits), cand, readMs, limits(cand))
  {
  }

  lemma RefreshCounts(s: State, s': State, cand: CandidateRef, readMs: int, lagMs: nat, lim: RateLimit)
    requires Refreshed(s, s', cand, readMs, lim) && readMs <= s.nowMs <= readMs + lagMs
    requires LagAtMost(s.scripts, Window(cand, s.nowMs, s.nowMs), lagMs)
    ensures
      var w := Window(cand, s.nowMs, s.nowMs);
      && RequestsIn(s'.scripts, w) * UNIT ==
           RequestsIn(s.scripts, w) * UNIT + Grant(Ran(EntryFor(s, cand), readMs, s.nowMs, lim, 0).granted)
      && LagAtMost(s'.scripts, w, lagMs)
  {
    Snoc(s.scripts, s'.scripts[|s.scripts|], Window(cand, s.nowMs, s.nowMs));
  }

  lemma {:induction false} RunPair(nowMs: int, steps: seq<Step>, x: Step, y: Step, cfg: Router.Settings, limits: Limits)
    ensures Run(nowMs, steps + [x, y], cfg, limits) ==
      Apply(Apply(Run(nowMs, steps, cfg, limits), x, cfg, limits), y, cfg, limits)
  {
    assert (steps + [x, y])[..|steps| + 1] == steps + [x];
    assert (steps + [x])[..|steps|] == steps;
  }

  ghost predicate SwingFacts(s: State, cand: CandidateRef, nowMs: int, lagMs: nat, n: nat, lim: RateLimit) {
    var w := Window(cand, nowMs, nowMs);
    && s.nowMs == nowMs
    && LagAtMost(s.scripts, w, lagMs)
    && (if n == 0 then EntryFor(s, cand) == ABSENT
        else
          && Swung(EntryFor(s, cand), nowMs, lagMs, lim)
          && n <= RequestsIn(s.scripts, w) * UNIT + EntryFor(s, cand).rpm.value)
    && (UNIT <= lagMs * lim.rpm ==> n <= RequestsIn(s.scripts, w))
  }

  lemma PairKeepsFacts(
    s: State, s1: State, s2: State, cand: CandidateRef, nowMs: int, lagMs: nat, n: nat, lim: RateLimit)
    requires 1 <= lagMs && SwingFacts(s, cand, nowMs, lagMs, n, lim)
    requires Refreshed(s, s1, cand, nowMs, lim) && Refreshed(s1, s2, cand, nowMs - lagMs, lim)
    ensures SwingFacts(s2, cand, nowMs, lagMs, n + 1, lim)
  {
    FirstOfPair(EntryFor(s, cand), nowMs, lagMs, lim);
    SecondOfPair(EntryFor(s1, cand), nowMs, lagMs, lim);
    RefreshCounts(s, s1, cand, nowMs, lagMs, lim);
    RefreshCounts(s1, s2, cand, nowMs - lagMs, lagMs, lim);
  }

  lemma ApplyPair(
    s: State, cand: CandidateRef, nowMs: int, lagMs: nat, n: nat, cfg: Router.Settings, limits: Limits)
    requires 1 <= lagMs <= MAX_LAG_MS && SwingFacts(s, cand, nowMs, lagMs, n, limits(cand))
    ensures
      var s1 := Apply(s, Gateway.Refresh(cand, nowMs), cfg, limits);
      SwingFacts(
        Apply(s1, Gateway.Refresh(cand, nowMs - lagMs), cfg, limits), cand, nowMs, lagMs, n + 1, limits(cand))
  {
    var s1 := Apply(s, Gateway.Refresh(cand, nowMs), cfg, limits);
    ApplyRefresh(s, cand, nowMs, cfg, limits);
    ApplyRefresh(s1, cand, nowMs - lagMs, cfg, limits);
    var s2 := Apply(s1, Gateway.Refresh(cand, nowMs - lagMs), cfg, limits);
    PairKeepsFacts(s, s1, s2, cand, nowMs, lagMs, n, limits(cand));
  }

  /** Pairs of scripts at one moment, no more than `lagMs` late, are granted without
      end: n pairs get more than n units less one full bucket, and n requests if the
      lag is worth one. */
  lemma {:induction false} SwingGrants(
    cand: CandidateRef, nowMs: int, lagMs: nat, n: nat, cfg: Router.Settings, limits: Limits)
    requires 1 <= lagMs <= MAX_LAG_MS
    ensures SwingFacts(Run(nowMs, Swing(cand, nowMs, lagMs, n), cfg, limits), cand, nowMs, lagMs, n, limits(cand))
    decreases n
  {
    if n != 0 {
      var steps := Swing(cand, nowMs, lagMs, n - 1);
      SwingGrants(cand, nowMs, lagMs, n - 1, cfg, limits);
      RunPair(nowMs, steps, Gateway.Refresh(cand, nowMs), Gateway.Refresh(cand, nowMs - lagMs), cfg, limits);
      ApplyPair(Run(nowMs, steps, cfg, limits), cand, nowMs, lagMs, n - 1, cfg, limits);
    }
  }

  /** One request a minute, and n grants within one millisecond: every other script
      is given a reading a minute old. */
  lemma NoTimeUnlimitedGrants(cand: CandidateRef, n: nat, cfg: Router.Settings)
    ensures
      var limits := (c: CandidateRef) => RateLimit(1, 1);
      var scripts := Run(60000, Swing(cand, 60000, 60000, n), cfg, limits).scripts;
      var w := Window(cand, 60000, 60000);
      LagAtMost(scripts, w, 60000) && n <= RequestsIn(scripts, w)
  {
    SwingGrants(cand, 60000, 60000, n, cfg, (c: CandidateRef) => RateLimit(1, 1));
  }

  /** Every run whose scripts are at most `lagMs` late stays within cap plus refill
      over the window and the lag. */
  ghost predicate AlwaysWithin(cand: CandidateRef, lagMs: nat, cfg: Router.Settings, limits: Limits) {
    forall nowMs: int, steps: seq<Step>, w: Window ::
      w.cand == cand && w.fromMs <= w.toMs && LagAtMost(Run(nowMs, steps, cfg, limits).scripts, w, lagMs) ==>
        WithinWindow(Run(nowMs, steps, cfg, limits).scripts, w, limits(cand), lagMs)
  }

  /** Whatever the limits, lateness is harmless in every run if and only if there is
      none: a single millisecond, used again and again, breaks every bound. */
  lemma LagIsExact(cand: CandidateRef, lagMs: nat, cfg: Router.Settings, limits: Limits)
    ensures AlwaysWithin(cand, lagMs, cfg, limits) <==> lagMs == 0
  {
    if lagMs == 0 {
      forall nowMs: int, steps: seq<Step>, w: Window |
        w.cand == cand && w.fromMs <= w.toMs && LagAtMost(Run(nowMs, steps, cfg, limits).scripts, w, lagMs)
        ensures WithinWindow(Run(nowMs, steps, cfg, limits).scripts, w, limits(cand), lagMs)
      {
        PromptWithin(nowMs, steps, w, cfg, limits);
      }
    } else {
      LateSwingExceeds(cand, lagMs, cfg, limits);
    }
  }

  lemma LateSwingExceeds(cand: CandidateRef, lagMs: nat, cfg: Router.Settings, limits: Limits)
    requires 1 <= lagMs
    ensures !AlwaysWithin(cand, lagMs, cfg, limits)
  {
    var lim := limits(cand);
    var n := EnoughPairs(lim, lagMs);
    SwingGrants(cand, 0, 1, n, cfg, limits);
    ExceedsWindow(Run(0, Swing(cand, 0, 1, n), cfg, limits), cand, lagMs, n, lim);
  }

  lemma EnoughPairs(lim: RateLimit, lagMs: nat) returns (n: nat)
    ensures 1 <= n && lim.rpm * UNIT + lim.rpm * UNIT + lagMs * lim.rpm < n
  {
    assert 0 <= lagMs * lim.rpm;
    n := lim.rpm * UNIT + lim.rpm * UNIT + lagMs * lim.rpm + 1;
  }

  lemma ExceedsWindow(s: State, cand: CandidateRef, lagMs: nat, n: nat, lim: RateLimit)
    requires SwingFacts(s, cand, 0, 1, n, lim) && 1 <= lagMs
    requires 1 <= n && lim.rpm * UNIT + lim.rpm * UNIT + lagMs * lim.rpm < n
    ensures LagAtMost(s.scripts, Window(cand, 0, 0), lagMs)
    ensures !WithinWindow(s.scripts, Window(cand, 0, 0), lim, lagMs)
  {
  }
}
