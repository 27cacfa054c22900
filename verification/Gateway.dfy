/** Many routed requests and refresh ticks interleaved over shared buckets. Every
    suspension of a request is a step boundary, and an acquire script may run up to
    MAX_LAG_MS after the clock reading it was given, in any order of readings. */
module Gateway {
  import opened Common
  import opened TokenBucket
  import Weights
  import Router

  /** Less than the key's ten minutes by the minute a full refill takes. */
  const MAX_LAG_MS := 540000

  datatype Owner = ForRequest(id: nat) | ForRefresh

  /** One run of the acquire script: the reading it was given and when it ran. */
  datatype Script = Script(
    cand: CandidateRef, readMs: int, atMs: int, tokens: nat, owner: Owner, granted: bool)

  /** One vendor call; `script` is the position of the script that paid for it. */
  datatype Call = Call(id: nat, cand: CandidateRef, tokens: nat, atMs: int, script: nat)

  datatype Phase =
    | Choosing
    | Acquiring(cand: CandidateRef, pass: Router.Pass)
    | Granted(cand: CandidateRef, pass: Router.Pass, script: nat)
    | Calling(cand: CandidateRef, pass: Router.Pass, script: nat)
    | Finished(outcome: Router.Outcome)

  /** A routed call under way: what it has visited, and what each pass found. */
  datatype Request = Request(
    tier: seq<TierEntry>, est: nat, deadlineS: real, visits: seq<Router.Visit>, passes: seq<Router.Pass>,
    phase: Phase)

  datatype State = State(
    keys: map<CandidateRef, Entry>, nowMs: int, requests: map<nat, Request>, scripts: seq<Script>, calls: seq<Call>)

  datatype Step =
    | Arrive(id: nat, model: string, est: nat, startS: real)
    | Pick(id: nat, nowS: real, weights: Weights.WeightFn, u: UnitDraw)
    | AcquireFor(id: nat, readMs: int, lost: bool)       // lost: the script ran but its reply never arrives
    | CallVendor(id: nat, t0S: real)
    | Answer(id: nat, answer: Router.Answer, doneS: real)
    | Raise(id: nat)                                     // an acquire that never ran, or a vendor call, raises
    | Refresh(cand: CandidateRef, readMs: int)           // one reading of a refresh tick
    | ClampKey(cand: CandidateRef, rpm: nat, tpm: nat)
    | Advance(toMs: int)

  type Limits = CandidateRef -> RateLimit

  function Start(nowMs: int): State {
    State(map[], nowMs, map[], [], [])
  }

  function EntryFor(s: State, cand: CandidateRef): Entry {
    if cand in s.keys then s.keys[cand] else ABSENT
  }

  predicate Timely(s: State, readMs: int) {
    readMs <= s.nowMs <= readMs + MAX_LAG_MS
  }

  /** The script on the key as Redis holds it now. */
  function Ran(e: Entry, readMs: int, nowMs: int, limit: RateLimit, tokens: nat): Acquired {
    AcquireAt(Expire(e, nowMs), readMs, nowMs, limit, tokens)
  }

  function RunScript(s: State, cand: CandidateRef, readMs: int, tokens: nat, owner: Owner, limits: Limits): State {
    var a := Ran(EntryFor(s, cand), readMs, s.nowMs, limits(cand), tokens);
    s.(keys := s.keys[cand := a.entry],
       scripts := s.scripts + [Script(cand, readMs, s.nowMs, tokens, owner, a.granted)])
  }

  function Next(s: State, id: nat, r: Request): State {
    s.(requests := s.requests[id := r])
  }

  const IDLE_PASS := Router.Pass(0.0, c => 0.0, 0.0, false, 0.0, Router.Result, 0.0, Router.NoFault)

  /** A pass that has only drawn a candidate yet. */
  function Fresh(nowS: real, weights: Weights.WeightFn, u: UnitDraw): Router.Pass {
    Router.Pass(nowS, weights, u, false, 0.0, Router.Result, 0.0, Router.NoFault)
  }

  /** The world one request has seen. */
  function WorldOf(passes: seq<Router.Pass>): Router.World {
    (k: nat) => if k < |passes| then passes[k] else IDLE_PASS
  }

  /** The pass ended with this status: try another candidate, or return. */
  function Visited(r: Request, cand: CandidateRef, pass: Router.Pass, status: Router.Status): Request {
    var visits, passes := r.visits + [Router.Visit(cand, status)], r.passes + [pass];
    r.(visits := visits, passes := passes,
       phase :=
         if status == Router.StatusOk then Finished(Router.Served(Router.AttemptsOf(visits, WorldOf(passes))))
         else if status == Router.StatusRaised then Finished(Router.Raised)
         else if Router.NonRetryable(status) then Finished(Router.Failed(Router.NonRetryableKind(status), visits))
         else Choosing)
  }

  /** The top of the loop: the time test, then the draw. */
  function Picked(r: Request, pass: Router.Pass): Request {
    var attempts := Router.AttemptsOf(r.visits, WorldOf(r.passes));
    var choice := Weights.Choice(r.tier, Router.Visited(r.visits), pass.weights, pass.u);
    if r.deadlineS - pass.nowS < Router.MIN_REMAINING_S then
      r.(passes := r.passes + [pass],
         phase := Finished(Router.Failed(
           if attempts == [] then Router.UpstreamUnavailable else Router.DeadlineExceeded, r.visits)))
    else if choice == None then
      r.(passes := r.passes + [pass], phase := Finished(Router.Failed(Router.UpstreamUnavailable, r.visits)))
    else r.(phase := Acquiring(choice.value, pass))
  }

  /** A request reads whether its acquire, the last script of `s`, was granted, or
      learns that the reply is lost. */
  function Resolved(s: State, r: Request, lost: bool): Request
    requires r.phase.Acquiring? && s.scripts != []
  {
    var k := |s.scripts| - 1;
    var c, pass := r.phase.cand, r.phase.pass.(granted := s.scripts[k].granted);
    if lost then Visited(r, c, pass.(fault := Router.AcquireRaises), Router.StatusRaised)
    else if s.scripts[k].granted then r.(phase := Granted(c, pass, k))
    else Visited(r, c, pass, Router.BucketEmpty)
  }

  /** The acquire, or the vendor call under way, raises. */
  function Aborted(r: Request): Request
    requires r.phase.Acquiring? || r.phase.Calling?
  {
    var fault := if r.phase.Acquiring? then Router.AcquireRaises else Router.CallRaises;
    Visited(r, r.phase.cand, r.phase.pass.(fault := fault), Router.StatusRaised)
  }

  function Called(s: State, id: nat, t0S: real): State
    requires id in s.requests && s.requests[id].phase.Granted?
  {
    var r := s.requests[id];
    var c, k := r.phase.cand, r.phase.script;
    Next(s, id, r.(phase := Calling(c, r.phase.pass.(t0S := t0S), k))).(
      calls := s.calls + [Call(id, c, r.est, s.nowMs, k)])
  }

  function Answered(r: Request, answer: Router.Answer, doneS: real): Request
    requires r.phase.Calling?
  {
    Visited(r, r.phase.cand, r.phase.pass.(answer := answer, doneS := doneS), Router.AnswerStatus(answer))
  }

  function Apply(s: State, step: Step, cfg: Router.Settings, limits: Limits): State {
    match step
    case Arrive(id, model, est, startS) =>
      if id in s.requests || model !in cfg.tiers then s
      else Next(s, id, Request(cfg.tiers[model], est, startS + cfg.totalBudgetS, [], [], Choosing))
    case Pick(id, nowS, weights, u) =>
      if !(id in s.requests && s.requests[id].phase.Choosing?) then s
      else Next(s, id, Picked(s.requests[id], Fresh(nowS, weights, u)))
    case AcquireFor(id, readMs, lost) =>
      if !(id in s.requests && s.requests[id].phase.Acquiring? && Timely(s, readMs)) then s
      else
        var r := s.requests[id];
        var s' := RunScript(s, r.phase.cand, readMs, r.est, ForRequest(id), limits);
        Next(s', id, Resolved(s', r, lost))
    case CallVendor(id, t0S) =>
      if !(id in s.requests && s.requests[id].phase.Granted?) then s
      else
        var r := s.requests[id];
        if r.phase.cand.provider in cfg.vendors then Called(s, id, t0S)
        else Next(s, id, Visited(r, r.phase.cand, r.phase.pass, Router.VendorMissing))
    case Answer(id, answer, doneS) =>
      if !(id in s.requests && s.requests[id].phase.Calling?) then s
      else Next(s, id, Answered(s.requests[id], answer, doneS))
    case Raise(id) =>
      if !(id in s.requests && (s.requests[id].phase.Acquiring? || s.requests[id].phase.Calling?)) then s
      else Next(s, id, Aborted(s.requests[id]))
    case Refresh(cand, readMs) =>
      if Timely(s, readMs) then RunScript(s, cand, readMs, 0, ForRefresh, limits) else s
    case ClampKey(cand, rpm, tpm) =>
      s.(keys := s.keys[cand := Clamp(Expire(EntryFor(s, cand), s.nowMs), rpm, tpm)])
    case Advance(to) => s.(nowMs := Max(s.nowMs, to))
  }

  function Run(nowMs: int, steps: seq<Step>, cfg: Router.Settings, limits: Limits): State {
    if steps == [] then Start(nowMs)
    else Apply(Run(nowMs, steps[..|steps| - 1], cfg, limits), steps[|steps| - 1], cfg, limits)
  }

  // ------------------------------------------------------------ each request is a router run

  lemma {:induction false} AttemptsSame(visits: seq<Router.Visit>, a: Router.World, b: Router.World)
    requires forall k: nat :: k < |visits| ==> a(k) == b(k)
    ensures Router.AttemptsOf(visits, a) == Router.AttemptsOf(visits, b)
  {
    if visits != [] {
      AttemptsSame(visits[..|visits| - 1], a, b);
    }
  }

  lemma {:induction false} GoingSame(
    cfg: Router.Settings, tier: seq<TierEntry>, deadlineS: real, a: Router.World, b: Router.World,
    visits: seq<Router.Visit>)
    requires forall k: nat :: k < |visits| ==> a(k) == b(k)
    requires Router.Going(cfg, tier, deadlineS, a, visits)
    ensures Router.Going(cfg, tier, deadlineS, b, visits)
    decreases |visits|
  {
    if visits != [] {
      GoingSame(cfg, tier, deadlineS, a, b, visits[..|visits| - 1]);
    }
  }

  lemma {:induction false} GrantsSame(a: Router.World, b: Router.World, n: nat)
    requires forall k: nat :: k < n ==> a(k) == b(k)
    ensures Router.Grants(a, n) == Router.Grants(b, n)
  {
    if n != 0 {
      GrantsSame(a, b, n - 1);
    }
  }

  ghost predicate GoingOn(cfg: Router.Settings, r: Request) {
    |r.passes| == |r.visits| && Router.Going(cfg, r.tier, r.deadlineS, WorldOf(r.passes), r.visits)
  }

  predicate Chose(r: Request, cand: CandidateRef, pass: Router.Pass) {
    && pass.fault == Router.NoFault
    && Router.MIN_REMAINING_S <= r.deadlineS - pass.nowS
    && Weights.Choice(r.tier, Router.Visited(r.visits), pass.weights, pass.u) == Some(cand)
  }

  /** What the request has done so far is what the failover loop does in its world. */
  ghost predicate IsRun(cfg: Router.Settings, r: Request) {
    match r.phase
    case Choosing => GoingOn(cfg, r)
    case Acquiring(c, p) => GoingOn(cfg, r) && Chose(r, c, p) && !p.granted
    case Granted(c, p, _) => GoingOn(cfg, r) && Chose(r, c, p) && p.granted
    case Calling(c, p, _) => GoingOn(cfg, r) && Chose(r, c, p) && p.granted && c.provider in cfg.vendors
    case Finished(o) =>
      && |r.visits| <= |r.passes| <= |r.visits| + 1
      && Router.Run(cfg, r.tier, r.deadlineS, WorldOf(r.passes), r.visits)
      && Router.Ends(cfg, r.tier, r.deadlineS, WorldOf(r.passes), r.visits, o)
  }

  lemma {:induction false} PassesGrow(cfg: Router.Settings, r: Request, pass: Router.Pass)
    requires GoingOn(cfg, r)
    ensures Router.Going(cfg, r.tier, r.deadlineS, WorldOf(r.passes + [pass]), r.visits)
    ensures Router.AttemptsOf(r.visits, WorldOf(r.passes + [pass])) == Router.AttemptsOf(r.visits, WorldOf(r.passes))
    ensures WorldOf(r.passes + [pass])(|r.visits|) == pass
  {
    var a, b := WorldOf(r.passes), WorldOf(r.passes + [pass]);
    assert forall k: nat :: k < |r.visits| ==> a(k) == b(k);
    GoingSame(cfg, r.tier, r.deadlineS, a, b, r.visits);
    AttemptsSame(r.visits, a, b);
  }

  lemma {:induction false} VisitedSnoc(
    cfg: Router.Settings, r: Request, cand: CandidateRef, pass: Router.Pass, status: Router.Status)
    requires GoingOn(cfg, r) && Chose(r, cand, pass.(fault := Router.NoFault))
    requires status == Router.PassStatus(cfg, pass, cand)
    ensures
      var world, visits := WorldOf(r.passes + [pass]), r.visits + [Router.Visit(cand, status)];
      && Router.Run(cfg, r.tier, r.deadlineS, world, visits)
      && (Router.Continues(status) ==> Router.Going(cfg, r.tier, r.deadlineS, world, visits))
  {
    PassesGrow(cfg, r, pass);
    Router.VisitsSnoc(
      cfg, r.tier, r.deadlineS, WorldOf(r.passes + [pass]), r.visits, Router.Visit(cand, status));
  }

  lemma VisitedIsRun(cfg: Router.Settings, r: Request, cand: CandidateRef, pass: Router.Pass, status: Router.Status)
    requires GoingOn(cfg, r) && Chose(r, cand, pass.(fault := Router.NoFault))
    requires status == Router.PassStatus(cfg, pass, cand)
    ensures IsRun(cfg, Visited(r, cand, pass, status))
  {
    VisitedSnoc(cfg, r, cand, pass, status);
    var r' := Visited(r, cand, pass, status);
    if Router.Continues(status) {
      assert GoingOn(cfg, r');
    } else {
      Router.LastVisitEnds(
        cfg, r.tier, r.deadlineS, WorldOf(r.passes + [pass]), r.visits, Router.Visit(cand, status));
    }
  }

  /** A run that goes on may also end here, by time or for want of a candidate. */
  lemma EndsHere(cfg: Router.Settings, r: Request, pass: Router.Pass, outcome: Router.Outcome)
    requires GoingOn(cfg, r)
    requires
      var attempts := Router.AttemptsOf(r.visits, WorldOf(r.passes));
      if r.deadlineS - pass.nowS < Router.MIN_REMAINING_S then
        outcome == Router.Failed(if attempts == [] then Router.UpstreamUnavailable else Router.DeadlineExceeded, r.visits)
      else
        && Weights.Choice(r.tier, Router.Visited(r.visits), pass.weights, pass.u) == None
        && outcome == Router.Failed(Router.UpstreamUnavailable, r.visits)
    ensures Router.Run(cfg, r.tier, r.deadlineS, WorldOf(r.passes + [pass]), r.visits)
    ensures Router.Ends(cfg, r.tier, r.deadlineS, WorldOf(r.passes + [pass]), r.visits, outcome)
  {
    PassesGrow(cfg, r, pass);
    Router.GoingEnds(cfg, r.tier, r.deadlineS, WorldOf(r.passes + [pass]), r.visits, outcome);
  }

  lemma PickedIsRun(cfg: Router.Settings, r: Request, pass: Router.Pass)
    requires GoingOn(cfg, r) && r.phase.Choosing? && !pass.granted && pass.fault == Router.NoFault
    ensures IsRun(cfg, Picked(r, pass))
  {
    var r' := Picked(r, pass);
    if r'.phase.Finished? {
      EndsHere(cfg, r, pass, r'.phase.outcome);
    }
  }

  ghost predicate AllRuns(cfg: Router.Settings, s: State) {
    forall id :: id in s.requests ==> IsRun(cfg, s.requests[id])
  }

  lemma NextKeepsRuns(cfg: Router.Settings, s: State, id: nat, r: Request)
    requires AllRuns(cfg, s) && IsRun(cfg, r)
    ensures AllRuns(cfg, Next(s, id, r))
  {
  }

  lemma ResolvedIsRun(cfg: Router.Settings, s: State, r: Request, lost: bool)
    requires r.phase.Acquiring? && s.scripts != [] && IsRun(cfg, r)
    ensures IsRun(cfg, Resolved(s, r, lost))
  {
    var k := |s.scripts| - 1;
    if lost {
      var pass := r.phase.pass.(granted := s.scripts[k].granted, fault := Router.AcquireRaises);
      VisitedIsRun(cfg, r, r.phase.cand, pass, Router.StatusRaised);
    } else if !s.scripts[k].granted {
      VisitedIsRun(cfg, r, r.phase.cand, r.phase.pass.(granted := false), Router.BucketEmpty);
    }
  }

  lemma AcquireKeepsRuns(cfg: Router.Settings, s: State, s': State, id: nat, lost: bool)
    requires AllRuns(cfg, s) && id in s.requests && s.requests[id].phase.Acquiring?
    requires s'.requests == s.requests && s'.scripts != []
    ensures AllRuns(cfg, Next(s', id, Resolved(s', s.requests[id], lost)))
  {
    ResolvedIsRun(cfg, s', s.requests[id], lost);
    NextKeepsRuns(cfg, s', id, Resolved(s', s.requests[id], lost));
  }

  lemma PickKeepsRuns(cfg: Router.Settings, s: State, id: nat, pass: Router.Pass)
    requires !pass.granted && pass.fault == Router.NoFault
    requires AllRuns(cfg, s) && id in s.requests && s.requests[id].phase.Choosing?
    ensures AllRuns(cfg, Next(s, id, Picked(s.requests[id], pass)))
  {
    PickedIsRun(cfg, s.requests[id], pass);
    NextKeepsRuns(cfg, s, id, Picked(s.requests[id], pass));
  }

  lemma CalledKeepsRuns(cfg: Router.Settings, s: State, id: nat, t0S: real)
    requires AllRuns(cfg, s) && id in s.requests && s.requests[id].phase.Granted?
    requires s.requests[id].phase.cand.provider in cfg.vendors
    ensures AllRuns(cfg, Called(s, id, t0S))
  {
    var r := s.requests[id];
    NextKeepsRuns(
      cfg, s, id, r.(phase := Calling(r.phase.cand, r.phase.pass.(t0S := t0S), r.phase.script)));
  }

  lemma MissingKeepsRuns(cfg: Router.Settings, s: State, id: nat)
    requires AllRuns(cfg, s) && id in s.requests && s.requests[id].phase.Granted?
    requires s.requests[id].phase.cand.provider !in cfg.vendors
    ensures
      var r := s.requests[id];
      AllRuns(cfg, Next(s, id, Visited(r, r.phase.cand, r.phase.pass, Router.VendorMissing)))
  {
    var r := s.requests[id];
    VisitedIsRun(cfg, r, r.phase.cand, r.phase.pass, Router.VendorMissing);
    NextKeepsRuns(cfg, s, id, Visited(r, r.phase.cand, r.phase.pass, Router.VendorMissing));
  }

  lemma AnswerKeepsRuns(cfg: Router.Settings, s: State, id: nat, answer: Router.Answer, doneS: real)
    requires AllRuns(cfg, s) && id in s.requests && s.requests[id].phase.Calling?
    ensures AllRuns(cfg, Next(s, id, Answered(s.requests[id], answer, doneS)))
  {
    var r := s.requests[id];
    VisitedIsRun(cfg, r, r.phase.cand, r.phase.pass.(answer := answer, doneS := doneS), Router.AnswerStatus(answer));
    NextKeepsRuns(cfg, s, id, Answered(r, answer, doneS));
  }

  lemma RaiseKeepsRuns(cfg: Router.Settings, s: State, id: nat)
    requires AllRuns(cfg, s) && id in s.requests
    requires s.requests[id].phase.Acquiring? || s.requests[id].phase.Calling?
    ensures AllRuns(cfg, Next(s, id, Aborted(s.requests[id])))
  {
    var r := s.requests[id];
    var fault := if r.phase.Acquiring? then Router.AcquireRaises else Router.CallRaises;
    VisitedIsRun(cfg, r, r.phase.cand, r.phase.pass.(fault := fault), Router.StatusRaised);
    NextKeepsRuns(cfg, s, id, Aborted(r));
  }

  lemma ChoosingStepsKeepRuns(s: State, step: Step, cfg: Router.Settings, limits: Limits)
    requires AllRuns(cfg, s) && (step.Arrive? || step.Pick?)
    ensures AllRuns(cfg, Apply(s, step, cfg, limits))
  {
    match step {
      case Arrive(id, model, est, startS) =>
        if id !in s.requests && model in cfg.tiers {
          NextKeepsRuns(cfg, s, id, Request(cfg.tiers[model], est, startS + cfg.totalBudgetS, [], [], Choosing));
        }
      case Pick(id, nowS, weights, u) =>
        if id in s.requests && s.requests[id].phase.Choosing? {
          PickKeepsRuns(cfg, s, id, Fresh(nowS, weights, u));
        }
    }
  }

  /** What a step of one request makes of the state. */
  lemma CallingStepIs(s: State, step: Step, cfg: Router.Settings, limits: Limits)
    requires step.CallVendor? || step.Answer? || step.Raise?
    ensures
      var id, s' := step.id, Apply(s, step, cfg, limits);
      if step.CallVendor? && id in s.requests && s.requests[id].phase.Granted? then
        var r := s.requests[id];
        s' == if r.phase.cand.provider in cfg.vendors then Called(s, id, step.t0S)
              else Next(s, id, Visited(r, r.phase.cand, r.phase.pass, Router.VendorMissing))
      else if step.Answer? && id in s.requests && s.requests[id].phase.Calling? then
        s' == Next(s, id, Answered(s.requests[id], step.answer, step.doneS))
      else if step.Raise? && id in s.requests && (s.requests[id].phase.Acquiring? || s.requests[id].phase.Calling?) then
        s' == Next(s, id, Aborted(s.requests[id]))
      else s' == s
  {
  }

  lemma CallingStepsKeepRuns(s: State, s': State, step: Step, cfg: Router.Settings, limits: Limits)
    requires AllRuns(cfg, s) && (step.CallVendor? || step.Answer? || step.Raise?)
    requires s' == Apply(s, step, cfg, limits)
    ensures AllRuns(cfg, s')
  {
    var id := step.id;
    CallingStepIs(s, step, cfg, limits);
    if s' != s {
      if step.Answer? {
        AnswerKeepsRuns(cfg, s, id, step.answer, step.doneS);
      } else if step.Raise? {
        RaiseKeepsRuns(cfg, s, id);
      } else if s.requests[id].phase.cand.provider in cfg.vendors {
        CalledKeepsRuns(cfg, s, id, step.t0S);
      } else {
        MissingKeepsRuns(cfg, s, id);
      }
    }
  }

  lemma BucketStepsKeepRuns(s: State, step: Step, cfg: Router.Settings, limits: Limits)
    requires AllRuns(cfg, s) && (step.AcquireFor? || step.Refresh? || step.ClampKey? || step.Advance?)
    ensures AllRuns(cfg, Apply(s, step, cfg, limits))
  {
    if step.AcquireFor? {
      var id := step.id;
      if id in s.requests && s.requests[id].phase.Acquiring? && Timely(s, step.readMs) {
        var r := s.requests[id];
        AcquireKeepsRuns(
          cfg, s, RunScript(s, r.phase.cand, step.readMs, r.est, ForRequest(id), limits), id, step.lost);
      }
    } else {
      assert Apply(s, step, cfg, limits).requests == s.requests;
    }
  }

  lemma ApplyKeepsRuns(s: State, step: Step, cfg: Router.Settings, limits: Limits)
    requires AllRuns(cfg, s)
    ensures AllRuns(cfg, Apply(s, step, cfg, limits))
  {
    if step.Arrive? || step.Pick? {
      ChoosingStepsKeepRuns(s, step, cfg, limits);
    } else if step.CallVendor? || step.Answer? || step.Raise? {
      CallingStepsKeepRuns(s, Apply(s, step, cfg, limits), step, cfg, limits);
    } else {
      BucketStepsKeepRuns(s, step, cfg, limits);
    }
  }

  /** In every interleaving each request is a run of the failover loop in the world
      it has seen, and ends as that run must. */
  lemma {:induction false} RequestsAreRuns(nowMs: int, steps: seq<Step>, cfg: Router.Settings, limits: Limits)
    ensures AllRuns(cfg, Run(nowMs, steps, cfg, limits))
  {
    if steps != [] {
      RequestsAreRuns(nowMs, steps[..|steps| - 1], cfg, limits);
      ApplyKeepsRuns(Run(nowMs, steps[..|steps| - 1], cfg, limits), steps[|steps| - 1], cfg, limits);
    }
  }

  // ------------------------------------------------------------ requests go on

  lemma Arrives(s: State, id: nat, model: string, est: nat, startS: real, cfg: Router.Settings, limits: Limits)
    requires id !in s.requests && model in cfg.tiers
    ensures
      var s' := Apply(s, Arrive(id, model, est, startS), cfg, limits);
      id in s'.requests
      && s'.requests[id] == Request(cfg.tiers[model], est, startS + cfg.totalBudgetS, [], [], Choosing)
  {
  }

  lemma Picks(
    s: State, id: nat, nowS: real, weights: Weights.WeightFn, u: UnitDraw, c: CandidateRef, cfg: Router.Settings,
    limits: Limits)
    requires id in s.requests && s.requests[id].phase == Choosing && 1.5 <= s.requests[id].deadlineS - nowS
    requires Weights.Choice(s.requests[id].tier, Router.Visited(s.requests[id].visits), weights, u) == Some(c)
    ensures
      var r := s.requests[id].(phase := Acquiring(c, Fresh(nowS, weights, u)));
      Apply(s, Pick(id, nowS, weights, u), cfg, limits) == s.(requests := s.requests[id := r])
  {
  }

  /** The bucket is asked for a request and the estimate; a denial ends the visit. */
  lemma Acquires(s: State, id: nat, readMs: int, cfg: Router.Settings, limits: Limits)
    requires id in s.requests && s.requests[id].phase.Acquiring? && readMs <= s.nowMs <= readMs + 540000
    ensures
      var r := s.requests[id];
      var c := r.phase.cand;
      var a := AcquireAt(Lookup(s.keys, c, s.nowMs), readMs, s.nowMs, limits(c), r.est);
      var s' := Apply(s, AcquireFor(id, readMs, false), cfg, limits);
      && s'.keys == s.keys[c := a.entry] && s'.calls == s.calls && id in s'.requests
      && if a.granted
         then s'.requests[id] == r.(phase := Granted(c, r.phase.pass.(granted := true), |s.scripts|))
         else s'.requests[id].visits == r.visits + [Router.Visit(c, Router.BucketEmpty)]
              && s'.requests[id].phase == Choosing
  {
  }

  /** A granted request calls its vendor, if there is one, and the answer ends the visit. */
  lemma Calls(
    s: State, id: nat, t0S: real, answer: Router.Answer, doneS: real, cfg: Router.Settings, limits: Limits)
    requires id in s.requests && s.requests[id].phase.Granted?
    ensures
      var r := s.requests[id];
      var c, present := r.phase.cand, r.phase.cand.provider in cfg.vendors;
      var status := if present then Router.AnswerStatus(answer) else Router.VendorMissing;
      var s' := Apply(Apply(s, CallVendor(id, t0S), cfg, limits), Answer(id, answer, doneS), cfg, limits);
      && s'.keys == s.keys && |s'.calls| == |s.calls| + (if present then 1 else 0) && id in s'.requests
      && s'.requests[id].visits == r.visits + [Router.Visit(c, status)]
      && (Router.Continues(status) <==> s'.requests[id].phase == Choosing)
  {
  }

  /** A step of a request that is not due changes nothing. */
  lemma NotDue(
    s: State, id: nat, t0S: real, answer: Router.Answer, doneS: real, cfg: Router.Settings, limits: Limits)
    requires id in s.requests && s.requests[id].phase == Choosing
    ensures Apply(Apply(s, CallVendor(id, t0S), cfg, limits), Answer(id, answer, doneS), cfg, limits) == s
  {
  }

  /** Whenever a request may choose, its next pass can be made: pick, acquire, call and
      answer add one visit, with the status that the bucket, as it stands, the vendor
      table and the answer give, and charge the bucket of the choice and no other. */
  lemma PassIsMade(
    s: State, id: nat, nowS: real, weights: Weights.WeightFn, u: UnitDraw, readMs: int, t0S: real,
    answer: Router.Answer, doneS: real, c: CandidateRef, cfg: Router.Settings, limits: Limits)
    returns (s': State)
    requires id in s.requests && s.requests[id].phase == Choosing && 1.5 <= s.requests[id].deadlineS - nowS
    requires Weights.Choice(s.requests[id].tier, Router.Visited(s.requests[id].visits), weights, u) == Some(c)
    requires readMs <= s.nowMs <= readMs + 540000
    ensures s' == Apply(Apply(Apply(Apply(
      s, Pick(id, nowS, weights, u), cfg, limits), AcquireFor(id, readMs, false), cfg, limits),
      CallVendor(id, t0S), cfg, limits), Answer(id, answer, doneS), cfg, limits)
    ensures
      var r := s.requests[id];
      var a := AcquireAt(Lookup(s.keys, c, s.nowMs), readMs, s.nowMs, limits(c), r.est);
      var pass := Router.Pass(nowS, weights, u, a.granted, t0S, answer, doneS, Router.NoFault);
      var status := Router.PassStatus(cfg, pass, c);
      && s'.keys == s.keys[c := a.entry]
      && |s'.calls| == |s.calls| + (if Router.Reached(cfg, pass, c) then 1 else 0)
      && id in s'.requests && s'.requests[id].visits == r.visits + [Router.Visit(c, status)]
      && (Router.Continues(status) <==> s'.requests[id].phase == Choosing)
  {
    Picks(s, id, nowS, weights, u, c, cfg, limits);
    var picked := Apply(s, Pick(id, nowS, weights, u), cfg, limits);
    Acquires(picked, id, readMs, cfg, limits);
    var asked := Apply(picked, AcquireFor(id, readMs, false), cfg, limits);
    if asked.requests[id].phase == Choosing {
      NotDue(asked, id, t0S, answer, doneS, cfg, limits);
    } else {
      Calls(asked, id, t0S, answer, doneS, cfg, limits);
    }
    s' := Apply(Apply(asked, CallVendor(id, t0S), cfg, limits), Answer(id, answer, doneS), cfg, limits);
  }

  // ------------------------------------------------------------ calls are backed by grants

  /** Script k granted this request's acquire. */
  predicate OwnGrant(s: State, k: nat, id: nat, cand: CandidateRef, tokens: nat) {
    && k < |s.scripts| && s.scripts[k].granted
    && s.scripts[k].owner == ForRequest(id)
    && s.scripts[k].cand == cand
    && s.scripts[k].tokens == tokens
  }

  predicate Unused(calls: seq<Call>, k: nat) {
    forall i :: 0 <= i < |calls| ==> calls[i].script != k
  }

  predicate CallsOwnGrants(s: State) {
    && (forall i :: 0 <= i < |s.calls| ==>
          var c := s.calls[i];
          && OwnGrant(s, c.script, c.id, c.cand, c.tokens)
          && s.scripts[c.script].atMs <= c.atMs <= s.nowMs)
    && (forall i, j :: 0 <= i < j < |s.calls| ==> s.calls[i].script != s.calls[j].script)
  }

  predicate HoldsOwnGrant(s: State, id: nat, r: Request) {
    r.phase.Granted? ==> OwnGrant(s, r.phase.script, id, r.phase.cand, r.est) && Unused(s.calls, r.phase.script)
  }

  predicate Backed(s: State) {
    && CallsOwnGrants(s)
    && (forall id :: id in s.requests ==> HoldsOwnGrant(s, id, s.requests[id]))
    && (forall k :: 0 <= k < |s.scripts| ==> s.scripts[k].atMs <= s.nowMs)
  }

  /** `s'` is `s` after a script: the same, but for the keys and one more script. */
  ghost predicate Extends(s: State, s': State, x: Script) {
    && s'.requests == s.requests && s'.calls == s.calls && s'.nowMs == s.nowMs
    && s'.scripts == s.scripts + [x]
  }

  lemma ScriptExtends(s: State, cand: CandidateRef, readMs: int, tokens: nat, owner: Owner, limits: Limits)
    returns (x: Script)
    ensures Extends(s, RunScript(s, cand, readMs, tokens, owner, limits), x)
    ensures x.cand == cand && x.readMs == readMs && x.atMs == s.nowMs && x.tokens == tokens && x.owner == owner
  {
    x := RunScript(s, cand, readMs, tokens, owner, limits).scripts[|s.scripts|];
  }

  lemma ExtendedKeepsBacked(s: State, s': State, x: Script)
    requires Backed(s) && Extends(s, s', x) && x.atMs == s.nowMs
    ensures Backed(s')
  {
    forall id | id in s'.requests
      ensures HoldsOwnGrant(s', id, s'.requests[id])
    {
      assert HoldsOwnGrant(s, id, s.requests[id]);
    }
  }

  lemma NextKeepsBacked(s: State, id: nat, r: Request)
    requires Backed(s) && HoldsOwnGrant(s, id, r)
    ensures Backed(Next(s, id, r))
  {
    var s' := Next(s, id, r);
    forall i | i in s'.requests
      ensures HoldsOwnGrant(s', i, s'.requests[i])
    {
      if i != id {
        assert HoldsOwnGrant(s, i, s.requests[i]);
      } else {
        assert HoldsOwnGrant(s, i, r);
      }
    }
  }

  lemma ResolvedHolds(s: State, s': State, x: Script, id: nat, r: Request, lost: bool)
    requires Backed(s) && r.phase.Acquiring? && Extends(s, s', x)
    requires x.cand == r.phase.cand && x.tokens == r.est && x.owner == ForRequest(id)
    ensures HoldsOwnGrant(s', id, Resolved(s', r, lost))
  {
  }

  lemma CalledKeepsBacked(s: State, id: nat, t0S: real)
    requires Backed(s) && id in s.requests && s.requests[id].phase.Granted?
    ensures Backed(Called(s, id, t0S))
  {
    var s' := Called(s, id, t0S);
    assert HoldsOwnGrant(s, id, s.requests[id]);
    forall i | i in s'.requests
      ensures HoldsOwnGrant(s', i, s'.requests[i])
    {
      if i != id {
        assert HoldsOwnGrant(s, i, s.requests[i]);
      }
    }
  }

  lemma KeysAndClockKeepBacked(s: State, s': State)
    requires Backed(s) && s.nowMs <= s'.nowMs
    requires s'.requests == s.requests && s'.calls == s.calls && s'.scripts == s.scripts
    ensures Backed(s')
  {
    forall id | id in s'.requests
      ensures HoldsOwnGrant(s', id, s'.requests[id])
    {
      assert HoldsOwnGrant(s, id, s.requests[id]);
    }
  }

  /** A step of one request that neither runs a script nor calls a vendor. */
  ghost predicate Quiet(s: State, s': State, id: nat) {
    s' == s || (id in s'.requests && s' == Next(s, id, s'.requests[id]) && !s'.requests[id].phase.Granted?)
  }

  lemma QuietKeepsBacked(s: State, s': State, id: nat)
    requires Backed(s) && Quiet(s, s', id)
    ensures Backed(s')
  {
    if s' != s {
      NextKeepsBacked(s, id, s'.requests[id]);
    }
  }

  predicate IsQuiet(s: State, step: Step, cfg: Router.Settings) {
    || step.Arrive? || step.Pick? || step.Answer? || step.Raise?
    || (step.CallVendor? && !(step.id in s.requests && s.requests[step.id].phase.Granted?
                              && s.requests[step.id].phase.cand.provider in cfg.vendors))
  }

  lemma QuietSteps(s: State, step: Step, cfg: Router.Settings, limits: Limits)
    requires IsQuiet(s, step, cfg)
    ensures Quiet(s, Apply(s, step, cfg, limits), step.id)
  {
  }

  lemma ApplyKeepsBacked(s: State, step: Step, cfg: Router.Settings, limits: Limits)
    requires Backed(s)
    ensures Backed(Apply(s, step, cfg, limits))
  {
    if IsQuiet(s, step, cfg) {
      QuietSteps(s, step, cfg, limits);
      QuietKeepsBacked(s, Apply(s, step, cfg, limits), step.id);
    } else {
      match step {
        case AcquireFor(id, readMs, lost) =>
          if id in s.requests && s.requests[id].phase.Acquiring? && Timely(s, readMs) {
            var r := s.requests[id];
            var x := ScriptExtends(s, r.phase.cand, readMs, r.est, ForRequest(id), limits);
            var s' := RunScript(s, r.phase.cand, readMs, r.est, ForRequest(id), limits);
            ExtendedKeepsBacked(s, s', x);
            ResolvedHolds(s, s', x, id, r, lost);
            NextKeepsBacked(s', id, Resolved(s', r, lost));
          }
        case CallVendor(id, t0S) => CalledKeepsBacked(s, id, t0S);
        case Refresh(cand, readMs) =>
          if Timely(s, readMs) {
            var x := ScriptExtends(s, cand, readMs, 0, ForRefresh, limits);
            ExtendedKeepsBacked(s, RunScript(s, cand, readMs, 0, ForRefresh, limits), x);
          }
        case _ => KeysAndClockKeepBacked(s, Apply(s, step, cfg, limits));
      }
    }
  }

  /** Every vendor call is backed by its own distinct earlier grant, of the same
      candidate, for the same number of tokens and for the same request. */
  lemma {:induction false} CallsAreBacked(nowMs: int, steps: seq<Step>, cfg: Router.Settings, limits: Limits)
    ensures Backed(Run(nowMs, steps, cfg, limits))
  {
    if steps != [] {
      CallsAreBacked(nowMs, steps[..|steps| - 1], cfg, limits);
      ApplyKeepsBacked(Run(nowMs, steps[..|steps| - 1], cfg, limits), steps[|steps| - 1], cfg, limits);
    }
  }

  // ------------------------------------------------------------ grants of one request

  function GrantsOf(scripts: seq<Script>, id: nat): nat {
    if scripts == [] then 0
    else
      var x := scripts[|scripts| - 1];
      GrantsOf(scripts[..|scripts| - 1], id) + if x.granted && x.owner == ForRequest(id) then 1 else 0
  }

  function CallsOf(calls: seq<Call>, id: nat): nat {
    if calls == [] then 0
    else CallsOf(calls[..|calls| - 1], id) + if calls[|calls| - 1].id == id then 1 else 0
  }

  /** Vendor calls that ended in an exception that is not a provider error. */
  function RaisedCalls(visits: seq<Router.Visit>, world: Router.World): nat {
    if visits == [] then 0
    else
      var k := |visits| - 1;
      RaisedCalls(visits[..k], world)
      + if visits[k].status == Router.StatusRaised && world(k).fault == Router.CallRaises then 1 else 0
  }

  lemma {:induction false} RaisedCallsSame(visits: seq<Router.Visit>, a: Router.World, b: Router.World)
    requires forall k: nat :: k < |visits| ==> a(k) == b(k)
    ensures RaisedCalls(visits, a) == RaisedCalls(visits, b)
  {
    if visits != [] {
      RaisedCallsSame(visits[..|visits| - 1], a, b);
    }
  }

  /** The shared logs hold for this request exactly the grants its world says and a
      call for each of its attempts, and what it is in the middle of. */
  predicate Books(s: State, id: nat, r: Request) {
    && |r.visits| <= |r.passes|
    && GrantsOf(s.scripts, id) ==
         Router.Grants(WorldOf(r.passes), |r.visits|) + (if r.phase.Granted? || r.phase.Calling? then 1 else 0)
    && CallsOf(s.calls, id) ==
         |Router.AttemptsOf(r.visits, WorldOf(r.passes))| + RaisedCalls(r.visits, WorldOf(r.passes))
         + (if r.phase.Calling? then 1 else 0)
  }

  predicate Unheard(s: State, id: nat) {
    GrantsOf(s.scripts, id) == 0 && CallsOf(s.calls, id) == 0
  }

  ghost predicate Accounted(s: State) {
    && (forall id :: id in s.requests ==> Books(s, id, s.requests[id]))
    && (forall id :: id !in s.requests ==> Unheard(s, id))
  }

  lemma {:induction false} GrantsOfSnoc(scripts: seq<Script>, x: Script, id: nat)
    ensures GrantsOf(scripts + [x], id) ==
      GrantsOf(scripts, id) + if x.granted && x.owner == ForRequest(id) then 1 else 0
  {
    assert (scripts + [x])[..|scripts|] == scripts;
  }

  lemma {:induction false} CallsOfSnoc(calls: seq<Call>, c: Call, id: nat)
    ensures CallsOf(calls + [c], id) == CallsOf(calls, id) + if c.id == id then 1 else 0
  {
    assert (calls + [c])[..|calls|] == calls;
  }

  lemma {:induction false} PassesKeepCounts(visits: seq<Router.Visit>, passes: seq<Router.Pass>, pass: Router.Pass)
    requires |visits| <= |passes|
    ensures Router.Grants(WorldOf(passes + [pass]), |visits|) == Router.Grants(WorldOf(passes), |visits|)
    ensures Router.AttemptsOf(visits, WorldOf(passes + [pass])) == Router.AttemptsOf(visits, WorldOf(passes))
    ensures RaisedCalls(visits, WorldOf(passes + [pass])) == RaisedCalls(visits, WorldOf(passes))
  {
    var a, b := WorldOf(passes), WorldOf(passes + [pass]);
    assert forall k: nat :: k < |visits| ==> a(k) == b(k);
    GrantsSame(a, b, |visits|);
    AttemptsSame(visits, a, b);
    RaisedCallsSame(visits, a, b);
  }

  lemma {:induction false} AttemptsSnoc(visits: seq<Router.Visit>, v: Router.Visit, world: Router.World)
    ensures |Router.AttemptsOf(visits + [v], world)| ==
      |Router.AttemptsOf(visits, world)| + (if Router.Called(v.status) then 1 else 0)
  {
    assert (visits + [v])[..|visits|] == visits;
  }

  lemma {:induction false} RaisedSnoc(visits: seq<Router.Visit>, v: Router.Visit, world: Router.World)
    ensures RaisedCalls(visits + [v], world) ==
      RaisedCalls(visits, world)
      + (if v.status == Router.StatusRaised && world(|visits|).fault == Router.CallRaises then 1 else 0)
  {
    assert (visits + [v])[..|visits|] == visits;
  }

  /** Ending a pass moves what the request held into its counts. */
  lemma VisitedCounts(r: Request, cand: CandidateRef, pass: Router.Pass, status: Router.Status)
    requires |r.visits| == |r.passes|
    ensures
      var r' := Visited(r, cand, pass, status);
      && |r'.visits| == |r'.passes|
      && Router.Grants(WorldOf(r'.passes), |r'.visits|) ==
           Router.Grants(WorldOf(r.passes), |r.visits|) + (if pass.granted then 1 else 0)
      && |Router.AttemptsOf(r'.visits, WorldOf(r'.passes))| ==
           |Router.AttemptsOf(r.visits, WorldOf(r.passes))| + (if Router.Called(status) then 1 else 0)
      && RaisedCalls(r'.visits, WorldOf(r'.passes)) == RaisedCalls(r.visits, WorldOf(r.passes))
           + (if status == Router.StatusRaised && pass.fault == Router.CallRaises then 1 else 0)
      && !r'.phase.Granted? && !r'.phase.Calling?
  {
    PassesKeepCounts(r.visits, r.passes, pass);
    var v, world := Router.Visit(cand, status), WorldOf(r.passes + [pass]);
    assert world(|r.visits|) == pass;
    AttemptsSnoc(r.visits, v, world);
    RaisedSnoc(r.visits, v, world);
  }

  /** The parts of a request's run that its books need. */
  predicate Steady(cfg: Router.Settings, r: Request) {
    match r.phase
    case Choosing => |r.visits| == |r.passes|
    case Acquiring(_, p) => |r.visits| == |r.passes| && !p.granted
    case Granted(_, p, _) => |r.visits| == |r.passes| && p.granted
    case Calling(_, p, _) => |r.visits| == |r.passes| && p.granted
    case Finished(_) => |r.visits| <= |r.passes|
  }

  lemma RunsAreSteady(cfg: Router.Settings, r: Request)
    requires IsRun(cfg, r)
    ensures Steady(cfg, r)
  {
  }

  lemma OthersKeepBooks(s: State, s': State, id: nat, r': Request)
    requires Accounted(s)
    requires s'.requests == s.requests[id := r'] && Books(s', id, r')
    requires forall i: nat :: i != id ==>
      GrantsOf(s'.scripts, i) == GrantsOf(s.scripts, i) && CallsOf(s'.calls, i) == CallsOf(s.calls, i)
    ensures Accounted(s')
  {
    forall i | i in s'.requests
      ensures Books(s', i, s'.requests[i])
    {
      if i != id {
        assert Books(s, i, s.requests[i]);
      }
    }
    forall i | i !in s'.requests
      ensures Unheard(s', i)
    {
      assert Unheard(s, i);
    }
  }

  lemma ArriveKeepsAccounted(s: State, id: nat, tier: seq<TierEntry>, est: nat, deadlineS: real)
    requires Accounted(s) && id !in s.requests
    ensures Accounted(Next(s, id, Request(tier, est, deadlineS, [], [], Choosing)))
  {
    var r := Request(tier, est, deadlineS, [], [], Choosing);
    assert Unheard(s, id);
    assert Books(s, id, r);
    OthersKeepBooks(s, Next(s, id, r), id, r);
  }

  lemma PickKeepsAccounted(s: State, id: nat, pass: Router.Pass, cfg: Router.Settings)
    requires Accounted(s) && id in s.requests && s.requests[id].phase.Choosing? && Steady(cfg, s.requests[id])
    ensures Accounted(Next(s, id, Picked(s.requests[id], pass)))
  {
    var r := s.requests[id];
    assert Books(s, id, r);
    PassesKeepCounts(r.visits, r.passes, pass);
    OthersKeepBooks(s, Next(s, id, Picked(r, pass)), id, Picked(r, pass));
  }

  lemma AcquireKeepsAccounted(s: State, s': State, x: Script, id: nat, lost: bool, cfg: Router.Settings)
    requires Accounted(s) && id in s.requests && s.requests[id].phase.Acquiring? && Steady(cfg, s.requests[id])
    requires Extends(s, s', x) && x.owner == ForRequest(id)
    ensures Accounted(Next(s', id, Resolved(s', s.requests[id], lost)))
  {
    var r := s.requests[id];
    assert Books(s, id, r);
    GrantsOfSnoc(s.scripts, x, id);
    forall i: nat | i != id
      ensures GrantsOf(s'.scripts, i) == GrantsOf(s.scripts, i)
    {
      GrantsOfSnoc(s.scripts, x, i);
    }
    if lost {
      var pass := r.phase.pass.(granted := x.granted, fault := Router.AcquireRaises);
      VisitedCounts(r, r.phase.cand, pass, Router.StatusRaised);
    } else if !x.granted {
      VisitedCounts(r, r.phase.cand, r.phase.pass.(granted := false), Router.BucketEmpty);
    }
    OthersKeepBooks(s, Next(s', id, Resolved(s', r, lost)), id, Resolved(s', r, lost));
  }

  lemma MissingKeepsAccounted(s: State, id: nat, cfg: Router.Settings)
    requires Accounted(s) && id in s.requests && s.requests[id].phase.Granted? && Steady(cfg, s.requests[id])
    ensures
      var r := s.requests[id];
      Accounted(Next(s, id, Visited(r, r.phase.cand, r.phase.pass, Router.VendorMissing)))
  {
    var r := s.requests[id];
    assert Books(s, id, r);
    VisitedCounts(r, r.phase.cand, r.phase.pass, Router.VendorMissing);
    var r' := Visited(r, r.phase.cand, r.phase.pass, Router.VendorMissing);
    OthersKeepBooks(s, Next(s, id, r'), id, r');
  }

  lemma CalledKeepsAccounted(s: State, id: nat, t0S: real)
    requires Accounted(s) && id in s.requests && s.requests[id].phase.Granted?
    ensures Accounted(Called(s, id, t0S))
  {
    var r, s' := s.requests[id], Called(s, id, t0S);
    assert Books(s, id, r);
    var c := s'.calls[|s.calls|];
    CallsOfSnoc(s.calls, c, id);
    forall i: nat | i != id
      ensures CallsOf(s'.calls, i) == CallsOf(s.calls, i)
    {
      CallsOfSnoc(s.calls, c, i);
    }
    OthersKeepBooks(s, s', id, s'.requests[id]);
  }

  lemma AnswerIsCalled(answer: Router.Answer)
    ensures Router.Called(Router.AnswerStatus(answer)) && Router.AnswerStatus(answer) != Router.StatusRaised
  {
  }

  /** An answered call leaves the request's books balanced. */
  lemma AnsweredBooks(s: State, s': State, id: nat, r: Request, r': Request, pass: Router.Pass, status: Router.Status)
    requires Books(s, id, r) && r.phase.Calling? && |r.visits| == |r.passes| && pass.granted
    requires r' == Visited(r, r.phase.cand, pass, status) && Router.Called(status) && status != Router.StatusRaised
    requires s'.scripts == s.scripts && s'.calls == s.calls
    ensures Books(s', id, r')
  {
    VisitedCounts(r, r.phase.cand, pass, status);
  }

  lemma AnswerKeepsAccounted(s: State, id: nat, answer: Router.Answer, doneS: real, cfg: Router.Settings)
    requires Accounted(s) && id in s.requests && s.requests[id].phase.Calling? && Steady(cfg, s.requests[id])
    ensures Accounted(Next(s, id, Answered(s.requests[id], answer, doneS)))
  {
    var r := s.requests[id];
    var r', s' := Answered(r, answer, doneS), Next(s, id, Answered(r, answer, doneS));
    AnswerIsCalled(answer);
    AnsweredBooks(s, s', id, r, r', r.phase.pass.(answer := answer, doneS := doneS), Router.AnswerStatus(answer));
    OthersKeepBooks(s, s', id, r');
  }

  lemma RaiseKeepsAccounted(s: State, id: nat, cfg: Router.Settings)
    requires Accounted(s) && id in s.requests && Steady(cfg, s.requests[id])
    requires s.requests[id].phase.Acquiring? || s.requests[id].phase.Calling?
    ensures Accounted(Next(s, id, Aborted(s.requests[id])))
  {
    var r := s.requests[id];
    assert Books(s, id, r);
    var fault := if r.phase.Acquiring? then Router.AcquireRaises else Router.CallRaises;
    VisitedCounts(r, r.phase.cand, r.phase.pass.(fault := fault), Router.StatusRaised);
    OthersKeepBooks(s, Next(s, id, Aborted(r)), id, Aborted(r));
  }

  lemma RefreshKeepsAccounted(s: State, s': State, x: Script)
    requires Accounted(s) && Extends(s, s', x) && x.owner == ForRefresh
    ensures Accounted(s')
  {
    forall i: nat
      ensures GrantsOf(s'.scripts, i) == GrantsOf(s.scripts, i)
    {
      GrantsOfSnoc(s.scripts, x, i);
    }
    SameLogsKeepAccounted(s, s');
  }

  lemma SameLogsKeepAccounted(s: State, s': State)
    requires Accounted(s) && s'.requests == s.requests && s'.calls == s.calls
    requires forall i: nat :: GrantsOf(s'.scripts, i) == GrantsOf(s.scripts, i)
    ensures Accounted(s')
  {
    forall i | i in s'.requests
      ensures Books(s', i, s'.requests[i])
    {
      assert Books(s, i, s.requests[i]);
    }
    forall i | i !in s'.requests
      ensures Unheard(s', i)
    {
      assert Unheard(s, i);
    }
  }

  lemma AcquireStepAccounted(
    s: State, id: nat, readMs: int, lost: bool, cfg: Router.Settings, limits: Limits)
    requires AllRuns(cfg, s) && Accounted(s) && id in s.requests && s.requests[id].phase.Acquiring?
    ensures
      var r := s.requests[id];
      var s' := RunScript(s, r.phase.cand, readMs, r.est, ForRequest(id), limits);
      Accounted(Next(s', id, Resolved(s', r, lost)))
  {
    var r := s.requests[id];
    RunsAreSteady(cfg, r);
    var x := ScriptExtends(s, r.phase.cand, readMs, r.est, ForRequest(id), limits);
    AcquireKeepsAccounted(s, RunScript(s, r.phase.cand, readMs, r.est, ForRequest(id), limits), x, id, lost, cfg);
  }

  lemma RefreshStepAccounted(s: State, cand: CandidateRef, readMs: int, limits: Limits)
    requires Accounted(s)
    ensures Accounted(RunScript(s, cand, readMs, 0, ForRefresh, limits))
  {
    var x := ScriptExtends(s, cand, readMs, 0, ForRefresh, limits);
    RefreshKeepsAccounted(s, RunScript(s, cand, readMs, 0, ForRefresh, limits), x);
  }

  lemma ArriveStepAccounted(s: State, step: Step, cfg: Router.Settings, limits: Limits)
    requires Accounted(s) && step.Arrive?
    ensures Accounted(Apply(s, step, cfg, limits))
  {
    if step.id !in s.requests && step.model in cfg.tiers {
      ArriveKeepsAccounted(s, step.id, cfg.tiers[step.model], step.est, step.startS + cfg.totalBudgetS);
    }
  }

  lemma PickStepAccounted(s: State, step: Step, cfg: Router.Settings, limits: Limits)
    requires AllRuns(cfg, s) && Accounted(s) && step.Pick?
    ensures Accounted(Apply(s, step, cfg, limits))
  {
    if step.id in s.requests && s.requests[step.id].phase.Choosing? {
      RunsAreSteady(cfg, s.requests[step.id]);
      PickKeepsAccounted(s, step.id, Fresh(step.nowS, step.weights, step.u), cfg);
    }
  }

  lemma CallingStepsAccounted(s: State, step: Step, cfg: Router.Settings, limits: Limits)
    requires AllRuns(cfg, s) && Accounted(s) && (step.CallVendor? || step.Answer? || step.Raise?)
    ensures Accounted(Apply(s, step, cfg, limits))
  {
    if step.id in s.requests {
      RunsAreSteady(cfg, s.requests[step.id]);
    }
    match step {
      case CallVendor(id, t0S) =>
        if id in s.requests && s.requests[id].phase.Granted? {
          if s.requests[id].phase.cand.provider in cfg.vendors {
            CalledKeepsAccounted(s, id, t0S);
          } else {
            MissingKeepsAccounted(s, id, cfg);
          }
        }
      case Answer(id, answer, doneS) =>
        if id in s.requests && s.requests[id].phase.Calling? {
          AnswerKeepsAccounted(s, id, answer, doneS, cfg);
        }
      case Raise(id) =>
        if id in s.requests && (s.requests[id].phase.Acquiring? || s.requests[id].phase.Calling?) {
          RaiseKeepsAccounted(s, id, cfg);
        }
    }
  }

  lemma BucketStepsAccounted(s: State, step: Step, cfg: Router.Settings, limits: Limits)
    requires AllRuns(cfg, s) && Accounted(s)
    requires step.AcquireFor? || step.Refresh? || step.ClampKey? || step.Advance?
    ensures Accounted(Apply(s, step, cfg, limits))
  {
    match step {
      case AcquireFor(id, readMs, lost) =>
        if id in s.requests && s.requests[id].phase.Acquiring? && Timely(s, readMs) {
          AcquireStepAccounted(s, id, readMs, lost, cfg, limits);
        }
      case Refresh(cand, readMs) =>
        if Timely(s, readMs) {
          RefreshStepAccounted(s, cand, readMs, limits);
        }
      case _ => SameLogsKeepAccounted(s, Apply(s, step, cfg, limits));
    }
  }

  lemma ApplyKeepsAccounted(s: State, step: Step, cfg: Router.Settings, limits: Limits)
    requires AllRuns(cfg, s) && Accounted(s)
    ensures Accounted(Apply(s, step, cfg, limits))
  {
    if step.Arrive? {
      ArriveStepAccounted(s, step, cfg, limits);
    } else if step.Pick? {
      PickStepAccounted(s, step, cfg, limits);
    } else if step.CallVendor? || step.Answer? || step.Raise? {
      CallingStepsAccounted(s, step, cfg, limits);
    } else {
      BucketStepsAccounted(s, step, cfg, limits);
    }
  }

  lemma {:induction false} RequestsAreAccounted(nowMs: int, steps: seq<Step>, cfg: Router.Settings, limits: Limits)
    ensures Accounted(Run(nowMs, steps, cfg, limits))
  {
    if steps != [] {
      RequestsAreRuns(nowMs, steps[..|steps| - 1], cfg, limits);
      RequestsAreAccounted(nowMs, steps[..|steps| - 1], cfg, limits);
      ApplyKeepsAccounted(Run(nowMs, steps[..|steps| - 1], cfg, limits), steps[|steps| - 1], cfg, limits);
    }
  }

  /** In every interleaving each request's picks are its empty buckets, missing
      vendors, attempts and at most one exception; its grants in the shared log are its
      attempts, its missing vendors, the one an exception lost and the one it may be
      holding; and it made one vendor call per attempt, finished, raised or under way. */
  lemma {:induction false} RequestsConserve(nowMs: int, steps: seq<Step>, cfg: Router.Settings, limits: Limits, id: nat)
    requires id in Run(nowMs, steps, cfg, limits).requests
    ensures
      var s := Run(nowMs, steps, cfg, limits);
      var r := s.requests[id];
      var attempts := |Router.AttemptsOf(r.visits, WorldOf(r.passes))|;
      var missing := Router.CountStatus(r.visits, Router.VendorMissing);
      var raised := Router.CountStatus(r.visits, Router.StatusRaised);
      && raised <= 1
      && |r.visits| == Router.CountStatus(r.visits, Router.BucketEmpty) + missing + attempts + raised
      && GrantsOf(s.scripts, id) == attempts + missing + Router.RaisedHolding(r.visits, WorldOf(r.passes))
           + (if r.phase.Granted? || r.phase.Calling? then 1 else 0)
      && CallsOf(s.calls, id) == attempts + RaisedCalls(r.visits, WorldOf(r.passes))
           + (if r.phase.Calling? then 1 else 0)
  {
    RequestsAreRuns(nowMs, steps, cfg, limits);
    RequestsAreAccounted(nowMs, steps, cfg, limits);
    var s := Run(nowMs, steps, cfg, limits);
    RequestConserves(s, id, s.requests[id], cfg);
  }

  lemma {:induction false} RequestConserves(s: State, id: nat, r: Request, cfg: Router.Settings)
    requires IsRun(cfg, r) && Books(s, id, r)
    ensures
      var attempts := |Router.AttemptsOf(r.visits, WorldOf(r.passes))|;
      var missing := Router.CountStatus(r.visits, Router.VendorMissing);
      var raised := Router.CountStatus(r.visits, Router.StatusRaised);
      && raised <= 1
      && |r.visits| == Router.CountStatus(r.visits, Router.BucketEmpty) + missing + attempts + raised
      && GrantsOf(s.scripts, id) == attempts + missing + Router.RaisedHolding(r.visits, WorldOf(r.passes))
           + (if r.phase.Granted? || r.phase.Calling? then 1 else 0)
      && CallsOf(s.calls, id) == attempts + RaisedCalls(r.visits, WorldOf(r.passes))
           + (if r.phase.Calling? then 1 else 0)
  {
    var world := WorldOf(r.passes);
    GoingRunIsRun(cfg, r);
    Router.PicksAndGrantsConserved(cfg, r.tier, r.deadlineS, world, r.visits);
  }

  lemma GoingRunIsRun(cfg: Router.Settings, r: Request)
    requires IsRun(cfg, r)
    ensures Router.Run(cfg, r.tier, r.deadlineS, WorldOf(r.passes), r.visits)
  {
  }
}
