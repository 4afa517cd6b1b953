/**
 * Any number of requests in one process, interleaved with changes of tier. All of them share one
 * limiter and one metrics object; each runs the middleware and its handler step by step.
 */
module Requests {
  import opened Wrappers
  import opened Policies
  import opened RateLimiter
  import opened Metrics
  import opened Handlers
  import opened Percentiles

  const EXCLUDED_PREFIXES := ["/health", "/metrics", "/internal", "/docs", "/openapi.json"]

  predicate Excluded(path: string)
  {
    exists i | 0 <= i < |EXCLUDED_PREFIXES| :: EXCLUDED_PREFIXES[i] <= path
  }

  function Route(path: string): Option<Endpoint>
  {
    if path == "/checkout" then Some(Checkout)
    else if path == "/recommendations" then Some(Recommendations)
    else if path == "/catalog" then Some(Catalog)
    else None
  }

  /** The excluded paths are those that start with one of five prefixes; none of the protected ones does. */
  lemma ExcludedPaths(path: string)
    ensures Excluded(path) <==>
            || "/health" <= path || "/metrics" <= path || "/internal" <= path || "/docs" <= path
            || "/openapi.json" <= path
    ensures Route(path).Some? ==> !Excluded(path)
  {
    assert EXCLUDED_PREFIXES[0] == "/health" && EXCLUDED_PREFIXES[1] == "/metrics";
    assert EXCLUDED_PREFIXES[2] == "/internal" && EXCLUDED_PREFIXES[3] == "/docs";
    assert EXCLUDED_PREFIXES[4] == "/openapi.json";
    assert Route(path).Some? ==> path[1] == 'c' || path[1] == 'r';
  }

  const NOT_FOUND := Response(404, NormalMode, false, None, None)

  /** What a finished handler leaves behind: an answer, or nothing if it raised. */
  datatype Stage =
    | Entered                                                    // the middleware has the request
    | Bypassed                                                   // excluded from the metrics
    | Running                                                    // counted; the handler has read nothing
    | AtLimiter(seen: SheddingLevel)                             // the handler is about to ask the limiter
    | Answered(seen: SheddingLevel, outcome: Option<Response>)   // the handler is done
    | Finished(seen: SheddingLevel, outcome: Option<Response>, completedAt: real)

  datatype Request = Request(path: string, stage: Stage)

  /** The configuration of a process. */
  datatype Config = Config(limits: Limits, windowSeconds: int, startedAt: real)

  predicate ValidConfig(c: Config)
  {
    ValidLimits(c.limits) && c.windowSeconds > 0 && c.startedAt <= c.limits.created
  }

  /**
   * The shared state: the level in force, the bucket with its calls and their callers, the metrics
   * with their samples and the requests they came from, the clock, and every request so far.
   */
  datatype World = World(
    level: SheddingLevel,
    bucket: Level,
    calls: seq<Call>,
    callers: seq<nat>,
    inFlight: int,
    recorded: seq<Sample>,
    finishers: seq<nat>,
    clock: real,
    requests: map<nat, Request>)

  datatype Action =
    | Enter(id: nat, path: string)
    | Start(id: nat)
    | Handle(id: nat)
    | AskBucket(id: nat, now: real)
    | RaiseError(id: nat)
    | Finish(id: nat, latencyMs: real, now: real)
    | SetLevel(level: SheddingLevel)

  function StatusOf(outcome: Option<Response>): int
  {
    if outcome.Some? then outcome.value.status else 500
  }

  function At(w: World, id: nat, stage: Stage): World
    requires id in w.requests
  {
    w.(requests := w.requests[id := w.requests[id].(stage := stage)])
  }

  function Handled(path: string, level: SheddingLevel): Stage
  {
    match Route(path)
    case None => Answered(level, Some(NOT_FOUND))
    case Some(endpoint) =>
      match Choose(endpoint, level)
      case Answer(response) => Answered(level, Some(response))
      case AskLimiter => AtLimiter(level)
      case Raise => Answered(level, None)
  }

  /** One step of one request, or a change of tier; None when it is out of turn. */
  function Next(c: Config, w: World, action: Action): Option<World>
  {
    match action
    case SetLevel(level) => Some(w.(level := level))
    case Enter(id, path) =>
      if id in w.requests then None
      else Some(w.(requests := w.requests[id := Request(path, Entered)]))
    case Start(id) =>
      if id !in w.requests || !w.requests[id].stage.Entered? then None
      else if Excluded(w.requests[id].path) then Some(At(w, id, Bypassed))
      else Some(At(w, id, Running).(inFlight := w.inFlight + 1))
    case Handle(id) =>
      if id !in w.requests || !w.requests[id].stage.Running? then None
      else Some(At(w, id, Handled(w.requests[id].path, w.level)))
    case AskBucket(id, now) =>
      if id !in w.requests || !w.requests[id].stage.AtLimiter? || now < w.clock then None
      else if Route(w.requests[id].path).None? then None
      else
        var allowed := Decide(c.limits, w.bucket, now);
        var response := AfterLimiter(Route(w.requests[id].path).value, allowed, now);
        Some(At(w, id, Answered(w.requests[id].stage.seen, Some(response))).(
             bucket := After(c.limits, w.bucket, now),
             calls := w.calls + [Call(now, allowed)],
             callers := w.callers + [id],
             clock := now))
    case RaiseError(id) =>
      if id !in w.requests then None
      else if w.requests[id].stage.Running? then Some(At(w, id, Answered(w.level, None)))
      else if w.requests[id].stage.AtLimiter? then Some(At(w, id, Answered(w.requests[id].stage.seen, None)))
      else None
    case Finish(id, latencyMs, now) =>
      if id !in w.requests || !w.requests[id].stage.Answered? || now < w.clock then None
      else
        var (path, stage) := (w.requests[id].path, w.requests[id].stage);
        Some(At(w, id, Stage.Finished(stage.seen, stage.outcome, now)).(
             inFlight := Max(0, w.inFlight - 1),
             recorded := w.recorded + [Sample(now, path, latencyMs, StatusOf(stage.outcome))],
             finishers := w.finishers + [id],
             clock := now))
  }

  function Initially(c: Config, level: SheddingLevel): World
  {
    World(level, Initial(c.limits), [], [], 0, [], [], c.limits.created, map[])
  }

  function Run(c: Config, level: SheddingLevel, actions: seq<Action>): Option<World>
  {
    if actions == [] then Some(Initially(c, level))
    else
      var before := Run(c, level, actions[..|actions| - 1]);
      if before.None? then None else Next(c, before.value, actions[|actions| - 1])
  }

  // ---------- what every step keeps ----------

  /** Between the middleware's start and its finish. */
  predicate Counted(stage: Stage)
  {
    stage.Running? || stage.AtLimiter? || stage.Answered?
  }

  function OutcomeOf(stage: Stage): Option<Response>
  {
    if stage.Answered? || stage.Finished? then stage.outcome else None
  }

  /** When a token was spent on the request, if one was. */
  function PaidAt(request: Request): Option<real>
  {
    var outcome := OutcomeOf(request.stage);
    if outcome.Some? then outcome.value.admittedAt else None
  }

  function Active(requests: map<nat, Request>): set<nat>
  {
    set id | id in requests && Counted(requests[id].stage)
  }

  function Done(requests: map<nat, Request>): set<nat>
  {
    set id | id in requests && requests[id].stage.Finished?
  }

  predicate Unrepeated(ids: seq<nat>)
  {
    forall i, j | 0 <= i < j < |ids| :: ids[i] != ids[j]
  }

  /** The limiter is in a state that its calls explain, and each call belongs to the request it decided. */
  ghost predicate LimiterSound(c: Config, w: World)
  {
    && IsRun(c.limits, w.calls) && LevelAfter(c.limits, w.calls) == w.bucket
    && w.bucket.updatedAt <= w.clock
    && |w.callers| == |w.calls| && Unrepeated(w.callers)
    && (forall i | 0 <= i < |w.calls| ::
          && w.callers[i] in w.requests
          && OutcomeOf(w.requests[w.callers[i]].stage).Some?
          && PaidAt(w.requests[w.callers[i]]) == if w.calls[i].allowed then Some(w.calls[i].at) else None)
    && (forall id | id in w.requests && PaidAt(w.requests[id]).Some? :: id in w.callers)
  }

  /** The counter counts the requests in flight, and the samples are those of the finished ones. */
  ghost predicate MetricsSound(c: Config, w: World)
  {
    && w.inFlight == |Active(w.requests)|
    && c.startedAt <= w.clock
    && Metrics.Ordered(w.recorded) && CompletedWithin(w.recorded, c.startedAt, w.clock)
    && |w.finishers| == |w.recorded| && Unrepeated(w.finishers)
    && (forall i | 0 <= i < |w.recorded| ::
          w.finishers[i] in w.requests && SampleOf(w.requests[w.finishers[i]], w.recorded[i]))
    && (forall id | id in Done(w.requests) :: id in w.finishers)
  }

  predicate SampleOf(request: Request, sample: Sample)
  {
    && request.stage.Finished?
    && request.stage.completedAt == sample.completedAt
    && request.path == sample.path
    && StatusOf(request.stage.outcome) == sample.statusCode
  }

  /** The request was answered as the level it read prescribes. */
  predicate RequestSound(request: Request)
  {
    && (!request.stage.Entered? && !request.stage.Bypassed? ==> !Excluded(request.path))
    && (request.stage.AtLimiter? ==> Handled(request.path, request.stage.seen) == request.stage)
    && (OutcomeOf(request.stage).Some? ==>
          AnswersAsPlanned(request.path, request.stage.seen, OutcomeOf(request.stage).value))
  }

  predicate AnswersAsPlanned(path: string, seen: SheddingLevel, response: Response)
  {
    match Route(path)
    case None => response == NOT_FOUND
    case Some(endpoint) =>
      match Choose(endpoint, seen)
      case Answer(planned) => response == planned
      case Raise => false
      case AskLimiter =>
        response == AfterLimiter(endpoint, response.admittedAt.Some?,
                                 if response.admittedAt.Some? then response.admittedAt.value else 0.0)
  }

  // ---------- what the history says ----------

  /** The tier in force after a run: that of the last change, or the first one. */
  function InForce(level: SheddingLevel, actions: seq<Action>): SheddingLevel
  {
    if actions == [] then level
    else if actions[|actions| - 1].SetLevel? then actions[|actions| - 1].level
    else InForce(level, actions[..|actions| - 1])
  }

  /** The tier that was in force when the handler of a request last ran. */
  function TierRead(level: SheddingLevel, actions: seq<Action>, id: nat): Option<SheddingLevel>
  {
    if actions == [] then None
    else if actions[|actions| - 1] == Handle(id) then Some(InForce(level, actions[..|actions| - 1]))
    else TierRead(level, actions[..|actions| - 1], id)
  }

  /** When a request last asked the limiter. */
  function AskedAt(actions: seq<Action>, id: nat): Option<real>
  {
    if actions == [] then None
    else
      var last := actions[|actions| - 1];
      if last.AskBucket? && last.id == id then Some(last.now) else AskedAt(actions[..|actions| - 1], id)
  }

  function Finishes(actions: seq<Action>): seq<Action>
  {
    if actions == [] then []
    else
      var last := actions[|actions| - 1];
      Finishes(actions[..|actions| - 1]) + if last.Finish? then [last] else []
  }

  predicate FinishOf(action: Action, id: nat, sample: Sample)
  {
    action.Finish? && action.id == id && action.latencyMs == sample.latencyMs && action.now == sample.completedAt
  }

  /** Each request acts on the tier that was in force when its handler ran. */
  ghost predicate TiersExplained(level: SheddingLevel, actions: seq<Action>, w: World)
  {
    && w.level == InForce(level, actions)
    && forall id | id in w.requests && (w.requests[id].stage.AtLimiter? || OutcomeOf(w.requests[id].stage).Some?) ::
         TierRead(level, actions, id) == Some(w.requests[id].stage.seen)
  }

  /** A token spent on a request was spent when it asked the limiter. */
  ghost predicate PaymentsExplained(actions: seq<Action>, w: World)
  {
    forall id | id in w.requests && PaidAt(w.requests[id]).Some? :: AskedAt(actions, id) == PaidAt(w.requests[id])
  }

  /** The samples are those of the finishes, in their order, with the latencies and times they came with. */
  ghost predicate SamplesExplained(actions: seq<Action>, w: World)
  {
    && |Finishes(actions)| == |w.recorded| == |w.finishers|
    && forall i | 0 <= i < |w.recorded| :: FinishOf(Finishes(actions)[i], w.finishers[i], w.recorded[i])
  }

  ghost predicate Explained(level: SheddingLevel, actions: seq<Action>, w: World)
  {
    TiersExplained(level, actions, w) && PaymentsExplained(actions, w) && SamplesExplained(actions, w)
  }

  lemma HistoryStep(level: SheddingLevel, actions: seq<Action>, x: Action)
    ensures InForce(level, actions + [x]) == if x.SetLevel? then x.level else InForce(level, actions)
    ensures forall id :: TierRead(level, actions + [x], id) ==
                         if x == Handle(id) then Some(InForce(level, actions)) else TierRead(level, actions, id)
    ensures forall id :: AskedAt(actions + [x], id) ==
                         if x.AskBucket? && x.id == id then Some(x.now) else AskedAt(actions, id)
    ensures Finishes(actions + [x]) == if x.Finish? then Finishes(actions) + [x] else Finishes(actions)
  {
    assert (actions + [x])[..|actions|] == actions;
    assert Finishes(actions) + [] == Finishes(actions);
  }

  lemma StepKeepsTiers(c: Config, level: SheddingLevel, actions: seq<Action>, w: World, x: Action)
    requires TiersExplained(level, actions, w) && Next(c, w, x).Some?
    ensures TiersExplained(level, actions + [x], Next(c, w, x).value)
  {
    HistoryStep(level, actions, x);
    hide Excluded, Decide, RateLimiter.After, AfterLimiter, Handled, InForce, TierRead, AskedAt, Finishes;
    if x.Handle? {
      HandledReads(w.requests[x.id].path, w.level);
    }
  }

  lemma HandledReads(path: string, level: SheddingLevel)
    ensures var stage := Handled(path, level); stage.AtLimiter? || OutcomeOf(stage).Some? ==> stage.seen == level
  {}

  lemma StepKeepsPayments(c: Config, level: SheddingLevel, actions: seq<Action>, w: World, x: Action)
    requires PaymentsExplained(actions, w) && Next(c, w, x).Some?
    ensures PaymentsExplained(actions + [x], Next(c, w, x).value)
  {
    HistoryStep(level, actions, x);
    hide Excluded, Decide, RateLimiter.After, Handled, InForce, TierRead, AskedAt, Finishes;
    if x.Handle? {
      HandledPaysNothing(w.requests[x.id].path, w.level);
    }
  }

  lemma StepKeepsSamples(c: Config, level: SheddingLevel, actions: seq<Action>, w: World, x: Action)
    requires SamplesExplained(actions, w) && Next(c, w, x).Some?
    ensures SamplesExplained(actions + [x], Next(c, w, x).value)
  {
    HistoryStep(level, actions, x);
    hide Excluded, Decide, RateLimiter.After, AfterLimiter, Handled, InForce, TierRead, AskedAt, Finishes;
  }

  ghost predicate Sound(c: Config, w: World)
  {
    && LimiterSound(c, w)
    && MetricsSound(c, w)
    && forall id | id in w.requests :: RequestSound(w.requests[id])
  }

  lemma LimiterStep(c: Config, w: World, id: nat, now: real)
    requires ValidConfig(c) && LimiterSound(c, w) && Next(c, w, AskBucket(id, now)).Some?
    ensures LimiterSound(c, Next(c, w, AskBucket(id, now)).value)
  {
    hide IsRun, LevelAfter, Earned;
    var after := Next(c, w, AskBucket(id, now)).value;
    ExtendRun(c.limits, w.calls, now);
    assert PaidAt(after.requests[id]) ==
           if Decide(c.limits, w.bucket, now) then Some(now) else None;
    assert forall i | 0 <= i < |w.callers| :: w.callers[i] != id;
  }

  /** Steps that leave the limiter alone keep it sound if they take no answer away. */
  lemma LimiterUntouched(c: Config, w: World, after: World)
    requires LimiterSound(c, w)
    requires after.bucket == w.bucket && after.calls == w.calls && after.callers == w.callers && w.clock <= after.clock
    requires forall id | id in w.requests ::
               && id in after.requests
               && PaidAt(after.requests[id]) == PaidAt(w.requests[id])
               && (OutcomeOf(w.requests[id].stage).Some? ==> OutcomeOf(after.requests[id].stage).Some?)
    requires forall id | id in after.requests && id !in w.requests :: PaidAt(after.requests[id]).None?
    ensures LimiterSound(c, after)
  {}

  lemma StepKeepsLimiter(c: Config, w: World, action: Action)
    requires ValidConfig(c) && LimiterSound(c, w) && Next(c, w, action).Some?
    ensures LimiterSound(c, Next(c, w, action).value)
  {
    hide LimiterSound;
    if action.AskBucket? {
      hide Next;
      LimiterStep(c, w, action.id, action.now);
    } else {
      hide Handled, Excluded;
      if action.Handle? {
        HandledPaysNothing(w.requests[action.id].path, w.level);
      }
      LimiterUntouched(c, w, Next(c, w, action).value);
    }
  }

  lemma HandledPaysNothing(path: string, level: SheddingLevel)
    ensures OutcomeOf(Handled(path, level)).Some? ==> OutcomeOf(Handled(path, level)).value.admittedAt.None?
    ensures Counted(Handled(path, level)) && !Handled(path, level).Finished?
  {
    if Route(path).Some? {
      BranchesFollowThePolicy(Route(path).value, level);
    }
  }

  lemma FinishKeepsMetrics(c: Config, w: World, id: nat, latencyMs: real, now: real)
    requires MetricsSound(c, w) && Next(c, w, Finish(id, latencyMs, now)).Some?
    ensures MetricsSound(c, Next(c, w, Finish(id, latencyMs, now)).value)
    ensures Next(c, w, Finish(id, latencyMs, now)).value.inFlight == w.inFlight - 1
  {
    hide Metrics.Ordered, CompletedWithin;
    var after := Next(c, w, Finish(id, latencyMs, now)).value;
    assert id in Active(w.requests);
    assert Active(after.requests) == Active(w.requests) - {id};
    assert forall i | 0 <= i < |w.recorded| :: SampleOf(w.requests[w.finishers[i]], w.recorded[i]);
    assert forall i | 0 <= i < |w.finishers| :: w.finishers[i] != id;
    AppendKeepsOrder(w.recorded, after.recorded[|w.recorded|], c.startedAt, w.clock);
    assert forall other | other in Done(after.requests) :: other == id || other in Done(w.requests);
  }

  /** Steps that record no sample keep the metrics sound if they only start requests that they count. */
  lemma MetricsUntouched(c: Config, w: World, after: World)
    requires MetricsSound(c, w)
    requires after.recorded == w.recorded && after.finishers == w.finishers && w.clock <= after.clock
    requires after.inFlight == |Active(after.requests)|
    requires forall id | id in w.requests && w.requests[id].stage.Finished? ::
               id in after.requests && after.requests[id] == w.requests[id]
    requires forall id | id in after.requests && after.requests[id].stage.Finished? ::
               id in w.requests && after.requests[id] == w.requests[id]
    ensures MetricsSound(c, after)
  {}

  lemma StepKeepsMetrics(c: Config, w: World, action: Action)
    requires MetricsSound(c, w) && Next(c, w, action).Some?
    ensures MetricsSound(c, Next(c, w, action).value)
  {
    hide MetricsSound;
    if action.Finish? {
      FinishKeepsMetrics(c, w, action.id, action.latencyMs, action.now);
    } else {
      assert w.inFlight == |Active(w.requests)| by { CounterIsActive(c, w); }
      ActiveAfter(c, w, action);
      hide Active, Decide, RateLimiter.After, Handled;
      if action.Handle? {
        HandledPaysNothing(w.requests[action.id].path, w.level);
      }
      MetricsUntouched(c, w, Next(c, w, action).value);
    }
  }

  lemma CounterIsActive(c: Config, w: World)
    requires MetricsSound(c, w)
    ensures w.inFlight == |Active(w.requests)|
  {}

  /** What a change of stage does to the requests in flight. */
  lemma ActiveAt(w: World, id: nat, stage: Stage)
    requires id in w.requests
    ensures var (was, becomes) := (Counted(w.requests[id].stage), Counted(stage));
            |Active(At(w, id, stage).requests)| ==
            |Active(w.requests)| + (if becomes then 1 else 0) - (if was then 1 else 0)
  {
    var before, after := Active(w.requests), Active(At(w, id, stage).requests);
    assert id in before <==> Counted(w.requests[id].stage);
    assert id in after <==> Counted(stage);
    forall other | other != id
      ensures other in after <==> other in before
    {}
    hide Active, Counted, At;
    SizesDifferByOne(before, after, id);
  }

  lemma SizesDifferByOne(before: set<nat>, after: set<nat>, id: nat)
    requires forall other | other != id :: other in after <==> other in before
    ensures |after| == |before| + (if id in after then 1 else 0) - (if id in before then 1 else 0)
  {
    if id in before <==> id in after {
      assert after == before;
    } else if id in after {
      assert after == before + {id};
    } else {
      assert before == after + {id};
    }
  }

  /** Only a counted start adds to the requests in flight, and only a finish takes away. */
  lemma ActiveAfter(c: Config, w: World, action: Action)
    requires Next(c, w, action).Some? && !action.Finish?
    ensures var after := Next(c, w, action).value;
            |Active(after.requests)| - |Active(w.requests)| == after.inFlight - w.inFlight
  {
    hide Decide, RateLimiter.After, Excluded, Handled, Active;
    match action
    case SetLevel(_) =>
    case Enter(id, path) => EnteringCountsNothing(w.requests, id, path);
    case Start(id) =>
      ActiveAt(w, id, Bypassed);
      ActiveAt(w, id, Running);
    case Handle(id) =>
      HandledPaysNothing(w.requests[id].path, w.level);
      ActiveAt(w, id, Handled(w.requests[id].path, w.level));
    case AskBucket(id, _) => ActiveAt(w, id, Next(c, w, action).value.requests[id].stage);
    case RaiseError(id) => ActiveAt(w, id, Next(c, w, action).value.requests[id].stage);
  }

  lemma EnteringCountsNothing(requests: map<nat, Request>, id: nat, path: string)
    requires id !in requests
    ensures Active(requests[id := Request(path, Entered)]) == Active(requests)
  {}

  lemma StepKeepsRequests(c: Config, w: World, action: Action)
    requires Next(c, w, action).Some?
    requires forall id | id in w.requests :: RequestSound(w.requests[id])
    ensures forall id | id in Next(c, w, action).value.requests :: RequestSound(Next(c, w, action).value.requests[id])
  {
    hide Excluded, Decide, RateLimiter.After;
  }

  lemma {:induction false} EveryRunIsSound(c: Config, level: SheddingLevel, actions: seq<Action>)
    requires ValidConfig(c) && Run(c, level, actions).Some?
    ensures Sound(c, Run(c, level, actions).value)
    ensures Explained(level, actions, Run(c, level, actions).value)
  {
    hide Next, RequestSound;
    if actions == [] {
      assert Active(map[]) == {} && Done(map[]) == {};
    } else {
      var earlier, last := actions[..|actions| - 1], actions[|actions| - 1];
      EveryRunIsSound(c, level, earlier);
      var before := Run(c, level, earlier).value;
      hide LimiterSound, MetricsSound, TiersExplained, PaymentsExplained, SamplesExplained;
      StepKeepsTiers(c, level, earlier, before, last);
      StepKeepsPayments(c, level, earlier, before, last);
      StepKeepsSamples(c, level, earlier, before, last);
      assert actions == earlier + [last];
      StepKeepsLimiter(c, before, last);
      StepKeepsMetrics(c, before, last);
      StepKeepsRequests(c, before, last);
    }
  }

  // ---------- the emergency limit ----------

  /** The requests on which a token was spent between `from` and `to`. */
  function PaidWithin(requests: map<nat, Request>, from: real, to: real): set<nat>
  {
    set id | id in requests && PaidAt(requests[id]).Some? && from <= PaidAt(requests[id]).value <= to
  }

  function CallersWithin(calls: seq<Call>, callers: seq<nat>, from: real, to: real): set<nat>
    requires |callers| == |calls|
  {
    if calls == [] then {}
    else
      var n := |calls| - 1;
      CallersWithin(calls[..n], callers[..n], from, to) +
      if calls[n].allowed && from <= calls[n].at <= to then {callers[n]} else {}
  }

  /** Call `i` was admitted between `from` and `to`. */
  predicate AdmittedIn(calls: seq<Call>, i: int, from: real, to: real)
  {
    0 <= i < |calls| && calls[i].allowed && from <= calls[i].at <= to
  }

  lemma {:induction false} CallersWithinAre(calls: seq<Call>, callers: seq<nat>, from: real, to: real)
    requires |callers| == |calls|
    ensures forall i | AdmittedIn(calls, i, from, to) :: callers[i] in CallersWithin(calls, callers, from, to)
    ensures forall id | id in CallersWithin(calls, callers, from, to) ::
              exists i :: AdmittedIn(calls, i, from, to) && callers[i] == id
  {
    if calls != [] {
      var n := |calls| - 1;
      CallersWithinAre(calls[..n], callers[..n], from, to);
      forall i | AdmittedIn(calls, i, from, to)
        ensures callers[i] in CallersWithin(calls, callers, from, to)
      {
        assert i < n ==> AdmittedIn(calls[..n], i, from, to) && callers[..n][i] == callers[i];
      }
      forall id | id in CallersWithin(calls, callers, from, to)
        ensures exists i :: AdmittedIn(calls, i, from, to) && callers[i] == id
      {
        if id in CallersWithin(calls[..n], callers[..n], from, to) {
          var i :| AdmittedIn(calls[..n], i, from, to) && callers[..n][i] == id;
          assert AdmittedIn(calls, i, from, to) && callers[i] == id;
        } else {
          assert AdmittedIn(calls, n, from, to) && callers[n] == id;
        }
      }
    }
  }

  lemma {:induction false} CallersAreCounted(calls: seq<Call>, callers: seq<nat>, from: real, to: real)
    requires |callers| == |calls| && Unrepeated(callers)
    ensures |CallersWithin(calls, callers, from, to)| == AdmittedWithin(calls, from, to)
  {
    if calls != [] {
      var n := |calls| - 1;
      CallersAreCounted(calls[..n], callers[..n], from, to);
      CallersWithinAre(calls[..n], callers[..n], from, to);
      assert callers[n] !in CallersWithin(calls[..n], callers[..n], from, to);
    }
  }

  /** Exactly the admitted calls of a window are the requests paid for in it. */
  lemma PaidRequestsAreAdmittedCalls(c: Config, w: World, from: real, to: real)
    requires LimiterSound(c, w)
    ensures |PaidWithin(w.requests, from, to)| == AdmittedWithin(w.calls, from, to)
  {
    hide IsRun, LevelAfter, AdmittedWithin, CallersWithin;
    CallersAreCounted(w.calls, w.callers, from, to);
    CallersWithinAre(w.calls, w.callers, from, to);
    var callers, paid := CallersWithin(w.calls, w.callers, from, to), PaidWithin(w.requests, from, to);
    forall id | id in paid
      ensures id in callers
    {
      var i :| 0 <= i < |w.callers| && w.callers[i] == id;
      assert AdmittedIn(w.calls, i, from, to);
    }
    forall id | id in callers
      ensures id in paid
    {
      var i :| AdmittedIn(w.calls, i, from, to) && w.callers[i] == id;
    }
    assert callers == paid;
  }

  /** The requests that non-critical endpoints answered in full measure in the emergency tier, by when they asked. */
  ghost function EmergencyServed(level: SheddingLevel, actions: seq<Action>, requests: map<nat, Request>,
                                 from: real, to: real): set<nat>
  {
    set id | id in requests && TierRead(level, actions, id) == Some(RateLimitNoncritical)
             && (requests[id].path == "/recommendations" || requests[id].path == "/catalog")
             && OutcomeOf(requests[id].stage).Some? && OutcomeOf(requests[id].stage).value.status == 200
             && (AskedAt(actions, id).Some? ==> from <= AskedAt(actions, id).value <= to)
  }

  /**
   * The emergency bound of the whole process: of the requests to recommendations and catalog whose handler
   * ran while the emergency tier was in force, those answered 200 within any window are at most what one
   * bucket allows, whatever else is going on. Each of them asked the limiter, and no other request paid.
   */
  lemma EmergencyTrafficIsBounded(c: Config, level: SheddingLevel, actions: seq<Action>, from: real, to: real)
    requires ValidConfig(c) && Run(c, level, actions).Some? && from <= to
    ensures var requests := Run(c, level, actions).value.requests;
            var served := EmergencyServed(level, actions, requests, from, to);
            && served == PaidWithin(requests, from, to)
            && (forall id | id in served :: AskedAt(actions, id).Some?)
            && |served| as real <= c.limits.burst as real + (to - from) * c.limits.rate
  {
    hide Run, Allowance, EmergencyServed, PaidWithin, Sound, Explained, AskedAt, TierRead, PaidAt;
    var w := Run(c, level, actions).value;
    var served, paid := EmergencyServed(level, actions, w.requests, from, to), PaidWithin(w.requests, from, to);
    EmergencyServedAreRequests(level, actions, w.requests, from, to);
    forall id | id in w.requests
      ensures id in served <==> id in paid
      ensures id in paid ==> AskedAt(actions, id).Some?
    {
      ServedWhenPaid(c, level, actions, id, from, to);
    }
    assert served == paid;
    PaidAreWithinAllowance(c, level, actions, from, to);
    AllowanceIsBurstAndRate(c.limits, to - from);
  }

  lemma PaidAreWithinAllowance(c: Config, level: SheddingLevel, actions: seq<Action>, from: real, to: real)
    requires ValidConfig(c) && Run(c, level, actions).Some? && from <= to
    ensures |PaidWithin(Run(c, level, actions).value.requests, from, to)| as real <= Allowance(c.limits, to - from)
  {
    EveryRunIsSound(c, level, actions);
    hide Run, Allowance, MetricsSound, RequestSound, Explained;
    var w := Run(c, level, actions).value;
    PaidRequestsAreAdmittedCalls(c, w, from, to);
    NoWindowIsOverrun(c.limits, w.calls, from, to);
  }

  lemma ServedWhenPaid(c: Config, level: SheddingLevel, actions: seq<Action>, id: nat, from: real, to: real)
    requires ValidConfig(c) && Run(c, level, actions).Some? && id in Run(c, level, actions).value.requests
    ensures var requests := Run(c, level, actions).value.requests;
            && (id in EmergencyServed(level, actions, requests, from, to) <==> id in PaidWithin(requests, from, to))
            && (id in PaidWithin(requests, from, to) ==> AskedAt(actions, id).Some?)
  {
    OnlyEmergencyAnswersCostTokens(c, level, actions, id);
    EveryRunIsSound(c, level, actions);
    hide Run, Sound, TierRead, AskedAt, TiersExplained, SamplesExplained, PaidAt, OutcomeOf;
  }

  lemma EmergencyServedAreRequests(
      level: SheddingLevel, actions: seq<Action>, requests: map<nat, Request>, from: real, to: real)
    ensures EmergencyServed(level, actions, requests, from, to) <= requests.Keys
    ensures PaidWithin(requests, from, to) <= requests.Keys
  {}

  /**
   * A token is spent on a request exactly when it was answered 200 on one of the two non-critical endpoints
   * by a handler that ran while the emergency tier was in force.
   */
  lemma OnlyEmergencyAnswersCostTokens(c: Config, level: SheddingLevel, actions: seq<Action>, id: nat)
    requires ValidConfig(c) && Run(c, level, actions).Some? && id in Run(c, level, actions).value.requests
    ensures var request := Run(c, level, actions).value.requests[id];
            PaidAt(request).Some? <==>
              && OutcomeOf(request.stage).Some? && OutcomeOf(request.stage).value.status == 200
              && TierRead(level, actions, id) == Some(RateLimitNoncritical)
              && (request.path == "/recommendations" || request.path == "/catalog")
  {
    EveryRunIsSound(c, level, actions);
    var request := Run(c, level, actions).value.requests[id];
    assert RequestSound(request) by { SoundRequest(c, Run(c, level, actions).value, id); }
    assert OutcomeOf(request.stage).Some? ==> TierRead(level, actions, id) == Some(request.stage.seen);
    hide Run, Sound, TierRead, TiersExplained, PaymentsExplained, SamplesExplained;
    if Route(request.path).Some? && OutcomeOf(request.stage).Some? {
      BranchesFollowThePolicy(Route(request.path).value, request.stage.seen);
    }
  }

  /** What a client is promised on a path that is counted, tier by tier. */
  predicate Promised(path: string, tier: int, r: Response)
  {
    && (r.retryAfter == if r.status == 429 then Some(1.0) else None)
    && if path == "/checkout" then r.status == 200 && r.mode == NormalMode && !r.degraded
       else if path == "/recommendations" then
         if tier == 0 then r.status == 200 && r.mode == NormalMode && !r.degraded
         else if tier <= 2 then r.status == 200 && r.mode == Disabled && r.degraded
         else (r.status == 200 || r.status == 429) && r.mode == RateLimited && r.degraded
       else if path == "/catalog" then
         if tier <= 1 then r.status == 200 && r.mode == NormalMode && !r.degraded
         else if tier == 2 then r.status == 200 && r.mode == Cached && r.degraded
         else r.degraded && ((r.status == 200 && r.mode == Cached) || (r.status == 429 && r.mode == RateLimited))
       else r.status == 404
  }

  lemma PlansArePromised(path: string, seen: SheddingLevel, r: Response)
    requires AnswersAsPlanned(path, seen, r)
    ensures Promised(path, LevelValue(seen), r)
  {
    TiersShed(seen);
    hide ModeFor;
  }

  /** In every interleaving each answer is the one promised for the tier in force when the handler ran. */
  lemma AnswersFollowTheTierInForce(c: Config, level: SheddingLevel, actions: seq<Action>, id: nat)
    requires ValidConfig(c) && Run(c, level, actions).Some? && id in Run(c, level, actions).value.requests
    ensures var request, tier := Run(c, level, actions).value.requests[id], TierRead(level, actions, id);
            OutcomeOf(request.stage).Some? ==>
              tier.Some? && Promised(request.path, LevelValue(tier.value), OutcomeOf(request.stage).value)
  {
    EveryRunIsSound(c, level, actions);
    var request := Run(c, level, actions).value.requests[id];
    assert RequestSound(request) by { SoundRequest(c, Run(c, level, actions).value, id); }
    assert OutcomeOf(request.stage).Some? ==> TierRead(level, actions, id) == Some(request.stage.seen);
    hide Run, Sound, TierRead, TiersExplained, PaymentsExplained, SamplesExplained, AnswersAsPlanned, Promised;
    if OutcomeOf(request.stage).Some? {
      PlansArePromised(request.path, request.stage.seen, OutcomeOf(request.stage).value);
    }
  }

  lemma {:induction false} SinceIsWithin(calls: seq<Call>, from: real, now: real)
    requires forall i | 0 <= i < |calls| :: calls[i].at <= now
    ensures AdmittedSince(calls, from) == AdmittedWithin(calls, from, now)
  {
    if calls != [] {
      SinceIsWithin(calls[..|calls| - 1], from, now);
    }
  }

  lemma CallsAreInThePast(c: Config, w: World, now: real)
    requires LimiterSound(c, w) && w.clock <= now
    ensures forall i | 0 <= i < |w.calls| :: w.calls[i].at <= now
    ensures IsRun(c.limits, w.calls) && LevelAfter(c.limits, w.calls) == w.bucket && w.bucket.updatedAt <= now
  {
    RunsAreOrdered(c.limits, w.calls);
  }

  /** One more paid request fits in the window. */
  predicate WindowHasRoomFor(c: Config, requests: map<nat, Request>, from: real, to: real)
  {
    |PaidWithin(requests, from, to)| as real + 1.0 <= c.limits.burst as real + (to - from) * c.limits.rate
  }

  ghost predicate EveryWindowHasRoomFor(c: Config, requests: map<nat, Request>, now: real)
  {
    forall from: real | from <= now :: WindowHasRoomFor(c, requests, from, now)
  }

  lemma AdmittedSinceArePaid(c: Config, w: World, from: real, now: real)
    requires LimiterSound(c, w) && w.clock <= now
    ensures AdmittedSince(w.calls, from) == |PaidWithin(w.requests, from, now)|
  {
    CallsAreInThePast(c, w, now);
    SinceIsWithin(w.calls, from, now);
    PaidRequestsAreAdmittedCalls(c, w, from, now);
  }

  lemma WindowRoomIsForRequests(c: Config, w: World, from: real, now: real)
    requires AdmittedSince(w.calls, from) == |PaidWithin(w.requests, from, now)|
    ensures AdmittedSince(w.calls, from) as real + 1.0 <= Allowance(c.limits, now - from) <==>
            WindowHasRoomFor(c, w.requests, from, now)
  {
    hide AdmittedSince, PaidWithin, Allowance;
    AllowanceIsBurstAndRate(c.limits, now - from);
  }

  lemma RoomIsRoomForRequests(c: Config, w: World, now: real)
    requires LimiterSound(c, w) && w.clock <= now
    ensures EveryWindowHasRoom(c.limits, w.calls, now) <==> EveryWindowHasRoomFor(c, w.requests, now)
  {
    hide AdmittedSince, PaidWithin, Allowance, LimiterSound, WindowHasRoomFor;
    forall from: real | from <= now
      ensures AdmittedSince(w.calls, from) as real + 1.0 <= Allowance(c.limits, now - from) <==>
              WindowHasRoomFor(c, w.requests, from, now)
    {
      AdmittedSinceArePaid(c, w, from, now);
      WindowRoomIsForRequests(c, w, from, now);
    }
  }

  /**
   * The limiter in any interleaving: a request that asks is answered 200 exactly when every window that ends
   * now has room for one more among the requests that paid, and 429 otherwise.
   */
  lemma LimiterAnswersByWindows(c: Config, level: SheddingLevel, actions: seq<Action>, id: nat, now: real)
    requires ValidConfig(c) && Run(c, level, actions).Some?
    requires Next(c, Run(c, level, actions).value, AskBucket(id, now)).Some?
    ensures var before := Run(c, level, actions).value;
            var outcome := OutcomeOf(Next(c, before, AskBucket(id, now)).value.requests[id].stage);
            && outcome.Some?
            && outcome.value.status == if EveryWindowHasRoomFor(c, before.requests, now) then 200 else 429
  {
    EveryRunIsSound(c, level, actions);
    var w := Run(c, level, actions).value;
    hide Run, MetricsSound, RequestSound, TiersExplained, PaymentsExplained, SamplesExplained;
    CallsAreInThePast(c, w, now);
    RoomIsRoomForRequests(c, w, now);
    hide LimiterSound, EveryWindowHasRoomFor;
    AdmissionLaw(c.limits, w.calls, now);
    hide EveryWindowHasRoom, Decide, RateLimiter.After;
  }

  // ---------- every request is answered ----------

  /** The next step of a request that is not over yet. */
  function StepOf(id: nat, stage: Stage, latencyMs: real, now: real): Action
    requires !stage.Bypassed? && !stage.Finished?
  {
    match stage
    case Entered => Start(id)
    case Running => Handle(id)
    case AtLimiter(_) => AskBucket(id, now)
    case Answered(_, _) => Finish(id, latencyMs, now)
  }

  /** Nobody waits for anybody: in every interleaving each request can take its next step at any time. */
  lemma EveryRequestCanProceed(
      c: Config, level: SheddingLevel, actions: seq<Action>, id: nat, latencyMs: real, now: real)
    requires ValidConfig(c) && Run(c, level, actions).Some? && id in Run(c, level, actions).value.requests
    requires Run(c, level, actions).value.clock <= now
    ensures var w := Run(c, level, actions).value;
            var stage := w.requests[id].stage;
            !stage.Bypassed? && !stage.Finished? ==> Next(c, w, StepOf(id, stage, latencyMs, now)).Some?
  {
    hide Run, Sound, Explained, RequestSound, Next;
    EveryRunIsSound(c, level, actions);
    SoundRequest(c, Run(c, level, actions).value, id);
    var stage := Run(c, level, actions).value.requests[id].stage;
    if !stage.Bypassed? && !stage.Finished? {
      StepIsPossible(c, Run(c, level, actions).value, id, latencyMs, now);
    }
  }

  /** A handler may raise at any time before it has answered; the request is then recorded as a failure. */
  lemma RaisingIsRecorded(
      c: Config, level: SheddingLevel, actions: seq<Action>, id: nat, latencyMs: real, now: real)
    requires Run(c, level, actions).Some? && id in Run(c, level, actions).value.requests
    requires var w := Run(c, level, actions).value;
             w.clock <= now && (w.requests[id].stage.Running? || w.requests[id].stage.AtLimiter?)
    ensures var before := Run(c, level, actions).value;
            var after := Run(c, level, actions + [RaiseError(id)] + [Finish(id, latencyMs, now)]);
            && after.Some?
            && after.value.recorded == before.recorded + [Sample(now, before.requests[id].path, latencyMs, 500)]
            && after.value.bucket == before.bucket && after.value.calls == before.calls
  {
    var w := Run(c, level, actions).value;
    RunsOn(c, level, actions, RaiseError(id));
    var raised := Next(c, w, RaiseError(id)).value;
    assert raised.requests[id].stage.Answered? && raised.clock == w.clock;
    hide Run;
    RunsOn(c, level, actions + [RaiseError(id)], Finish(id, latencyMs, now));
  }

  lemma StepIsPossible(c: Config, w: World, id: nat, latencyMs: real, now: real)
    requires id in w.requests && RequestSound(w.requests[id]) && w.clock <= now
    requires !w.requests[id].stage.Bypassed? && !w.requests[id].stage.Finished?
    ensures Next(c, w, StepOf(id, w.requests[id].stage, latencyMs, now)).Some?
  {
    hide Excluded, Decide, RateLimiter.After, Choose, AfterLimiter, AnswersAsPlanned;
  }

  /** The steps of a request that nobody interrupts, made in a given tier. */
  function Visit(id: nat, path: string, tier: SheddingLevel, latencyMs: real, now: real): seq<Action>
  {
    [Enter(id, path), Start(id), Handle(id)] +
    (if tier == RateLimitNoncritical && (path == "/recommendations" || path == "/catalog")
     then [AskBucket(id, now)] else []) +
    [Finish(id, latencyMs, now)]
  }

  lemma RunsOn(c: Config, level: SheddingLevel, actions: seq<Action>, x: Action)
    requires Run(c, level, actions).Some?
    ensures Run(c, level, actions + [x]) == Next(c, Run(c, level, actions).value, x)
  {
    assert (actions + [x])[..|actions|] == actions;
  }

  /** The world with one request at a stage, counted or not. */
  function With(w: World, id: nat, path: string, stage: Stage): World
  {
    w.(requests := w.requests[id := Request(path, stage)],
       inFlight := w.inFlight + if Counted(stage) then 1 else 0)
  }

  lemma VisitStarts(c: Config, w: World, id: nat, path: string)
    requires id !in w.requests && !Excluded(path)
    ensures Next(c, w, Enter(id, path)) == Some(With(w, id, path, Entered))
    ensures Next(c, With(w, id, path, Entered), Start(id)) == Some(With(w, id, path, Running))
    ensures Next(c, With(w, id, path, Running), Handle(id)) == Some(With(w, id, path, Handled(path, w.level)))
  {
    HandledPaysNothing(path, w.level);
    hide Excluded, Handled;
    assert w.requests[id := Request(path, Entered)][id := Request(path, Running)] ==
           w.requests[id := Request(path, Running)];
    assert w.requests[id := Request(path, Running)][id := Request(path, Handled(path, w.level))] ==
           w.requests[id := Request(path, Handled(path, w.level))];
  }

  lemma VisitAsks(c: Config, w: World, id: nat, path: string, now: real) returns (r: Response)
    requires Route(path).Some? && w.clock <= now
    ensures var after := Next(c, With(w, id, path, AtLimiter(w.level)), AskBucket(id, now));
            && after.Some?
            && r == AfterLimiter(Route(path).value, Decide(c.limits, w.bucket, now), now)
            && after.value == With(w, id, path, Answered(w.level, Some(r))).(
                                bucket := RateLimiter.After(c.limits, w.bucket, now),
                                calls := w.calls + [Call(now, Decide(c.limits, w.bucket, now))],
                                callers := w.callers + [id], clock := now)
  {
    hide Decide, RateLimiter.After;
    r := AfterLimiter(Route(path).value, Decide(c.limits, w.bucket, now), now);
    assert w.requests[id := Request(path, AtLimiter(w.level))][id := Request(path, Answered(w.level, Some(r)))] ==
           w.requests[id := Request(path, Answered(w.level, Some(r)))];
  }

  lemma VisitEnds(c: Config, w: World, id: nat, path: string, r: Response, latencyMs: real, now: real)
    requires w.clock <= now && w.inFlight >= 0
    ensures var after := Next(c, With(w, id, path, Answered(w.level, Some(r))), Finish(id, latencyMs, now));
            after == Some(With(w, id, path, Stage.Finished(w.level, Some(r), now)).(
                            recorded := w.recorded + [Sample(now, path, latencyMs, r.status)],
                            finishers := w.finishers + [id], clock := now))
  {
    assert w.requests[id := Request(path, Answered(w.level, Some(r)))]
                     [id := Request(path, Stage.Finished(w.level, Some(r), now))] ==
           w.requests[id := Request(path, Stage.Finished(w.level, Some(r), now))];
  }

  lemma VisitReachesHandler(c: Config, level: SheddingLevel, actions: seq<Action>, id: nat, path: string)
    requires Run(c, level, actions).Some? && id !in Run(c, level, actions).value.requests && !Excluded(path)
    ensures var w := Run(c, level, actions).value;
            Run(c, level, actions + [Enter(id, path), Start(id), Handle(id)]) ==
            Some(With(w, id, path, Handled(path, w.level)))
  {
    VisitStarts(c, Run(c, level, actions).value, id, path);
    hide Run, Next, Excluded, Handled, With;
    var entered := actions + [Enter(id, path)];
    RunsOn(c, level, actions, Enter(id, path));
    RunsOn(c, level, entered, Start(id));
    RunsOn(c, level, entered + [Start(id)], Handle(id));
    assert entered + [Start(id)] + [Handle(id)] == actions + [Enter(id, path), Start(id), Handle(id)];
  }

  /** What an uninterrupted visit leaves behind. */
  predicate Visited(w: World, after: World, id: nat, path: string, r: Response, latencyMs: real, now: real)
  {
    && after.requests == w.requests[id := Request(path, Stage.Finished(w.level, Some(r), now))]
    && after.recorded == w.recorded + [Sample(now, path, latencyMs, r.status)]
    && after.inFlight == w.inFlight && after.level == w.level
  }

  lemma VisitAtLimiter(
      c: Config, level: SheddingLevel, handled: seq<Action>, w: World, id: nat, path: string,
      latencyMs: real, now: real)
    returns (r: Response)
    requires Route(path).Some? && w.clock <= now && w.inFlight >= 0
    requires Run(c, level, handled) == Some(With(w, id, path, AtLimiter(w.level)))
    ensures var after := Run(c, level, handled + [AskBucket(id, now), Finish(id, latencyMs, now)]);
            after.Some? && Visited(w, after.value, id, path, r, latencyMs, now)
    ensures r == AfterLimiter(Route(path).value, Decide(c.limits, w.bucket, now), now)
  {
    hide Run, Next, Decide, RateLimiter.After, AfterLimiter;
    r := VisitAsks(c, w, id, path, now);
    RunsOn(c, level, handled, AskBucket(id, now));
    var asked := handled + [AskBucket(id, now)];
    VisitEnds(c, Run(c, level, asked).value.(requests := w.requests, inFlight := w.inFlight),
              id, path, r, latencyMs, now);
    RunsOn(c, level, asked, Finish(id, latencyMs, now));
    assert asked + [Finish(id, latencyMs, now)] == handled + [AskBucket(id, now), Finish(id, latencyMs, now)];
  }

  lemma VisitAnsweredAtOnce(
      c: Config, level: SheddingLevel, handled: seq<Action>, w: World, id: nat, path: string, r: Response,
      latencyMs: real, now: real)
    requires w.clock <= now && w.inFlight >= 0
    requires Run(c, level, handled) == Some(With(w, id, path, Answered(w.level, Some(r))))
    ensures var after := Run(c, level, handled + [Finish(id, latencyMs, now)]);
            after.Some? && Visited(w, after.value, id, path, r, latencyMs, now)
  {
    hide Run, Next;
    VisitEnds(c, w, id, path, r, latencyMs, now);
    RunsOn(c, level, handled, Finish(id, latencyMs, now));
  }

  /** An uninterrupted request that is counted, from any moment of any interleaving, is answered as promised. */
  lemma LoneRequestIsServed(
      c: Config, level: SheddingLevel, actions: seq<Action>, id: nat, path: string, latencyMs: real, now: real)
    returns (r: Response)
    requires ValidConfig(c) && Run(c, level, actions).Some?
    requires id !in Run(c, level, actions).value.requests && Run(c, level, actions).value.clock <= now
    requires !Excluded(path)
    ensures var before := Run(c, level, actions).value;
            var after := Run(c, level, actions + Visit(id, path, before.level, latencyMs, now));
            && Promised(path, LevelValue(before.level), r)
            && after.Some? && Visited(before, after.value, id, path, r, latencyMs, now)
  {
    EveryRunIsSound(c, level, actions);
    var w := Run(c, level, actions).value;
    assert w.inFlight >= 0 by { CounterIsActive(c, w); }
    VisitReachesHandler(c, level, actions, id, path);
    HandledAsks(path, w.level);
    hide Run, Sound, Excluded, Handled, Explained, Promised, Decide, Visited, With, AnswersAsPlanned;
    var handled := actions + [Enter(id, path), Start(id), Handle(id)];
    var visit := Visit(id, path, w.level, latencyMs, now);
    if w.level == RateLimitNoncritical && (path == "/recommendations" || path == "/catalog") {
      r := VisitAtLimiter(c, level, handled, w, id, path, latencyMs, now);
      assert handled + [AskBucket(id, now), Finish(id, latencyMs, now)] == actions + visit;
      LimiterAnswersAsPlanned(path, Decide(c.limits, w.bucket, now), now);
    } else {
      r := OutcomeOf(Handled(path, w.level)).value;
      VisitAnsweredAtOnce(c, level, handled, w, id, path, r, latencyMs, now);
      assert handled + [Finish(id, latencyMs, now)] == actions + visit;
    }
    PlansArePromised(path, w.level, r);
  }

  lemma LimiterAnswersAsPlanned(path: string, allowed: bool, now: real)
    requires path == "/recommendations" || path == "/catalog"
    ensures AnswersAsPlanned(path, RateLimitNoncritical, AfterLimiter(Route(path).value, allowed, now))
  {}

  /** Which requests ask the limiter, and what the others are answered at once. */
  lemma HandledAsks(path: string, level: SheddingLevel)
    ensures var asks := level == RateLimitNoncritical && (path == "/recommendations" || path == "/catalog");
            && Handled(path, level).AtLimiter? == asks
            && (asks ==> Handled(path, level) == AtLimiter(level) && Route(path).Some?)
            && (!asks ==> Handled(path, level).Answered? && OutcomeOf(Handled(path, level)).Some?
                          && Handled(path, level) == Answered(level, OutcomeOf(Handled(path, level)))
                          && AnswersAsPlanned(path, level, OutcomeOf(Handled(path, level)).value))
  {
    if Route(path).Some? {
      BranchesFollowThePolicy(Route(path).value, level);
    }
  }

  lemma SoundRequest(c: Config, w: World, id: nat)
    requires Sound(c, w) && id in w.requests
    ensures RequestSound(w.requests[id])
  {}

  /** Checkout is answered in full, unless its handler raised, whatever the tier and however many are limited. */
  lemma CheckoutIsNeverShed(c: Config, level: SheddingLevel, actions: seq<Action>, id: nat)
    requires ValidConfig(c) && Run(c, level, actions).Some? && id in Run(c, level, actions).value.requests
    requires Run(c, level, actions).value.requests[id].path == "/checkout"
    ensures var stage := Run(c, level, actions).value.requests[id].stage;
            && !stage.AtLimiter?
            && (OutcomeOf(stage).Some? ==> OutcomeOf(stage).value == Served(NormalMode, false))
  {
    EveryRunIsSound(c, level, actions);
    SoundRequest(c, Run(c, level, actions).value, id);
  }

  /** Every token ever issued is in the bucket, was spent on one answered request, or was lost to the cap. */
  lemma TokensAreSpentOnRequests(c: Config, level: SheddingLevel, actions: seq<Action>, from: real)
    requires ValidConfig(c) && Run(c, level, actions).Some? && from <= c.limits.created
    ensures var w := Run(c, level, actions).value;
            w.bucket.tokens + |PaidWithin(w.requests, from, w.clock)| as real + Lost(c.limits, w.calls) ==
            Allowance(c.limits, w.bucket.updatedAt - c.limits.created)
  {
    hide Run, Sound, Explained, Allowance, Lost;
    EveryRunIsSound(c, level, actions);
    var w := Run(c, level, actions).value;
    LimiterIsARun(c, w);
    PaidRequestsAreAdmittedCalls(c, w, from, w.clock);
    hide LimiterSound, PaidWithin;
    RunsAreOrdered(c.limits, w.calls);
    hide IsRun, LevelAfter;
    AllAreWithin(w.calls, from, w.clock);
    TokensAreConserved(c.limits, w.calls);
  }

  lemma LimiterIsARun(c: Config, w: World)
    requires Sound(c, w)
    ensures LimiterSound(c, w)
    ensures IsRun(c.limits, w.calls) && LevelAfter(c.limits, w.calls) == w.bucket && w.bucket.updatedAt <= w.clock
  {}

  lemma {:induction false} AllAreWithin(calls: seq<Call>, from: real, to: real)
    requires forall i | 0 <= i < |calls| :: from <= calls[i].at <= to
    ensures AdmittedWithin(calls, from, to) == Admitted(calls)
  {
    if calls != [] {
      AllAreWithin(calls[..|calls| - 1], from, to);
    }
  }

  // ---------- the metrics ----------

  /**
   * Starts and finishes pair up: the counter is the number of requests in flight, a finish always
   * finds it positive, and the samples are one for each finished request.
   */
  lemma StartsAndFinishesPair(c: Config, level: SheddingLevel, actions: seq<Action>)
    requires ValidConfig(c) && Run(c, level, actions).Some?
    ensures var w := Run(c, level, actions).value;
            && w.inFlight == |Active(w.requests)|
            && |w.recorded| == |Done(w.requests)|
            && (forall id, latencyMs, now | Next(c, w, Finish(id, latencyMs, now)).Some? ::
                  Next(c, w, Finish(id, latencyMs, now)).value.inFlight == w.inFlight - 1 >= 0)
            && (forall id | id in Active(w.requests) + Done(w.requests) :: !Excluded(w.requests[id].path))
  {
    hide Run, Next, Active, Done;
    EveryRunIsSound(c, level, actions);
    var w := Run(c, level, actions).value;
    CountedAreNotExcluded(c, w);
    SamplesAreDone(c, w);
    hide Sound;
    forall id, latencyMs, now | Next(c, w, Finish(id, latencyMs, now)).Some?
      ensures Next(c, w, Finish(id, latencyMs, now)).value.inFlight == w.inFlight - 1 >= 0
    {
      FinishingIsCounted(c, w, id, latencyMs, now);
    }
  }

  lemma FinishingIsCounted(c: Config, w: World, id: nat, latencyMs: real, now: real)
    requires MetricsSound(c, w) && Next(c, w, Finish(id, latencyMs, now)).Some?
    ensures Next(c, w, Finish(id, latencyMs, now)).value.inFlight == w.inFlight - 1 >= 0
  {
    assert id in Active(w.requests);
  }

  lemma CountedAreNotExcluded(c: Config, w: World)
    requires Sound(c, w)
    ensures forall id | id in Active(w.requests) + Done(w.requests) :: !Excluded(w.requests[id].path)
    ensures MetricsSound(c, w) && w.inFlight == |Active(w.requests)|
  {
    hide Excluded, LimiterSound;
  }

  lemma SamplesAreDone(c: Config, w: World)
    requires MetricsSound(c, w)
    ensures |w.recorded| == |Done(w.requests)|
  {
    FinishersAreRecent(w.recorded, w.finishers, 0);
    assert FinishersFrom(w.finishers, 0) == Done(w.requests);
  }

  function FinishersFrom(finishers: seq<nat>, k: nat): set<nat>
  {
    set i | k <= i < |finishers| :: finishers[i]
  }

  lemma {:induction false} FinishersAreRecent(recorded: seq<Sample>, finishers: seq<nat>, k: nat)
    requires |finishers| == |recorded| && Unrepeated(finishers) && k <= |recorded|
    ensures |FinishersFrom(finishers, k)| == |recorded| - k
    decreases |recorded| - k
  {
    if k < |recorded| {
      FinishersAreRecent(recorded, finishers, k + 1);
      assert FinishersFrom(finishers, k) == FinishersFrom(finishers, k + 1) + {finishers[k]};
      assert finishers[k] !in FinishersFrom(finishers, k + 1);
    } else {
      assert FinishersFrom(finishers, k) == {};
    }
  }

  /** The requests that finished at or after `cutoff`. */
  function FinishedSince(requests: map<nat, Request>, cutoff: real): set<nat>
  {
    set id | id in requests && requests[id].stage.Finished? && requests[id].stage.completedAt >= cutoff
  }

  /** A snapshot taken in any interleaving counts exactly the requests that finished within its window. */
  lemma SnapshotCountsRecentRequests(c: Config, level: SheddingLevel, actions: seq<Action>, now: real)
    requires ValidConfig(c) && Run(c, level, actions).Some? && Run(c, level, actions).value.clock <= now
    ensures var w := Run(c, level, actions).value;
            var cutoff := now - c.windowSeconds as real;
            var snapshot := Summarize(c.windowSeconds, c.startedAt, w.inFlight, Retained(w.recorded, cutoff), now);
            && snapshot.requestCount == |FinishedSince(w.requests, cutoff)|
            && snapshot.concurrentRequests == |Active(w.requests)|
  {
    hide Run, Summarize, Retained, LimiterSound, FinishedSince, Active;
    EveryRunIsSound(c, level, actions);
    var w := Run(c, level, actions).value;
    var cutoff := now - c.windowSeconds as real;
    RetainedAreFinishedSince(c, w, cutoff);
    SummaryCounts(c, w.inFlight, Retained(w.recorded, cutoff), now);
  }

  lemma SummaryCounts(c: Config, inFlight: int, samples: seq<Sample>, now: real)
    ensures var snapshot := Summarize(c.windowSeconds, c.startedAt, inFlight, samples, now);
            snapshot.requestCount == |samples| && snapshot.concurrentRequests == inFlight
  {}

  lemma RetainedAreFinishedSince(c: Config, w: World, cutoff: real)
    requires MetricsSound(c, w)
    ensures |Retained(w.recorded, cutoff)| == |FinishedSince(w.requests, cutoff)|
  {
    var k := RetainedIsSuffix(w.recorded, cutoff);
    hide Retained;
    FinishersAreRecent(w.recorded, w.finishers, k);
    FinishersAreThoseSince(c, w, cutoff, k);
  }

  lemma FinishersAreThoseSince(c: Config, w: World, cutoff: real, k: nat)
    requires MetricsSound(c, w) && k <= |w.recorded|
    requires forall i | 0 <= i < |w.recorded| :: w.recorded[i].completedAt >= cutoff <==> k <= i
    ensures FinishersFrom(w.finishers, k) == FinishedSince(w.requests, cutoff)
  {
    forall id
      ensures id in FinishersFrom(w.finishers, k) <==> id in FinishedSince(w.requests, cutoff)
    {
      if id in FinishedSince(w.requests, cutoff) {
        assert id in Done(w.requests);
        var i :| 0 <= i < |w.finishers| && w.finishers[i] == id;
        assert SampleOf(w.requests[id], w.recorded[i]);
      }
    }
  }
}
