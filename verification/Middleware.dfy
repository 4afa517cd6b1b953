/** The application object: one controller, one limiter and one metrics object behind one middleware. */
module Middleware {
  import opened Wrappers
  import opened RateLimiter
  import opened Metrics
  import opened Shedding
  import opened Handlers
  import opened Requests

  class DemoApp {
    const controller: LoadSheddingController
    const limiter: TokenBucket
    const metrics: TrafficMetrics

    ghost predicate Valid()
      reads this, limiter, metrics
    {
      limiter.Valid() && metrics.Valid()
    }

    constructor (controller: LoadSheddingController, limiter: TokenBucket, metrics: TrafficMetrics)
      requires limiter.Valid() && metrics.Valid()
      ensures Valid()
      ensures this.controller == controller && this.limiter == limiter && this.metrics == metrics
    {
      this.controller := controller;
      this.limiter := limiter;
      this.metrics := metrics;
    }

    /** Dispatches a counted path to its handler; None when the handler raises. */
    method CallHandler(path: string, raises: bool, now: real) returns (outcome: Option<Response>)
      requires Valid() && limiter.updatedAt <= now
      requires !Excluded(path)
      modifies limiter
      ensures Valid()
      ensures outcome.None? <==> raises
      ensures !raises ==> AnswersAsPlanned(path, controller.state.level, outcome.value)
      ensures limiter.history == old(limiter.history) +
              if !raises && Handled(path, controller.state.level).AtLimiter?
              then [Call(now, outcome.value.status == 200)] else []
    {
      hide LoadSheddingController.InStep, Tracks, Recovered, EveryWindowHasRoom, Choose;
      hide TrafficMetrics.Valid, TokenBucket.Valid, Excluded;
      if raises {
        return None;
      }
      var endpoint := Route(path);
      if endpoint.None? {
        return Some(NOT_FOUND);
      }
      var current := controller.Current();
      BranchesFollowThePolicy(endpoint.value, current.level);
      var response: Response;
      match endpoint.value {
        case Checkout => response := HandleCheckout();
        case Recommendations => response := HandleRecommendations(limiter, current.level, now);
        case Catalog => response := HandleCatalog(limiter, current.level, now);
      }
      outcome := Some(response);
    }

    /**
     * The two read-only operations: each answers with the published state and a snapshot, and taking the
     * snapshot trims the queue but records nothing.
     */
    method ReportHealth(now: real) returns (state: SheddingState, snapshot: Snapshot)
      requires Valid() && metrics.clock <= now
      modifies metrics
      ensures Valid() && metrics.clock == now
      ensures state == controller.state
      ensures metrics.history == old(metrics.history) && metrics.ticks == old(metrics.ticks)
      ensures snapshot == Summarize(metrics.windowSeconds, metrics.startedAt, metrics.inFlight,
                                    Retained(metrics.history, now - metrics.windowSeconds as real), now)
    {
      hide Tracks, Recovered, Retained, Summarize, Metrics.Ordered, CompletedWithin, InFlightAfter, TokenBucket.Valid;
      state := controller.Current();
      snapshot := metrics.TakeSnapshot(now);
    }

    /**
     * The middleware around one request on its own. An excluded path goes straight to its handler, whose
     * effects are its own: the middleware counts and records nothing, and nothing is said here about the
     * answer. Any other path leaves the counter where it was and records exactly one sample, with status
     * 500 if the handler raised.
     */
    method CollectRequestMetrics(path: string, raises: bool, calledAt: real, latencyMs: real, finishedAt: real)
      returns (outcome: Option<Response>)
      requires Valid() && limiter.updatedAt <= calledAt
      requires metrics.clock <= calledAt <= finishedAt
      requires limiter as object != metrics as object
      modifies limiter, metrics
      ensures Valid()
      ensures Excluded(path) ==>
                metrics.history == old(metrics.history) && metrics.ticks == old(metrics.ticks)
      ensures !Excluded(path) ==>
                && metrics.history ==
                   old(metrics.history) + [Sample(finishedAt, path, latencyMs, StatusOf(outcome))]
                && metrics.inFlight == old(metrics.inFlight)
                && metrics.ticks == old(metrics.ticks) + [Started] + [Tick.Finished]
                && (outcome.None? <==> raises)
                && (!raises ==> AnswersAsPlanned(path, controller.state.level, outcome.value))
    {
      hide AnswersAsPlanned, Retained, Metrics.Ordered, CompletedWithin, InFlightAfter, IsRun, LevelAfter;
      if Excluded(path) {
        if path == "/health" || path == "/metrics/snapshot" {
          var state, snapshot := ReportHealth(calledAt);
        }
        outcome := *;
        return;
      }
      CounterIsNeverNegative(metrics.ticks);
      metrics.RequestStarted();
      var statusCode := 500;
      outcome := CallHandler(path, raises, calledAt);
      if outcome.Some? {
        statusCode := outcome.value.status;
      }
      metrics.RequestFinished(path, latencyMs, statusCode, finishedAt);
    }
  }

  lemma {:induction false} CounterIsNeverNegative(ticks: seq<Tick>)
    ensures InFlightAfter(ticks) >= 0
  {
    if ticks != [] {
      CounterIsNeverNegative(ticks[..|ticks| - 1]);
    }
  }
}
