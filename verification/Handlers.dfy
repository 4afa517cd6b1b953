/** The protected endpoints: which branch a request takes, and when it asks the shared limiter. */
module Handlers {
  import opened Wrappers
  import opened Policies
  import opened RateLimiter

  datatype Endpoint = Checkout | Recommendations | Catalog

  /** An answer; `admittedAt` is set when a token of the limiter paid for it. */
  datatype Response = Response(
    status: int,
    mode: EndpointMode,
    degraded: bool,
    retryAfter: Option<real>,
    admittedAt: Option<real>)

  /** What a handler does with the level it has read. */
  datatype Plan = Answer(response: Response) | AskLimiter | Raise

  function Name(endpoint: Endpoint): string
  {
    match endpoint
    case Checkout => "checkout"
    case Recommendations => "recommendations"
    case Catalog => "catalog"
  }

  function Served(mode: EndpointMode, degraded: bool): Response
  {
    Response(200, mode, degraded, None, None)
  }

  function Choose(endpoint: Endpoint, level: SheddingLevel): Plan
  {
    if endpoint.Checkout? then Answer(Served(NormalMode, false))
    else
      match ModeFor(Name(endpoint), level)
      case Failure(_) => Raise
      case Success(mode) =>
        if mode.RateLimited? then AskLimiter
        else if endpoint.Recommendations? && mode.Disabled? then Answer(Served(Disabled, true))
        else if endpoint.Catalog? && mode.Cached? then Answer(Served(Cached, true))
        else Answer(Served(mode, false))
  }

  /** The answer once the limiter has decided. */
  function AfterLimiter(endpoint: Endpoint, allowed: bool, now: real): Response
  {
    if !allowed then Response(429, RateLimited, true, Some(RETRY_AFTER), None)
    else Response(200, if endpoint.Catalog? then Cached else RateLimited, true, None, Some(now))
  }

  /**
   * What the tiers promise: checkout never changes; the others ask the limiter exactly in the
   * emergency tier, and are served in full exactly where the policy calls them normal.
   */
  lemma BranchesFollowThePolicy(endpoint: Endpoint, level: SheddingLevel)
    ensures !Choose(endpoint, level).Raise?
    ensures Choose(endpoint, level).AskLimiter? <==> endpoint != Checkout && level == RateLimitNoncritical
    ensures Choose(endpoint, level).Answer? ==>
              var r := Choose(endpoint, level).response;
              && r.status == 200 && r.admittedAt.None? && r.retryAfter.None?
              && ModeFor(Name(endpoint), level) == Success(r.mode)
              && (r.degraded <==> Degraded(Name(endpoint), level))
    ensures endpoint == Checkout ==> Choose(endpoint, level) == Answer(Served(NormalMode, false))
  {}

  /** Asks the limiter; an answer only when it refuses. */
  method LimitedResponse(limiter: TokenBucket, now: real) returns (limited: Option<Response>)
    requires limiter.Valid() && limiter.updatedAt <= now
    modifies limiter
    ensures limiter.Valid() && limiter.updatedAt == now
    ensures limiter.history == old(limiter.history) + [Call(now, limited.None?)]
    ensures limited.None? <==> EveryWindowHasRoom(limiter.limits, old(limiter.history), now)
    ensures limited.Some? ==>
              limited.value == Response(429, RateLimited, true, Some(RETRY_AFTER), None)
  {
    var allowed := limiter.Allow(now);
    if allowed {
      return None;
    }
    limited := Some(Response(429, RateLimited, true, Some(RETRY_AFTER), None));
  }

  /** Checkout consults neither the level nor the limiter. */
  method HandleCheckout() returns (response: Response)
    ensures response.status == 200 && response.mode == NormalMode && !response.degraded
    ensures response.admittedAt.None? && response.retryAfter.None?
    ensures forall level :: Choose(Checkout, level) == Answer(response)
  {
    response := Served(NormalMode, false);
  }

  /** Asks the limiter in the emergency tier only, and spends a token exactly on a 200 there. */
  method HandleRecommendations(limiter: TokenBucket, level: SheddingLevel, now: real) returns (response: Response)
    requires limiter.Valid() && limiter.updatedAt <= now
    modifies limiter
    ensures limiter.Valid()
    ensures level != RateLimitNoncritical ==>
              unchanged(limiter) && Choose(Recommendations, level) == Answer(response)
    ensures level == RateLimitNoncritical ==>
              && limiter.history == old(limiter.history) + [Call(now, response.status == 200)]
              && response == AfterLimiter(Recommendations, response.status == 200, now)
              && (response.status == 200 <==> EveryWindowHasRoom(limiter.limits, old(limiter.history), now))
  {
    BranchesFollowThePolicy(Recommendations, level);
    var mode := ModeFor("recommendations", level).value;
    if mode == Disabled {
      return Served(Disabled, true);
    }
    if mode == RateLimited {
      var limited := LimitedResponse(limiter, now);
      if limited.Some? {
        return limited.value;
      }
      return Response(200, mode, true, None, Some(now));
    }
    response := Served(mode, false);
  }

  /** As above; an admitted request falls through to the cached answer. */
  method HandleCatalog(limiter: TokenBucket, level: SheddingLevel, now: real) returns (response: Response)
    requires limiter.Valid() && limiter.updatedAt <= now
    modifies limiter
    ensures limiter.Valid()
    ensures level != RateLimitNoncritical ==>
              unchanged(limiter) && Choose(Catalog, level) == Answer(response)
    ensures level == RateLimitNoncritical ==>
              && limiter.history == old(limiter.history) + [Call(now, response.status == 200)]
              && response == AfterLimiter(Catalog, response.status == 200, now)
              && (response.status == 200 <==> EveryWindowHasRoom(limiter.limits, old(limiter.history), now))
  {
    BranchesFollowThePolicy(Catalog, level);
    var mode := ModeFor("catalog", level).value;
    var paid: Option<real> := None;
    if mode == RateLimited {
      var limited := LimitedResponse(limiter, now);
      if limited.Some? {
        return limited.value;
      }
      mode := Cached;
      paid := Some(now);
    }
    if mode == Cached {
      return Response(200, mode, true, None, paid);
    }
    response := Served(mode, false);
  }
}
