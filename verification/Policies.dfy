/** The shedding tiers and the mode each endpoint runs in at each tier. */
module Policies {
  import opened Wrappers

  datatype SheddingLevel = Normal | DisableRecommendations | CachedNoncritical | RateLimitNoncritical

  datatype EndpointMode = NormalMode | Disabled | Cached | RateLimited

  datatype PolicyError = UnknownEndpoint | CriticalEndpointShed

  const CRITICAL_ENDPOINTS: set<string> := {"checkout"}

  /** The integer stored for a level. */
  function LevelValue(level: SheddingLevel): (n: int)
    ensures 0 <= n <= 3
    ensures LevelOf(n) == Some(level)
  {
    match level
    case Normal => 0
    case DisableRecommendations => 1
    case CachedNoncritical => 2
    case RateLimitNoncritical => 3
  }

  /** The level named by a stored integer, if there is one. */
  function LevelOf(n: int): (level: Option<SheddingLevel>)
  {
    if n == 0 then Some(Normal)
    else if n == 1 then Some(DisableRecommendations)
    else if n == 2 then Some(CachedNoncritical)
    else if n == 3 then Some(RateLimitNoncritical)
    else None
  }

  function ModeValue(mode: EndpointMode): string
  {
    match mode
    case NormalMode => "normal"
    case Disabled => "disabled"
    case Cached => "cached"
    case RateLimited => "rate_limited"
  }

  /** One row of the policy matrix. */
  function PolicyRow(level: SheddingLevel): map<string, EndpointMode>
  {
    match level
    case Normal =>
      map["checkout" := NormalMode, "recommendations" := NormalMode, "catalog" := NormalMode]
    case DisableRecommendations =>
      map["checkout" := NormalMode, "recommendations" := Disabled, "catalog" := NormalMode]
    case CachedNoncritical =>
      map["checkout" := NormalMode, "recommendations" := Disabled, "catalog" := Cached]
    case RateLimitNoncritical =>
      map["checkout" := NormalMode, "recommendations" := RateLimited, "catalog" := RateLimited]
  }

  function ModeFor(endpoint: string, level: SheddingLevel): (r: Result<EndpointMode, PolicyError>)
  {
    var row := PolicyRow(level);
    if endpoint !in row then Failure(UnknownEndpoint)
    else if endpoint in CRITICAL_ENDPOINTS && row[endpoint] != NormalMode then Failure(CriticalEndpointShed)
    else Success(row[endpoint])
  }

  /** The modes of every endpoint, as strings, as they are stored and reported. */
  function PolicySnapshot(level: SheddingLevel): (policy: map<string, string>)
  {
    map endpoint | endpoint in PolicyRow(level) && ModeFor(endpoint, level).Success?
      :: ModeValue(ModeFor(endpoint, level).value)
  }

  predicate Degraded(endpoint: string, level: SheddingLevel)
  {
    ModeFor(endpoint, level).Success? && ModeFor(endpoint, level).value != NormalMode
  }

  /** Checkout is normal at every tier, so the guard against shedding a critical endpoint never fires. */
  lemma CriticalEndpointsAreNeverShed(endpoint: string, level: SheddingLevel)
    ensures endpoint in CRITICAL_ENDPOINTS ==> ModeFor(endpoint, level) == Success(NormalMode)
    ensures ModeFor(endpoint, level) != Failure(CriticalEndpointShed)
    ensures ModeFor(endpoint, level).Success? <==> endpoint in {"checkout", "recommendations", "catalog"}
  {}

  /** The stored integers are exactly 0 to 3, each naming one level. */
  lemma LevelsAreFourIntegers(n: int)
    ensures LevelOf(n).Some? <==> 0 <= n <= 3
    ensures LevelOf(n).Some? ==> LevelValue(LevelOf(n).value) == n
  {}

  /** What each tier sheds: recommendations go from tier 1 on, catalog from tier 2, and both are limited in tier 3. */
  lemma TiersShed(level: SheddingLevel)
    ensures ModeFor("checkout", level) == Success(NormalMode)
    ensures ModeFor("recommendations", level) == Success(NormalMode) <==> LevelValue(level) == 0
    ensures ModeFor("recommendations", level) == Success(Disabled) <==> 1 <= LevelValue(level) <= 2
    ensures ModeFor("recommendations", level) == Success(RateLimited) <==> LevelValue(level) == 3
    ensures ModeFor("catalog", level) == Success(NormalMode) <==> LevelValue(level) <= 1
    ensures ModeFor("catalog", level) == Success(Cached) <==> LevelValue(level) == 2
    ensures ModeFor("catalog", level) == Success(RateLimited) <==> LevelValue(level) == 3
  {}

  /** The tiers are nested: raising the level never restores an endpoint. Tier 1 sheds one, tier 2 the other as well. */
  lemma TiersAreNested(endpoint: string, low: SheddingLevel, high: SheddingLevel)
    requires LevelValue(low) <= LevelValue(high)
    ensures Degraded(endpoint, low) ==> Degraded(endpoint, high)
    ensures Degraded(endpoint, low) <==>
            || (endpoint == "recommendations" && LevelValue(low) >= 1)
            || (endpoint == "catalog" && LevelValue(low) >= 2)
  {
    CriticalEndpointsAreNeverShed(endpoint, low);
    CriticalEndpointsAreNeverShed(endpoint, high);
    TiersShed(low);
    TiersShed(high);
  }

  /** The policies as they are stored and reported, tier by tier. */
  lemma ReportedPolicies(level: SheddingLevel)
    ensures PolicySnapshot(level) ==
            map["checkout" := "normal",
                "recommendations" := if LevelValue(level) == 0 then "normal"
                                     else if LevelValue(level) <= 2 then "disabled" else "rate_limited",
                "catalog" := if LevelValue(level) <= 1 then "normal"
                             else if LevelValue(level) == 2 then "cached" else "rate_limited"]
  {
    SnapshotIsEnforcedPolicy(level);
    TiersShed(level);
  }

  /** Reading a mode back from a snapshot gives exactly the mode that would be enforced. */
  lemma SnapshotIsEnforcedPolicy(level: SheddingLevel)
    ensures PolicySnapshot(level).Keys == {"checkout", "recommendations", "catalog"}
    ensures forall endpoint, mode ::
              ModeFor(endpoint, level) == Success(mode) <==>
              endpoint in PolicySnapshot(level) && PolicySnapshot(level)[endpoint] == ModeValue(mode)
    ensures PolicySnapshot(level)["checkout"] == "normal"
  {
    CriticalEndpointsAreNeverShed("checkout", level);
    CriticalEndpointsAreNeverShed("recommendations", level);
    CriticalEndpointsAreNeverShed("catalog", level);
    forall endpoint, mode
      ensures ModeFor(endpoint, level) == Success(mode) <==>
              endpoint in PolicySnapshot(level) && PolicySnapshot(level)[endpoint] == ModeValue(mode)
    {
      CriticalEndpointsAreNeverShed(endpoint, level);
      ModeValuesAreDistinct(mode, if ModeFor(endpoint, level).Success? then ModeFor(endpoint, level).value else mode);
    }
  }

  lemma ModeValuesAreDistinct(a: EndpointMode, b: EndpointMode)
    ensures ModeValue(a) == ModeValue(b) ==> a == b
  {}

  /** Distinct levels are never reported as the same policy. */
  lemma SnapshotsTellLevelsApart(a: SheddingLevel, b: SheddingLevel)
    ensures PolicySnapshot(a) == PolicySnapshot(b) ==> a == b
  {
    SnapshotIsEnforcedPolicy(a);
    SnapshotIsEnforcedPolicy(b);
    if PolicySnapshot(a) == PolicySnapshot(b) {
      var (ra, rb) := (ModeFor("recommendations", a).value, ModeFor("recommendations", b).value);
      var (ca, cb) := (ModeFor("catalog", a).value, ModeFor("catalog", b).value);
      ModeValuesAreDistinct(ra, rb);
      ModeValuesAreDistinct(ca, cb);
    }
  }
}
