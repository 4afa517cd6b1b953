# Pulse load shedding, verified

A Dafny model of the protected demo application of Pulse: the token bucket that limits non-critical
traffic, the audited ledger of shedding tiers and its transactions, the controller that persists a
change of tier before it publishes it, the sliding-window traffic metrics, and the interleaving of
requests that share them. Every statement below holds for all inputs and all runs.

`dafny verify dfyconfig.toml` checks the whole project.

## How the model is organised

| file | what it models |
|---|---|
| `Policies.dfy` | tiers, endpoint modes, the policy matrix |
| `RateLimiter.dfy` | `TokenBucket` as a class, and the theory of its runs |
| `Percentiles.dfy`, `Metrics.dfy` | nearest-rank percentiles; `TrafficMetrics` as a class |
| `Ledger.dfy` | the table `load_shedding_events`, its constraints, one transaction on its own |
| `Transactions.dfy` | any number of `record_transition` transactions, step by step |
| `Stores.dfy`, `Shedding.dfy` | the two stores and the controller as classes |
| `Lifecycle.dfy` | one controller process over boots, loads, failures, crashes and commits it does not see |
| `Deployment.dfy` | many such processes over one database, their transactions interleaved, orphans included |
| `Handlers.dfy`, `Requests.dfy` | the endpoints; any interleaving of requests and tier changes |
| `Middleware.dfy` | the application object with its middleware, one request at a time |

The classes carry the state the program updates in place, and ghost histories of what has happened
to them. Their methods are tied to specification functions or to facts about those histories, and the
lemmas are about the same functions and histories. Interleavings are state machines whose steps are
the points at which the program can be interrupted: a statement of a transaction, an `await` of a
request, the two halves of a change of tier.

Main results, in the order of the files: the exact admission law of the bucket and the maximality of
greedy admission; the serializability, in commit order, of every interleaving of transactions, and with
it the chain of intervals of each environment; crash safety and the exact conditions under which the state
shown is current and the audit trail replays, for one process and, by a projection of runs that goes both
ways, for every process of a deployment; the agreement of the trimmed queue with the full history, and of
the figures of a snapshot with the samples they are about; in every interleaving of requests and tier
changes, the answer promised for the tier in force, the bound on emergency traffic of a whole process, and
the agreement of a snapshot with the requests that finished.

Assumptions:

- Times of the limiter and the metrics are readings of one monotonic clock and are reals, as are
  rates, tokens and latencies; start times of transitions are integers and may go back. Clock readings,
  fresh identifiers and whether the database answers are parameters.
- The transactions run under Read Committed, PostgreSQL's default (section 13.2.1 of the PostgreSQL
  manual), because the engine sets no isolation level (`db/session.py`, line 13). A flush writes the
  end of the old row before the new row.
- A call to the store that raises may have taken effect all the same, without an acknowledgement, or may
  take effect later, even after the process has crashed.

Four findings about the code:

- The row lock does not by itself keep an environment down to one open row. A transaction that waited
  for the lock finds the row ended, and only the partial unique index stops it
  (`Transactions.ActiveIndexIsNeeded`, `Transactions.LosersNeverCommit`). What the lock gives is that its
  holder is never refused (`Transactions.LockHolderIsNeverRefused`).
- A call to the store that raises may have committed all the same, and the controller goes on from the tier
  it last published. It then shows a tier that is not the one in force until it loads again or publishes a
  later change (`Lifecycle.VisibleStateIsCommitted`), and the from/to link of the audit trail breaks at the
  next commit unless the process restarts first. The exact condition is
  `Lifecycle.TrailIsLinkedIffCommitsFit` for all runs and, in terms of restarts, for lost acknowledgements
  `Lifecycle.TrailIsLinkedIffRestartedInTime`; `Lifecycle.LostAcknowledgementBreaksTheTrail` is a witness.
- A refused request is told `Retry-After: 1` whatever the configured rate. A client that follows this
  advice alone is sure to be admitted if and only if the rate is at least one per second
  (`RateLimiter.RetryAdviceNeedsRateOne`).
- The in-memory store accepts every transition; the database store refuses those whose start goes back,
  whose identifier repeats or whose level is out of range. The two agree exactly on the other logs
  (`Stores.SerialStoresAgree`).

## Model

| member | source | states |
|---|---|---|
| Policies.LevelValue | common/enums.py:4-8 | stored levels lie in 0..3 and name their tier back |
| Policies.CriticalEndpointsAreNeverShed | demo_app/app/shedding/policies.py:31-44 | checkout is normal at every tier, the guard against shedding a critical endpoint never fires, and only the three known endpoints have a mode |
| Policies.LevelsAreFourIntegers | common/enums.py:4-8 | exactly the integers 0 to 3 name a tier, each its own |
| Policies.TiersShed | demo_app/app/shedding/policies.py:7-28 | the mode of every endpoint at every tier, by the tier's integer: recommendations disabled at 1 and 2, catalog cached at 2, both limited at 3, checkout never |
| Policies.TiersAreNested | demo_app/app/shedding/policies.py:7-28 | raising the tier never restores an endpoint; recommendations are degraded iff the tier is at least 1, catalog iff at least 2, nothing else ever |
| Policies.ReportedPolicies | demo_app/app/shedding/policies.py:38-39 | the stored and reported policy of each tier, string by string |
| Policies.SnapshotIsEnforcedPolicy | demo_app/app/shedding/policies.py:38-39 | reading a mode back from a snapshot gives exactly the enforced mode, for every endpoint and mode |
| Policies.SnapshotsTellLevelsApart | demo_app/app/shedding/policies.py:7-39 | distinct tiers are never reported as the same policy |
| RateLimiter.TokenBucket.Create | demo_app/app/shedding/rate_limiter.py:8-15 | a rate or burst that is not positive is an error; otherwise the bucket starts full |
| RateLimiter.TokenBucket.Allow | demo_app/app/shedding/rate_limiter.py:17-26 | admits exactly when every window ending now has room for one more, and leaves the capped refill minus the token spent |
| RateLimiter.AdmissionLaw | demo_app/app/shedding/rate_limiter.py:17-26 | after any run, a call is admitted iff for every start of a window the calls admitted since plus one fit in burst + rate * length |
| RateLimiter.DenialWitness | demo_app/app/shedding/rate_limiter.py:23-24 | every denial is witnessed by the window opened by an earlier call, of which less than one token is left |
| RateLimiter.NoWindowIsOverrun | demo_app/app/shedding/rate_limiter.py:17-26 | no window of any run, wherever it starts and ends, admits more than burst + rate * length |
| RateLimiter.AllowanceIsBurstAndRate | demo_app/app/shedding/rate_limiter.py:20-21 | what a window may admit is the burst plus rate times length |
| RateLimiter.BucketRespectsWindows | demo_app/app/shedding/rate_limiter.py:17-26 | every stretch of consecutive calls fits the window it spans |
| RateLimiter.GreedyIsMaximal | demo_app/app/shedding/rate_limiter.py:17-26 | any other answers to the same calls that respect the windows have admitted no more, at any point |
| RateLimiter.TokensAreConserved | demo_app/app/shedding/rate_limiter.py:11-26 | tokens left + calls admitted + tokens lost to the cap = burst + rate * time; the balance stays within 0 and the burst; the loss never shrinks |
| RateLimiter.RefillsCompose | demo_app/app/shedding/rate_limiter.py:20-22 | a capped refill in two steps is a capped refill in one |
| RateLimiter.DenialsAreTransparent | demo_app/app/shedding/rate_limiter.py:20-26 | deleting any denied calls leaves every other answer, and the balance at every later time, as it was |
| RateLimiter.RetryIsAdmitted | demo_app/app/shedding/rate_limiter.py:20-26 | after a denial, a call 1/rate later is admitted unless another was in between |
| RateLimiter.RetryAdviceNeedsRateOne | demo_app/app/routes/protected.py:24-33 | the fixed advice to retry after one second is honest for all runs iff the rate is at least one per second |
| Percentiles.SortingIsUnique | demo_app/app/metrics.py:47 | there is one sorted order of the latencies, so the choice of sorting algorithm and the order of arrival do not matter |
| Percentiles.PercentileIgnoresOrder | demo_app/app/metrics.py:47-60 | a percentile depends only on the multiset of samples |
| Percentiles.RankIndexInRange | demo_app/app/metrics.py:73 | the index is always in range |
| Percentiles.RankedIsNearestRank | demo_app/app/metrics.py:69-74 | the value before rounding is, and is the only, smallest value that at least percentile * n of the n values do not exceed |
| Percentiles.PercentilesAreOrdered | demo_app/app/metrics.py:58-60 | higher percentiles are never smaller and none exceeds the rounded maximum |
| Percentiles.Round3IsNearest | demo_app/app/metrics.py:74 | a value rounds to a whole thousandth iff that is within half a thousandth of it, and even in a tie |
| Percentiles.Round3IsNear | demo_app/app/metrics.py:74 | rounding moves a value by at most 0.0005 |
| Percentiles.Round3IsMonotone | demo_app/app/metrics.py:74 | rounding keeps order |
| Metrics.TrafficMetrics.Create | demo_app/app/metrics.py:20-27 | a window that is not positive is an error |
| Metrics.TrafficMetrics.RequestStarted | demo_app/app/metrics.py:29-31 | the counter goes up by one |
| Metrics.TrafficMetrics.RequestFinished | demo_app/app/metrics.py:33-38 | the counter goes down, not below zero; the new sample is kept and the queue is the filter of the whole history |
| Metrics.TrafficMetrics.TakeSnapshot | demo_app/app/metrics.py:40-62 | summarizes exactly the samples of the whole history inside the window, whatever trimmed before: true rate, failures, counts by path and rounded nearest-rank latencies |
| Metrics.TrafficMetrics.DropExpired | demo_app/app/metrics.py:64-67 | popping expired samples off the head gives the filter of the whole history |
| Metrics.RetainedIsSuffix | demo_app/app/metrics.py:64-67 | the samples in the window are a suffix of the history, and exactly those at or after the cutoff |
| Metrics.RetainedTwice | demo_app/app/metrics.py:64-67 | an earlier trim loses nothing a later one would keep |
| Metrics.InFlightIsLargestSuffixBalance | demo_app/app/metrics.py:29-35 | the clamped counter is the largest balance of starts and finishes over all suffixes of the events |
| Metrics.SnapshotIsTrueAverage | demo_app/app/metrics.py:40-62 | counted samples lie within the last elapsed seconds, rate * elapsed is the count, per-path counts partition it, the error rate times the count is the number of samples with status 500 or more, percentiles are ordered |
| Metrics.ElapsedIsShortestCover | demo_app/app/metrics.py:49 | the divisor is the shortest span of at least a second covering the part of the window since start-up |
| Metrics.SnapshotPercentilesAreNearestRanks | demo_app/app/metrics.py:47-60 | each percentile is the rounded smallest latency of a sample in the window that at least 0.50, 0.95 or 0.99 of the samples, counted by position, do not exceed; zero without samples |
| Metrics.CountsAreExact | demo_app/app/metrics.py:50-61 | exactly the paths that occur are listed, each with the number of its samples, and the counts add up |
| Ledger.FirstOpen | demo_app/app/shedding/store.py:95-102 | an open row of the environment, if it has any |
| Ledger.LatestOpen | demo_app/app/shedding/store.py:73-81 | the open row of the environment that started last |
| Ledger.OpenRowIsUnique | demo_app/app/shedding/store.py:73-102 | in a chain at most one row of an environment is open, so neither query ever has to choose |
| Ledger.RecordKeepsConsistency | demo_app/app/shedding/store.py:93-123 | a transaction that succeeds keeps every constraint and every chain |
| Ledger.LevelChecksAdmitTiers | db/models/load_shedding_event.py:23-26 | the level CHECKs admit exactly the rows whose two levels each name a tier |
| Ledger.RecordSucceedsWhen | db/models/load_shedding_event.py:23-36 | a transaction that runs alone succeeds iff its levels name tiers, its identifier is new and its start is not before the active one |
| Ledger.RefusalsNameTheConstraint | db/models/load_shedding_event.py:23-36 | a refusal names a constraint that the transaction breaks, and running alone it never breaks the unique index |
| Ledger.RowsTileTheTimeLine | demo_app/app/shedding/store.py:93-123 | from the first start on exactly one row governs each instant, the last committed one started by then; before it none does |
| Ledger.ActiveIsLastOfLog | demo_app/app/shedding/store.py:71-91 | what is loaded is the last committed transition of the environment |
| Ledger.RecordAppendsToLog | demo_app/app/shedding/store.py:106-123 | success appends the transition and rewrites no recorded field |
| Ledger.ReplaySucceedsWhen | db/models/load_shedding_event.py:23-36 | serial calls all succeed iff identifiers differ, levels name tiers and starts never go back within an environment |
| Transactions.CommitIsSerial | demo_app/app/shedding/store.py:93-123 | a commit, wherever it falls in an interleaving, does what the transaction would do running alone at that point |
| Transactions.StepKeepsSound | demo_app/app/shedding/store.py:93-123 | every step of every transaction keeps the invariant of rows, locks and uncommitted writes |
| Transactions.InterleavingsAreSerial | demo_app/app/shedding/store.py:93-123 | every interleaving is equivalent to the committed transactions run alone in the order of their commits |
| Transactions.EveryInterleavingIsOneChain | db/models/load_shedding_event.py:28-35 | in every interleaving each environment with a commit has exactly one open row, its rows chain, and what is loaded is its last commit |
| Transactions.LockHolderIsNeverRefused | demo_app/app/shedding/store.py:95-102 | a transaction that got and ended the active row is never refused by the unique index |
| Transactions.LosingTheRowIsDoom | demo_app/app/shedding/store.py:95-102 | a waiter that wakes to an ended row is left without an active row in an environment that has one |
| Transactions.LosersOnlyAbort | db/models/load_shedding_event.py:30-35 | whatever step is taken, such a loser stays refused or aborts without effect |
| Transactions.LosersNeverCommit | db/models/load_shedding_event.py:30-35 | however a run goes on, a loser never commits |
| Transactions.NobodyWaitsForAWaiter | demo_app/app/shedding/store.py:93-123 | while identifiers in flight differ, whoever is waited for waits for nobody, so transactions cannot deadlock |
| Transactions.NextStepIsPossibleUnless | demo_app/app/shedding/store.py:93-123 | the next statement of a transaction is impossible iff a constraint refuses it for good or it waits for another transaction in the sense of the row above; an abort is always possible and touches nothing else |
| Transactions.SomebodyCanMove | demo_app/app/shedding/store.py:93-123 | even with repeated identifiers, a transaction that cannot move waits, directly or through one other, for one that can step or is refused |
| Transactions.AcceptableLogsAreRealizable | demo_app/app/shedding/store.py:93-123 | every log the constraints accept is committed by some run of steps |
| Transactions.UndisturbedTransaction | demo_app/app/shedding/store.py:93-123 | the steps of one transaction taken in a row end the open row and insert the new one |
| Transactions.IntervalCheckIsNeeded | db/models/load_shedding_event.py:28 | without the interval CHECK a run breaks the chain |
| Transactions.ActiveIndexIsNeeded | db/models/load_shedding_event.py:30-35 | without the partial unique index a run commits two open rows despite the lock |
| Stores.InMemoryLoadSheddingStore.LoadActive | demo_app/app/shedding/store.py:52-53 | returns the projection of the environment's last transition |
| Stores.InMemoryLoadSheddingStore.RecordTransition | demo_app/app/shedding/store.py:55-64 | appends to the log, keeping the active map its projection |
| Stores.SqlAlchemyLoadSheddingStore.LoadActive | demo_app/app/shedding/store.py:71-91 | returns the projection of the environment's last committed transition |
| Stores.SqlAlchemyLoadSheddingStore.RecordTransition | demo_app/app/shedding/store.py:93-123 | appends to the log iff the database answers, both levels name tiers, the identifier is new and the start does not go back; otherwise changes nothing |
| Stores.AppendingOverwrites | demo_app/app/shedding/store.py:55-64 | a write changes what is in force in its own environment and in no other |
| Stores.SerialStoresAgree | demo_app/app/shedding/store.py:47-123 | under serial calls the database store takes exactly the acceptable logs and then answers as the in-memory one |
| Shedding.PublishedIsRecoverable | demo_app/app/shedding/state.py:51-62 | a restart recovers from the audit record exactly the state published for it |
| Shedding.ProposalsPassTheLevelChecks | demo_app/app/shedding/state.py:90-91 | the level CHECKs never refuse a change of tier, from any tier to any other |
| Shedding.LoadSheddingController.Load | demo_app/app/shedding/state.py:51-62 | takes over what is in force, if anything is; a new controller is then in step with the store |
| Shedding.LoadSheddingController.Current | demo_app/app/shedding/state.py:64-65 | a reader of a controller in step gets exactly what the store would load: the state the last record stands for, or the start-up state if there is none |
| Shedding.LoadSheddingController.ChangeLevel | demo_app/app/shedding/state.py:67-124 | succeeds iff the level is in force already, or the database answers, the identifier is new and the start does not go back; then it records, and publishes what it recorded; a failed persist changes nothing |
| Lifecycle.EveryRunIsSound | demo_app/app/shedding/state.py:33-124 | after every run, with failures, crashes, lost acknowledgements and late commits, the state shown stands for some prefix of the environment's records: all of them iff no unseen commit is outstanding |
| Lifecycle.VisibleStateIsCommitted | demo_app/app/shedding/state.py:79-109 | the visible state is the start-up state or a committed record; it is the one in force (at most the record just persisted ahead of it) iff no commit the process did not see follows its last load or the commit it last published |
| Lifecycle.RestartRecoversTheLastRecord | demo_app/app/shedding/state.py:51-62 | wherever any run is interrupted, a restart recovers exactly the last committed record, or the start-up state if there is none |
| Lifecycle.ReportedPolicyIsEnforced | demo_app/app/shedding/state.py:55-62 | in every run the reported policy names exactly the modes enforced at the reported level, and checkout is normal |
| Lifecycle.EveryChangeTakesEffect | demo_app/app/shedding/state.py:79-109 | from any moment of any run a change to any other tier is taken iff its identifier is new and its start does not go back; then it is logged, granted and shown; a store that fails leaves log and state alone |
| Lifecycle.NoChangeIsGranted | demo_app/app/shedding/state.py:80-81 | asking for the tier shown is granted at once and changes nothing else |
| Lifecycle.TrailIsLinkedIffCommitsFit | demo_app/app/shedding/state.py:85-101 | in every run: each record starts from the level the previous one set, the first from normal, iff the records that land late, and those committed while the state shown lags, start from the level in force |
| Lifecycle.TrailReplaysIffGrantsFit | demo_app/app/shedding/state.py:80-101 | in every run: at every moment the trail is linked and sets exactly the granted levels with repeats removed, iff the same holds of every granted request, no-ops included |
| Lifecycle.TrailIsLinkedIffRestartedInTime | demo_app/app/shedding/state.py:85-101 | while no commit lands late, the trail is linked iff after every lost acknowledgement the process crashed before the next commit |
| Lifecycle.TrailReplaysIffRestartedBeforeGranting | demo_app/app/shedding/state.py:80-101 | while no commit lands late, the trail replays at every moment iff after every lost acknowledgement the process crashed before the next request was granted, no-ops included |
| Lifecycle.AuditTrailReplays | demo_app/app/shedding/state.py:80-101 | if no call that raised has committed, the trail replays and the visible state is current |
| Lifecycle.LostAcknowledgementLeavesTheStateBehind | demo_app/app/shedding/state.py:100-109 | right after a call that raised but did commit, the state shown is not the one in force, and a restart brings it back |
| Lifecycle.LostAcknowledgementBreaksTheTrail | demo_app/app/shedding/state.py:85-101 | a concrete run from the start in which a lost acknowledgement breaks the link and leaves the state behind |
| Deployment.BegunIsAwaited | demo_app/app/shedding/state.py:79-101 | a process that began a transaction can have it committed until it crashes, its call fails or the transaction ends |
| Deployment.StepProjects | demo_app/app/shedding/state.py:79-109 | a step of the whole system is, for each controller, one step of its life with single-step commits, or nothing |
| Deployment.RunsProject | demo_app/app/shedding/store.py:93-123 | every run of many processes with interleaved transactions projects to a life of each controller in which a commit is one step, that of an orphan landing late |
| Deployment.EveryControllerIsSafe | demo_app/app/shedding/state.py:33-124 | in every environment at every moment of every run of the system: the rows chain, the state shown is committed and is current iff no orphan's commit is outstanding, a restart recovers the last record or the start-up state, the trail is linked iff what orphans commit and what is committed while lagging fits, and it replays if no orphan commits |
| Deployment.LoadedProcessIsInStepUnlessOrphanLands | demo_app/app/shedding/state.py:51-62 | a process that has committed nothing since it loaded is in step iff no orphan of its environment has committed since that load |
| Deployment.NothingIsHeldBack | demo_app/app/shedding/store.py:93-123 | once a transaction has begun the system can take a step of it iff the database can, so no commit of a live process or an orphan is left out of the runs |
| Deployment.EveryLifeIsLived | demo_app/app/shedding/store.py:93-123 | conversely, every life of a controller with its own commits, at once or late, is the projection of some run of the system, carried out statement by statement |
| Handlers.BranchesFollowThePolicy | demo_app/app/routes/protected.py:36-141 | checkout never changes, the others ask the limiter exactly in the emergency tier, and degraded answers are exactly those the policy degrades |
| Handlers.LimitedResponse | demo_app/app/routes/protected.py:20-33 | refuses with 429 exactly when some window has no room |
| Handlers.HandleCheckout | demo_app/app/routes/protected.py:36-53 | the same full answer at every level |
| Handlers.HandleRecommendations | demo_app/app/routes/protected.py:56-102 | asks the limiter in the emergency tier only, where 200 costs one token |
| Handlers.HandleCatalog | demo_app/app/routes/protected.py:105-141 | the same for catalog, an admitted request being served from the cache |
| Requests.EveryRunIsSound | demo_app/app/main.py:77-98 | the invariant of limiter, metrics and requests holds after every interleaving; each request acts on the tier in force when its handler ran, and each sample has the latency and time of its finish |
| Requests.AnswersFollowTheTierInForce | demo_app/app/routes/protected.py:36-141 | in every interleaving each answer has the status, mode, degradation and retry advice promised for its path at the tier in force when its handler ran |
| Requests.EmergencyTrafficIsBounded | demo_app/app/main.py:67-70 | the requests to recommendations and catalog handled while the emergency tier is in force and answered 200 within any window number at most burst + rate * length; they are exactly those that paid |
| Requests.LimiterAnswersByWindows | demo_app/app/routes/protected.py:20-33 | in every interleaving a request that asks the limiter is answered 200 iff every window ending now has room for one more paid request, else 429 |
| Requests.EveryRequestCanProceed | demo_app/app/main.py:77-98 | in every interleaving each request that is not over can take its next step |
| Requests.RaisingIsRecorded | demo_app/app/main.py:85-98 | in every interleaving a handler that has not answered may raise, and the request is then recorded with status 500 and costs no token |
| Requests.LoneRequestIsServed | demo_app/app/main.py:77-98 | from any moment of any interleaving an uninterrupted request is answered as promised, leaves one sample and the counter as it was |
| Requests.ExcludedPaths | demo_app/app/main.py:28 | the five prefixes that are not counted; no protected path has one |
| Requests.OnlyEmergencyAnswersCostTokens | demo_app/app/routes/protected.py:75-126 | a token is spent on a request iff it was answered 200 on recommendations or catalog by a handler that ran while the emergency tier was in force |
| Requests.TokensAreSpentOnRequests | demo_app/app/routes/protected.py:20-23 | tokens left + paid requests + tokens lost = tokens issued, so each such request costs exactly one |
| Requests.CheckoutIsNeverShed | demo_app/app/routes/protected.py:36-53 | in every interleaving checkout never waits at the limiter and is answered in full |
| Requests.StartsAndFinishesPair | demo_app/app/main.py:77-98 | the counter is the number of requests in flight, the clamp never takes effect, and there is one sample for each finished request that is not excluded |
| Requests.SnapshotCountsRecentRequests | demo_app/app/metrics.py:40-62 | a snapshot in any interleaving counts exactly the requests that finished within its window |
| Middleware.DemoApp.CallHandler | demo_app/app/main.py:87 | on a path the middleware counts, the answer is the one planned for the path and the level, and the limiter is asked exactly when the plan says so |
| Middleware.DemoApp.ReportHealth | demo_app/app/routes/operations.py:27-50 | the health and snapshot routes report the published state and a snapshot of exactly the samples in the window, and record nothing |
| Middleware.DemoApp.CollectRequestMetrics | demo_app/app/main.py:77-98 | on an excluded path the middleware counts and records nothing, whatever the route answers; any other path leaves the counter as it was and records one sample, 500 if the handler raised |

## Left out

- Routing by HTTP method, request validation, headers other than the retry advice, JSON bodies, sleeps and the control-token check: framework behaviour. Among the paths that are counted, one that is not protected answers 404; nothing is promised about the answer to an excluded path.
- The route that asks for a change of tier, as a route: the change itself is `Shedding.LoadSheddingController.ChangeLevel`.
- The level shown in the checkout body and in the level header: they are read at other instants than the level that chose the branch.
- SQLAlchemy, the database drivers and the migration: a transaction is its locking query, its two writes and its commit. Foreign keys and column lengths can only make a transaction abort, and an abort is always possible.
- How far an orphaned transaction can still go: it is allowed all its remaining statements, which is more than the one already sent, so what holds of these runs holds of the real ones.
- Several controllers on one environment: the from/to link of the audit trail is stated for one controller per environment; the chain of intervals is stated for any number of processes.
- The controller over the in-memory store: the class holds the database store. Both stores append to the same log (`Stores.SerialStoresAgree`), but the in-memory one does not survive a crash.
- Cancellation of a request while it waits for a lock of the metrics or the limiter.
- Rounding of floating-point arithmetic: times, tokens and latencies are reals. The percentile fractions 0.95 and 0.99 are decimals.
- The wall-clock `observed_at` of a snapshot, logging and the JSON log line.
- The other tables of the schema: no algorithm uses them.
