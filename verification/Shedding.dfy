/** The controller that persists a change of tier before it publishes it. */
module Shedding {
  import opened Wrappers
  import opened Policies
  import opened Ledger
  import opened Stores

  datatype SheddingState = SheddingState(
    eventId: Option<nat>,
    level: SheddingLevel,
    startedAt: int,
    reasonCode: string,
    reasoning: string,
    policy: map<string, string>)

  /** What a caller asks for. */
  datatype Change = Change(level: SheddingLevel, reasonCode: string, reasoning: string, audit: Audit)

  datatype TransitionResult = TransitionResult(changed: bool, state: SheddingState)

  datatype LoadError = UnknownLevel

  function NormalState(now: int): SheddingState
  {
    SheddingState(None, Normal, now, "application_start", "Application started in normal mode",
                  PolicySnapshot(Normal))
  }

  /** The state a stored transition stands for; a stored level that names no tier is an error. */
  function Recovered(stored: Stored): Result<SheddingState, LoadError>
  {
    var level := LevelOf(stored.level);
    if level.None? then Failure(UnknownLevel)
    else Success(SheddingState(Some(stored.eventId), level.value, stored.startedAt,
                               stored.reasonCode, stored.reasoning, stored.policy))
  }

  /** The audit record of a change. */
  function Proposal(environment: string, from: SheddingState, change: Change, now: int, eventId: nat): Transition
  {
    Transition(eventId, environment, now, LevelValue(from.level), LevelValue(change.level),
               change.reasonCode, change.reasoning, PolicySnapshot(change.level), change.audit)
  }

  /** The state published for a change. */
  function Published(change: Change, now: int, eventId: nat): SheddingState
  {
    SheddingState(Some(eventId), change.level, now, change.reasonCode, change.reasoning,
                  PolicySnapshot(change.level))
  }

  /** A restart recovers from the audit record exactly the state that is published for it. */
  lemma PublishedIsRecoverable(environment: string, from: SheddingState, change: Change, now: int, eventId: nat)
    ensures Recovered(Projection(Proposal(environment, from, change, now, eventId))) ==
            Success(Published(change, now, eventId))
  {}

  /** The level CHECKs of the table never stand in the way of a change of tier. */
  lemma ProposalsPassTheLevelChecks(environment: string, from: SheddingState, change: Change, now: int, eventId: nat)
    ensures LevelsInRange(Proposal(environment, from, change, now, eventId))
  {
    LevelChecksAdmitTiers(Proposal(environment, from, change, now, eventId));
  }

  /** The state agrees with what is in force in the log: the last transition, or the start-up state if there is none. */
  predicate Tracks(log: seq<Transition>, environment: string, state: SheddingState)
  {
    var last := LastOf(log, environment);
    if last.None? then state == NormalState(state.startedAt)
    else Recovered(last.value) == Success(state)
  }

  class LoadSheddingController {
    const store: SqlAlchemyLoadSheddingStore
    const environment: string
    var state: SheddingState

    /** The published state agrees with the store. */
    ghost predicate InStep()
      reads this, store
    {
      Tracks(Records(store.table), environment, state)
    }

    constructor (store: SqlAlchemyLoadSheddingStore, environment: string, now: int)
      ensures this.store == store && this.environment == environment
      ensures state == NormalState(now)
    {
      this.store := store;
      this.environment := environment;
      state := SheddingState(None, Normal, now, "application_start", "Application started in normal mode",
                             PolicySnapshot(Normal));
    }

    /**
     * Takes over what is in force in the store, if anything is; a controller that was just created is
     * then in step. The level CHECKs of the table leave no stored level without a tier.
     */
    method Load()
      requires store.Valid()
      modifies this`state
      ensures LastOf(Records(store.table), environment).Some? ==> InStep()
      ensures LastOf(Records(store.table), environment).None? ==> state == old(state)
      ensures old(state) == NormalState(old(state).startedAt) ==> InStep()
    {
      LevelsAreRecoverable(store.table, environment);
      var stored := store.LoadActive(environment);
      if stored.None? {
        return;
      }
      state := Recovered(stored.value).value;
    }

    /**
     * The published state. From a controller in step with its store, a reader gets exactly what the store
     * would load: the start-up state if nothing is recorded, else the state the last record stands for.
     */
    method Current() returns (r: SheddingState)
      ensures r == state
      ensures InStep() ==>
                match LastOf(Records(store.table), environment)
                case None => r == NormalState(r.startedAt)
                case Some(last) => Recovered(last) == Success(r)
    {
      r := state;
    }

    /**
     * Records the change, then publishes it. Asking for the level in force changes nothing; any other
     * change succeeds exactly when the database answers, the identifier is new and the start does not go
     * back, whatever the two tiers are. A failure leaves both the store and the published state as they were.
     */
    method ChangeLevel(change: Change, now: int, eventId: nat, reachable: bool)
      returns (r: Result<TransitionResult, StoreError>)
      requires store.Valid()
      modifies this`state, store
      ensures store.Valid()
      ensures old(InStep()) || (r.Success? && r.value.changed) ==> InStep()
      ensures r.Success? ==> r.value.state == state && state.level == change.level
      ensures r.Success? ==> (r.value.changed <==> old(state).level != change.level)
      ensures r.Success? && r.value.changed ==>
                && Records(store.table) ==
                   old(Records(store.table)) + [Proposal(environment, old(state), change, now, eventId)]
                && state == Published(change, now, eventId)
      ensures r.Failure? || !r.value.changed ==> store.table == old(store.table) && state == old(state)
      ensures r.Success? <==>
              || change.level == old(state).level
              || (&& reachable && !HasId(old(store.table), eventId)
                  && var last := LastOf(old(Records(store.table)), environment);
                     last.Some? ==> last.value.startedAt <= now)
    {
      if change.level == state.level {
        return Success(TransitionResult(false, state));
      }
      var transition := Transition(
        eventId, environment, now, LevelValue(state.level), LevelValue(change.level),
        change.reasonCode, change.reasoning, PolicySnapshot(change.level), change.audit);
      AppendingOverwrites(Records(store.table), transition, environment);
      PublishedIsRecoverable(environment, state, change, now, eventId);
      ProposalsPassTheLevelChecks(environment, state, change, now, eventId);
      LevelChecksAdmitTiers(transition);
      var outcome := store.RecordTransition(transition, reachable);
      if outcome.Fail? {
        return Failure(outcome.error);
      }
      state := SheddingState(Some(eventId), change.level, now, change.reasonCode, change.reasoning, transition.policy);
      r := Success(TransitionResult(true, state));
    }
  }

  /** The level CHECKs of the table make every row in force recoverable. */
  lemma LevelsAreRecoverable(table: Table, environment: string)
    requires Consistent(table)
    ensures var last := LastOf(Records(table), environment);
            last.Some? ==> Recovered(last.value).Success?
  {
    ActiveIsLastOfLog(table, environment);
    var open := LatestOpen(table, environment);
    if open.Some? {
      assert LevelsInRange(table[open.value].record);
    }
  }
}
