/** The two stores a controller can be given, and the log that both of them stand for. */
module Stores {
  import opened Wrappers
  import opened Ledger

  class InMemoryLoadSheddingStore {
    var active: map<string, Stored>
    var transitions: seq<Transition>

    ghost predicate Valid()
      reads this
    {
      forall environment ::
        LastOf(transitions, environment) ==
        if environment in active then Some(active[environment]) else None
    }

    constructor ()
      ensures Valid() && transitions == []
    {
      active := map[];
      transitions := [];
    }

    method LoadActive(environment: string) returns (stored: Option<Stored>)
      requires Valid()
      ensures stored == LastOf(transitions, environment)
    {
      stored := if environment in active then Some(active[environment]) else None;
    }

    method RecordTransition(t: Transition)
      requires Valid()
      modifies this
      ensures Valid()
      ensures transitions == old(transitions) + [t]
    {
      forall environment
        ensures LastOf(transitions + [t], environment) ==
                if environment == t.environment then Some(Projection(t)) else LastOf(transitions, environment)
      {
        AppendingOverwrites(transitions, t, environment);
      }
      transitions := transitions + [t];
      active := active[t.environment :=
        Stored(t.eventId, t.toLevel, t.startedAt, t.reasonCode, t.reasoning, t.policy)];
    }
  }

  /** The database store, used by one caller at a time. */
  class SqlAlchemyLoadSheddingStore {
    var table: Table

    ghost predicate Valid()
      reads this
    {
      Consistent(table)
    }

    constructor ()
      ensures Valid() && table == []
    {
      table := [];
    }

    method LoadActive(environment: string) returns (stored: Option<Stored>)
      requires Valid()
      ensures stored == LastOf(Records(table), environment)
    {
      ActiveIsLastOfLog(table, environment);
      var event := LatestOpen(table, environment);
      if event.None? {
        return None;
      }
      var row := table[event.value].record;
      stored := Some(Stored(row.eventId, row.toLevel, row.startedAt, row.reasonCode, row.reasoning, row.policy));
    }

    /**
     * Appends to the log, or fails and leaves the table as it was; `reachable` says whether the
     * database answers at all.
     */
    method RecordTransition(t: Transition, reachable: bool) returns (outcome: Outcome<StoreError>)
      requires Valid()
      modifies this
      ensures Valid()
      ensures outcome.Pass? ==> Records(table) == old(Records(table)) + [t]
      ensures outcome.Fail? ==> table == old(table)
      ensures outcome.Pass? <==>
              && reachable && NamesTiers(t) && !HasId(old(table), t.eventId)
              && var last := LastOf(old(Records(table)), t.environment);
                 last.Some? ==> last.value.startedAt <= t.startedAt
      ensures reachable && outcome.Fail? ==> Record(old(table), t) == Failure(outcome.error)
    {
      RecordSucceedsWhen(table, t);
      LevelChecksAdmitTiers(t);
      ActiveIsLastOfLog(table, t.environment);
      if !reachable {
        return Fail(Unavailable);
      }
      var active := FirstOpen(table, t.environment);
      var working := table;
      if active.Some? {
        var row := table[active.value];
        if t.startedAt < row.record.startedAt {
          return Fail(ValidInterval);
        }
        working := working[active.value := row.(endedAt := Some(t.startedAt))];
      }
      if !LevelsInRange(t) {
        return Fail(LevelRange);
      }
      if HasId(table, t.eventId) {
        return Fail(DuplicateId);
      }
      if FirstOpen(working, t.environment).Some? {
        return Fail(ActiveEnvironment);
      }
      RecordKeepsConsistency(table, t);
      table := working + [Row(t, None)];
      outcome := Pass;
    }
  }

  /** Appending changes what is in force in the transition's own environment and in no other. */
  lemma AppendingOverwrites(log: seq<Transition>, t: Transition, environment: string)
    ensures LastOf(log + [t], environment) ==
            if environment == t.environment then Some(Projection(t)) else LastOf(log, environment)
    ensures environment != t.environment ==>
              EnvironmentLog(log + [t], environment) == EnvironmentLog(log, environment)
  {}

  /**
   * The stores agree under serial calls: the database takes every call exactly for the logs that are
   * acceptable, and then answers in every environment as the in-memory store does.
   */
  lemma SerialStoresAgree(log: seq<Transition>, environment: string)
    ensures Replay(log).Success? <==> Acceptable(log)
    ensures Acceptable(log) ==> LoadActive(Replay(log).value, environment) == LastOf(log, environment)
  {
    ReplaySucceedsWhen(log);
    if Acceptable(log) {
      ReplayIsConsistent(log);
      ActiveIsLastOfLog(Replay(log).value, environment);
    }
  }
}
