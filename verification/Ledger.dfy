/**
 * The audit ledger of shedding transitions: the table with its constraints, and what one
 * transaction that runs alone does to it.
 */
module Ledger {
  import opened Wrappers
  import opened Policies

  /** Fields that are stored as given and never examined. */
  datatype Audit = Audit(
    correlationId: nat,
    changedBy: string,
    signalEvidence: string,
    predictionId: Option<nat>,
    triggerSnapshotId: Option<int>)

  datatype Transition = Transition(
    eventId: nat,
    environment: string,
    startedAt: int,
    fromLevel: int,
    toLevel: int,
    reasonCode: string,
    reasoning: string,
    policy: map<string, string>,
    audit: Audit)

  /** What a store returns for the transition in force. */
  datatype Stored = Stored(
    eventId: nat,
    level: int,
    startedAt: int,
    reasonCode: string,
    reasoning: string,
    policy: map<string, string>)

  /** A row of `load_shedding_events`; a row without an end is open. */
  datatype Row = Row(record: Transition, endedAt: Option<int>)

  /** The committed rows, in the order in which they were committed. */
  type Table = seq<Row>

  datatype StoreError = ValidInterval | LevelRange | DuplicateId | ActiveEnvironment | Unavailable

  function Projection(t: Transition): Stored
  {
    Stored(t.eventId, t.toLevel, t.startedAt, t.reasonCode, t.reasoning, t.policy)
  }

  predicate OpenFor(row: Row, environment: string)
  {
    row.record.environment == environment && row.endedAt.None?
  }

  predicate LevelsInRange(t: Transition)
  {
    0 <= t.fromLevel <= 3 && 0 <= t.toLevel <= 3
  }

  /** Both levels name a tier. */
  predicate NamesTiers(t: Transition)
  {
    LevelOf(t.fromLevel).Some? && LevelOf(t.toLevel).Some?
  }

  /** The level CHECKs admit exactly the tiers there are. */
  lemma LevelChecksAdmitTiers(t: Transition)
    ensures LevelsInRange(t) <==> NamesTiers(t)
  {
    LevelsAreFourIntegers(t.fromLevel);
    LevelsAreFourIntegers(t.toLevel);
  }

  predicate HasId(table: Table, id: nat)
  {
    exists i | 0 <= i < |table| :: table[i].record.eventId == id
  }

  predicate HasEnvironment(table: Table, environment: string)
  {
    exists i | 0 <= i < |table| :: table[i].record.environment == environment
  }

  /** Some open row of the environment, for the locking query, which asks for no order. */
  function FirstOpen(table: Table, environment: string): (r: Option<nat>)
    ensures r.Some? ==> r.value < |table| && OpenFor(table[r.value], environment)
    ensures r.None? ==> forall i | 0 <= i < |table| :: !OpenFor(table[i], environment)
  {
    if table == [] then None
    else
      var earlier := FirstOpen(table[..|table| - 1], environment);
      if earlier.Some? then earlier
      else if OpenFor(table[|table| - 1], environment) then Some(|table| - 1)
      else None
  }

  /** The open row of the environment that started last, for the loading query. */
  function LatestOpen(table: Table, environment: string): (r: Option<nat>)
    ensures r.Some? ==> r.value < |table| && OpenFor(table[r.value], environment)
    ensures r.Some? ==> forall i | 0 <= i < |table| && OpenFor(table[i], environment) ::
                          table[i].record.startedAt <= table[r.value].record.startedAt
    ensures r.None? ==> forall i | 0 <= i < |table| :: !OpenFor(table[i], environment)
  {
    if table == [] then None
    else
      var n := |table| - 1;
      var earlier := LatestOpen(table[..n], environment);
      if !OpenFor(table[n], environment) then earlier
      else if earlier.Some? && table[n].record.startedAt < table[earlier.value].record.startedAt then earlier
      else Some(n)
  }

  function LoadActive(table: Table, environment: string): Option<Stored>
  {
    var i := LatestOpen(table, environment);
    if i.None? then None else Some(Projection(table[i.value].record))
  }

  /** The table with row `closed` ended, if there is one to end. */
  function WithClosed(table: Table, closed: Option<nat>, endedAt: int): (r: Table)
    requires closed.Some? ==> closed.value < |table|
    ensures |r| == |table|
  {
    if closed.None? then table
    else table[closed.value := table[closed.value].(endedAt := Some(endedAt))]
  }

  function Applied(table: Table, closed: Option<nat>, t: Transition): Table
    requires closed.Some? ==> closed.value < |table|
  {
    WithClosed(table, closed, t.startedAt) + [Row(t, None)]
  }

  /** One transaction on its own: end the open row, insert the new one, and let the constraints judge. */
  function Record(table: Table, t: Transition): Result<Table, StoreError>
  {
    var open := FirstOpen(table, t.environment);
    if open.Some? && t.startedAt < table[open.value].record.startedAt then Failure(ValidInterval)
    else if !LevelsInRange(t) then Failure(LevelRange)
    else if HasId(table, t.eventId) then Failure(DuplicateId)
    else if FirstOpen(WithClosed(table, open, t.startedAt), t.environment).Some? then Failure(ActiveEnvironment)
    else Success(Applied(table, open, t))
  }

  // ---------- the chain of each environment ----------

  /** Row `k` is the next row of row `i`'s environment. */
  predicate Follows(table: Table, i: nat, k: nat)
    requires i < |table| && k < |table|
  {
    && i < k
    && table[i].record.environment == table[k].record.environment
    && forall m | i < m < k :: table[m].record.environment != table[i].record.environment
  }

  predicate IsLast(table: Table, i: nat)
    requires i < |table|
  {
    forall m | i < m < |table| :: table[m].record.environment != table[i].record.environment
  }

  /**
   * The rows of each environment form one chain: only the last is open, every other ends when the
   * next one starts, and starts never go back.
   */
  ghost predicate Chained(table: Table)
  {
    && (forall i: nat | i < |table| :: table[i].endedAt.None? <==> IsLast(table, i))
    && (forall i: nat, k: nat | i < |table| && k < |table| && Follows(table, i, k) ::
          table[i].endedAt == Some(table[k].record.startedAt)
          && table[i].record.startedAt <= table[k].record.startedAt)
  }

  ghost predicate Constrained(table: Table)
  {
    && (forall i: nat | i < |table| :: LevelsInRange(table[i].record))
    && (forall i: nat, k: nat | i < k < |table| :: table[i].record.eventId != table[k].record.eventId)
  }

  ghost predicate Consistent(table: Table)
  {
    Chained(table) && Constrained(table)
  }

  /** In a chain the open row of an environment is its last row, so neither query ever has to choose. */
  lemma OpenRowIsUnique(table: Table, environment: string, i: nat)
    requires Chained(table) && i < |table| && OpenFor(table[i], environment)
    ensures FirstOpen(table, environment) == Some(i) == LatestOpen(table, environment)
    ensures IsLast(table, i)
  {
    assert IsLast(table, i);
    var first := FirstOpen(table, environment).value;
    var latest := LatestOpen(table, environment).value;
    assert IsLast(table, first) && IsLast(table, latest);
  }

  /** The last row of the environment, when it has one. */
  lemma {:induction false} LastRow(table: Table, environment: string, n: nat) returns (i: nat)
    requires n <= |table|
    requires exists m | 0 <= m < n :: table[m].record.environment == environment
    ensures i < n && table[i].record.environment == environment
    ensures forall m | i < m < n :: table[m].record.environment != environment
    decreases n
  {
    if table[n - 1].record.environment == environment {
      i := n - 1;
    } else {
      i := LastRow(table, environment, n - 1);
    }
  }

  /** Exactly the environments that have a row have an open row. */
  lemma EveryEnvironmentIsOpen(table: Table, environment: string)
    requires Chained(table)
    ensures FirstOpen(table, environment).Some? <==> HasEnvironment(table, environment)
  {
    if HasEnvironment(table, environment) {
      var i := LastRow(table, environment, |table|);
      assert IsLast(table, i);
    }
  }

  /** What the new table says about each pair of rows. */
  lemma AppliedKeepsChain(table: Table, t: Transition, open: Option<nat>)
    requires Chained(table)
    requires open == FirstOpen(table, t.environment)
    requires open.Some? ==> table[open.value].record.startedAt <= t.startedAt
    ensures Chained(Applied(table, open, t))
  {
    var after := Applied(table, open, t);
    var n := |table|;
    EveryEnvironmentIsOpen(table, t.environment);
    if open.Some? {
      OpenRowIsUnique(table, t.environment, open.value);
    }
    assert forall i | 0 <= i < n :: after[i].record == table[i].record;
    forall i: nat | i < |after|
      ensures after[i].endedAt.None? <==> IsLast(after, i)
    {
      if i < n {
        if table[i].record.environment == t.environment {
          assert after[n].record.environment == after[i].record.environment;
          assert table[i].endedAt.None? ==> IsLast(table, i);
          if table[i].endedAt.None? {
            OpenRowIsUnique(table, t.environment, i);
          }
        } else {
          assert IsLast(after, i) <==> IsLast(table, i);
        }
      }
    }
    forall i: nat, k: nat | i < |after| && k < |after| && Follows(after, i, k)
      ensures after[i].endedAt == Some(after[k].record.startedAt)
              && after[i].record.startedAt <= after[k].record.startedAt
    {
      AppliedLinks(table, t, open, i, k);
    }
  }

  lemma AppliedLinks(table: Table, t: Transition, open: Option<nat>, i: nat, k: nat)
    requires Chained(table)
    requires open == FirstOpen(table, t.environment)
    requires open.Some? ==> table[open.value].record.startedAt <= t.startedAt
    requires i < |table| + 1 && k < |table| + 1 && Follows(Applied(table, open, t), i, k)
    ensures var after := Applied(table, open, t);
            && after[i].endedAt == Some(after[k].record.startedAt)
            && after[i].record.startedAt <= after[k].record.startedAt
  {
    var after := Applied(table, open, t);
    assert forall m | 0 <= m < |table| :: after[m].record == table[m].record;
    if k < |table| {
      assert Follows(table, i, k);
      assert !IsLast(table, i);
    } else {
      assert IsLast(table, i);
      assert OpenFor(table[i], t.environment);
      OpenRowIsUnique(table, t.environment, i);
    }
  }

  /** A transaction that succeeds keeps every constraint and every chain. */
  lemma RecordKeepsConsistency(table: Table, t: Transition)
    requires Consistent(table) && Record(table, t).Success?
    ensures Consistent(Record(table, t).value)
  {
    AppliedKeepsChain(table, t, FirstOpen(table, t.environment));
  }

  /** On a consistent table the unique index never refuses a transaction that runs alone. */
  lemma RecordSucceedsWhen(table: Table, t: Transition)
    requires Consistent(table)
    ensures Record(table, t).Success? <==>
            && NamesTiers(t) && !HasId(table, t.eventId)
            && (LoadActive(table, t.environment).Some? ==>
                  LoadActive(table, t.environment).value.startedAt <= t.startedAt)
  {
    LevelChecksAdmitTiers(t);
    hide LevelsInRange, NamesTiers;
  }

  /** A refusal names a constraint that the transaction breaks; the unique index is never the one. */
  lemma RefusalsNameTheConstraint(table: Table, t: Transition)
    requires Consistent(table) && Record(table, t).Failure?
    ensures match Record(table, t).error
            case ValidInterval => LoadActive(table, t.environment).Some?
                                  && t.startedAt < LoadActive(table, t.environment).value.startedAt
            case LevelRange => !NamesTiers(t)
            case DuplicateId => exists i | 0 <= i < |table| :: table[i].record.eventId == t.eventId
            case _ => false
  {
    RecordSucceedsWhen(table, t);
    LevelChecksAdmitTiers(t);
    EveryEnvironmentIsOpen(table, t.environment);
    var open := FirstOpen(table, t.environment);
    if open.Some? {
      OpenRowIsUnique(table, t.environment, open.value);
    }
    hide LevelsInRange, NamesTiers, Chained, Constrained, FirstOpen, LatestOpen, WithClosed, Applied;
  }

  // ---------- the time line ----------

  /** Row `i` is in force at time `at`. */
  predicate Governs(row: Row, at: int)
  {
    row.record.startedAt <= at && (row.endedAt.Some? ==> at < row.endedAt.value)
  }

  lemma {:induction false} NextRow(table: Table, i: nat, k: nat) returns (next: nat)
    requires i < k < |table| && table[i].record.environment == table[k].record.environment
    ensures i < next <= k && Follows(table, i, next)
    decreases k
  {
    if Follows(table, i, k) {
      next := k;
    } else {
      var m :| i < m < k && table[m].record.environment == table[i].record.environment;
      next := NextRow(table, i, m);
    }
  }

  lemma FollowsSameEnvironment(table: Table, i: nat, k: nat)
    requires i < |table| && k < |table| && Follows(table, i, k)
    ensures table[i].record.environment == table[k].record.environment
  {}

  lemma ChainLink(table: Table, i: nat, k: nat)
    requires Chained(table) && i < |table| && k < |table| && Follows(table, i, k)
    ensures table[i].endedAt == Some(table[k].record.startedAt)
    ensures table[i].record.startedAt <= table[k].record.startedAt
  {}

  lemma {:induction false} StartsNeverGoBack(table: Table, i: nat, k: nat)
    requires Chained(table)
    requires i <= k < |table| && table[i].record.environment == table[k].record.environment
    ensures table[i].record.startedAt <= table[k].record.startedAt
    ensures i < k ==> table[i].endedAt.Some? && table[i].endedAt.value <= table[k].record.startedAt
    decreases k - i
  {
    hide Chained, Follows;
    if i < k {
      var next := NextRow(table, i, k);
      assert table[next].record.environment == table[k].record.environment by {
        FollowsSameEnvironment(table, i, next);
      }
      ChainLink(table, i, next);
      StartsNeverGoBack(table, next, k);
    }
  }

  lemma {:induction false} LastStartedBy(table: Table, environment: string, at: int, n: nat) returns (i: nat)
    requires n <= |table|
    requires exists m | 0 <= m < n :: table[m].record.environment == environment && table[m].record.startedAt <= at
    ensures i < n && table[i].record.environment == environment && table[i].record.startedAt <= at
    ensures forall m | i < m < n && table[m].record.environment == environment :: at < table[m].record.startedAt
    decreases n
  {
    var last := table[n - 1].record;
    if last.environment == environment && last.startedAt <= at {
      i := n - 1;
    } else {
      i := LastStartedBy(table, environment, at, n - 1);
    }
  }

  /**
   * From an environment's first start on, exactly one of its rows governs each instant, and it is
   * the last committed one that had started by then; before its first start, none does.
   */
  lemma RowsTileTheTimeLine(table: Table, environment: string, at: int)
    requires Chained(table)
    ensures (exists m | 0 <= m < |table| ::
               table[m].record.environment == environment && table[m].record.startedAt <= at) <==>
            exists i: nat | i < |table| :: table[i].record.environment == environment && Governs(table[i], at)
    ensures forall i: nat | i < |table| && table[i].record.environment == environment && Governs(table[i], at) ::
              forall m: nat | m < |table| && table[m].record.environment == environment && m != i ::
                !Governs(table[m], at) && (table[m].record.startedAt <= at ==> m < i)
  {
    if exists m | 0 <= m < |table| :: table[m].record.environment == environment && table[m].record.startedAt <= at {
      var i := LastStartedBy(table, environment, at, |table|);
      assert table[i].endedAt.None? <==> IsLast(table, i);
      if table[i].endedAt.Some? {
        var k :| i < k < |table| && table[k].record.environment == table[i].record.environment;
        var next := NextRow(table, i, k);
      }
      assert Governs(table[i], at);
    }
    forall i: nat, m: nat | i < |table| && table[i].record.environment == environment && Governs(table[i], at)
                            && m < |table| && table[m].record.environment == environment && m != i
      ensures !Governs(table[m], at) && (table[m].record.startedAt <= at ==> m < i)
    {
      if m < i {
        StartsNeverGoBack(table, m, i);
      } else {
        StartsNeverGoBack(table, i, m);
      }
    }
  }

  // ---------- the log behind the table ----------

  /** The transitions that were committed, in order. */
  function Records(table: Table): seq<Transition>
  {
    seq(|table|, i requires 0 <= i < |table| => table[i].record)
  }

  /** The transitions of one environment. */
  function EnvironmentLog(log: seq<Transition>, environment: string): seq<Transition>
  {
    if log == [] then []
    else EnvironmentLog(log[..|log| - 1], environment) +
         if log[|log| - 1].environment == environment then [log[|log| - 1]] else []
  }

  /** What the last transition of an environment says, if it has had one. */
  function LastOf(log: seq<Transition>, environment: string): Option<Stored>
  {
    var own := EnvironmentLog(log, environment);
    if own == [] then None else Some(Projection(own[|own| - 1]))
  }

  lemma EnvironmentLogAppend(log: seq<Transition>, t: Transition, environment: string)
    ensures EnvironmentLog(log + [t], environment) ==
            EnvironmentLog(log, environment) + if t.environment == environment then [t] else []
  {}

  lemma {:induction false} LogEndsWithLastOf(log: seq<Transition>, environment: string, i: nat)
    requires i < |log| && log[i].environment == environment
    requires forall m | i < m < |log| :: log[m].environment != environment
    ensures var own := EnvironmentLog(log, environment); own != [] && own[|own| - 1] == log[i]
  {
    if i < |log| - 1 {
      LogEndsWithLastOf(log[..|log| - 1], environment, i);
    }
  }

  lemma {:induction false} ForeignLogIsEmpty(log: seq<Transition>, environment: string)
    requires forall i | 0 <= i < |log| :: log[i].environment != environment
    ensures EnvironmentLog(log, environment) == []
  {
    if log != [] {
      ForeignLogIsEmpty(log[..|log| - 1], environment);
    }
  }

  lemma LastRowEndsLog(table: Table, environment: string, i: nat)
    requires i < |table| && table[i].record.environment == environment && IsLast(table, i)
    ensures LastOf(Records(table), environment) == Some(Projection(table[i].record))
  {
    var log := Records(table);
    assert log[i] == table[i].record;
    assert forall m | i < m < |log| :: log[m].environment == table[m].record.environment;
    LogEndsWithLastOf(log, environment, i);
    hide EnvironmentLog;
  }

  lemma NoRowNoLog(table: Table, environment: string)
    requires !HasEnvironment(table, environment)
    ensures LastOf(Records(table), environment) == None
  {
    assert forall i | 0 <= i < |table| :: Records(table)[i].environment == table[i].record.environment;
    ForeignLogIsEmpty(Records(table), environment);
    hide EnvironmentLog;
  }

  /** The table stands for its log: the row in force is the last transition of the environment. */
  lemma ActiveIsLastOfLog(table: Table, environment: string)
    requires Chained(table)
    ensures LoadActive(table, environment) == LastOf(Records(table), environment)
  {
    hide LastOf, Records;
    EveryEnvironmentIsOpen(table, environment);
    var open := FirstOpen(table, environment);
    if open.Some? {
      OpenRowIsUnique(table, environment, open.value);
      LastRowEndsLog(table, environment, open.value);
    } else {
      NoRowNoLog(table, environment);
    }
  }

  /** A successful transaction appends to the log, and rewrites nothing it says. */
  lemma RecordAppendsToLog(table: Table, t: Transition)
    requires Record(table, t).Success?
    ensures Records(Record(table, t).value) == Records(table) + [t]
  {}

  /** Transactions of a log run one after the other on an empty table. */
  function Replay(log: seq<Transition>): Result<Table, StoreError>
  {
    if log == [] then Success([])
    else
      var earlier := Replay(log[..|log| - 1]);
      if earlier.Failure? then earlier else Record(earlier.value, log[|log| - 1])
  }

  lemma {:induction false} ReplayIsConsistent(log: seq<Transition>)
    requires Replay(log).Success?
    ensures Consistent(Replay(log).value) && Records(Replay(log).value) == log
  {
    hide Record;
    if log != [] {
      hide Consistent, Records;
      var (earlier, t) := (log[..|log| - 1], log[|log| - 1]);
      ReplayIsConsistent(earlier);
      RecordKeepsConsistency(Replay(earlier).value, t);
      RecordAppendsToLog(Replay(earlier).value, t);
      assert log == earlier + [t];
    }
  }

  /** A log the constraints accept, said without running it. */
  predicate Acceptable(log: seq<Transition>)
  {
    && (forall i | 0 <= i < |log| :: NamesTiers(log[i]))
    && (forall i, k | 0 <= i < k < |log| :: log[i].eventId != log[k].eventId)
    && (forall i, k | 0 <= i < k < |log| && log[i].environment == log[k].environment ::
          log[i].startedAt <= log[k].startedAt)
  }

  /** Serial calls all succeed exactly when identifiers differ, levels are in range and starts never go back. */
  lemma {:induction false} ReplaySucceedsWhen(log: seq<Transition>)
    ensures Replay(log).Success? <==> Acceptable(log)
  {
    hide Record, NamesTiers;
    if log != [] {
      hide Acceptable;
      var (earlier, t) := (log[..|log| - 1], log[|log| - 1]);
      ReplaySucceedsWhen(earlier);
      if Replay(earlier).Success? {
        ExtendingReplay(earlier, t);
        assert log == earlier + [t];
      } else {
        AcceptablePrefix(earlier, t);
        assert log == earlier + [t];
      }
    }
  }

  lemma AcceptablePrefix(log: seq<Transition>, t: Transition)
    ensures Acceptable(log + [t]) ==> Acceptable(log)
  {
    var longer := log + [t];
    assert forall i | 0 <= i < |log| :: longer[i] == log[i];
  }

  /** The start of the transition in force is the latest start of its environment. */
  lemma ActiveStartedLast(table: Table, environment: string, start: int)
    requires Chained(table)
    ensures (LoadActive(table, environment).Some? ==> LoadActive(table, environment).value.startedAt <= start) <==>
            forall i | 0 <= i < |table| && table[i].record.environment == environment ::
              table[i].record.startedAt <= start
  {
    EveryEnvironmentIsOpen(table, environment);
    var open := LatestOpen(table, environment);
    if open.Some? {
      OpenRowIsUnique(table, environment, open.value);
      forall i | 0 <= i < |table| && table[i].record.environment == environment
        ensures table[i].record.startedAt <= table[open.value].record.startedAt
      {
        StartsNeverGoBack(table, i, open.value);
      }
    }
  }

  lemma ExtendingAcceptable(log: seq<Transition>, t: Transition)
    requires Acceptable(log)
    ensures Acceptable(log + [t]) <==>
            && NamesTiers(t)
            && (forall i | 0 <= i < |log| :: log[i].eventId != t.eventId)
            && (forall i | 0 <= i < |log| && log[i].environment == t.environment :: log[i].startedAt <= t.startedAt)
  {
    var longer := log + [t];
    assert longer[|log|] == t;
    assert forall i | 0 <= i < |log| :: longer[i] == log[i];
  }

  lemma ExtendingReplay(log: seq<Transition>, t: Transition)
    requires Replay(log).Success? && Acceptable(log)
    ensures Record(Replay(log).value, t).Success? <==> Acceptable(log + [t])
  {
    hide Acceptable, Chained, Record, LoadActive, Replay;
    var table := Replay(log).value;
    ReplayIsConsistent(log);
    RecordSucceedsWhen(table, t);
    ActiveStartedLast(table, t.environment, t.startedAt);
    ExtendingAcceptable(log, t);
    assert forall i | 0 <= i < |log| :: log[i] == table[i].record;
  }
}
