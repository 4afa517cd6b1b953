/**
 * Any number of `record_transition` transactions, from any number of processes, interleaved step by
 * step under PostgreSQL's Read Committed isolation (section 13.2.1 of the PostgreSQL manual).
 */
module Transactions {
  import opened Wrappers
  import opened Ledger

  /**
   * How far a transaction has come. A row named from `Selected` on is locked by the transaction;
   * from `Flushed` on it also carries the transaction's uncommitted end.
   */
  datatype Progress =
    | Begun                          // nothing has been read
    | Locking(row: nat)              // the locking query saw this row open and is about to lock it
    | Selected(active: Option<nat>)  // the locking query has returned
    | Flushed(active: Option<nat>)   // the end of the active row, if any, is written
    | Inserted(active: Option<nat>)  // the new row is written

  datatype Tx = Tx(record: Transition, at: Progress)

  /** Committed rows, and the transactions in flight. */
  datatype Database = Database(table: Table, txs: map<nat, Tx>)

  datatype Action =
    | Begin(id: nat, record: Transition)
    | Select(id: nat)
    | Lock(id: nat)
    | Flush(id: nat)
    | Insert(id: nat)
    | Commit(id: nat)
    | Abort(id: nat)

  /** Which of the two constraints the table declares; the real one declares both. */
  datatype Constraints = Constraints(interval: bool, activeIndex: bool)

  const DECLARED := Constraints(true, true)

  predicate Holds(tx: Tx, row: nat)
  {
    !tx.at.Begun? && !tx.at.Locking? && tx.at.active == Some(row)
  }

  predicate Locked(db: Database, id: nat, row: nat)
  {
    exists other :: other in db.txs && other != id && Holds(db.txs[other], row)
  }

  /** The unique index on open rows: the only open row of the environment may be the one just ended here. */
  predicate IndexAdmits(db: Database, id: nat)
    requires id in db.txs && db.txs[id].at.Flushed?
  {
    var tx := db.txs[id];
    && (forall i: nat | i < |db.table| && OpenFor(db.table[i], tx.record.environment) :: tx.at.active == Some(i))
    && (forall other | other in db.txs && other != id && db.txs[other].at.Inserted? ::
          db.txs[other].record.environment != tx.record.environment)
  }

  predicate PrimaryKeyAdmits(db: Database, id: nat)
    requires id in db.txs
  {
    && !HasId(db.table, db.txs[id].record.eventId)
    && (forall other | other in db.txs && other != id && db.txs[other].at.Inserted? ::
          db.txs[other].record.eventId != db.txs[id].record.eventId)
  }

  function At(db: Database, id: nat, progress: Progress): Database
    requires id in db.txs
  {
    db.(txs := db.txs[id := db.txs[id].(at := progress)])
  }

  /** One step of one transaction; None when it is blocked, refused or out of turn. An abort is always possible. */
  function Next(c: Constraints, db: Database, action: Action): Option<Database>
  {
    if action.Begin? then
      if action.id in db.txs then None
      else Some(db.(txs := db.txs[action.id := Tx(action.record, Begun)]))
    else if action.id !in db.txs then None
    else
      var id := action.id;
      var tx := db.txs[id];
      match action
      case Select(_) =>
        if !tx.at.Begun? then None
        else
          var open := FirstOpen(db.table, tx.record.environment);
          Some(At(db, id, if open.Some? then Locking(open.value) else Selected(None)))
      case Lock(_) =>
        // Blocked while another transaction holds the row; afterwards the row is looked at again.
        if !tx.at.Locking? || Locked(db, id, tx.at.row) then None
        else if tx.at.row < |db.table| && OpenFor(db.table[tx.at.row], tx.record.environment) then
          Some(At(db, id, Selected(Some(tx.at.row))))
        else Some(At(db, id, Selected(None)))
      case Flush(_) =>
        if !tx.at.Selected? then None
        else if c.interval && tx.at.active.Some? && tx.at.active.value < |db.table|
                && tx.record.startedAt < db.table[tx.at.active.value].record.startedAt then None
        else Some(At(db, id, Flushed(tx.at.active)))
      case Insert(_) =>
        if !tx.at.Flushed? then None
        else if !LevelsInRange(tx.record) || !PrimaryKeyAdmits(db, id) then None
        else if c.activeIndex && !IndexAdmits(db, id) then None
        else Some(At(db, id, Inserted(tx.at.active)))
      case Commit(_) =>
        if !tx.at.Inserted? || (tx.at.active.Some? && tx.at.active.value >= |db.table|) then None
        else Some(Database(Applied(db.table, tx.at.active, tx.record), db.txs - {id}))
      case Abort(_) =>
        Some(db.(txs := db.txs - {id}))
  }

  const EMPTY := Database([], map[])

  /** The database after a sequence of steps, if each was possible in its turn. */
  function Run(c: Constraints, db: Database, actions: seq<Action>): Option<Database>
  {
    if actions == [] then Some(db)
    else
      var before := Run(c, db, actions[..|actions| - 1]);
      if before.None? then None else Next(c, before.value, actions[|actions| - 1])
  }

  /** The transitions committed by a run, in the order of their commits. */
  function Committed(c: Constraints, db: Database, actions: seq<Action>): seq<Transition>
    requires Run(c, db, actions).Some?
  {
    if actions == [] then []
    else
      var earlier, last := actions[..|actions| - 1], actions[|actions| - 1];
      var before := Run(c, db, earlier).value;
      Committed(c, db, earlier) + if last.Commit? then [before.txs[last.id].record] else []
  }

  // ---------- what every step keeps ----------

  ghost predicate TxSound(table: Table, tx: Tx)
  {
    var t := tx.record;
    && (tx.at.Locking? ==> tx.at.row < |table| && table[tx.at.row].record.environment == t.environment)
    && (forall i: nat | Holds(tx, i) :: i < |table| && OpenFor(table[i], t.environment))
    && ((tx.at.Flushed? || tx.at.Inserted?) && tx.at.active.Some? ==>
          tx.at.active.value < |table| && table[tx.at.active.value].record.startedAt <= t.startedAt)
    && (tx.at.Inserted? ==> LevelsInRange(t) && !HasId(table, t.eventId))
    && (tx.at.Inserted? && tx.at.active.None? ==> !HasEnvironment(table, t.environment))
  }

  /** Two transactions never hold one row, and never both have an open row of one environment written. */
  ghost predicate Exclusive(a: Tx, b: Tx)
  {
    && (forall i: nat | Holds(a, i) :: !Holds(b, i))
    && (a.at.Inserted? && b.at.Inserted? ==>
          a.record.environment != b.record.environment && a.record.eventId != b.record.eventId)
  }

  ghost predicate Sound(db: Database)
  {
    && Consistent(db.table)
    && (forall id | id in db.txs :: TxSound(db.table, db.txs[id]))
    && (forall id, other | id in db.txs && other in db.txs && id != other :: Exclusive(db.txs[id], db.txs[other]))
  }

  /** The row a transaction holds is the one its environment would be asked for. */
  lemma HeldRowIsFirstOpen(db: Database, id: nat)
    requires Sound(db) && id in db.txs && db.txs[id].at.Inserted?
    ensures db.txs[id].at.active == FirstOpen(db.table, db.txs[id].record.environment)
  {
    var tx := db.txs[id];
    assert TxSound(db.table, tx);
    EveryEnvironmentIsOpen(db.table, tx.record.environment);
    if tx.at.active.Some? {
      assert Holds(tx, tx.at.active.value);
      OpenRowIsUnique(db.table, tx.record.environment, tx.at.active.value);
    }
  }

  /** A commit, wherever it falls, does what the whole transaction would do if it ran alone at that point. */
  lemma CommitIsSerial(db: Database, id: nat)
    requires Sound(db) && Next(DECLARED, db, Commit(id)).Some?
    ensures Record(db.table, db.txs[id].record) == Success(Next(DECLARED, db, Commit(id)).value.table)
  {
    var tx := db.txs[id];
    assert TxSound(db.table, tx);
    HeldRowIsFirstOpen(db, id);
    if tx.at.active.Some? {
      OpenRowIsUnique(db.table, tx.record.environment, tx.at.active.value);
    }
    RecordSucceedsWhen(db.table, tx.record);
  }

  lemma CommitKeepsOthers(table: Table, committing: Tx, tx: Tx)
    requires TxSound(table, committing) && TxSound(table, tx) && committing.at.Inserted?
    requires Exclusive(committing, tx)
    ensures TxSound(Applied(table, committing.at.active, committing.record), tx)
  {}

  lemma CommitKeepsSound(db: Database, id: nat)
    requires Sound(db) && Next(DECLARED, db, Commit(id)).Some?
    ensures Sound(Next(DECLARED, db, Commit(id)).value)
  {
    var after := Next(DECLARED, db, Commit(id)).value;
    CommitIsSerial(db, id);
    RecordKeepsConsistency(db.table, db.txs[id].record);
    forall other | other in after.txs
      ensures TxSound(after.table, after.txs[other])
    {
      CommitKeepsOthers(db.table, db.txs[id], db.txs[other]);
    }
  }

  lemma InsertKeepsSound(db: Database, id: nat)
    requires Sound(db) && Next(DECLARED, db, Insert(id)).Some?
    ensures Sound(Next(DECLARED, db, Insert(id)).value)
  {
    var after := Next(DECLARED, db, Insert(id)).value;
    var (before, tx) := (db.txs[id], after.txs[id]);
    EveryEnvironmentIsOpen(db.table, tx.record.environment);
    assert forall i: nat :: Holds(tx, i) <==> Holds(before, i);
    assert TxSound(db.table, before);
    assert TxSound(after.table, tx);
  }

  lemma StepKeepsSound(db: Database, action: Action)
    requires Sound(db) && Next(DECLARED, db, action).Some?
    ensures Sound(Next(DECLARED, db, action).value)
    ensures !action.Commit? ==> Next(DECLARED, db, action).value.table == db.table
  {
    hide Next, Sound;
    if !action.Commit? {
      OnlyCommitsTouchTheTable(db, action);
    }
    match action
    case Commit(id) => CommitKeepsSound(db, id);
    case Insert(id) => InsertKeepsSound(db, id);
    case Lock(id) => LockKeepsSound(db, id);
    case Flush(id) => FlushKeepsSound(db, id);
    case _ => ReadsKeepSound(db, action);
  }

  lemma OnlyCommitsTouchTheTable(db: Database, action: Action)
    requires Next(DECLARED, db, action).Some? && !action.Commit?
    ensures Next(DECLARED, db, action).value.table == db.table
  {}

  lemma ReadsKeepSound(db: Database, action: Action)
    requires Sound(db) && Next(DECLARED, db, action).Some?
    requires action.Begin? || action.Select? || action.Abort?
    ensures Sound(Next(DECLARED, db, action).value)
  {
    hide Consistent, IndexAdmits, PrimaryKeyAdmits, Locked, HasId, HasEnvironment, LevelsInRange;
    if action.Select? {
      assert TxSound(db.table, Next(DECLARED, db, action).value.txs[action.id]);
    }
  }

  lemma FlushKeepsSound(db: Database, id: nat)
    requires Sound(db) && Next(DECLARED, db, Flush(id)).Some?
    ensures Sound(Next(DECLARED, db, Flush(id)).value)
  {
    var (before, tx) := (db.txs[id], Next(DECLARED, db, Flush(id)).value.txs[id]);
    assert forall i: nat :: Holds(tx, i) <==> Holds(before, i);
  }

  lemma LockKeepsSound(db: Database, id: nat)
    requires Sound(db) && Next(DECLARED, db, Lock(id)).Some?
    ensures Sound(Next(DECLARED, db, Lock(id)).value)
  {
    var after := Next(DECLARED, db, Lock(id)).value;
    assert TxSound(after.table, after.txs[id]);
    forall other | other in db.txs && other != id
      ensures Exclusive(after.txs[id], db.txs[other]) && Exclusive(db.txs[other], after.txs[id])
    {
      assert !Holds(db.txs[other], db.txs[id].at.row);
    }
  }

  /**
   * Every interleaving is equivalent to running the committed transactions alone, one after the
   * other, in the order of their commits.
   */
  lemma {:induction false} InterleavingsAreSerial(actions: seq<Action>)
    requires Run(DECLARED, EMPTY, actions).Some?
    ensures var db := Run(DECLARED, EMPTY, actions).value;
            Sound(db) && Replay(Committed(DECLARED, EMPTY, actions)) == Success(db.table)
  {
    hide Next, Record;
    if actions != [] {
      hide Sound;
      var earlier, last := actions[..|actions| - 1], actions[|actions| - 1];
      InterleavingsAreSerial(earlier);
      var before := Run(DECLARED, EMPTY, earlier).value;
      StepKeepsSound(before, last);
      var log := Committed(DECLARED, EMPTY, earlier);
      if last.Commit? {
        CommitterIsInFlight(before, last.id);
        CommitIsSerial(before, last.id);
        assert (log + [before.txs[last.id].record])[..|log|] == log;
      } else {
        assert Committed(DECLARED, EMPTY, actions) == log;
      }
    }
  }

  lemma CommitterIsInFlight(db: Database, id: nat)
    requires Next(DECLARED, db, Commit(id)).Some?
    ensures id in db.txs
  {}

  /** What follows for the committed rows of every interleaving. */
  lemma EveryInterleavingIsOneChain(actions: seq<Action>, environment: string)
    requires Run(DECLARED, EMPTY, actions).Some?
    ensures var table := Run(DECLARED, EMPTY, actions).value.table;
            var log := Committed(DECLARED, EMPTY, actions);
            && Chained(table)
            && Records(table) == log && Acceptable(log)
            && LoadActive(table, environment) == LastOf(log, environment)
            && (FirstOpen(table, environment).Some? <==> EnvironmentLog(log, environment) != [])
            && (forall i: nat, k: nat | i < |table| && k < |table|
                  && OpenFor(table[i], environment) && OpenFor(table[k], environment) :: i == k)
  {
    hide Run, Committed, Replay;
    var table := Run(DECLARED, EMPTY, actions).value.table;
    var log := Committed(DECLARED, EMPTY, actions);
    InterleavingsAreSerial(actions);
    ReplayIsConsistent(log);
    ReplaySucceedsWhen(log);
    ActiveIsLastOfLog(table, environment);
    forall i: nat, k: nat | i < |table| && k < |table|
                            && OpenFor(table[i], environment) && OpenFor(table[k], environment)
      ensures i == k
    {
      OpenRowIsUnique(table, environment, i);
      OpenRowIsUnique(table, environment, k);
    }
  }

  // ---------- who is refused, and who is not ----------

  /** The lock is what keeps a transaction that got the active row from being refused by the index. */
  lemma LockHolderIsNeverRefused(db: Database, id: nat)
    requires Sound(db) && id in db.txs
    requires db.txs[id].at.Flushed? && db.txs[id].at.active.Some?
    ensures IndexAdmits(db, id)
  {
    var tx := db.txs[id];
    var row := tx.at.active.value;
    assert TxSound(db.table, tx) && Holds(tx, row);
    OpenRowIsUnique(db.table, tx.record.environment, row);
    forall i: nat | i < |db.table| && OpenFor(db.table[i], tx.record.environment)
      ensures tx.at.active == Some(i)
    {
      OpenRowIsUnique(db.table, tx.record.environment, i);
    }
    forall other | other in db.txs && other != id && db.txs[other].at.Inserted?
      ensures db.txs[other].record.environment != tx.record.environment
    {
      assert TxSound(db.table, db.txs[other]);
      assert Exclusive(tx, db.txs[other]);
      HeldRowIsFirstOpen(db, other);
    }
  }

  /** A transaction whose locking query came back empty although its environment already has a row. */
  ghost predicate Doomed(db: Database, id: nat)
  {
    && id in db.txs
    && (db.txs[id].at == Selected(None) || db.txs[id].at == Flushed(None))
    && HasEnvironment(db.table, db.txs[id].record.environment)
  }

  /** A step only touches its own transaction, and never what a committed row records. */
  lemma StepsStayLocal(db: Database, action: Action)
    requires Next(DECLARED, db, action).Some?
    ensures var after := Next(DECLARED, db, action).value;
            && |db.table| <= |after.table|
            && (forall i | 0 <= i < |db.table| :: after.table[i].record == db.table[i].record)
            && (forall id | id in db.txs && id != action.id :: id in after.txs && after.txs[id] == db.txs[id])
  {}

  /** Such a loser of a race can do nothing but abort, whatever the others do; it never commits. */
  lemma LosersOnlyAbort(db: Database, id: nat, action: Action)
    requires Sound(db) && Doomed(db, id) && Next(DECLARED, db, action).Some?
    ensures var after := Next(DECLARED, db, action).value;
            Doomed(after, id) || (action == Abort(id) && id !in after.txs && after.table == db.table)
    ensures action != Commit(id)
  {
    var environment := db.txs[id].record.environment;
    EveryEnvironmentIsOpen(db.table, environment);
    if action.id == id {
      assert OpenFor(db.table[FirstOpen(db.table, environment).value], environment);
    } else {
      var m :| 0 <= m < |db.table| && db.table[m].record.environment == environment;
      StepsStayLocal(db, action);
      hide Next, Sound;
      assert Next(DECLARED, db, action).value.table[m].record.environment == environment;
    }
  }

  /** Waking up to find the awaited row ended is losing. */
  lemma LosingTheRowIsDoom(db: Database, id: nat)
    requires Sound(db) && Next(DECLARED, db, Lock(id)).Some?
    ensures var after := Next(DECLARED, db, Lock(id)).value;
            Doomed(after, id) || Holds(after.txs[id], db.txs[id].at.row)
  {}

  /** However a run goes on, a loser that has not aborted has not committed either. */
  lemma {:induction false} LosersNeverCommit(db: Database, id: nat, actions: seq<Action>)
    requires Sound(db) && Doomed(db, id)
    requires Run(DECLARED, db, actions).Some? && Abort(id) !in actions
    ensures var after := Run(DECLARED, db, actions).value; Sound(after) && Doomed(after, id)
    ensures Commit(id) !in actions
  {
    hide Next, Sound, Doomed;
    if actions != [] {
      var earlier, last := actions[..|actions| - 1], actions[|actions| - 1];
      LosersNeverCommit(db, id, earlier);
      var before := Run(DECLARED, db, earlier).value;
      StepKeepsSound(before, last);
      LosersOnlyAbort(before, id, last);
      assert actions == earlier + [last];
    }
  }

  /** One transaction waits for another: for a row lock, or for an uncommitted row that would clash with its own. */
  predicate WaitsFor(db: Database, id: nat, other: nat)
    requires id in db.txs && other in db.txs
  {
    var (a, b) := (db.txs[id], db.txs[other]);
    && id != other
    && ((a.at.Locking? && Holds(b, a.at.row))
        || (a.at.Flushed? && b.at.Inserted?
            && (b.record.environment == a.record.environment || b.record.eventId == a.record.eventId))
        || (a.at.Flushed? && b.at.Flushed? && b.at.active.Some?
            && b.record.environment == a.record.environment))
  }

  /** Two transactions that have both ended a row work on different environments. */
  lemma EndersDiffer(db: Database, a: nat, b: nat)
    requires Sound(db) && a in db.txs && b in db.txs && a != b
    requires db.txs[a].at.Flushed? && db.txs[a].at.active.Some?
    requires db.txs[b].at.Flushed? && db.txs[b].at.active.Some?
    ensures db.txs[a].record.environment != db.txs[b].record.environment
  {
    var (ta, tb) := (db.txs[a], db.txs[b]);
    assert TxSound(db.table, ta) && TxSound(db.table, tb) && Exclusive(ta, tb);
    assert Holds(ta, ta.at.active.value) && Holds(tb, tb.at.active.value);
    OpenRowIsUnique(db.table, ta.record.environment, ta.at.active.value);
    OpenRowIsUnique(db.table, tb.record.environment, tb.at.active.value);
  }

  /** Whoever is waited for waits for nobody, so no set of transactions can deadlock. */
  lemma NobodyWaitsForAWaiter(db: Database, a: nat, b: nat, c: nat)
    requires Sound(db) && a in db.txs && b in db.txs && c in db.txs
    requires forall id, other | id in db.txs && other in db.txs && id != other ::
               db.txs[id].record.eventId != db.txs[other].record.eventId
    requires WaitsFor(db, a, b)
    ensures !WaitsFor(db, b, c)
  {
    var (tb, tc) := (db.txs[b], db.txs[c]);
    if b != c && tb.at.Flushed? && tb.at.active.Some? {
      LockHolderIsNeverRefused(db, b);
      if tc.at.Flushed? && tc.at.active.Some? {
        EndersDiffer(db, b, c);
      }
    }
  }

  /** If identifiers in flight repeat, a waiter may be waited for; but then it waits for somebody about to commit. */
  lemma WaitingEndsAtACommit(db: Database, a: nat, b: nat, c: nat)
    requires Sound(db) && a in db.txs && b in db.txs && c in db.txs
    requires WaitsFor(db, a, b) && WaitsFor(db, b, c)
    ensures db.txs[c].at.Inserted? && db.txs[c].record.eventId == db.txs[b].record.eventId
  {
    if db.txs[c].at.Flushed? {
      EndersDiffer(db, b, c);
    } else {
      LockHolderIsNeverRefused(db, b);
    }
  }

  /** The step a transaction takes next. */
  function StepOf(id: nat, tx: Tx): Action
  {
    match tx.at
    case Begun => Select(id)
    case Locking(_) => Lock(id)
    case Selected(_) => Flush(id)
    case Flushed(_) => Insert(id)
    case Inserted(_) => Commit(id)
  }

  /** Another transaction in flight has written an end to the row. */
  predicate EndedElsewhere(db: Database, id: nat, row: nat)
  {
    exists other :: other in db.txs && other != id && Holds(db.txs[other], row)
                    && (db.txs[other].at.Flushed? || db.txs[other].at.Inserted?)
  }

  /** A committed row or the transaction's own record breaks a constraint, whatever becomes of the others in flight. */
  predicate Refused(db: Database, id: nat)
    requires id in db.txs
  {
    var (t, at) := (db.txs[id].record, db.txs[id].at);
    || (at.Selected? && at.active.Some? && at.active.value < |db.table|
        && t.startedAt < db.table[at.active.value].record.startedAt)
    || (at.Flushed?
        && (!LevelsInRange(t) || HasId(db.table, t.eventId)
            || exists i: nat :: i < |db.table| && OpenFor(db.table[i], t.environment)
                                && at.active != Some(i) && !EndedElsewhere(db, id, i)))
  }

  predicate IsWaiting(db: Database, id: nat)
    requires id in db.txs
  {
    exists other :: other in db.txs && WaitsFor(db, id, other)
  }

  /** Whoever is waited for at the insert stands in its way. */
  lemma WaiterCannotInsert(db: Database, id: nat, other: nat)
    requires Sound(db) && id in db.txs && db.txs[id].at.Flushed?
    requires other in db.txs && WaitsFor(db, id, other)
    ensures !PrimaryKeyAdmits(db, id) || !IndexAdmits(db, id)
  {
    if db.txs[other].at.Flushed? {
      hide Consistent;
      assert Exclusive(db.txs[id], db.txs[other]) && TxSound(db.table, db.txs[other]);
      assert Holds(db.txs[other], db.txs[other].at.active.value);
    }
  }

  /** An open row that is in the way was committed, or another transaction that has ended it is waited for. */
  lemma OpenRowInTheWay(db: Database, id: nat, row: nat)
    requires Sound(db) && id in db.txs && db.txs[id].at.Flushed?
    requires row < |db.table| && OpenFor(db.table[row], db.txs[id].record.environment)
    requires db.txs[id].at.active != Some(row) && EndedElsewhere(db, id, row)
    ensures IsWaiting(db, id)
  {
    var other :| other in db.txs && other != id && Holds(db.txs[other], row)
                 && (db.txs[other].at.Flushed? || db.txs[other].at.Inserted?);
    hide Consistent, Exclusive;
    assert TxSound(db.table, db.txs[other]);
    assert WaitsFor(db, id, other);
  }

  lemma InsertIsPossibleUnless(db: Database, id: nat)
    requires Sound(db) && id in db.txs && db.txs[id].at.Flushed?
    ensures Next(DECLARED, db, Insert(id)).None? <==> Refused(db, id) || IsWaiting(db, id)
  {
    forall other | other in db.txs && WaitsFor(db, id, other)
      ensures !PrimaryKeyAdmits(db, id) || !IndexAdmits(db, id)
    {
      WaiterCannotInsert(db, id, other);
    }
    forall row: nat | row < |db.table| && OpenFor(db.table[row], db.txs[id].record.environment)
                      && db.txs[id].at.active != Some(row) && EndedElsewhere(db, id, row)
      ensures IsWaiting(db, id)
    {
      OpenRowInTheWay(db, id, row);
    }
    hide Sound, EndedElsewhere, LevelsInRange, HasId;
  }

  /**
   * A transaction can take its next step unless it is refused or waits for another, and exactly then; and it
   * can always abort, which touches nothing else.
   */
  lemma NextStepIsPossibleUnless(db: Database, id: nat)
    requires Sound(db) && id in db.txs
    ensures Next(DECLARED, db, StepOf(id, db.txs[id])).None? <==> Refused(db, id) || IsWaiting(db, id)
    ensures Next(DECLARED, db, Abort(id)) == Some(db.(txs := db.txs - {id}))
  {
    hide Consistent, Applied, IndexAdmits, PrimaryKeyAdmits, LevelsInRange, HasId, HasEnvironment, Exclusive;
    var tx := db.txs[id];
    assert TxSound(db.table, tx);
    match tx.at
    case Flushed(_) => InsertIsPossibleUnless(db, id);
    case Locking(row) =>
      if Locked(db, id, row) {
        var other :| other in db.txs && other != id && Holds(db.txs[other], row);
        assert WaitsFor(db, id, other);
      }
    case Begun =>
    case Selected(active) => assert active.Some? ==> Holds(tx, active.value);
    case Inserted(active) => assert active.Some? ==> Holds(tx, active.value);
  }

  /** The transaction can take its next step, or it is refused and can only abort. */
  predicate CanMove(db: Database, id: nat)
    requires id in db.txs
  {
    Refused(db, id) || Next(DECLARED, db, StepOf(id, db.txs[id])).Some?
  }

  /** There is always progress: whoever cannot move waits, directly or through one other, for one that can. */
  lemma SomebodyCanMove(db: Database, id: nat)
    requires Sound(db) && id in db.txs
    ensures || CanMove(db, id)
            || exists other: nat, last: nat ::
                 && other in db.txs && last in db.txs && WaitsFor(db, id, other)
                 && (last == other || WaitsFor(db, other, last)) && CanMove(db, last)
  {
    hide Next, Refused, Sound;
    NextStepIsPossibleUnless(db, id);
    if !CanMove(db, id) {
      var other :| other in db.txs && WaitsFor(db, id, other);
      NextStepIsPossibleUnless(db, other);
      if !CanMove(db, other) {
        var last :| last in db.txs && WaitsFor(db, other, last);
        WaitingEndsAtACommit(db, id, other, last);
        NextStepIsPossibleUnless(db, last);
      }
    }
  }

  // ---------- runs of undisturbed transactions ----------

  lemma {:induction false} RunConcat(c: Constraints, db: Database, a: seq<Action>, b: seq<Action>)
    requires Run(c, db, a).Some?
    ensures Run(c, db, a + b) == Run(c, Run(c, db, a).value, b)
  {
    if b == [] {
      assert a + b == a;
    } else {
      RunConcat(c, db, a, b[..|b| - 1]);
      assert (a + b)[..|a + b| - 1] == a + b[..|b| - 1];
    }
  }

  /** A run told state by state. */
  lemma {:induction false} RunAlong(c: Constraints, actions: seq<Action>, path: seq<Database>)
    requires |path| == |actions| + 1
    requires forall k | 0 <= k < |actions| :: Next(c, path[k], actions[k]) == Some(path[k + 1])
    ensures Run(c, path[0], actions) == Some(path[|actions|])
  {
    hide Next;
    if actions != [] {
      RunAlong(c, actions[..|actions| - 1], path[..|actions|]);
    }
  }

  /** Nobody in flight holds a row or has written one. */
  predicate Quiet(db: Database)
  {
    forall id | id in db.txs :: db.txs[id].at.Begun? || db.txs[id].at.Locking?
  }

  function Alone(id: nat, t: Transition, open: Option<nat>): seq<Action>
  {
    [Begin(id, t), Select(id)] + (if open.Some? then [Lock(id)] else []) + [Flush(id), Insert(id), Commit(id)]
  }

  lemma ReadsAndLocks(c: Constraints, db: Database, id: nat, t: Transition, open: Option<nat>)
    requires Quiet(db) && id !in db.txs
    requires open == FirstOpen(db.table, t.environment)
    ensures Run(c, db, [Begin(id, t), Select(id)] + if open.Some? then [Lock(id)] else []) ==
            Some(db.(txs := db.txs[id := Tx(t, Selected(open))]))
  {
    var begun := db.(txs := db.txs[id := Tx(t, Begun)]);
    var selected := db.(txs := db.txs[id := Tx(t, Selected(open))]);
    assert Next(c, db, Begin(id, t)) == Some(begun);
    if open.Some? {
      var locking := At(begun, id, Locking(open.value));
      assert !Locked(locking, id, open.value);
      assert At(locking, id, Selected(open)) == selected;
      RunAlong(c, [Begin(id, t), Select(id), Lock(id)], [db, begun, locking, selected]);
      assert [Begin(id, t), Select(id)] + [Lock(id)] == [Begin(id, t), Select(id), Lock(id)];
    } else {
      assert At(begun, id, Selected(open)) == selected;
      RunAlong(c, [Begin(id, t), Select(id)], [db, begun, selected]);
      assert [Begin(id, t), Select(id)] + [] == [Begin(id, t), Select(id)];
    }
  }

  /** Nothing declared stands in the way of writing the new row. */
  predicate MayWrite(c: Constraints, table: Table, t: Transition, open: Option<nat>)
  {
    && (open.Some? ==> open.value < |table|)
    && (c.interval && open.Some? ==> table[open.value].record.startedAt <= t.startedAt)
    && LevelsInRange(t) && !HasId(table, t.eventId)
    && (c.activeIndex ==> forall i: nat | i < |table| && OpenFor(table[i], t.environment) :: open == Some(i))
  }

  lemma WritesAndCommits(c: Constraints, db: Database, id: nat, open: Option<nat>)
    requires id in db.txs && db.txs[id].at == Selected(open)
    requires MayWrite(c, db.table, db.txs[id].record, open)
    requires forall other | other in db.txs :: !db.txs[other].at.Inserted?
    ensures Run(c, db, [Flush(id), Insert(id), Commit(id)]) ==
            Some(Database(Applied(db.table, open, db.txs[id].record), db.txs - {id}))
  {
    var flushed := At(db, id, Flushed(open));
    var inserted := At(db, id, Inserted(open));
    assert At(flushed, id, Inserted(open)) == inserted;
    assert PrimaryKeyAdmits(flushed, id);
    assert c.activeIndex ==> IndexAdmits(flushed, id);
    assert inserted.txs - {id} == db.txs - {id};
    RunAlong(c, [Flush(id), Insert(id), Commit(id)],
             [db, flushed, inserted, Database(Applied(db.table, open, db.txs[id].record), db.txs - {id})]);
  }

  /** What one transaction does when its steps come in a row. */
  lemma UndisturbedTransaction(c: Constraints, db: Database, id: nat, t: Transition, open: Option<nat>)
    requires Quiet(db) && id !in db.txs
    requires open == FirstOpen(db.table, t.environment) && MayWrite(c, db.table, t, open)
    ensures Run(c, db, Alone(id, t, open)) == Some(Database(Applied(db.table, open, t), db.txs))
  {
    hide Run, Next;
    var reading := [Begin(id, t), Select(id)] + if open.Some? then [Lock(id)] else [];
    var selected := db.(txs := db.txs[id := Tx(t, Selected(open))]);
    ReadsAndLocks(c, db, id, t, open);
    WritesAndCommits(c, selected, id, open);
    assert selected.txs - {id} == db.txs;
    RunConcat(c, db, reading, [Flush(id), Insert(id), Commit(id)]);
    assert Alone(id, t, open) == reading + [Flush(id), Insert(id), Commit(id)];
  }

  /** The statements of a transaction that has begun, up to its commit. */
  function Statements(id: nat, open: Option<nat>): seq<Action>
  {
    [Select(id)] + (if open.Some? then [Lock(id)] else []) + [Flush(id), Insert(id)]
  }

  lemma UndisturbedReads(db: Database, id: nat, open: Option<nat>)
    requires Quiet(db) && id in db.txs && db.txs[id].at.Begun?
    requires open == FirstOpen(db.table, db.txs[id].record.environment)
    ensures Run(DECLARED, db, [Select(id)] + if open.Some? then [Lock(id)] else []) == Some(At(db, id, Selected(open)))
  {
    hide FirstOpen;
    var selected := At(db, id, Selected(open));
    if open.Some? {
      var locking := At(db, id, Locking(open.value));
      assert !Locked(locking, id, open.value);
      assert At(locking, id, Selected(open)) == selected;
      RunAlong(DECLARED, [Select(id)] + [Lock(id)], [db, locking, selected]);
    } else {
      RunAlong(DECLARED, [Select(id)] + [], [db, selected]);
    }
  }

  lemma UndisturbedWrites(db: Database, id: nat, open: Option<nat>)
    requires Quiet(db) && id in db.txs && MayWrite(DECLARED, db.table, db.txs[id].record, open)
    ensures Run(DECLARED, At(db, id, Selected(open)), [Flush(id), Insert(id)]) == Some(At(db, id, Inserted(open)))
  {
    hide LevelsInRange, HasId;
    var selected, flushed := At(db, id, Selected(open)), At(db, id, Flushed(open));
    assert At(flushed, id, Inserted(open)) == At(db, id, Inserted(open)) && At(selected, id, Flushed(open)) == flushed;
    assert PrimaryKeyAdmits(flushed, id) && IndexAdmits(flushed, id);
    hide PrimaryKeyAdmits, IndexAdmits;
    RunAlong(DECLARED, [Flush(id), Insert(id)], [selected, flushed, At(db, id, Inserted(open))]);
  }

  /** A transaction that has begun comes undisturbed to its commit when the store would accept its record. */
  lemma UndisturbedStatements(db: Database, id: nat, open: Option<nat>)
    requires Quiet(db) && id in db.txs && db.txs[id].at.Begun?
    requires open == FirstOpen(db.table, db.txs[id].record.environment)
    requires MayWrite(DECLARED, db.table, db.txs[id].record, open)
    ensures Run(DECLARED, db, Statements(id, open)) == Some(At(db, id, Inserted(open)))
  {
    hide Run, Quiet, MayWrite, FirstOpen, At;
    UndisturbedReads(db, id, open);
    UndisturbedWrites(db, id, open);
    RunConcat(DECLARED, db, [Select(id)] + if open.Some? then [Lock(id)] else [], [Flush(id), Insert(id)]);
  }

  /** What the store accepts may be written, and is. */
  lemma AcceptedMayBeWritten(table: Table, t: Transition)
    requires Consistent(table) && Record(table, t).Success?
    ensures MayWrite(DECLARED, table, t, FirstOpen(table, t.environment))
    ensures Record(table, t).value == Applied(table, FirstOpen(table, t.environment), t)
  {
    forall i: nat | i < |table| && OpenFor(table[i], t.environment)
      ensures FirstOpen(table, t.environment) == Some(i)
    {
      OpenRowIsUnique(table, t.environment, i);
    }
  }

  /** Every log the constraints accept is what some run commits. */
  lemma {:induction false} AcceptableLogsAreRealizable(log: seq<Transition>) returns (actions: seq<Action>)
    requires Acceptable(log)
    ensures Replay(log).Success?
    ensures Run(DECLARED, EMPTY, actions) == Some(Database(Replay(log).value, map[]))
  {
    ReplaySucceedsWhen(log);
    if log == [] {
      actions := [];
    } else {
      var earlier, t := log[..|log| - 1], log[|log| - 1];
      ReplaySucceedsWhen(earlier);
      actions := AcceptableLogsAreRealizable(earlier);
      var table := Replay(earlier).value;
      ReplayIsConsistent(earlier);
      var open := FirstOpen(table, t.environment);
      forall i: nat | i < |table| && OpenFor(table[i], t.environment)
        ensures open == Some(i)
      {
        OpenRowIsUnique(table, t.environment, i);
      }
      UndisturbedTransaction(DECLARED, Database(table, map[]), 0, t, open);
      RunConcat(DECLARED, EMPTY, actions, Alone(0, t, open));
      actions := actions + Alone(0, t, open);
    }
  }

  // ---------- both constraints are needed ----------

  function Example(environment: string, id: nat, startedAt: int): Transition
  {
    Transition(id, environment, startedAt, 0, 1, "manual", "example", map[], Audit(0, "operator", "{}", None, None))
  }

  /** Without the interval check a clock that goes back breaks the chain, with nobody racing. */
  lemma IntervalCheckIsNeeded(environment: string) returns (actions: seq<Action>)
    ensures Run(Constraints(false, true), EMPTY, actions).Some?
    ensures !Chained(Run(Constraints(false, true), EMPTY, actions).value.table)
  {
    var c := Constraints(false, true);
    var (r, t) := (Example(environment, 0, 10), Example(environment, 1, 5));
    var first := Alone(0, r, None);
    UndisturbedTransaction(c, EMPTY, 0, r, None);
    var db := Run(c, EMPTY, first).value;
    assert FirstOpen(db.table[..0], environment) == None;
    UndisturbedTransaction(c, db, 1, t, Some(0));
    RunConcat(c, EMPTY, first, Alone(1, t, Some(0)));
    actions := first + Alone(1, t, Some(0));
    var table := Run(c, EMPTY, actions).value.table;
    assert Follows(table, 0, 1);
    assert !Chained(table);
  }

  /**
   * Without the index on open rows, the row lock does not help: the transaction that waited for the
   * lock finds the row ended, takes the environment for empty, and commits a second open row.
   */
  lemma ActiveIndexIsNeeded(environment: string) returns (actions: seq<Action>)
    ensures Run(Constraints(true, false), EMPTY, actions).Some?
    ensures var table := Run(Constraints(true, false), EMPTY, actions).value.table;
            |table| == 3 && OpenFor(table[1], environment) && OpenFor(table[2], environment)
  {
    hide Run, Next;
    var c := Constraints(true, false);
    var (t, u) := (Example(environment, 1, 20), Example(environment, 2, 30));
    actions := OneCommitsAndOneWaits(c, environment);
    var waiting := Run(c, EMPTY, actions).value;
    assert waiting.table[..0] == [] && FirstOpen(waiting.table, environment) == Some(0);
    UndisturbedTransaction(c, waiting, 1, t, Some(0));
    RunConcat(c, EMPTY, actions, Alone(1, t, Some(0)));
    actions := actions + Alone(1, t, Some(0));
    var won := Run(c, EMPTY, actions).value.table;
    LoserCommitsUnchecked(c, won, u);
    RunConcat(c, EMPTY, actions, [Lock(2)] + [Flush(2), Insert(2), Commit(2)]);
    actions := actions + ([Lock(2)] + [Flush(2), Insert(2), Commit(2)]);
  }

  lemma OneCommitsAndOneWaits(c: Constraints, environment: string) returns (actions: seq<Action>)
    ensures Run(c, EMPTY, actions) ==
            Some(Database([Row(Example(environment, 0, 10), None)],
                          map[2 := Tx(Example(environment, 2, 30), Locking(0))]))
  {
    hide Run, Next, FirstOpen, Alone;
    var (r, u) := (Example(environment, 0, 10), Example(environment, 2, 30));
    FirstTransaction(c, 0, r);
    LoserWaits(c, [Row(r, None)], u);
    RunConcat(c, EMPTY, Alone(0, r, None), [Begin(2, u), Select(2)]);
    actions := Alone(0, r, None) + [Begin(2, u), Select(2)];
  }

  lemma FirstTransaction(c: Constraints, id: nat, t: Transition)
    requires LevelsInRange(t)
    ensures Run(c, EMPTY, Alone(id, t, None)) == Some(Database([Row(t, None)], map[]))
    ensures FirstOpen([Row(t, None)], t.environment) == Some(0)
  {
    hide Run, Alone;
    UndisturbedTransaction(c, EMPTY, id, t, None);
    assert Applied([], None, t) == [Row(t, None)];
    assert [Row(t, None)][..0] == [];
  }

  lemma LoserWaits(c: Constraints, table: Table, u: Transition)
    requires FirstOpen(table, u.environment) == Some(0)
    ensures Run(c, Database(table, map[]), [Begin(2, u), Select(2)]) ==
            Some(Database(table, map[2 := Tx(u, Locking(0))]))
  {
    var begun := Database(table, map[2 := Tx(u, Begun)]);
    assert Next(c, Database(table, map[]), Begin(2, u)) == Some(begun);
    assert begun.txs[2 := Tx(u, Locking(0))] == map[2 := Tx(u, Locking(0))];
    RunAlong(c, [Begin(2, u), Select(2)],
             [Database(table, map[]), begun, Database(table, map[2 := Tx(u, Locking(0))])]);
  }

  lemma LoserCommitsUnchecked(c: Constraints, table: Table, u: Transition)
    requires !c.activeIndex && table != [] && table[0].endedAt.Some?
    requires LevelsInRange(u) && !HasId(table, u.eventId)
    ensures Run(c, Database(table, map[2 := Tx(u, Locking(0))]), [Lock(2)] + [Flush(2), Insert(2), Commit(2)]) ==
            Some(Database(table + [Row(u, None)], map[]))
  {
    var start := Database(table, map[2 := Tx(u, Locking(0))]);
    var selected := At(start, 2, Selected(None));
    RunAlong(c, [Lock(2)], [start, selected]);
    WritesAndCommits(c, selected, 2, None);
    hide Run, Next;
    assert selected.txs - {2} == map[];
    RunConcat(c, start, [Lock(2)], [Flush(2), Insert(2), Commit(2)]);
  }
}
