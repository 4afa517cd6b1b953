/**
 * Many processes over one database: one controller for each environment, whose changes of tier are
 * carried out by transactions that interleave step by step with everybody else's. A process may crash
 * in the middle of its transaction, or its call may fail; the transaction is then an orphan, which keeps
 * its locks until it aborts or, since a statement already sent can still take effect, commits after all.
 */
module Deployment {
  import opened Wrappers
  import opened Policies
  import opened Ledger
  import opened Shedding
  import T = Transactions
  import L = Lifecycle

  /** A process, the levels it has granted, the transaction it waits for, and the records of its orphans. */
  datatype Controller = Controller(
    process: L.Process,
    granted: seq<SheddingLevel>,
    tx: Option<nat>,
    abandoned: set<Transition>)

  datatype System = System(db: T.Database, controllers: map<string, Controller>)

  datatype Action =
    | Control(environment: string, local: L.Action)
    | Transact(step: T.Action)

  const START := System(T.EMPTY, map[])

  function ControllerOf(s: System, environment: string): Controller
  {
    if environment in s.controllers then s.controllers[environment] else Controller(L.Down, [], None, {})
  }

  /** The life of one controller as it looks if commits are single steps. */
  function View(s: System, environment: string): L.World
  {
    var c := ControllerOf(s, environment);
    L.World(s.db.table, c.process, c.granted, c.abandoned)
  }

  /** What a process does on its own, without the database doing a step of a transaction. */
  predicate IsLocal(action: L.Action)
  {
    !action.StoreCommits? && !action.CommitElsewhere? && !L.Unseen(action)
  }

  /** The transaction is the one its environment's controller is waiting for, with the record it proposed. */
  predicate IsAwaited(s: System, id: nat)
  {
    && id in s.db.txs
    && var t := s.db.txs[id].record;
       var c := ControllerOf(s, t.environment);
       c.tx == Some(id) && Proposes(c.process, t)
  }

  predicate Proposes(process: L.Process, t: Transition)
  {
    process.Persisting? && t == L.ProposalOf(t.environment, process.state, process.pending)
  }

  /** A commit answers the process that waits for it; of an orphan, nobody learns that it has committed. */
  function AfterCommit(s: System, id: nat, after: T.Database): Option<System>
    requires id in s.db.txs
  {
    var t := s.db.txs[id].record;
    var c := ControllerOf(s, t.environment);
    if IsAwaited(s, id) then
      Some(System(after, s.controllers[t.environment :=
        Controller(L.Persisted(c.process.state, c.process.pending),
                   c.granted + [c.process.pending.change.level], None, c.abandoned)]))
    else if t in c.abandoned && LevelOf(t.toLevel).Some? then
      Some(System(after, s.controllers[t.environment :=
        Controller(c.process, c.granted + [LevelOf(t.toLevel).value], c.tx, c.abandoned - {t})]))
    else None
  }

  /** One step of the system: of a process on its own, or of a transaction. */
  function Next(s: System, action: Action): Option<System>
  {
    match action
    case Control(environment, local) =>
      var c := ControllerOf(s, environment);
      var after := L.Next(environment, View(s, environment), local);
      if !IsLocal(local) || after.None? then None
      else
        var tx := if local.Crash? || local.StoreFails? then None else c.tx;
        Some(s.(controllers := s.controllers[environment :=
          Controller(after.value.process, after.value.granted, tx, after.value.abandoned)]))
    case Transact(step) =>
      var after := T.Next(T.DECLARED, s.db, step);
      if after.None? then None
      else if step.Begin? then
        var environment := step.record.environment;
        var c := ControllerOf(s, environment);
        if c.tx.Some? || !Proposes(c.process, step.record) then None
        else Some(System(after.value, s.controllers[environment := c.(tx := Some(step.id))]))
      else if step.Commit? then AfterCommit(s, step.id, after.value)
      else Some(s.(db := after.value))
  }

  function Run(actions: seq<Action>): Option<System>
  {
    if actions == [] then Some(START)
    else
      var before := Run(actions[..|actions| - 1]);
      if before.None? then None else Next(before.value, actions[|actions| - 1])
  }

  /**
   * A process that has begun a transaction can have it committed until it crashes, its call fails, or
   * the transaction ends: nothing anybody else does takes it away.
   */
  lemma BegunIsAwaited(s: System, action: Action, id: nat)
    requires Next(s, action).Some?
    requires IsAwaited(s, id) || (action.Transact? && action.step.Begin? && action.step.id == id)
    ensures var after := Next(s, action).value;
            || IsAwaited(after, id)
            || action == Transact(T.Commit(id)) || action == Transact(T.Abort(id))
            || (var environment := s.db.txs[id].record.environment;
                action == Control(environment, L.Crash) || action == Control(environment, L.StoreFails))
  {
    match action
    case Control(_, _) => hide T.Next, L.ProposalOf;
    case Transact(step) =>
      if step != T.Commit(id) && step != T.Abort(id) {
        TransactionsKeepTheirRecords(s, step, id);
      }
      hide L.Next, T.Next, L.ProposalOf;
  }

  lemma TransactionsKeepTheirRecords(s: System, step: T.Action, id: nat)
    requires T.Next(T.DECLARED, s.db, step).Some? && step != T.Commit(id) && step != T.Abort(id)
    ensures var after := T.Next(T.DECLARED, s.db, step).value;
            if step.Begin? && step.id == id then id in after.txs && after.txs[id].record == step.record
            else id in s.db.txs ==> id in after.txs && after.txs[id].record == s.db.txs[id].record
    ensures step.Begin? ==> step.id !in s.db.txs
  {
    hide T.IndexAdmits, T.PrimaryKeyAdmits, T.Locked, FirstOpen, Applied;
  }

  // ---------- each controller's life is a life with single-step commits ----------

  /** What a step of the system is in the life of one controller, if it is anything there. */
  function Projected(s: System, action: Action, environment: string): Option<L.Action>
  {
    match action
    case Control(other, local) => if other == environment then Some(local) else None
    case Transact(step) =>
      if !step.Commit? || step.id !in s.db.txs then None
      else
        var t := s.db.txs[step.id].record;
        if t.environment != environment then Some(L.CommitElsewhere(t))
        else if IsAwaited(s, step.id) then Some(L.StoreCommits)
        else Some(L.LandLate(t))
  }

  /** The life of one controller in a run of the system. */
  function LifeOf(actions: seq<Action>, environment: string): seq<L.Action>
    requires Run(actions).Some?
  {
    if actions == [] then []
    else
      var earlier, last := actions[..|actions| - 1], actions[|actions| - 1];
      var local := Projected(Run(earlier).value, last, environment);
      LifeOf(earlier, environment) + if local.Some? then [local.value] else []
  }

  lemma LocalStepsLeaveTheTable(environment: string, w: L.World, action: L.Action)
    requires IsLocal(action) && L.Next(environment, w, action).Some?
    ensures L.Next(environment, w, action).value.table == w.table
  {}

  lemma ControlProjects(s: System, action: Action, environment: string)
    requires action.Control? && Next(s, action).Some?
    ensures var (after, local) := (Next(s, action).value, Projected(s, action, environment));
            && after.db == s.db
            && if local.None? then View(after, environment) == View(s, environment)
               else IsLocal(local.value)
                    && L.Next(environment, View(s, environment), local.value) == Some(View(after, environment))
  {
    LocalStepsLeaveTheTable(action.environment, View(s, action.environment), action.local);
    hide L.Next;
  }

  lemma CommitProjects(s: System, id: nat, environment: string)
    requires T.Sound(s.db) && Next(s, Transact(T.Commit(id))).Some?
    ensures var after := Next(s, Transact(T.Commit(id))).value;
            var local := Projected(s, Transact(T.Commit(id)), environment);
            && local.Some? && !local.value.LoseAcknowledgement?
            && L.Next(environment, View(s, environment), local.value) == Some(View(after, environment))
  {
    CommitIsAnswered(s, id);
    var t := s.db.txs[id].record;
    T.CommitIsSerial(s.db, id);
    hide T.Sound, T.Next, Record, Next;
    if t.environment != environment {
      hide IsAwaited;
    } else if IsAwaited(s, id) {
      hide LevelOf;
    }
  }

  /** What a commit does, put without the details of the transaction. */
  lemma CommitIsAnswered(s: System, id: nat)
    requires Next(s, Transact(T.Commit(id))).Some?
    ensures id in s.db.txs && T.Next(T.DECLARED, s.db, T.Commit(id)).Some?
    ensures Next(s, Transact(T.Commit(id))) == AfterCommit(s, id, T.Next(T.DECLARED, s.db, T.Commit(id)).value)
  {
    hide AfterCommit, Applied;
  }

  lemma TransactProjects(s: System, step: T.Action, environment: string)
    requires T.Sound(s.db) && Next(s, Transact(step)).Some? && !step.Commit?
    ensures View(Next(s, Transact(step)).value, environment) == View(s, environment)
  {
    T.StepKeepsSound(s.db, step);
    hide T.Sound, T.Next;
  }

  lemma DatabaseStaysSound(s: System, action: Action)
    requires T.Sound(s.db) && Next(s, action).Some?
    ensures T.Sound(Next(s, action).value.db)
  {
    if action.Transact? {
      T.StepKeepsSound(s.db, action.step);
    }
    hide T.Sound, T.Next, L.Next;
  }

  lemma StepProjects(s: System, action: Action, environment: string)
    requires T.Sound(s.db) && Next(s, action).Some?
    ensures var (after, local) := (Next(s, action).value, Projected(s, action, environment));
            if local.None? then View(after, environment) == View(s, environment)
            else !local.value.LoseAcknowledgement?
                 && L.Next(environment, View(s, environment), local.value) == Some(View(after, environment))
  {
    hide Next, L.Next, T.Sound;
    match action
    case Control(_, _) => ControlProjects(s, action, environment);
    case Transact(step) =>
      if step.Commit? {
        CommitProjects(s, step.id, environment);
      } else {
        TransactProjects(s, step, environment);
      }
  }

  /**
   * Seen from any environment, every run of the system is a run of that environment's controller in
   * which each commit is one step: whatever holds of those lives holds of the interleaved ones.
   */
  lemma {:induction false} RunsProject(actions: seq<Action>, environment: string)
    requires Run(actions).Some?
    ensures T.Sound(Run(actions).value.db)
    ensures L.Run(environment, LifeOf(actions, environment)) == Some(View(Run(actions).value, environment))
    ensures forall k | 0 <= k < |LifeOf(actions, environment)| ::
              !LifeOf(actions, environment)[k].LoseAcknowledgement?
  {
    hide Next, Run, L.Next, L.Run, T.Sound, View, Projected, LifeOf;
    if actions == [] {
      NothingHasHappenedYet(environment);
    } else {
      var earlier, last := actions[..|actions| - 1], actions[|actions| - 1];
      assert actions == earlier + [last];
      LifeGrows(earlier, last, environment);
      RunsProject(earlier, environment);
      var before := Run(earlier).value;
      DatabaseStaysSound(before, last);
      StepProjects(before, last, environment);
      var life, local := LifeOf(earlier, environment), Projected(before, last, environment);
      if local.Some? {
        LifeRunsOn(environment, life, local.value);
      }
    }
  }

  lemma NothingHasHappenedYet(environment: string)
    ensures Run([]).Some? && T.Sound(Run([]).value.db) && LifeOf([], environment) == []
    ensures L.Run(environment, []) == Some(View(Run([]).value, environment))
  {}

  lemma LifeGrows(actions: seq<Action>, x: Action, environment: string)
    requires Run(actions + [x]).Some?
    ensures Run(actions).Some? && Next(Run(actions).value, x) == Run(actions + [x])
    ensures var local := Projected(Run(actions).value, x, environment);
            LifeOf(actions + [x], environment) ==
            if local.Some? then LifeOf(actions, environment) + [local.value] else LifeOf(actions, environment)
  {
    hide Next, Projected;
    assert (actions + [x])[..|actions|] == actions;
  }

  lemma LifeRunsOn(environment: string, life: seq<L.Action>, x: L.Action)
    requires L.Run(environment, life).Some?
    ensures L.Run(environment, life + [x]) == L.Next(environment, L.Run(environment, life).value, x)
  {
    assert (life + [x])[..|life|] == life;
  }

  // ---------- what follows for every environment ----------

  /** No orphan of the environment has committed. */
  predicate NoOrphanCommits(actions: seq<Action>, environment: string)
    requires Run(actions).Some?
  {
    L.NothingLandsLate(LifeOf(actions, environment))
  }

  /**
   * At every moment of every run, in every environment: the rows form a chain; the state shown is the
   * start-up state or stands for a committed record, and is the one in force exactly when no orphan has
   * committed since the process loaded it, or since the commit it published it for; a crash followed by a
   * restart recovers the last record, or the start-up state if there is none; the audit trail replays as
   * long as no orphan commits; and it is linked exactly when what orphans commit, and what the process
   * commits while its state lags, starts from the level in force.
   */
  lemma EveryControllerIsSafe(actions: seq<Action>, environment: string, now: int)
    requires Run(actions).Some?
    ensures var (w, life) := (View(Run(actions).value, environment), LifeOf(actions, environment));
            var (own, restarted) := (L.OwnLog(environment, w), L.Restarted(environment, w, now));
            && Chained(w.table)
            && (L.Visible(w.process).Some? ==>
                  && (exists n: nat :: L.KnowsFirst(own, n, L.Visible(w.process).value))
                  && (L.IsCurrent(environment, w) <==> !L.Lagging(life)))
            && restarted.Some? && restarted.value.process.Serving?
            && (if own == [] then restarted.value.process.state == NormalState(now)
                else Recovered(Projection(own[|own| - 1])) == Success(restarted.value.process.state))
            && (NoOrphanCommits(actions, environment) ==> L.Replays(environment, w))
            && (L.IsTrail(own) <==> L.CommitsFit(environment, life))
  {
    hide Run, L.Run, L.Restarted, L.OwnLog, L.KnowsFirst, L.IsCurrent, L.IsTrail, L.Replays, T.Sound, Recovered,
         L.Lagging, L.CommitsFit, LifeOf;
    var w, life := View(Run(actions).value, environment), LifeOf(actions, environment);
    RunsProject(actions, environment);
    DatabaseIsChained(Run(actions).value.db);
    L.RestartRecoversTheLastRecord(environment, life, now);
    if L.Visible(w.process).Some? {
      L.VisibleStateIsCommitted(environment, life);
    }
    if NoOrphanCommits(actions, environment) {
      L.AuditTrailReplays(environment, life);
    }
    L.TrailIsLinkedIffCommitsFit(environment, life);
  }

  /**
   * A process that has committed nothing since it loaded is in step with the store if and only if no
   * orphan of its environment has committed since.
   */
  lemma LoadedProcessIsInStepUnlessOrphanLands(actions: seq<Action>, environment: string, load: nat)
    requires Run(actions).Some? && L.Visible(View(Run(actions).value, environment).process).Some?
    requires load < |LifeOf(actions, environment)| && LifeOf(actions, environment)[load].Load?
    requires forall k | load < k < |LifeOf(actions, environment)| ::
               !LifeOf(actions, environment)[k].Load? && !LifeOf(actions, environment)[k].StoreCommits?
    ensures L.IsCurrent(environment, View(Run(actions).value, environment)) <==>
            forall k | load < k < |LifeOf(actions, environment)| :: !LifeOf(actions, environment)[k].LandLate?
  {
    hide Run, L.Run, L.IsCurrent, LifeOf, T.Sound;
    var life := LifeOf(actions, environment);
    RunsProject(actions, environment);
    L.VisibleStateIsCommitted(environment, life);
    forall k | load < k < |life| && L.Unseen(life[k])
      ensures L.NotCaughtUp(life, k)
    {}
  }

  lemma DatabaseIsChained(db: T.Database)
    requires T.Sound(db)
    ensures Chained(db.table)
  {}

  // ---------- no commit is held back ----------

  /** The transaction is awaited, or an orphan; or its record, sent twice, is already committed. */
  predicate Accounted(s: System, id: nat)
    requires id in s.db.txs
  {
    var t := s.db.txs[id].record;
    IsAwaited(s, id) || t in ControllerOf(s, t.environment).abandoned || HasId(s.db.table, t.eventId)
  }

  lemma CommitKeepsIds(s: System, action: Action, id: nat)
    requires Next(s, action).Some?
    ensures HasId(s.db.table, id) ==> HasId(Next(s, action).value.db.table, id)
    ensures action.Transact? && action.step.Commit? && action.step.id in s.db.txs
            && s.db.txs[action.step.id].record.eventId == id ==>
              HasId(Next(s, action).value.db.table, id)
  {
    hide L.Next, T.Locked, T.IndexAdmits, T.PrimaryKeyAdmits, FirstOpen, IsAwaited;
    if action.Transact? && action.step.Commit? {
      var tx := s.db.txs[action.step.id];
      var after := Next(s, action).value.db.table;
      assert after == Applied(s.db.table, tx.at.active, tx.record);
      assert after[|s.db.table|].record == tx.record;
      assert forall i | 0 <= i < |s.db.table| :: after[i].record == s.db.table[i].record;
    }
  }

  lemma OrphansAreKept(s: System, action: Action, t: Transition)
    requires Next(s, action).Some? && t in ControllerOf(s, t.environment).abandoned
    ensures var after := Next(s, action).value;
            || t in ControllerOf(after, t.environment).abandoned
            || (action.Transact? && action.step.Commit? && action.step.id in s.db.txs
                && s.db.txs[action.step.id].record == t)
  {
    hide Record, T.Locked, T.IndexAdmits, T.PrimaryKeyAdmits, FirstOpen, IsAwaited;
  }

  lemma CutOffIsKept(s: System, id: nat, local: L.Action)
    requires IsAwaited(s, id) && (local.Crash? || local.StoreFails?)
    requires Next(s, Control(s.db.txs[id].record.environment, local)).Some?
    ensures var t := s.db.txs[id].record;
            var after := Next(s, Control(t.environment, local)).value;
            t in ControllerOf(after, t.environment).abandoned
  {}

  lemma StepKeepsAccounted(s: System, action: Action, id: nat)
    requires Next(s, action).Some? && id in Next(s, action).value.db.txs
    requires id in s.db.txs ==> Accounted(s, id)
    ensures Accounted(Next(s, action).value, id)
  {
    StepsAreLocal(s, action, id);
    hide Next, IsAwaited, L.Next, T.Next, HasId, ControllerOf;
    if id !in s.db.txs || IsAwaited(s, id) {
      BegunIsAwaited(s, action, id);
      if IsAwaited(s, id) && action.Control? {
        if action == Control(s.db.txs[id].record.environment, action.local)
           && (action.local.Crash? || action.local.StoreFails?) {
          CutOffIsKept(s, id, action.local);
        }
      }
    } else {
      var t := s.db.txs[id].record;
      CommitKeepsIds(s, action, t.eventId);
      if t in ControllerOf(s, t.environment).abandoned {
        OrphansAreKept(s, action, t);
      }
    }
  }

  lemma StepsAreLocal(s: System, action: Action, id: nat)
    requires Next(s, action).Some? && id in Next(s, action).value.db.txs
    ensures id in s.db.txs ==> Next(s, action).value.db.txs[id].record == s.db.txs[id].record
    ensures id !in s.db.txs ==> action.Transact? && action.step.Begin? && action.step.id == id
    ensures action != Transact(T.Commit(id)) && action != Transact(T.Abort(id))
  {
    hide L.Next, T.Locked, T.IndexAdmits, T.PrimaryKeyAdmits, FirstOpen, IsAwaited;
  }

  lemma {:induction false} EveryTransactionIsAccounted(actions: seq<Action>, id: nat)
    requires Run(actions).Some? && id in Run(actions).value.db.txs
    ensures Accounted(Run(actions).value, id)
  {
    hide Next, Accounted;
    if actions != [] {
      var earlier, last := actions[..|actions| - 1], actions[|actions| - 1];
      if id in Run(earlier).value.db.txs {
        EveryTransactionIsAccounted(earlier, id);
      }
      StepKeepsAccounted(Run(earlier).value, last, id);
    }
  }

  /** Once a transaction has begun, the system holds back no step of it that the database would carry out. */
  lemma NothingIsHeldBack(actions: seq<Action>, step: T.Action)
    requires Run(actions).Some? && !step.Begin?
    ensures Next(Run(actions).value, Transact(step)).Some? <==>
            T.Next(T.DECLARED, Run(actions).value.db, step).Some?
  {
    hide Run, T.Next, T.Sound;
    RunsProject(actions, "");
    var s := Run(actions).value;
    if T.Next(T.DECLARED, s.db, step).Some? && step.Commit? {
      hide Next;
      T.CommitterIsInFlight(s.db, step.id);
      EveryTransactionIsAccounted(actions, step.id);
      AccountedCommits(s, step.id);
    }
  }

  lemma AccountedCommits(s: System, id: nat)
    requires T.Sound(s.db) && T.Next(T.DECLARED, s.db, T.Commit(id)).Some?
    requires id in s.db.txs && Accounted(s, id)
    ensures Next(s, Transact(T.Commit(id))).Some?
  {
    CommittersAreNew(s.db, id);
    hide T.Sound, T.Next, IsAwaited, HasId;
  }

  lemma CommittersAreNew(db: T.Database, id: nat)
    requires T.Sound(db) && T.Next(T.DECLARED, db, T.Commit(id)).Some?
    ensures id in db.txs && !HasId(db.table, db.txs[id].record.eventId) && LevelsInRange(db.txs[id].record)
  {
    assert T.TxSound(db.table, db.txs[id]);
  }

  // ---------- every life is lived ----------

  /** The life of a controller whose environment alone has commits, told with late landings. */
  predicate Alone(life: seq<L.Action>)
  {
    forall k | 0 <= k < |life| :: IsLocal(life[k]) || life[k].StoreCommits? || life[k].LandLate?
  }

  function Transacts(steps: seq<T.Action>): seq<Action>
  {
    seq(|steps|, i requires 0 <= i < |steps| => Transact(steps[i]))
  }

  predicate IsStatement(step: T.Action)
  {
    step.Select? || step.Lock? || step.Flush? || step.Insert?
  }

  /**
   * The system stands where it can go on with the life of a controller: every transaction has only begun,
   * the one of a change in progress is awaited, and each abandoned record has an orphan.
   */
  ghost predicate Ready(s: System, environment: string, bound: nat)
  {
    var c := ControllerOf(s, environment);
    && (forall id | id in s.db.txs :: s.db.txs[id].at.Begun? && id < bound)
    && (c.tx.Some? <==> c.process.Persisting?)
    && (c.tx.Some? ==> IsAwaited(s, c.tx.value) && s.db.txs[c.tx.value].record.environment == environment)
    && (forall t | t in c.abandoned :: t.environment == environment && HasOrphan(s, t))
  }

  ghost predicate HasOrphan(s: System, t: Transition)
  {
    exists id :: id in s.db.txs && s.db.txs[id].record == t && !IsAwaited(s, id)
  }

  lemma RunsOn(actions: seq<Action>, x: Action, environment: string)
    requires Run(actions).Some? && Next(Run(actions).value, x).Some?
    ensures Run(actions + [x]) == Next(Run(actions).value, x)
    ensures var local := Projected(Run(actions).value, x, environment);
            LifeOf(actions + [x], environment) ==
            if local.Some? then LifeOf(actions, environment) + [local.value] else LifeOf(actions, environment)
  {
    hide Next, Projected;
    assert (actions + [x])[..|actions|] == actions;
    LifeGrows(actions, x, environment);
  }

  lemma StatementStep(s: System, step: T.Action, environment: string)
    requires IsStatement(step) && T.Next(T.DECLARED, s.db, step).Some?
    ensures Next(s, Transact(step)) == Some(s.(db := T.Next(T.DECLARED, s.db, step).value))
    ensures Projected(s, Transact(step), environment).None?
  {
    hide T.Next;
  }

  /** Statements touch the database only, and are nothing in anybody's life. */
  lemma {:induction false} StatementsRunOn(actions: seq<Action>, steps: seq<T.Action>, environment: string)
    requires Run(actions).Some? && forall k | 0 <= k < |steps| :: IsStatement(steps[k])
    requires T.Run(T.DECLARED, Run(actions).value.db, steps).Some?
    ensures Run(actions + Transacts(steps)) ==
            Some(Run(actions).value.(db := T.Run(T.DECLARED, Run(actions).value.db, steps).value))
    ensures LifeOf(actions + Transacts(steps), environment) == LifeOf(actions, environment)
  {
    hide Run, LifeOf, Next, T.Next, Projected, IsStatement;
    if steps == [] {
      assert actions + Transacts(steps) == actions;
    } else {
      var earlier, last := steps[..|steps| - 1], steps[|steps| - 1];
      assert actions + Transacts(earlier) + [Transact(last)] == actions + Transacts(steps);
      hide Transacts;
      StatementsRunOn(actions, earlier, environment);
      var before := actions + Transacts(earlier);
      StatementStep(Run(before).value, last, environment);
      RunsOn(before, Transact(last), environment);
    }
  }

  /** A transaction that has begun is run to its commit, which is answered as if it came at once. */
  lemma CommitRunsOn(actions: seq<Action>, environment: string, id: nat) returns (longer: seq<Action>)
    requires Run(actions).Some?
    requires forall other | other in Run(actions).value.db.txs :: Run(actions).value.db.txs[other].at.Begun?
    requires var s := Run(actions).value;
             && id in s.db.txs && s.db.txs[id].record.environment == environment
             && Record(s.db.table, s.db.txs[id].record).Success?
             && AfterCommit(s, id, Committed(s.db, id)).Some?
    ensures var s := Run(actions).value;
            && Run(longer) == AfterCommit(s, id, Committed(s.db, id))
            && LifeOf(longer, environment) == LifeOf(actions, environment) +
               [if IsAwaited(s, id) then L.StoreCommits else L.LandLate(s.db.txs[id].record)]
  {
    hide Run, LifeOf, AfterCommit, IsAwaited, Record, Committed, T.Sound, T.Run, T.Statements, T.MayWrite;
    var s := Run(actions).value;
    var t := s.db.txs[id].record;
    var open := FirstOpen(s.db.table, t.environment);
    RunsProject(actions, environment);
    TablesAreConsistent(s.db);
    T.AcceptedMayBeWritten(s.db.table, t);
    T.UndisturbedStatements(s.db, id, open);
    var statements := T.Statements(id, open);
    StatementsAreStatements(id, open);
    StatementsRunOn(actions, statements, environment);
    CommitFromInserted(s, id, open);
    hide Next, T.At, Transacts, Projected;
    RunsOn(actions + Transacts(statements), Transact(T.Commit(id)), environment);
    longer := actions + Transacts(statements) + [Transact(T.Commit(id))];
  }

  lemma TablesAreConsistent(db: T.Database)
    requires T.Sound(db)
    ensures Consistent(db.table)
  {}

  lemma StatementsAreStatements(id: nat, open: Option<nat>)
    ensures forall k | 0 <= k < |T.Statements(id, open)| :: IsStatement(T.Statements(id, open)[k])
  {}

  /** The database once the transaction has committed alone. */
  function Committed(db: T.Database, id: nat): T.Database
    requires id in db.txs && Record(db.table, db.txs[id].record).Success?
  {
    T.Database(Record(db.table, db.txs[id].record).value, db.txs - {id})
  }

  lemma CommitFromInserted(s: System, id: nat, open: Option<nat>)
    requires id in s.db.txs && Record(s.db.table, s.db.txs[id].record).Success?
    requires open == FirstOpen(s.db.table, s.db.txs[id].record.environment)
    requires Record(s.db.table, s.db.txs[id].record).value == Applied(s.db.table, open, s.db.txs[id].record)
    ensures var before := s.(db := T.At(s.db, id, T.Inserted(open)));
            && Next(before, Transact(T.Commit(id))) == AfterCommit(s, id, Committed(s.db, id))
            && Projected(before, Transact(T.Commit(id)), s.db.txs[id].record.environment) ==
               Some(if IsAwaited(s, id) then L.StoreCommits else L.LandLate(s.db.txs[id].record))
  {
    hide Record, FirstOpen, Applied;
    var before := s.(db := T.At(s.db, id, T.Inserted(open)));
    assert before.db.txs - {id} == s.db.txs - {id};
  }

  lemma LocalStepKeepsReady(s: System, environment: string, x: L.Action, bound: nat)
    requires Ready(s, environment, bound) && Next(s, Control(environment, x)).Some?
    requires !ControllerOf(Next(s, Control(environment, x)).value, environment).process.Persisting?
    ensures Ready(Next(s, Control(environment, x)).value, environment, bound + 1)
  {
    var after := Next(s, Control(environment, x)).value;
    var was, becomes := ControllerOf(s, environment), ControllerOf(after, environment);
    forall t | t in becomes.abandoned
      ensures t.environment == environment && HasOrphan(after, t)
    {
      if t in was.abandoned {
        var id :| id in s.db.txs && s.db.txs[id].record == t && !IsAwaited(s, id);
        assert !IsAwaited(after, id);
      } else {
        var id := was.tx.value;
        assert s.db.txs[id].record == t && !IsAwaited(after, id);
      }
    }
  }

  /** A change that is asked for begins its transaction at once. */
  lemma AskingKeepsReady(s: System, environment: string, p: L.Pending, bound: nat)
    requires Ready(s, environment, bound) && Next(s, Control(environment, L.Ask(p))).Some?
    requires ControllerOf(Next(s, Control(environment, L.Ask(p))).value, environment).process.Persisting?
    ensures var asking := Next(s, Control(environment, L.Ask(p))).value;
            var process := ControllerOf(asking, environment).process;
            var after := Next(asking, Transact(T.Begin(bound, L.ProposalOf(environment, process.state, p))));
            after.Some? && Ready(after.value, environment, bound + 1)
  {
    hide L.ProposalOf;
    var asking := Next(s, Control(environment, L.Ask(p))).value;
    var c := ControllerOf(asking, environment);
    var t := L.ProposalOf(environment, c.process.state, p);
    assert t.environment == environment by { ProposalsAreLocal(environment, c.process.state, p); }
    var after := Next(asking, Transact(T.Begin(bound, t))).value;
    forall r | r in ControllerOf(after, environment).abandoned
      ensures r.environment == environment && HasOrphan(after, r)
    {
      var id :| id in s.db.txs && s.db.txs[id].record == r && !IsAwaited(s, id);
      assert !IsAwaited(after, id);
    }
  }

  lemma ProposalsAreLocal(environment: string, state: SheddingState, p: L.Pending)
    ensures L.ProposalOf(environment, state, p).environment == environment
  {}

  lemma CommitKeepsReady(s: System, environment: string, id: nat, bound: nat)
    requires Ready(s, environment, bound) && id in s.db.txs && s.db.txs[id].record.environment == environment
    requires Record(s.db.table, s.db.txs[id].record).Success?
    requires AfterCommit(s, id, Committed(s.db, id)).Some?
    ensures Ready(AfterCommit(s, id, Committed(s.db, id)).value, environment, bound + 1)
  {
    hide Record, L.ProposalOf;
    var after := AfterCommit(s, id, Committed(s.db, id)).value;
    forall t | t in ControllerOf(after, environment).abandoned
      ensures t.environment == environment && HasOrphan(after, t)
    {
      var other :| other in s.db.txs && s.db.txs[other].record == t && !IsAwaited(s, other);
      assert other in after.db.txs && !IsAwaited(after, other);
    }
  }

  /** The transaction that stands for the next commit of a life. */
  lemma CommitterIsReady(s: System, environment: string, x: L.Action, bound: nat) returns (id: nat)
    requires Ready(s, environment, bound) && L.Next(environment, View(s, environment), x).Some?
    requires x.StoreCommits? || x.LandLate?
    ensures id in s.db.txs && s.db.txs[id].record.environment == environment
    ensures Record(s.db.table, s.db.txs[id].record).Success?
    ensures AfterCommit(s, id, Committed(s.db, id)).Some?
    ensures x == if IsAwaited(s, id) then L.StoreCommits else L.LandLate(s.db.txs[id].record)
  {
    hide Record, L.ProposalOf;
    if x.StoreCommits? {
      id := ControllerOf(s, environment).tx.value;
    } else {
      assert HasOrphan(s, x.record);
      id :| id in s.db.txs && s.db.txs[id].record == x.record && !IsAwaited(s, id);
    }
  }

  lemma CommitIsLived(actions: seq<Action>, environment: string, x: L.Action, bound: nat) returns (longer: seq<Action>)
    requires Run(actions).Some? && Ready(Run(actions).value, environment, bound)
    requires L.Next(environment, View(Run(actions).value, environment), x).Some?
    requires x.StoreCommits? || x.LandLate?
    ensures Run(longer).Some? && Ready(Run(longer).value, environment, bound + 1)
    ensures LifeOf(longer, environment) == LifeOf(actions, environment) + [x]
  {
    var s := Run(actions).value;
    ReadyHasBegun(s, environment, bound);
    hide Run, LifeOf, L.Next, T.Next, Ready, Next, AfterCommit, Record;
    var id := CommitterIsReady(s, environment, x, bound);
    CommitKeepsReady(s, environment, id, bound);
    longer := CommitRunsOn(actions, environment, id);
  }

  lemma LocalStepIsLived(actions: seq<Action>, environment: string, x: L.Action, bound: nat)
    returns (longer: seq<Action>)
    requires Run(actions).Some? && Ready(Run(actions).value, environment, bound)
    requires L.Next(environment, View(Run(actions).value, environment), x).Some? && IsLocal(x)
    ensures Run(longer).Some? && Ready(Run(longer).value, environment, bound + 1)
    ensures LifeOf(longer, environment) == LifeOf(actions, environment) + [x]
  {
    var s := Run(actions).value;
    hide Run, LifeOf, L.Next, T.Next, Ready, Next, View;
    LocalStepIsPossible(s, environment, x);
    var after := Next(s, Control(environment, x)).value;
    RunsOn(actions, Control(environment, x), environment);
    longer := actions + [Control(environment, x)];
    if ControllerOf(after, environment).process.Persisting? {
      OnlyAskingPersists(s, environment, x);
      AskingKeepsReady(s, environment, x.pending, bound);
      var t := L.ProposalOf(environment, ControllerOf(after, environment).process.state, x.pending);
      RunsOn(longer, Transact(T.Begin(bound, t)), environment);
      longer := longer + [Transact(T.Begin(bound, t))];
    } else {
      LocalStepKeepsReady(s, environment, x, bound);
    }
  }

  /**
   * Every life of a controller in which only its own changes are committed, at once or late, is lived in
   * some run of the system, its transactions carried out statement by statement.
   */
  lemma {:induction false} EveryLifeIsLived(environment: string, life: seq<L.Action>) returns (actions: seq<Action>)
    requires L.Run(environment, life).Some? && Alone(life)
    ensures Run(actions).Some? && LifeOf(actions, environment) == life
    ensures Ready(Run(actions).value, environment, |life|)
  {
    hide L.Next, T.Sound, Next;
    if life == [] {
      actions := [];
    } else {
      hide Run, LifeOf, Ready;
      var earlier, x := life[..|life| - 1], life[|life| - 1];
      actions := EveryLifeIsLived(environment, earlier);
      assert life == earlier + [x];
      RunsProject(actions, environment);
      hide L.Run, View;
      if x.StoreCommits? || x.LandLate? {
        actions := CommitIsLived(actions, environment, x, |earlier|);
      } else {
        actions := LocalStepIsLived(actions, environment, x, |earlier|);
      }
    }
  }

  lemma ReadyHasBegun(s: System, environment: string, bound: nat)
    requires Ready(s, environment, bound)
    ensures forall other | other in s.db.txs :: s.db.txs[other].at.Begun?
  {}

  lemma LocalStepIsPossible(s: System, environment: string, x: L.Action)
    requires IsLocal(x) && L.Next(environment, View(s, environment), x).Some?
    ensures Next(s, Control(environment, x)).Some?
  {
    hide L.Next;
  }

  lemma OnlyAskingPersists(s: System, environment: string, x: L.Action)
    requires IsLocal(x) && Next(s, Control(environment, x)).Some?
    requires ControllerOf(Next(s, Control(environment, x)).value, environment).process.Persisting?
    ensures x.Ask?
  {}
}
