/**
 * One controller process per environment, over its whole life: it boots, loads, changes tier in two
 * separate steps (persist, then publish), and may crash between any two steps.
 */
module Lifecycle {
  import opened Wrappers
  import opened Policies
  import opened Ledger
  import opened Shedding

  /** A change that has been asked for and is on its way. */
  datatype Pending = Pending(change: Change, now: int, eventId: nat)

  /** Only a serving process publishes a state. */
  datatype Process =
    | Down
    | Booting(start: SheddingState)
    | Serving(state: SheddingState)
    | Persisting(state: SheddingState, pending: Pending)
    | Persisted(state: SheddingState, pending: Pending)

  /**
   * The durable table, the process, the levels of the requests that took effect so far, no-ops included,
   * and the records of the calls to the store that were cut off without an answer of success.
   */
  datatype World = World(table: Table, process: Process, granted: seq<SheddingLevel>, abandoned: set<Transition>)

  datatype Action =
    | Boot(now: int)
    | Load
    | Ask(pending: Pending)
    | StoreCommits
    | StoreFails
    | Publish
    | Crash
    | CommitElsewhere(record: Transition)
    | LoseAcknowledgement           // the store commits, and the call raises all the same
    | LandLate(record: Transition)  // a commit takes effect after its call was cut off

  const START := World([], Down, [], {})

  function ProposalOf(environment: string, state: SheddingState, p: Pending): Transition
  {
    Proposal(environment, state, p.change, p.now, p.eventId)
  }

  function PublishedOf(p: Pending): SheddingState
  {
    Published(p.change, p.now, p.eventId)
  }

  /** The record of the call in progress, which a crash or a failure cuts off. */
  function CutOff(environment: string, process: Process): set<Transition>
  {
    if process.Persisting? then {ProposalOf(environment, process.state, process.pending)} else {}
  }

  /** One step; None when it is not possible. */
  function Next(environment: string, w: World, action: Action): Option<World>
  {
    match action
    case Boot(now) =>
      if w.process.Down? then Some(w.(process := Booting(NormalState(now)))) else None
    case Load =>
      if !w.process.Booting? then None
      else
        var stored := LoadActive(w.table, environment);
        if stored.None? then Some(w.(process := Serving(w.process.start)))
        else if Recovered(stored.value).Failure? then Some(w.(process := Down))
        else Some(w.(process := Serving(Recovered(stored.value).value)))
    case Ask(pending) =>
      if !w.process.Serving? then None
      else if pending.change.level == w.process.state.level then
        Some(w.(granted := w.granted + [pending.change.level]))
      else Some(w.(process := Persisting(w.process.state, pending)))
    case StoreCommits => Commits(environment, w, true)
    case LoseAcknowledgement => Commits(environment, w, false)
    case StoreFails =>
      if w.process.Persisting? then
        Some(w.(process := Serving(w.process.state), abandoned := w.abandoned + CutOff(environment, w.process)))
      else None
    case Publish =>
      if w.process.Persisted? then Some(w.(process := Serving(PublishedOf(w.process.pending)))) else None
    case Crash =>
      Some(w.(process := Down, abandoned := w.abandoned + CutOff(environment, w.process)))
    case CommitElsewhere(record) =>
      if record.environment == environment || Record(w.table, record).Failure? then None
      else Some(w.(table := Record(w.table, record).value))
    case LandLate(record) =>
      if record !in w.abandoned || Record(w.table, record).Failure? || LevelOf(record.toLevel).None? then None
      else Some(World(Record(w.table, record).value, w.process,
                      w.granted + [LevelOf(record.toLevel).value], w.abandoned - {record}))
  }

  /** The call in progress commits; without an acknowledgement the process goes on as if it had not. */
  function Commits(environment: string, w: World, acknowledged: bool): Option<World>
  {
    if !w.process.Persisting? then None
    else
      var (state, pending) := (w.process.state, w.process.pending);
      var after := Record(w.table, ProposalOf(environment, state, pending));
      if after.Failure? then None
      else Some(World(after.value, if acknowledged then Persisted(state, pending) else Serving(state),
                      w.granted + [pending.change.level], w.abandoned))
  }

  function Run(environment: string, actions: seq<Action>): Option<World>
  {
    if actions == [] then Some(START)
    else
      var before := Run(environment, actions[..|actions| - 1]);
      if before.None? then None else Next(environment, before.value, actions[|actions| - 1])
  }

  function OwnLog(environment: string, w: World): seq<Transition>
  {
    EnvironmentLog(Records(w.table), environment)
  }

  /** The state the process shows to its readers, if it shows one. */
  function Visible(process: Process): Option<SheddingState>
  {
    if process.Down? || process.Booting? then None else Some(process.state)
  }

  // ---------- records and states ----------

  /** What every record of the environment is, however it came to be committed. */
  predicate IsRecord(environment: string, t: Transition)
  {
    && t.environment == environment
    && t.toLevel != t.fromLevel
    && LevelOf(t.toLevel).Some?
    && t.policy == PolicySnapshot(LevelOf(t.toLevel).value)
  }

  predicate AreRecords(environment: string, own: seq<Transition>)
  {
    && (forall i | 0 <= i < |own| :: IsRecord(environment, own[i]))
    && (forall i, k | 0 <= i < k < |own| :: own[i].eventId != own[k].eventId)
  }

  /** The state is the one the log calls for. */
  predicate InStep(own: seq<Transition>, state: SheddingState)
  {
    if own == [] then state == NormalState(state.startedAt)
    else Recovered(Projection(own[|own| - 1])) == Success(state)
  }

  /** The state is the one the first `n` records call for. */
  predicate KnowsFirst(own: seq<Transition>, n: nat, state: SheddingState)
  {
    n <= |own| && InStep(own[..n], state)
  }

  /** The level in force after a log. */
  function LevelAfter(own: seq<Transition>): int
  {
    if own == [] then LevelValue(Normal) else own[|own| - 1].toLevel
  }

  lemma LevelValuesAreDistinct(a: SheddingLevel, b: SheddingLevel)
    ensures LevelValue(a) == LevelValue(b) ==> a == b
  {}

  /** A state that stands for records has their level, and the policy of that level. */
  lemma KnownState(environment: string, own: seq<Transition>, n: nat, state: SheddingState)
    requires AreRecords(environment, own) && KnowsFirst(own, n, state)
    ensures LevelValue(state.level) == LevelAfter(own[..n])
    ensures state.policy == PolicySnapshot(state.level)
  {
    if n > 0 {
      assert own[..n][n - 1] == own[n - 1];
      assert IsRecord(environment, own[n - 1]);
    }
  }

  /** Records have their own identifiers, so a state stands for one number of records only. */
  lemma KnowledgeIsUnique(environment: string, own: seq<Transition>, n: nat, m: nat, state: SheddingState)
    requires AreRecords(environment, own) && KnowsFirst(own, n, state) && KnowsFirst(own, m, state)
    ensures n == m
  {
    assert n > 0 ==> state.eventId == Some(own[n - 1].eventId);
    assert m > 0 ==> state.eventId == Some(own[m - 1].eventId);
    assert n == 0 || m == 0 ==> n == m;
  }

  lemma KnowledgeStays(own: seq<Transition>, t: Transition, n: nat, state: SheddingState)
    requires KnowsFirst(own, n, state)
    ensures KnowsFirst(own + [t], n, state)
  {
    assert (own + [t])[..n] == own[..n];
  }

  lemma ProposalIsRecord(environment: string, state: SheddingState, p: Pending)
    requires p.change.level != state.level
    ensures IsRecord(environment, ProposalOf(environment, state, p))
  {
    LevelValuesAreDistinct(state.level, p.change.level);
  }

  // ---------- commits that the process does not see ----------

  predicate Unseen(action: Action)
  {
    action.LoseAcknowledgement? || action.LandLate?
  }

  /**
   * A commit the process did not see has taken effect since the state it shows was loaded, or since the
   * commit for which that state was published.
   */
  ghost predicate Lagging(actions: seq<Action>)
  {
    exists i :: 0 <= i < |actions| && Unseen(actions[i]) && NotCaughtUp(actions, i)
  }

  predicate NotCaughtUp(actions: seq<Action>, i: int)
  {
    && (forall j | 0 <= i < j < |actions| :: !actions[j].Load?)
    && (forall j, k | 0 <= i < j < k < |actions| && actions[j].StoreCommits? :: !actions[k].Publish?)
  }

  /** The same since the last load or commit of the process, published or not. */
  ghost predicate Overtaken(actions: seq<Action>)
  {
    exists i :: 0 <= i < |actions| && Unseen(actions[i]) && NotFollowed(actions, i)
  }

  predicate NotFollowed(actions: seq<Action>, i: int)
  {
    forall j | 0 <= i < j < |actions| :: !actions[j].Load? && !actions[j].StoreCommits?
  }

  lemma LaggingStep(actions: seq<Action>, x: Action)
    ensures Lagging(actions + [x]) <==>
            Unseen(x) || (!x.Load? && if x.Publish? then Overtaken(actions) else Lagging(actions))
  {
    var longer := actions + [x];
    assert longer[|actions|] == x && forall i | 0 <= i < |actions| :: longer[i] == actions[i];
    if Unseen(x) {
      assert NotCaughtUp(longer, |actions|);
    }
    if Lagging(longer) && !Unseen(x) {
      var i :| 0 <= i < |longer| && Unseen(longer[i]) && NotCaughtUp(longer, i);
      assert NotCaughtUp(actions, i);
      if x.Publish? {
        assert NotFollowed(actions, i);
      }
    }
    if !x.Load? && x.Publish? && Overtaken(actions) {
      var i :| 0 <= i < |actions| && Unseen(actions[i]) && NotFollowed(actions, i);
      assert Unseen(longer[i]) && NotCaughtUp(longer, i);
    }
    if !x.Load? && !x.Publish? && Lagging(actions) {
      var i :| 0 <= i < |actions| && Unseen(actions[i]) && NotCaughtUp(actions, i);
      assert Unseen(longer[i]) && NotCaughtUp(longer, i);
    }
  }

  lemma OvertakenStep(actions: seq<Action>, x: Action)
    ensures Overtaken(actions + [x]) <==> Unseen(x) || (!x.Load? && !x.StoreCommits? && Overtaken(actions))
  {
    var longer := actions + [x];
    assert longer[|actions|] == x && forall i | 0 <= i < |actions| :: longer[i] == actions[i];
    if Unseen(x) {
      assert NotFollowed(longer, |actions|);
    }
    if Overtaken(longer) && !Unseen(x) {
      var i :| 0 <= i < |longer| && Unseen(longer[i]) && NotFollowed(longer, i);
      assert NotFollowed(actions, i);
    }
    if !x.Load? && !x.StoreCommits? && Overtaken(actions) {
      var i :| 0 <= i < |actions| && Unseen(actions[i]) && NotFollowed(actions, i);
      assert Unseen(longer[i]) && NotFollowed(longer, i);
    }
  }

  // ---------- what every step keeps ----------

  ghost predicate Durable(environment: string, w: World)
  {
    && Consistent(w.table)
    && AreRecords(environment, OwnLog(environment, w))
    && forall t | t in w.abandoned :: IsRecord(environment, t)
  }

  /** The state stands for some records: for all of them exactly when it does not lag. */
  ghost predicate StateTracked(own: seq<Transition>, state: SheddingState, lagging: bool)
  {
    exists n: nat :: KnowsFirst(own, n, state) && (lagging <==> n != |own|)
  }

  /**
   * Record `k` is the one just committed, and the state stands for the first `n` before it: for all before
   * the last record exactly when it does not lag, and the commit is the last exactly when not overtaken.
   */
  predicate CommitTracked(environment: string, own: seq<Transition>, process: Process, n: nat, k: nat,
                          lagging: bool, overtaken: bool)
    requires process.Persisted?
  {
    && KnowsFirst(own, n, process.state) && n <= k < |own|
    && own[k] == ProposalOf(environment, process.state, process.pending)
    && (lagging <==> n != |own| - 1) && (overtaken <==> k != |own| - 1)
  }

  ghost predicate Tracked(environment: string, own: seq<Transition>, process: Process,
                          lagging: bool, overtaken: bool)
  {
    match process
    case Down => true
    case Booting(start) => start == NormalState(start.startedAt)
    case Serving(state) => StateTracked(own, state, lagging)
    case Persisting(state, p) => StateTracked(own, state, lagging) && p.change.level != state.level
    case Persisted(_, _) =>
      exists n: nat, k: nat :: CommitTracked(environment, own, process, n, k, lagging, overtaken)
  }

  ghost predicate Sound(environment: string, w: World, lagging: bool, overtaken: bool)
  {
    Durable(environment, w) && Tracked(environment, OwnLog(environment, w), w.process, lagging, overtaken)
  }

  lemma {:induction false} OwnIdsDiffer(log: seq<Transition>, environment: string)
    requires forall i, k | 0 <= i < k < |log| :: log[i].eventId != log[k].eventId
    ensures var own := EnvironmentLog(log, environment);
            && (forall t | t in own :: t in log)
            && forall i, k | 0 <= i < k < |own| :: own[i].eventId != own[k].eventId
  {
    if log != [] {
      var earlier, last := log[..|log| - 1], log[|log| - 1];
      OwnIdsDiffer(earlier, environment);
      assert forall t | t in earlier :: t in log && t.eventId != last.eventId;
      var own := EnvironmentLog(earlier, environment);
      assert forall k | 0 <= k < |own| :: own[k] in own;
    }
  }

  /** A commit of the environment appends to its log, and everything durable stays as it should. */
  lemma OwnCommitAppends(environment: string, w: World, t: Transition)
    requires Durable(environment, w) && IsRecord(environment, t) && Record(w.table, t).Success?
    ensures var (after, own) := (Record(w.table, t).value, OwnLog(environment, w));
            && Consistent(after)
            && EnvironmentLog(Records(after), environment) == own + [t]
            && AreRecords(environment, own + [t])
  {
    RecordKeepsConsistency(w.table, t);
    RecordAppendsToLog(w.table, t);
    EnvironmentLogAppend(Records(w.table), t, environment);
    var after := Record(w.table, t).value;
    RecordsHaveTheirIds(after);
    OwnIdsDiffer(Records(after), environment);
  }

  lemma RecordsHaveTheirIds(table: Table)
    requires Consistent(table)
    ensures forall i, k | 0 <= i < k < |Records(table)| :: Records(table)[i].eventId != Records(table)[k].eventId
  {}

  /** A commit elsewhere leaves the environment's log alone. */
  lemma ElsewhereAppendsNothing(environment: string, w: World, t: Transition)
    requires Durable(environment, w) && t.environment != environment && Record(w.table, t).Success?
    ensures Consistent(Record(w.table, t).value)
    ensures EnvironmentLog(Records(Record(w.table, t).value), environment) == OwnLog(environment, w)
  {
    hide Consistent, Record, Records, EnvironmentLog;
    RecordKeepsConsistency(w.table, t);
    RecordAppendsToLog(w.table, t);
    EnvironmentLogAppend(Records(w.table), t, environment);
    assert OwnLog(environment, w) + [] == OwnLog(environment, w);
  }

  /** A commit the process does not see makes the state it shows lag. */
  lemma UnseenCommitIsTracked(environment: string, own: seq<Transition>, t: Transition, process: Process,
                              lagging: bool, overtaken: bool)
    requires Tracked(environment, own, process, lagging, overtaken)
    ensures Tracked(environment, own + [t], process, true, true)
  {
    if process.Persisted? {
      var n: nat, k: nat :| CommitTracked(environment, own, process, n, k, lagging, overtaken);
      KnowledgeStays(own, t, n, process.state);
      assert CommitTracked(environment, own + [t], process, n, k, true, true);
    } else if Visible(process).Some? {
      var n: nat :| KnowsFirst(own, n, process.state);
      KnowledgeStays(own, t, n, process.state);
    }
  }

  lemma SeenCommitIsTracked(environment: string, own: seq<Transition>, process: Process, lagging: bool, overtaken: bool)
    requires process.Persisting? && Tracked(environment, own, process, lagging, overtaken)
    ensures var t := ProposalOf(environment, process.state, process.pending);
            Tracked(environment, own + [t], Persisted(process.state, process.pending), lagging, false)
  {
    var t := ProposalOf(environment, process.state, process.pending);
    var n: nat :| KnowsFirst(own, n, process.state) && (lagging <==> n != |own|);
    KnowledgeStays(own, t, n, process.state);
    assert CommitTracked(environment, own + [t], Persisted(process.state, process.pending), n, |own|, lagging, false);
  }

  lemma PublishingIsTracked(environment: string, own: seq<Transition>, process: Process, lagging: bool, overtaken: bool)
    requires process.Persisted? && Tracked(environment, own, process, lagging, overtaken)
    ensures Tracked(environment, own, Serving(PublishedOf(process.pending)), overtaken, overtaken)
  {
    var n: nat, k: nat :| CommitTracked(environment, own, process, n, k, lagging, overtaken);
    var p := process.pending;
    PublishedIsRecoverable(environment, process.state, p.change, p.now, p.eventId);
    assert own[..k + 1][k] == own[k];
    assert KnowsFirst(own, k + 1, PublishedOf(p));
  }

  lemma LoadingIsTracked(environment: string, w: World)
    requires Durable(environment, w) && Next(environment, w, Load).Some?
    requires w.process.start == NormalState(w.process.start.startedAt)
    ensures var after := Next(environment, w, Load).value;
            && after.process.Serving? && after == w.(process := after.process)
            && InStep(OwnLog(environment, w), after.process.state)
  {
    ActiveIsLastOfLog(w.table, environment);
    LevelsAreRecoverable(w.table, environment);
    hide Consistent, Recovered, LoadActive, EnvironmentLog, Record;
  }

  lemma InStepKnowsAll(own: seq<Transition>, state: SheddingState)
    ensures InStep(own, state) <==> KnowsFirst(own, |own|, state)
  {
    assert own[..|own|] == own;
  }

  lemma CommitKeepsSound(environment: string, w: World, acknowledged: bool, lagging: bool, overtaken: bool)
    requires Sound(environment, w, lagging, overtaken) && Commits(environment, w, acknowledged).Some?
    ensures var after := Commits(environment, w, acknowledged).value;
            && Sound(environment, after, lagging || !acknowledged, !acknowledged)
            && OwnLog(environment, after) ==
               OwnLog(environment, w) + [ProposalOf(environment, w.process.state, w.process.pending)]
  {
    hide Consistent, AreRecords, IsRecord, Record, StateTracked;
    var (own, state, p) := (OwnLog(environment, w), w.process.state, w.process.pending);
    ProposalIsRecord(environment, state, p);
    OwnCommitAppends(environment, w, ProposalOf(environment, state, p));
    if acknowledged {
      SeenCommitIsTracked(environment, own, w.process, lagging, overtaken);
    } else {
      UnseenCommitIsTracked(environment, own, ProposalOf(environment, state, p), w.process, lagging, overtaken);
    }
  }

  lemma LandingKeepsSound(environment: string, w: World, t: Transition, lagging: bool, overtaken: bool)
    requires Sound(environment, w, lagging, overtaken) && Next(environment, w, LandLate(t)).Some?
    ensures Sound(environment, Next(environment, w, LandLate(t)).value, true, true)
    ensures OwnLog(environment, Next(environment, w, LandLate(t)).value) == OwnLog(environment, w) + [t]
  {
    hide Consistent, AreRecords, IsRecord, Record, Tracked;
    OwnCommitAppends(environment, w, t);
    UnseenCommitIsTracked(environment, OwnLog(environment, w), t, w.process, lagging, overtaken);
  }

  lemma CutOffIsRecord(environment: string, own: seq<Transition>, process: Process, lagging: bool, overtaken: bool)
    requires Tracked(environment, own, process, lagging, overtaken)
    ensures forall t | t in CutOff(environment, process) :: IsRecord(environment, t)
  {
    if process.Persisting? {
      ProposalIsRecord(environment, process.state, process.pending);
    }
  }

  /** How an action changes whether the state lags, and whether the last commit was overtaken. */
  function LagsAfter(action: Action, lagging: bool, overtaken: bool): bool
  {
    Unseen(action) || (!action.Load? && if action.Publish? then overtaken else lagging)
  }

  function OvertakenAfter(action: Action, overtaken: bool): bool
  {
    Unseen(action) || (!action.Load? && !action.StoreCommits? && overtaken)
  }

  lemma StepKeepsSound(environment: string, w: World, action: Action, lagging: bool, overtaken: bool)
    requires Sound(environment, w, lagging, overtaken) && Next(environment, w, action).Some?
    ensures Sound(environment, Next(environment, w, action).value,
                  LagsAfter(action, lagging, overtaken), OvertakenAfter(action, overtaken))
  {
    hide Consistent, AreRecords, IsRecord, Record, StateTracked, CommitTracked, EnvironmentLog;
    var own := OwnLog(environment, w);
    match action
    case Load =>
      LoadingIsTracked(environment, w);
      LoadedStateIsTracked(own, Next(environment, w, Load).value.process.state);
    case StoreCommits => CommitKeepsSound(environment, w, true, lagging, overtaken);
    case LoseAcknowledgement => CommitKeepsSound(environment, w, false, lagging, overtaken);
    case LandLate(t) => LandingKeepsSound(environment, w, t, lagging, overtaken);
    case Publish => PublishingIsTracked(environment, own, w.process, lagging, overtaken);
    case CommitElsewhere(t) => ElsewhereAppendsNothing(environment, w, t);
    case StoreFails => CutOffIsRecord(environment, own, w.process, lagging, overtaken);
    case Crash => CutOffIsRecord(environment, own, w.process, lagging, overtaken);
    case Boot(_) =>
    case Ask(_) =>
  }

  lemma LoadedStateIsTracked(own: seq<Transition>, state: SheddingState)
    requires InStep(own, state)
    ensures StateTracked(own, state, false)
  {
    InStepKnowsAll(own, state);
  }

  /** The invariant holds after every run, whatever was lost and whatever landed late. */
  lemma {:induction false} EveryRunIsSound(environment: string, actions: seq<Action>)
    requires Run(environment, actions).Some?
    ensures Sound(environment, Run(environment, actions).value, Lagging(actions), Overtaken(actions))
  {
    hide Next, Sound, Lagging, Overtaken;
    if actions == [] {
      StartIsSound(environment, Lagging([]), Overtaken([]));
    } else {
      var earlier, last := actions[..|actions| - 1], actions[|actions| - 1];
      EveryRunIsSound(environment, earlier);
      StepKeepsSound(environment, Run(environment, earlier).value, last, Lagging(earlier), Overtaken(earlier));
      LaggingStep(earlier, last);
      OvertakenStep(earlier, last);
      assert actions == earlier + [last];
    }
  }

  lemma StartIsSound(environment: string, lagging: bool, overtaken: bool)
    ensures Sound(environment, START, lagging, overtaken)
  {}

  // ---------- crash safety ----------

  /**
   * The visible state is the one in force: the start-up state if nothing is recorded, else the state of the
   * last record; or, while the last record waits to be published, the state of the one before it.
   */
  predicate IsCurrent(environment: string, w: World)
    requires Visible(w.process).Some?
  {
    var own := OwnLog(environment, w);
    if w.process.Persisted? then
      && own != []
      && own[|own| - 1] == ProposalOf(environment, w.process.state, w.process.pending)
      && InStep(own[..|own| - 1], w.process.state)
    else InStep(own, w.process.state)
  }

  lemma CurrentUnlessLagging(environment: string, w: World, lagging: bool, overtaken: bool)
    requires Sound(environment, w, lagging, overtaken) && Visible(w.process).Some?
    ensures IsCurrent(environment, w) <==> !lagging
    ensures exists n: nat :: KnowsFirst(OwnLog(environment, w), n, w.process.state)
    ensures w.process.state.policy == PolicySnapshot(w.process.state.level)
  {
    hide Consistent, AreRecords, InStep, OwnLog;
    var (own, state) := (OwnLog(environment, w), w.process.state);
    InStepKnowsAll(own, state);
    if w.process.Persisted? {
      var n: nat, k: nat :| CommitTracked(environment, own, w.process, n, k, lagging, overtaken);
      KnownState(environment, own, n, state);
      if KnowsFirst(own, |own| - 1, state) {
        KnowledgeIsUnique(environment, own, n, |own| - 1, state);
      }
    } else {
      var n: nat :| KnowsFirst(own, n, state) && (lagging <==> n != |own|);
      KnownState(environment, own, n, state);
      if KnowsFirst(own, |own|, state) {
        KnowledgeIsUnique(environment, own, n, |own|, state);
      }
    }
  }

  /**
   * At every moment of every life with crashes, failures and restarts the visible state is the start-up
   * state or stands for a committed record. It is current exactly when no commit that the process did not
   * see has taken effect since the state was loaded, or since the commit for which it was published.
   */
  lemma VisibleStateIsCommitted(environment: string, actions: seq<Action>)
    requires Run(environment, actions).Some?
    requires Visible(Run(environment, actions).value.process).Some?
    ensures var w := Run(environment, actions).value;
            && (exists n: nat :: KnowsFirst(OwnLog(environment, w), n, w.process.state))
            && (IsCurrent(environment, w) <==> !Lagging(actions))
  {
    hide Run, Sound, Lagging;
    EveryRunIsSound(environment, actions);
    CurrentUnlessLagging(environment, Run(environment, actions).value, Lagging(actions), Overtaken(actions));
  }

  /** Crash, boot and load, one after the other. */
  function Restarted(environment: string, w: World, now: int): Option<World>
  {
    var crashed := Next(environment, w, Crash).value;
    var booted := Next(environment, crashed, Boot(now)).value;
    Next(environment, booted, Load)
  }

  lemma RestartIsCurrent(environment: string, w: World, now: int, lagging: bool, overtaken: bool)
    requires Sound(environment, w, lagging, overtaken)
    ensures var own, after := OwnLog(environment, w), Restarted(environment, w, now);
            && after.Some? && after.value.table == w.table && after.value.process.Serving?
            && var state := after.value.process.state;
               if own == [] then state == NormalState(now)
               else Recovered(Projection(own[|own| - 1])) == Success(state)
  {
    ActiveIsLastOfLog(w.table, environment);
    LevelsAreRecoverable(w.table, environment);
    hide Consistent, Recovered, LoadActive, EnvironmentLog, Record, AreRecords, Tracked;
  }

  /** Wherever any run is interrupted, a restart recovers exactly the last committed record. */
  lemma RestartRecoversTheLastRecord(environment: string, actions: seq<Action>, now: int)
    requires Run(environment, actions).Some?
    ensures var w := Run(environment, actions).value;
            var own, after := OwnLog(environment, w), Restarted(environment, w, now);
            && after.Some? && after.value.table == w.table && after.value.process.Serving?
            && var state := after.value.process.state;
               if own == [] then state == NormalState(now)
               else Recovered(Projection(own[|own| - 1])) == Success(state)
  {
    hide Run, Restarted, OwnLog, Sound, Recovered;
    EveryRunIsSound(environment, actions);
    RestartIsCurrent(environment, Run(environment, actions).value, now, Lagging(actions), Overtaken(actions));
  }

  /** The policy reported is always the policy enforced at the reported level. */
  lemma ReportedPolicyIsEnforced(environment: string, actions: seq<Action>, endpoint: string, mode: EndpointMode)
    requires Run(environment, actions).Some?
    requires Visible(Run(environment, actions).value.process).Some?
    ensures var state := Visible(Run(environment, actions).value.process).value;
            && (ModeFor(endpoint, state.level) == Success(mode) <==>
                  endpoint in state.policy && state.policy[endpoint] == ModeValue(mode))
            && "checkout" in state.policy && state.policy["checkout"] == "normal"
  {
    hide Run, Sound, PolicySnapshot, ModeFor, ModeValue;
    EveryRunIsSound(environment, actions);
    var w := Run(environment, actions).value;
    CurrentUnlessLagging(environment, w, Lagging(actions), Overtaken(actions));
    SnapshotIsEnforcedPolicy(w.process.state.level);
  }

  // ---------- changes take effect ----------

  lemma RunsOn(environment: string, actions: seq<Action>, x: Action)
    requires Run(environment, actions).Some?
    ensures Run(environment, actions + [x]) == Next(environment, Run(environment, actions).value, x)
  {
    assert (actions + [x])[..|actions|] == actions;
  }

  /** The store accepts a change exactly when its identifier is new and its start does not go back. */
  lemma StoreAcceptsWhen(environment: string, w: World, p: Pending)
    requires Durable(environment, w) && w.process.Persisting? && w.process.pending == p
    ensures Commits(environment, w, true).Some? <==>
            && !HasId(w.table, p.eventId)
            && (LoadActive(w.table, environment).Some? ==> LoadActive(w.table, environment).value.startedAt <= p.now)
  {
    var t := ProposalOf(environment, w.process.state, p);
    RecordSucceedsWhen(w.table, t);
    ProposalsPassTheLevelChecks(environment, w.process.state, p.change, p.now, p.eventId);
    LevelChecksAdmitTiers(t);
    hide Record, LoadActive, HasId, Consistent, NamesTiers, LevelsInRange;
  }

  /**
   * From any moment of any life a serving process can change to any other tier: the store takes the change
   * exactly when its identifier is new and its start does not go back; then it is in the log, counts as
   * granted, and is what the process shows. A store that fails leaves the state shown and the log alone.
   */
  lemma EveryChangeTakesEffect(environment: string, actions: seq<Action>, p: Pending)
    requires Run(environment, actions).Some? && Run(environment, actions).value.process.Serving?
    requires p.change.level != Run(environment, actions).value.process.state.level
    ensures var before := Run(environment, actions).value;
            var committed := Run(environment, actions + [Ask(p)] + [StoreCommits]);
            var after := Run(environment, actions + [Ask(p)] + [StoreCommits] + [Publish]);
            var failed := Run(environment, actions + [Ask(p)] + [StoreFails]);
            var t := ProposalOf(environment, before.process.state, p);
            && (committed.Some? <==>
                  && !HasId(before.table, p.eventId)
                  && (LoadActive(before.table, environment).Some? ==>
                        LoadActive(before.table, environment).value.startedAt <= p.now))
            && (committed.Some? ==>
                  && after.Some? && after.value.process == Serving(PublishedOf(p))
                  && OwnLog(environment, after.value) == OwnLog(environment, before) + [t]
                  && after.value.granted == before.granted + [p.change.level])
            && failed == Some(before.(abandoned := before.abandoned + {t}))
  {
    EveryRunIsSound(environment, actions);
    var before := Run(environment, actions).value;
    var asking := before.(process := Persisting(before.process.state, p));
    RunsOn(environment, actions, Ask(p));
    RunsOn(environment, actions + [Ask(p)], StoreFails);
    RunsOn(environment, actions + [Ask(p)], StoreCommits);
    ChangeTakesEffect(environment, before, p, Lagging(actions), Overtaken(actions));
    hide Run, Sound, OwnLog, LoadActive, HasId, ProposalOf, PublishedOf, Next;
    if Next(environment, asking, StoreCommits).Some? {
      RunsOn(environment, actions + [Ask(p)] + [StoreCommits], Publish);
    }
  }

  lemma ChangeTakesEffect(environment: string, w: World, p: Pending, lagging: bool, overtaken: bool)
    requires Sound(environment, w, lagging, overtaken)
    requires w.process.Serving? && p.change.level != w.process.state.level
    ensures var asking := w.(process := Persisting(w.process.state, p));
            var t := ProposalOf(environment, w.process.state, p);
            var committed := Next(environment, asking, StoreCommits);
            && Next(environment, w, Ask(p)) == Some(asking)
            && Next(environment, asking, StoreFails) == Some(w.(abandoned := w.abandoned + {t}))
            && (committed.Some? <==>
                  && !HasId(w.table, p.eventId)
                  && (LoadActive(w.table, environment).Some? ==>
                        LoadActive(w.table, environment).value.startedAt <= p.now))
            && (committed.Some? ==>
                  var after := Next(environment, committed.value, Publish);
                  && after.Some? && after.value.process == Serving(PublishedOf(p))
                  && OwnLog(environment, after.value) == OwnLog(environment, w) + [t]
                  && after.value.granted == w.granted + [p.change.level])
  {
    hide Sound, Record, LoadActive, HasId, ProposalOf, PublishedOf, OwnLog;
    var asking := w.(process := Persisting(w.process.state, p));
    StepKeepsSound(environment, w, Ask(p), lagging, overtaken);
    DurableIfSound(environment, asking, lagging, overtaken);
    StoreAcceptsWhen(environment, asking, p);
    SameTableSameLog(environment, w, asking);
    if Commits(environment, asking, true).Some? {
      CommitKeepsSound(environment, asking, true, lagging, overtaken);
      var committed := Commits(environment, asking, true).value;
      SameTableSameLog(environment, committed, committed.(process := Serving(PublishedOf(p))));
    }
  }

  lemma DurableIfSound(environment: string, w: World, lagging: bool, overtaken: bool)
    requires Sound(environment, w, lagging, overtaken)
    ensures Durable(environment, w)
  {}

  /** Asking for the tier that is shown is granted at once and changes nothing else. */
  lemma NoChangeIsGranted(environment: string, actions: seq<Action>, p: Pending)
    requires Run(environment, actions).Some? && Run(environment, actions).value.process.Serving?
    requires p.change.level == Run(environment, actions).value.process.state.level
    ensures var before := Run(environment, actions).value;
            Run(environment, actions + [Ask(p)]) == Some(before.(granted := before.granted + [p.change.level]))
  {
    RunsOn(environment, actions, Ask(p));
  }

  // ---------- the audit trail ----------

  /**
   * Every record starts from the level the one before it set, the first from normal; none leaves the
   * level as it was; and each carries the policy of the level it set.
   */
  predicate IsTrail(own: seq<Transition>)
  {
    forall i | 0 <= i < |own| ::
      && own[i].fromLevel == LevelAfter(own[..i])
      && own[i].toLevel != own[i].fromLevel
      && LevelOf(own[i].toLevel).Some?
      && own[i].policy == PolicySnapshot(LevelOf(own[i].toLevel).value)
  }

  /** A record extends a trail exactly when it starts from the level in force. */
  lemma TrailGrows(environment: string, own: seq<Transition>, t: Transition)
    requires IsRecord(environment, t)
    ensures IsTrail(own + [t]) <==> IsTrail(own) && t.fromLevel == LevelAfter(own)
  {
    var longer := own + [t];
    assert longer[..|own|] == own && longer[|own|] == t;
    forall i | 0 <= i < |own|
      ensures longer[..i] == own[..i] && longer[i] == own[i]
    {}
  }

  predicate CommitsOwn(action: Action)
  {
    action.StoreCommits? || action.LoseAcknowledgement?
  }

  /** Nothing lands after its call has ended. */
  predicate NothingLandsLate(actions: seq<Action>)
  {
    forall i | 0 <= i < |actions| :: !actions[i].LandLate?
  }

  /** Between a lost acknowledgement and the next commit of the environment there is always a crash. */
  predicate RestartsInTime(actions: seq<Action>)
  {
    forall i, k | 0 <= i < k < |actions| && actions[i].LoseAcknowledgement? && CommitsOwn(actions[k]) ::
      CrashesBetween(actions, i, k)
  }

  predicate CrashesBetween(actions: seq<Action>, i: int, k: int)
  {
    exists j :: 0 <= i < j < k <= |actions| && actions[j].Crash?
  }

  /** An acknowledgement was lost, and the process has not crashed since. */
  predicate Unrestarted(actions: seq<Action>)
  {
    exists i :: 0 <= i < |actions| && actions[i].LoseAcknowledgement? && !CrashesBetween(actions, i, |actions|)
  }

  lemma CrashesBetweenStep(actions: seq<Action>, x: Action, i: int, k: int)
    requires 0 <= i < |actions| && k <= |actions|
    ensures CrashesBetween(actions + [x], i, k) <==> CrashesBetween(actions, i, k)
    ensures CrashesBetween(actions + [x], i, |actions| + 1) <==> x.Crash? || CrashesBetween(actions, i, |actions|)
  {
    var longer := actions + [x];
    assert longer[|actions|] == x;
    forall j | 0 <= j < |actions|
      ensures longer[j] == actions[j]
    {}
  }

  lemma UnrestartedStep(actions: seq<Action>, x: Action)
    ensures Unrestarted(actions + [x]) <==> x.LoseAcknowledgement? || (!x.Crash? && Unrestarted(actions))
  {
    var longer := actions + [x];
    forall i | 0 <= i < |actions|
      ensures CrashesBetween(longer, i, |longer|) <==> x.Crash? || CrashesBetween(actions, i, |actions|)
    {
      CrashesBetweenStep(actions, x, i, |actions|);
    }
    assert longer[|actions|] == x && !CrashesBetween(longer, |actions|, |longer|);
    assert forall i | 0 <= i < |actions| :: longer[i] == actions[i];
    if Unrestarted(actions) && !x.Crash? {
      var i :| 0 <= i < |actions| && actions[i].LoseAcknowledgement? && !CrashesBetween(actions, i, |actions|);
      assert longer[i].LoseAcknowledgement? && !CrashesBetween(longer, i, |longer|);
    }
  }

  lemma RestartsInTimeStep(actions: seq<Action>, x: Action)
    ensures RestartsInTime(actions + [x]) <==>
            RestartsInTime(actions) && (CommitsOwn(x) ==> !Unrestarted(actions))
  {
    var longer := actions + [x];
    assert longer[|actions|] == x && forall i | 0 <= i < |actions| :: longer[i] == actions[i];
    forall i, k | 0 <= i < k <= |actions|
      ensures CrashesBetween(longer, i, k) <==> CrashesBetween(actions, i, k)
    {
      CrashesBetweenStep(actions, x, i, k);
    }
    if RestartsInTime(longer) {
      forall i, k | 0 <= i < k < |actions| && actions[i].LoseAcknowledgement? && CommitsOwn(actions[k])
        ensures CrashesBetween(actions, i, k)
      {
        assert longer[i].LoseAcknowledgement? && CommitsOwn(longer[k]);
      }
    }
    if CommitsOwn(x) && Unrestarted(actions) {
      var i :| 0 <= i < |actions| && actions[i].LoseAcknowledgement? && !CrashesBetween(actions, i, |actions|);
      assert longer[i].LoseAcknowledgement? && CommitsOwn(longer[|actions|]) && !CrashesBetween(longer, i, |actions|);
    }
  }

  /** While the trail is linked, the state lags, at a wrong level, exactly from a lost acknowledgement to a crash. */
  predicate LagsUntilRestart(own: seq<Transition>, process: Process, lagging: bool, overtaken: bool, unrestarted: bool)
  {
    match process
    case Down => !unrestarted
    case Booting(_) => !unrestarted
    case Persisted(_, _) => !unrestarted && !overtaken
    case _ => (lagging <==> unrestarted) && (lagging ==> LevelValue(process.state.level) != LevelAfter(own))
  }

  ghost predicate Linked(environment: string, w: World, lagging: bool, overtaken: bool, unrestarted: bool, inTime: bool)
  {
    var own := OwnLog(environment, w);
    && (IsTrail(own) <==> inTime)
    && (inTime ==> LagsUntilRestart(own, w.process, lagging, overtaken, unrestarted))
  }

  /** A commit of the process extends the trail exactly when no acknowledgement is outstanding. */
  lemma CommitKeepsLinked(environment: string, w: World, acknowledged: bool,
                          lagging: bool, overtaken: bool, unrestarted: bool, inTime: bool)
    requires Sound(environment, w, lagging, overtaken)
    requires Linked(environment, w, lagging, overtaken, unrestarted, inTime)
    requires Commits(environment, w, acknowledged).Some?
    ensures Linked(environment, Commits(environment, w, acknowledged).value, lagging || !acknowledged, !acknowledged,
                   unrestarted || !acknowledged, inTime && !unrestarted)
  {
    hide Consistent, AreRecords, IsRecord, IsTrail, Record, OwnLog;
    var (own, state, p) := (OwnLog(environment, w), w.process.state, w.process.pending);
    CommitKeepsSound(environment, w, acknowledged, lagging, overtaken);
    ProposalIsRecord(environment, state, p);
    TrailGrows(environment, own, ProposalOf(environment, state, p));
    LevelValuesAreDistinct(state.level, p.change.level);
    var n: nat :| KnowsFirst(own, n, state) && (lagging <==> n != |own|);
    KnownState(environment, own, n, state);
    assert own[..|own|] == own;
  }

  lemma StepKeepsLinked(environment: string, w: World, action: Action,
                        lagging: bool, overtaken: bool, unrestarted: bool, inTime: bool)
    requires Sound(environment, w, lagging, overtaken)
    requires Linked(environment, w, lagging, overtaken, unrestarted, inTime)
    requires Next(environment, w, action).Some? && !action.LandLate?
    ensures Linked(environment, Next(environment, w, action).value,
                   LagsAfter(action, lagging, overtaken), OvertakenAfter(action, overtaken),
                   action.LoseAcknowledgement? || (!action.Crash? && unrestarted),
                   inTime && (CommitsOwn(action) ==> !unrestarted))
  {
    hide Consistent, AreRecords, Tracked, IsTrail, Record, EnvironmentLog;
    match action
    case StoreCommits => CommitKeepsLinked(environment, w, true, lagging, overtaken, unrestarted, inTime);
    case LoseAcknowledgement => CommitKeepsLinked(environment, w, false, lagging, overtaken, unrestarted, inTime);
    case CommitElsewhere(t) => ElsewhereAppendsNothing(environment, w, t);
    case _ =>
  }

  lemma {:induction false} EveryRunIsLinked(environment: string, actions: seq<Action>)
    requires Run(environment, actions).Some? && NothingLandsLate(actions)
    ensures Linked(environment, Run(environment, actions).value, Lagging(actions), Overtaken(actions),
                   Unrestarted(actions), RestartsInTime(actions))
  {
    hide Next, Sound, Lagging, Overtaken, Unrestarted, RestartsInTime;
    if actions == [] {
      NothingOutstandingAtFirst();
    } else {
      hide Linked;
      var earlier, last := actions[..|actions| - 1], actions[|actions| - 1];
      var before := Run(environment, earlier).value;
      EveryRunIsLinked(environment, earlier);
      EveryRunIsSound(environment, earlier);
      StepKeepsLinked(environment, before, last, Lagging(earlier), Overtaken(earlier),
                      Unrestarted(earlier), RestartsInTime(earlier));
      LaggingStep(earlier, last);
      OvertakenStep(earlier, last);
      UnrestartedStep(earlier, last);
      RestartsInTimeStep(earlier, last);
      assert actions == earlier + [last];
    }
  }

  lemma NothingOutstandingAtFirst()
    ensures !Unrestarted([]) && RestartsInTime([])
  {}

  /**
   * The trail of a run is linked if and only if, after every lost acknowledgement, the process crashed
   * before anything else of its environment was committed.
   */
  lemma TrailIsLinkedIffRestartedInTime(environment: string, actions: seq<Action>)
    requires Run(environment, actions).Some? && NothingLandsLate(actions)
    ensures IsTrail(OwnLog(environment, Run(environment, actions).value)) <==> RestartsInTime(actions)
  {
    EveryRunIsLinked(environment, actions);
  }

  /** A commit of the environment, whether the process learns of it or not. */
  predicate Appends(action: Action)
  {
    CommitsOwn(action) || action.LandLate?
  }

  /**
   * What a request is granted at agrees with the level in force: a late record starts from it; and if the
   * state shown lags, so does what the process commits, and what it answers needs no change.
   */
  predicate GrantFits(environment: string, w: World, action: Action, lagging: bool)
  {
    var inForce := LevelAfter(OwnLog(environment, w));
    match action
    case LandLate(record) => record.fromLevel == inForce
    case Ask(p) =>
      lagging && w.process.Serving? && p.change.level == w.process.state.level ==>
        LevelValue(w.process.state.level) == inForce
    case _ =>
      lagging && CommitsOwn(action) && w.process.Persisting? ==> LevelValue(w.process.state.level) == inForce
  }

  ghost predicate FitsAt(environment: string, actions: seq<Action>, k: nat)
    requires k < |actions|
  {
    && Run(environment, actions[..k]).Some?
    && GrantFits(environment, Run(environment, actions[..k]).value, actions[k], Lagging(actions[..k]))
  }

  ghost predicate CommitsFit(environment: string, actions: seq<Action>)
  {
    forall k: nat | k < |actions| && Appends(actions[k]) :: FitsAt(environment, actions, k)
  }

  lemma FitsStep(environment: string, actions: seq<Action>, x: Action)
    requires Run(environment, actions).Some?
    ensures forall k: nat | k < |actions| :: FitsAt(environment, actions + [x], k) <==> FitsAt(environment, actions, k)
    ensures FitsAt(environment, actions + [x], |actions|) <==>
            GrantFits(environment, Run(environment, actions).value, x, Lagging(actions))
  {
    hide Run, Lagging, GrantFits;
    var longer := actions + [x];
    assert longer[|actions|] == x && longer[..|actions|] == actions;
    forall k | 0 <= k < |actions|
      ensures longer[k] == actions[k] && longer[..k] == actions[..k]
    {}
  }

  lemma CommitsFitStep(environment: string, actions: seq<Action>, x: Action)
    requires Run(environment, actions).Some?
    ensures CommitsFit(environment, actions + [x]) <==>
            && CommitsFit(environment, actions)
            && (Appends(x) ==> GrantFits(environment, Run(environment, actions).value, x, Lagging(actions)))
  {
    FitsStep(environment, actions, x);
    hide FitsAt, Run, Lagging, GrantFits;
    var longer := actions + [x];
    assert longer[|actions|] == x && forall i | 0 <= i < |actions| :: longer[i] == actions[i];
    if CommitsFit(environment, longer) {
      forall k: nat | k < |actions| && Appends(actions[k])
        ensures FitsAt(environment, actions, k)
      {
        assert Appends(longer[k]);
      }
      assert Appends(longer[|actions|]) ==> FitsAt(environment, longer, |actions|);
    }
  }

  lemma StepKeepsTrail(environment: string, w: World, action: Action, lagging: bool, overtaken: bool)
    requires Sound(environment, w, lagging, overtaken) && Next(environment, w, action).Some?
    ensures IsTrail(OwnLog(environment, Next(environment, w, action).value)) <==>
            IsTrail(OwnLog(environment, w)) && (Appends(action) ==> GrantFits(environment, w, action, lagging))
  {
    hide Consistent, AreRecords, IsRecord, IsTrail, Record, OwnLog, Tracked;
    var after := Next(environment, w, action).value;
    if CommitsOwn(action) {
      CommitKeepsSound(environment, w, action.StoreCommits?, lagging, overtaken);
      CutOffIsRecord(environment, OwnLog(environment, w), w.process, lagging, overtaken);
      if !lagging {
        CurrentLevel(environment, w, lagging, overtaken);
      }
      TrailGrows(environment, OwnLog(environment, w), ProposalOf(environment, w.process.state, w.process.pending));
    } else if action.LandLate? {
      LandingKeepsSound(environment, w, action.record, lagging, overtaken);
      TrailGrows(environment, OwnLog(environment, w), action.record);
    } else if action.CommitElsewhere? {
      ElsewhereKeepsOwnLog(environment, w, action.record);
    } else {
      SameTableSameLog(environment, w, after);
    }
  }

  /**
   * The trail of any run is linked if and only if every record that landed late started from the level in
   * force, and so did every record committed while the state shown lagged. All other commits link.
   */
  lemma {:induction false} TrailIsLinkedIffCommitsFit(environment: string, actions: seq<Action>)
    requires Run(environment, actions).Some?
    ensures IsTrail(OwnLog(environment, Run(environment, actions).value)) <==> CommitsFit(environment, actions)
  {
    hide Next, Sound, Lagging, Overtaken;
    if actions != [] {
      hide CommitsFit, IsTrail, OwnLog, GrantFits;
      var earlier, last := actions[..|actions| - 1], actions[|actions| - 1];
      assert actions == earlier + [last];
      CommitsFitStep(environment, earlier, last);
      TrailIsLinkedIffCommitsFit(environment, earlier);
      EveryRunIsSound(environment, earlier);
      StepKeepsTrail(environment, Run(environment, earlier).value, last, Lagging(earlier), Overtaken(earlier));
    }
  }

  // ---------- the granted levels ----------

  /** The level last granted. */
  function LastGranted(granted: seq<SheddingLevel>): SheddingLevel
  {
    if granted == [] then Normal else granted[|granted| - 1]
  }

  /** The granted levels with consecutive repeats removed, starting from normal. */
  function Distinct(granted: seq<SheddingLevel>): seq<SheddingLevel>
  {
    if granted == [] then []
    else
      var earlier := granted[..|granted| - 1];
      Distinct(earlier) +
      if granted[|granted| - 1] == LastGranted(earlier) then [] else [granted[|granted| - 1]]
  }

  predicate SetsLevels(own: seq<Transition>, levels: seq<SheddingLevel>)
  {
    |own| == |levels| && forall i | 0 <= i < |own| :: own[i].toLevel == LevelValue(levels[i])
  }

  /** The trail is linked, and sets exactly the granted levels with repeats removed. */
  predicate Replays(environment: string, w: World)
  {
    var own := OwnLog(environment, w);
    IsTrail(own) && SetsLevels(own, Distinct(w.granted))
  }

  ghost predicate ReplaysThroughout(environment: string, actions: seq<Action>)
    requires Run(environment, actions).Some?
  {
    forall n: nat | n <= |actions| ::
      Run(environment, actions[..n]).Some? && Replays(environment, Run(environment, actions[..n]).value)
  }

  /** Step `k` grants a request: it commits, or answers that nothing needs to change. */
  predicate Grants(environment: string, actions: seq<Action>, k: nat)
  {
    && k < |actions|
    && var (before, after) := (Run(environment, actions[..k]), Run(environment, actions[..k + 1]));
       before.Some? && after.Some? && before.value.granted != after.value.granted
  }

  /** Between a lost acknowledgement and the next granted request there is always a crash. */
  predicate RestartsBeforeGranting(environment: string, actions: seq<Action>)
  {
    forall i, k: nat | 0 <= i < k < |actions| && actions[i].LoseAcknowledgement? && Grants(environment, actions, k) ::
      CrashesBetween(actions, i, k)
  }

  lemma GrantsStep(environment: string, actions: seq<Action>, x: Action, k: nat)
    ensures k < |actions| ==> (Grants(environment, actions + [x], k) <==> Grants(environment, actions, k))
    ensures Run(environment, actions + [x]).Some? ==>
              && Run(environment, actions).Some?
              && Next(environment, Run(environment, actions).value, x) == Run(environment, actions + [x])
              && (Grants(environment, actions + [x], |actions|) <==>
                  Run(environment, actions).value.granted != Run(environment, actions + [x]).value.granted)
  {
    hide Next;
    var longer := actions + [x];
    assert longer[..|actions|] == actions && longer[..|actions| + 1] == longer;
    if k < |actions| {
      assert longer[..k] == actions[..k] && longer[..k + 1] == actions[..k + 1];
    }
  }

  lemma RestartsBeforeGrantingStep(environment: string, actions: seq<Action>, x: Action)
    requires Run(environment, actions + [x]).Some?
    ensures Run(environment, actions).Some?
    ensures RestartsBeforeGranting(environment, actions + [x]) <==>
            && RestartsBeforeGranting(environment, actions)
            && (Run(environment, actions).value.granted != Run(environment, actions + [x]).value.granted ==>
                  !Unrestarted(actions))
  {
    hide Run;
    var longer := actions + [x];
    assert longer[|actions|] == x && forall i | 0 <= i < |actions| :: longer[i] == actions[i];
    GrantsStep(environment, actions, x, |actions|);
    forall k: nat | k < |actions|
      ensures Grants(environment, longer, k) <==> Grants(environment, actions, k)
    {
      GrantsStep(environment, actions, x, k);
    }
    hide Grants;
    forall i, k | 0 <= i < k <= |actions|
      ensures CrashesBetween(longer, i, k) <==> CrashesBetween(actions, i, k)
    {
      CrashesBetweenStep(actions, x, i, k);
    }
    if RestartsBeforeGranting(environment, longer) {
      forall i, k: nat | 0 <= i < k < |actions| && actions[i].LoseAcknowledgement? && Grants(environment, actions, k)
        ensures CrashesBetween(actions, i, k)
      {
        assert longer[i].LoseAcknowledgement? && Grants(environment, longer, k);
      }
    }
    if Unrestarted(actions) {
      var i :| 0 <= i < |actions| && actions[i].LoseAcknowledgement? && !CrashesBetween(actions, i, |actions|);
      assert longer[i].LoseAcknowledgement? && !CrashesBetween(longer, i, |actions|);
    }
  }

  ghost predicate GrantsMatch(environment: string, w: World)
  {
    Replays(environment, w) && LevelValue(LastGranted(w.granted)) == LevelAfter(OwnLog(environment, w))
  }

  lemma GrantingMatches(own: seq<Transition>, t: Transition, granted: seq<SheddingLevel>, level: SheddingLevel)
    requires SetsLevels(own, Distinct(granted)) && LevelValue(LastGranted(granted)) == LevelAfter(own)
    ensures t.toLevel == LevelValue(level) && t.toLevel != LevelAfter(own) ==>
              SetsLevels(own + [t], Distinct(granted + [level]))
    ensures SetsLevels(own, Distinct(granted + [level])) <==> LevelValue(level) == LevelAfter(own)
    ensures LastGranted(granted + [level]) == level
  {
    assert (granted + [level])[..|granted|] == granted;
    LevelValuesAreDistinct(LastGranted(granted), level);
    assert Distinct(granted) + [] == Distinct(granted);
  }

  /** While nothing lands late, what a step grants fits exactly when no acknowledgement is outstanding. */
  lemma GrantsFitUnlessOutstanding(environment: string, w: World, action: Action,
                                   lagging: bool, overtaken: bool, unrestarted: bool)
    requires Linked(environment, w, lagging, overtaken, unrestarted, true)
    requires Next(environment, w, action).Some? && !action.LandLate?
    ensures var after := Next(environment, w, action).value;
            GrantFits(environment, w, action, lagging) <==> (w.granted != after.granted ==> !unrestarted)
  {
    hide OwnLog, IsTrail, Record, LevelAfter, LevelValue;
    var after := Next(environment, w, action).value;
    assert CommitsOwn(action) ==> |after.granted| == |w.granted| + 1;
    assert action.Ask? && w.granted != after.granted ==> |after.granted| == |w.granted| + 1;
    assert action.Ask? && action.pending.change.level == w.process.state.level ==> |after.granted| != |w.granted|;
  }

  lemma SameTableSameLog(environment: string, w: World, after: World)
    requires after.table == w.table
    ensures OwnLog(environment, after) == OwnLog(environment, w)
  {}

  lemma ElsewhereKeepsOwnLog(environment: string, w: World, t: Transition)
    requires Durable(environment, w) && Next(environment, w, CommitElsewhere(t)).Some?
    ensures OwnLog(environment, Next(environment, w, CommitElsewhere(t)).value) == OwnLog(environment, w)
  {
    hide Durable, Record, EnvironmentLog;
    ElsewhereAppendsNothing(environment, w, t);
  }

  lemma CurrentLevel(environment: string, w: World, lagging: bool, overtaken: bool)
    requires Sound(environment, w, lagging, overtaken) && (w.process.Serving? || w.process.Persisting?) && !lagging
    ensures LevelValue(w.process.state.level) == LevelAfter(OwnLog(environment, w))
  {
    hide Consistent, AreRecords, InStep, OwnLog;
    var own := OwnLog(environment, w);
    var n: nat :| KnowsFirst(own, n, w.process.state) && (lagging <==> n != |own|);
    KnownState(environment, own, n, w.process.state);
    assert own[..|own|] == own;
  }

  lemma CommitsAreGrants(environment: string, w: World, action: Action)
    requires Next(environment, w, action).Some? && CommitsOwn(action)
    ensures Next(environment, w, action).value.granted != w.granted
  {
    assert |Next(environment, w, action).value.granted| == |w.granted| + 1;
  }

  lemma ReplaysThroughoutStep(environment: string, actions: seq<Action>, x: Action)
    requires Run(environment, actions).Some? && Run(environment, actions + [x]).Some?
    ensures ReplaysThroughout(environment, actions + [x]) <==>
            ReplaysThroughout(environment, actions) && Replays(environment, Run(environment, actions + [x]).value)
  {
    hide Run, Replays;
    var longer := actions + [x];
    assert longer[..|longer|] == longer;
    forall n: nat | n <= |actions|
      ensures longer[..n] == actions[..n]
    {}
    if ReplaysThroughout(environment, longer) {
      forall n: nat | n <= |actions|
        ensures Run(environment, actions[..n]).Some? && Replays(environment, Run(environment, actions[..n]).value)
      {
        assert longer[..n] == actions[..n];
      }
    }
  }

  /**
   * The trail of a run replays at every moment - linked, and setting exactly the granted levels - if and
   * only if, after every lost acknowledgement, the process crashed before another request was granted.
   */
  lemma {:induction false} TrailReplaysIffRestartedBeforeGranting(environment: string, actions: seq<Action>)
    requires Run(environment, actions).Some? && NothingLandsLate(actions)
    ensures ReplaysThroughout(environment, actions) <==> RestartsBeforeGranting(environment, actions)
    ensures RestartsBeforeGranting(environment, actions) ==>
              RestartsInTime(actions) && GrantsMatch(environment, Run(environment, actions).value)
  {
    hide Next, Sound, Linked, Lagging, Overtaken, Unrestarted, RestartsInTime, Replays;
    hide Run, Grants, GrantsMatch, GrantFits, ReplaysThroughout, RestartsBeforeGranting, CrashesBetween;
    if actions == [] {
      NothingGrantedAtFirst(environment);
    } else {
      var earlier, last := actions[..|actions| - 1], actions[|actions| - 1];
      assert actions == earlier + [last];
      RestartsBeforeGrantingStep(environment, earlier, last);
      TrailReplaysIffRestartedBeforeGranting(environment, earlier);
      ReplaysThroughoutStep(environment, earlier, last);
      RestartsInTimeStep(earlier, last);
      GrantsStep(environment, earlier, last, 0);
      if RestartsBeforeGranting(environment, earlier) {
        var before := Run(environment, earlier).value;
        EveryRunIsSound(environment, earlier);
        EveryRunIsLinked(environment, earlier);
        GrantsFitUnlessOutstanding(environment, before, last, Lagging(earlier), Overtaken(earlier),
                                   Unrestarted(earlier));
        FittingStepReplays(environment, before, last, Lagging(earlier), Overtaken(earlier));
        if CommitsOwn(last) {
          CommitsAreGrants(environment, before, last);
        }
      }
    }
  }

  lemma NothingGrantedAtFirst(environment: string)
    ensures ReplaysThroughout(environment, []) && RestartsBeforeGranting(environment, [])
    ensures RestartsInTime([]) && GrantsMatch(environment, Run(environment, []).value)
  {
    var none: seq<Action> := [];
    assert none[..0] == none;
  }

  /** Every request is granted at the level in force. */
  ghost predicate GrantsFit(environment: string, actions: seq<Action>)
  {
    forall k: nat | k < |actions| :: FitsAt(environment, actions, k)
  }

  lemma GrantsFitStep(environment: string, actions: seq<Action>, x: Action)
    requires Run(environment, actions).Some?
    ensures GrantsFit(environment, actions + [x]) <==>
            && GrantsFit(environment, actions)
            && GrantFits(environment, Run(environment, actions).value, x, Lagging(actions))
  {
    FitsStep(environment, actions, x);
    hide FitsAt, Run, Lagging, GrantFits;
  }

  /** A step keeps the grants matched exactly when what it grants agrees with the level in force. */
  lemma FittingStepReplays(environment: string, w: World, action: Action, lagging: bool, overtaken: bool)
    requires Sound(environment, w, lagging, overtaken) && GrantsMatch(environment, w)
    requires Next(environment, w, action).Some?
    ensures var (after, fits) := (Next(environment, w, action).value, GrantFits(environment, w, action, lagging));
            (Replays(environment, after) <==> fits) && (fits ==> GrantsMatch(environment, after))
  {
    hide Consistent, AreRecords, IsRecord, Tracked, IsTrail, SetsLevels, Distinct, LastGranted, Record, OwnLog;
    var (own, after) := (OwnLog(environment, w), Next(environment, w, action).value);
    StepKeepsTrail(environment, w, action, lagging, overtaken);
    match action
    case LandLate(t) =>
      LandingKeepsSound(environment, w, t, lagging, overtaken);
      var level := LevelOf(t.toLevel).value;
      assert after.granted == w.granted + [level] && LevelValue(level) == t.toLevel;
      RecordReplays(environment, w, after, t, level);
    case CommitElsewhere(t) => ElsewhereKeepsOwnLog(environment, w, t);
    case Ask(p) =>
      SameTableSameLog(environment, w, after);
      if p.change.level == w.process.state.level {
        GrantingMatches(own, ProposalOf(environment, w.process.state, p), w.granted, p.change.level);
        if !lagging {
          CurrentLevel(environment, w, lagging, overtaken);
        }
      }
    case StoreCommits => CommitReplays(environment, w, true, lagging, overtaken);
    case LoseAcknowledgement => CommitReplays(environment, w, false, lagging, overtaken);
    case _ => SameTableSameLog(environment, w, after);
  }

  /** A record that extends the trail replays together with the level it was granted for. */
  lemma RecordReplays(environment: string, w: World, after: World, t: Transition, level: SheddingLevel)
    requires GrantsMatch(environment, w) && LevelValue(level) == t.toLevel
    requires OwnLog(environment, after) == OwnLog(environment, w) + [t] && after.granted == w.granted + [level]
    ensures IsTrail(OwnLog(environment, after)) ==> GrantsMatch(environment, after)
  {
    hide SetsLevels, Distinct, LastGranted, OwnLog;
    var own := OwnLog(environment, w);
    GrantingMatches(own, t, w.granted, level);
    if IsTrail(own + [t]) {
      assert (own + [t])[|own|] == t && (own + [t])[..|own|] == own;
    }
    hide IsTrail;
  }

  lemma CommitReplays(environment: string, w: World, acknowledged: bool, lagging: bool, overtaken: bool)
    requires Sound(environment, w, lagging, overtaken) && GrantsMatch(environment, w)
    requires Commits(environment, w, acknowledged).Some?
    ensures var after := Commits(environment, w, acknowledged).value;
            IsTrail(OwnLog(environment, after)) ==> GrantsMatch(environment, after)
  {
    var (state, p) := (w.process.state, w.process.pending);
    CommitKeepsSound(environment, w, acknowledged, lagging, overtaken);
    hide Sound, GrantsMatch, IsTrail, OwnLog, Record;
    RecordReplays(environment, w, Commits(environment, w, acknowledged).value,
                  ProposalOf(environment, state, p), p.change.level);
  }

  /**
   * The trail of any run replays at every moment if and only if every request is granted at the level in
   * force: late landings start from it, and so does what is granted, no-ops included, while the state lags.
   */
  lemma {:induction false} TrailReplaysIffGrantsFit(environment: string, actions: seq<Action>)
    requires Run(environment, actions).Some?
    ensures ReplaysThroughout(environment, actions) <==> GrantsFit(environment, actions)
    ensures GrantsFit(environment, actions) ==> GrantsMatch(environment, Run(environment, actions).value)
  {
    hide Next, Sound, Lagging, Overtaken, Replays, GrantFits, FitsAt;
    hide Run, GrantsMatch, ReplaysThroughout;
    if actions == [] {
      NothingGrantedAtFirst(environment);
    } else {
      hide GrantsFit;
      var earlier, last := actions[..|actions| - 1], actions[|actions| - 1];
      assert actions == earlier + [last];
      GrantsStep(environment, earlier, last, 0);
      GrantsFitStep(environment, earlier, last);
      TrailReplaysIffGrantsFit(environment, earlier);
      ReplaysThroughoutStep(environment, earlier, last);
      if GrantsFit(environment, earlier) {
        EveryRunIsSound(environment, earlier);
        FittingStepReplays(environment, Run(environment, earlier).value, last, Lagging(earlier), Overtaken(earlier));
      }
    }
  }

  /** A call to the store that does not succeed does not commit, neither at once nor later. */
  predicate Acknowledged(actions: seq<Action>)
  {
    forall i | 0 <= i < |actions| :: !Unseen(actions[i])
  }

  /** So wherever every call that fails has failed, the audit trail replays, and the state is never stale. */
  lemma AuditTrailReplays(environment: string, actions: seq<Action>)
    requires Run(environment, actions).Some? && Acknowledged(actions)
    ensures Replays(environment, Run(environment, actions).value)
    ensures Visible(Run(environment, actions).value.process).Some? ==>
              IsCurrent(environment, Run(environment, actions).value)
  {
    hide Run, Replays, IsCurrent;
    assert !Lagging(actions) && RestartsBeforeGranting(environment, actions);
    TrailReplaysIffRestartedBeforeGranting(environment, actions);
    if Visible(Run(environment, actions).value.process).Some? {
      VisibleStateIsCommitted(environment, actions);
    }
  }

  // ---------- lost acknowledgements ----------

  /**
   * After a lost acknowledgement the state shown is not the one in force; it stays behind until the process
   * loads or publishes a later commit (`VisibleStateIsCommitted`). A restart brings it back in step.
   */
  lemma LostAcknowledgementLeavesTheStateBehind(environment: string, actions: seq<Action>, now: int)
    requires Run(environment, actions + [LoseAcknowledgement]).Some?
    ensures var w := Run(environment, actions + [LoseAcknowledgement]).value;
            var restarted := Restarted(environment, w, now);
            && w.process.Serving? && !InStep(OwnLog(environment, w), w.process.state)
            && restarted.Some? && restarted.value.process.Serving?
            && InStep(OwnLog(environment, restarted.value), restarted.value.process.state)
  {
    var longer := actions + [LoseAcknowledgement];
    assert longer[..|longer| - 1] == actions && longer[|longer| - 1] == LoseAcknowledgement;
    LaggingStep(actions, LoseAcknowledgement);
    hide Lagging, Restarted, OwnLog, InStep, Recovered, Record;
    var w := Run(environment, longer).value;
    assert w.process.Serving?;
    hide Run;
    VisibleStateIsCommitted(environment, longer);
    RestartRecoversTheLastRecord(environment, longer, now);
    RestartedIsInStep(environment, w, now);
  }

  lemma RestartedIsInStep(environment: string, w: World, now: int)
    requires var own, after := OwnLog(environment, w), Restarted(environment, w, now);
             && after.Some? && after.value.table == w.table && after.value.process.Serving?
             && var state := after.value.process.state;
                if own == [] then state == NormalState(now)
                else Recovered(Projection(own[|own| - 1])) == Success(state)
    ensures InStep(OwnLog(environment, Restarted(environment, w, now).value),
                   Restarted(environment, w, now).value.process.state)
  {
    hide Restarted, Recovered, EnvironmentLog;
  }

  lemma {:induction false} RunAlong(environment: string, actions: seq<Action>, path: seq<World>)
    requires |path| == |actions| + 1 && path[0] == START
    requires forall k | 0 <= k < |actions| :: Next(environment, path[k], actions[k]) == Some(path[k + 1])
    ensures Run(environment, actions) == Some(path[|actions|])
  {
    hide Next;
    if actions != [] {
      RunAlong(environment, actions[..|actions| - 1], path[..|actions|]);
    }
  }

  lemma FirstRecord(t: Transition)
    requires LevelsInRange(t)
    ensures Record([], t) == Success([Row(t, None)])
    ensures Consistent([Row(t, None)]) && FirstOpen([Row(t, None)], t.environment) == Some(0)
  {
    hide Consistent, Record, FirstOpen, LevelsInRange;
    NothingToLoad(t.environment);
    FirstRecordIsStored(t);
    RecordKeepsConsistency([], t);
  }

  lemma FirstRecordIsStored(t: Transition)
    requires LevelsInRange(t)
    ensures Record([], t) == Success([Row(t, None)])
    ensures FirstOpen([Row(t, None)], t.environment) == Some(0)
  {
    hide LevelsInRange, FirstOpen;
    assert FirstOpen([], t.environment) == None;
    assert Applied([], None, t) == [Row(t, None)];
    assert OpenFor([Row(t, None)][0], t.environment);
  }

  /** The run below: an acknowledgement is lost, and the next call is made from the level still shown. */
  function Lapse(p: Pending, q: Pending): seq<Action>
  {
    [Boot(0), Load, Ask(p), LoseAcknowledgement, Ask(q), StoreCommits]
  }

  lemma LapseRuns(environment: string, p: Pending, q: Pending)
    requires LevelValue(p.change.level) != 0 && LevelValue(q.change.level) != 0
    requires p.eventId != q.eventId && p.now <= q.now
    ensures Run(environment, Lapse(p, q)).Some?
    ensures Run(environment, Lapse(p, q)).value.process == Persisted(NormalState(0), q)
  {
    var normal := NormalState(0);
    var (t, u) := (ProposalOf(environment, normal, p), ProposalOf(environment, normal, q));
    var one := [Row(t, None)];
    FirstRecord(t);
    RecordSucceedsWhen(one, u);
    var two := Record(one, u).value;
    var booting := World([], Booting(normal), [], {});
    var serving := World([], Serving(normal), [], {});
    var asked := World([], Persisting(normal, p), [], {});
    var lapsed := World(one, Serving(normal), [p.change.level], {});
    var again := World(one, Persisting(normal, q), [p.change.level], {});
    var broken := World(two, Persisted(normal, q), [p.change.level] + [q.change.level], {});
    NothingToLoad(environment);
    assert normal.level == Normal;
    hide Record, LoadActive, Consistent, FirstOpen, LevelsInRange, Run, ProposalOf, NormalState;
    assert Next(environment, START, Boot(0)) == Some(booting) && Next(environment, booting, Load) == Some(serving);
    assert Next(environment, serving, Ask(p)) == Some(asked) && Next(environment, lapsed, Ask(q)) == Some(again);
    CommitsAs(environment, asked, false, one);
    assert [] + [p.change.level] == [p.change.level];
    CommitsAs(environment, again, true, two);
    hide Next;
    RunAlong(environment, Lapse(p, q), [START, booting, serving, asked, lapsed, again, broken]);
  }

  lemma CommitsAs(environment: string, w: World, acknowledged: bool, after: Table)
    requires w.process.Persisting?
    requires Record(w.table, ProposalOf(environment, w.process.state, w.process.pending)) == Success(after)
    ensures var (state, pending) := (w.process.state, w.process.pending);
            Next(environment, w, if acknowledged then StoreCommits else LoseAcknowledgement) ==
            Some(World(after, if acknowledged then Persisted(state, pending) else Serving(state),
                       w.granted + [pending.change.level], w.abandoned))
  {
    hide Record, ProposalOf;
  }

  lemma NothingToLoad(environment: string)
    ensures Consistent([]) && LoadActive([], environment) == None
  {}

  /**
   * It breaks the trail: both records start from normal. The process shows a state that is not current
   * from the lost acknowledgement until it publishes the second change.
   */
  lemma LostAcknowledgementBreaksTheTrail(environment: string) returns (actions: seq<Action>)
    ensures Run(environment, actions).Some? && NothingLandsLate(actions)
    ensures !RestartsInTime(actions)
    ensures !IsTrail(OwnLog(environment, Run(environment, actions).value))
    ensures Visible(Run(environment, actions).value.process).Some?
    ensures !IsCurrent(environment, Run(environment, actions).value)
  {
    var audit := Audit(0, "operator", "{}", None, None);
    var p := Pending(Change(DisableRecommendations, "manual", "first", audit), 1, 1);
    var q := Pending(Change(CachedNoncritical, "manual", "second", audit), 2, 2);
    hide Run;
    actions := Lapse(p, q);
    LapseRuns(environment, p, q);
    assert actions[3].LoseAcknowledgement? && CommitsOwn(actions[5]) && !CrashesBetween(actions, 3, 5);
    assert Unseen(actions[3]) && NotCaughtUp(actions, 3);
    hide IsTrail, IsCurrent, OwnLog, InStep, RestartsInTime, CrashesBetween, NotCaughtUp;
    TrailIsLinkedIffRestartedInTime(environment, actions);
    VisibleStateIsCommitted(environment, actions);
  }
}
