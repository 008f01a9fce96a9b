/**
 The event bus (src/service/bus.rs) over the transition guard (src/service/transitions.rs): the one place where
 lifecycle state changes. An event is either accepted, with its effect on the database, or rejected with none.
 */
module Bus {
  import opened Outcomes
  import opened Schema
  import S = Statements
  import opened Repo

  datatype Event =
    | TaskStarted(spec: SpecId, task: TaskId)
    | TaskBlocked(spec: SpecId, task: TaskId, blockedReason: BlockedReason)
    | TaskUnblocked(spec: SpecId, task: TaskId)
    | TaskPassed(spec: SpecId, task: TaskId)
    | TaskCanceled(spec: SpecId, task: TaskId, cancellation: CancellationReason)
    | SpecStarted(spec: SpecId)
    | SpecCompleted(spec: SpecId)
    | SpecFailed(spec: SpecId, failure: FailureReason)
    | SpecCanceled(spec: SpecId, cancellation: CancellationReason)
    | PhaseStarted(run: RunId, spec: SpecId, owner: Option<TaskId>, phase: string, iteration: nat, provider: string)
    | PhaseCompleted(run: RunId, verdict: Verdict, tokensIn: nat, tokensOut: nat)
    | DecisionMade(decision: DecisionId, row: DecisionRow)
    | ObservedOnly

  datatype BusError = Persist(error: S.RepoError) | IllegalTransition

  datatype Emission = Accepted(db: Db) | Rejected(error: BusError)

  function Emitted(db: Db, e: Emission): Db {
    if e.Accepted? then e.db else db
  }

  // ----- The guard -----

  predicate LegalTask(from: TaskState, to: TaskState) {
    || (from.NotStarted? && to.Active?)
    || (from.Active? && (to.Blocked? || to.Passing?))
    || (from.Blocked? && to.Active?)
    || (!from.Terminal() && to.TaskWasCanceled?)
  }

  predicate LegalSpec(from: SpecStatus, to: SpecStatus) {
    || (from.Queued? && (to.Running? || to.SpecWasCanceled?))
    || (from.Running? && to.Terminal())
  }

  // ----- Persisting -----

  function Persisted(o: S.Outcome): Emission {
    if o.Done? then Accepted(o.db) else Rejected(Persist(o.error))
  }

  function TransitionTask(db: Db, t: TaskId, to: TaskState, reason: Option<TerminalReason>,
                          blocked: Option<BlockedReason>, now: Time): Emission {
    if t !in db.tasks then Rejected(Persist(S.NotFound))
    else if !LegalTask(db.tasks[t].state, to) then Rejected(IllegalTransition)
    else Persisted(S.UpdateState(db, t, to, reason, blocked, now))
  }

  const SWEPT := Some(Cancellation(ParentSpecCanceled))

  /** Every task of the spec that is still `active` is canceled with its spec; every other task is left alone. */
  function StrandedSwept(tasks: map<TaskId, TaskRow>, s: SpecId, now: Time): map<TaskId, TaskRow> {
    map t | t in tasks ::
      if tasks[t].specId == s && tasks[t].state.Active? then S.StateWritten(tasks[t], TaskWasCanceled, SWEPT, None, now)
      else tasks[t]
  }

  function TransitionSpec(db: Db, s: SpecId, to: SpecStatus, reason: Option<TerminalReason>, now: Time): Emission {
    if s !in db.specRuntime then Rejected(Persist(S.NotFound))
    else if !LegalSpec(db.specRuntime[s].status, to) then Rejected(IllegalTransition)
    else
      var o := S.UpdateStatus(db, s, to, reason, now);
      if o.Refused? then Rejected(Persist(o.error))
      else if to.Failed? || to.SpecWasCanceled? then Accepted(o.db.(tasks := StrandedSwept(o.db.tasks, s, now)))
      else Accepted(o.db)
  }

  function FilesTouched(v: Verdict): seq<string> {
    if v.outcome.VPassing? then v.outcome.files else []
  }

  function Emit(db: Db, e: Event, now: Time): Emission {
    match e
    case TaskStarted(_, t) => TransitionTask(db, t, Active, None, None, now)
    case TaskBlocked(_, t, reason) => TransitionTask(db, t, Blocked, None, Some(reason), now)
    case TaskUnblocked(_, t) => TransitionTask(db, t, Active, None, None, now)
    case TaskPassed(_, t) => TransitionTask(db, t, Passing, None, None, now)
    case TaskCanceled(_, t, reason) => TransitionTask(db, t, TaskWasCanceled, Some(Cancellation(reason)), None, now)
    case SpecStarted(s) => TransitionSpec(db, s, Running, None, now)
    case SpecCompleted(s) => TransitionSpec(db, s, Completed, None, now)
    case SpecFailed(s, reason) => TransitionSpec(db, s, Failed, Some(Failure(reason)), now)
    case SpecCanceled(s, reason) => TransitionSpec(db, s, SpecWasCanceled, Some(Cancellation(reason)), now)
    case PhaseStarted(r, s, owner, phase, iteration, provider) =>
      if s !in db.specRuntime then Rejected(Persist(S.NotFound))
      else Persisted(
        S.InsertStart(db, r, s, owner, phase, iteration, db.specRuntime[s].currentVersion, provider, now))
    case PhaseCompleted(r, verdict, tokensIn, tokensOut) =>
      Persisted(S.UpdateEnd(db, r, verdict, FilesTouched(verdict), tokensIn, tokensOut, now))
    case DecisionMade(d, row) => Persisted(S.InsertDecision(db, d, row))
    case ObservedOnly => Accepted(db)
  }

  // ----- The bus on the live store -----

  method TransitionTaskRow(store: Store, t: TaskId, to: TaskState, reason: Option<TerminalReason>,
                           blocked: Option<BlockedReason>, now: Time)
    returns (r: Result<(), BusError>)
    modifies store
    ensures var o := TransitionTask(old(store.Contents()), t, to, reason, blocked, now);
            store.Contents() == Emitted(old(store.Contents()), o) &&
            r == (if o.Accepted? then Ok(()) else Err(o.error))
  {
    if t !in store.tasks { return Err(Persist(S.NotFound)); }
    if !LegalTask(store.tasks[t].state, to) { return Err(IllegalTransition); }
    var written := store.UpdateState(t, to, reason, blocked, now);
    r := if written.Ok? then Ok(()) else Err(Persist(written.error));
  }

  /** The sweep re-checks the guard task by task, in whatever order the rows come; the guard never objects. */
  method CancelStrandedActiveTasks(store: Store, s: SpecId, now: Time)
    modifies store
    ensures store.Contents() == old(store.Contents()).(tasks := StrandedSwept(old(store.tasks), s, now))
  {
    var todo := set t | t in store.tasks && store.tasks[t].specId == s;
    ghost var all := todo;
    ghost var before := store.Contents();
    while todo != {}
      invariant todo <= all
      invariant store.Contents() == before.(tasks := store.tasks) && store.tasks.Keys == before.tasks.Keys
      invariant forall t :: t in before.tasks ==>
                  store.tasks[t] == if t in all && t !in todo then StrandedSwept(before.tasks, s, now)[t]
                                    else before.tasks[t]
    {
      var t :| t in todo;
      if store.tasks[t].state.Active? {
        var swept := TransitionTaskRow(store, t, TaskWasCanceled, SWEPT, None, now);
        assert swept.Ok?;
      }
      todo := todo - {t};
    }
    assert store.tasks == StrandedSwept(before.tasks, s, now);
  }

  method TransitionSpecRow(store: Store, s: SpecId, to: SpecStatus, reason: Option<TerminalReason>, now: Time)
    returns (r: Result<(), BusError>)
    modifies store
    ensures var o := TransitionSpec(old(store.Contents()), s, to, reason, now);
            store.Contents() == Emitted(old(store.Contents()), o) &&
            r == (if o.Accepted? then Ok(()) else Err(o.error))
  {
    if s !in store.specRuntime { return Err(Persist(S.NotFound)); }
    if !LegalSpec(store.specRuntime[s].status, to) { return Err(IllegalTransition); }
    var written := store.UpdateStatus(s, to, reason, now);
    if written.Err? { return Err(Persist(written.error)); }
    if to.Failed? || to.SpecWasCanceled? {
      CancelStrandedActiveTasks(store, s, now);
    }
    r := Ok(());
  }

  function Answer(e: Emission): Result<(), BusError> {
    if e.Accepted? then Ok(()) else Err(e.error)
  }

  /** `persist`: one arm per event, no arm for the rest. */
  method EmitEvent(store: Store, e: Event, now: Time) returns (r: Result<(), BusError>)
    modifies store
    ensures store.Contents() == Emitted(old(store.Contents()), Emit(old(store.Contents()), e, now))
    ensures r == Answer(Emit(old(store.Contents()), e, now))
  {
    match e
    case TaskStarted(_, t) => r := TransitionTaskRow(store, t, Active, None, None, now);
    case TaskBlocked(_, t, reason) => r := TransitionTaskRow(store, t, Blocked, None, Some(reason), now);
    case TaskUnblocked(_, t) => r := TransitionTaskRow(store, t, Active, None, None, now);
    case TaskPassed(_, t) => r := TransitionTaskRow(store, t, Passing, None, None, now);
    case TaskCanceled(_, t, reason) =>
      r := TransitionTaskRow(store, t, TaskWasCanceled, Some(Cancellation(reason)), None, now);
    case SpecStarted(s) => r := TransitionSpecRow(store, s, Running, None, now);
    case SpecCompleted(s) => r := TransitionSpecRow(store, s, Completed, None, now);
    case SpecFailed(s, reason) => r := TransitionSpecRow(store, s, Failed, Some(Failure(reason)), now);
    case SpecCanceled(s, reason) => r := TransitionSpecRow(store, s, SpecWasCanceled, Some(Cancellation(reason)), now);
    case PhaseStarted(_, _, _, _, _, _) => r := PersistRow(store, e, now);
    case PhaseCompleted(_, _, _, _) => r := PersistRow(store, e, now);
    case DecisionMade(_, _) => r := PersistRow(store, e, now);
    case ObservedOnly => r := Ok(());
  }

  /** The observational rows the bus owns: `phase_runs` and `decisions`. */
  method PersistRow(store: Store, e: Event, now: Time) returns (r: Result<(), BusError>)
    requires e.PhaseStarted? || e.PhaseCompleted? || e.DecisionMade?
    modifies store
    ensures store.Contents() == Emitted(old(store.Contents()), Emit(old(store.Contents()), e, now))
    ensures r == Answer(Emit(old(store.Contents()), e, now))
  {
    var written: Result<(), S.RepoError>;
    match e {
      case PhaseStarted(run, s, owner, phase, iteration, provider) =>
        if s !in store.specRuntime { return Err(Persist(S.NotFound)); }
        written := store.InsertStart(
          run, s, owner, phase, iteration, store.specRuntime[s].currentVersion, provider, now);
      case PhaseCompleted(run, verdict, tokensIn, tokensOut) =>
        written := store.UpdateEnd(run, verdict, FilesTouched(verdict), tokensIn, tokensOut, now);
      case DecisionMade(d, row) =>
        written := store.InsertDecision(d, row);
    }
    r := if written.Ok? then Ok(()) else Err(Persist(written.error));
  }

  // ----- What every accepted event keeps -----

  /**
   The reason columns of a task say what its state says. The schema has no CHECK for this; the bus keeps it because
   each transition writes both columns.
   */
  ghost predicate TaskReasonsAgree(row: TaskRow) {
    && (row.blockedReason.Some? <==> row.state.Blocked?)
    && (row.cancellationReason.Some? <==> row.state.TaskWasCanceled?)
    && (row.state.Active? || row.state.Blocked? || row.state.Passing? ==> row.startedAt.Some?)
    && (row.completedAt.Some? <==> row.state.Terminal())
  }

  ghost predicate AllReasonsAgree(db: Db) {
    forall t :: t in db.tasks ==> TaskReasonsAgree(db.tasks[t])
  }

  lemma EmitKeepsReasons(db: Db, e: Event, now: Time)
    requires AllReasonsAgree(db)
    ensures AllReasonsAgree(Emitted(db, Emit(db, e, now)))
  {}

  /** A spec has a completion time exactly when its status is terminal, and a start time once it has run. */
  ghost predicate SpecStampsAgree(row: SpecRow) {
    && (row.completedAt.Some? <==> row.status.Terminal())
    && (row.status.Running? || row.status.Completed? || row.status.Failed? ==> row.startedAt.Some?)
    && (row.status.Queued? ==> row.startedAt.None?)
  }

  lemma EmitKeepsSpecStamps(db: Db, e: Event, now: Time)
    requires forall s :: s in db.specRuntime ==> SpecStampsAgree(db.specRuntime[s])
    ensures var after := Emitted(db, Emit(db, e, now));
            forall s :: s in after.specRuntime ==> SpecStampsAgree(after.specRuntime[s])
  {}

  /** No event moves a spec back to `queued`, removes it, or takes it out of a terminal status. */
  lemma EmitKeepsSpecProgress(db: Db, e: Event, now: Time, s: SpecId)
    requires s in db.specRuntime
    ensures var after := Emitted(db, Emit(db, e, now));
            && s in after.specRuntime
            && (db.specRuntime[s].status.Terminal() ==> after.specRuntime[s].status == db.specRuntime[s].status)
            && (!db.specRuntime[s].status.Queued? ==> !after.specRuntime[s].status.Queued?)
  {}

  // ----- Emits from several producers at once -----

  /**
   The statements an emit sends. No transaction spans them and none of them repeats the guard: an emit reads a row,
   checks the transition in memory, and then writes whatever the row has become. Other emits may come in between.
   */
  datatype Statement = OfEvent(e: Event, at: Time) | OfSweep(task: TaskId, at: Time)

  function SpecMove(e: Event): Option<(SpecId, SpecStatus, Option<TerminalReason>)> {
    match e
    case SpecStarted(s) => Some((s, Running, None))
    case SpecCompleted(s) => Some((s, Completed, None))
    case SpecFailed(s, reason) => Some((s, Failed, Some(Failure(reason))))
    case SpecCanceled(s, reason) => Some((s, SpecWasCanceled, Some(Cancellation(reason))))
    case _ => None
  }

  function TaskMove(e: Event): Option<(TaskId, TaskState, Option<TerminalReason>, Option<BlockedReason>)> {
    match e
    case TaskStarted(_, t) => Some((t, Active, None, None))
    case TaskBlocked(_, t, reason) => Some((t, Blocked, None, Some(reason)))
    case TaskUnblocked(_, t) => Some((t, Active, None, None))
    case TaskPassed(_, t) => Some((t, Passing, None, None))
    case TaskCanceled(_, t, reason) => Some((t, TaskWasCanceled, Some(Cancellation(reason)), None))
    case _ => None
  }

  /** The guard of a statement, had it been checked now. Rows that are only observed have none. */
  predicate GuardHolds(db: Db, w: Statement) {
    match w
    case OfSweep(t, _) => t in db.tasks && LegalTask(db.tasks[t].state, TaskWasCanceled)
    case OfEvent(e, _) =>
      && (SpecMove(e).Some? ==>
            var move := SpecMove(e).value;
            move.0 in db.specRuntime && LegalSpec(db.specRuntime[move.0].status, move.1))
      && (TaskMove(e).Some? ==>
            var move := TaskMove(e).value;
            move.0 in db.tasks && LegalTask(db.tasks[move.0].state, move.1))
  }

  /** The statement itself, which asks no guard. */
  function Sent(db: Db, w: Statement): S.Outcome {
    match w
    case OfSweep(t, at) => S.UpdateState(db, t, TaskWasCanceled, SWEPT, None, at)
    case OfEvent(e, at) =>
      if SpecMove(e).Some? then
        var move := SpecMove(e).value;
        S.UpdateStatus(db, move.0, move.1, move.2, at)
      else if TaskMove(e).Some? then
        var move := TaskMove(e).value;
        S.UpdateState(db, move.0, move.1, move.2, move.3, at)
      else
        match Emit(db, e, at)
        case Accepted(after) => S.Done(after)
        case Rejected(error) => S.Refused(if error.Persist? then error.error else S.NotFound)
  }

  function Written(db: Db, w: Statement): Db {
    S.After(db, Sent(db, w))
  }

  function WrittenAll(db: Db, ws: seq<Statement>): Db
    decreases |ws|
  {
    if ws == [] then db else WrittenAll(Written(db, ws[0]), ws[1..])
  }

  method SendStatement(store: Store, w: Statement)
    modifies store
    ensures store.Contents() == Written(old(store.Contents()), w)
  {
    match w
    case OfSweep(t, at) => var ignored := store.UpdateState(t, TaskWasCanceled, SWEPT, None, at);
    case OfEvent(e, at) =>
      if SpecMove(e).Some? {
        var move := SpecMove(e).value;
        var ignored := store.UpdateStatus(move.0, move.1, move.2, at);
      } else if TaskMove(e).Some? {
        var move := TaskMove(e).value;
        var ignored := store.UpdateState(move.0, move.1, move.2, move.3, at);
      } else {
        var ignored := EmitEvent(store, e, at);
      }
  }

  method SendStatements(store: Store, ws: seq<Statement>)
    modifies store
    ensures store.Contents() == WrittenAll(old(store.Contents()), ws)
  {
    hide Written;
    for i := 0 to |ws|
      invariant WrittenAll(store.Contents(), ws[i..]) == WrittenAll(old(store.Contents()), ws)
    {
      assert ws[i..][1..] == ws[i + 1..];
      SendStatement(store, ws[i]);
    }
  }

  predicate WritesSpec(w: Statement, s: SpecId) {
    w.OfEvent? && SpecMove(w.e).Some? && SpecMove(w.e).value.0 == s
  }

  /** What one statement does to the status of a spec: it sets its own target, whatever it finds. */
  function StatusAfter(w: Statement, s: SpecId, before: SpecStatus): SpecStatus {
    if WritesSpec(w, s) then SpecMove(w.e).value.1 else before
  }

  function TaskTarget(w: Statement): Option<(TaskId, TaskState, Option<TerminalReason>, Option<BlockedReason>)> {
    match w
    case OfSweep(t, _) => Some((t, TaskWasCanceled, SWEPT, None))
    case OfEvent(e, _) => TaskMove(e)
  }

  function SpecTarget(w: Statement): Option<(SpecId, SpecStatus, Option<TerminalReason>)> {
    if w.OfEvent? then SpecMove(w.e) else None
  }

  lemma RowEventKeepsLifecycle(db: Db, e: Event, at: Time)
    requires SpecMove(e).None? && TaskMove(e).None?
    ensures var after := Emitted(db, Emit(db, e, at)); after.specRuntime == db.specRuntime && after.tasks == db.tasks
  {}

  /** A statement writes one row of one table, if that row is there. */
  lemma WrittenSpecRow(db: Db, w: Statement)
    ensures SpecTarget(w).None? ==> Written(db, w).specRuntime == db.specRuntime
    ensures SpecTarget(w).Some? ==>
              var (s, to, reason) := SpecTarget(w).value;
              if s in db.specRuntime then
                Written(db, w) == db.(specRuntime :=
                  db.specRuntime[s := S.StatusWritten(db.specRuntime[s], to, reason, w.at)])
              else Written(db, w) == db
  {
    if w.OfEvent? && SpecMove(w.e).None? && TaskMove(w.e).None? {
      RowEventKeepsLifecycle(db, w.e, w.at);
      hide Emit;
    }
  }

  lemma WrittenTaskRow(db: Db, w: Statement)
    ensures TaskTarget(w).None? ==> Written(db, w).tasks == db.tasks
    ensures TaskTarget(w).Some? ==>
              var (t, to, reason, blocked) := TaskTarget(w).value;
              if t in db.tasks then
                Written(db, w) == db.(tasks := db.tasks[t := S.StateWritten(db.tasks[t], to, reason, blocked, w.at)])
              else Written(db, w) == db
  {
    if w.OfEvent? && SpecMove(w.e).None? && TaskMove(w.e).None? {
      RowEventKeepsLifecycle(db, w.e, w.at);
      hide Emit;
    }
  }

  lemma WrittenStatus(db: Db, w: Statement, s: SpecId)
    requires s in db.specRuntime
    ensures s in Written(db, w).specRuntime
    ensures Written(db, w).specRuntime[s].status == StatusAfter(w, s, db.specRuntime[s].status)
  {
    WrittenSpecRow(db, w);
    hide Written;
  }

  ghost predicate AllStampsAgree(db: Db) {
    && AllReasonsAgree(db)
    && forall s :: s in db.specRuntime ==> SpecStampsAgree(db.specRuntime[s])
  }

  /** Reasons and stamps go on agreeing with states as long as every statement lands where its guard still holds. */
  lemma GuardedStatementKeepsStamps(db: Db, w: Statement)
    requires GuardHolds(db, w) && AllStampsAgree(db)
    ensures AllStampsAgree(Written(db, w))
  {
    WrittenSpecRow(db, w);
    WrittenTaskRow(db, w);
    hide Written;
  }

  /** The one way in which a late statement leaves a spec row at odds with itself: a start that lands on a terminal row. */
  lemma LateStartSpoilsStamps(row: SpecRow, to: SpecStatus, reason: Option<TerminalReason>, at: Time)
    requires SpecStampsAgree(row) && !to.Queued? && (to.Completed? || to.Failed? ==> row.startedAt.Some?)
    ensures SpecStampsAgree(S.StatusWritten(row, to, reason, at)) <==> !(to.Running? && row.status.Terminal())
  {}

  /** A reason column is set exactly for the state it explains, as every event has it. */
  predicate ReasonsFit(to: TaskState, reason: Option<TerminalReason>, blocked: Option<BlockedReason>) {
    && (S.CancellationOf(reason).Some? <==> to.TaskWasCanceled?)
    && (blocked.Some? <==> to.Blocked?)
  }

  lemma TargetsFit(w: Statement)
    ensures TaskTarget(w).Some? ==>
              var (_, to, reason, blocked) := TaskTarget(w).value; ReasonsFit(to, reason, blocked)
  {}

  /** And a task row: any target that is not terminal, landing on a row that is. */
  lemma LateWriteSpoilsTaskRow(row: TaskRow, to: TaskState, reason: Option<TerminalReason>,
                               blocked: Option<BlockedReason>, at: Time)
    requires TaskReasonsAgree(row) && ReasonsFit(to, reason, blocked)
    requires to.Blocked? || to.Passing? ==> row.startedAt.Some?
    ensures TaskReasonsAgree(S.StateWritten(row, to, reason, blocked, at)) <==> !(row.state.Terminal() && !to.Terminal())
  {}

  /**
   An unblock and a cancel that both read the blocked task: written after the cancel, the unblock leaves an active task
   with a completion time.
   */
  lemma LateUnblockSpoilsTask(db: Db, t: TaskId, reason: CancellationReason, at: Time)
    requires t in db.tasks && db.tasks[t].state.Blocked? && TaskReasonsAgree(db.tasks[t])
    ensures var cancel, unblock :=
              OfEvent(TaskCanceled(db.tasks[t].specId, t, reason), at), OfEvent(TaskUnblocked(db.tasks[t].specId, t), at);
            var after := Written(Written(db, cancel), unblock);
            && GuardHolds(db, cancel) && GuardHolds(db, unblock)
            && t in after.tasks && after.tasks[t].state.Active? && after.tasks[t].completedAt.Some?
            && !TaskReasonsAgree(after.tasks[t])
  {
    var cancel := OfEvent(TaskCanceled(db.tasks[t].specId, t, reason), at);
    WrittenTaskRow(db, cancel);
    WrittenTaskRow(Written(db, cancel), OfEvent(TaskUnblocked(db.tasks[t].specId, t), at));
    hide Written;
  }

  /** An active task has started, and nothing explains why it should not be. */
  predicate ActiveRowAgrees(row: TaskRow) {
    row.state.Active? ==> row.startedAt.Some? && row.blockedReason.None? && row.cancellationReason.None?
  }

  ghost predicate ActiveRowsAgree(db: Db) {
    forall t :: t in db.tasks ==> ActiveRowAgrees(db.tasks[t])
  }

  /** This much every statement keeps, wherever it lands. */
  lemma StatementKeepsActiveRows(db: Db, w: Statement)
    requires ActiveRowsAgree(db)
    ensures ActiveRowsAgree(Written(db, w))
  {
    WrittenTaskRow(db, w);
    TargetsFit(w);
    hide Written;
  }

  // ----- What statements keep -----

  function LastStatus(ws: seq<Statement>, s: SpecId, before: SpecStatus): SpecStatus
    decreases |ws|
  {
    if ws == [] then before else LastStatus(ws[1..], s, StatusAfter(ws[0], s, before))
  }

  lemma {:induction false} WrittenAllStatus(db: Db, ws: seq<Statement>, s: SpecId)
    requires s in db.specRuntime
    ensures s in WrittenAll(db, ws).specRuntime
    ensures WrittenAll(db, ws).specRuntime[s].status == LastStatus(ws, s, db.specRuntime[s].status)
    decreases |ws|
  {
    hide Written, StatusAfter;
    if ws != [] {
      WrittenStatus(db, ws[0], s);
      WrittenAllStatus(Written(db, ws[0]), ws[1..], s);
    }
  }

  /** Every statement about the spec finds its guard still holding when it lands. */
  predicate LandOnGuard(db: Db, ws: seq<Statement>, s: SpecId)
    decreases |ws|
  {
    ws == [] || ((WritesSpec(ws[0], s) ==> GuardHolds(db, ws[0])) && LandOnGuard(Written(db, ws[0]), ws[1..], s))
  }

  lemma NoGuardFromTerminal(db: Db, w: Statement, s: SpecId)
    requires s in db.specRuntime && db.specRuntime[s].status.Terminal() && WritesSpec(w, s)
    ensures !GuardHolds(db, w)
  {}

  /** A terminal status has no exit as long as no statement about the spec lands where its guard no longer holds. */
  lemma {:induction false} TerminalIsForever(db: Db, ws: seq<Statement>, s: SpecId)
    requires s in db.specRuntime && db.specRuntime[s].status.Terminal() && LandOnGuard(db, ws, s)
    ensures s in WrittenAll(db, ws).specRuntime
    ensures WrittenAll(db, ws).specRuntime[s].status == db.specRuntime[s].status
    decreases |ws|
  {
    hide Written, GuardHolds;
    if ws != [] {
      WrittenStatus(db, ws[0], s);
      if WritesSpec(ws[0], s) {
        NoGuardFromTerminal(db, ws[0], s);
      } else {
        TerminalIsForever(Written(db, ws[0]), ws[1..], s);
      }
    }
  }

  /** Once a spec has failed or been canceled, the same emit has left none of its tasks active. */
  lemma TerminalSpecHasNoActiveTask(db: Db, e: Event, now: Time)
    requires e.SpecFailed? || e.SpecCanceled?
    requires Emit(db, e, now).Accepted?
    ensures var after := Emit(db, e, now).db;
            && (forall t :: t in after.tasks && after.tasks[t].specId == e.spec ==> !after.tasks[t].state.Active?)
            && (forall t :: t in db.tasks && (db.tasks[t].specId != e.spec || !db.tasks[t].state.Active?) ==>
                  after.tasks[t] == db.tasks[t])
  {}
}
