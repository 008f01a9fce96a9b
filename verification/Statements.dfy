/**
 The repo layer as functions from database to database: one function per repo operation, with the constraint that
 stops it. SQLite reports a CHECK before a UNIQUE key and a UNIQUE key before a foreign key; the functions test in
 that order.
 */
module Statements {
  import opened Outcomes
  import opened Schema

  datatype RepoError =
    | Duplicate
    | NotFound
    | SpecNotTerminal(status: SpecStatus)
    | ForeignKeyViolation
    | CheckViolation

  /** A refused operation leaves the database as it was. */
  datatype Outcome = Done(db: Db) | Refused(error: RepoError)

  function After(db: Db, o: Outcome): Db {
    if o.Done? then o.db else db
  }

  function Reply(o: Outcome): Result<(), RepoError> {
    if o.Done? then Ok(()) else Err(o.error)
  }

  function Coalesce<T>(first: Option<T>, second: Option<T>): Option<T> {
    if first.Some? then first else second
  }

  // ----- specs, spec_versions -----

  function InsertSpec(db: Db, s: SpecId, now: Time): Outcome {
    if s in db.specs then Refused(Duplicate) else Done(db.(specs := db.specs[s := now]))
  }

  function AppendVersion(db: Db, s: SpecId, version: int, snapshot: SnapshotRow): Outcome {
    if (s, version) in db.versions then Refused(Duplicate)
    else if s !in db.specs then Refused(ForeignKeyViolation)
    else Done(db.(versions := db.versions[(s, version) := snapshot]))
  }

  // ----- spec_runtime -----

  function QueuedRow(version: int): SpecRow {
    SpecRow(version, Queued, None, None, None, None, 0, 0)
  }

  function InitializeSpec(db: Db, s: SpecId, version: int): Outcome {
    if s in db.specRuntime then Refused(Duplicate)
    else if s !in db.specs || (s, version) !in db.versions then Refused(ForeignKeyViolation)
    else Done(db.(specRuntime := db.specRuntime[s := QueuedRow(version)]))
  }

  function FailureOf(reason: Option<TerminalReason>): Option<FailureReason> {
    if reason.Some? && reason.value.Failure? then Some(reason.value.failure) else None
  }

  function CancellationOf(reason: Option<TerminalReason>): Option<CancellationReason> {
    if reason.Some? && reason.value.Cancellation? then Some(reason.value.cancellation) else None
  }

  function StatusWritten(row: SpecRow, status: SpecStatus, reason: Option<TerminalReason>, now: Time): SpecRow {
    row.(status := status, failureReason := FailureOf(reason), cancellationReason := CancellationOf(reason),
         startedAt := Coalesce(row.startedAt, if status.Running? then Some(now) else None),
         completedAt := Coalesce(row.completedAt, if status.Terminal() then Some(now) else None))
  }

  function UpdateStatus(db: Db, s: SpecId, status: SpecStatus, reason: Option<TerminalReason>, now: Time): Outcome {
    if s !in db.specRuntime then Refused(NotFound)
    else
      var row := StatusWritten(db.specRuntime[s], status, reason, now);
      if !StatusReasonCheck(row) then Refused(CheckViolation)
      else Done(db.(specRuntime := db.specRuntime[s := row]))
  }

  function UpdateCurrentVersion(db: Db, s: SpecId, version: int): Outcome {
    if s !in db.specRuntime then Refused(NotFound)
    else if (s, version) !in db.versions then Refused(ForeignKeyViolation)
    else Done(db.(specRuntime := db.specRuntime[s := db.specRuntime[s].(currentVersion := version)]))
  }

  datatype SpecCounter = SpecPlanCritique | SpecLevelReview

  function SpecBumped(row: SpecRow, counter: SpecCounter): SpecRow {
    match counter
    case SpecPlanCritique => row.(iterPlanCritique := row.iterPlanCritique + 1)
    case SpecLevelReview => row.(iterSpecReview := row.iterSpecReview + 1)
  }

  function IncrementSpecIteration(db: Db, s: SpecId, counter: SpecCounter): Outcome {
    if s !in db.specRuntime then Refused(NotFound)
    else Done(db.(specRuntime := db.specRuntime[s := SpecBumped(db.specRuntime[s], counter)]))
  }

  // ----- task_runtime -----

  function FreshTask(s: SpecId, taskRef: Option<string>): TaskRow {
    TaskRow(s, taskRef, NotStarted, None, None, 0, 0, 0, 0, None, None)
  }

  function InsertTask(db: Db, t: TaskId, s: SpecId, taskRef: Option<string>): Outcome {
    if t in db.tasks then Refused(Duplicate)
    else if s !in db.specs then Refused(ForeignKeyViolation)
    else Done(db.(tasks := db.tasks[t := FreshTask(s, taskRef)]))
  }

  function StateWritten(row: TaskRow, state: TaskState, reason: Option<TerminalReason>, blocked: Option<BlockedReason>,
                        now: Time): TaskRow {
    row.(state := state, cancellationReason := CancellationOf(reason), blockedReason := blocked,
         startedAt := Coalesce(row.startedAt, if state.Active? then Some(now) else None),
         completedAt := Coalesce(row.completedAt, if state.Terminal() then Some(now) else None))
  }

  /** A task cannot fail: a failure reason is refused before anything is written. */
  function UpdateState(db: Db, t: TaskId, state: TaskState, reason: Option<TerminalReason>,
                       blocked: Option<BlockedReason>, now: Time): Outcome {
    if FailureOf(reason).Some? then Refused(Duplicate)
    else if t !in db.tasks then Refused(NotFound)
    else Done(db.(tasks := db.tasks[t := StateWritten(db.tasks[t], state, reason, blocked, now)]))
  }

  datatype TaskCounter = PlanCritique | TaskAdjust | ExecuteReview | SpecReview

  function CounterOf(row: TaskRow, counter: TaskCounter): int {
    match counter
    case PlanCritique => row.iterPlanCritique
    case TaskAdjust => row.iterTaskAdjust
    case ExecuteReview => row.iterExecuteReview
    case SpecReview => row.iterSpecReview
  }

  function TaskBumped(row: TaskRow, counter: TaskCounter): TaskRow {
    match counter
    case PlanCritique => row.(iterPlanCritique := row.iterPlanCritique + 1)
    case TaskAdjust => row.(iterTaskAdjust := row.iterTaskAdjust + 1)
    case ExecuteReview => row.(iterExecuteReview := row.iterExecuteReview + 1)
    case SpecReview => row.(iterSpecReview := row.iterSpecReview + 1)
  }

  function IncrementIteration(db: Db, t: TaskId, counter: TaskCounter): Outcome {
    if t !in db.tasks then Refused(NotFound)
    else Done(db.(tasks := db.tasks[t := TaskBumped(db.tasks[t], counter)]))
  }

  function CountersReset(row: TaskRow): TaskRow {
    row.(iterPlanCritique := 0, iterTaskAdjust := 0, iterExecuteReview := 0, iterSpecReview := 0)
  }

  function ResetIterations(db: Db, t: TaskId): Outcome {
    if t !in db.tasks then Refused(NotFound)
    else Done(db.(tasks := db.tasks[t := CountersReset(db.tasks[t])]))
  }

  // ----- task_deps -----

  /** Re-adding an edge is accepted and changes nothing; a missing endpoint is a loud failure. */
  function AddDep(db: Db, t: TaskId, dependsOn: TaskId): Outcome {
    if (t, dependsOn) in db.deps then Done(db)
    else if t !in db.tasks || dependsOn !in db.tasks then Refused(ForeignKeyViolation)
    else Done(db.(deps := db.deps + {(t, dependsOn)}))
  }

  function RemoveDep(db: Db, t: TaskId, dependsOn: TaskId): Outcome {
    Done(db.(deps := db.deps - {(t, dependsOn)}))
  }

  // ----- phase_runs -----

  function OpenRow(s: SpecId, t: Option<TaskId>, phase: string, iteration: nat, version: int, provider: string,
                   now: Time): RunRow {
    RunRow(s, t, phase, iteration, version, provider, [], "", None, None, now, None, None, None)
  }

  predicate RunKeyTaken(runs: map<RunId, RunRow>, row: RunRow) {
    exists r :: r in runs && SameRunKey(runs[r], row)
  }

  function InsertStart(db: Db, r: RunId, s: SpecId, t: Option<TaskId>, phase: string, iteration: nat, version: int,
                       provider: string, now: Time): Outcome {
    var row := OpenRow(s, t, phase, iteration, version, provider, now);
    if r in db.runs || RunKeyTaken(db.runs, row) then Refused(Duplicate)
    else if s !in db.specs || (t.Some? && t.value !in db.tasks) || (s, version) !in db.versions then
      Refused(ForeignKeyViolation)
    else Done(db.(runs := db.runs[r := row]))
  }

  const I64_MAX := 0x7FFF_FFFF_FFFF_FFFF

  /** Completes a row whether or not it is still open: unlike every other closer this one has no `IS NULL` guard. */
  function UpdateEnd(db: Db, r: RunId, verdict: Verdict, files: seq<string>, tokensIn: nat, tokensOut: nat,
                     at: Time): Outcome {
    if tokensIn > I64_MAX || tokensOut > I64_MAX || r !in db.runs then Refused(NotFound)
    else Done(db.(runs := db.runs[r := db.runs[r].(
      synopsis := verdict.synopsis, verdict := Some(verdict), filesTouched := files, completedAt := Some(at),
      tokensIn := Some(tokensIn), tokensOut := Some(tokensOut))]))
  }

  function RecordHeartbeat(db: Db, r: RunId, now: Time): Outcome {
    if r in db.runs && db.runs[r].IsOpen() then
      Done(db.(runs := db.runs[r := db.runs[r].(lastHeartbeatAt := Some(now))]))
    else Done(db)
  }

  /** The rows a guarded closer addresses. */
  datatype Scope = EveryRun | OneRun(run: RunId) | RunsOfSpec(spec: SpecId) | RunsOfTask(spec: SpecId, task: TaskId)

  predicate InScope(scope: Scope, r: RunId, row: RunRow) {
    match scope
    case EveryRun => true
    case OneRun(run) => r == run
    case RunsOfSpec(spec) => row.specId == spec
    case RunsOfTask(spec, task) => row.specId == spec && row.taskId == Some(task)
  }

  function RowClosed(row: RunRow, verdict: Option<Verdict>, now: Time): RunRow {
    var stamped := row.(completedAt := Some(now));
    if verdict.Some? then stamped.(synopsis := verdict.value.synopsis, verdict := verdict) else stamped
  }

  /** `UPDATE phase_runs SET completed_at = now, … WHERE <scope> AND completed_at IS NULL` */
  function CloseScope(db: Db, scope: Scope, verdict: Option<Verdict>, now: Time): Db {
    db.(runs := map r | r in db.runs ::
      if db.runs[r].IsOpen() && InScope(scope, r, db.runs[r]) then RowClosed(db.runs[r], verdict, now) else db.runs[r])
  }

  const ABANDONED := Verdict("phase abandoned", VBlocked("worker abandoned (sweeper detected stale heartbeat)", None))
  const OVER_BUDGET := Verdict("phase reaped", VBlocked("phase exceeded wall-clock budget (sweeper hard cap)", None))
  const SPEC_CANCELED := Verdict("phase canceled (spec cancellation)", VCanceled)
  const TASK_CANCELED := Verdict("phase canceled (task cancellation)", VCanceled)

  function CloseOrphaned(db: Db, now: Time): Db {
    CloseScope(db, EveryRun, None, now)
  }

  function CancelOpenForSpec(db: Db, s: SpecId, now: Time): Db {
    CloseScope(db, RunsOfSpec(s), Some(SPEC_CANCELED), now)
  }

  function CancelOpenForTask(db: Db, s: SpecId, t: TaskId, now: Time): Db {
    CloseScope(db, RunsOfTask(s, t), Some(TASK_CANCELED), now)
  }

  // ----- decisions -----

  predicate SupersedesTaken(decisions: map<DecisionId, DecisionRow>, row: DecisionRow) {
    row.supersedes.Some? && exists d :: d in decisions && decisions[d].supersedes == row.supersedes
  }

  /** The self-reference is checked once the row is in, so a decision may name itself. */
  function InsertDecision(db: Db, d: DecisionId, row: DecisionRow): Outcome {
    if !OriginCheck(row) then Refused(CheckViolation)
    else if d in db.decisions || SupersedesTaken(db.decisions, row) then Refused(Duplicate)
    else if row.specId !in db.specs || (row.phaseRunId.Some? && row.phaseRunId.value !in db.runs)
            || (row.supersedes.Some? && row.supersedes.value !in db.decisions && row.supersedes.value != d) then
      Refused(ForeignKeyViolation)
    else Done(db.(decisions := db.decisions[d := row]))
  }
}
