/**
 The seven tables of migrations/0001_initial.sql (as amended by 0002 and 0003) as one value, and the constraints the
 schema declares on them. Columns no modelled statement reads or writes are not carried.
 */
module Schema {
  import opened Outcomes

  datatype SpecId = SpecId(text: string)
  datatype TaskId = TaskId(text: string)
  datatype RunId = RunId(text: string)
  datatype DecisionId = DecisionId(text: string)

  /** Points in time and lengths of time, in one fixed unit. */
  type Time = int

  // ----- States and reasons -----

  datatype SpecStatus = Queued | Running | Completed | Failed | SpecWasCanceled {
    predicate Terminal() { Completed? || Failed? || SpecWasCanceled? }
  }

  datatype TaskState = NotStarted | Active | Blocked | Passing | TaskWasCanceled {
    predicate Terminal() { Passing? || TaskWasCanceled? }
  }

  datatype FailureReason =
    | DaemonCrash
    | OperatorMarkedFailed(note: Option<string>)
    | PreflightFailed(details: string)
    | SpecReviewExhausted(iterations: int, lastCritique: string)
    | WallClockExceeded(phase: string, budget: Time, elapsed: Time)

  datatype CancellationReason =
    | Operator(note: Option<string>)
    | PlanRevisionCanceled(triggeredBy: TaskId, replacementTask: Option<TaskId>)
    | ParentSpecCanceled

  datatype BlockedReason =
    | DaemonDraining
    | ProviderFailed(provider: string, lastError: string)
    | WallClockExceeded(phase: string, budget: Time, elapsed: Time)
    | OtherBlock(detail: string)

  datatype TerminalReason = Failure(failure: FailureReason) | Cancellation(cancellation: CancellationReason)

  datatype ErrorWhyFix = ErrorWhyFix(error: string, why: string, fix: string)

  datatype VerdictOutcome =
    | VPassing(files: seq<string>)
    | VRedo
    | VBlocked(reason: string, detail: Option<ErrorWhyFix>)
    | VFail(failed: ErrorWhyFix)
    | VCanceled

  datatype Verdict = Verdict(synopsis: string, outcome: VerdictOutcome)

  datatype Origin = Authored | RuntimeMade | Human

  // ----- Rows -----

  datatype SnapshotRow = SnapshotRow(title: string, contracts: map<TaskId, string>, createdAt: Time)

  datatype SpecRow = SpecRow(
    currentVersion: int, status: SpecStatus,
    failureReason: Option<FailureReason>, cancellationReason: Option<CancellationReason>,
    startedAt: Option<Time>, completedAt: Option<Time>,
    iterPlanCritique: int, iterSpecReview: int)

  datatype TaskRow = TaskRow(
    specId: SpecId, taskRef: Option<string>, state: TaskState,
    blockedReason: Option<BlockedReason>, cancellationReason: Option<CancellationReason>,
    iterPlanCritique: int, iterTaskAdjust: int, iterExecuteReview: int, iterSpecReview: int,
    startedAt: Option<Time>, completedAt: Option<Time>)

  datatype RunRow = RunRow(
    specId: SpecId, taskId: Option<TaskId>, phase: string, phaseIteration: int, specVersion: int, provider: string,
    filesTouched: seq<string>, synopsis: string, verdict: Option<Verdict>,
    lastHeartbeatAt: Option<Time>, startedAt: Time, completedAt: Option<Time>,
    tokensIn: Option<int>, tokensOut: Option<int>)
  {
    predicate IsOpen() { completedAt.None? }
  }

  datatype DecisionRow = DecisionRow(
    specId: SpecId, phaseRunId: Option<RunId>, origin: Origin, title: string, summary: string, rationale: string,
    supersedes: Option<DecisionId>, createdAt: Time)

  /** The whole database: each table is a map from its primary key. */
  datatype Db = Db(
    specs: map<SpecId, Time>,
    versions: map<(SpecId, int), SnapshotRow>,
    specRuntime: map<SpecId, SpecRow>,
    tasks: map<TaskId, TaskRow>,
    deps: set<(TaskId, TaskId)>,
    runs: map<RunId, RunRow>,
    decisions: map<DecisionId, DecisionRow>)

  const EMPTY_DB := Db(map[], map[], map[], map[], {}, map[], map[])

  // ----- Row checks -----

  /** The status/reason mutex CHECK of `spec_runtime`. */
  predicate StatusReasonCheck(row: SpecRow) {
    || (row.status.Failed? && row.failureReason.Some? && row.cancellationReason.None?)
    || (row.status.SpecWasCanceled? && row.cancellationReason.Some? && row.failureReason.None?)
    || ((row.status.Queued? || row.status.Running? || row.status.Completed?)
        && row.failureReason.None? && row.cancellationReason.None?)
  }

  /** The origin/phase-run mutex CHECK of `decisions`. */
  predicate OriginCheck(row: DecisionRow) {
    row.origin.Authored? <==> row.phaseRunId.None?
  }

  // ----- Foreign keys and unique keys, table by table -----

  ghost predicate VersionsOk(specs: map<SpecId, Time>, versions: map<(SpecId, int), SnapshotRow>) {
    forall k :: k in versions ==> k.0 in specs
  }

  ghost predicate SpecRuntimeOk(specs: map<SpecId, Time>, versions: map<(SpecId, int), SnapshotRow>,
                                specRuntime: map<SpecId, SpecRow>) {
    forall s :: s in specRuntime ==>
      s in specs && (s, specRuntime[s].currentVersion) in versions && StatusReasonCheck(specRuntime[s])
  }

  ghost predicate TasksOk(specs: map<SpecId, Time>, tasks: map<TaskId, TaskRow>) {
    forall t :: t in tasks ==> tasks[t].specId in specs
  }

  ghost predicate DepsOk(tasks: map<TaskId, TaskRow>, deps: set<(TaskId, TaskId)>) {
    forall d :: d in deps ==> d.0 in tasks && d.1 in tasks
  }

  ghost predicate RunsOk(specs: map<SpecId, Time>, versions: map<(SpecId, int), SnapshotRow>,
                         tasks: map<TaskId, TaskRow>, runs: map<RunId, RunRow>) {
    forall r :: r in runs ==>
      && runs[r].specId in specs
      && (runs[r].taskId.Some? ==> runs[r].taskId.value in tasks)
      && (runs[r].specId, runs[r].specVersion) in versions
  }

  /** SQLite treats NULLs in a UNIQUE key as distinct, so spec-level runs never collide. */
  predicate SameRunKey(a: RunRow, b: RunRow) {
    a.taskId.Some? && a.specId == b.specId && a.taskId == b.taskId && a.phase == b.phase
    && a.phaseIteration == b.phaseIteration
  }

  ghost predicate RunKeysUnique(runs: map<RunId, RunRow>) {
    forall a, b :: a in runs && b in runs && a != b ==> !SameRunKey(runs[a], runs[b])
  }

  ghost predicate DecisionsOk(specs: map<SpecId, Time>, runs: map<RunId, RunRow>,
                              decisions: map<DecisionId, DecisionRow>) {
    forall d :: d in decisions ==>
      && decisions[d].specId in specs
      && (decisions[d].phaseRunId.Some? ==> decisions[d].phaseRunId.value in runs)
      && (decisions[d].supersedes.Some? ==> decisions[d].supersedes.value in decisions)
      && OriginCheck(decisions[d])
  }

  /** The partial UNIQUE index: at most one decision supersedes a given one. */
  ghost predicate OneSuperseder(decisions: map<DecisionId, DecisionRow>) {
    forall a, b :: a in decisions && b in decisions && a != b && decisions[a].supersedes.Some? ==>
      decisions[a].supersedes != decisions[b].supersedes
  }

  /** Everything the schema promises of a committed database. */
  ghost predicate Valid(db: Db) {
    && VersionsOk(db.specs, db.versions)
    && SpecRuntimeOk(db.specs, db.versions, db.specRuntime)
    && TasksOk(db.specs, db.tasks)
    && DepsOk(db.tasks, db.deps)
    && RunsOk(db.specs, db.versions, db.tasks, db.runs)
    && RunKeysUnique(db.runs)
    && DecisionsOk(db.specs, db.runs, db.decisions)
    && OneSuperseder(db.decisions)
  }

  // ----- What the schema does not promise, though the program relies on it -----

  ghost predicate RunsWithTheirTasks(tasks: map<TaskId, TaskRow>, runs: map<RunId, RunRow>) {
    forall r :: r in runs && runs[r].taskId.Some? && runs[r].taskId.value in tasks ==>
      tasks[runs[r].taskId.value].specId == runs[r].specId
  }

  ghost predicate DecisionsWithTheirRuns(runs: map<RunId, RunRow>, decisions: map<DecisionId, DecisionRow>) {
    forall d :: d in decisions && decisions[d].phaseRunId.Some? && decisions[d].phaseRunId.value in runs ==>
      runs[decisions[d].phaseRunId.value].specId == decisions[d].specId
  }

  ghost predicate SupersessionWithinSpecs(decisions: map<DecisionId, DecisionRow>) {
    forall d :: d in decisions && decisions[d].supersedes.Some? && decisions[d].supersedes.value in decisions ==>
      decisions[decisions[d].supersedes.value].specId == decisions[d].specId
  }

  ghost predicate DepsWithinSpecs(tasks: map<TaskId, TaskRow>, deps: set<(TaskId, TaskId)>) {
    forall d :: d in deps && d.0 in tasks && d.1 in tasks ==> tasks[d.0].specId == tasks[d.1].specId
  }

  /**
   Rows of different tables that belong together name the same spec. No foreign key says so: a run row carries its
   spec and its task separately, a decision its spec, its run and the decision it supersedes.
   */
  ghost predicate Coherent(db: Db) {
    && RunsWithTheirTasks(db.tasks, db.runs)
    && DecisionsWithTheirRuns(db.runs, db.decisions)
    && SupersessionWithinSpecs(db.decisions)
    && DepsWithinSpecs(db.tasks, db.deps)
  }
}
