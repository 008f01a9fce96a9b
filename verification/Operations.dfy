/**
 Sequences of repo operations. Every database that any sequence reaches satisfies the schema's constraints; it also
 keeps related rows under one spec as long as each inserted row starts out that way; and a finished phase run is never
 reopened.
 */
module Operations {
  import opened Outcomes
  import opened Schema
  import opened Statements

  datatype Op =
    | OpInsertSpec(s: SpecId, now: Time)
    | OpAppendVersion(s: SpecId, version: int, snapshot: SnapshotRow)
    | OpInitializeSpec(s: SpecId, version: int)
    | OpUpdateStatus(s: SpecId, status: SpecStatus, reason: Option<TerminalReason>, now: Time)
    | OpUpdateCurrentVersion(s: SpecId, version: int)
    | OpIncrementSpec(s: SpecId, specCounter: SpecCounter)
    | OpInsertTask(t: TaskId, s: SpecId, taskRef: Option<string>)
    | OpUpdateState(t: TaskId, state: TaskState, reason: Option<TerminalReason>, blocked: Option<BlockedReason>, now: Time)
    | OpIncrementTask(t: TaskId, taskCounter: TaskCounter)
    | OpResetIterations(t: TaskId)
    | OpAddDep(t: TaskId, dependsOn: TaskId)
    | OpRemoveDep(t: TaskId, dependsOn: TaskId)
    | OpInsertStart(r: RunId, s: SpecId, owner: Option<TaskId>, phase: string, iteration: nat, version: int,
                    provider: string, now: Time)
    | OpUpdateEnd(r: RunId, verdict: Verdict, files: seq<string>, tokensIn: nat, tokensOut: nat, now: Time)
    | OpHeartbeat(r: RunId, now: Time)
    | OpClose(scope: Scope, mark: Option<Verdict>, now: Time)
    | OpInsertDecision(d: DecisionId, row: DecisionRow)

  function Apply(db: Db, op: Op): Outcome {
    match op
    case OpInsertSpec(s, now) => InsertSpec(db, s, now)
    case OpAppendVersion(s, version, snapshot) => AppendVersion(db, s, version, snapshot)
    case OpInitializeSpec(s, version) => InitializeSpec(db, s, version)
    case OpUpdateStatus(s, status, reason, now) => UpdateStatus(db, s, status, reason, now)
    case OpUpdateCurrentVersion(s, version) => UpdateCurrentVersion(db, s, version)
    case OpIncrementSpec(s, counter) => IncrementSpecIteration(db, s, counter)
    case OpInsertTask(t, s, taskRef) => InsertTask(db, t, s, taskRef)
    case OpUpdateState(t, state, reason, blocked, now) => UpdateState(db, t, state, reason, blocked, now)
    case OpIncrementTask(t, counter) => IncrementIteration(db, t, counter)
    case OpResetIterations(t) => ResetIterations(db, t)
    case OpAddDep(t, dependsOn) => AddDep(db, t, dependsOn)
    case OpRemoveDep(t, dependsOn) => RemoveDep(db, t, dependsOn)
    case OpInsertStart(r, s, owner, phase, iteration, version, provider, now) =>
      InsertStart(db, r, s, owner, phase, iteration, version, provider, now)
    case OpUpdateEnd(r, verdict, files, tokensIn, tokensOut, now) =>
      UpdateEnd(db, r, verdict, files, tokensIn, tokensOut, now)
    case OpHeartbeat(r, now) => RecordHeartbeat(db, r, now)
    case OpClose(scope, mark, now) => Done(CloseScope(db, scope, mark, now))
    case OpInsertDecision(d, row) => InsertDecision(db, d, row)
  }

  function Step(db: Db, op: Op): Db {
    After(db, Apply(db, op))
  }

  // ----- One lemma per kind of change to a table -----

  predicate SameRunIdentity(a: RunRow, b: RunRow) {
    a.specId == b.specId && a.taskId == b.taskId && a.phase == b.phase && a.phaseIteration == b.phaseIteration
    && a.specVersion == b.specVersion
  }

  ghost predicate RunsRewritten(before: map<RunId, RunRow>, after: map<RunId, RunRow>) {
    after.Keys == before.Keys && forall r :: r in before ==> SameRunIdentity(before[r], after[r])
  }

  /** The constraints hold afterwards, and so does coherence if it held and `within` says the change respects it. */
  ghost predicate Keeps(db: Db, after: Db, within: bool) {
    Valid(after) && (Coherent(db) && within ==> Coherent(after))
  }

  lemma RewritingRuns(db: Db, runs: map<RunId, RunRow>)
    requires Valid(db) && RunsRewritten(db.runs, runs)
    ensures Keeps(db, db.(runs := runs), true)
  {}

  lemma RewritingOneTask(db: Db, t: TaskId, row: TaskRow)
    requires Valid(db) && t in db.tasks && row.specId == db.tasks[t].specId
    ensures Keeps(db, db.(tasks := db.tasks[t := row]), true)
  {}

  lemma WritingSpecRow(db: Db, s: SpecId, row: SpecRow)
    requires Valid(db) && s in db.specs && (s, row.currentVersion) in db.versions && StatusReasonCheck(row)
    ensures Keeps(db, db.(specRuntime := db.specRuntime[s := row]), true)
  {}

  lemma InsertSpecKeeps(db: Db, s: SpecId, now: Time)
    requires Valid(db)
    ensures Keeps(db, After(db, InsertSpec(db, s, now)), true)
  {}

  lemma AppendVersionKeeps(db: Db, s: SpecId, version: int, snapshot: SnapshotRow)
    requires Valid(db)
    ensures Keeps(db, After(db, AppendVersion(db, s, version, snapshot)), true)
  {}

  lemma InsertTaskKeeps(db: Db, t: TaskId, s: SpecId, taskRef: Option<string>)
    requires Valid(db)
    ensures Keeps(db, After(db, InsertTask(db, t, s, taskRef)), true)
  {}

  lemma DepChangeKeeps(db: Db, t: TaskId, dependsOn: TaskId)
    requires Valid(db)
    ensures Keeps(db, After(db, RemoveDep(db, t, dependsOn)), true)
    ensures Keeps(db, After(db, AddDep(db, t, dependsOn)), JoinsTasksOfOneSpec(db, t, dependsOn))
  {}

  lemma InsertingRun(db: Db, r: RunId, row: RunRow)
    requires Valid(db) && r !in db.runs && !RunKeyTaken(db.runs, row)
    requires row.specId in db.specs && (row.specId, row.specVersion) in db.versions
    requires row.taskId.Some? ==> row.taskId.value in db.tasks
    ensures Keeps(db, db.(runs := db.runs[r := row]), StartsWithItsTask(db, row.specId, row.taskId))
  {
    var runs := db.runs[r := row];
    assert RunKeysUnique(runs) by {
      forall a, b | a in runs && b in runs && a != b ensures !SameRunKey(runs[a], runs[b]) {
        assert a != r && b != r ==> !SameRunKey(db.runs[a], db.runs[b]);
        assert b != r ==> !SameRunKey(db.runs[b], row);
      }
    }
  }

  lemma InsertDecisionValid(db: Db, d: DecisionId, row: DecisionRow)
    requires Valid(db) && InsertDecision(db, d, row).Done?
    ensures Valid(db.(decisions := db.decisions[d := row]))
  {
    var decisions := db.decisions[d := row];
    assert DecisionsOk(db.specs, db.runs, decisions);
    assert OneSuperseder(decisions);
  }

  lemma InsertDecisionCoherent(db: Db, d: DecisionId, row: DecisionRow)
    requires Valid(db) && Coherent(db) && d !in db.decisions && RowJoinsItsSpec(db, d, row)
    ensures Coherent(db.(decisions := db.decisions[d := row]))
  {}

  // ----- What the caller has to see to, since no foreign key does -----

  ghost predicate StartsWithItsTask(db: Db, s: SpecId, owner: Option<TaskId>) {
    owner.Some? && owner.value in db.tasks ==> db.tasks[owner.value].specId == s
  }

  ghost predicate JoinsTasksOfOneSpec(db: Db, t: TaskId, dependsOn: TaskId) {
    t in db.tasks && dependsOn in db.tasks ==> db.tasks[t].specId == db.tasks[dependsOn].specId
  }

  /** A new decision stays within one spec: its run's and the one of the decision it supersedes. */
  ghost predicate RowJoinsItsSpec(db: Db, d: DecisionId, row: DecisionRow) {
    && (row.phaseRunId.Some? && row.phaseRunId.value in db.runs ==> db.runs[row.phaseRunId.value].specId == row.specId)
    && (row.supersedes.Some? && row.supersedes.value in db.decisions && row.supersedes.value != d ==>
          db.decisions[row.supersedes.value].specId == row.specId)
  }

  ghost predicate RespectsSpecs(db: Db, op: Op) {
    match op
    case OpInsertStart(_, s, owner, _, _, _, _, _) => StartsWithItsTask(db, s, owner)
    case OpInsertDecision(d, row) => RowJoinsItsSpec(db, d, row)
    case OpAddDep(t, dependsOn) => JoinsTasksOfOneSpec(db, t, dependsOn)
    case _ => true
  }

  lemma SpecRowFacts(db: Db, s: SpecId)
    requires Valid(db) && s in db.specRuntime
    ensures s in db.specs && (s, db.specRuntime[s].currentVersion) in db.versions
    ensures StatusReasonCheck(db.specRuntime[s])
  {}

  lemma SpecRowStepKeeps(db: Db, op: Op)
    requires Valid(db)
    requires op.OpInitializeSpec? || op.OpUpdateStatus? || op.OpUpdateCurrentVersion? || op.OpIncrementSpec?
    ensures Keeps(db, Step(db, op), true)
  {
    hide Coherent, Valid;
    match op
    case OpInitializeSpec(s, version) =>
      if InitializeSpec(db, s, version).Done? {
        WritingSpecRow(db, s, QueuedRow(version));
      }
    case OpUpdateStatus(s, status, reason, now) =>
      if UpdateStatus(db, s, status, reason, now).Done? {
        SpecRowFacts(db, s);
        WritingSpecRow(db, s, StatusWritten(db.specRuntime[s], status, reason, now));
      }
    case OpUpdateCurrentVersion(s, version) =>
      if UpdateCurrentVersion(db, s, version).Done? {
        SpecRowFacts(db, s);
        WritingSpecRow(db, s, db.specRuntime[s].(currentVersion := version));
      }
    case OpIncrementSpec(s, counter) =>
      if s in db.specRuntime {
        SpecRowFacts(db, s);
        WritingSpecRow(db, s, SpecBumped(db.specRuntime[s], counter));
      }
  }

  lemma TaskRowStepKeeps(db: Db, op: Op)
    requires Valid(db)
    requires op.OpUpdateState? || op.OpIncrementTask? || op.OpResetIterations?
    ensures Keeps(db, Step(db, op), true)
  {
    hide Coherent, Valid;
    match op
    case OpUpdateState(t, state, reason, blocked, now) =>
      if UpdateState(db, t, state, reason, blocked, now).Done? {
        RewritingOneTask(db, t, StateWritten(db.tasks[t], state, reason, blocked, now));
      }
    case OpIncrementTask(t, counter) =>
      if t in db.tasks {
        RewritingOneTask(db, t, TaskBumped(db.tasks[t], counter));
      }
    case OpResetIterations(t) =>
      if t in db.tasks {
        RewritingOneTask(db, t, CountersReset(db.tasks[t]));
      }
  }

  lemma StartStepKeeps(db: Db, r: RunId, s: SpecId, owner: Option<TaskId>, phase: string, iteration: nat, version: int,
                       provider: string, now: Time)
    requires Valid(db)
    ensures Keeps(db, After(db, InsertStart(db, r, s, owner, phase, iteration, version, provider, now)),
                  StartsWithItsTask(db, s, owner))
  {
    hide Coherent, Valid, StartsWithItsTask;
    if InsertStart(db, r, s, owner, phase, iteration, version, provider, now).Done? {
      InsertingRun(db, r, OpenRow(s, owner, phase, iteration, version, provider, now));
    }
  }

  lemma RewritingOneRun(db: Db, r: RunId, row: RunRow)
    requires Valid(db) && r in db.runs && SameRunIdentity(db.runs[r], row)
    ensures Keeps(db, db.(runs := db.runs[r := row]), true)
  {
    hide Valid, Coherent;
    RewritingRuns(db, db.runs[r := row]);
  }

  lemma EndStepKeeps(db: Db, r: RunId, verdict: Verdict, files: seq<string>, tokensIn: nat, tokensOut: nat, at: Time)
    requires Valid(db)
    ensures Keeps(db, After(db, UpdateEnd(db, r, verdict, files, tokensIn, tokensOut, at)), true)
  {
    hide Valid, Coherent;
    if r in db.runs {
      RewritingOneRun(db, r, db.runs[r].(
        synopsis := verdict.synopsis, verdict := Some(verdict), filesTouched := files, completedAt := Some(at),
        tokensIn := Some(tokensIn), tokensOut := Some(tokensOut)));
    }
  }

  lemma HeartbeatStepKeeps(db: Db, r: RunId, now: Time)
    requires Valid(db)
    ensures Keeps(db, After(db, RecordHeartbeat(db, r, now)), true)
  {
    hide Valid, Coherent;
    if r in db.runs {
      RewritingOneRun(db, r, db.runs[r].(lastHeartbeatAt := Some(now)));
    }
  }

  lemma CloseStepKeeps(db: Db, scope: Scope, mark: Option<Verdict>, now: Time)
    requires Valid(db)
    ensures Keeps(db, CloseScope(db, scope, mark, now), true)
  {
    hide Valid, Coherent;
    RewritingRuns(db, CloseScope(db, scope, mark, now).runs);
  }

  lemma DecisionStepKeeps(db: Db, d: DecisionId, row: DecisionRow)
    requires Valid(db)
    ensures Keeps(db, After(db, InsertDecision(db, d, row)), RowJoinsItsSpec(db, d, row))
  {
    hide Coherent, Valid, RowJoinsItsSpec;
    if InsertDecision(db, d, row).Done? {
      InsertDecisionValid(db, d, row);
      if Coherent(db) && RowJoinsItsSpec(db, d, row) {
        InsertDecisionCoherent(db, d, row);
      }
    }
  }

  /** One operation keeps the constraints, and related rows under one spec if it does not itself mix specs. */
  lemma StepKeepsInvariants(db: Db, op: Op)
    requires Valid(db)
    ensures Keeps(db, Step(db, op), RespectsSpecs(db, op))
  {
    hide Keeps, Valid;
    match op
    case OpInsertSpec(s, now) => InsertSpecKeeps(db, s, now);
    case OpAppendVersion(s, version, snapshot) => AppendVersionKeeps(db, s, version, snapshot);
    case OpInitializeSpec(_, _) => SpecRowStepKeeps(db, op);
    case OpUpdateStatus(_, _, _, _) => SpecRowStepKeeps(db, op);
    case OpUpdateCurrentVersion(_, _) => SpecRowStepKeeps(db, op);
    case OpIncrementSpec(_, _) => SpecRowStepKeeps(db, op);
    case OpInsertTask(t, s, taskRef) => InsertTaskKeeps(db, t, s, taskRef);
    case OpUpdateState(_, _, _, _, _) => TaskRowStepKeeps(db, op);
    case OpIncrementTask(_, _) => TaskRowStepKeeps(db, op);
    case OpResetIterations(_) => TaskRowStepKeeps(db, op);
    case OpAddDep(t, dependsOn) => DepChangeKeeps(db, t, dependsOn);
    case OpRemoveDep(t, dependsOn) => DepChangeKeeps(db, t, dependsOn);
    case OpInsertStart(r, s, owner, phase, iteration, version, provider, now) =>
      StartStepKeeps(db, r, s, owner, phase, iteration, version, provider, now);
    case OpUpdateEnd(r, verdict, files, tokensIn, tokensOut, now) =>
      EndStepKeeps(db, r, verdict, files, tokensIn, tokensOut, now);
    case OpHeartbeat(r, now) => HeartbeatStepKeeps(db, r, now);
    case OpClose(scope, mark, now) => CloseStepKeeps(db, scope, mark, now);
    case OpInsertDecision(d, row) => DecisionStepKeeps(db, d, row);
  }

  // ----- Whole runs -----

  function Run(db: Db, ops: seq<Op>): Db
    decreases |ops|
  {
    if ops == [] then db else Run(Step(db, ops[0]), ops[1..])
  }

  ghost predicate RunRespectsSpecs(db: Db, ops: seq<Op>)
    decreases |ops|
  {
    ops == [] || (RespectsSpecs(db, ops[0]) && RunRespectsSpecs(Step(db, ops[0]), ops[1..]))
  }

  lemma {:induction false} RunKeepsInvariants(db: Db, ops: seq<Op>)
    requires Valid(db)
    ensures Valid(Run(db, ops))
    ensures Coherent(db) && RunRespectsSpecs(db, ops) ==> Coherent(Run(db, ops))
    decreases |ops|
  {
    hide Valid, Coherent, Step, RespectsSpecs;
    if ops != [] {
      StepKeepsInvariants(db, ops[0]);
      RunKeepsInvariants(Step(db, ops[0]), ops[1..]);
    }
  }

  /** Every database reachable from the freshly migrated one satisfies every constraint of the schema. */
  lemma ReachableIsValid(ops: seq<Op>)
    ensures Valid(Run(EMPTY_DB, ops))
    ensures RunRespectsSpecs(EMPTY_DB, ops) ==> Coherent(Run(EMPTY_DB, ops))
  {
    RunKeepsInvariants(EMPTY_DB, ops);
  }

  // ----- Which operations touch which table -----

  predicate WritesTasks(op: Op) {
    op.OpInsertTask? || op.OpUpdateState? || op.OpIncrementTask? || op.OpResetIterations?
  }

  predicate WritesRuns(op: Op) {
    op.OpInsertStart? || op.OpUpdateEnd? || op.OpHeartbeat? || op.OpClose?
  }

  lemma OtherStepsKeepTables(db: Db, op: Op)
    ensures !WritesTasks(op) ==> Step(db, op).tasks == db.tasks
    ensures !WritesRuns(op) ==> Step(db, op).runs == db.runs
  {}

  // ----- Finality of phase runs -----

  /** A closed run stays closed; unless `update_end` is aimed at it, its row does not change at all. */
  lemma ClosedRunStaysClosed(db: Db, op: Op, r: RunId)
    requires r in db.runs && !db.runs[r].IsOpen()
    ensures r in Step(db, op).runs && !Step(db, op).runs[r].IsOpen()
    ensures !(op.OpUpdateEnd? && op.r == r) ==> Step(db, op).runs[r] == db.runs[r]
  {}

  /** The row `update_end` writes. */
  function Ended(row: RunRow, op: Op): RunRow
    requires op.OpUpdateEnd?
  {
    row.(synopsis := op.verdict.synopsis, verdict := Some(op.verdict), filesTouched := op.files,
         completedAt := Some(op.now), tokensIn := Some(op.tokensIn), tokensOut := Some(op.tokensOut))
  }

  /** A closed row changes exactly if `update_end` is aimed at it, takes the token counts, and says something new. */
  lemma ClosedRunChangesOnlyByUpdateEnd(db: Db, op: Op, r: RunId)
    requires r in db.runs && !db.runs[r].IsOpen()
    ensures r in Step(db, op).runs
    ensures Step(db, op).runs[r] != db.runs[r] <==>
              && op.OpUpdateEnd? && op.r == r && op.tokensIn <= I64_MAX && op.tokensOut <= I64_MAX
              && Ended(db.runs[r], op) != db.runs[r]
  {
    ClosedRunStaysClosed(db, op, r);
    if op.OpUpdateEnd? && op.r == r {
      assert Step(db, op) == After(db, UpdateEnd(db, r, op.verdict, op.files, op.tokensIn, op.tokensOut, op.now));
    }
  }

  /** A run reaped as abandoned whose worker reports after all: the verdict and the completion time are overwritten. */
  lemma LateReportRewritesReapedRun()
    ensures var s, r := SpecId("S1"), RunId("P1");
            var row := RowClosed(OpenRow(s, None, "plan", 0, 1, "claude_code", 3), Some(ABANDONED), 9);
            var db := EMPTY_DB.(specs := map[s := 1], versions := map[(s, 1) := SnapshotRow("demo", map[], 1)],
                                runs := map[r := row]);
            var after := Step(db, OpUpdateEnd(r, Verdict("done", VPassing([])), [], 5, 7, 10));
            && Valid(db) && Valid(after) && r in after.runs
            && db.runs[r].verdict == Some(ABANDONED) && db.runs[r].completedAt == Some(9)
            && after.runs[r].verdict == Some(Verdict("done", VPassing([]))) && after.runs[r].completedAt == Some(10)
  {}

  lemma {:induction false} ClosedRunStaysClosedOverRuns(db: Db, ops: seq<Op>, r: RunId)
    requires r in db.runs && !db.runs[r].IsOpen()
    ensures r in Run(db, ops).runs && !Run(db, ops).runs[r].IsOpen()
    ensures (forall i :: 0 <= i < |ops| ==> !(ops[i].OpUpdateEnd? && ops[i].r == r)) ==>
              Run(db, ops).runs[r] == db.runs[r]
    decreases |ops|
  {
    hide Step;
    if ops != [] {
      ClosedRunStaysClosed(db, ops[0], r);
      ClosedRunStaysClosedOverRuns(Step(db, ops[0]), ops[1..], r);
    }
  }

  /** Each guarded closer leaves no open run in its scope and every other row as it was. */
  lemma CloserClosesItsScope(db: Db, scope: Scope, mark: Option<Verdict>, now: Time)
    ensures var after := CloseScope(db, scope, mark, now);
            && after.runs.Keys == db.runs.Keys
            && (forall r :: r in after.runs && InScope(scope, r, after.runs[r]) ==> !after.runs[r].IsOpen())
            && (forall r :: r in after.runs && !InScope(scope, r, db.runs[r]) ==> after.runs[r] == db.runs[r])
            && after.(runs := db.runs) == db
  {}

  /** Canceling a spec's or a task's runs leaves none of them open, marks those it closed and spares all others. */
  lemma CancelLeavesNoneOpen(db: Db, s: SpecId, t: TaskId, now: Time)
    ensures var after := CancelOpenForSpec(db, s, now);
            forall r :: r in db.runs ==>
              && r in after.runs
              && (db.runs[r].specId == s ==> !after.runs[r].IsOpen())
              && (db.runs[r].specId == s && db.runs[r].IsOpen() ==>
                    after.runs[r].verdict == Some(Verdict("phase canceled (spec cancellation)", VCanceled)))
              && (db.runs[r].specId != s || !db.runs[r].IsOpen() ==> after.runs[r] == db.runs[r])
    ensures var after := CancelOpenForTask(db, s, t, now);
            forall r :: r in db.runs ==>
              && r in after.runs
              && (db.runs[r].specId == s && db.runs[r].taskId == Some(t) ==> !after.runs[r].IsOpen())
              && (db.runs[r].specId == s && db.runs[r].taskId == Some(t) && db.runs[r].IsOpen() ==>
                    after.runs[r].verdict == Some(Verdict("phase canceled (task cancellation)", VCanceled)))
              && (db.runs[r].specId != s || db.runs[r].taskId != Some(t) || !db.runs[r].IsOpen() ==>
                    after.runs[r] == db.runs[r])
  {}
}
