/**
 What each repo operation leaves in the tables, column by column: when it is accepted, what stops it otherwise, what the
 row it writes then holds, and that it writes no other row. `Statements` computes these rows; here they are read off.
 */
module RepoColumns {
  import opened Outcomes
  import opened Schema
  import S = Statements

  /** Row `k` is there afterwards, and every other row is as it was. */
  ghost predicate OnlyAt<K, V>(before: map<K, V>, after: map<K, V>, k: K) {
    && after.Keys == before.Keys + {k}
    && forall j :: j in before && j != k ==> after[j] == before[j]
  }

  /** A stamp that is set the first time something happens. */
  predicate FirstTime(before: Option<Time>, after: Option<Time>, happens: bool, now: Time) {
    if before.Some? then after == before else after == if happens then Some(now) else None
  }

  // ----- specs, spec_versions -----

  lemma SpecInserted(db: Db, s: SpecId, now: Time)
    ensures var o := S.InsertSpec(db, s, now);
            && (o.Done? <==> s !in db.specs) && (o.Refused? ==> o.error == S.Duplicate)
            && (o.Done? ==>
                  && o.db == db.(specs := o.db.specs) && OnlyAt(db.specs, o.db.specs, s)
                  && o.db.specs[s] == now)
  {}

  lemma VersionAppended(db: Db, s: SpecId, version: int, snapshot: SnapshotRow)
    ensures var o := S.AppendVersion(db, s, version, snapshot);
            && (o.Done? <==> (s, version) !in db.versions && s in db.specs)
            && (o.Refused? ==> o.error == if (s, version) in db.versions then S.Duplicate else S.ForeignKeyViolation)
            && (o.Done? ==>
                  && o.db == db.(versions := o.db.versions) && OnlyAt(db.versions, o.db.versions, (s, version))
                  && o.db.versions[(s, version)] == snapshot)
  {}

  // ----- spec_runtime -----

  /** A spec starts out queued at the given version, with nothing explained, stamped or counted. */
  lemma SpecInitialized(db: Db, s: SpecId, version: int)
    ensures var o := S.InitializeSpec(db, s, version);
            && (o.Done? <==> s !in db.specRuntime && s in db.specs && (s, version) in db.versions)
            && (o.Refused? ==> o.error == if s in db.specRuntime then S.Duplicate else S.ForeignKeyViolation)
            && (o.Done? ==>
                  && o.db == db.(specRuntime := o.db.specRuntime) && OnlyAt(db.specRuntime, o.db.specRuntime, s)
                  && var row := o.db.specRuntime[s];
                     && row.status == Queued && row.currentVersion == version
                     && row.failureReason == None && row.cancellationReason == None
                     && row.startedAt == None && row.completedAt == None
                     && row.iterPlanCritique == 0 && row.iterSpecReview == 0)
  {}

  /** The reason that a status asks for: failed and canceled specs have theirs, all others have none. */
  predicate ReasonSuits(status: SpecStatus, reason: Option<TerminalReason>) {
    match status
    case Failed => reason.Some? && reason.value.Failure?
    case SpecWasCanceled => reason.Some? && reason.value.Cancellation?
    case Queued | Running | Completed => reason.None?
  }

  /** Accepted exactly with the reason the status asks for; stamps start on running and completion on a terminal status. */
  lemma StatusUpdated(db: Db, s: SpecId, status: SpecStatus, reason: Option<TerminalReason>, now: Time)
    ensures var o := S.UpdateStatus(db, s, status, reason, now);
            && (o.Done? <==> s in db.specRuntime && ReasonSuits(status, reason))
            && (o.Refused? ==> o.error == if s !in db.specRuntime then S.NotFound else S.CheckViolation)
            && (o.Done? ==>
                  && o.db == db.(specRuntime := o.db.specRuntime) && OnlyAt(db.specRuntime, o.db.specRuntime, s)
                  && var before, row := db.specRuntime[s], o.db.specRuntime[s];
                     && row.status == status
                     && row.failureReason == (if status == Failed then Some(reason.value.failure) else None)
                     && row.cancellationReason ==
                        (if status == SpecWasCanceled then Some(reason.value.cancellation) else None)
                     && FirstTime(before.startedAt, row.startedAt, status == Running, now)
                     && FirstTime(before.completedAt, row.completedAt,
                                  status == Completed || status == Failed || status == SpecWasCanceled, now)
                     && row.currentVersion == before.currentVersion
                     && row.iterPlanCritique == before.iterPlanCritique && row.iterSpecReview == before.iterSpecReview)
  {}

  lemma CurrentVersionUpdated(db: Db, s: SpecId, version: int)
    ensures var o := S.UpdateCurrentVersion(db, s, version);
            && (o.Done? <==> s in db.specRuntime && (s, version) in db.versions)
            && (o.Refused? ==> o.error == if s !in db.specRuntime then S.NotFound else S.ForeignKeyViolation)
            && (o.Done? ==>
                  && o.db == db.(specRuntime := o.db.specRuntime) && OnlyAt(db.specRuntime, o.db.specRuntime, s)
                  && var before, row := db.specRuntime[s], o.db.specRuntime[s];
                     && row.currentVersion == version
                     && row.(currentVersion := before.currentVersion) == before)
  {}

  lemma SpecIterationIncremented(db: Db, s: SpecId, counter: S.SpecCounter)
    ensures var o := S.IncrementSpecIteration(db, s, counter);
            && (o.Done? <==> s in db.specRuntime) && (o.Refused? ==> o.error == S.NotFound)
            && (o.Done? ==>
                  && o.db == db.(specRuntime := o.db.specRuntime) && OnlyAt(db.specRuntime, o.db.specRuntime, s)
                  && var before, row := db.specRuntime[s], o.db.specRuntime[s];
                     && row.iterPlanCritique == before.iterPlanCritique + (if counter == S.SpecPlanCritique then 1 else 0)
                     && row.iterSpecReview == before.iterSpecReview + (if counter == S.SpecLevelReview then 1 else 0)
                     && row.(iterPlanCritique := before.iterPlanCritique, iterSpecReview := before.iterSpecReview)
                        == before)
  {}

  // ----- task_runtime -----

  predicate CountersAre(row: TaskRow, planCritique: int, taskAdjust: int, executeReview: int, specReview: int) {
    && row.iterPlanCritique == planCritique && row.iterTaskAdjust == taskAdjust
    && row.iterExecuteReview == executeReview && row.iterSpecReview == specReview
  }

  /** A task has not started: nothing explains its state, no stamp is set, no iteration counted. */
  predicate NewTask(row: TaskRow, s: SpecId, taskRef: Option<string>) {
    && row.specId == s && row.taskRef == taskRef && row.state == NotStarted
    && row.blockedReason == None && row.cancellationReason == None
    && row.startedAt == None && row.completedAt == None && CountersAre(row, 0, 0, 0, 0)
  }

  lemma TaskInserted(db: Db, t: TaskId, s: SpecId, taskRef: Option<string>)
    ensures var o := S.InsertTask(db, t, s, taskRef);
            && (o.Done? <==> t !in db.tasks && s in db.specs)
            && (o.Refused? ==> o.error == if t in db.tasks then S.Duplicate else S.ForeignKeyViolation)
            && (o.Done? ==>
                  && o.db == db.(tasks := o.db.tasks) && OnlyAt(db.tasks, o.db.tasks, t)
                  && NewTask(o.db.tasks[t], s, taskRef))
  {}

  /** The task is still the same one, with the same counters. */
  predicate SameTask(before: TaskRow, row: TaskRow) {
    && row.specId == before.specId && row.taskRef == before.taskRef
    && CountersAre(row, before.iterPlanCritique, before.iterTaskAdjust, before.iterExecuteReview, before.iterSpecReview)
  }

  /** The state a task is moved to, with what explains it; started when active, completed when passing or canceled. */
  predicate TaskMoved(before: TaskRow, row: TaskRow, state: TaskState, blocked: Option<BlockedReason>,
                      canceled: Option<CancellationReason>, now: Time)
  {
    && row.state == state && row.blockedReason == blocked && row.cancellationReason == canceled
    && FirstTime(before.startedAt, row.startedAt, state == Active, now)
    && FirstTime(before.completedAt, row.completedAt, state == Passing || state == TaskWasCanceled, now)
    && SameTask(before, row)
  }

  /** A failure is no reason a task can have; any other is written as it is given. */
  lemma StateUpdated(db: Db, t: TaskId, state: TaskState, reason: Option<TerminalReason>, blocked: Option<BlockedReason>,
                     now: Time)
    ensures var o := S.UpdateState(db, t, state, reason, blocked, now);
            && (o.Done? <==> t in db.tasks && !(reason.Some? && reason.value.Failure?))
            && (o.Refused? ==> o.error == if reason.Some? && reason.value.Failure? then S.Duplicate else S.NotFound)
            && (o.Done? ==>
                  && o.db == db.(tasks := o.db.tasks) && OnlyAt(db.tasks, o.db.tasks, t)
                  && TaskMoved(db.tasks[t], o.db.tasks[t], state, blocked,
                               if reason.None? then None else Some(reason.value.cancellation), now))
  {}

  lemma IterationIncremented(db: Db, t: TaskId, counter: S.TaskCounter)
    ensures var o := S.IncrementIteration(db, t, counter);
            && (o.Done? <==> t in db.tasks) && (o.Refused? ==> o.error == S.NotFound)
            && (o.Done? ==>
                  && o.db == db.(tasks := o.db.tasks) && OnlyAt(db.tasks, o.db.tasks, t)
                  && var before, row := db.tasks[t], o.db.tasks[t];
                     && CountersAre(row,
                                    before.iterPlanCritique + (if counter == S.PlanCritique then 1 else 0),
                                    before.iterTaskAdjust + (if counter == S.TaskAdjust then 1 else 0),
                                    before.iterExecuteReview + (if counter == S.ExecuteReview then 1 else 0),
                                    before.iterSpecReview + (if counter == S.SpecReview then 1 else 0))
                     && SameButCounters(before, row))
  {}

  predicate SameButCounters(before: TaskRow, row: TaskRow) {
    && row.specId == before.specId && row.taskRef == before.taskRef && row.state == before.state
    && row.blockedReason == before.blockedReason && row.cancellationReason == before.cancellationReason
    && row.startedAt == before.startedAt && row.completedAt == before.completedAt
  }

  lemma IterationsReset(db: Db, t: TaskId)
    ensures var o := S.ResetIterations(db, t);
            && (o.Done? <==> t in db.tasks) && (o.Refused? ==> o.error == S.NotFound)
            && (o.Done? ==>
                  && o.db == db.(tasks := o.db.tasks) && OnlyAt(db.tasks, o.db.tasks, t)
                  && CountersAre(o.db.tasks[t], 0, 0, 0, 0) && SameButCounters(db.tasks[t], o.db.tasks[t]))
  {}

  // ----- task_deps -----

  /** An edge is in exactly if it was or is this one; it takes both endpoints, unless it is there already. */
  lemma DepAdded(db: Db, t: TaskId, dependsOn: TaskId)
    ensures var o := S.AddDep(db, t, dependsOn);
            && (o.Done? <==> (t, dependsOn) in db.deps || (t in db.tasks && dependsOn in db.tasks))
            && (o.Refused? ==> o.error == S.ForeignKeyViolation)
            && (o.Done? ==>
                  && o.db == db.(deps := o.db.deps)
                  && forall e :: e in o.db.deps <==> e in db.deps || e == (t, dependsOn))
  {}

  lemma DepRemoved(db: Db, t: TaskId, dependsOn: TaskId)
    ensures var o := S.RemoveDep(db, t, dependsOn);
            && o.Done? && o.db == db.(deps := o.db.deps)
            && forall e :: e in o.db.deps <==> e in db.deps && e != (t, dependsOn)
  {}

  // ----- phase_runs -----

  /** A run that has started and done nothing yet. */
  predicate NewRun(row: RunRow, s: SpecId, t: Option<TaskId>, phase: string, iteration: nat, version: int,
                   provider: string, now: Time)
  {
    && row.specId == s && row.taskId == t && row.phase == phase && row.phaseIteration == iteration
    && row.specVersion == version && row.provider == provider && row.startedAt == now
    && row.filesTouched == [] && row.synopsis == "" && row.verdict == None && row.lastHeartbeatAt == None
    && row.completedAt == None && row.tokensIn == None && row.tokensOut == None
  }

  /** A run of the same task, phase and iteration is there already; runs of no task never collide. */
  ghost predicate StartedBefore(db: Db, s: SpecId, t: Option<TaskId>, phase: string, iteration: nat) {
    exists q :: q in db.runs && t.Some? && db.runs[q].specId == s && db.runs[q].taskId == t
                && db.runs[q].phase == phase && db.runs[q].phaseIteration == iteration
  }

  lemma RunStarted(db: Db, r: RunId, s: SpecId, t: Option<TaskId>, phase: string, iteration: nat, version: int,
                   provider: string, now: Time)
    ensures var o := S.InsertStart(db, r, s, t, phase, iteration, version, provider, now);
            && (o.Done? <==>
                  && r !in db.runs && !StartedBefore(db, s, t, phase, iteration)
                  && s in db.specs && (t.Some? ==> t.value in db.tasks) && (s, version) in db.versions)
            && (o.Refused? ==>
                  o.error == if r in db.runs || StartedBefore(db, s, t, phase, iteration) then S.Duplicate
                             else S.ForeignKeyViolation)
            && (o.Done? ==>
                  && o.db == db.(runs := o.db.runs) && OnlyAt(db.runs, o.db.runs, r)
                  && NewRun(o.db.runs[r], s, t, phase, iteration, version, provider, now))
  {
    var row := S.OpenRow(s, t, phase, iteration, version, provider, now);
    if S.RunKeyTaken(db.runs, row) {
      var q :| q in db.runs && SameRunKey(db.runs[q], row);
      assert StartedBefore(db, s, t, phase, iteration);
    }
    if StartedBefore(db, s, t, phase, iteration) {
      var q :| q in db.runs && t.Some? && db.runs[q].specId == s && db.runs[q].taskId == t
               && db.runs[q].phase == phase && db.runs[q].phaseIteration == iteration;
      assert SameRunKey(db.runs[q], row);
    }
  }

  /** What never changes about a run once it has started. */
  predicate SameRun(before: RunRow, row: RunRow) {
    && row.specId == before.specId && row.taskId == before.taskId && row.phase == before.phase
    && row.phaseIteration == before.phaseIteration && row.specVersion == before.specVersion
    && row.provider == before.provider && row.startedAt == before.startedAt
  }

  /** The report of a worker goes into the row whether it is open or closed. */
  lemma RunEnded(db: Db, r: RunId, verdict: Verdict, files: seq<string>, tokensIn: nat, tokensOut: nat, at: Time)
    ensures var o := S.UpdateEnd(db, r, verdict, files, tokensIn, tokensOut, at);
            && (o.Done? <==>
                  r in db.runs && tokensIn <= 9_223_372_036_854_775_807 && tokensOut <= 9_223_372_036_854_775_807)
            && (o.Refused? ==> o.error == S.NotFound)
            && (o.Done? ==>
                  && o.db == db.(runs := o.db.runs) && OnlyAt(db.runs, o.db.runs, r)
                  && var before, row := db.runs[r], o.db.runs[r];
                     && row.verdict == Some(verdict) && row.synopsis == verdict.synopsis && row.filesTouched == files
                     && row.completedAt == Some(at) && row.tokensIn == Some(tokensIn) && row.tokensOut == Some(tokensOut)
                     && row.lastHeartbeatAt == before.lastHeartbeatAt && SameRun(before, row))
  {}

  lemma HeartbeatRecorded(db: Db, r: RunId, now: Time)
    ensures var o := S.RecordHeartbeat(db, r, now);
            && o.Done?
            && if r in db.runs && db.runs[r].completedAt == None then
                 && o.db == db.(runs := o.db.runs) && OnlyAt(db.runs, o.db.runs, r)
                 && o.db.runs[r].lastHeartbeatAt == Some(now)
                 && o.db.runs[r].(lastHeartbeatAt := db.runs[r].lastHeartbeatAt) == db.runs[r]
               else o.db == db
  {}

  /** The rows a closer is aimed at, by the columns in its WHERE clause. */
  predicate Addressed(scope: S.Scope, r: RunId, row: RunRow) {
    match scope
    case EveryRun => true
    case OneRun(run) => run == r
    case RunsOfSpec(spec) => spec == row.specId
    case RunsOfTask(spec, task) => spec == row.specId && row.taskId == Some(task)
  }

  /** An open row it is aimed at is completed now, with the verdict if there is one; every other row stays. */
  lemma RunsClosed(db: Db, scope: S.Scope, mark: Option<Verdict>, now: Time)
    ensures var after := S.CloseScope(db, scope, mark, now);
            && after == db.(runs := after.runs) && after.runs.Keys == db.runs.Keys
            && forall r :: r in db.runs ==>
                 var before, row := db.runs[r], after.runs[r];
                 if before.completedAt == None && Addressed(scope, r, before) then
                   && row.completedAt == Some(now)
                   && (mark.Some? ==> row.verdict == mark && row.synopsis == mark.value.synopsis)
                   && (mark.None? ==> row.verdict == before.verdict && row.synopsis == before.synopsis)
                   && row.filesTouched == before.filesTouched && row.lastHeartbeatAt == before.lastHeartbeatAt
                   && row.tokensIn == before.tokensIn && row.tokensOut == before.tokensOut && SameRun(before, row)
                 else row == before
  {}

  // ----- decisions -----

  ghost predicate SupersededBefore(db: Db, row: DecisionRow) {
    exists e, d :: e in db.decisions && row.supersedes == Some(d) && db.decisions[e].supersedes == Some(d)
  }

  /** Authored decisions have no run and all others do; each decision is superseded at most once, by itself if need be. */
  lemma DecisionInserted(db: Db, d: DecisionId, row: DecisionRow)
    ensures var o := S.InsertDecision(db, d, row);
            var fits := if row.origin == Authored then row.phaseRunId == None else row.phaseRunId != None;
            var taken := d in db.decisions || SupersededBefore(db, row);
            && (o.Done? <==>
                  && fits && !taken && row.specId in db.specs
                  && (row.phaseRunId.Some? ==> row.phaseRunId.value in db.runs)
                  && (row.supersedes.Some? ==> row.supersedes.value in db.decisions || row.supersedes.value == d))
            && (o.Refused? ==>
                  o.error == if !fits then S.CheckViolation else if taken then S.Duplicate else S.ForeignKeyViolation)
            && (o.Done? ==>
                  && o.db == db.(decisions := o.db.decisions) && OnlyAt(db.decisions, o.db.decisions, d)
                  && o.db.decisions[d] == row)
  {
    assert SupersededBefore(db, row) <==> S.SupersedesTaken(db.decisions, row) by {
      if S.SupersedesTaken(db.decisions, row) {
        var e :| e in db.decisions && db.decisions[e].supersedes == row.supersedes;
        assert db.decisions[e].supersedes == Some(row.supersedes.value);
      }
    }
  }
}
