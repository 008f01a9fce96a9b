/**
 What each event does on the bus, column by column: which rows let it through, written out state by state as
 src/service/transitions.rs lists them, and what the rows of both tables hold once it is accepted.
 */
module BusColumns {
  import opened Outcomes
  import opened Schema
  import S = Statements
  import opened RepoColumns
  import opened Bus

  // ----- Which events are accepted -----

  predicate TaskIn(db: Db, t: TaskId, states: set<TaskState>) {
    t in db.tasks && db.tasks[t].state in states
  }

  predicate SpecIn(db: Db, s: SpecId, statuses: set<SpecStatus>) {
    s in db.specRuntime && db.specRuntime[s].status in statuses
  }

  /** The states from which each lifecycle event is legal. */
  predicate LetsThrough(db: Db, e: Event) {
    match e
    case TaskStarted(_, t) => TaskIn(db, t, {NotStarted, Blocked})
    case TaskUnblocked(_, t) => TaskIn(db, t, {NotStarted, Blocked})
    case TaskBlocked(_, t, _) => TaskIn(db, t, {Active})
    case TaskPassed(_, t) => TaskIn(db, t, {Active})
    case TaskCanceled(_, t, _) => TaskIn(db, t, {NotStarted, Active, Blocked})
    case SpecStarted(s) => SpecIn(db, s, {Queued})
    case SpecCompleted(s) => SpecIn(db, s, {Running})
    case SpecFailed(s, _) => SpecIn(db, s, {Running})
    case SpecCanceled(s, _) => SpecIn(db, s, {Queued, Running})
    case _ => true
  }

  predicate IsTaskEvent(e: Event) {
    e.TaskStarted? || e.TaskBlocked? || e.TaskUnblocked? || e.TaskPassed? || e.TaskCanceled?
  }

  predicate IsSpecEvent(e: Event) {
    e.SpecStarted? || e.SpecCompleted? || e.SpecFailed? || e.SpecCanceled?
  }

  /** Accepted exactly from those states; a missing row is reported as missing, any other state as illegal. */
  lemma AcceptedExactlyFrom(db: Db, e: Event, now: Time)
    requires IsTaskEvent(e) || IsSpecEvent(e)
    ensures var o := Emit(db, e, now);
            && (o.Accepted? <==> LetsThrough(db, e))
            && (o.Rejected? ==>
                  o.error == if (if IsTaskEvent(e) then e.task !in db.tasks else e.spec !in db.specRuntime)
                             then Persist(S.NotFound) else IllegalTransition)
  {}

  // ----- What an accepted event writes -----

  lemma TaskMoveWrites(db: Db, t: TaskId, to: TaskState, reason: Option<TerminalReason>, blocked: Option<BlockedReason>,
                       now: Time)
    requires TransitionTask(db, t, to, reason, blocked, now).Accepted?
    ensures var after := TransitionTask(db, t, to, reason, blocked, now).db;
            && after == db.(tasks := after.tasks) && OnlyAt(db.tasks, after.tasks, t)
            && (reason.Some? ==> reason.value.Cancellation?)
            && TaskMoved(db.tasks[t], after.tasks[t], to, blocked,
                         if reason.None? then None else Some(reason.value.cancellation), now)
  {
    StateUpdated(db, t, to, reason, blocked, now);
    hide S.UpdateState, LegalTask, OnlyAt, TaskMoved;
  }

  /** The one row of a task event: its new state, the reason the event carries, both stamps; all else is as it was. */
  lemma TaskEventWrites(db: Db, e: Event, now: Time)
    requires IsTaskEvent(e) && LetsThrough(db, e)
    ensures var after := Emitted(db, Emit(db, e, now));
            && after == db.(tasks := after.tasks) && OnlyAt(db.tasks, after.tasks, e.task)
            && var before, row := db.tasks[e.task], after.tasks[e.task];
               match e
               case TaskStarted(_, _) => TaskMoved(before, row, Active, None, None, now)
               case TaskUnblocked(_, _) => TaskMoved(before, row, Active, None, None, now)
               case TaskBlocked(_, _, why) => TaskMoved(before, row, Blocked, Some(why), None, now)
               case TaskPassed(_, _) => TaskMoved(before, row, Passing, None, None, now)
               case TaskCanceled(_, _, why) => TaskMoved(before, row, TaskWasCanceled, None, Some(why), now)
  {
    AcceptedExactlyFrom(db, e, now);
    hide OnlyAt, TaskMoved, TransitionTask, LetsThrough;
    match e
    case TaskStarted(_, t) => TaskMoveWrites(db, t, Active, None, None, now);
    case TaskUnblocked(_, t) => TaskMoveWrites(db, t, Active, None, None, now);
    case TaskBlocked(_, t, why) => TaskMoveWrites(db, t, Blocked, None, Some(why), now);
    case TaskPassed(_, t) => TaskMoveWrites(db, t, Passing, None, None, now);
    case TaskCanceled(_, t, why) => TaskMoveWrites(db, t, TaskWasCanceled, Some(Cancellation(why)), None, now);
  }

  /** The status a spec is moved to, with what explains it; started when running, completed when terminal. */
  predicate SpecMoved(before: SpecRow, row: SpecRow, status: SpecStatus, failure: Option<FailureReason>,
                      canceled: Option<CancellationReason>, now: Time)
  {
    && row.status == status && row.failureReason == failure && row.cancellationReason == canceled
    && FirstTime(before.startedAt, row.startedAt, status == Running, now)
    && FirstTime(before.completedAt, row.completedAt,
                 status == Completed || status == Failed || status == SpecWasCanceled, now)
    && row.currentVersion == before.currentVersion
    && row.iterPlanCritique == before.iterPlanCritique && row.iterSpecReview == before.iterSpecReview
  }

  /** The active tasks of the spec are canceled on behalf of their spec; every other task is as it was. */
  ghost predicate ActiveTasksCanceled(before: map<TaskId, TaskRow>, after: map<TaskId, TaskRow>, s: SpecId, now: Time) {
    && after.Keys == before.Keys
    && forall t :: t in before ==>
         if before[t].specId == s && before[t].state == Active
         then TaskMoved(before[t], after[t], TaskWasCanceled, None, Some(ParentSpecCanceled), now)
         else after[t] == before[t]
  }

  lemma SpecMoveWrites(db: Db, s: SpecId, to: SpecStatus, reason: Option<TerminalReason>, now: Time)
    requires TransitionSpec(db, s, to, reason, now).Accepted?
    ensures s in db.specRuntime
    ensures var after := TransitionSpec(db, s, to, reason, now).db;
            && after == db.(specRuntime := after.specRuntime, tasks := after.tasks)
            && OnlyAt(db.specRuntime, after.specRuntime, s)
            && (if to.Failed? || to.SpecWasCanceled? then ActiveTasksCanceled(db.tasks, after.tasks, s, now)
                else after.tasks == db.tasks)
            && SpecMoved(db.specRuntime[s], after.specRuntime[s], to,
                         if reason.Some? && reason.value.Failure? then Some(reason.value.failure) else None,
                         if reason.Some? && reason.value.Cancellation? then Some(reason.value.cancellation) else None, now)
  {
    StatusUpdated(db, s, to, reason, now);
    SweepWrites(db.tasks, s, now);
    hide S.UpdateStatus, LegalSpec, OnlyAt, StrandedSwept, ActiveTasksCanceled;
  }

  lemma SweepWrites(tasks: map<TaskId, TaskRow>, s: SpecId, now: Time)
    ensures ActiveTasksCanceled(tasks, StrandedSwept(tasks, s, now), s, now)
  {}

  /** The row of a spec event, and the tasks that a failed or canceled spec takes with it. */
  lemma SpecEventWrites(db: Db, e: Event, now: Time)
    requires IsSpecEvent(e) && LetsThrough(db, e)
    ensures var after := Emitted(db, Emit(db, e, now));
            && after == db.(specRuntime := after.specRuntime, tasks := after.tasks)
            && OnlyAt(db.specRuntime, after.specRuntime, e.spec)
            && (if e.SpecFailed? || e.SpecCanceled? then ActiveTasksCanceled(db.tasks, after.tasks, e.spec, now)
                else after.tasks == db.tasks)
            && var before, row := db.specRuntime[e.spec], after.specRuntime[e.spec];
               match e
               case SpecStarted(_) => SpecMoved(before, row, Running, None, None, now)
               case SpecCompleted(_) => SpecMoved(before, row, Completed, None, None, now)
               case SpecFailed(_, why) => SpecMoved(before, row, Failed, Some(why), None, now)
               case SpecCanceled(_, why) => SpecMoved(before, row, SpecWasCanceled, None, Some(why), now)
  {
    AcceptedExactlyFrom(db, e, now);
    hide OnlyAt, SpecMoved, TransitionSpec, LetsThrough, ActiveTasksCanceled;
    match e
    case SpecStarted(s) => SpecMoveWrites(db, s, Running, None, now);
    case SpecCompleted(s) => SpecMoveWrites(db, s, Completed, None, now);
    case SpecFailed(s, why) => SpecMoveWrites(db, s, Failed, Some(Failure(why)), now);
    case SpecCanceled(s, why) => SpecMoveWrites(db, s, SpecWasCanceled, Some(Cancellation(why)), now);
  }

  // ----- The observational rows -----

  /** A phase starts under the version its spec points at now. */
  lemma PhaseStartWrites(db: Db, e: Event, now: Time)
    requires e.PhaseStarted?
    ensures var o := Emit(db, e, now);
            && (o.Accepted? <==>
                  && e.spec in db.specRuntime && e.spec in db.specs
                  && (e.spec, db.specRuntime[e.spec].currentVersion) in db.versions
                  && (e.owner.Some? ==> e.owner.value in db.tasks)
                  && e.run !in db.runs && !StartedBefore(db, e.spec, e.owner, e.phase, e.iteration))
            && (o.Accepted? ==>
                  && o.db == db.(runs := o.db.runs) && OnlyAt(db.runs, o.db.runs, e.run)
                  && NewRun(o.db.runs[e.run], e.spec, e.owner, e.phase, e.iteration,
                            db.specRuntime[e.spec].currentVersion, e.provider, now))
  {
    if e.spec in db.specRuntime {
      RunStarted(db, e.run, e.spec, e.owner, e.phase, e.iteration, db.specRuntime[e.spec].currentVersion, e.provider, now);
    }
    hide S.InsertStart, StartedBefore;
  }

  /** A phase completes with its verdict; only a passing one has touched files. */
  lemma PhaseEndWrites(db: Db, e: Event, now: Time)
    requires e.PhaseCompleted?
    ensures var o := Emit(db, e, now);
            && (o.Accepted? <==>
                  && e.run in db.runs
                  && e.tokensIn <= 9_223_372_036_854_775_807 && e.tokensOut <= 9_223_372_036_854_775_807)
            && (o.Accepted? ==>
                  && o.db == db.(runs := o.db.runs) && OnlyAt(db.runs, o.db.runs, e.run)
                  && var before, row := db.runs[e.run], o.db.runs[e.run];
                     && row.verdict == Some(e.verdict) && row.synopsis == e.verdict.synopsis
                     && (forall files :: e.verdict.outcome == VPassing(files) ==> row.filesTouched == files)
                     && (!e.verdict.outcome.VPassing? ==> row.filesTouched == [])
                     && row.completedAt == Some(now)
                     && row.tokensIn == Some(e.tokensIn) && row.tokensOut == Some(e.tokensOut)
                     && row.lastHeartbeatAt == before.lastHeartbeatAt && SameRun(before, row))
  {}

  lemma DecisionWrites(db: Db, e: Event, now: Time)
    requires e.DecisionMade?
    ensures var o := Emit(db, e, now);
            && (o.Accepted? <==> S.InsertDecision(db, e.decision, e.row).Done?)
            && (o.Accepted? ==>
                  && o.db == db.(decisions := o.db.decisions) && OnlyAt(db.decisions, o.db.decisions, e.decision)
                  && o.db.decisions[e.decision] == e.row)
  {}

  /** Everything else on the bus is only observed. */
  lemma ObservedWritesNothing(db: Db, now: Time)
    ensures Emit(db, ObservedOnly, now) == Accepted(db)
  {}
}
