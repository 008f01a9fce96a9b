/**
 What shutdown, boot and the operator's commands leave, column by column: whom recovery fails and whom the drain parks,
 read off the tasks and runs of a spec, and what their rows hold afterwards.
 */
module LifecycleColumns {
  import opened Outcomes
  import opened Schema
  import S = Statements
  import opened RepoColumns
  import opened Bus
  import opened BusColumns
  import opened Lifecycle
  import Handlers

  // ----- Who is spared -----

  ghost predicate TaskOf(db: Db, s: SpecId, t: TaskId, state: TaskState) {
    t in db.tasks && db.tasks[t].specId == s && db.tasks[t].state == state
  }

  ghost predicate OpenRunOf(db: Db, s: SpecId, r: RunId) {
    r in db.runs && db.runs[r].specId == s && db.runs[r].completedAt == None
  }

  /** Waiting for the operator: a task is blocked, none is active, and whatever is open is a run of a blocked task. */
  ghost predicate Waits(db: Db, s: SpecId) {
    && (exists t :: TaskOf(db, s, t, Blocked))
    && (forall t :: !TaskOf(db, s, t, Active))
    && (forall r :: OpenRunOf(db, s, r) ==> exists t :: TaskOf(db, s, t, Blocked) && db.runs[r].taskId == Some(t))
  }

  lemma WaitsForOperator(db: Db, s: SpecId)
    ensures AwaitingOperator(db, s) <==> Waits(db, s)
  {
    forall r | OpenRunOf(db, s, r)
      ensures OwnerBlocked(db, db.runs[r]) <==> exists t :: TaskOf(db, s, t, Blocked) && db.runs[r].taskId == Some(t)
    {
      if OwnerBlocked(db, db.runs[r]) {
        assert TaskOf(db, s, db.runs[r].taskId.value, Blocked);
      }
    }
    if HasActive(db, s) {
      var t :| t in db.tasks && db.tasks[t].specId == s && db.tasks[t].state.Active?;
      assert TaskOf(db, s, t, Active);
    }
    if HasBlocked(db, s) {
      var t :| t in db.tasks && db.tasks[t].specId == s && db.tasks[t].state.Blocked?;
      assert TaskOf(db, s, t, Blocked);
    }
    if HasCrashDebris(db, s) {
      var r :| r in db.runs && db.runs[r].specId == s && db.runs[r].IsOpen() && !OwnerBlocked(db, db.runs[r]);
      assert OpenRunOf(db, s, r);
    }
  }

  /** Recovery fails exactly the running specs that are not waiting. */
  lemma VictimsInFull(db: Db, s: SpecId)
    ensures s in Victims(db) <==> SpecIn(db, s, {Running}) && !Waits(db, s)
  {
    WaitsForOperator(db, s);
    hide Waits, AwaitingOperator;
  }

  /** In flight when the drain comes: running, with an active task or an open run, of whatever task or of none. */
  lemma InFlightInFull(db: Db, s: SpecId)
    ensures s in InFlightSpecs(db) <==>
              SpecIn(db, s, {Running}) && ((exists t :: TaskOf(db, s, t, Active)) || exists r :: OpenRunOf(db, s, r))
  {
    if HasActive(db, s) {
      var t :| t in db.tasks && db.tasks[t].specId == s && db.tasks[t].state.Active?;
      assert TaskOf(db, s, t, Active);
    }
    if HasOpenRun(db, s) {
      var r :| r in db.runs && db.runs[r].specId == s && db.runs[r].IsOpen();
      assert OpenRunOf(db, s, r);
    }
  }

  // ----- Recovery and drain -----

  lemma FailedColumns(db: Db, crashed: set<SpecId>, now: Time)
    ensures var after := FailAll(db, crashed, now);
            && after == db.(specRuntime := after.specRuntime, tasks := after.tasks)
            && after.specRuntime.Keys == db.specRuntime.Keys && after.tasks.Keys == db.tasks.Keys
            && (forall s :: s in db.specRuntime ==>
                  if s in crashed
                  then SpecMoved(db.specRuntime[s], after.specRuntime[s], Failed, Some(DaemonCrash), None, now)
                  else after.specRuntime[s] == db.specRuntime[s])
            && (forall t :: t in db.tasks ==>
                  if db.tasks[t].specId in crashed && db.tasks[t].state == Active
                  then TaskMoved(db.tasks[t], after.tasks[t], TaskWasCanceled, None, Some(ParentSpecCanceled), now)
                  else after.tasks[t] == db.tasks[t])
  {}

  /** The failed specs, their active tasks, and the open runs of every spec; nothing else changes. */
  lemma RecoveredColumns(db: Db, faulty: set<SpecId>, now: Time)
    ensures var after := Recovered(db, faulty, now);
            && after == db.(specRuntime := after.specRuntime, tasks := after.tasks, runs := after.runs)
            && after.specRuntime.Keys == db.specRuntime.Keys && after.tasks.Keys == db.tasks.Keys
            && after.runs.Keys == db.runs.Keys
            && (forall s :: s in db.specRuntime ==>
                  if db.specRuntime[s].status == Running && !Waits(db, s) && s !in faulty
                  then SpecMoved(db.specRuntime[s], after.specRuntime[s], Failed, Some(DaemonCrash), None, now)
                  else after.specRuntime[s] == db.specRuntime[s])
            && (forall t :: t in db.tasks ==>
                  var s := db.tasks[t].specId;
                  if SpecIn(db, s, {Running}) && !Waits(db, s) && s !in faulty && db.tasks[t].state == Active
                  then TaskMoved(db.tasks[t], after.tasks[t], TaskWasCanceled, None, Some(ParentSpecCanceled), now)
                  else after.tasks[t] == db.tasks[t])
            && (forall r :: r in db.runs ==>
                  after.runs[r] == if db.runs[r].completedAt == None then db.runs[r].(completedAt := Some(now))
                                   else db.runs[r])
  {
    FailedColumns(db, Victims(db) - faulty, now);
    forall s ensures s in Victims(db) - faulty <==> SpecIn(db, s, {Running}) && !Waits(db, s) && s !in faulty {
      VictimsInFull(db, s);
    }
    hide FailAll, Victims, Waits, SpecMoved, TaskMoved;
  }

  /** The drain blocks the active tasks of running specs, as draining; nothing else changes. */
  lemma DrainedColumns(db: Db, faulty: set<TaskId>, now: Time)
    ensures var after := Drained(db, faulty, now);
            && after == db.(tasks := after.tasks) && after.tasks.Keys == db.tasks.Keys
            && forall t :: t in db.tasks ==>
                 if db.tasks[t].state == Active && SpecIn(db, db.tasks[t].specId, {Running}) && t !in faulty
                 then TaskMoved(db.tasks[t], after.tasks[t], Blocked, Some(DaemonDraining), None, now)
                 else after.tasks[t] == db.tasks[t]
  {}

  // ----- Commands -----

  /** What a cancel comes to: a spec or task that can still be canceled is, with the operator's note. */
  lemma CancelLeaves(db: Db, target: Handlers.Target, note: string, now: Time)
    ensures var e := Handlers.CancelEvent(db, target, note);
            var after := if e.Some? then Emitted(db, Emit(db, e.value, now)) else db;
            match target
            case SpecTarget(s) =>
              if s in db.specs && SpecIn(db, s, {Queued, Running}) then
                && after == db.(specRuntime := after.specRuntime, tasks := after.tasks)
                && OnlyAt(db.specRuntime, after.specRuntime, s)
                && SpecMoved(db.specRuntime[s], after.specRuntime[s], SpecWasCanceled, None, Some(Operator(Some(note))), now)
                && ActiveTasksCanceled(db.tasks, after.tasks, s, now)
              else after == db
            case TaskTarget(t) =>
              if TaskIn(db, t, {NotStarted, Active, Blocked}) then
                && after == db.(tasks := after.tasks) && OnlyAt(db.tasks, after.tasks, t)
                && TaskMoved(db.tasks[t], after.tasks[t], TaskWasCanceled, None, Some(Operator(Some(note))), now)
              else after == db
            case NeitherTarget => after == db
  {
    var e := Handlers.CancelEvent(db, target, note);
    if e.Some? {
      AcceptedExactlyFrom(db, e.value, now);
      if LetsThrough(db, e.value) {
        if e.value.SpecCanceled? {
          SpecEventWrites(db, e.value, now);
        } else {
          TaskEventWrites(db, e.value, now);
        }
      }
    }
    hide Emit, SpecMoved, TaskMoved, OnlyAt, ActiveTasksCanceled;
  }

  /** Done exactly for a blocked task of a spec that has a row and is not over; then the task works again. */
  lemma UnblockLeaves(db: Db, t: TaskId, resetCounter: bool, now: Time)
    ensures var answer := Unblock(db, t, resetCounter, now);
            && (answer.Done? <==> TaskIn(db, t, {Blocked}) && SpecIn(db, db.tasks[t].specId, {Queued, Running}))
            && (answer == NoSuchTask <==> t !in db.tasks)
            && (answer.NotBlocked? <==> t in db.tasks && db.tasks[t].state != Blocked)
            && (answer.Done? ==>
                  && answer.db == db.(tasks := answer.db.tasks) && OnlyAt(db.tasks, answer.db.tasks, t)
                  && var before, row := db.tasks[t], answer.db.tasks[t];
                     && row.state == Active && row.blockedReason == None && row.cancellationReason == None
                     && row.specId == before.specId && row.taskRef == before.taskRef
                     && FirstTime(before.startedAt, row.startedAt, true, now) && row.completedAt == before.completedAt
                     && (if resetCounter then CountersAre(row, 0, 0, 0, 0)
                         else CountersAre(row, before.iterPlanCritique, before.iterTaskAdjust, before.iterExecuteReview,
                                          before.iterSpecReview)))
  {}

  // ----- Late steps -----

  /** What the last act of a detached worker writes: its report, or its sign of life, into a run that is there. */
  lemma LateReportLeaves(db: Db, r: RunId, verdict: Verdict, tokensIn: nat, tokensOut: nat, now: Time)
    requires r in db.runs && tokensIn <= 9_223_372_036_854_775_807 && tokensOut <= 9_223_372_036_854_775_807
    ensures var ended := Late(db, LateEnd(r, verdict, tokensIn, tokensOut), now).runs;
            && OnlyAt(db.runs, ended, r)
            && ended[r].verdict == Some(verdict) && ended[r].completedAt == Some(now)
            && ended[r].tokensIn == Some(tokensIn) && ended[r].tokensOut == Some(tokensOut)
    ensures var alive := Late(db, LateHeartbeat(r), now).runs;
            && OnlyAt(db.runs, alive, r)
            && alive[r].lastHeartbeatAt == if db.runs[r].completedAt == None then Some(now) else db.runs[r].lastHeartbeatAt
  {
    PhaseEndWrites(db, PhaseCompleted(r, verdict, tokensIn, tokensOut), now);
    HeartbeatRecorded(db, r, now);
    hide Emit, S.RecordHeartbeat;
  }
}
