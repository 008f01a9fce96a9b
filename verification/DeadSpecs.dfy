/**
 Failing or canceling a spec is meant to leave none of its tasks at work. What keeps it so, emit by emit and statement
 by statement: the task guard of the bus never looks at the spec.
 */
module DeadSpecs {
  import opened Outcomes
  import opened Schema
  import opened Bus

  predicate Dead(db: Db, s: SpecId) {
    s in db.specRuntime && (db.specRuntime[s].status.Failed? || db.specRuntime[s].status.SpecWasCanceled?)
  }

  ghost predicate QuietWhenDead(db: Db) {
    forall t :: t in db.tasks && Dead(db, db.tasks[t].specId) ==> !db.tasks[t].state.Active?
  }

  /** The event sets a task to work although its spec has failed or been canceled. */
  predicate Revives(db: Db, e: Event) {
    (e.TaskStarted? || e.TaskUnblocked?) && e.task in db.tasks && Dead(db, db.tasks[e.task].specId)
  }

  lemma SpecEmitKeepsDeadQuiet(db: Db, s: SpecId, to: SpecStatus, reason: Option<TerminalReason>, now: Time)
    requires QuietWhenDead(db)
    ensures QuietWhenDead(Emitted(db, TransitionSpec(db, s, to, reason, now)))
  {}

  lemma TaskEmitRevives(db: Db, t: TaskId, to: TaskState, reason: Option<TerminalReason>, blocked: Option<BlockedReason>,
                        now: Time)
    requires QuietWhenDead(db) && TransitionTask(db, t, to, reason, blocked, now).Accepted?
    ensures QuietWhenDead(TransitionTask(db, t, to, reason, blocked, now).db)
            <==> !(to.Active? && Dead(db, db.tasks[t].specId))
  {
    var after := TransitionTask(db, t, to, reason, blocked, now).db;
    if to.Active? && Dead(db, db.tasks[t].specId) {
      assert after.tasks[t].state.Active? && Dead(after, after.tasks[t].specId);
    }
  }

  /**
   The bus cancels the active tasks of a spec that fails or is canceled, but its task guard never looks at the spec:
   an emit that runs by itself breaks the resulting invariant exactly if it starts or unblocks a task of a dead spec.
   */
  lemma EmitKeepsDeadQuiet(db: Db, e: Event, now: Time)
    requires QuietWhenDead(db) && Emit(db, e, now).Accepted?
    ensures QuietWhenDead(Emit(db, e, now).db) <==> !Revives(db, e)
  {
    if SpecMove(e).Some? {
      var (s, to, reason) := SpecMove(e).value;
      SpecEmitKeepsDeadQuiet(db, s, to, reason, now);
      hide QuietWhenDead, TransitionSpec;
    } else if TaskMove(e).Some? {
      var (t, to, reason, blocked) := TaskMove(e).value;
      TaskEmitRevives(db, t, to, reason, blocked, now);
      hide QuietWhenDead;
    } else {
      RowEventKeepsLifecycle(db, e, now);
      hide Emit;
    }
  }

  ghost predicate HasActiveTask(db: Db, s: SpecId) {
    exists t :: t in db.tasks && db.tasks[t].specId == s && db.tasks[t].state.Active?
  }

  /** The statement sets a task of a dead spec to work, or kills a spec whose active tasks are yet to be swept. */
  ghost predicate BreaksQuiet(db: Db, w: Statement) {
    || (TaskTarget(w).Some? && TaskTarget(w).value.1.Active? && TaskTarget(w).value.0 in db.tasks
        && Dead(db, db.tasks[TaskTarget(w).value.0].specId))
    || (SpecTarget(w).Some? && (SpecTarget(w).value.1.Failed? || SpecTarget(w).value.1.SpecWasCanceled?)
        && SpecTarget(w).value.0 in db.specRuntime && HasActiveTask(db, SpecTarget(w).value.0))
  }

  lemma TaskStatementQuiet(db: Db, w: Statement)
    requires QuietWhenDead(db) && TaskTarget(w).Some?
    ensures QuietWhenDead(Written(db, w)) <==> !BreaksQuiet(db, w)
  {
    WrittenTaskRow(db, w);
    hide Written;
    var (t, to, _, _) := TaskTarget(w).value;
    var after := Written(db, w);
    if t in db.tasks && to.Active? && Dead(db, db.tasks[t].specId) {
      assert after.tasks[t].state.Active? && Dead(after, after.tasks[t].specId);
    }
  }

  lemma SpecStatementQuiet(db: Db, w: Statement)
    requires QuietWhenDead(db) && SpecTarget(w).Some?
    ensures QuietWhenDead(Written(db, w)) <==> !BreaksQuiet(db, w)
  {
    WrittenSpecRow(db, w);
    hide Written;
    var (s, to, _) := SpecTarget(w).value;
    var after := Written(db, w);
    if s in db.specRuntime && (to.Failed? || to.SpecWasCanceled?) && HasActiveTask(db, s) {
      var t :| t in db.tasks && db.tasks[t].specId == s && db.tasks[t].state.Active?;
      assert after.tasks[t].state.Active? && Dead(after, after.tasks[t].specId);
    }
  }

  /**
   Statement by statement, wherever they land: dead specs stay quiet exactly if the statement neither sets a task of a
   dead spec to work nor kills a spec that has active tasks, whose sweep is then still to come.
   */
  lemma StatementKeepsDeadQuietIff(db: Db, w: Statement)
    requires QuietWhenDead(db)
    ensures QuietWhenDead(Written(db, w)) <==> !BreaksQuiet(db, w)
  {
    if TaskTarget(w).Some? {
      TaskStatementQuiet(db, w);
    } else if SpecTarget(w).Some? {
      SpecStatementQuiet(db, w);
    } else {
      RowEventKeepsLifecycle(db, w.e, w.at);
      hide Emit;
    }
  }
}
