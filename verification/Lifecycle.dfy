/**
 Graceful shutdown and restart of the daemon (src/cli/boot.rs): the drain that parks in-flight tasks, the recovery pass
 that fails what a dead daemon left running, and what may happen in between.
 */
module Lifecycle {
  import opened Outcomes
  import opened Schema
  import S = Statements
  import opened Repo
  import opened Bus
  import opened Digraph

  // ----- The recovery predicate -----

  predicate RunningSpec(db: Db, s: SpecId) {
    s in db.specRuntime && db.specRuntime[s].status.Running?
  }

  predicate HasActive(db: Db, s: SpecId) {
    exists t :: t in db.tasks && db.tasks[t].specId == s && db.tasks[t].state.Active?
  }

  predicate HasBlocked(db: Db, s: SpecId) {
    exists t :: t in db.tasks && db.tasks[t].specId == s && db.tasks[t].state.Blocked?
  }

  predicate HasOpenRun(db: Db, s: SpecId) {
    exists r :: r in db.runs && db.runs[r].specId == s && db.runs[r].IsOpen()
  }

  /** The run belongs to a blocked task of its own spec. */
  predicate OwnerBlocked(db: Db, row: RunRow) {
    && row.taskId.Some? && row.taskId.value in db.tasks
    && db.tasks[row.taskId.value].specId == row.specId && db.tasks[row.taskId.value].state.Blocked?
  }

  /** An open run of no task, or of a task that is not blocked, is debris of a crash. */
  predicate HasCrashDebris(db: Db, s: SpecId) {
    exists r :: r in db.runs && db.runs[r].specId == s && db.runs[r].IsOpen() && !OwnerBlocked(db, db.runs[r])
  }

  /** `awaiting_operator_recovery` */
  predicate AwaitingOperator(db: Db, s: SpecId) {
    !HasCrashDebris(db, s) && !HasActive(db, s) && HasBlocked(db, s)
  }

  function Victims(db: Db): set<SpecId> {
    set s | s in db.specRuntime && db.specRuntime[s].status.Running? && !AwaitingOperator(db, s)
  }

  /** Two databases that agree on the tasks and runs of a spec agree on whether it is awaiting its operator. */
  ghost predicate SameForSpec(a: Db, b: Db, s: SpecId) {
    && (forall t :: t in a.tasks && a.tasks[t].specId == s ==> t in b.tasks && b.tasks[t] == a.tasks[t])
    && (forall t :: t in b.tasks && b.tasks[t].specId == s ==> t in a.tasks && b.tasks[t] == a.tasks[t])
    && (forall r :: r in a.runs && a.runs[r].specId == s ==> r in b.runs && b.runs[r] == a.runs[r])
    && (forall r :: r in b.runs && b.runs[r].specId == s ==> r in a.runs && b.runs[r] == a.runs[r])
  }

  lemma AwaitingIsLocal(a: Db, b: Db, s: SpecId)
    requires SameForSpec(a, b, s)
    ensures AwaitingOperator(a, s) == AwaitingOperator(b, s)
    ensures HasActive(a, s) == HasActive(b, s) && HasOpenRun(a, s) == HasOpenRun(b, s)
  {}

  // ----- Recovery -----

  const CRASHED := Some(Failure(DaemonCrash))

  /** The effect of `SpecFailed{DaemonCrash}` emitted for each spec of `crashed`. */
  function FailAll(db: Db, crashed: set<SpecId>, now: Time): Db {
    db.(
      specRuntime := map s | s in db.specRuntime ::
        if s in crashed then S.StatusWritten(db.specRuntime[s], Failed, CRASHED, now) else db.specRuntime[s],
      tasks := map t | t in db.tasks ::
        if db.tasks[t].specId in crashed && db.tasks[t].state.Active? then
          S.StateWritten(db.tasks[t], TaskWasCanceled, SWEPT, None, now)
        else db.tasks[t])
  }

  /** One whole pass: the emits that do not fault, then every open run is closed. */
  function Recovered(db: Db, faulty: set<SpecId>, now: Time): Db {
    S.CloseOrphaned(FailAll(db, Victims(db) - faulty, now), now)
  }

  lemma FailOneMore(db: Db, crashed: set<SpecId>, s: SpecId, now: Time)
    requires RunningSpec(db, s) && s !in crashed
    ensures TransitionSpec(FailAll(db, crashed, now), s, Failed, CRASHED, now) == Accepted(FailAll(db, crashed + {s}, now))
  {
    var before := FailAll(db, crashed, now);
    var o := S.UpdateStatus(before, s, Failed, CRASHED, now);
    assert o.Done?;
    var after := FailAll(db, crashed + {s}, now);
    assert o.db.specRuntime == after.specRuntime;
    assert StrandedSwept(o.db.tasks, s, now) == after.tasks;
  }

  lemma FailingOthersIsLocal(db: Db, crashed: set<SpecId>, s: SpecId, now: Time)
    requires s !in crashed
    ensures AwaitingOperator(FailAll(db, crashed, now), s) == AwaitingOperator(db, s)
  {
    AwaitingIsLocal(db, FailAll(db, crashed, now), s);
  }

  /** One turn of the recovery loop. */
  method RecoverRow(store: Store, s: SpecId, faulty: set<SpecId>, now: Time, ghost db: Db, ghost crashed: set<SpecId>)
    returns (failed: bool, stuck: bool)
    requires RunningSpec(db, s) && s !in crashed
    requires store.Contents() == FailAll(db, crashed, now)
    modifies store
    ensures failed <==> s in Victims(db) && s !in faulty
    ensures stuck <==> s in Victims(db) && s in faulty
    ensures store.Contents() == FailAll(db, if failed then crashed + {s} else crashed, now)
  {
    FailingOthersIsLocal(db, crashed, s, now);
    FailOneMore(db, crashed, s, now);
    hide FailAll, AwaitingOperator, TransitionSpec;
    var waiting := AwaitingOperator(store.Contents(), s);
    if waiting {
      return false, false;
    } else if s in faulty {
      return false, true;
    }
    var emitted := TransitionSpecRow(store, s, Failed, CRASHED, now);
    return true, false;
  }

  /**
   `recover_after_crash`, visiting the rows of `spec_runtime` in any order. An emit may fault, leaving its spec running;
   the pass goes on and reports the failure at the end.
   */
  method RecoverAfterCrash(store: Store, faulty: set<SpecId>, now: Time)
    returns (recovered: nat, failedRecovery: nat, closed: nat)
    modifies store
    ensures store.Contents() == Recovered(old(store.Contents()), faulty, now)
    ensures recovered == |Victims(old(store.Contents())) - faulty|
    ensures failedRecovery == |Victims(old(store.Contents())) * faulty|
    ensures closed == |OpenRuns(old(store.runs))|
  {
    ghost var db := store.Contents();
    ghost var failing := Victims(db) - faulty;
    ghost var stuckOnes := Victims(db) * faulty;
    var before := store.specRuntime;
    var todo := before.Keys;
    recovered, failedRecovery := 0, 0;
    FailNobody(db, now);
    TakenAtTheEnds(failing, todo);
    TakenAtTheEnds(stuckOnes, todo);
    hide FailAll, Victims, AwaitingOperator, Taken;
    while todo != {}
      invariant todo <= before.Keys
      invariant recovered == |Taken(failing, todo)| && failedRecovery == |Taken(stuckOnes, todo)|
      invariant store.Contents() == FailAll(db, Taken(failing, todo), now)
    {
      var s :| s in todo;
      TakeOne(failing, todo, s);
      TakeOne(stuckOnes, todo, s);
      if before[s].status.Running? {
        var failed, stuck := RecoverRow(store, s, faulty, now, db, Taken(failing, todo));
        recovered := if failed then recovered + 1 else recovered;
        failedRecovery := if stuck then failedRecovery + 1 else failedRecovery;
      } else {
        OnlyRunningSpecsAreVictims(db, s);
      }
      todo := todo - {s};
    }
    closed := store.CloseRuns(S.EveryRun, None, now);
    ClosingChangesOpenRuns(db, now);
    assert store.runs == S.CloseOrphaned(db, now).runs;
  }

  function OpenRuns(runs: map<RunId, RunRow>): set<RunId> {
    set r | r in runs && runs[r].IsOpen()
  }

  lemma ClosingChangesOpenRuns(db: Db, now: Time)
    ensures (set r | r in db.runs && S.CloseOrphaned(db, now).runs[r] != db.runs[r]) == OpenRuns(db.runs)
  {}

  lemma OnlyRunningSpecsAreVictims(db: Db, s: SpecId)
    ensures s in Victims(db) ==> RunningSpec(db, s)
  {}

  /** The chosen ones already taken off a worklist. */
  ghost function Taken<T>(chosen: set<T>, todo: set<T>): set<T> {
    chosen - todo
  }

  lemma TakeOne<T>(chosen: set<T>, todo: set<T>, s: T)
    requires s in todo
    ensures s !in Taken(chosen, todo)
    ensures Taken(chosen, todo - {s}) == if s in chosen then Taken(chosen, todo) + {s} else Taken(chosen, todo)
    ensures |Taken(chosen, todo - {s})| == |Taken(chosen, todo)| + (if s in chosen then 1 else 0)
  {}

  lemma TakenAtTheEnds<T>(chosen: set<T>, all: set<T>)
    requires chosen <= all
    ensures Taken(chosen, all) == {} && Taken(chosen, {}) == chosen
  {}

  lemma FailNobody(db: Db, now: Time)
    ensures FailAll(db, {}, now) == db
  {}

  /** After a pass without faults nothing is open, and whatever still runs waits for its operator. */
  lemma RecoveredIsQuiet(db: Db, now: Time)
    ensures var after := Recovered(db, {}, now);
            && (forall r :: r in after.runs ==> !after.runs[r].IsOpen())
            && (forall s :: RunningSpec(after, s) ==> HasBlocked(after, s) && !HasActive(after, s))
            && Victims(after) == {}
  {
    var after := Recovered(db, {}, now);
    forall s | RunningSpec(after, s) ensures HasBlocked(after, s) && !HasActive(after, s) {
      assert s !in Victims(db) && RunningSpec(db, s);
      assert AwaitingOperator(db, s);
      var t :| t in db.tasks && db.tasks[t].specId == s && db.tasks[t].state.Blocked?;
      assert after.tasks[t] == db.tasks[t];
    }
  }

  /** A second pass changes nothing. */
  lemma RecoveryIsIdempotent(db: Db, now: Time, later: Time)
    ensures Recovered(Recovered(db, {}, now), {}, later) == Recovered(db, {}, now)
  {
    var after := Recovered(db, {}, now);
    RecoveredIsQuiet(db, now);
    FailNobody(after, later);
    assert Victims(after) - {} == {};
    assert S.CloseOrphaned(after, later).runs == after.runs;
  }

  // ----- A crash in the middle of recovery -----

  function Unstamp(at: Option<Time>): Option<Time> {
    if at.Some? then Some(0) else None
  }

  predicate SameSpecRow(a: SpecRow, b: SpecRow) {
    a.(completedAt := Unstamp(a.completedAt)) == b.(completedAt := Unstamp(b.completedAt))
  }

  predicate SameTaskRow(a: TaskRow, b: TaskRow) {
    a.(completedAt := Unstamp(a.completedAt)) == b.(completedAt := Unstamp(b.completedAt))
  }

  predicate SameRunRow(a: RunRow, b: RunRow) {
    a.(completedAt := Unstamp(a.completedAt)) == b.(completedAt := Unstamp(b.completedAt))
  }

  /** Equal but for completion times: the two passes of an interrupted recovery read the clock twice. */
  ghost predicate SameButStamps(a: Db, b: Db) {
    && a.(specRuntime := b.specRuntime, tasks := b.tasks, runs := b.runs) == b
    && a.specRuntime.Keys == b.specRuntime.Keys && a.tasks.Keys == b.tasks.Keys && a.runs.Keys == b.runs.Keys
    && (forall s :: s in a.specRuntime ==> SameSpecRow(a.specRuntime[s], b.specRuntime[s]))
    && (forall t :: t in a.tasks ==> SameTaskRow(a.tasks[t], b.tasks[t]))
    && (forall r :: r in a.runs ==> SameRunRow(a.runs[r], b.runs[r]))
  }

  /** The state a crash leaves once the emits for `done`, any of the victims, have gone through. */
  lemma VictimsLeftOver(db: Db, done: set<SpecId>, at: Time)
    requires done <= Victims(db)
    ensures Victims(FailAll(db, done, at)) == Victims(db) - done
  {
    var cut := FailAll(db, done, at);
    forall s ensures s in Victims(cut) <==> s in Victims(db) - done {
      if s !in done {
        FailingOthersIsLocal(db, done, s, at);
      }
    }
  }

  function RecoveredSpecRow(row: SpecRow, failed: bool, now: Time): SpecRow {
    if failed then S.StatusWritten(row, Failed, CRASHED, now) else row
  }

  function RecoveredTaskRow(row: TaskRow, failed: bool, now: Time): TaskRow {
    if failed && row.state.Active? then S.StateWritten(row, TaskWasCanceled, SWEPT, None, now) else row
  }

  /** What the emits do to each row, table by table. */
  lemma FailAllRows(db: Db, crashed: set<SpecId>, now: Time)
    ensures var after := FailAll(db, crashed, now);
            && after == db.(specRuntime := after.specRuntime, tasks := after.tasks)
            && after.specRuntime.Keys == db.specRuntime.Keys && after.tasks.Keys == db.tasks.Keys
            && (forall s :: s in db.specRuntime ==>
                  after.specRuntime[s] == RecoveredSpecRow(db.specRuntime[s], s in crashed, now))
            && (forall t :: t in db.tasks ==>
                  after.tasks[t] == RecoveredTaskRow(db.tasks[t], db.tasks[t].specId in crashed, now))
  {}

  /** What one pass does to each row, table by table. */
  lemma RecoveredRows(db: Db, now: Time)
    ensures var after := Recovered(db, {}, now);
            && after == db.(specRuntime := after.specRuntime, tasks := after.tasks, runs := after.runs)
            && after.specRuntime.Keys == db.specRuntime.Keys && after.tasks.Keys == db.tasks.Keys
            && (forall s :: s in db.specRuntime ==>
                  after.specRuntime[s] == RecoveredSpecRow(db.specRuntime[s], s in Victims(db), now))
            && (forall t :: t in db.tasks ==>
                  after.tasks[t] == RecoveredTaskRow(db.tasks[t], db.tasks[t].specId in Victims(db), now))
            && after.runs.Keys == db.runs.Keys
            && (forall r :: r in db.runs ==> SameRunRow(after.runs[r], db.runs[r].(completedAt := Some(0))))
  {}

  lemma SpecRowTwice(row: SpecRow, done: bool, victim: bool, first: Time, second: Time, only: Time)
    requires done ==> victim
    ensures SameSpecRow(RecoveredSpecRow(RecoveredSpecRow(row, done, first), victim && !done, second),
                        RecoveredSpecRow(row, victim, only))
  {}

  lemma TaskRowTwice(row: TaskRow, done: bool, victim: bool, first: Time, second: Time, only: Time)
    requires done ==> victim
    ensures RecoveredTaskRow(row, done, first).specId == row.specId
    ensures SameTaskRow(RecoveredTaskRow(RecoveredTaskRow(row, done, first), victim && !done, second),
                        RecoveredTaskRow(row, victim, only))
  {}

  lemma RestartedSpecRows(db: Db, done: set<SpecId>, first: Time, second: Time, only: Time, s: SpecId)
    requires done <= Victims(db) && s in db.specRuntime
    ensures var twice, once := Recovered(FailAll(db, done, first), {}, second), Recovered(db, {}, only);
            s in twice.specRuntime && s in once.specRuntime && SameSpecRow(twice.specRuntime[s], once.specRuntime[s])
  {
    VictimsLeftOver(db, done, first);
    RecoveredRows(db, only);
    FailAllRows(db, done, first);
    RecoveredRows(FailAll(db, done, first), second);
    hide Recovered, FailAll, Victims, RecoveredSpecRow, RecoveredTaskRow, SameSpecRow, SameRunRow;
    SpecRowTwice(db.specRuntime[s], s in done, s in Victims(db), first, second, only);
  }

  lemma RestartedTaskRows(db: Db, done: set<SpecId>, first: Time, second: Time, only: Time, t: TaskId)
    requires done <= Victims(db) && t in db.tasks
    ensures var twice, once := Recovered(FailAll(db, done, first), {}, second), Recovered(db, {}, only);
            t in twice.tasks && t in once.tasks && SameTaskRow(twice.tasks[t], once.tasks[t])
  {
    VictimsLeftOver(db, done, first);
    RecoveredRows(db, only);
    FailAllRows(db, done, first);
    RecoveredRows(FailAll(db, done, first), second);
    hide Recovered, FailAll, Victims, RecoveredSpecRow, RecoveredTaskRow, SameTaskRow, SameRunRow;
    var s := db.tasks[t].specId;
    TaskRowTwice(db.tasks[t], s in done, s in Victims(db), first, second, only);
  }

  lemma RestartedRest(db: Db, done: set<SpecId>, first: Time, second: Time, only: Time)
    requires done <= Victims(db)
    ensures var twice, once := Recovered(FailAll(db, done, first), {}, second), Recovered(db, {}, only);
            && twice.(specRuntime := once.specRuntime, tasks := once.tasks, runs := once.runs) == once
            && twice.specRuntime.Keys == once.specRuntime.Keys && twice.tasks.Keys == once.tasks.Keys
            && twice.runs.Keys == once.runs.Keys
            && (forall r :: r in twice.runs ==> SameRunRow(twice.runs[r], once.runs[r]))
  {
    RecoveredRows(db, only);
    FailAllRows(db, done, first);
    RecoveredRows(FailAll(db, done, first), second);
    hide Recovered, FailAll, Victims, RecoveredSpecRow, RecoveredTaskRow;
  }

  /**
   Recovery can be restarted: cut off after any of its emits and then run again in full, it ends where one
   uninterrupted pass ends.
   */
  lemma RecoveryIsRestartable(db: Db, done: set<SpecId>, first: Time, second: Time, only: Time)
    requires done <= Victims(db)
    ensures SameButStamps(Recovered(FailAll(db, done, first), {}, second), Recovered(db, {}, only))
  {
    var twice, once := Recovered(FailAll(db, done, first), {}, second), Recovered(db, {}, only);
    RestartedRest(db, done, first, second, only);
    hide Recovered, FailAll, Victims, SameSpecRow, SameTaskRow, SameRunRow;
    forall s | s in twice.specRuntime ensures SameSpecRow(twice.specRuntime[s], once.specRuntime[s]) {
      FailAllRows(db, done, first);
      RecoveredRows(FailAll(db, done, first), second);
      RestartedSpecRows(db, done, first, second, only, s);
    }
    forall t | t in twice.tasks ensures SameTaskRow(twice.tasks[t], once.tasks[t]) {
      FailAllRows(db, done, first);
      RecoveredRows(FailAll(db, done, first), second);
      RestartedTaskRows(db, done, first, second, only, t);
    }
  }

  lemma SameButStampsTransitive(a: Db, b: Db, c: Db)
    requires SameButStamps(a, b) && SameButStamps(b, c)
    ensures SameButStamps(a, c)
  {}

  /**
   An emit is not one transaction: the status of the spec is committed before its active tasks are swept. `swept` are
   the tasks of `s` that the sweep reached before the crash.
   */
  function CutInsideSweep(db: Db, s: SpecId, swept: set<TaskId>, now: Time): Db
    requires s in db.specRuntime
  {
    db.(
      specRuntime := db.specRuntime[s := S.StatusWritten(db.specRuntime[s], Failed, CRASHED, now)],
      tasks := map t | t in db.tasks ::
        if t in swept then S.StateWritten(db.tasks[t], TaskWasCanceled, SWEPT, None, now) else db.tasks[t])
  }

  function ActiveTasks(db: Db, s: SpecId): set<TaskId> {
    set t | t in db.tasks && db.tasks[t].specId == s && db.tasks[t].state.Active?
  }

  lemma CrashInsideFirstSweep(db: Db, s: SpecId, swept: set<TaskId>, first: Time, second: Time, only: Time)
    requires s in Victims(db) && swept <= ActiveTasks(db, s)
    ensures SameButStamps(Recovered(CutInsideSweep(db, s, swept, first), {}, second), Recovered(db, {}, only))
            <==> swept == ActiveTasks(db, s)
  {
    if swept == ActiveTasks(db, s) {
      FailAllRows(db, {s}, first);
      var cut := CutInsideSweep(db, s, swept, first);
      assert cut.specRuntime == FailAll(db, {s}, first).specRuntime;
      assert cut.tasks == FailAll(db, {s}, first).tasks;
      hide FailAll, Recovered, AwaitingOperator;
      RecoveryIsRestartable(db, {s}, first, second, only);
    } else {
      var t :| t in ActiveTasks(db, s) && t !in swept;
      MissedTaskStaysActive(db, s, swept, t, first, second, only);
    }
  }

  lemma OtherVictimsTasksUntouched(db: Db, done: set<SpecId>, s: SpecId, at: Time)
    requires s !in done
    ensures ActiveTasks(FailAll(db, done, at), s) == ActiveTasks(db, s)
  {}

  /**
   A crash inside the sweep of one victim, after the emits for `done`, is made good by the next boot exactly when the
   sweep was already through: a spec that is no longer `running` is never visited again, so a task missed by the sweep
   stays active.
   */
  lemma CrashInsideSweep(db: Db, done: set<SpecId>, s: SpecId, swept: set<TaskId>, first: Time, second: Time, only: Time)
    requires done <= Victims(db) && s in Victims(db) - done && swept <= ActiveTasks(db, s)
    ensures s in FailAll(db, done, first).specRuntime
    ensures SameButStamps(Recovered(CutInsideSweep(FailAll(db, done, first), s, swept, first), {}, second),
                          Recovered(db, {}, only))
            <==> swept == ActiveTasks(db, s)
  {
    var begun := FailAll(db, done, first);
    VictimsLeftOver(db, done, first);
    OtherVictimsTasksUntouched(db, done, s, first);
    assert s in begun.specRuntime;
    hide FailAll, Victims, ActiveTasks;
    assert s in Victims(begun);
    CrashInsideFirstSweep(begun, s, swept, first, second, second);
    RecoveryIsRestartable(db, done, first, second, only);
    hide SameButStamps, Recovered, CutInsideSweep;
    var cut, whole, once := Recovered(CutInsideSweep(begun, s, swept, first), {}, second), Recovered(begun, {}, second),
      Recovered(db, {}, only);
    if SameButStamps(cut, whole) {
      SameButStampsTransitive(cut, whole, once);
    }
    if SameButStamps(cut, once) {
      SameButStampsSymmetric(whole, once);
      SameButStampsTransitive(cut, once, whole);
    }
  }

  lemma SameButStampsSymmetric(a: Db, b: Db)
    requires SameButStamps(a, b)
    ensures SameButStamps(b, a)
  {}

  lemma MissedTaskStaysActive(db: Db, s: SpecId, swept: set<TaskId>, t: TaskId, first: Time, second: Time, only: Time)
    requires s in Victims(db) && t in ActiveTasks(db, s) && t !in swept
    ensures t in Recovered(CutInsideSweep(db, s, swept, first), {}, second).tasks && t in Recovered(db, {}, only).tasks
    ensures Recovered(CutInsideSweep(db, s, swept, first), {}, second).tasks[t].state.Active?
    ensures Recovered(db, {}, only).tasks[t].state.TaskWasCanceled?
  {}

  const DEMO_SPEC := SpecId("S1")
  const DEMO_TASK := TaskId("T1")
  const DEMO_RUN := RunId("P1")

  /** One running spec with one active task. */
  const DEMO := EMPTY_DB.(
    specs := map[DEMO_SPEC := 4], versions := map[(DEMO_SPEC, 1) := SnapshotRow("demo", map[], 4)],
    specRuntime := map[DEMO_SPEC := SpecRow(1, Running, None, None, Some(5), None, 0, 0)],
    tasks := map[DEMO_TASK := S.StateWritten(S.FreshTask(DEMO_SPEC, None), Active, None, None, 5)])

  /** The smallest case that shows it: one running spec with one active task, cut off right after its status was written. */
  lemma CrashInsideSweepStrandsATask()
    ensures && DEMO_SPEC in Victims(DEMO)
            && Recovered(DEMO, {}, 9).tasks[DEMO_TASK].state.TaskWasCanceled?
            && Recovered(CutInsideSweep(DEMO, DEMO_SPEC, {}, 8), {}, 9).tasks[DEMO_TASK].state.Active?
  {}

  /**
   Why the open runs are closed last: closed first, they would hide the debris of a crash, and a spec that has lost a
   spec-level phase would be spared if a task of it happens to be blocked.
   */
  lemma ClosingFirstWouldSpare(db: Db, s: SpecId, now: Time)
    ensures s in Victims(db) && s !in Victims(S.CloseOrphaned(db, now)) <==>
              RunningSpec(db, s) && !HasActive(db, s) && HasBlocked(db, s) && HasCrashDebris(db, s)
  {}

  // ----- The graceful drain -----

  const DRAINING := Some(DaemonDraining)

  /** The tasks the drain parks: the active tasks of running specs, but for those whose emit faults. */
  predicate IsParked(db: Db, faulty: set<TaskId>, t: TaskId) {
    t in db.tasks && RunningSpec(db, db.tasks[t].specId) && db.tasks[t].state.Active? && t !in faulty
  }

  function Drained(db: Db, faulty: set<TaskId>, now: Time): Db {
    db.(tasks := map t | t in db.tasks ::
      if IsParked(db, faulty, t) then S.StateWritten(db.tasks[t], Blocked, None, DRAINING, now) else db.tasks[t])
  }

  /** Parking restricted to the specs handled so far. */
  function DrainedFor(db: Db, specs: set<SpecId>, faulty: set<TaskId>, now: Time): Db {
    db.(tasks := map t | t in db.tasks ::
      if IsParked(db, faulty, t) && db.tasks[t].specId in specs then
        S.StateWritten(db.tasks[t], Blocked, None, DRAINING, now)
      else db.tasks[t])
  }

  predicate InFlight(db: Db, s: SpecId) {
    RunningSpec(db, s) && (HasActive(db, s) || HasOpenRun(db, s))
  }

  /** The given tasks, all active, parked. */
  function Parked(tasks: map<TaskId, TaskRow>, chosen: set<TaskId>, now: Time): map<TaskId, TaskRow> {
    map t | t in tasks :: if t in chosen then S.StateWritten(tasks[t], Blocked, None, DRAINING, now) else tasks[t]
  }

  lemma ParkOneMore(db: Db, tasks: map<TaskId, TaskRow>, chosen: set<TaskId>, t: TaskId, now: Time)
    requires db.tasks == Parked(tasks, chosen, now)
    requires t in tasks && tasks[t].state.Active? && t !in chosen
    ensures TransitionTask(db, t, Blocked, None, DRAINING, now)
            == Accepted(db.(tasks := Parked(tasks, chosen + {t}, now)))
  {}

  method ParkActiveTasks(store: Store, s: SpecId, faulty: set<TaskId>, now: Time)
    modifies store
    ensures var db := old(store.Contents());
            store.Contents() == db.(tasks := Parked(db.tasks, ActiveTasks(db, s) - faulty, now))
  {
    ghost var db := store.Contents();
    var todo := ActiveTasks(store.Contents(), s);
    ghost var chosen: set<TaskId> := {};
    assert Parked(db.tasks, {}, now) == db.tasks;
    while todo != {}
      invariant todo <= ActiveTasks(db, s) && todo !! chosen
      invariant chosen == ActiveTasks(db, s) - todo - faulty
      invariant store.Contents() == db.(tasks := Parked(db.tasks, chosen, now))
    {
      var t :| t in todo;
      if t !in faulty {
        ParkOneMore(store.Contents(), db.tasks, chosen, t, now);
        var parked := TransitionTaskRow(store, t, Blocked, None, DRAINING, now);
        chosen := chosen + {t};
      }
      todo := todo - {t};
    }
    assert chosen == ActiveTasks(db, s) - faulty;
  }

  lemma ParkingNextSpec(db: Db, handled: set<SpecId>, s: SpecId, faulty: set<TaskId>, now: Time)
    requires RunningSpec(db, s) && s !in handled
    ensures var d := DrainedFor(db, handled, faulty, now);
            d.(tasks := Parked(d.tasks, ActiveTasks(d, s) - faulty, now)) == DrainedFor(db, handled + {s}, faulty, now)
  {}

  function InFlightSpecs(db: Db): set<SpecId> {
    set s | s in db.specRuntime && InFlight(db, s)
  }

  lemma InFlightDecision(db: Db, s: SpecId, faulty: set<TaskId>, now: Time)
    ensures s in InFlightSpecs(db) <==> InFlight(db, s)
    ensures InFlight(db, s) ==> RunningSpec(db, s)
    ensures InFlight(db, s) ==> (s in Victims(Drained(db, faulty, now)) <==> !AwaitingOperator(Drained(db, faulty, now), s))
  {}

  /** One turn of the drain loop, with what recovery will decide about the spec if it is in flight. */
  method DrainRow(store: Store, s: SpecId, faulty: set<TaskId>, now: Time, ghost db: Db, ghost handled: set<SpecId>)
    returns (parked: bool, unsparable: bool)
    requires s in store.specRuntime && s !in handled
    requires store.Contents() == DrainedFor(db, handled, faulty, now)
    modifies store
    ensures parked <==> s in InFlightSpecs(db) && s !in Victims(Drained(db, faulty, now))
    ensures unsparable <==> s in InFlightSpecs(db) && s in Victims(Drained(db, faulty, now))
    ensures store.Contents() == DrainedFor(db, handled + {s}, faulty, now)
  {
    InFlightDecision(db, s, faulty, now);
    NotYetHandled(db, handled, s, faulty, now);
    AlreadyHandled(db, handled + {s}, s, faulty, now);
    if RunningSpec(db, s) {
      ParkingNextSpec(db, handled, s, faulty, now);
    }
    if !InFlight(db, s) {
      SkippingChangesNothing(db, handled, s, faulty, now);
    }
    hide DrainedFor, Drained, Parked, HasActive, HasOpenRun, AwaitingOperator, Victims, InFlightSpecs;
    if !store.specRuntime[s].status.Running? {
      return false, false;
    }
    if !HasActive(store.Contents(), s) && !HasOpenRun(store.Contents(), s) {
      return false, false;
    }
    ParkActiveTasks(store, s, faulty, now);
    parked := AwaitingOperator(store.Contents(), s);
    unsparable := !parked;
  }

  /**
   `drain_in_flight_specs`, visiting the specs in any order. The two tallies count the in-flight specs by what the next
   boot will decide about them: the drain asks recovery's own predicate.
   */
  method DrainInFlightSpecs(store: Store, faulty: set<TaskId>, now: Time) returns (parked: nat, unsparable: nat)
    modifies store
    ensures store.Contents() == Drained(old(store.Contents()), faulty, now)
    ensures parked == |InFlightSpecs(old(store.Contents())) - Victims(store.Contents())|
    ensures unsparable == |InFlightSpecs(old(store.Contents())) * Victims(store.Contents())|
  {
    ghost var db := store.Contents();
    ghost var saved := InFlightSpecs(db) - Victims(Drained(db, faulty, now));
    ghost var lost := InFlightSpecs(db) * Victims(Drained(db, faulty, now));
    var all := store.specRuntime.Keys;
    var todo := all;
    parked, unsparable := 0, 0;
    DrainNobody(db, faulty, now);
    InFlightSpecsRun(db);
    TakenAtTheEnds(saved, all);
    TakenAtTheEnds(lost, all);
    TakenAtTheEnds(all, all);
    hide DrainedFor, Drained, Victims, InFlightSpecs, Taken;
    while todo != {}
      invariant todo <= all && store.specRuntime.Keys == all
      invariant parked == |Taken(saved, todo)| && unsparable == |Taken(lost, todo)|
      invariant store.Contents() == DrainedFor(db, Taken(all, todo), faulty, now)
    {
      var s :| s in todo;
      TakeOne(saved, todo, s);
      TakeOne(lost, todo, s);
      TakeOne(all, todo, s);
      DrainingKeepsSpecs(db, Taken(all, todo - {s}), faulty, now);
      var p, u := DrainRow(store, s, faulty, now, db, Taken(all, todo));
      parked := if p then parked + 1 else parked;
      unsparable := if u then unsparable + 1 else unsparable;
      todo := todo - {s};
    }
    DrainedForAll(db, all, faulty, now);
  }

  lemma InFlightSpecsRun(db: Db)
    ensures InFlightSpecs(db) <= db.specRuntime.Keys
  {}

  lemma DrainingKeepsSpecs(db: Db, handled: set<SpecId>, faulty: set<TaskId>, now: Time)
    ensures DrainedFor(db, handled, faulty, now).specRuntime == db.specRuntime
  {}

  lemma DrainNobody(db: Db, faulty: set<TaskId>, now: Time)
    ensures DrainedFor(db, {}, faulty, now) == db
  {}

  lemma DrainedForAll(db: Db, handled: set<SpecId>, faulty: set<TaskId>, now: Time)
    requires db.specRuntime.Keys <= handled
    ensures DrainedFor(db, handled, faulty, now) == Drained(db, faulty, now)
  {}

  lemma NotYetHandled(db: Db, handled: set<SpecId>, s: SpecId, faulty: set<TaskId>, now: Time)
    requires s !in handled
    ensures var d := DrainedFor(db, handled, faulty, now);
            HasActive(d, s) == HasActive(db, s) && HasOpenRun(d, s) == HasOpenRun(db, s)
  {
    AwaitingIsLocal(db, DrainedFor(db, handled, faulty, now), s);
  }

  lemma AlreadyHandled(db: Db, handled: set<SpecId>, s: SpecId, faulty: set<TaskId>, now: Time)
    requires s in handled
    ensures AwaitingOperator(DrainedFor(db, handled, faulty, now), s) == AwaitingOperator(Drained(db, faulty, now), s)
  {
    AwaitingIsLocal(DrainedFor(db, handled, faulty, now), Drained(db, faulty, now), s);
  }

  lemma SkippingChangesNothing(db: Db, handled: set<SpecId>, s: SpecId, faulty: set<TaskId>, now: Time)
    requires !InFlight(db, s)
    ensures DrainedFor(db, handled + {s}, faulty, now) == DrainedFor(db, handled, faulty, now)
  {}

  // ----- Drain, restart, recovery -----

  /** The run's owner is a task of its spec that the drain leaves blocked. */
  predicate OwnerParkable(db: Db, row: RunRow) {
    && row.taskId.Some? && row.taskId.value in db.tasks && db.tasks[row.taskId.value].specId == row.specId
    && (db.tasks[row.taskId.value].state.Active? || db.tasks[row.taskId.value].state.Blocked?)
  }

  /** What it takes, before the shutdown, to come through a graceful restart. */
  predicate Parkable(db: Db, s: SpecId) {
    && (HasActive(db, s) || HasBlocked(db, s))
    && (forall r :: r in db.runs && db.runs[r].specId == s && db.runs[r].IsOpen() ==> OwnerParkable(db, db.runs[r]))
  }

  lemma DrainParksExactly(db: Db, s: SpecId, now: Time)
    requires RunningSpec(db, s)
    ensures AwaitingOperator(Drained(db, {}, now), s) <==> Parkable(db, s)
  {
    var after := Drained(db, {}, now);
    assert !HasActive(after, s);
    assert HasBlocked(after, s) <==> HasActive(db, s) || HasBlocked(db, s) by {
      if HasActive(db, s) {
        var t :| t in db.tasks && db.tasks[t].specId == s && db.tasks[t].state.Active?;
        assert after.tasks[t].state.Blocked?;
      }
      if HasBlocked(db, s) {
        var t :| t in db.tasks && db.tasks[t].specId == s && db.tasks[t].state.Blocked?;
        assert after.tasks[t].state.Blocked?;
      }
    }
    forall r | r in db.runs && db.runs[r].specId == s
      ensures OwnerBlocked(after, after.runs[r]) <==> OwnerParkable(db, db.runs[r])
    {}
  }

  /**
   The gate in `supervise`: the drain runs only after a signal, and only once the orchestrator and the sweeper, the
   other writers, have stopped.
   */
  function ShutDown(db: Db, bySignal: bool, orchestratorStopped: bool, sweeperStopped: bool, now: Time): Db {
    if bySignal && orchestratorStopped && sweeperStopped then Drained(db, {}, now) else db
  }

  /** Draining never costs a spec its life: skipping the drain can only leave recovery more to fail. */
  lemma DrainNeverHurts(db: Db, faulty: set<TaskId>, now: Time)
    ensures Victims(Drained(db, faulty, now)) <= Victims(db)
  {
    forall s | s in Victims(Drained(db, faulty, now)) ensures s in Victims(db) {
      if AwaitingOperator(db, s) {
        AwaitingIsLocal(db, Drained(db, faulty, now), s);
      }
    }
  }

  /** Who comes through a shutdown: whoever was waiting for its operator anyway and, if the gate opens, the parkable. */
  lemma WhoSurvivesShutDown(db: Db, s: SpecId, bySignal: bool, orchestratorStopped: bool, sweeperStopped: bool, now: Time)
    requires RunningSpec(db, s)
    ensures s !in Victims(ShutDown(db, bySignal, orchestratorStopped, sweeperStopped, now)) <==>
              || AwaitingOperator(db, s)
              || (bySignal && orchestratorStopped && sweeperStopped && Parkable(db, s))
  {
    DrainParksExactly(db, s, now);
    DrainNeverHurts(db, {}, now);
    hide AwaitingOperator, Parkable;
  }

  // Detached phase workers may still act once each after the drain: they hold the bus, and only their next send to the
  // dead orchestrator stops them.
  datatype LateStep =
    | LateStart(run: RunId, spec: SpecId, owner: Option<TaskId>, phase: string, iteration: nat, provider: string)
    | LateEnd(run: RunId, verdict: Verdict, tokensIn: nat, tokensOut: nat)
    | LateDecision(decision: DecisionId, row: DecisionRow)
    | LateHeartbeat(run: RunId)

  function Late(db: Db, step: LateStep, now: Time): Db {
    match step
    case LateStart(r, s, owner, phase, iteration, provider) =>
      Emitted(db, Emit(db, PhaseStarted(r, s, owner, phase, iteration, provider), now))
    case LateEnd(r, verdict, tokensIn, tokensOut) =>
      Emitted(db, Emit(db, PhaseCompleted(r, verdict, tokensIn, tokensOut), now))
    case LateDecision(d, row) => Emitted(db, Emit(db, DecisionMade(d, row), now))
    case LateHeartbeat(r) => S.RecordHeartbeat(db, r, now).db
  }

  function AllLate(db: Db, steps: seq<(LateStep, Time)>): Db
    decreases |steps|
  {
    if steps == [] then db else AllLate(Late(db, steps[0].0, steps[0].1), steps[1..])
  }

  /** A run that starts late is started for a task that is blocked, as every parked task is. */
  predicate StartsUnderBlockedTask(db: Db, step: LateStep) {
    step.LateStart? ==>
      && step.owner.Some? && step.owner.value in db.tasks
      && db.tasks[step.owner.value].specId == step.spec && db.tasks[step.owner.value].state.Blocked?
  }

  lemma LateStepKeepsLifecycle(db: Db, step: LateStep, now: Time)
    ensures Late(db, step, now).tasks == db.tasks && Late(db, step, now).specRuntime == db.specRuntime
  {}

  lemma LateStepKeepsSurvivor(db: Db, step: LateStep, now: Time, s: SpecId)
    requires AwaitingOperator(db, s) && StartsUnderBlockedTask(db, step)
    ensures AwaitingOperator(Late(db, step, now), s)
  {}

  /**
   The exact limit: a run that starts after the drain costs a survivor its life when it belongs to no blocked task of
   the spec — a spec-level phase, for one, whose worker was spawned but had not reported yet.
   */
  lemma LateStartCanLoseASurvivor(db: Db, step: LateStep, now: Time, s: SpecId)
    requires AwaitingOperator(db, s) && step.LateStart? && Late(db, step, now) != db
    ensures AwaitingOperator(Late(db, step, now), s) <==> step.spec != s || StartsUnderBlockedTask(db, step)
  {}

  lemma DemoDrains()
    ensures Valid(DEMO) && Parkable(DEMO, DEMO_SPEC)
    ensures var parked := Drained(DEMO, {}, 6);
            && parked == DEMO.(tasks := parked.tasks) && DEMO_TASK in parked.tasks
            && parked.tasks[DEMO_TASK].specId == DEMO_SPEC && parked.tasks[DEMO_TASK].state.Blocked?
            && AwaitingOperator(parked, DEMO_SPEC)
  {
    assert DEMO_TASK in DEMO.tasks && DEMO.tasks[DEMO_TASK].state.Active?;
    DrainParksExactly(DEMO, DEMO_SPEC, 6);
    hide AwaitingOperator;
  }

  lemma DebrisMakesVictim(db: Db, s: SpecId, r: RunId, now: Time)
    requires RunningSpec(db, s) && r in db.runs && db.runs[r].specId == s
    requires db.runs[r].IsOpen() && db.runs[r].taskId.None?
    ensures s in Victims(db)
    ensures s in Recovered(db, {}, now).specRuntime && Recovered(db, {}, now).specRuntime[s].status.Failed?
  {
    assert !OwnerBlocked(db, db.runs[r]);
    assert HasCrashDebris(db, s);
    RecoveredRows(db, now);
  }

  /** A spec that was drained in good order and is lost to the spec-level phase that a worker starts afterwards. */
  lemma LateSpecLevelStartLosesASpec()
    ensures var parked := Drained(DEMO, {}, 6);
            var late := Late(parked, LateStart(DEMO_RUN, DEMO_SPEC, None, "integrate", 0, "claude_code"), 7);
            && Valid(DEMO) && Parkable(DEMO, DEMO_SPEC) && AwaitingOperator(parked, DEMO_SPEC)
            && late != parked
            && DEMO_SPEC in Victims(late)
            && DEMO_SPEC in Recovered(late, {}, 8).specRuntime
            && Recovered(late, {}, 8).specRuntime[DEMO_SPEC].status.Failed?
  {
    DemoDrains();
    var parked := Drained(DEMO, {}, 6);
    hide Drained, Victims, Recovered, AwaitingOperator, Parkable, Valid;
    var late := Late(parked, LateStart(DEMO_RUN, DEMO_SPEC, None, "integrate", 0, "claude_code"), 7);
    assert DEMO_RUN in late.runs && late.runs[DEMO_RUN] == S.OpenRow(DEMO_SPEC, None, "integrate", 0, 1, "claude_code", 7);
    DebrisMakesVictim(late, DEMO_SPEC, DEMO_RUN, 8);
  }

  /**
   The control connections are not joined at shutdown either: an `unblock` that is still under way after the drain
   undoes the parking, and costs exactly the spec of its task its life.
   */
  lemma LateUnblockLosesItsSpec(db: Db, t: TaskId, now: Time, s: SpecId)
    requires AwaitingOperator(db, s) && t in db.tasks && db.tasks[t].state.Blocked?
    ensures var o := Emit(db, TaskUnblocked(db.tasks[t].specId, t), now);
            o.Accepted? && (AwaitingOperator(o.db, s) <==> db.tasks[t].specId != s)
  {
    var after := Emit(db, TaskUnblocked(db.tasks[t].specId, t), now).db;
    assert after.tasks[t].state.Active?;
    if db.tasks[t].specId != s {
      AwaitingIsLocal(db, after, s);
    }
  }

  lemma {:induction false} LateStepsKeepLifecycle(db: Db, steps: seq<(LateStep, Time)>)
    ensures AllLate(db, steps).tasks == db.tasks && AllLate(db, steps).specRuntime == db.specRuntime
    decreases |steps|
  {
    hide Late;
    if steps != [] {
      LateStepKeepsLifecycle(db, steps[0].0, steps[0].1);
      LateStepsKeepLifecycle(Late(db, steps[0].0, steps[0].1), steps[1..]);
    }
  }

  ghost predicate AllStartUnderBlockedTasks(db: Db, steps: seq<(LateStep, Time)>) {
    forall i :: 0 <= i < |steps| ==> StartsUnderBlockedTask(db, steps[i].0)
  }

  lemma {:induction false} LateStepsKeepSurvivor(db: Db, steps: seq<(LateStep, Time)>, s: SpecId)
    requires AwaitingOperator(db, s) && AllStartUnderBlockedTasks(db, steps)
    ensures AwaitingOperator(AllLate(db, steps), s)
    decreases |steps|
  {
    hide AwaitingOperator, Late;
    if steps != [] {
      var next := Late(db, steps[0].0, steps[0].1);
      LateStepKeepsLifecycle(db, steps[0].0, steps[0].1);
      LateStepKeepsSurvivor(db, steps[0].0, steps[0].1, s);
      forall i | 0 <= i < |steps| - 1 ensures StartsUnderBlockedTask(next, steps[1..][i].0) {
        assert StartsUnderBlockedTask(db, steps[i + 1].0);
      }
      LateStepsKeepSurvivor(next, steps[1..], s);
    }
  }

  /** The whole restart: drain, late steps, recovery. */
  function Restarted(db: Db, drainedAt: Time, steps: seq<(LateStep, Time)>, bootedAt: Time): Db {
    Recovered(AllLate(Drained(db, {}, drainedAt), steps), {}, bootedAt)
  }

  /**
   A running spec comes through a graceful restart untouched if it was parkable at the shutdown; with no worker left to
   act in between, if and only if.
   */
  lemma SurvivesGracefulRestart(db: Db, s: SpecId, drainedAt: Time, steps: seq<(LateStep, Time)>, bootedAt: Time)
    requires RunningSpec(db, s)
    requires AllStartUnderBlockedTasks(Drained(db, {}, drainedAt), steps)
    ensures s in Restarted(db, drainedAt, steps, bootedAt).specRuntime
    ensures Parkable(db, s) ==> Restarted(db, drainedAt, steps, bootedAt).specRuntime[s] == db.specRuntime[s]
    ensures steps == [] && !Parkable(db, s) ==>
              Restarted(db, drainedAt, steps, bootedAt).specRuntime[s].status.Failed?
  {
    hide AwaitingOperator, Parkable, Late;
    var parked := Drained(db, {}, drainedAt);
    DrainParksExactly(db, s, drainedAt);
    LateStepsKeepLifecycle(parked, steps);
    RecoveredRows(AllLate(parked, steps), bootedAt);
    if Parkable(db, s) {
      LateStepsKeepSurvivor(parked, steps, s);
    }
  }

  // ----- Reviving what was parked -----

  datatype Answer = Done(db: Db) | NoSuchTask | NotBlocked(state: TaskState) | NoSpecRow | SpecIsTerminal | EmitFailed

  /** `handle_unblock` up to its reply; a rejected command leaves the database as it was. */
  function Unblock(db: Db, t: TaskId, resetCounter: bool, now: Time): Answer {
    if t !in db.tasks then NoSuchTask
    else if !db.tasks[t].state.Blocked? then NotBlocked(db.tasks[t].state)
    else if db.tasks[t].specId !in db.specRuntime then NoSpecRow
    else if db.specRuntime[db.tasks[t].specId].status.Terminal() then SpecIsTerminal
    else
      var reset := if resetCounter then S.After(db, S.ResetIterations(db, t)) else db;
      match Emit(reset, TaskUnblocked(db.tasks[t].specId, t), now)
      case Accepted(after) => Done(after)
      case Rejected(_) => EmitFailed
  }

  function UnblockAll(db: Db, ts: seq<TaskId>, now: Time): Option<Db>
    decreases |ts|
  {
    if ts == [] then Some(db)
    else match Unblock(db, ts[0], false, now)
      case Done(after) => UnblockAll(after, ts[1..], now)
      case _ => None
  }

  /** Unblocking a parked task gives back the row it had, original start time and all. */
  lemma UnblockRestoresRow(original: TaskRow, db: Db, t: TaskId, parkedAt: Time, now: Time)
    requires ActiveRowAgrees(original) && original.state.Active?
    requires t in db.tasks && db.tasks[t] == S.StateWritten(original, Blocked, None, DRAINING, parkedAt)
    requires RunningSpec(db, original.specId)
    ensures Unblock(db, t, false, now) == Answer.Done(db.(tasks := db.tasks[t := original]))
  {}

  lemma {:induction false} UnblockAllRestoresRows(original: Db, db: Db, ts: seq<TaskId>, parkedAt: Time, now: Time)
    requires ActiveRowsAgree(original) && original.tasks.Keys == db.tasks.Keys
    requires Distinct(ts)
    requires forall t :: t in ts ==>
               && t in original.tasks && original.tasks[t].state.Active? && RunningSpec(db, original.tasks[t].specId)
               && db.tasks[t] == S.StateWritten(original.tasks[t], Blocked, None, DRAINING, parkedAt)
    ensures UnblockAll(db, ts, now).Some?
    ensures var after := UnblockAll(db, ts, now).value;
            after.tasks.Keys == db.tasks.Keys &&
            forall t :: t in db.tasks ==> after.tasks[t] == if t in ts then original.tasks[t] else db.tasks[t]
    decreases |ts|
  {
    if ts != [] {
      UnblockRestoresRow(original.tasks[ts[0]], db, ts[0], parkedAt, now);
      var next := db.(tasks := db.tasks[ts[0] := original.tasks[ts[0]]]);
      forall t | t in ts[1..] ensures t in ts && t != ts[0] && next.tasks[t] == db.tasks[t] {}
      UnblockAllRestoresRows(original, next, ts[1..], parkedAt, now);
    }
  }

  /**
   The round trip: for a spec that was parkable, drain, restart and then `unblock` on every task the drain parked are
   all accepted and give every task of the spec the row it had before the shutdown.
   */
  lemma RestartRoundTrip(db: Db, s: SpecId, ts: seq<TaskId>, drainedAt: Time, steps: seq<(LateStep, Time)>,
                         bootedAt: Time, now: Time)
    requires ActiveRowsAgree(db) && RunningSpec(db, s) && Parkable(db, s)
    requires AllStartUnderBlockedTasks(Drained(db, {}, drainedAt), steps)
    requires Distinct(ts)
    requires forall t :: t in ts <==> t in ActiveTasks(db, s)
    ensures var revived := UnblockAll(Restarted(db, drainedAt, steps, bootedAt), ts, now);
            && revived.Some?
            && revived.value.tasks.Keys == db.tasks.Keys
            && (forall t :: t in db.tasks && db.tasks[t].specId == s ==> revived.value.tasks[t] == db.tasks[t])
  {
    hide AwaitingOperator, Parkable, Late;
    var parked := Drained(db, {}, drainedAt);
    var late := AllLate(parked, steps);
    var booted := Restarted(db, drainedAt, steps, bootedAt);
    DrainParksExactly(db, s, drainedAt);
    LateStepsKeepSurvivor(parked, steps, s);
    LateStepsKeepLifecycle(parked, steps);
    RecoveredRows(late, bootedAt);
    assert s !in Victims(late);
    forall t | t in db.tasks && db.tasks[t].specId == s ensures t in booted.tasks && booted.tasks[t] == parked.tasks[t] {}
    assert RunningSpec(booted, s);
    UnblockAllRestoresRows(db, booted, ts, drainedAt, now);
  }
}
