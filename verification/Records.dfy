/**
 What no sequence of repo operations takes back: identities, snapshots, decisions and first-time stamps; and what the
 iteration counters of a task count.
 */
module Records {
  import opened Outcomes
  import opened Schema
  import opened Statements
  import opened Operations

  predicate StampKept(before: Option<Time>, after: Option<Time>) {
    before.Some? ==> after == before
  }

  ghost predicate AppendOnly<K, V>(before: map<K, V>, after: map<K, V>) {
    forall k :: k in before ==> k in after && after[k] == before[k]
  }

  ghost predicate SpecStampsKept(before: map<SpecId, SpecRow>, after: map<SpecId, SpecRow>) {
    forall s :: s in before ==>
      && s in after
      && StampKept(before[s].startedAt, after[s].startedAt)
      && StampKept(before[s].completedAt, after[s].completedAt)
  }

  ghost predicate TaskStampsKept(before: map<TaskId, TaskRow>, after: map<TaskId, TaskRow>) {
    forall t :: t in before ==>
      && t in after
      && after[t].specId == before[t].specId && after[t].taskRef == before[t].taskRef
      && StampKept(before[t].startedAt, after[t].startedAt)
      && StampKept(before[t].completedAt, after[t].completedAt)
  }

  ghost predicate RunStartsKept(before: map<RunId, RunRow>, after: map<RunId, RunRow>) {
    forall r :: r in before ==>
      r in after && SameRunIdentity(before[r], after[r]) && after[r].startedAt == before[r].startedAt
  }

  /** `after` holds everything `before` recorded for good. */
  ghost predicate Extends(before: Db, after: Db) {
    && AppendOnly(before.specs, after.specs)
    && AppendOnly(before.versions, after.versions)
    && AppendOnly(before.decisions, after.decisions)
    && SpecStampsKept(before.specRuntime, after.specRuntime)
    && TaskStampsKept(before.tasks, after.tasks)
    && RunStartsKept(before.runs, after.runs)
  }

  lemma ExtendsTransitive(a: Db, b: Db, c: Db)
    requires Extends(a, b) && Extends(b, c)
    ensures Extends(a, c)
  {}

  predicate TaskRowKept(before: TaskRow, after: TaskRow) {
    after.specId == before.specId && after.taskRef == before.taskRef
    && StampKept(before.startedAt, after.startedAt) && StampKept(before.completedAt, after.completedAt)
  }

  lemma WritingTaskKeepsStamps(tasks: map<TaskId, TaskRow>, t: TaskId, row: TaskRow)
    requires t in tasks ==> TaskRowKept(tasks[t], row)
    ensures TaskStampsKept(tasks, tasks[t := row])
  {}

  lemma StepKeepsTasks(db: Db, op: Op)
    ensures TaskStampsKept(db.tasks, Step(db, op).tasks)
  {
    hide TaskStampsKept;
    UnchangedKeepsStamps(db);
    match op
    case OpUpdateState(t, state, reason, blocked, now) =>
      if t in db.tasks {
        WritingTaskKeepsStamps(db.tasks, t, StateWritten(db.tasks[t], state, reason, blocked, now));
      }
    case OpInsertTask(t, s, taskRef) =>
      if t !in db.tasks {
        WritingTaskKeepsStamps(db.tasks, t, FreshTask(s, taskRef));
      }
    case OpIncrementTask(t, counter) =>
      if t in db.tasks {
        WritingTaskKeepsStamps(db.tasks, t, TaskBumped(db.tasks[t], counter));
      }
    case OpResetIterations(t) =>
      if t in db.tasks {
        WritingTaskKeepsStamps(db.tasks, t, CountersReset(db.tasks[t]));
      }
    case _ =>
      OtherStepsKeepTables(db, op);
      hide Step;
  }

  predicate RunRowKept(before: RunRow, after: RunRow) {
    SameRunIdentity(before, after) && after.startedAt == before.startedAt
  }

  lemma WritingRunKeepsStarts(runs: map<RunId, RunRow>, r: RunId, row: RunRow)
    requires r in runs ==> RunRowKept(runs[r], row)
    ensures RunStartsKept(runs, runs[r := row])
  {}

  lemma ClosingKeepsStarts(db: Db, scope: Scope, mark: Option<Verdict>, now: Time)
    ensures RunStartsKept(db.runs, CloseScope(db, scope, mark, now).runs)
  {}

  lemma StepKeepsRuns(db: Db, op: Op)
    ensures RunStartsKept(db.runs, Step(db, op).runs)
  {
    hide RunStartsKept, CloseScope;
    UnchangedKeepsStamps(db);
    match op
    case OpInsertStart(r, s, owner, phase, iteration, version, provider, now) =>
      if r !in db.runs {
        WritingRunKeepsStarts(db.runs, r, OpenRow(s, owner, phase, iteration, version, provider, now));
      }
    case OpUpdateEnd(r, _, _, _, _, _) =>
      if r in db.runs {
        WritingRunKeepsStarts(db.runs, r, Ended(db.runs[r], op));
      }
    case OpHeartbeat(r, now) =>
      if r in db.runs {
        WritingRunKeepsStarts(db.runs, r, db.runs[r].(lastHeartbeatAt := Some(now)));
      }
    case OpClose(scope, mark, now) => ClosingKeepsStarts(db, scope, mark, now);
    case _ =>
      OtherStepsKeepTables(db, op);
      hide Step;
  }

  lemma UnchangedKeepsStamps(db: Db)
    ensures TaskStampsKept(db.tasks, db.tasks) && RunStartsKept(db.runs, db.runs)
  {}

  lemma StepKeepsSpecRows(db: Db, op: Op)
    ensures SpecStampsKept(db.specRuntime, Step(db, op).specRuntime)
  {}

  lemma StepKeepsHistory(db: Db, op: Op)
    ensures AppendOnly(db.specs, Step(db, op).specs) && AppendOnly(db.versions, Step(db, op).versions)
  {}

  lemma StepKeepsDecisions(db: Db, op: Op)
    ensures AppendOnly(db.decisions, Step(db, op).decisions)
  {}

  lemma StepExtends(db: Db, op: Op)
    ensures Extends(db, Step(db, op))
  {
    hide Step, SpecStampsKept, TaskStampsKept, RunStartsKept, AppendOnly;
    StepKeepsTasks(db, op);
    StepKeepsRuns(db, op);
    StepKeepsSpecRows(db, op);
    StepKeepsHistory(db, op);
    StepKeepsDecisions(db, op);
  }

  /** Specs, snapshots and decisions are append-only, rows keep their identity, and a stamp once set is never moved. */
  lemma {:induction false} RunExtends(db: Db, ops: seq<Op>)
    ensures Extends(db, Run(db, ops))
    decreases |ops|
  {
    if ops == [] {
    } else {
      hide Step, Extends;
      StepExtends(db, ops[0]);
      RunExtends(Step(db, ops[0]), ops[1..]);
      ExtendsTransitive(db, Step(db, ops[0]), Run(db, ops));
    }
  }

  // ----- Iteration counters -----

  /** Read off the operations alone: increments of this counter of this task since its last reset. */
  function Counted(ops: seq<Op>, t: TaskId, counter: TaskCounter, start: int): int
    decreases |ops|
  {
    if ops == [] then start
    else if ops[0] == OpIncrementTask(t, counter) then Counted(ops[1..], t, counter, start + 1)
    else if ops[0] == OpResetIterations(t) then Counted(ops[1..], t, counter, 0)
    else Counted(ops[1..], t, counter, start)
  }

  lemma BumpCounts(row: TaskRow, bumped: TaskCounter, counter: TaskCounter)
    ensures CounterOf(TaskBumped(row, bumped), counter) == CounterOf(row, counter) + if bumped == counter then 1 else 0
    ensures CounterOf(CountersReset(row), counter) == 0
  {}

  lemma OtherStepsKeepCounters(db: Db, op: Op, t: TaskId, counter: TaskCounter)
    requires t in db.tasks && !op.OpIncrementTask? && !op.OpResetIterations?
    ensures t in Step(db, op).tasks && CounterOf(Step(db, op).tasks[t], counter) == CounterOf(db.tasks[t], counter)
  {}

  lemma StepCounts(db: Db, op: Op, t: TaskId, counter: TaskCounter)
    requires t in db.tasks
    ensures t in Step(db, op).tasks
    ensures CounterOf(Step(db, op).tasks[t], counter) ==
            if op == OpIncrementTask(t, counter) then CounterOf(db.tasks[t], counter) + 1
            else if op == OpResetIterations(t) then 0
            else CounterOf(db.tasks[t], counter)
  {
    match op
    case OpIncrementTask(u, bumped) =>
      hide CounterOf, TaskBumped;
      BumpCounts(db.tasks[t], bumped, counter);
    case OpResetIterations(u) =>
      hide CounterOf, CountersReset;
      BumpCounts(db.tasks[t], counter, counter);
    case _ =>
      hide Step;
      OtherStepsKeepCounters(db, op, t, counter);
  }

  /** Each counter counts its own increments since the last reset, whatever else happens to the task. */
  lemma {:induction false} CountersCount(db: Db, ops: seq<Op>, t: TaskId, counter: TaskCounter)
    requires t in db.tasks
    ensures t in Run(db, ops).tasks
    ensures CounterOf(Run(db, ops).tasks[t], counter) == Counted(ops, t, counter, CounterOf(db.tasks[t], counter))
    decreases |ops|
  {
    hide Step, CounterOf;
    if ops != [] {
      StepCounts(db, ops[0], t, counter);
      CountersCount(Step(db, ops[0]), ops[1..], t, counter);
    }
  }
}
