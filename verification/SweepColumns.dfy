/**
 What a tick of the sweeper leaves, column by column: which runs it closes and with which verdict, and what becomes of
 the tasks and specs they belong to, whatever order the rows come in.
 */
module SweepColumns {
  import opened Outcomes
  import opened Schema
  import S = Statements
  import opened RepoColumns
  import opened Bus
  import opened BusColumns
  import opened Sweep

  // ----- The runs -----

  /** Closed as blocked by the sweeper, for the given reason; all that the run had reported is still there. */
  predicate ClosedAsBlocked(before: RunRow, row: RunRow, synopsis: string, reason: string, now: Time) {
    && row.completedAt == Some(now) && row.synopsis == synopsis
    && row.verdict == Some(Verdict(synopsis, VBlocked(reason, None)))
    && row.filesTouched == before.filesTouched && row.lastHeartbeatAt == before.lastHeartbeatAt
    && row.tokensIn == before.tokensIn && row.tokensOut == before.tokensOut && SameRun(before, row)
  }

  /**
   A run is closed as abandoned if it is open and its last heartbeat, or its start if it never sent one, is longer ago
   than the threshold; as over budget if it is open, not abandoned, and started longer ago than the budget.
   */
  lemma TickClosesRuns(runs: map<RunId, RunRow>, threshold: Time, budget: Time, now: Time, r: RunId)
    requires r in runs
    ensures var after := RunsAfterTick(runs, threshold, budget, now);
            && after.Keys == runs.Keys
            && var before, row := runs[r], after[r];
               var signal := if before.lastHeartbeatAt == None then before.startedAt else before.lastHeartbeatAt.value;
               if before.completedAt == None && now - signal > threshold then
                 ClosedAsBlocked(before, row, "phase abandoned", "worker abandoned (sweeper detected stale heartbeat)", now)
               else if before.completedAt == None && now - before.startedAt > budget then
                 ClosedAsBlocked(before, row, "phase reaped", "phase exceeded wall-clock budget (sweeper hard cap)", now)
               else row == before
  {}

  // ----- Tasks and specs -----

  /** Why the task of a reaped run is blocked. */
  function WhyBlocked(pass: Pass, row: RunRow, now: Time): BlockedReason {
    match pass
    case HeartbeatStale => ProviderFailed(row.provider, "no heartbeat within the threshold")
    case BudgetExceeded(budget) => BlockedReason.WallClockExceeded(row.phase, budget, now - row.startedAt)
  }

  /** Why the spec of a reaped spec-level run has failed. */
  function WhyFailed(pass: Pass, row: RunRow, now: Time): FailureReason {
    match pass
    case HeartbeatStale => DaemonCrash
    case BudgetExceeded(budget) => FailureReason.WallClockExceeded(row.phase, budget, now - row.startedAt)
  }

  /** Reaping the run ends the spec: it belongs to no task and the spec is running. */
  predicate EndsSpec(db: Db, s: SpecId, row: RunRow) {
    row.taskId == None && row.specId == s && SpecIn(db, s, {Running})
  }

  /** Reaping the run stops the task: the task is active, and the run belongs to it or ends its spec. */
  predicate StopsTask(db: Db, t: TaskId, row: RunRow) {
    TaskIn(db, t, {Active}) && (row.taskId == Some(t) || EndsSpec(db, db.tasks[t].specId, row))
  }

  predicate TaskStopped(before: TaskRow, after: TaskRow, t: TaskId, pass: Pass, row: RunRow, now: Time) {
    if row.taskId == Some(t) then TaskMoved(before, after, Blocked, Some(WhyBlocked(pass, row, now)), None, now)
    else TaskMoved(before, after, TaskWasCanceled, None, Some(ParentSpecCanceled), now)
  }

  lemma ReapingOneRow(db: Db, r: RunId, pass: Pass, now: Time)
    requires r in db.runs
    ensures var e, after := EventFor(pass, db.runs[r], now), ReapedOne(db, r, pass, now);
            var emitted := Emitted(db, Emit(db, e, now));
            && after.tasks == emitted.tasks && after.specRuntime == emitted.specRuntime
            && e == match db.runs[r].taskId
                    case Some(t) => TaskBlocked(db.runs[r].specId, t, WhyBlocked(pass, db.runs[r], now))
                    case None => SpecFailed(db.runs[r].specId, WhyFailed(pass, db.runs[r], now))
  {
    hide Emit;
  }

  /** The count a pass reports: the runs that found their task active, or their spec running. */
  lemma CountsWhatItStops(db: Db, r: RunId, pass: Pass, now: Time)
    requires r in db.runs
    ensures AcceptedOne(db, r, pass, now) ==
            match db.runs[r].taskId
            case Some(t) => if TaskIn(db, t, {Active}) then 1 else 0
            case None => if SpecIn(db, db.runs[r].specId, {Running}) then 1 else 0
  {
    ReapingOneRow(db, r, pass, now);
    AcceptedExactlyFrom(db, EventFor(pass, db.runs[r], now), now);
    hide Emit, ReapedOne;
  }

  lemma ReapingOneSpec(db: Db, r: RunId, pass: Pass, now: Time, s: SpecId)
    requires r in db.runs && s in db.specRuntime
    ensures var after := ReapedOne(db, r, pass, now).specRuntime;
            && s in after
            && if EndsSpec(db, s, db.runs[r])
               then SpecMoved(db.specRuntime[s], after[s], Failed, Some(WhyFailed(pass, db.runs[r], now)), None, now)
               else after[s] == db.specRuntime[s]
  {
    ReapingOneRow(db, r, pass, now);
    var e := EventFor(pass, db.runs[r], now);
    AcceptedExactlyFrom(db, e, now);
    if LetsThrough(db, e) {
      if e.SpecFailed? {
        SpecEventWrites(db, e, now);
      } else {
        TaskEventWrites(db, e, now);
      }
    }
    hide Emit, EventFor, ReapedOne, SpecMoved, TaskMoved, WhyFailed, WhyBlocked;
  }

  lemma ReapingOneTask(db: Db, r: RunId, pass: Pass, now: Time, t: TaskId)
    requires r in db.runs && t in db.tasks
    ensures var after := ReapedOne(db, r, pass, now).tasks;
            && t in after
            && if StopsTask(db, t, db.runs[r]) then TaskStopped(db.tasks[t], after[t], t, pass, db.runs[r], now)
               else after[t] == db.tasks[t]
  {
    ReapingOneRow(db, r, pass, now);
    var e := EventFor(pass, db.runs[r], now);
    AcceptedExactlyFrom(db, e, now);
    if LetsThrough(db, e) {
      if e.SpecFailed? {
        SpecEventWrites(db, e, now);
      } else {
        TaskEventWrites(db, e, now);
      }
    }
    hide Emit, EventFor, ReapedOne, SpecMoved, TaskMoved, WhyFailed, WhyBlocked;
  }

  /** The runs a pass has still to reap are those it found, but for their closing. */
  lemma SameRunLater(db: Db, order: seq<RunId>, pass: Pass, now: Time, r: RunId)
    requires r in db.runs && forall q :: q in order ==> q in db.runs
    ensures r in ReapedAll(db, order, pass, now).0.runs
    ensures SameRun(db.runs[r], ReapedAll(db, order, pass, now).0.runs[r])
  {
    ReapingCloses(db, order, pass, now);
    hide ReapedAll, VerdictFor;
  }

  /** The first of the runs that satisfies a condition. */
  function First(order: seq<RunId>, holds: RunId -> bool): (first: Option<RunId>)
    ensures first.None? ==> forall r :: r in order ==> !holds(r)
    ensures first.Some? ==> exists k :: 0 <= k < |order| && order[k] == first.value && holds(order[k])
                                        && forall j :: 0 <= j < k ==> !holds(order[j])
  {
    if order == [] then None
    else
      var n := |order| - 1;
      var earlier := First(order[..n], holds);
      assert order == order[..n] + [order[n]];
      if earlier.Some? then earlier else if holds(order[n]) then Some(order[n]) else None
  }

  function Ending(db: Db, s: SpecId): RunId -> bool {
    r => r in db.runs && EndsSpec(db, s, db.runs[r])
  }

  function Stopping(db: Db, t: TaskId): RunId -> bool {
    r => r in db.runs && StopsTask(db, t, db.runs[r])
  }

  /** What a pass has left of a spec row. */
  ghost predicate SpecAfterPass(db: Db, order: seq<RunId>, pass: Pass, now: Time, s: SpecId, row: SpecRow)
    requires s in db.specRuntime
  {
    match First(order, Ending(db, s))
    case None => row == db.specRuntime[s]
    case Some(r) =>
      r in db.runs && SpecMoved(db.specRuntime[s], row, Failed, Some(WhyFailed(pass, db.runs[r], now)), None, now)
  }

  lemma FirstOfMore(front: seq<RunId>, r: RunId, holds: RunId -> bool)
    ensures First(front + [r], holds) ==
            if First(front, holds).Some? then First(front, holds) else if holds(r) then Some(r) else None
  {
    assert (front + [r])[..|front|] == front;
  }

  lemma EndedSpecStays(mid: Db, r: RunId, pass: Pass, now: Time, s: SpecId)
    requires r in mid.runs && s in mid.specRuntime && mid.specRuntime[s].status != Running
    ensures s in ReapedOne(mid, r, pass, now).specRuntime
    ensures ReapedOne(mid, r, pass, now).specRuntime[s] == mid.specRuntime[s]
  {
    ReapingOneSpec(mid, r, pass, now, s);
    hide ReapedOne, SpecMoved;
  }

  /** One more run: it ends the spec exactly if no earlier one has. */
  lemma SpecStep(db: Db, mid: Db, front: seq<RunId>, r: RunId, pass: Pass, now: Time, s: SpecId)
    requires r in db.runs && r in mid.runs && SameRun(db.runs[r], mid.runs[r])
    requires s in db.specRuntime && s in mid.specRuntime
    requires SpecAfterPass(db, front, pass, now, s, mid.specRuntime[s])
    ensures s in ReapedOne(mid, r, pass, now).specRuntime
    ensures SpecAfterPass(db, front + [r], pass, now, s, ReapedOne(mid, r, pass, now).specRuntime[s])
  {
    FirstOfMore(front, r, Ending(db, s));
    if First(front, Ending(db, s)).Some? {
      EndedSpecStays(mid, r, pass, now, s);
      hide ReapedOne, First, SpecMoved;
    } else {
      ReapingOneSpec(mid, r, pass, now, s);
      hide ReapedOne, First, SpecMoved;
      assert EndsSpec(mid, s, mid.runs[r]) <==> Ending(db, s)(r);
    }
  }

  /** A running spec fails with the reason of the first spec-level run of its that is reaped; any other stays as it is. */
  lemma {:induction false} PassLeavesSpec(db: Db, order: seq<RunId>, pass: Pass, now: Time, s: SpecId)
    requires s in db.specRuntime && forall q :: q in order ==> q in db.runs
    ensures var after := ReapedAll(db, order, pass, now).0;
            s in after.specRuntime && SpecAfterPass(db, order, pass, now, s, after.specRuntime[s])
  {
    if order != [] {
      var front, r := order[..|order| - 1], order[|order| - 1];
      PassLeavesSpec(db, front, pass, now, s);
      SameRunLater(db, front, pass, now, r);
      var mid := ReapedAll(db, front, pass, now).0;
      assert ReapedAll(db, order, pass, now).0 == ReapedOne(mid, r, pass, now);
      assert order == front + [r];
      hide ReapedAll, ReapedOne, SpecAfterPass;
      SpecStep(db, mid, front, r, pass, now, s);
    }
  }

  /** What a pass has left of a task row. */
  ghost predicate TaskAfterPass(db: Db, order: seq<RunId>, pass: Pass, now: Time, t: TaskId, row: TaskRow)
    requires t in db.tasks
  {
    match First(order, Stopping(db, t))
    case None => row == db.tasks[t]
    case Some(r) => r in db.runs && TaskStopped(db.tasks[t], row, t, pass, db.runs[r], now)
  }

  lemma StoppedTaskStays(mid: Db, r: RunId, pass: Pass, now: Time, t: TaskId)
    requires r in mid.runs && t in mid.tasks && mid.tasks[t].state != Active
    ensures t in ReapedOne(mid, r, pass, now).tasks
    ensures ReapedOne(mid, r, pass, now).tasks[t] == mid.tasks[t]
  {
    ReapingOneTask(mid, r, pass, now, t);
    hide ReapedOne, TaskMoved, EndsSpec;
  }

  lemma StoppedIsNotActive(before: TaskRow, after: TaskRow, t: TaskId, pass: Pass, row: RunRow, now: Time)
    requires TaskStopped(before, after, t, pass, row, now)
    ensures after.state != Active
  {}

  /** One more run: it stops the task exactly if no earlier one has. */
  lemma TaskStep(db: Db, mid: Db, front: seq<RunId>, r: RunId, pass: Pass, now: Time, t: TaskId)
    requires r in db.runs && r in mid.runs && SameRun(db.runs[r], mid.runs[r])
    requires t in db.tasks && t in mid.tasks
    requires TaskAfterPass(db, front, pass, now, t, mid.tasks[t])
    requires First(front, Stopping(db, t)).None? && TaskIn(db, t, {Active}) ==>
               (EndsSpec(mid, db.tasks[t].specId, mid.runs[r]) <==> EndsSpec(db, db.tasks[t].specId, db.runs[r]))
    ensures t in ReapedOne(mid, r, pass, now).tasks
    ensures TaskAfterPass(db, front + [r], pass, now, t, ReapedOne(mid, r, pass, now).tasks[t])
  {
    FirstOfMore(front, r, Stopping(db, t));
    var first := First(front, Stopping(db, t));
    if first.Some? {
      StoppedIsNotActive(db.tasks[t], mid.tasks[t], t, pass, db.runs[first.value], now);
      StoppedTaskStays(mid, r, pass, now, t);
      hide ReapedOne, First, TaskStopped, EndsSpec;
    } else {
      ReapingOneTask(mid, r, pass, now, t);
      hide ReapedOne, First, TaskMoved, EndsSpec;
      assert StopsTask(mid, t, mid.runs[r]) <==> Stopping(db, t)(r);
    }
  }

  /** As long as no reaped run has stopped the active task, none has ended its spec. */
  lemma SpecNotEndedYet(db: Db, mid: Db, front: seq<RunId>, pass: Pass, now: Time, t: TaskId, row: RunRow)
    requires t in db.tasks && First(front, Stopping(db, t)).None? && TaskIn(db, t, {Active})
    requires var s := db.tasks[t].specId;
             && (s in db.specRuntime <==> s in mid.specRuntime)
             && (s in db.specRuntime ==> SpecAfterPass(db, front, pass, now, s, mid.specRuntime[s]))
    ensures EndsSpec(mid, db.tasks[t].specId, row) <==> EndsSpec(db, db.tasks[t].specId, row)
  {
    var s := db.tasks[t].specId;
    forall q | q in front ensures !Ending(db, s)(q) {
      assert !Stopping(db, t)(q);
    }
    assert First(front, Ending(db, s)).None?;
    hide SpecMoved;
  }

  lemma ReapingKeepsSpecs(db: Db, r: RunId, pass: Pass, now: Time)
    requires r in db.runs
    ensures ReapedOne(db, r, pass, now).specRuntime.Keys == db.specRuntime.Keys
  {
    ReapingOneRow(db, r, pass, now);
    var e := EventFor(pass, db.runs[r], now);
    AcceptedExactlyFrom(db, e, now);
    if LetsThrough(db, e) {
      if e.SpecFailed? {
        SpecEventWrites(db, e, now);
      } else {
        TaskEventWrites(db, e, now);
      }
    }
    hide Emit, EventFor, ReapedOne, SpecMoved, TaskMoved, WhyFailed, WhyBlocked, ActiveTasksCanceled;
  }

  lemma {:induction false} PassKeepsSpecs(db: Db, order: seq<RunId>, pass: Pass, now: Time)
    ensures ReapedAll(db, order, pass, now).0.specRuntime.Keys == db.specRuntime.Keys
  {
    hide ReapedOne;
    if order != [] {
      var front, r := order[..|order| - 1], order[|order| - 1];
      PassKeepsSpecs(db, front, pass, now);
      var mid := ReapedAll(db, front, pass, now).0;
      if r in mid.runs {
        ReapingKeepsSpecs(mid, r, pass, now);
      }
    }
  }

  /**
   An active task stops with the first reaped run that concerns it: its own leaves it blocked with that run's reason, a
   spec-level one that ends its spec takes it along. Every other task stays as it is.
   */
  lemma {:induction false} PassLeavesTask(db: Db, order: seq<RunId>, pass: Pass, now: Time, t: TaskId)
    requires t in db.tasks && forall q :: q in order ==> q in db.runs
    ensures var after := ReapedAll(db, order, pass, now).0;
            t in after.tasks && TaskAfterPass(db, order, pass, now, t, after.tasks[t])
  {
    if order != [] {
      var front, r := order[..|order| - 1], order[|order| - 1];
      var mid := ReapedAll(db, front, pass, now).0;
      PassLeavesTask(db, front, pass, now, t);
      SameRunLater(db, front, pass, now, r);
      PassKeepsSpecs(db, front, pass, now);
      assert ReapedAll(db, order, pass, now).0 == ReapedOne(mid, r, pass, now);
      assert order == front + [r];
      hide ReapedAll, ReapedOne, TaskAfterPass, SpecAfterPass, First, EndsSpec;
      if First(front, Stopping(db, t)).None? && TaskIn(db, t, {Active}) {
        if db.tasks[t].specId in db.specRuntime {
          PassLeavesSpec(db, front, pass, now, db.tasks[t].specId);
        }
        SpecNotEndedYet(db, mid, front, pass, now, t, mid.runs[r]);
        SameRunEndsSame(db, db.tasks[t].specId, db.runs[r], mid.runs[r]);
      }
      TaskStep(db, mid, front, r, pass, now, t);
    }
  }

  lemma SameRunEndsSame(db: Db, s: SpecId, a: RunRow, b: RunRow)
    requires SameRun(a, b)
    ensures EndsSpec(db, s, a) <==> EndsSpec(db, s, b)
  {}
}
