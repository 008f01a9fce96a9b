/**
 The heartbeat sweeper: the two queries of src/repo/phase_runs.rs that pick runs to reap, the tick of
 src/service/sweeper.rs that reaps them, and what regular ticks guarantee over any history of the store.
 */
module Sweep {
  import opened Outcomes
  import opened Digraph
  import opened Schema
  import S = Statements
  import opened Operations
  import opened Bus
  import opened Repo

  // ----- The two queries -----

  function LivenessOf(row: RunRow): Time {
    if row.lastHeartbeatAt.Some? then row.lastHeartbeatAt.value else row.startedAt
  }

  predicate IsAbandoned(row: RunRow, threshold: Time, now: Time) {
    row.IsOpen() && LivenessOf(row) < now - threshold
  }

  predicate IsOverBudget(row: RunRow, budget: Time, now: Time) {
    row.IsOpen() && row.startedAt < now - budget
  }

  function FindAbandoned(runs: map<RunId, RunRow>, threshold: Time, now: Time): set<RunId> {
    set r | r in runs && IsAbandoned(runs[r], threshold, now)
  }

  function FindOverBudget(runs: map<RunId, RunRow>, budget: Time, now: Time): set<RunId> {
    set r | r in runs && IsOverBudget(runs[r], budget, now)
  }

  // ----- The tick -----

  const STALE := "no heartbeat within the threshold"

  /** Which of the two passes reaps a run. */
  datatype Pass = HeartbeatStale | BudgetExceeded(budget: Time)

  function EventFor(pass: Pass, row: RunRow, now: Time): Event {
    match pass
    case HeartbeatStale =>
      if row.taskId.Some? then TaskBlocked(row.specId, row.taskId.value, ProviderFailed(row.provider, STALE))
      else SpecFailed(row.specId, DaemonCrash)
    case BudgetExceeded(budget) =>
      if row.taskId.Some? then
        TaskBlocked(row.specId, row.taskId.value,
                    BlockedReason.WallClockExceeded(row.phase, budget, now - row.startedAt))
      else SpecFailed(row.specId, FailureReason.WallClockExceeded(row.phase, budget, now - row.startedAt))
  }

  function VerdictFor(pass: Pass): Verdict {
    if pass.HeartbeatStale? then S.ABANDONED else S.OVER_BUDGET
  }

  /** Reaping one run: emit, then close the row whether or not the bus accepted. */
  function ReapedOne(db: Db, r: RunId, pass: Pass, now: Time): Db
    requires r in db.runs
  {
    var e := EventFor(pass, db.runs[r], now);
    S.CloseScope(Emitted(db, Emit(db, e, now)), S.OneRun(r), Some(VerdictFor(pass)), now)
  }

  function AcceptedOne(db: Db, r: RunId, pass: Pass, now: Time): nat
    requires r in db.runs
  {
    if Emit(db, EventFor(pass, db.runs[r], now), now).Accepted? then 1 else 0
  }

  /** A pass over the rows its query returned, in the order it returned them, with the count it reports. */
  function ReapedAll(db: Db, order: seq<RunId>, pass: Pass, now: Time): (Db, nat) {
    if order == [] then (db, 0)
    else
      var (before, swept) := ReapedAll(db, order[..|order| - 1], pass, now);
      var r := order[|order| - 1];
      if r in before.runs then (ReapedOne(before, r, pass, now), swept + AcceptedOne(before, r, pass, now))
      else (before, swept)
  }

  lemma BlockingTouchesNoRun(db: Db, e: Event, now: Time)
    requires e.TaskBlocked? || e.SpecFailed?
    ensures Emitted(db, Emit(db, e, now)).runs == db.runs
  {}

  /** `after` is `before` with the runs in `done` closed and every other run untouched. */
  ghost predicate ClosedAll(before: map<RunId, RunRow>, after: map<RunId, RunRow>, done: set<RunId>, verdict: Verdict,
                            now: Time)
  {
    after.Keys == before.Keys
    && forall r :: r in before ==>
         after[r] == if r in done && before[r].IsOpen() then S.RowClosed(before[r], Some(verdict), now) else before[r]
  }

  lemma ReapingOneCloses(db: Db, r: RunId, pass: Pass, now: Time)
    requires r in db.runs
    ensures ClosedAll(db.runs, ReapedOne(db, r, pass, now).runs, {r}, VerdictFor(pass), now)
  {
    BlockingTouchesNoRun(db, EventFor(pass, db.runs[r], now), now);
    hide Emit, VerdictFor;
  }

  lemma ClosingOneMore(before: map<RunId, RunRow>, between: map<RunId, RunRow>, after: map<RunId, RunRow>,
                       done: set<RunId>, r: RunId, verdict: Verdict, now: Time)
    requires ClosedAll(before, between, done, verdict, now) && ClosedAll(between, after, {r}, verdict, now)
    ensures ClosedAll(before, after, done + {r}, verdict, now)
  {}

  ghost function Members<T>(s: seq<T>): set<T> {
    set x | x in s
  }

  lemma {:induction false} ReapingCloses(db: Db, order: seq<RunId>, pass: Pass, now: Time)
    requires forall r :: r in order ==> r in db.runs
    ensures ClosedAll(db.runs, ReapedAll(db, order, pass, now).0.runs, Members(order), VerdictFor(pass), now)
  {
    hide ReapedOne, AcceptedOne, VerdictFor, Emit;
    if order != [] {
      var front, r := order[..|order| - 1], order[|order| - 1];
      ReapingCloses(db, front, pass, now);
      var before := ReapedAll(db, front, pass, now).0;
      ReapingOneCloses(before, r, pass, now);
      var after := ReapedAll(db, order, pass, now).0;
      assert after == ReapedOne(before, r, pass, now);
      ClosingOneMore(db.runs, before.runs, after.runs, Members(front), r, VerdictFor(pass), now);
      assert Members(order) == Members(front) + {r};
    }
  }

  /** A reaped run stops what it belonged to: its task is no longer active, or its spec no longer running. */
  predicate Stopped(db: Db, row: RunRow) {
    if row.taskId.Some? then row.taskId.value in db.tasks ==> !db.tasks[row.taskId.value].state.Active?
    else row.specId in db.specRuntime ==> !db.specRuntime[row.specId].status.Running?
  }

  lemma BlockingStops(db: Db, row: RunRow, pass: Pass, now: Time)
    ensures Stopped(Emitted(db, Emit(db, EventFor(pass, row, now), now)), row)
  {}

  lemma BlockingRestartsNothing(db: Db, e: Event, now: Time, row: RunRow)
    requires (e.TaskBlocked? || e.SpecFailed?) && Stopped(db, row)
    ensures Stopped(Emitted(db, Emit(db, e, now)), row)
  {}

  /** Whatever order the rows come in and whatever the bus rejects, a pass stops the owner of every run it reaps. */
  lemma {:induction false} ReapingStopsOwners(db: Db, order: seq<RunId>, pass: Pass, now: Time, r: RunId)
    requires r in order && forall q :: q in order ==> q in db.runs
    ensures Stopped(ReapedAll(db, order, pass, now).0, db.runs[r])
  {
    var front, last := order[..|order| - 1], order[|order| - 1];
    var before := ReapedAll(db, front, pass, now).0;
    ReapingCloses(db, front, pass, now);
    OwnerOfClosedRow(db.runs, before.runs, front, pass, now, r);
    if last == r {
      BlockingStops(before, before.runs[r], pass, now);
    } else {
      ReapingStopsOwners(db, front, pass, now, r);
      BlockingRestartsNothing(before, EventFor(pass, before.runs[last], now), now, db.runs[r]);
    }
    hide Emit;
  }

  /** A pass restarts nothing that is stopped. */
  lemma {:induction false} ReapingRestartsNothing(db: Db, order: seq<RunId>, pass: Pass, now: Time, row: RunRow)
    requires Stopped(db, row)
    ensures Stopped(ReapedAll(db, order, pass, now).0, row)
  {
    if order != [] {
      var front, last := order[..|order| - 1], order[|order| - 1];
      ReapingRestartsNothing(db, front, pass, now, row);
      var before := ReapedAll(db, front, pass, now).0;
      if last in before.runs {
        BlockingRestartsNothing(before, EventFor(pass, before.runs[last], now), now, row);
      }
      hide Emit;
    }
  }

  lemma OwnerOfClosedRow(before: map<RunId, RunRow>, after: map<RunId, RunRow>, done: seq<RunId>, pass: Pass, now: Time,
                         r: RunId)
    requires ClosedAll(before, after, Members(done), VerdictFor(pass), now) && r in before
    ensures after[r].taskId == before[r].taskId && after[r].specId == before[r].specId
  {}

  ghost predicate ReturnsExactly(order: seq<RunId>, found: set<RunId>) {
    Distinct(order) && forall r :: r in order <==> r in found
  }

  method ReapRow(store: Store, r: RunId, pass: Pass, now: Time) returns (accepted: bool)
    requires r in store.runs
    modifies store
    ensures store.Contents() == ReapedOne(old(store.Contents()), r, pass, now)
    ensures (if accepted then 1 else 0) == AcceptedOne(old(store.Contents()), r, pass, now)
  {
    hide Emit;
    var reply := EmitEvent(store, EventFor(pass, store.runs[r], now), now);
    var closed := store.CloseRuns(S.OneRun(r), Some(VerdictFor(pass)), now);
    accepted := reply.Ok?;
  }

  lemma ReapOneMore(db: Db, order: seq<RunId>, r: RunId, pass: Pass, now: Time)
    requires forall q :: q in order ==> q in db.runs
    requires r in db.runs
    ensures var (before, swept) := ReapedAll(db, order, pass, now);
            && r in before.runs
            && ReapedAll(db, order + [r], pass, now) ==
               (ReapedOne(before, r, pass, now), swept + AcceptedOne(before, r, pass, now))
  {
    hide ReapedOne, AcceptedOne, VerdictFor, Emit;
    var longer := order + [r];
    assert longer[..|longer| - 1] == order && longer[|longer| - 1] == r;
    ReapingCloses(db, order, pass, now);
  }

  /** One pass of a tick; `order` is the order in which the query returned its rows. */
  method SweepPass(store: Store, found: set<RunId>, pass: Pass, now: Time) returns (swept: nat, ghost order: seq<RunId>)
    requires forall r :: r in found ==> r in store.runs
    modifies store
    ensures ReturnsExactly(order, found)
    ensures (store.Contents(), swept) == ReapedAll(old(store.Contents()), order, pass, now)
  {
    hide ReapedOne, AcceptedOne;
    var todo := found;
    order, swept := [], 0;
    ghost var db := store.Contents();
    while todo != {}
      invariant Distinct(order)
      invariant forall r :: r in found <==> r in order || r in todo
      invariant forall r :: r in order ==> r !in todo
      invariant (store.Contents(), swept) == ReapedAll(db, order, pass, now)
    {
      var r :| r in todo;
      ReapOneMore(db, order, r, pass, now);
      hide ReapedAll;
      var accepted := ReapRow(store, r, pass, now);
      swept := if accepted then swept + 1 else swept;
      todo, order := todo - {r}, order + [r];
    }
  }

  /** What one tick leaves of the phase-run table: abandoned rows closed as such, other overdue rows as over budget. */
  function RunsAfterTick(runs: map<RunId, RunRow>, threshold: Time, budget: Time, now: Time): map<RunId, RunRow> {
    map r | r in runs ::
      if IsAbandoned(runs[r], threshold, now) then S.RowClosed(runs[r], Some(S.ABANDONED), now)
      else if IsOverBudget(runs[r], budget, now) then S.RowClosed(runs[r], Some(S.OVER_BUDGET), now)
      else runs[r]
  }

  lemma FoundAfterFirstPass(before: map<RunId, RunRow>, between: map<RunId, RunRow>, stale: seq<RunId>, threshold: Time,
                            budget: Time, now: Time)
    requires ReturnsExactly(stale, FindAbandoned(before, threshold, now))
    requires ClosedAll(before, between, Members(stale), S.ABANDONED, now)
    ensures FindOverBudget(between, budget, now)
            == FindOverBudget(before, budget, now) - FindAbandoned(before, threshold, now)
  {}

  lemma BothPasses(before: map<RunId, RunRow>, between: map<RunId, RunRow>, after: map<RunId, RunRow>, stale: seq<RunId>,
                   over: seq<RunId>, threshold: Time, budget: Time, now: Time)
    requires ReturnsExactly(stale, FindAbandoned(before, threshold, now))
    requires ClosedAll(before, between, Members(stale), S.ABANDONED, now)
    requires ReturnsExactly(over, FindOverBudget(between, budget, now))
    requires ClosedAll(between, after, Members(over), S.OVER_BUDGET, now)
    ensures after == RunsAfterTick(before, threshold, budget, now)
  {}

  lemma TickStopsOwners(db: Db, stale: seq<RunId>, over: seq<RunId>, budget: Time, now: Time)
    requires forall r :: r in stale || r in over ==> r in db.runs
    requires forall r :: r in over ==> r !in stale
    ensures var first := ReapedAll(db, stale, HeartbeatStale, now).0;
            var second := ReapedAll(first, over, BudgetExceeded(budget), now).0;
            forall r :: r in stale || r in over ==> Stopped(second, db.runs[r])
  {
    var first := ReapedAll(db, stale, HeartbeatStale, now).0;
    ReapingCloses(db, stale, HeartbeatStale, now);
    forall r | r in stale || r in over
      ensures Stopped(ReapedAll(first, over, BudgetExceeded(budget), now).0, db.runs[r])
    {
      if r in stale {
        ReapingStopsOwners(db, stale, HeartbeatStale, now, r);
        ReapingRestartsNothing(first, over, BudgetExceeded(budget), now, db.runs[r]);
      } else {
        ReapingStopsOwners(first, over, BudgetExceeded(budget), now, r);
        assert first.runs[r] == db.runs[r];
      }
    }
    hide ReapedAll;
  }

  /**
   Both passes together close every overdue run exactly once and stop its owner, whatever the bus makes of the emits.
   */
  method Tick(store: Store, threshold: Time, budget: Time, now: Time)
    returns (swept: nat, ghost stale: seq<RunId>, ghost over: seq<RunId>)
    modifies store
    ensures ReturnsExactly(stale, FindAbandoned(old(store.runs), threshold, now))
    ensures ReturnsExactly(over, FindOverBudget(old(store.runs), budget, now)
                                 - FindAbandoned(old(store.runs), threshold, now))
    ensures var first := ReapedAll(old(store.Contents()), stale, HeartbeatStale, now);
            var second := ReapedAll(first.0, over, BudgetExceeded(budget), now);
            store.Contents() == second.0 && swept == first.1 + second.1
    ensures forall r :: r in stale || r in over ==> Stopped(store.Contents(), old(store.runs)[r])
    ensures store.runs == RunsAfterTick(old(store.runs), threshold, budget, now)
  {
    hide ReapedAll;
    ghost var db := store.Contents();
    var more;
    swept, stale := SweepPass(store, FindAbandoned(store.runs, threshold, now), HeartbeatStale, now);
    ReapingCloses(db, stale, HeartbeatStale, now);
    ghost var between := store.Contents();
    FoundAfterFirstPass(db.runs, between.runs, stale, threshold, budget, now);
    more, over := SweepPass(store, FindOverBudget(store.runs, budget, now), BudgetExceeded(budget), now);
    ReapingCloses(between, over, BudgetExceeded(budget), now);
    swept := swept + more;
    TickStopsOwners(db, stale, over, budget, now);
    BothPasses(db.runs, between.runs, store.runs, stale, over, threshold, budget, now);
  }

  // ----- Histories -----

  /** A tick, one repo operation, or a clean or prune that takes runs away; `at` is when it happens. */
  datatype Moment = SweepAt(at: Time) | Act(op: Op, at: Time) | Delete(gone: set<RunId>, at: Time)

  datatype Settings = Settings(threshold: Time, budget: Time, interval: Time)

  ghost predicate Follows(before: Db, m: Moment, after: Db, settings: Settings) {
    match m
    case SweepAt(at) => after.runs == RunsAfterTick(before.runs, settings.threshold, settings.budget, at)
    case Act(op, at) =>
      && after == Step(before, op)
      && (op.OpInsertStart? ==> op.now == at)
      && (op.OpHeartbeat? ==> op.now == at)
    case Delete(gone, _) => after.runs == before.runs - gone
  }

  /** The last tick among the first `n` moments, or the start of the history. */
  function LastTick(moments: seq<Moment>, n: nat, start: Time): Time
    requires n <= |moments|
  {
    if n == 0 then start
    else if moments[n - 1].SweepAt? then moments[n - 1].at
    else LastTick(moments, n - 1, start)
  }

  function Clock(moments: seq<Moment>, n: nat, start: Time): Time
    requires n <= |moments|
  {
    if n == 0 then start else moments[n - 1].at
  }

  ghost predicate MomentHappens(dbs: seq<Db>, moments: seq<Moment>, start: Time, settings: Settings, i: nat)
    requires i < |moments| && |dbs| == |moments| + 1
  {
    && Follows(dbs[i], moments[i], dbs[i + 1], settings)
    && Clock(moments, i, start) <= moments[i].at <= LastTick(moments, i, start) + settings.interval
  }

  /**
   A history from an empty phase-run table. Time does not run backwards and a tick comes at most `interval` after the
   one before; between ticks anything may happen, and a tick may change the other tables as its emits please.
   */
  ghost predicate History(dbs: seq<Db>, moments: seq<Moment>, start: Time, settings: Settings) {
    && |dbs| == |moments| + 1
    && dbs[0].runs == map[]
    && settings.threshold >= 0 && settings.budget >= 0
    && forall i :: 0 <= i < |moments| ==> MomentHappens(dbs, moments, start, settings, i)
  }

  /** A step opens no run in the past: an open run was open before with the same start, or starts now. */
  lemma StepKeepsStarts(db: Db, op: Op, r: RunId)
    requires r in Step(db, op).runs && Step(db, op).runs[r].IsOpen()
    ensures || (r in db.runs && db.runs[r].IsOpen() && db.runs[r].startedAt == Step(db, op).runs[r].startedAt)
            || (op.OpInsertStart? && op.r == r && Step(db, op).runs[r].startedAt == op.now)
  {}

  lemma {:induction false} ClockPassesLastTick(dbs: seq<Db>, moments: seq<Moment>, start: Time, settings: Settings, n: nat)
    requires History(dbs, moments, start, settings) && n <= |moments|
    ensures LastTick(moments, n, start) <= Clock(moments, n, start)
  {
    hide Follows;
    if n > 0 {
      assert MomentHappens(dbs, moments, start, settings, n - 1);
      ClockPassesLastTick(dbs, moments, start, settings, n - 1);
    }
  }

  /** The last tick left nothing open that was over budget then. */
  lemma {:induction false} OpenRunsStartedLate(dbs: seq<Db>, moments: seq<Moment>, start: Time, settings: Settings, n: nat,
                                              r: RunId)
    requires History(dbs, moments, start, settings) && n <= |moments|
    requires r in dbs[n].runs && dbs[n].runs[r].IsOpen()
    ensures dbs[n].runs[r].startedAt >= LastTick(moments, n, start) - settings.budget
  {
    if n > 0 {
      hide Step;
      assert MomentHappens(dbs, moments, start, settings, n - 1);
      match moments[n - 1]
      case SweepAt(at) =>
        assert !IsOverBudget(dbs[n - 1].runs[r], settings.budget, at);
      case Act(op, at) =>
        StepKeepsStarts(dbs[n - 1], op, r);
        if r in dbs[n - 1].runs && dbs[n - 1].runs[r].IsOpen() {
          if dbs[n - 1].runs[r].startedAt == dbs[n].runs[r].startedAt {
            OpenRunsStartedLate(dbs, moments, start, settings, n - 1, r);
          }
        }
        ClockPassesLastTick(dbs, moments, start, settings, n - 1);
      case Delete(_, _) =>
        OpenRunsStartedLate(dbs, moments, start, settings, n - 1, r);
    }
  }

  /** No run is ever open longer than the budget and one tick interval, whatever else goes on. */
  lemma NoRunOutlivesItsBudget(dbs: seq<Db>, moments: seq<Moment>, start: Time, settings: Settings, n: nat, r: RunId,
                               now: Time)
    requires History(dbs, moments, start, settings) && n <= |moments|
    requires r in dbs[n].runs && dbs[n].runs[r].IsOpen()
    requires now <= LastTick(moments, n, start) + settings.interval
    ensures now - dbs[n].runs[r].startedAt <= settings.budget + settings.interval
  {
    OpenRunsStartedLate(dbs, moments, start, settings, n, r);
  }

  // ----- Heartbeats -----

  /** When run `r` last showed a sign of life: its accepted start, or a heartbeat since. */
  function LastSignal(dbs: seq<Db>, moments: seq<Moment>, n: nat, r: RunId): Option<Time>
    requires n <= |moments| && |dbs| == |moments| + 1
  {
    if n == 0 then None
    else
      var earlier := LastSignal(dbs, moments, n - 1, r);
      match moments[n - 1]
      case SweepAt(_) => earlier
      case Act(op, at) =>
        if op.OpInsertStart? && op.r == r && r !in dbs[n - 1].runs && r in dbs[n].runs then Some(at)
        else if op.OpHeartbeat? && op.r == r && r in dbs[n].runs then Some(at)
        else earlier
      case Delete(_, _) => earlier
  }

  /** An open row of `after` was open before with the same liveness, or a start or heartbeat aimed at it set it. */
  ghost predicate LivenessMoves(before: map<RunId, RunRow>, after: map<RunId, RunRow>, op: Op, r: RunId) {
    r in after && after[r].IsOpen() ==>
      if r in before then
        && before[r].IsOpen()
        && LivenessOf(after[r]) == if op.OpHeartbeat? && op.r == r then op.now else LivenessOf(before[r])
      else op.OpInsertStart? && op.r == r && LivenessOf(after[r]) == op.now
  }

  lemma StartMovesLiveness(db: Db, op: Op, r: RunId)
    requires op.OpInsertStart?
    ensures LivenessMoves(db.runs, Step(db, op).runs, op, r)
  {}

  lemma ClosersKeepLiveness(db: Db, op: Op, r: RunId)
    requires op.OpUpdateEnd? || op.OpClose?
    ensures LivenessMoves(db.runs, Step(db, op).runs, op, r)
  {}

  lemma HeartbeatMovesLiveness(db: Db, op: Op, r: RunId)
    requires op.OpHeartbeat?
    ensures LivenessMoves(db.runs, Step(db, op).runs, op, r)
  {
    var after := S.RecordHeartbeat(db, op.r, op.now).db;
    assert Step(db, op) == after;
    hide Step, S.RecordHeartbeat;
    if op.r in db.runs && db.runs[op.r].IsOpen() {
      assert after.runs == db.runs[op.r := db.runs[op.r].(lastHeartbeatAt := Some(op.now))];
    } else {
      assert after.runs == db.runs;
    }
  }

  lemma StepMovesLiveness(db: Db, op: Op, r: RunId)
    ensures LivenessMoves(db.runs, Step(db, op).runs, op, r)
  {
    if !WritesRuns(op) {
      OtherStepsKeepTables(db, op);
      hide Step;
    } else {
      hide LivenessMoves, Step;
      match op
      case OpInsertStart(_, _, _, _, _, _, _, _) => StartMovesLiveness(db, op, r);
      case OpUpdateEnd(_, _, _, _, _, _) => ClosersKeepLiveness(db, op, r);
      case OpHeartbeat(_, _) => HeartbeatMovesLiveness(db, op, r);
      case OpClose(_, _, _) => ClosersKeepLiveness(db, op, r);
    }
  }

  /** `COALESCE(last_heartbeat_at, started_at)` of an open row is the last sign of life in its history. */
  lemma {:induction false} LivenessIsLastSignal(dbs: seq<Db>, moments: seq<Moment>, start: Time, settings: Settings, n: nat,
                                               r: RunId)
    requires History(dbs, moments, start, settings) && n <= |moments|
    requires r in dbs[n].runs && dbs[n].runs[r].IsOpen()
    ensures LastSignal(dbs, moments, n, r) == Some(LivenessOf(dbs[n].runs[r]))
  {
    if n > 0 {
      hide Step, LivenessOf;
      assert MomentHappens(dbs, moments, start, settings, n - 1);
      match moments[n - 1]
      case SweepAt(at) =>
        LivenessIsLastSignal(dbs, moments, start, settings, n - 1, r);
      case Act(op, at) =>
        StepMovesLiveness(dbs[n - 1], op, r);
        if r in dbs[n - 1].runs {
          LivenessIsLastSignal(dbs, moments, start, settings, n - 1, r);
        }
      case Delete(_, _) =>
        LivenessIsLastSignal(dbs, moments, start, settings, n - 1, r);
    }
  }

  /** A tick reaps a run as abandoned exactly when it is open and its last sign of life is older than the threshold. */
  lemma AbandonedMeansSilent(dbs: seq<Db>, moments: seq<Moment>, start: Time, settings: Settings, n: nat, r: RunId)
    requires History(dbs, moments, start, settings) && n < |moments| && moments[n].SweepAt?
    ensures r in FindAbandoned(dbs[n].runs, settings.threshold, moments[n].at) <==>
              && r in dbs[n].runs && dbs[n].runs[r].IsOpen()
              && LastSignal(dbs, moments, n, r).Some?
              && moments[n].at - LastSignal(dbs, moments, n, r).value > settings.threshold
  {
    if r in dbs[n].runs && dbs[n].runs[r].IsOpen() {
      LivenessIsLastSignal(dbs, moments, start, settings, n, r);
    }
  }

  // ----- Finality -----

  /** A run of this id is started in between: after a deletion the id is free again. */
  ghost predicate StartedBetween(moments: seq<Moment>, n: nat, later: nat, r: RunId)
    requires n <= later <= |moments|
  {
    exists k :: n <= k < later && moments[k].Act? && moments[k].op.OpInsertStart? && moments[k].op.r == r
  }

  predicate GoneOrClosed(runs: map<RunId, RunRow>, r: RunId) {
    r in runs ==> !runs[r].IsOpen()
  }

  lemma StepKeepsGoneOrClosed(db: Db, op: Op, r: RunId)
    requires GoneOrClosed(db.runs, r) && !(op.OpInsertStart? && op.r == r)
    ensures GoneOrClosed(Step(db, op).runs, r)
  {
    if r in db.runs {
      ClosedRunStaysClosed(db, op, r);
    } else if r in Step(db, op).runs && Step(db, op).runs[r].IsOpen() {
      StepKeepsStarts(db, op, r);
    }
    hide Step;
  }

  lemma {:induction false} ClosedStaysClosed(dbs: seq<Db>, moments: seq<Moment>, start: Time, settings: Settings, n: nat,
                                            later: nat, r: RunId)
    requires History(dbs, moments, start, settings) && n <= later <= |moments|
    requires GoneOrClosed(dbs[n].runs, r) && !StartedBetween(moments, n, later, r)
    ensures GoneOrClosed(dbs[later].runs, r)
    decreases later
  {
    if n < later {
      hide Step;
      ClosedStaysClosed(dbs, moments, start, settings, n, later - 1, r);
      assert MomentHappens(dbs, moments, start, settings, later - 1);
      match moments[later - 1]
      case SweepAt(_) =>
      case Act(op, _) => StepKeepsGoneOrClosed(dbs[later - 1], op, r);
      case Delete(_, _) =>
    }
  }

  /** A run that one tick reaps is returned by no later tick, unless it is deleted and its id given to a new run. */
  lemma ReapedOnce(dbs: seq<Db>, moments: seq<Moment>, start: Time, settings: Settings, n: nat, later: nat, r: RunId)
    requires History(dbs, moments, start, settings) && n < later < |moments|
    requires moments[n].SweepAt? && moments[later].SweepAt?
    requires r in FindAbandoned(dbs[n].runs, settings.threshold, moments[n].at)
                  + FindOverBudget(dbs[n].runs, settings.budget, moments[n].at)
    requires !StartedBetween(moments, n + 1, later, r)
    ensures r !in FindAbandoned(dbs[later].runs, settings.threshold, moments[later].at)
    ensures r !in FindOverBudget(dbs[later].runs, settings.budget, moments[later].at)
  {
    assert MomentHappens(dbs, moments, start, settings, n);
    ClosedStaysClosed(dbs, moments, start, settings, n + 1, later, r);
  }
}
