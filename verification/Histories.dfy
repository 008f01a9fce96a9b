/**
 Everything that writes the database, in any order and any number: repo operations, emits as a whole or statement by
 statement, dispatches, cleans, prunes, recoveries and drains. What holds of every database such a history can reach.
 */
module Histories {
  import opened Outcomes
  import opened Digraph
  import opened Schema
  import S = Statements
  import opened Operations
  import opened Bus
  import opened SpecValidation
  import opened Dispatch
  import opened DispatchInsert
  import Clean
  import Lifecycle

  datatype Act =
    | RepoOp(op: Op)
    | BusEmit(e: Event, at: Time)
    | LateStatement(w: Statement)
    | PersistDispatch(title: string, plan: seq<RawTask>, specId: SpecId, minted: seq<TaskId>, at: Time)
    | CleanUp(s: SpecId)
    | PruneRuns(s: SpecId, cutoff: Time)
    | RecoverFromCrash(faultySpecs: set<SpecId>, at: Time)
    | DrainForRestart(faultyTasks: set<TaskId>, at: Time)

  /** What `validate` guarantees of the plans that reach `insert_dispatch`, and the id supply of the ids it mints. */
  ghost predicate ValidPlan(plan: seq<RawTask>, minted: seq<TaskId>) {
    && |minted| == |plan| && Distinct(minted)
    && RefsDistinct(plan) && DepsResolve(plan) && Acyclic(TaskEdges(plan))
    && Resolvable(plan, RefToId(plan, minted))
  }

  /** One act; a refused or rolled-back one leaves the database as it was. */
  ghost predicate Does(before: Db, act: Act, after: Db) {
    match act
    case RepoOp(op) => after == Step(before, op)
    case BusEmit(e, at) => after == Emitted(before, Emit(before, e, at))
    case LateStatement(w) => after == Written(before, w)
    case PersistDispatch(title, plan, s, minted, at) =>
      after == before
      || (ValidPlan(plan, minted)
          && CanInsert(before, PlanOf(title, plan, s, minted))
          && after == Dispatched(before, PlanOf(title, plan, s, minted), at))
    case CleanUp(s) =>
      after == before
      || (after == Clean.Cleaned(before, s)
          && exists order :: Clean.VisitsOwn(before, s, order) && Clean.CascadeUnblocked(before, s, order))
    case PruneRuns(s, cutoff) => after == Clean.Pruned(before, s, cutoff)
    case RecoverFromCrash(faulty, at) => after == Lifecycle.Recovered(before, faulty, at)
    case DrainForRestart(faulty, at) => after == Lifecycle.Drained(before, faulty, at)
  }

  ghost predicate EventKeepsToOneSpec(db: Db, e: Event) {
    && (e.PhaseStarted? ==> StartsWithItsTask(db, e.spec, e.owner))
    && (e.DecisionMade? ==> RowJoinsItsSpec(db, e.decision, e.row))
  }

  /** The rows an act inserts keep to one spec. */
  ghost predicate KeepsToOneSpec(db: Db, act: Act) {
    match act
    case RepoOp(op) => RespectsSpecs(db, op)
    case BusEmit(e, _) => EventKeepsToOneSpec(db, e)
    case LateStatement(w) => w.OfEvent? ==> EventKeepsToOneSpec(db, w.e)
    case _ => true
  }

  // ----- Emits -----

  lemma RewritingTasks(db: Db, tasks: map<TaskId, TaskRow>)
    requires Valid(db) && tasks.Keys == db.tasks.Keys
    requires forall t :: t in tasks ==> tasks[t].specId == db.tasks[t].specId
    ensures Keeps(db, db.(tasks := tasks), true)
  {}

  lemma RewritingSpecRows(db: Db, rows: map<SpecId, SpecRow>)
    requires Valid(db) && rows.Keys == db.specRuntime.Keys
    requires forall s :: s in rows ==>
               rows[s].currentVersion == db.specRuntime[s].currentVersion && StatusReasonCheck(rows[s])
    ensures Keeps(db, db.(specRuntime := rows), true)
  {}

  lemma TaskEmitKeeps(db: Db, t: TaskId, to: TaskState, reason: Option<TerminalReason>, blocked: Option<BlockedReason>,
                      at: Time)
    requires Valid(db)
    ensures Keeps(db, Emitted(db, TransitionTask(db, t, to, reason, blocked, at)), true)
  {}

  lemma SpecEmitKeeps(db: Db, s: SpecId, to: SpecStatus, reason: Option<TerminalReason>, at: Time)
    requires Valid(db)
    ensures Keeps(db, Emitted(db, TransitionSpec(db, s, to, reason, at)), true)
  {
    hide Valid, Coherent;
    SpecRowStepKeeps(db, OpUpdateStatus(s, to, reason, at));
    var o := S.UpdateStatus(db, s, to, reason, at);
    if o.Done? {
      RewritingTasks(o.db, StrandedSwept(o.db.tasks, s, at));
    }
  }

  /** An event on the bus keeps every constraint, and rows of one spec together if the row it inserts does. */
  lemma EmitKeepsInvariants(db: Db, e: Event, at: Time)
    requires Valid(db)
    ensures Keeps(db, Emitted(db, Emit(db, e, at)), KeepsToOneSpec(db, BusEmit(e, at)))
  {
    hide Valid, Coherent, StartsWithItsTask, RowJoinsItsSpec, TransitionTask, TransitionSpec;
    match e
    case TaskStarted(_, t) => TaskEmitKeeps(db, t, Active, None, None, at);
    case TaskBlocked(_, t, reason) => TaskEmitKeeps(db, t, Blocked, None, Some(reason), at);
    case TaskUnblocked(_, t) => TaskEmitKeeps(db, t, Active, None, None, at);
    case TaskPassed(_, t) => TaskEmitKeeps(db, t, Passing, None, None, at);
    case TaskCanceled(_, t, reason) => TaskEmitKeeps(db, t, TaskWasCanceled, Some(Cancellation(reason)), None, at);
    case SpecStarted(s) => SpecEmitKeeps(db, s, Running, None, at);
    case SpecCompleted(s) => SpecEmitKeeps(db, s, Completed, None, at);
    case SpecFailed(s, reason) => SpecEmitKeeps(db, s, Failed, Some(Failure(reason)), at);
    case SpecCanceled(s, reason) => SpecEmitKeeps(db, s, SpecWasCanceled, Some(Cancellation(reason)), at);
    case PhaseStarted(r, s, owner, phase, iteration, provider) =>
      if s in db.specRuntime {
        StartStepKeeps(db, r, s, owner, phase, iteration, db.specRuntime[s].currentVersion, provider, at);
      }
    case PhaseCompleted(r, verdict, tokensIn, tokensOut) =>
      EndStepKeeps(db, r, verdict, FilesTouched(verdict), tokensIn, tokensOut, at);
    case DecisionMade(d, row) => DecisionStepKeeps(db, d, row);
    case ObservedOnly =>
  }

  /** So does a statement of an emit that lands late, whether or not its guard still holds. */
  lemma StatementKeepsInvariants(db: Db, w: Statement)
    requires Valid(db)
    ensures Keeps(db, Written(db, w), KeepsToOneSpec(db, LateStatement(w)))
  {
    hide Valid, Coherent;
    if TaskTarget(w).Some? {
      var (t, to, reason, blocked) := TaskTarget(w).value;
      TaskRowStepKeeps(db, OpUpdateState(t, to, reason, blocked, w.at));
    } else if SpecTarget(w).Some? {
      var (s, to, reason) := SpecTarget(w).value;
      SpecRowStepKeeps(db, OpUpdateStatus(s, to, reason, w.at));
    } else {
      EmitKeepsInvariants(db, w.e, w.at);
      hide Emit, Keeps, EventKeepsToOneSpec;
    }
  }

  lemma StatementAddsNoEdge(db: Db, w: Statement)
    ensures Written(db, w).deps == db.deps
  {
    WrittenSpecRow(db, w);
    WrittenTaskRow(db, w);
    if TaskTarget(w).None? && SpecTarget(w).None? {
      EmitAddsNoEdge(db, w.e, w.at);
    } else {
      hide Written;
    }
    hide Emit;
  }

  // ----- Recovery and drain -----

  lemma FailAllKeeps(db: Db, crashed: set<SpecId>, at: Time)
    requires Valid(db)
    ensures Keeps(db, Lifecycle.FailAll(db, crashed, at), true)
  {
    var after := Lifecycle.FailAll(db, crashed, at);
    assert SpecRuntimeOk(db.specs, db.versions, db.specRuntime);
    RewritingSpecRows(db, after.specRuntime);
    hide Valid, Coherent;
    RewritingTasks(db.(specRuntime := after.specRuntime), after.tasks);
    assert after == db.(specRuntime := after.specRuntime).(tasks := after.tasks);
  }

  lemma RecoveryKeeps(db: Db, faulty: set<SpecId>, at: Time)
    requires Valid(db)
    ensures Keeps(db, Lifecycle.Recovered(db, faulty, at), true)
  {
    hide Valid, Coherent, Lifecycle.FailAll, S.CloseScope;
    var failed := Lifecycle.FailAll(db, Lifecycle.Victims(db) - faulty, at);
    FailAllKeeps(db, Lifecycle.Victims(db) - faulty, at);
    CloseStepKeeps(failed, S.EveryRun, None, at);
  }

  // ----- Whole histories -----

  lemma DoesKeeps(before: Db, act: Act, after: Db)
    requires Valid(before) && Does(before, act, after)
    ensures Keeps(before, after, KeepsToOneSpec(before, act))
  {
    hide Valid, Coherent, Step, Emit, Written, Dispatched, CanInsert, Clean.Cleaned, Clean.Pruned, Lifecycle.Recovered,
      Clean.VisitsOwn, Clean.CascadeUnblocked;
    match act
    case RepoOp(op) => StepKeepsInvariants(before, op);
    case BusEmit(e, at) => EmitKeepsInvariants(before, e, at);
    case LateStatement(w) => StatementKeepsInvariants(before, w);
    case PersistDispatch(title, plan, s, minted, at) =>
      if after != before {
        DispatchKeepsValid(before, PlanOf(title, plan, s, minted), at);
        if Coherent(before) {
          DispatchKeepsCoherent(before, title, plan, s, minted, at);
        }
      }
    case CleanUp(s) =>
      if after != before {
        var order :| Clean.VisitsOwn(before, s, order) && Clean.CascadeUnblocked(before, s, order);
        Clean.CleanedIsValid(before, s, order);
      }
    case PruneRuns(s, cutoff) => Clean.PruneKeepsValid(before, s, cutoff);
    case RecoverFromCrash(faulty, at) => RecoveryKeeps(before, faulty, at);
    case DrainForRestart(faulty, at) => RewritingTasks(before, after.tasks);
  }

  lemma FewerEdgesStayAcyclic(edges: Edges<TaskId>, fewer: Edges<TaskId>)
    requires Acyclic(edges) && fewer <= edges
    ensures Acyclic(fewer)
  {
    forall t ensures !Reaches(fewer, t, t) {
      if Reaches(fewer, t, t) {
        MoreEdgesReachMore(fewer, edges, t, t);
      }
    }
  }

  lemma NoEdgesNoCycle(edges: Edges<TaskId>)
    requires edges == {}
    ensures Acyclic(edges)
  {
    forall t ensures !Reaches(edges, t, t) {
      if Reaches(edges, t, t) {
        ReachingNeedsEdges(edges, t, t);
      }
    }
  }

  lemma StepAddsNoEdge(db: Db, op: Op)
    requires !op.OpAddDep?
    ensures Step(db, op).deps <= db.deps
  {}

  lemma EmitAddsNoEdge(db: Db, e: Event, at: Time)
    ensures Emitted(db, Emit(db, e, at)).deps == db.deps
  {}

  /**
   Plan revisions call `add_dep` with edges nobody has checked. An edge does no harm if it is refused or there already,
   or if its end does not lead back to its start.
   */
  ghost predicate ClosesNoCycle(db: Db, act: Act) {
    act.RepoOp? && act.op.OpAddDep? && act.op.t in db.tasks && act.op.dependsOn in db.tasks ==>
      || (act.op.t, act.op.dependsOn) in db.deps
      || (act.op.t != act.op.dependsOn && !Reaches(db.deps, act.op.dependsOn, act.op.t))
  }

  lemma AddDepKeepsAcyclic(db: Db, t: TaskId, dependsOn: TaskId)
    requires Valid(db) && Acyclic(db.deps)
    ensures Acyclic(Step(db, OpAddDep(t, dependsOn)).deps) <==> ClosesNoCycle(db, RepoOp(OpAddDep(t, dependsOn)))
  {
    AddingEdgeClosesCycle(db.deps, t, dependsOn);
    hide Valid, Acyclic, Reaches;
    var after := S.After(db, S.AddDep(db, t, dependsOn));
    assert Step(db, OpAddDep(t, dependsOn)) == after;
    if (t, dependsOn) in db.deps {
      assert db.deps + {(t, dependsOn)} == db.deps;
    }
  }

  /** An act keeps the task graph acyclic exactly if it closes no cycle; only `add_dep` ever can. */
  lemma DoesKeepsAcyclic(before: Db, act: Act, after: Db)
    requires Valid(before) && Acyclic(before.deps) && Does(before, act, after)
    ensures Acyclic(after.deps) <==> ClosesNoCycle(before, act)
  {
    hide Valid, Acyclic, CanInsert, Step, Emit, Written, Dispatched;
    if act.PersistDispatch? {
      if after != before {
        DispatchKeepsGraphAcyclic(before, act.title, act.plan, act.specId, act.minted, act.at);
      }
    } else if act.RepoOp? && act.op.OpAddDep? {
      AddDepKeepsAcyclic(before, act.op.t, act.op.dependsOn);
    } else {
      if act.RepoOp? {
        StepAddsNoEdge(before, act.op);
      } else if act.BusEmit? {
        EmitAddsNoEdge(before, act.e, act.at);
      } else if act.LateStatement? {
        StatementAddsNoEdge(before, act.w);
      }
      FewerEdgesStayAcyclic(before.deps, after.deps);
    }
  }

  /** Two tasks of one spec, the second waiting for the first: the edge back is accepted and closes a cycle. */
  lemma AddDepCanCloseCycle(db: Db, t: TaskId, u: TaskId)
    requires t in db.tasks && u in db.tasks && t != u && db.tasks[t].specId == db.tasks[u].specId
    requires (u, t) in db.deps && (t, u) !in db.deps
    ensures S.AddDep(db, t, u).Done? && RespectsSpecs(db, OpAddDep(t, u))
    ensures Reaches(Step(db, OpAddDep(t, u)).deps, t, t)
  {
    var after := Step(db, OpAddDep(t, u)).deps;
    EdgeReaches(after, t, u);
    EdgeReaches(after, u, t);
    ReachesTransitive(after, t, u, t);
  }

  ghost predicate HappensAt(dbs: seq<Db>, acts: seq<Act>, i: nat)
    requires i < |acts| && |dbs| == |acts| + 1
  {
    Does(dbs[i], acts[i], dbs[i + 1]) && KeepsToOneSpec(dbs[i], acts[i])
  }

  /** A history of the freshly migrated database in which every inserted row keeps to one spec. */
  ghost predicate History(dbs: seq<Db>, acts: seq<Act>) {
    && |dbs| == |acts| + 1
    && dbs[0] == EMPTY_DB
    && forall i :: 0 <= i < |acts| ==> HappensAt(dbs, acts, i)
  }

  lemma EmptyIsSound()
    ensures Valid(EMPTY_DB) && Coherent(EMPTY_DB)
  {}

  lemma HistoryStep(dbs: seq<Db>, acts: seq<Act>, i: nat)
    requires History(dbs, acts) && i < |acts|
    ensures Does(dbs[i], acts[i], dbs[i + 1]) && KeepsToOneSpec(dbs[i], acts[i])
  {
    hide Does, KeepsToOneSpec;
    assert HappensAt(dbs, acts, i);
  }

  /** Every database of every history satisfies the schema and keeps related rows under one spec. */
  lemma {:induction false} EveryReachableDbIsSound(dbs: seq<Db>, acts: seq<Act>, n: nat)
    requires History(dbs, acts) && n <= |acts|
    ensures Valid(dbs[n]) && Coherent(dbs[n])
  {
    if n > 0 {
      HistoryStep(dbs, acts, n - 1);
      hide Valid, Coherent, Does, KeepsToOneSpec, History;
      EveryReachableDbIsSound(dbs, acts, n - 1);
      DoesKeeps(dbs[n - 1], acts[n - 1], dbs[n]);
    } else {
      EmptyIsSound();
    }
  }

  ghost predicate NoCycleClosed(dbs: seq<Db>, acts: seq<Act>, n: nat)
    requires n <= |acts| && |dbs| == |acts| + 1
  {
    forall i :: 0 <= i < n ==> ClosesNoCycle(dbs[i], acts[i])
  }

  ghost predicate AllAcyclic(dbs: seq<Db>, n: nat)
    requires n < |dbs|
  {
    forall i :: 0 <= i <= n ==> Acyclic(dbs[i].deps)
  }

  /** And its task graph has been acyclic all along exactly if no act so far closed a cycle. */
  lemma {:induction false} ReachableGraphsAreAcyclic(dbs: seq<Db>, acts: seq<Act>, n: nat)
    requires History(dbs, acts) && n <= |acts|
    ensures AllAcyclic(dbs, n) <==> NoCycleClosed(dbs, acts, n)
  {
    if n > 0 {
      hide Valid, Coherent, Does, KeepsToOneSpec, Acyclic, ClosesNoCycle;
      EveryReachableDbIsSound(dbs, acts, n - 1);
      ReachableGraphsAreAcyclic(dbs, acts, n - 1);
      assert HappensAt(dbs, acts, n - 1);
      assert AllAcyclic(dbs, n) <==> AllAcyclic(dbs, n - 1) && Acyclic(dbs[n].deps);
      assert NoCycleClosed(dbs, acts, n) <==> NoCycleClosed(dbs, acts, n - 1) && ClosesNoCycle(dbs[n - 1], acts[n - 1]);
      if AllAcyclic(dbs, n - 1) {
        assert Acyclic(dbs[n - 1].deps);
        DoesKeepsAcyclic(dbs[n - 1], acts[n - 1], dbs[n]);
      }
    } else {
      NoEdgesNoCycle(dbs[0].deps);
    }
  }
}
