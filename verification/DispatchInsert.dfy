/**
 `insert_dispatch` of src/repo/dispatch.rs: five tables in one transaction, and what becomes of a validated spec.
 */
module DispatchInsert {
  import opened Outcomes
  import opened Digraph
  import opened Text
  import opened SpecValidation
  import opened Schema
  import S = Statements
  import opened Repo
  import opened RepoColumns
  import opened Dispatch
  import Bus

  /** The task table with one fresh row per dispatched task. */
  function WithTasks(tasks: map<TaskId, TaskRow>, s: SpecId, rows: seq<(TaskId, Option<string>)>): map<TaskId, TaskRow> {
    if rows == [] then tasks
    else
      var n := |rows| - 1;
      WithTasks(tasks, s, rows[..n])[rows[n].0 := S.FreshTask(s, rows[n].1)]
  }

  ghost function IdsOf(rows: seq<(TaskId, Option<string>)>): seq<TaskId> {
    seq(|rows|, i requires 0 <= i < |rows| => rows[i].0)
  }

  lemma {:induction false} WithTasksRows(tasks: map<TaskId, TaskRow>, s: SpecId, rows: seq<(TaskId, Option<string>)>)
    ensures forall t :: t in WithTasks(tasks, s, rows) <==> t in tasks || t in IdsOf(rows)
    ensures forall t :: t in tasks && t !in IdsOf(rows) ==> WithTasks(tasks, s, rows)[t] == tasks[t]
    ensures forall t :: t in IdsOf(rows) ==> WithTasks(tasks, s, rows)[t].specId == s
    ensures Distinct(IdsOf(rows)) ==>
              forall i :: 0 <= i < |rows| ==>
                var id := IdsOf(rows)[i];
                id in WithTasks(tasks, s, rows) && WithTasks(tasks, s, rows)[id] == S.FreshTask(s, rows[i].1)
  {
    if rows != [] {
      var n := |rows| - 1;
      var front := IdsOf(rows[..n]);
      WithTasksRows(tasks, s, rows[..n]);
      assert IdsOf(rows) == front + [rows[n].0];
      if Distinct(IdsOf(rows)) {
        forall i, j | 0 <= i < j < |front| ensures front[i] != front[j] {
          assert IdsOf(rows)[i] != IdsOf(rows)[j];
        }
        forall i | 0 <= i < |rows|
          ensures var id := IdsOf(rows)[i];
                  id in WithTasks(tasks, s, rows) && WithTasks(tasks, s, rows)[id] == S.FreshTask(s, rows[i].1)
        {
          if i < n {
            assert rows[..n][i] == rows[i] && front[i] == IdsOf(rows)[i] && IdsOf(rows)[i] != IdsOf(rows)[n];
          }
        }
      }
    }
  }

  /** What a successful dispatch adds: one row in each of three tables, a row per task and an edge per dependency. */
  ghost function Dispatched(db: Db, rows: DispatchRows, now: Time): Db {
    var s := rows.specId;
    db.(specs := db.specs[s := now],
        versions := db.versions[(s, 1) := SnapshotRow(rows.title, rows.contracts, now)],
        specRuntime := db.specRuntime[s := S.QueuedRow(1)],
        tasks := WithTasks(db.tasks, s, rows.tasks),
        deps := db.deps + EdgeSet(rows.deps))
  }

  ghost predicate TasksFresh(db: Db, rows: DispatchRows) {
    Distinct(IdsOf(rows.tasks)) && forall t :: t in IdsOf(rows.tasks) ==> t !in db.tasks
  }

  ghost predicate DepsInsertable(db: Db, rows: DispatchRows) {
    && Distinct(rows.deps)
    && (forall e :: e in rows.deps ==>
          && e !in db.deps
          && (e.0 in db.tasks || e.0 in IdsOf(rows.tasks))
          && (e.1 in db.tasks || e.1 in IdsOf(rows.tasks)))
  }

  /** The spec id is fresh, the task ids are fresh and distinct, the edges distinct with both ends present. */
  ghost predicate CanInsert(db: Db, rows: DispatchRows) {
    rows.specId !in db.specs && TasksFresh(db, rows) && DepsInsertable(db, rows)
  }

  lemma IdsGrow(rows: seq<(TaskId, Option<string>)>, i: nat)
    requires i < |rows|
    ensures IdsOf(rows[..i + 1]) == IdsOf(rows[..i]) + [rows[i].0]
    ensures rows[i].0 in IdsOf(rows)
    ensures rows[i].0 in IdsOf(rows[..i]) ==> !Distinct(IdsOf(rows))
  {
    assert IdsOf(rows)[i] == rows[i].0;
    if rows[i].0 in IdsOf(rows[..i]) {
      var k :| 0 <= k < i && IdsOf(rows[..i])[k] == rows[i].0;
      assert IdsOf(rows)[k] == IdsOf(rows)[i];
    }
  }

  method InsertTaskRows(store: Store, s: SpecId, rows: seq<(TaskId, Option<string>)>) returns (ok: bool)
    requires s in store.specs
    modifies store
    ensures ok <==> Distinct(IdsOf(rows)) && forall t :: t in IdsOf(rows) ==> t !in old(store.tasks)
    ensures ok ==> store.Contents() == old(store.Contents()).(tasks := WithTasks(old(store.tasks), s, rows))
  {
    ghost var db := store.Contents();
    assert WithTasks(db.tasks, s, rows[..0]) == db.tasks;
    hide IdsOf;
    NoRowsNoIds();
    for i := 0 to |rows|
      invariant store.Contents() == db.(tasks := WithTasks(db.tasks, s, rows[..i]))
      invariant forall t :: t in IdsOf(rows[..i]) ==> t !in db.tasks
      invariant Distinct(IdsOf(rows[..i]))
    {
      WithTasksRows(db.tasks, s, rows[..i]);
      IdsGrow(rows, i);
      assert rows[..i + 1][..i] == rows[..i];
      var inserted := store.InsertTask(rows[i].0, s, rows[i].1);
      if inserted.Err? {
        return false;
      }
    }
    assert rows[..|rows|] == rows;
    ok := true;
  }

  lemma NoRowsNoIds()
    ensures IdsOf([]) == []
  {}

  lemma EdgeSetGrows(deps: seq<(TaskId, TaskId)>, e: (TaskId, TaskId))
    ensures EdgeSet(deps + [e]) == EdgeSet(deps) + {e}
  {}

  /** Unlike `add_dep`, this insert treats an edge that is already there as an error. */
  method InsertDepRows(store: Store, deps: seq<(TaskId, TaskId)>) returns (r: Result<(), S.RepoError>)
    modifies store
    ensures r.Ok? <==> && Distinct(deps)
                       && forall e :: e in deps ==> e !in old(store.deps) && e.0 in old(store.tasks) && e.1 in old(store.tasks)
    ensures r.Ok? ==> store.Contents() == old(store.Contents()).(deps := old(store.deps) + EdgeSet(deps))
    ensures r.Err? ==> r.error in {S.Duplicate, S.ForeignKeyViolation}
    ensures r == Err(S.ForeignKeyViolation) ==>
              exists e :: e in deps && (e.0 !in old(store.tasks) || e.1 !in old(store.tasks))
  {
    ghost var db := store.Contents();
    assert db.deps + EdgeSet(deps[..0]) == db.deps;
    for i := 0 to |deps|
      invariant store.Contents() == db.(deps := db.deps + EdgeSet(deps[..i]))
      invariant forall k :: 0 <= k < i ==> deps[k] !in db.deps && deps[k].0 in db.tasks && deps[k].1 in db.tasks
      invariant forall k, m :: 0 <= k < m < i ==> deps[k] != deps[m]
    {
      assert deps[..i + 1] == deps[..i] + [deps[i]];
      if deps[i] in store.deps { return Err(S.Duplicate); }
      if deps[i].0 !in store.tasks || deps[i].1 !in store.tasks { return Err(S.ForeignKeyViolation); }
      store.deps := store.deps + {deps[i]};
      EdgeSetGrows(deps[..i], deps[i]);
    }
    assert deps[..|deps|] == deps;
    r := Ok(());
  }

  /** The first three inserts: identity, version 1, runtime row. */
  method InsertSpecRows(store: Store, rows: DispatchRows, now: Time) returns (r: Result<(), S.RepoError>)
    requires Valid(store.Contents())
    modifies store
    ensures r.Ok? <==> rows.specId !in old(store.specs)
    ensures r.Ok? ==>
              var db, s := old(store.Contents()), rows.specId;
              store.Contents() == db.(
                specs := db.specs[s := now],
                versions := db.versions[(s, 1) := SnapshotRow(rows.title, rows.contracts, now)],
                specRuntime := db.specRuntime[s := S.QueuedRow(1)])
    ensures r.Err? ==> r.error == S.Duplicate && store.Contents() == old(store.Contents())
  {
    var s := rows.specId;
    if s !in store.specs {
      FreshSpecHasNoRows(store.Contents(), s);
    }
    hide Valid;
    r := store.InsertSpec(s, now);
    if r.Err? { return; }
    r := store.AppendVersion(s, 1, SnapshotRow(rows.title, rows.contracts, now));
    assert r.Ok?;
    r := store.InitializeSpec(s, 1);
  }

  /** `insert_dispatch`: all the described rows or none, and exactly when it succeeds. */
  method InsertDispatch(store: Store, rows: DispatchRows, now: Time) returns (r: Result<(), S.RepoError>)
    requires Valid(store.Contents())
    modifies store
    ensures r.Ok? <==> CanInsert(old(store.Contents()), rows)
    ensures r.Ok? ==> store.Contents() == Dispatched(old(store.Contents()), rows, now)
    ensures r.Err? ==> store.Contents() == old(store.Contents())
    ensures r.Err? ==> r.error == S.Duplicate || r.error == S.ForeignKeyViolation
  {
    var saved := store.Contents();
    WithTasksRows(saved.tasks, rows.specId, rows.tasks);
    hide Valid, WithTasks, IdsOf, EdgeSet;
    r := InsertSpecRows(store, rows, now);
    if r.Err? { return; }
    var ok := InsertTaskRows(store, rows.specId, rows.tasks);
    if !ok {
      store.Rollback(saved);
      return Err(S.Duplicate);
    }
    r := InsertDepRows(store, rows.deps);
    if r.Err? {
      store.Rollback(saved);
    }
  }

  /** The foreign keys make a fresh spec id fresh in the child tables as well. */
  lemma FreshSpecHasNoRows(db: Db, s: SpecId)
    requires Valid(db) && s !in db.specs
    ensures (s, 1) !in db.versions && s !in db.specRuntime
  {}

  // ----- A validated spec -----

  lemma PlanIds(title: string, tasks: seq<RawTask>, specId: SpecId, minted: seq<TaskId>)
    requires |minted| == |tasks| && Resolvable(tasks, RefToId(tasks, minted))
    ensures IdsOf(PlanOf(title, tasks, specId, minted).tasks) == minted
  {}

  /**
   Given fresh, distinct ids, the plan of a validated spec goes in exactly when no task lists a blocker twice. Validation
   lets a repeated blocker pass, and the edge key then refuses the whole spec.
   */
  lemma ValidatedPlanInserts(db: Db, title: string, tasks: seq<RawTask>, specId: SpecId, minted: seq<TaskId>)
    requires Valid(db) && specId !in db.specs
    requires |minted| == |tasks| && Distinct(minted) && (forall t :: t in minted ==> t !in db.tasks)
    requires RefsDistinct(tasks) && DepsResolve(tasks)
    ensures Resolvable(tasks, RefToId(tasks, minted))
    ensures CanInsert(db, PlanOf(title, tasks, specId, minted)) <==> NoRepeatedBlocker(tasks)
  {
    EdgesAreTheAuthors(tasks, minted);
    DistinctRefsGetDistinctIds(tasks, minted);
    EdgeListDistinct(tasks, minted, RefToId(tasks, minted));
    PlanIds(title, tasks, specId, minted);
    var rows := PlanOf(title, tasks, specId, minted);
    forall e | e in rows.deps ensures e !in db.deps && e.0 in IdsOf(rows.tasks) && e.1 in IdsOf(rows.tasks) {
      var i, j :| BlockedBy(tasks, i, j) && e == (minted[i], minted[j]);
      assert minted[i] in minted && minted[j] in minted;
    }
  }

  const CHECK := RawVerification(None, None, Some("true"))
  const BLOCKER := RawTask(Some("a"), "first", [], [CHECK])
  const BLOCKED_TWICE := RawTask(None, "second", ["a", "a"], [CHECK])

  lemma RepeatedBlockerIsNoCycle()
    ensures var tasks := [BLOCKER, BLOCKED_TWICE];
            RefsDistinct(tasks) && DepsResolve(tasks) && Acyclic(TaskEdges(tasks)) && !NoRepeatedBlocker(tasks)
  {
    var tasks := [BLOCKER, BLOCKED_TWICE];
    assert BLOCKER in tasks && BLOCKED_TWICE in tasks && "a" in DeclaredRefs(tasks);
    assert forall i, j :: BlockedBy(tasks, i, j) ==> i == 1 && j == 0;
    assert TopologicalOrder(TaskEdges(tasks), [0, 1]) by {
      assert [0, 1][..1] == [0];
    }
    assert forall e :: e in TaskEdges(tasks) ==> e.0 in [0, 1];
    TopologicalOrderMeansAcyclic(TaskEdges(tasks), [0, 1]);
    assert !Distinct(BLOCKED_TWICE.blockedBy) by {
      assert BLOCKED_TWICE.blockedBy[0] == BLOCKED_TWICE.blockedBy[1];
    }
  }

  lemma NotBlank(s: string)
    requires s != "" && !IsSpace(s[0])
    ensures !Blank(s)
  {
    assert s[0] in s;
  }

  /** A whole spec, its second task blocked by the first twice over, that every rule of `validate` lets pass. */
  lemma RepeatedBlockerPassesValidation()
    ensures var contract := RawContract("src", Some("/repo"), None, "main", [CHECK]);
            var raw := RawSpec("demo", None, contract, [BLOCKER, BLOCKED_TWICE], None, None, None, None);
            (forall rule :: RuleHolds(rule, raw)) && !NoRepeatedBlocker(raw.tasks)
  {
    var contract := RawContract("src", Some("/repo"), None, "main", [CHECK]);
    var raw := RawSpec("demo", None, contract, [BLOCKER, BLOCKED_TWICE], None, None, None, None);
    RepeatedBlockerIsNoCycle();
    NotBlank("demo");
    NotBlank("src");
    NotBlank("main");
    NotBlank("first");
    NotBlank("second");
    assert RequiredFieldsPresent(raw);
    assert raw.tasks[1..] == [BLOCKED_TWICE];
    assert TaskVerifications([BLOCKED_TWICE]) == [CHECK];
    assert AllVerifications(raw) == [CHECK, CHECK, CHECK];
    hide RefsDistinct, DepsResolve, Acyclic, RequiredFieldsPresent, NoRepeatedBlocker, AllVerifications;
    forall rule ensures RuleHolds(rule, raw) {}
  }

  // ----- The same edges through `add_dep` -----

  function AddDeps(db: Db, deps: seq<(TaskId, TaskId)>): Db
    decreases |deps|
  {
    if deps == [] then db else AddDeps(S.After(db, S.AddDep(db, deps[0].0, deps[0].1)), deps[1..])
  }

  /** `add_dep` treats the same collision as done already: repeats make no difference to the edges it leaves. */
  lemma {:induction false} AddDepsIsIdempotent(db: Db, deps: seq<(TaskId, TaskId)>)
    requires forall e :: e in deps ==> e.0 in db.tasks && e.1 in db.tasks
    ensures AddDeps(db, deps) == db.(deps := db.deps + EdgeSet(deps))
    decreases |deps|
  {
    if deps == [] {
      assert db.deps + EdgeSet(deps) == db.deps;
    } else {
      var next := S.After(db, S.AddDep(db, deps[0].0, deps[0].1));
      assert next == db.(deps := db.deps + {deps[0]});
      assert forall e :: e in deps[1..] ==> e in deps;
      AddDepsIsIdempotent(next, deps[1..]);
      assert deps == [deps[0]] + deps[1..];
      assert db.deps + {deps[0]} + EdgeSet(deps[1..]) == db.deps + EdgeSet(deps);
    }
  }

  // ----- What a dispatch leaves in the database -----

  lemma DispatchedTables(db: Db, rows: DispatchRows, now: Time)
    requires Valid(db) && CanInsert(db, rows)
    ensures var after := Dispatched(db, rows, now);
            && VersionsOk(after.specs, after.versions)
            && SpecRuntimeOk(after.specs, after.versions, after.specRuntime)
            && TasksOk(after.specs, after.tasks)
            && DepsOk(after.tasks, after.deps)
  {
    WithTasksRows(db.tasks, rows.specId, rows.tasks);
    hide RunsOk, DecisionsOk, RunKeysUnique, OneSuperseder, WithTasks;
  }

  lemma DispatchedRunsAndDecisions(db: Db, rows: DispatchRows, now: Time)
    requires Valid(db) && CanInsert(db, rows)
    ensures var after := Dispatched(db, rows, now);
            && RunsOk(after.specs, after.versions, after.tasks, after.runs)
            && DecisionsOk(after.specs, after.runs, after.decisions)
            && (RunsWithTheirTasks(db.tasks, db.runs) ==> RunsWithTheirTasks(after.tasks, after.runs))
  {
    WithTasksRows(db.tasks, rows.specId, rows.tasks);
    hide DepsOk, RunKeysUnique, OneSuperseder, WithTasks, SpecRuntimeOk, VersionsOk, TasksOk;
  }

  /** A dispatched plan leaves a valid database whose dependency graph is as free of cycles as it was. */
  lemma DispatchKeepsGraphAcyclic(db: Db, title: string, tasks: seq<RawTask>, specId: SpecId, minted: seq<TaskId>, now: Time)
    requires Valid(db) && Acyclic(db.deps)
    requires |minted| == |tasks| && Distinct(minted)
    requires RefsDistinct(tasks) && DepsResolve(tasks) && Acyclic(TaskEdges(tasks))
    requires Resolvable(tasks, RefToId(tasks, minted)) && CanInsert(db, PlanOf(title, tasks, specId, minted))
    ensures Acyclic(Dispatched(db, PlanOf(title, tasks, specId, minted), now).deps)
  {
    MintedEdgesAcyclic(tasks, minted);
    EdgesAreTheAuthors(tasks, minted);
    PlanIds(title, tasks, specId, minted);
    var rows := PlanOf(title, tasks, specId, minted);
    var added := EdgeSet(rows.deps);
    var inside := set t | t in minted;
    forall e | e in added ensures e.0 in inside && e.1 in inside {
      var i, j :| BlockedBy(tasks, i, j) && e == (minted[i], minted[j]);
    }
    assert DepsOk(db.tasks, db.deps);
    AcyclicSideBySide(added, db.deps, inside);
    assert added + db.deps == db.deps + EdgeSet(rows.deps);
  }

  lemma DispatchKeepsValid(db: Db, rows: DispatchRows, now: Time)
    requires Valid(db) && CanInsert(db, rows)
    ensures Valid(Dispatched(db, rows, now))
  {
    DispatchedTables(db, rows, now);
    DispatchedRunsAndDecisions(db, rows, now);
    hide Dispatched, VersionsOk, SpecRuntimeOk, TasksOk, DepsOk, RunsOk, RunKeysUnique, DecisionsOk, OneSuperseder,
      CanInsert;
    DispatchedKeepsKeys(db, rows, now);
  }

  /** The plan of a validated spec also keeps related rows under one spec. */
  lemma DispatchKeepsCoherent(db: Db, title: string, tasks: seq<RawTask>, specId: SpecId, minted: seq<TaskId>, now: Time)
    requires Valid(db) && Coherent(db)
    requires |minted| == |tasks| && RefsDistinct(tasks) && DepsResolve(tasks)
    requires Resolvable(tasks, RefToId(tasks, minted)) && CanInsert(db, PlanOf(title, tasks, specId, minted))
    ensures Coherent(Dispatched(db, PlanOf(title, tasks, specId, minted), now))
  {
    var rows := PlanOf(title, tasks, specId, minted);
    DispatchedRunsAndDecisions(db, rows, now);
    EdgesAreTheAuthors(tasks, minted);
    PlanIds(title, tasks, specId, minted);
    WithTasksRows(db.tasks, specId, rows.tasks);
    var after := Dispatched(db, rows, now);
    assert DepsOk(db.tasks, db.deps);
    hide RunsOk, DecisionsOk, RunKeysUnique, OneSuperseder, WithTasks, SpecRuntimeOk, VersionsOk, TasksOk, Valid;
    forall e | e in after.deps ensures after.tasks[e.0].specId == after.tasks[e.1].specId {
      if e in rows.deps {
        var i, j :| BlockedBy(tasks, i, j) && e == (minted[i], minted[j]);
        assert minted[i] in minted && minted[j] in minted;
      }
    }
  }

  lemma DispatchedKeepsKeys(db: Db, rows: DispatchRows, now: Time)
    ensures Dispatched(db, rows, now).runs == db.runs && Dispatched(db, rows, now).decisions == db.decisions
  {}

  // ----- The rows of a dispatched plan -----

  /** The spec is queued at version 1, with nothing explained, stamped or counted. */
  predicate NewSpec(row: SpecRow) {
    && row.currentVersion == 1 && row.status == Queued
    && row.failureReason == None && row.cancellationReason == None && row.startedAt == None && row.completedAt == None
    && row.iterPlanCritique == 0 && row.iterSpecReview == 0
  }

  /** The version holds the title, and of each task its contract. */
  ghost predicate HoldsPlan(snapshot: SnapshotRow, title: string, tasks: seq<RawTask>, minted: seq<TaskId>, now: Time)
    requires |minted| == |tasks|
  {
    && snapshot.title == title && snapshot.createdAt == now
    && (forall t :: t in snapshot.contracts <==> t in minted)
    && (forall i :: 0 <= i < |tasks| ==>
          minted[i] in snapshot.contracts && snapshot.contracts[minted[i]] == tasks[i].behavior)
  }

  /** A row per task, not started, under the spec and with the author's ref; the other tasks are as they were. */
  ghost predicate HoldsTasks(before: map<TaskId, TaskRow>, after: map<TaskId, TaskRow>, s: SpecId, tasks: seq<RawTask>,
                             minted: seq<TaskId>)
    requires |minted| == |tasks|
  {
    && (forall t :: t in after <==> t in before || t in minted)
    && (forall t :: t in before && t !in minted ==> after[t] == before[t])
    && (forall i :: 0 <= i < |tasks| ==> minted[i] in after && NewTask(after[minted[i]], s, tasks[i].taskRef))
  }

  lemma DispatchedTasks(db: Db, title: string, tasks: seq<RawTask>, s: SpecId, minted: seq<TaskId>)
    requires |minted| == |tasks| && Distinct(minted) && Resolvable(tasks, RefToId(tasks, minted))
    ensures HoldsTasks(db.tasks, WithTasks(db.tasks, s, PlanOf(title, tasks, s, minted).tasks), s, tasks, minted)
  {
    var rows := PlanOf(title, tasks, s, minted).tasks;
    PlanIds(title, tasks, s, minted);
    WithTasksRows(db.tasks, s, rows);
    hide WithTasks, Resolvable, RefToId;
    forall i | 0 <= i < |tasks|
      ensures minted[i] in WithTasks(db.tasks, s, rows)
      ensures NewTask(WithTasks(db.tasks, s, rows)[minted[i]], s, tasks[i].taskRef)
    {
      assert IdsOf(rows)[i] == minted[i] && rows[i].1 == tasks[i].taskRef;
    }
  }

  lemma DispatchedSpecRows(db: Db, rows: DispatchRows, now: Time)
    ensures var after, s := Dispatched(db, rows, now), rows.specId;
            && OnlyAt(db.specs, after.specs, s) && after.specs[s] == now
            && OnlyAt(db.versions, after.versions, (s, 1))
            && after.versions[(s, 1)] == SnapshotRow(rows.title, rows.contracts, now)
            && OnlyAt(db.specRuntime, after.specRuntime, s) && NewSpec(after.specRuntime[s])
            && after.runs == db.runs && after.decisions == db.decisions
  {}

  lemma PlanHeld(title: string, tasks: seq<RawTask>, s: SpecId, minted: seq<TaskId>, now: Time)
    requires |minted| == |tasks| && Distinct(minted) && Resolvable(tasks, RefToId(tasks, minted))
    ensures var rows := PlanOf(title, tasks, s, minted);
            rows.specId == s && HoldsPlan(SnapshotRow(rows.title, rows.contracts, now), title, tasks, minted, now)
  {
    ContractsByTask(tasks, minted);
    hide Contracts, AllEdges, Resolvable, RefToId;
  }

  lemma DispatchedEdges(db: Db, title: string, tasks: seq<RawTask>, s: SpecId, minted: seq<TaskId>, now: Time)
    requires |minted| == |tasks| && RefsDistinct(tasks) && DepsResolve(tasks)
    ensures Resolvable(tasks, RefToId(tasks, minted))
    ensures forall e :: e in Dispatched(db, PlanOf(title, tasks, s, minted), now).deps <==>
              e in db.deps || exists i, j :: BlockedBy(tasks, i, j) && e == (minted[i], minted[j])
  {
    EdgesAreTheAuthors(tasks, minted);
    hide WithTasks, AllEdges, Resolvable, RefToId, BlockedBy, RefsDistinct, DepsResolve;
  }

  /** What the plan of a validated spec leaves in every table, row by row and column by column. */
  lemma DispatchedColumns(db: Db, title: string, tasks: seq<RawTask>, s: SpecId, minted: seq<TaskId>, now: Time)
    requires |minted| == |tasks| && Distinct(minted) && RefsDistinct(tasks) && DepsResolve(tasks)
    ensures Resolvable(tasks, RefToId(tasks, minted))
    ensures var after := Dispatched(db, PlanOf(title, tasks, s, minted), now);
            && OnlyAt(db.specs, after.specs, s) && after.specs[s] == now
            && OnlyAt(db.versions, after.versions, (s, 1))
            && HoldsPlan(after.versions[(s, 1)], title, tasks, minted, now)
            && OnlyAt(db.specRuntime, after.specRuntime, s) && NewSpec(after.specRuntime[s])
            && HoldsTasks(db.tasks, after.tasks, s, tasks, minted)
            && (forall e :: e in after.deps <==>
                  e in db.deps || exists i, j :: BlockedBy(tasks, i, j) && e == (minted[i], minted[j]))
            && after.runs == db.runs && after.decisions == db.decisions
  {
    DispatchedEdges(db, title, tasks, s, minted, now);
    DispatchedTasks(db, title, tasks, s, minted);
    PlanHeld(title, tasks, s, minted, now);
    var rows := PlanOf(title, tasks, s, minted);
    DispatchedSpecRows(db, rows, now);
    assert Dispatched(db, rows, now).tasks == WithTasks(db.tasks, s, rows.tasks);
    hide Dispatched, PlanOf, WithTasks, Resolvable, RefToId, HoldsPlan, HoldsTasks, NewSpec, BlockedBy, Distinct,
      RefsDistinct, DepsResolve;
  }

  lemma QueuedSpecStarts(db: Db, s: SpecId, t: TaskId, at: Time)
    requires s in db.specRuntime && db.specRuntime[s].status == Queued && t in db.tasks && db.tasks[t].state == NotStarted
    ensures var started := Bus.Emit(db, Bus.SpecStarted(s), at);
            started.Accepted? && Bus.Emit(started.db, Bus.TaskStarted(s, t), at).Accepted?
  {}

  /** What was dispatched can be run: its start is accepted, and then every one of its tasks can be started. */
  lemma DispatchedSpecStarts(db: Db, title: string, tasks: seq<RawTask>, s: SpecId, minted: seq<TaskId>, now: Time,
                             at: Time, i: nat)
    requires |minted| == |tasks| && Distinct(minted) && RefsDistinct(tasks) && DepsResolve(tasks) && i < |tasks|
    ensures Resolvable(tasks, RefToId(tasks, minted))
    ensures var after := Dispatched(db, PlanOf(title, tasks, s, minted), now);
            var started := Bus.Emit(after, Bus.SpecStarted(s), at);
            && started.Accepted?
            && Bus.Emit(started.db, Bus.TaskStarted(s, minted[i]), at).Accepted?
  {
    DispatchedColumns(db, title, tasks, s, minted, now);
    hide Dispatched, PlanOf, Resolvable, RefToId, HoldsPlan, BlockedBy, Distinct, RefsDistinct, DepsResolve, Bus.Emit;
    var after := Dispatched(db, PlanOf(title, tasks, s, minted), now);
    assert minted[i] in after.tasks && NewTask(after.tasks[minted[i]], s, tasks[i].taskRef);
    QueuedSpecStarts(after, s, minted[i], at);
  }

  // ----- The command -----

  /** What else can stop a dispatch once its spec is validated: none of these is decided here. */
  datatype Gate = WorkspacePath | UnsupportedDelivery | VerifyLint | BranchPolicy

  datatype DispatchError =
    | InvalidSpec(config: ConfigError)
    | Gated(gate: Gate)
    | Unresolved(dep: UnknownDep)
    | NotPersisted(error: S.RepoError)

  /**
   `boi dispatch` from the parsed spec to the committed rows; `stoppedBy` is the first of the other gates to object.
   With fresh, distinct ids the dispatch succeeds exactly when every rule of validation holds, no gate objects and no
   task repeats a blocker; a gate is heard only after validation, and the resolver's own error is never seen.
   */
  method DispatchSpec(store: Store, raw: RawSpec, keyOrder: seq<string>, stoppedBy: Option<Gate>, specId: SpecId,
                      minted: seq<TaskId>, now: Time)
    returns (r: Result<(), DispatchError>)
    requires Valid(store.Contents()) && specId !in store.specs
    requires |minted| == |raw.tasks| && Distinct(minted) && (forall t :: t in minted ==> t !in store.tasks)
    requires forall s :: s in keyOrder <==> s in DeclaredRefs(raw.tasks)
    modifies store
    ensures r.Ok? <==> (forall rule :: RuleHolds(rule, raw)) && stoppedBy.None? && NoRepeatedBlocker(raw.tasks)
    ensures r.Ok? ==>
              && Resolvable(raw.tasks, RefToId(raw.tasks, minted))
              && store.Contents() == Dispatched(old(store.Contents()), PlanOf(raw.title, raw.tasks, specId, minted), now)
    ensures r.Err? ==> store.Contents() == old(store.Contents()) && !r.error.Unresolved?
    ensures r.Err? ==> (r.error.InvalidSpec? <==> !forall rule :: RuleHolds(rule, raw))
    ensures r.Err? && r.error.Gated? ==> stoppedBy == Some(r.error.gate)
  {
    var checked := Validate(raw, keyOrder);
    if checked.Err? {
      assert !RuleHolds(RuleOf(checked.error), raw);
      return Err(InvalidSpec(checked.error));
    }
    if stoppedBy.Some? {
      return Err(Gated(stoppedBy.value));
    }
    assert RuleHolds(5, raw) && RuleHolds(6, raw);
    ValidatedPlanInserts(store.Contents(), raw.title, raw.tasks, specId, minted);
    hide Valid, CanInsert, PlanOf, Dispatched, RuleHolds, NoRepeatedBlocker;
    var plan := BuildDispatch(raw.title, raw.tasks, specId, minted);
    match plan {
      case Err(unknown) =>
        r := Err(Unresolved(unknown));
      case Ok(rows) =>
        var inserted := InsertDispatch(store, rows, now);
        r := if inserted.Ok? then Ok(()) else Err(NotPersisted(inserted.error));
    }
  }
}
