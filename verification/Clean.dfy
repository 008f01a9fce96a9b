/**
 `boi clean`: the retention prune and the full cascade of src/repo/clean.rs, and the disk-first variant of
 src/cli/clean.rs.

 Every foreign key is ON DELETE RESTRICT, and RESTRICT objects at the row, not at the end of the statement. A statement
 that deletes several rows therefore depends on the order in which the engine visits them, as soon as one of those rows
 refers to another. `decisions` is the one table where that can happen; its order is a parameter here.
 */
module Clean {
  import opened Outcomes
  import opened Digraph
  import opened Schema
  import S = Statements
  import opened Repo
  import opened Bus

  // ----- Row-by-row deletion under RESTRICT -----

  ghost function Elements(order: seq<DecisionId>): set<DecisionId> {
    set d | d in order
  }

  /** A decision still in the table, other than the row being deleted, that refers to it. */
  predicate Referred(decisions: map<DecisionId, DecisionRow>, target: DecisionId) {
    exists d :: d in decisions && d != target && decisions[d].supersedes == Some(target)
  }

  /** Deleting in this order, no row is still referred to when its turn comes. */
  ghost predicate OrderUnblocked(decisions: map<DecisionId, DecisionRow>, order: seq<DecisionId>) {
    forall i, d :: 0 <= i < |order| && d in decisions && decisions[d].supersedes == Some(order[i]) ==>
      d == order[i] || d in order[..i]
  }

  method DeleteDecisions(store: Store, order: seq<DecisionId>) returns (ok: bool)
    requires Distinct(order) && forall d :: d in order ==> d in store.decisions
    modifies store`decisions
    ensures ok <==> OrderUnblocked(old(store.decisions), order)
    ensures ok ==> store.decisions == old(store.decisions) - Elements(order)
  {
    ghost var before := store.decisions;
    for i := 0 to |order|
      invariant forall d :: d in store.decisions <==> d in before && d !in order[..i]
      invariant forall d :: d in store.decisions ==> store.decisions[d] == before[d]
      invariant forall k, d :: 0 <= k < i && d in before && before[d].supersedes == Some(order[k]) ==>
                  d == order[k] || d in order[..k]
    {
      var target := order[i];
      assert order[..i + 1] == order[..i] + [target];
      if Referred(store.decisions, target) {
        return false;
      }
      store.decisions := store.decisions - {target};
    }
    assert order[..|order|] == order;
    assert store.decisions == before - Elements(order);
    ok := true;
  }

  /** No decision in the table was recorded by one of these runs. */
  ghost predicate RunsUnreferred(decisions: map<DecisionId, DecisionRow>, doomed: set<RunId>) {
    forall d :: d in decisions && decisions[d].phaseRunId.Some? ==> decisions[d].phaseRunId.value !in doomed
  }

  /** No dependency edge and no run in the tables names one of these tasks. */
  ghost predicate TasksUnreferred(deps: set<(TaskId, TaskId)>, runs: map<RunId, RunRow>, doomed: set<TaskId>) {
    && (forall d :: d in deps ==> d.0 !in doomed && d.1 !in doomed)
    && (forall r :: r in runs && runs[r].taskId.Some? ==> runs[r].taskId.value !in doomed)
  }

  method DeleteRuns(store: Store, doomed: set<RunId>) returns (ok: bool)
    requires doomed <= store.runs.Keys
    modifies store`runs
    ensures ok <==> RunsUnreferred(store.decisions, doomed)
    ensures ok ==> store.runs == old(store.runs) - doomed
  {
    ghost var before := store.runs;
    var todo := doomed;
    assert before == before - (doomed - todo);
    while todo != {}
      invariant todo <= doomed
      invariant store.runs == before - (doomed - todo)
      invariant RunsUnreferred(store.decisions, doomed - todo)
    {
      var r :| r in todo;
      if exists d :: d in store.decisions && store.decisions[d].phaseRunId == Some(r) {
        return false;
      }
      store.runs := store.runs - {r};
      todo := todo - {r};
    }
    ok := true;
  }

  method DeleteTasks(store: Store, doomed: set<TaskId>) returns (ok: bool)
    requires doomed <= store.tasks.Keys
    modifies store`tasks
    ensures ok <==> TasksUnreferred(store.deps, store.runs, doomed)
    ensures ok ==> store.tasks == old(store.tasks) - doomed
  {
    ghost var before := store.tasks;
    var todo := doomed;
    assert before == before - (doomed - todo);
    while todo != {}
      invariant todo <= doomed
      invariant store.tasks == before - (doomed - todo)
      invariant TasksUnreferred(store.deps, store.runs, doomed - todo)
    {
      var t :| t in todo;
      if (exists d :: d in store.deps && (d.0 == t || d.1 == t))
         || (exists r :: r in store.runs && store.runs[r].taskId == Some(t)) {
        return false;
      }
      store.tasks := store.tasks - {t};
      todo := todo - {t};
    }
    ok := true;
  }

  /** `spec_runtime` and `phase_runs` refer to versions without an ON DELETE clause; SQLite checks that at statement end. */
  method DeleteVersions(store: Store, doomed: set<(SpecId, int)>) returns (ok: bool)
    modifies store`versions
    ensures ok <==> && (forall s :: s in store.specRuntime ==> (s, store.specRuntime[s].currentVersion) !in doomed)
                    && (forall r :: r in store.runs ==> (store.runs[r].specId, store.runs[r].specVersion) !in doomed)
    ensures ok ==> store.versions == old(store.versions) - doomed
  {
    ok := && (forall s :: s in store.specRuntime ==> (s, store.specRuntime[s].currentVersion) !in doomed)
          && (forall r :: r in store.runs ==> (store.runs[r].specId, store.runs[r].specVersion) !in doomed);
    if ok {
      store.versions := store.versions - doomed;
    }
  }

  /** The identity row is referred to from five tables. */
  method DeleteSpecRow(store: Store, s: SpecId) returns (ok: bool)
    modifies store`specs
    ensures ok <==> && (forall k :: k in store.versions ==> k.0 != s)
                    && s !in store.specRuntime
                    && (forall t :: t in store.tasks ==> store.tasks[t].specId != s)
                    && (forall r :: r in store.runs ==> store.runs[r].specId != s)
                    && (forall d :: d in store.decisions ==> store.decisions[d].specId != s)
    ensures ok ==> store.specs == old(store.specs) - {s}
  {
    ok := && (forall k :: k in store.versions ==> k.0 != s)
          && s !in store.specRuntime
          && (forall t :: t in store.tasks ==> store.tasks[t].specId != s)
          && (forall r :: r in store.runs ==> store.runs[r].specId != s)
          && (forall d :: d in store.decisions ==> store.decisions[d].specId != s);
    if ok {
      store.specs := store.specs - {s};
    }
  }

  // ----- The retention prune -----

  /** The spec's completed runs older than the cutoff. */
  function DoomedRuns(db: Db, s: SpecId, cutoff: Time): set<RunId> {
    set r | r in db.runs && db.runs[r].specId == s && db.runs[r].completedAt.Some? && db.runs[r].completedAt.value < cutoff
  }

  /** The decisions attached to them, whatever spec those decisions name. */
  function DoomedDecisions(db: Db, s: SpecId, cutoff: Time): set<DecisionId> {
    set d | d in db.decisions && db.decisions[d].phaseRunId.Some?
            && db.decisions[d].phaseRunId.value in DoomedRuns(db, s, cutoff)
  }

  function Unlinked(row: DecisionRow, gone: set<DecisionId>): DecisionRow {
    if row.supersedes.Some? && row.supersedes.value in gone then row.(supersedes := None) else row
  }

  /** What the prune leaves: everything but the doomed rows, with the edges that would dangle cut. */
  function Pruned(db: Db, s: SpecId, cutoff: Time): Db {
    db.(runs := db.runs - DoomedRuns(db, s, cutoff), decisions := Kept(db.decisions, DoomedDecisions(db, s, cutoff)))
  }

  function Kept(decisions: map<DecisionId, DecisionRow>, gone: set<DecisionId>): map<DecisionId, DecisionRow> {
    map d | d in decisions && d !in gone :: Unlinked(decisions[d], gone)
  }

  function EdgesCut(decisions: map<DecisionId, DecisionRow>, gone: set<DecisionId>): map<DecisionId, DecisionRow> {
    map d | d in decisions :: Unlinked(decisions[d], gone)
  }

  /** With the edges into the doomed decisions cut, every order of deleting them is unblocked. */
  lemma CutEdgesUnblock(decisions: map<DecisionId, DecisionRow>, gone: set<DecisionId>, order: seq<DecisionId>)
    requires forall d :: d in order ==> d in gone
    ensures OrderUnblocked(EdgesCut(decisions, gone), order)
  {}

  /** The pieces of the pruned database, and why deleting the doomed runs is not blocked either. */
  lemma PruneParts(db: Db, s: SpecId, cutoff: Time, order: seq<DecisionId>)
    requires forall d :: d in order <==> d in DoomedDecisions(db, s, cutoff)
    ensures var decisions := EdgesCut(db.decisions, DoomedDecisions(db, s, cutoff)) - Elements(order);
            && Pruned(db, s, cutoff) == db.(runs := db.runs - DoomedRuns(db, s, cutoff), decisions := decisions)
            && RunsUnreferred(decisions, DoomedRuns(db, s, cutoff))
  {}

  /**
   `clean_phase_runs_older_than`: for any order in which the engine visits the doomed decisions the prune goes through,
   because the edges into them are cut first.
   */
  method PruneRuns(store: Store, s: SpecId, threshold: Time, now: Time, order: seq<DecisionId>)
    returns (decisionsDeleted: nat, runsDeleted: nat)
    requires Distinct(order)
    requires forall d :: d in order <==> d in DoomedDecisions(store.Contents(), s, now - threshold)
    modifies store
    ensures store.Contents() == Pruned(old(store.Contents()), s, now - threshold)
    ensures decisionsDeleted == |old(store.decisions)| - |store.decisions|
    ensures runsDeleted == |old(store.runs)| - |store.runs|
  {
    hide Pruned;
    ghost var db := store.Contents();
    var runs := DoomedRuns(store.Contents(), s, now - threshold);
    var gone := DoomedDecisions(store.Contents(), s, now - threshold);
    PruneCountsWhatIsGone(db, s, now - threshold);
    decisionsDeleted, runsDeleted := |gone|, |runs|;
    hide *;
    PruneRows(store, s, now - threshold, order, runs, gone);
    assert store.decisions == Pruned(db, s, now - threshold).decisions;
    assert store.runs == Pruned(db, s, now - threshold).runs;
  }

  /** The three statements: cut the edges, delete the decisions, delete the runs. */
  method PruneRows(store: Store, s: SpecId, cutoff: Time, order: seq<DecisionId>, runs: set<RunId>, gone: set<DecisionId>)
    requires Distinct(order) && forall d :: d in order <==> d in gone
    requires runs == DoomedRuns(store.Contents(), s, cutoff) && gone == DoomedDecisions(store.Contents(), s, cutoff)
    modifies store
    ensures store.Contents() == Pruned(old(store.Contents()), s, cutoff)
  {
    PruneParts(store.Contents(), s, cutoff, order);
    CutEdgesUnblock(store.decisions, gone, order);
    store.decisions := EdgesCut(store.decisions, gone);
    DeleteBoth(store, order, runs);
  }

  /** The two deletes of the prune, neither of them blocked. */
  method DeleteBoth(store: Store, order: seq<DecisionId>, runs: set<RunId>)
    requires Distinct(order) && (forall d :: d in order ==> d in store.decisions) && runs <= store.runs.Keys
    requires OrderUnblocked(store.decisions, order)
    requires RunsUnreferred(store.decisions - Elements(order), runs)
    modifies store
    ensures var db := old(store.Contents());
            store.Contents() == db.(decisions := db.decisions - Elements(order), runs := db.runs - runs)
  {
    hide OrderUnblocked, Distinct, Elements, RunsUnreferred;
    var decided := DeleteDecisions(store, order);
    var ran := DeleteRuns(store, runs);
  }

  // ----- What a prune spares -----

  /** Completed, of the spec, and older than the cutoff; an open run never is. */
  predicate Expired(row: RunRow, s: SpecId, cutoff: Time) {
    row.specId == s && row.completedAt.Some? && row.completedAt.value < cutoff
  }

  /** Exactly the expired runs go, and exactly the decisions attached to them; a run that stays is unchanged. */
  lemma PruneSpares(db: Db, s: SpecId, cutoff: Time)
    ensures var after := Pruned(db, s, cutoff);
            && (forall r :: r in after.runs <==> r in db.runs && !Expired(db.runs[r], s, cutoff))
            && (forall r :: r in after.runs ==> after.runs[r] == db.runs[r])
            && (forall d :: d in after.decisions <==> d in db.decisions && !OnExpiredRun(db, d, s, cutoff))
            && after == db.(runs := after.runs, decisions := after.decisions)
  {}

  predicate OnExpiredRun(db: Db, d: DecisionId, s: SpecId, cutoff: Time) {
    && d in db.decisions && db.decisions[d].phaseRunId.Some? && db.decisions[d].phaseRunId.value in db.runs
    && Expired(db.runs[db.decisions[d].phaseRunId.value], s, cutoff)
  }

  /** A decision that stays keeps its row, and its supersede edge unless the edge would dangle. */
  lemma PruneCutsOnlyDanglingEdges(db: Db, s: SpecId, cutoff: Time, d: DecisionId)
    requires Valid(db) && d in Pruned(db, s, cutoff).decisions
    ensures var row, kept := db.decisions[d], Pruned(db, s, cutoff).decisions[d];
            && kept.(supersedes := row.supersedes) == row
            && kept.supersedes == (if row.supersedes.Some? && row.supersedes.value in Pruned(db, s, cutoff).decisions
                                   then row.supersedes else None)
  {}

  lemma PruneKeepsDecisions(db: Db, s: SpecId, cutoff: Time)
    requires Valid(db)
    ensures var after := Pruned(db, s, cutoff);
            DecisionsOk(after.specs, after.runs, after.decisions) && OneSuperseder(after.decisions)
  {
    var after := Pruned(db, s, cutoff);
    PruneSpares(db, s, cutoff);
    forall d | d in after.decisions
      ensures PruneKept(db.decisions[d], after.decisions[d], after.decisions)
    {
      PruneCutsOnlyDanglingEdges(db, s, cutoff, d);
    }
    hide Pruned, RunsOk, SpecRuntimeOk, RunKeysUnique, TasksOk, DepsOk, VersionsOk;
    assert DecisionsOk(after.specs, after.runs, after.decisions) by {
      hide OneSuperseder;
    }
  }

  ghost predicate PruneKept(row: DecisionRow, kept: DecisionRow, decisions: map<DecisionId, DecisionRow>) {
    && kept.(supersedes := row.supersedes) == row
    && (kept.supersedes.Some? ==> kept.supersedes == row.supersedes && kept.supersedes.value in decisions)
  }

  lemma PruneKeepsCoherent(db: Db, s: SpecId, cutoff: Time)
    requires Valid(db) && Coherent(db)
    ensures Coherent(Pruned(db, s, cutoff))
  {
    var after := Pruned(db, s, cutoff);
    PruneSpares(db, s, cutoff);
    forall d | d in after.decisions
      ensures PruneKept(db.decisions[d], after.decisions[d], after.decisions)
    {
      PruneCutsOnlyDanglingEdges(db, s, cutoff, d);
    }
    hide Pruned, Valid;
  }

  lemma FewerRunsAreOk(db: Db, runs: map<RunId, RunRow>)
    requires Valid(db) && runs.Keys <= db.runs.Keys && forall r :: r in runs ==> runs[r] == db.runs[r]
    ensures RunKeysUnique(runs) && RunsOk(db.specs, db.versions, db.tasks, runs)
  {
    assert RunKeysUnique(db.runs) && RunsOk(db.specs, db.versions, db.tasks, db.runs);
    hide Valid;
    forall a, b | a in runs && b in runs && a != b ensures !SameRunKey(runs[a], runs[b]) {
      assert !SameRunKey(db.runs[a], db.runs[b]);
    }
  }

  /** A prune keeps every constraint of the schema. */
  lemma PruneKeepsValid(db: Db, s: SpecId, cutoff: Time)
    requires Valid(db)
    ensures Valid(Pruned(db, s, cutoff))
    ensures Coherent(db) ==> Coherent(Pruned(db, s, cutoff))
  {
    if Coherent(db) {
      PruneKeepsCoherent(db, s, cutoff);
    }
    PruneKeepsDecisions(db, s, cutoff);
    PruneSpares(db, s, cutoff);
    var after := Pruned(db, s, cutoff);
    FewerRunsAreOk(db, after.runs);
    hide Coherent, OneSuperseder, DecisionsOk, Pruned, RunsOk, RunKeysUnique, VersionsOk, SpecRuntimeOk, TasksOk, DepsOk;
  }

  lemma PruneIsIdempotent(db: Db, s: SpecId, cutoff: Time)
    ensures Pruned(Pruned(db, s, cutoff), s, cutoff) == Pruned(db, s, cutoff)
  {
    var once := Pruned(db, s, cutoff);
    assert DoomedRuns(once, s, cutoff) == {};
    assert DoomedDecisions(once, s, cutoff) == {};
    assert once.runs - {} == once.runs;
    assert Pruned(once, s, cutoff).decisions == once.decisions;
  }

  /** A longer threshold is an earlier cutoff: pruning by the longer one first makes no difference to the shorter. */
  lemma PruneInStages(db: Db, s: SpecId, early: Time, late: Time)
    requires early <= late
    ensures DoomedRuns(db, s, early) <= DoomedRuns(db, s, late)
    ensures DoomedDecisions(db, s, early) <= DoomedDecisions(db, s, late)
    ensures Pruned(Pruned(db, s, early), s, late) == Pruned(db, s, late)
  {
    DoomedInStages(db, s, early, late);
    var first := Pruned(db, s, early);
    var e, l := DoomedRuns(db, s, early), DoomedRuns(db, s, late);
    assert (db.runs - e) - (l - e) == db.runs - l;
    UnlinkInStages(db.decisions, DoomedDecisions(db, s, early), DoomedDecisions(db, s, late));
    hide DoomedDecisions, DoomedRuns, Unlinked;
  }

  lemma UnlinkInStages(decisions: map<DecisionId, DecisionRow>, early: set<DecisionId>, late: set<DecisionId>)
    requires early <= late
    ensures Kept(Kept(decisions, early), late - early) == Kept(decisions, late)
  {}

  lemma DoomedInStages(db: Db, s: SpecId, early: Time, late: Time)
    requires early <= late
    ensures DoomedRuns(db, s, early) <= DoomedRuns(db, s, late)
    ensures DoomedDecisions(db, s, early) <= DoomedDecisions(db, s, late)
    ensures DoomedRuns(Pruned(db, s, early), s, late) == DoomedRuns(db, s, late) - DoomedRuns(db, s, early)
    ensures DoomedDecisions(Pruned(db, s, early), s, late) == DoomedDecisions(db, s, late) - DoomedDecisions(db, s, early)
  {}

  // ----- The full cascade -----

  function OwnDecisions(db: Db, s: SpecId): set<DecisionId> {
    set d | d in db.decisions && db.decisions[d].specId == s
  }

  function OwnRuns(db: Db, s: SpecId): set<RunId> {
    set r | r in db.runs && db.runs[r].specId == s
  }

  function OwnTasks(db: Db, s: SpecId): set<TaskId> {
    set t | t in db.tasks && db.tasks[t].specId == s
  }

  function OwnVersions(db: Db, s: SpecId): set<(SpecId, int)> {
    set k | k in db.versions && k.0 == s
  }

  function TouchingDeps(db: Db, s: SpecId): set<(TaskId, TaskId)> {
    set d | d in db.deps && (d.0 in OwnTasks(db, s) || d.1 in OwnTasks(db, s))
  }

  /** What the cascade leaves: no row of the spec in any of the seven tables, no edge at any of its tasks. */
  function Cleaned(db: Db, s: SpecId): Db {
    Db(db.specs - {s}, db.versions - OwnVersions(db, s), db.specRuntime - {s}, db.tasks - OwnTasks(db, s),
       db.deps - TouchingDeps(db, s), db.runs - OwnRuns(db, s), db.decisions - OwnDecisions(db, s))
  }

  /** A decision of another spec recorded by one of this spec's runs. Nothing but the callers' discipline rules it out. */
  ghost predicate ForeignDecisions(db: Db, s: SpecId) {
    exists d :: d in db.decisions && db.decisions[d].specId != s && db.decisions[d].phaseRunId.Some?
                && db.decisions[d].phaseRunId.value in OwnRuns(db, s)
  }

  /** A run of another spec for one of this spec's tasks. */
  ghost predicate ForeignRuns(db: Db, s: SpecId) {
    exists r :: r in db.runs && db.runs[r].specId != s && db.runs[r].taskId.Some?
                && db.runs[r].taskId.value in OwnTasks(db, s)
  }

  /** The exact condition under which the seven statements all go through. */
  ghost predicate CascadeUnblocked(db: Db, s: SpecId, order: seq<DecisionId>) {
    OrderUnblocked(db.decisions, order) && !ForeignDecisions(db, s) && !ForeignRuns(db, s)
  }

  /** What is left when the last three statements run: nothing that carries the spec id, so none of them is blocked. */
  lemma CascadeTail(db: Db, s: SpecId)
    ensures forall x :: x in db.specRuntime - {s} ==> (x, db.specRuntime[x].currentVersion) !in OwnVersions(db, s)
    ensures forall r :: r in db.runs - OwnRuns(db, s) ==>
              (db.runs[r].specId, db.runs[r].specVersion) !in OwnVersions(db, s) && db.runs[r].specId != s
    ensures forall k :: k in db.versions - OwnVersions(db, s) ==> k.0 != s
    ensures forall t :: t in db.tasks - OwnTasks(db, s) ==> db.tasks[t].specId != s
    ensures forall d :: d in db.decisions - OwnDecisions(db, s) ==> db.decisions[d].specId != s
    ensures OwnRuns(db, s) <= db.runs.Keys && OwnTasks(db, s) <= db.tasks.Keys
  {}

  /** What is left to refer to the rows of each statement once the statements before it are done. */
  lemma CascadeSteps(db: Db, s: SpecId)
    ensures !ForeignDecisions(db, s) <==> RunsUnreferred(db.decisions - OwnDecisions(db, s), OwnRuns(db, s))
    ensures !ForeignRuns(db, s) <==>
              TasksUnreferred(db.deps - TouchingDeps(db, s), db.runs - OwnRuns(db, s), OwnTasks(db, s))
  {
    var decisions, runs := db.decisions - OwnDecisions(db, s), db.runs - OwnRuns(db, s);
    if ForeignDecisions(db, s) {
      var d :| d in db.decisions && db.decisions[d].specId != s && db.decisions[d].phaseRunId.Some?
               && db.decisions[d].phaseRunId.value in OwnRuns(db, s);
      assert d in decisions;
    }
    if ForeignRuns(db, s) {
      var r :| r in db.runs && db.runs[r].specId != s && db.runs[r].taskId.Some?
               && db.runs[r].taskId.value in OwnTasks(db, s);
      assert r in runs;
    }
  }

  datatype CleanReport = CleanReport(decisions: nat, runs: nat, deps: nat, tasks: nat, specRuntime: nat, versions: nat,
                                     specs: nat)

  function FullReport(db: Db, s: SpecId): CleanReport {
    CleanReport(|OwnDecisions(db, s)|, |OwnRuns(db, s)|, |TouchingDeps(db, s)|, |OwnTasks(db, s)|,
                if s in db.specRuntime then 1 else 0, |OwnVersions(db, s)|, if s in db.specs then 1 else 0)
  }

  /** Statements 1 to 4: decisions, runs, edges, tasks. */
  method DeleteUpToTasks(store: Store, s: SpecId, order: seq<DecisionId>) returns (ok: bool)
    requires Distinct(order) && forall d :: d in order <==> d in OwnDecisions(store.Contents(), s)
    modifies store
    ensures ok <==> CascadeUnblocked(old(store.Contents()), s, order)
    ensures ok ==>
              var db := old(store.Contents());
              store.Contents() == db.(tasks := db.tasks - OwnTasks(db, s), deps := db.deps - TouchingDeps(db, s),
                                      runs := db.runs - OwnRuns(db, s), decisions := db.decisions - OwnDecisions(db, s))
  {
    var saved := store.Contents();
    CascadeSteps(saved, s);
    CascadeTail(saved, s);
    assert Elements(order) == OwnDecisions(saved, s);
    hide Elements, ForeignDecisions, ForeignRuns, OrderUnblocked, RunsUnreferred, TasksUnreferred, OwnDecisions, OwnRuns,
      OwnTasks, TouchingDeps;
    ok := DeleteDecisions(store, order);
    if ok {
      ok := DeleteRuns(store, OwnRuns(saved, s));
    }
    if ok {
      store.deps := store.deps - TouchingDeps(saved, s);
      ok := DeleteTasks(store, OwnTasks(saved, s));
    }
  }

  /** Statements 5 to 7: the runtime row, the versions and the identity, none of which can be blocked any more. */
  method DeleteIdentity(store: Store, s: SpecId, db: Db)
    requires store.Contents() ==
               db.(tasks := db.tasks - OwnTasks(db, s), deps := db.deps - TouchingDeps(db, s),
                   runs := db.runs - OwnRuns(db, s), decisions := db.decisions - OwnDecisions(db, s))
    modifies store
    ensures store.Contents() == Cleaned(db, s)
  {
    CascadeTail(db, s);
    hide OwnDecisions, OwnRuns, OwnTasks, OwnVersions, TouchingDeps;
    store.specRuntime := store.specRuntime - {s};
    var ok := DeleteVersions(store, OwnVersions(db, s));
    assert ok;
    ok := DeleteSpecRow(store, s);
    assert ok;
  }

  /** `clean_spec_forced`: all seven deletes or none, in one transaction. */
  method CleanSpecForced(store: Store, s: SpecId, order: seq<DecisionId>) returns (r: Result<CleanReport, S.RepoError>)
    requires Distinct(order) && forall d :: d in order <==> d in OwnDecisions(store.Contents(), s)
    modifies store
    ensures r.Ok? <==> CascadeUnblocked(old(store.Contents()), s, order)
    ensures r.Ok? ==> store.Contents() == Cleaned(old(store.Contents()), s) && r.value == FullReport(old(store.Contents()), s)
    ensures r.Err? ==> store.Contents() == old(store.Contents()) && r.error == S.ForeignKeyViolation
  {
    var saved := store.Contents();
    var ok := DeleteUpToTasks(store, s, order);
    hide CascadeUnblocked, Cleaned, FullReport, OwnDecisions, OwnRuns, OwnTasks, TouchingDeps;
    if !ok {
      store.Rollback(saved);
      return Err(S.ForeignKeyViolation);
    }
    DeleteIdentity(store, s, saved);
    r := Ok(FullReport(saved, s));
  }

  // ----- When the cascade succeeds -----

  ghost predicate VisitsOwn(db: Db, s: SpecId, order: seq<DecisionId>) {
    Distinct(order) && forall d :: d in order <==> d in OwnDecisions(db, s)
  }

  /** No decision of the spec is superseded, except by itself. */
  ghost predicate NoneSuperseded(db: Db, s: SpecId) {
    forall d :: d in db.decisions && db.decisions[d].supersedes.Some? && db.decisions[d].supersedes.value != d ==>
      db.decisions[d].supersedes.value !in OwnDecisions(db, s)
  }

  lemma {:induction false} Enumerate<T(!new)>(all: set<T>) returns (order: seq<T>)
    ensures Distinct(order) && forall x :: x in order <==> x in all
  {
    if all == {} {
      order := [];
    } else {
      var x :| x in all;
      var rest := Enumerate(all - {x});
      order := [x] + rest;
    }
  }

  /** A superseded row that comes up before the row superseding it stops the cascade. */
  lemma SupersededTooEarly(db: Db, order: seq<DecisionId>, i: nat, d: DecisionId)
    requires i < |order| && d in db.decisions && db.decisions[d].supersedes == Some(order[i])
    requires d != order[i] && d !in order[..i]
    ensures !OrderUnblocked(db.decisions, order)
  {}

  /**
   The cascade goes through in every visiting order exactly when no other spec's run or decision points into the spec
   and none of its decisions is superseded. A spec with a supersede chain is cleaned or not as the engine's order has it.
   */
  lemma CascadesInEveryOrder(db: Db, s: SpecId)
    ensures (forall order :: VisitsOwn(db, s, order) ==> CascadeUnblocked(db, s, order))
            <==> !ForeignDecisions(db, s) && !ForeignRuns(db, s) && NoneSuperseded(db, s)
  {
    var own := OwnDecisions(db, s);
    if !ForeignDecisions(db, s) && !ForeignRuns(db, s) && NoneSuperseded(db, s) {
      forall order | VisitsOwn(db, s, order) ensures CascadeUnblocked(db, s, order) {
        assert forall i :: 0 <= i < |order| ==> order[i] in own;
      }
    } else {
      var order: seq<DecisionId>;
      if NoneSuperseded(db, s) {
        order := Enumerate(own);
        assert VisitsOwn(db, s, order);
      } else {
        var d :| d in db.decisions && db.decisions[d].supersedes.Some? && db.decisions[d].supersedes.value != d
                 && db.decisions[d].supersedes.value in own;
        var e := db.decisions[d].supersedes.value;
        var rest := Enumerate(own - {e});
        order := [e] + rest;
        assert forall x :: x in order <==> x in own;
        assert VisitsOwn(db, s, order);
        SupersededTooEarly(db, order, 0, d);
      }
      assert !CascadeUnblocked(db, s, order);
    }
  }

  /** If every row keeps to its spec, only the spec's own supersede edges can stand in the way. */
  lemma CoherentHasNoForeignReferences(db: Db, s: SpecId)
    requires Coherent(db)
    ensures !ForeignDecisions(db, s) && !ForeignRuns(db, s)
  {}

  const CHAIN_SPEC := SpecId("S1")
  const OLDER := DecisionId("D1")
  const NEWER := DecisionId("D2")

  /** One spec with two authored decisions, the second of which supersedes the first. */
  const CHAIN := EMPTY_DB.(
    specs := map[CHAIN_SPEC := 0],
    decisions := map[OLDER := DecisionRow(CHAIN_SPEC, None, Authored, "first", "", "", None, 1),
                     NEWER := DecisionRow(CHAIN_SPEC, None, Authored, "second", "", "", Some(OLDER), 2)])

  lemma ChainIsSound()
    ensures OLDER != NEWER
    ensures Valid(CHAIN) && Coherent(CHAIN) && OwnDecisions(CHAIN, CHAIN_SPEC) == {OLDER, NEWER}
  {
    assert "D1"[1] != "D2"[1];
  }

  /**
   The smallest spec the cascade cannot clean in creation order: its second decision supersedes its first. The first
   comes up first, is still referred to, and nothing at all is deleted; in the opposite order everything goes.
   */
  lemma SupersedeChainStopsCascade()
    ensures && Valid(CHAIN) && Coherent(CHAIN)
            && VisitsOwn(CHAIN, CHAIN_SPEC, [OLDER, NEWER]) && !CascadeUnblocked(CHAIN, CHAIN_SPEC, [OLDER, NEWER])
            && VisitsOwn(CHAIN, CHAIN_SPEC, [NEWER, OLDER]) && CascadeUnblocked(CHAIN, CHAIN_SPEC, [NEWER, OLDER])
  {
    ChainIsSound();
    CoherentHasNoForeignReferences(CHAIN, CHAIN_SPEC);
    hide Valid, Coherent, ForeignDecisions, ForeignRuns, OwnDecisions;
    SupersededTooEarly(CHAIN, [OLDER, NEWER], 0, NEWER);
    assert [NEWER, OLDER][..1] == [NEWER];
  }

  // ----- What the cascade leaves -----

  /** `after` holds exactly the rows of `before` that are to stay, unchanged. */
  ghost predicate StaysWhere<K(!new), V(!new)>(before: map<K, V>, after: map<K, V>, stays: (K, V) -> bool) {
    && (forall k :: k in after <==> k in before && stays(k, before[k]))
    && (forall k :: k in after ==> after[k] == before[k])
  }

  /** An end of the edge is a task of the spec. */
  predicate Touches(db: Db, s: SpecId, e: (TaskId, TaskId)) {
    (e.0 in db.tasks && db.tasks[e.0].specId == s) || (e.1 in db.tasks && db.tasks[e.1].specId == s)
  }

  /** Table by table: a row goes exactly if it carries the spec, an edge exactly if one of its ends is a task that does. */
  lemma CleanedTableByTable(db: Db, s: SpecId)
    ensures var after := Cleaned(db, s);
            && StaysWhere(db.specs, after.specs, (k, _: Time) => k != s)
            && StaysWhere(db.versions, after.versions, (k: (SpecId, int), _: SnapshotRow) => k.0 != s)
            && StaysWhere(db.specRuntime, after.specRuntime, (k, _: SpecRow) => k != s)
            && StaysWhere(db.tasks, after.tasks, (_: TaskId, row: TaskRow) => row.specId != s)
            && StaysWhere(db.runs, after.runs, (_: RunId, row: RunRow) => row.specId != s)
            && StaysWhere(db.decisions, after.decisions, (_: DecisionId, row: DecisionRow) => row.specId != s)
            && (forall e :: e in after.deps <==> e in db.deps && !Touches(db, s, e))
  {}

  /** The report counts, table by table, the rows that are gone. */
  lemma ReportCountsWhatIsGone(db: Db, s: SpecId)
    ensures var after, report := Cleaned(db, s), FullReport(db, s);
            && report.decisions == |db.decisions| - |after.decisions|
            && report.runs == |db.runs| - |after.runs|
            && report.deps == |db.deps| - |after.deps|
            && report.tasks == |db.tasks| - |after.tasks|
            && report.specRuntime == |db.specRuntime| - |after.specRuntime|
            && report.versions == |db.versions| - |after.versions|
            && report.specs == |db.specs| - |after.specs|
  {
    OwnRowsAreThere(db, s);
    hide OwnDecisions, OwnRuns, OwnTasks, OwnVersions, TouchingDeps;
    FewerBy(db.decisions, OwnDecisions(db, s));
    FewerBy(db.runs, OwnRuns(db, s));
    FewerBy(db.tasks, OwnTasks(db, s));
    FewerBy(db.versions, OwnVersions(db, s));
    FewerByOne(db.specRuntime, s);
    FewerByOne(db.specs, s);
  }

  lemma OwnRowsAreThere(db: Db, s: SpecId)
    ensures OwnDecisions(db, s) <= db.decisions.Keys && OwnRuns(db, s) <= db.runs.Keys
    ensures OwnTasks(db, s) <= db.tasks.Keys && OwnVersions(db, s) <= db.versions.Keys && TouchingDeps(db, s) <= db.deps
  {}

  lemma FewerBy<K, V>(before: map<K, V>, gone: set<K>)
    requires gone <= before.Keys
    ensures |before - gone| == |before| - |gone|
  {
    assert (before - gone).Keys == before.Keys - gone;
  }

  lemma FewerByOne<K, V>(before: map<K, V>, k: K)
    ensures |before - {k}| == |before| - if k in before then 1 else 0
  {
    if k in before {
      FewerBy(before, {k});
    } else {
      assert before - {k} == before;
    }
  }

  lemma DoomedRowsAreThere(db: Db, s: SpecId, cutoff: Time)
    ensures DoomedDecisions(db, s, cutoff) <= db.decisions.Keys && DoomedRuns(db, s, cutoff) <= db.runs.Keys
  {}

  lemma KeptKeys(decisions: map<DecisionId, DecisionRow>, gone: set<DecisionId>)
    requires gone <= decisions.Keys
    ensures |Kept(decisions, gone)| == |decisions| - |gone|
  {
    assert Kept(decisions, gone).Keys == decisions.Keys - gone;
    hide Unlinked;
  }

  lemma PruneCountsWhatIsGone(db: Db, s: SpecId, cutoff: Time)
    ensures var after := Pruned(db, s, cutoff);
            && |DoomedDecisions(db, s, cutoff)| == |db.decisions| - |after.decisions|
            && |DoomedRuns(db, s, cutoff)| == |db.runs| - |after.runs|
  {
    DoomedRowsAreThere(db, s, cutoff);
    hide DoomedDecisions, DoomedRuns, Kept;
    FewerBy(db.runs, DoomedRuns(db, s, cutoff));
    KeptKeys(db.decisions, DoomedDecisions(db, s, cutoff));
  }

  lemma CleanedKeepsTables(db: Db, s: SpecId)
    requires Valid(db)
    ensures var after := Cleaned(db, s);
            && VersionsOk(after.specs, after.versions)
            && SpecRuntimeOk(after.specs, after.versions, after.specRuntime)
            && TasksOk(after.specs, after.tasks)
            && DepsOk(after.tasks, after.deps)
            && RunKeysUnique(after.runs)
            && OneSuperseder(after.decisions)
  {}

  lemma CleanedKeepsRuns(db: Db, s: SpecId)
    requires Valid(db) && !ForeignRuns(db, s)
    ensures var after := Cleaned(db, s);
            RunsOk(after.specs, after.versions, after.tasks, after.runs)
  {}

  lemma UnblockedCutsNoEdge(db: Db, s: SpecId, order: seq<DecisionId>, d: DecisionId)
    requires VisitsOwn(db, s, order) && OrderUnblocked(db.decisions, order)
    requires d in db.decisions && d !in OwnDecisions(db, s) && db.decisions[d].supersedes.Some?
    ensures db.decisions[d].supersedes.value !in OwnDecisions(db, s)
  {}

  lemma CleanedKeepsDecisions(db: Db, s: SpecId, order: seq<DecisionId>)
    requires Valid(db) && VisitsOwn(db, s, order) && CascadeUnblocked(db, s, order)
    ensures var after := Cleaned(db, s);
            DecisionsOk(after.specs, after.runs, after.decisions)
  {
    forall d | d in db.decisions && d !in OwnDecisions(db, s) && db.decisions[d].supersedes.Some?
      ensures db.decisions[d].supersedes.value !in OwnDecisions(db, s)
    {
      UnblockedCutsNoEdge(db, s, order, d);
    }
  }

  /** A cascade that goes through leaves a database that satisfies every constraint. */
  lemma CleanedIsValid(db: Db, s: SpecId, order: seq<DecisionId>)
    requires Valid(db) && VisitsOwn(db, s, order) && CascadeUnblocked(db, s, order)
    ensures Valid(Cleaned(db, s))
    ensures Coherent(db) ==> Coherent(Cleaned(db, s))
  {
    CleanedKeepsTables(db, s);
    CleanedKeepsRuns(db, s);
    CleanedKeepsDecisions(db, s, order);
    if Coherent(db) {
      CleanedIsCoherent(db, s);
    }
    hide Cleaned, Coherent, VersionsOk, SpecRuntimeOk, TasksOk, DepsOk, RunsOk, RunKeysUnique, DecisionsOk, OneSuperseder;
  }

  lemma CleanedIsCoherent(db: Db, s: SpecId)
    requires Coherent(db)
    ensures Coherent(Cleaned(db, s))
  {}

  // ----- The guard, and what may happen behind its back -----

  /** Any order at all, as the engine picks one. */
  method VisitingOrder(own: set<DecisionId>) returns (order: seq<DecisionId>)
    ensures Distinct(order) && forall d :: d in order <==> d in own
  {
    order := [];
    var todo := own;
    while todo != {}
      invariant todo <= own
      invariant Distinct(order) && forall d :: d in order <==> d in own && d !in todo
    {
      var d :| d in todo;
      order := order + [d];
      todo := todo - {d};
    }
  }

  /**
   `clean_spec`: the status is read before the transaction opens, so statements of other writers, `meanwhile`, may land
   in between. The status under which the rows go is then the target of the last of them that is about the spec; it is
   still the terminal one that was read as long as none of them lands where its guard no longer holds.
   */
  method CleanSpec(store: Store, s: SpecId, meanwhile: seq<Statement>) returns (r: Result<CleanReport, S.RepoError>)
    modifies store
    ensures s !in old(store.specRuntime) ==> r == Err(S.NotFound) && store.Contents() == old(store.Contents())
    ensures s in old(store.specRuntime) && !old(store.specRuntime)[s].status.Terminal() ==>
              r == Err(S.SpecNotTerminal(old(store.specRuntime)[s].status)) && store.Contents() == old(store.Contents())
    ensures s in old(store.specRuntime) && old(store.specRuntime)[s].status.Terminal() ==>
              var late := WrittenAll(old(store.Contents()), meanwhile);
              && s in late.specRuntime
              && late.specRuntime[s].status == LastStatus(meanwhile, s, old(store.specRuntime)[s].status)
              && (LandOnGuard(old(store.Contents()), meanwhile, s) ==>
                    late.specRuntime[s].status == old(store.specRuntime)[s].status)
              && (r.Ok? ==> store.Contents() == Cleaned(late, s) && r.value == FullReport(late, s))
              && (r.Err? ==> store.Contents() == late && r.error == S.ForeignKeyViolation)
              && (!ForeignDecisions(late, s) && !ForeignRuns(late, s) && NoneSuperseded(late, s) ==> r.Ok?)
  {
    if s !in store.specRuntime { return Err(S.NotFound); }
    var status := store.specRuntime[s].status;
    if !status.Terminal() { return Err(S.SpecNotTerminal(status)); }
    WrittenAllStatus(store.Contents(), meanwhile, s);
    if LandOnGuard(store.Contents(), meanwhile, s) {
      TerminalIsForever(store.Contents(), meanwhile, s);
    }
    hide WrittenAll, LastStatus, LandOnGuard;
    SendStatements(store, meanwhile);
    CascadesInEveryOrder(store.Contents(), s);
    var order := VisitingOrder(OwnDecisions(store.Contents(), s));
    assert VisitsOwn(store.Contents(), s, order);
    r := CleanSpecForced(store, s, order);
  }

  /** A start that was guarded before the spec was canceled and lands after the check: a running spec is cleaned away. */
  lemma LateStartIsCleanedAway(db: Db, s: SpecId, at: Time)
    requires s in db.specRuntime && db.specRuntime[s].status.Terminal()
    ensures var late := WrittenAll(db, [OfEvent(SpecStarted(s), at)]);
            && s in late.specRuntime && late.specRuntime[s].status.Running?
            && !LandOnGuard(db, [OfEvent(SpecStarted(s), at)], s)
  {
    WrittenAllStatus(db, [OfEvent(SpecStarted(s), at)], s);
    assert [OfEvent(SpecStarted(s), at)][1..] == [];
    NoGuardFromTerminal(db, OfEvent(SpecStarted(s), at), s);
    hide Written, GuardHolds;
  }
}
