/**
 The database as the mutable object the repo layer works on: seven tables updated in place, one method per statement,
 each proved against the function that specifies it.
 */
module Repo {
  import opened Outcomes
  import opened Schema
  import S = Statements

  class Store {
    var specs: map<SpecId, Time>
    var versions: map<(SpecId, int), SnapshotRow>
    var specRuntime: map<SpecId, SpecRow>
    var tasks: map<TaskId, TaskRow>
    var deps: set<(TaskId, TaskId)>
    var runs: map<RunId, RunRow>
    var decisions: map<DecisionId, DecisionRow>

    function Contents(): Db
      reads this
    {
      Db(specs, versions, specRuntime, tasks, deps, runs, decisions)
    }

    /** A freshly migrated database. */
    constructor ()
      ensures Contents() == EMPTY_DB
    {
      specs, versions, specRuntime, tasks, deps, runs, decisions := map[], map[], map[], map[], {}, map[], map[];
    }

    /** Rolling a transaction back puts every table back. */
    method Rollback(saved: Db)
      modifies this
      ensures Contents() == saved
    {
      specs, versions, specRuntime := saved.specs, saved.versions, saved.specRuntime;
      tasks, deps, runs, decisions := saved.tasks, saved.deps, saved.runs, saved.decisions;
    }

    // ----- specs, spec_versions, spec_runtime -----

    method InsertSpec(s: SpecId, now: Time) returns (r: Result<(), S.RepoError>)
      modifies this
      ensures var o := S.InsertSpec(old(Contents()), s, now);
              r == S.Reply(o) && Contents() == S.After(old(Contents()), o)
    {
      if s in specs { return Err(S.Duplicate); }
      specs := specs[s := now];
      r := Ok(());
    }

    method AppendVersion(s: SpecId, version: int, snapshot: SnapshotRow) returns (r: Result<(), S.RepoError>)
      modifies this
      ensures var o := S.AppendVersion(old(Contents()), s, version, snapshot);
              r == S.Reply(o) && Contents() == S.After(old(Contents()), o)
    {
      if (s, version) in versions { return Err(S.Duplicate); }
      if s !in specs { return Err(S.ForeignKeyViolation); }
      versions := versions[(s, version) := snapshot];
      r := Ok(());
    }

    method InitializeSpec(s: SpecId, version: int) returns (r: Result<(), S.RepoError>)
      modifies this
      ensures var o := S.InitializeSpec(old(Contents()), s, version);
              r == S.Reply(o) && Contents() == S.After(old(Contents()), o)
    {
      if s in specRuntime { return Err(S.Duplicate); }
      if s !in specs || (s, version) !in versions { return Err(S.ForeignKeyViolation); }
      specRuntime := specRuntime[s := S.QueuedRow(version)];
      r := Ok(());
    }

    method UpdateStatus(s: SpecId, status: SpecStatus, reason: Option<TerminalReason>, now: Time)
      returns (r: Result<(), S.RepoError>)
      modifies this
      ensures var o := S.UpdateStatus(old(Contents()), s, status, reason, now);
              r == S.Reply(o) && Contents() == S.After(old(Contents()), o)
    {
      if s !in specRuntime { return Err(S.NotFound); }
      var row := S.StatusWritten(specRuntime[s], status, reason, now);
      if !StatusReasonCheck(row) { return Err(S.CheckViolation); }
      specRuntime := specRuntime[s := row];
      r := Ok(());
    }

    method UpdateCurrentVersion(s: SpecId, version: int) returns (r: Result<(), S.RepoError>)
      modifies this
      ensures var o := S.UpdateCurrentVersion(old(Contents()), s, version);
              r == S.Reply(o) && Contents() == S.After(old(Contents()), o)
    {
      if s !in specRuntime { return Err(S.NotFound); }
      if (s, version) !in versions { return Err(S.ForeignKeyViolation); }
      specRuntime := specRuntime[s := specRuntime[s].(currentVersion := version)];
      r := Ok(());
    }

    method IncrementSpecIteration(s: SpecId, counter: S.SpecCounter) returns (r: Result<(), S.RepoError>)
      modifies this
      ensures var o := S.IncrementSpecIteration(old(Contents()), s, counter);
              r == S.Reply(o) && Contents() == S.After(old(Contents()), o)
    {
      if s !in specRuntime { return Err(S.NotFound); }
      specRuntime := specRuntime[s := S.SpecBumped(specRuntime[s], counter)];
      r := Ok(());
    }

    // ----- task_runtime, task_deps -----

    method InsertTask(t: TaskId, s: SpecId, taskRef: Option<string>) returns (r: Result<(), S.RepoError>)
      modifies this
      ensures var o := S.InsertTask(old(Contents()), t, s, taskRef);
              r == S.Reply(o) && Contents() == S.After(old(Contents()), o)
    {
      if t in tasks { return Err(S.Duplicate); }
      if s !in specs { return Err(S.ForeignKeyViolation); }
      tasks := tasks[t := S.FreshTask(s, taskRef)];
      r := Ok(());
    }

    method UpdateState(t: TaskId, state: TaskState, reason: Option<TerminalReason>, blocked: Option<BlockedReason>,
                       now: Time)
      returns (r: Result<(), S.RepoError>)
      modifies this
      ensures var o := S.UpdateState(old(Contents()), t, state, reason, blocked, now);
              r == S.Reply(o) && Contents() == S.After(old(Contents()), o)
    {
      if reason.Some? && reason.value.Failure? { return Err(S.Duplicate); }
      if t !in tasks { return Err(S.NotFound); }
      tasks := tasks[t := S.StateWritten(tasks[t], state, reason, blocked, now)];
      r := Ok(());
    }

    method IncrementIteration(t: TaskId, counter: S.TaskCounter) returns (r: Result<int, S.RepoError>)
      modifies this
      ensures Contents() == S.After(old(Contents()), S.IncrementIteration(old(Contents()), t, counter))
      ensures r.Ok? <==> t in old(tasks)
      ensures r.Ok? ==> r.value == S.CounterOf(tasks[t], counter) == S.CounterOf(old(tasks)[t], counter) + 1
      ensures r.Err? ==> r.error == S.NotFound
    {
      if t !in tasks { return Err(S.NotFound); }
      tasks := tasks[t := S.TaskBumped(tasks[t], counter)];
      r := Ok(S.CounterOf(tasks[t], counter));
    }

    method ResetIterations(t: TaskId) returns (r: Result<(), S.RepoError>)
      modifies this
      ensures var o := S.ResetIterations(old(Contents()), t);
              r == S.Reply(o) && Contents() == S.After(old(Contents()), o)
    {
      if t !in tasks { return Err(S.NotFound); }
      tasks := tasks[t := S.CountersReset(tasks[t])];
      r := Ok(());
    }

    method AddDep(t: TaskId, dependsOn: TaskId) returns (r: Result<(), S.RepoError>)
      modifies this
      ensures var o := S.AddDep(old(Contents()), t, dependsOn);
              r == S.Reply(o) && Contents() == S.After(old(Contents()), o)
    {
      if (t, dependsOn) in deps { return Ok(()); }
      if t !in tasks || dependsOn !in tasks { return Err(S.ForeignKeyViolation); }
      deps := deps + {(t, dependsOn)};
      r := Ok(());
    }

    method RemoveDep(t: TaskId, dependsOn: TaskId)
      modifies this
      ensures Contents() == S.RemoveDep(old(Contents()), t, dependsOn).db
    {
      deps := deps - {(t, dependsOn)};
    }

    // ----- phase_runs -----

    method InsertStart(run: RunId, s: SpecId, t: Option<TaskId>, phase: string, iteration: nat, version: int,
                       provider: string, now: Time)
      returns (r: Result<(), S.RepoError>)
      modifies this
      ensures var o := S.InsertStart(old(Contents()), run, s, t, phase, iteration, version, provider, now);
              r == S.Reply(o) && Contents() == S.After(old(Contents()), o)
    {
      var row := S.OpenRow(s, t, phase, iteration, version, provider, now);
      if run in runs || S.RunKeyTaken(runs, row) { return Err(S.Duplicate); }
      if s !in specs || (t.Some? && t.value !in tasks) || (s, version) !in versions {
        return Err(S.ForeignKeyViolation);
      }
      runs := runs[run := row];
      r := Ok(());
    }

    method UpdateEnd(run: RunId, verdict: Verdict, files: seq<string>, tokensIn: nat, tokensOut: nat, at: Time)
      returns (r: Result<(), S.RepoError>)
      modifies this
      ensures var o := S.UpdateEnd(old(Contents()), run, verdict, files, tokensIn, tokensOut, at);
              r == S.Reply(o) && Contents() == S.After(old(Contents()), o)
    {
      if tokensIn > S.I64_MAX || tokensOut > S.I64_MAX || run !in runs { return Err(S.NotFound); }
      runs := runs[run := runs[run].(
        synopsis := verdict.synopsis, verdict := Some(verdict), filesTouched := files, completedAt := Some(at),
        tokensIn := Some(tokensIn), tokensOut := Some(tokensOut))];
      r := Ok(());
    }

    method RecordHeartbeat(run: RunId, now: Time)
      modifies this
      ensures Contents() == S.RecordHeartbeat(old(Contents()), run, now).db
    {
      if run in runs && runs[run].IsOpen() {
        runs := runs[run := runs[run].(lastHeartbeatAt := Some(now))];
      }
    }

    /** The shared shape of `close_orphaned`, `mark_*` and `cancel_open_*`; returns the rows affected. */
    method CloseRuns(scope: S.Scope, verdict: Option<Verdict>, now: Time) returns (closed: nat)
      modifies this
      ensures Contents() == S.CloseScope(old(Contents()), scope, verdict, now)
      ensures closed == |set r | r in old(runs) && runs[r] != old(runs)[r]|
    {
      var hit := set r | r in runs && runs[r].IsOpen() && S.InScope(scope, r, runs[r]);
      runs := map r | r in runs ::
        if runs[r].IsOpen() && S.InScope(scope, r, runs[r]) then S.RowClosed(runs[r], verdict, now) else runs[r];
      assert hit == set r | r in old(runs) && runs[r] != old(runs)[r];
      closed := |hit|;
    }

    // ----- decisions -----

    method InsertDecision(d: DecisionId, row: DecisionRow) returns (r: Result<(), S.RepoError>)
      modifies this
      ensures var o := S.InsertDecision(old(Contents()), d, row);
              r == S.Reply(o) && Contents() == S.After(old(Contents()), o)
    {
      if !OriginCheck(row) { return Err(S.CheckViolation); }
      if d in decisions || S.SupersedesTaken(decisions, row) { return Err(S.Duplicate); }
      if row.specId !in specs || (row.phaseRunId.Some? && row.phaseRunId.value !in runs)
         || (row.supersedes.Some? && row.supersedes.value !in decisions && row.supersedes.value != d) {
        return Err(S.ForeignKeyViolation);
      }
      decisions := decisions[d := row];
      r := Ok(());
    }
  }
}
