/**
 The composition queries of src/repo/composition.rs and `fetch_by_spec` of src/repo/decisions.rs, run the way an SQL
 engine runs them — join, filter, group, aggregate, order, decode — against what the caller wants to know.

 A table has no order of its own: `runScan`, `decisionScan` and `groupScan` are whatever order the engine happens to
 produce rows in, and every result below holds for all of them.
 */
module Composition {
  import opened Outcomes
  import opened Digraph
  import opened Schema

  /** A scan of a table meets every key once. */
  ghost predicate Scans<T(!new)>(scan: seq<T>, keys: set<T>) {
    Distinct(scan) && forall x :: x in scan <==> x in keys
  }

  // ----- ORDER BY -----

  predicate Before(a: (int, int), b: (int, int)) {
    a.0 < b.0 || (a.0 == b.0 && a.1 <= b.1)
  }

  ghost predicate SortedBy<T>(s: seq<T>, key: T -> (int, int)) {
    forall i, j :: 0 <= i < j < |s| ==> Before(key(s[i]), key(s[j]))
  }

  function Insert<T>(s: seq<T>, x: T, key: T -> (int, int)): seq<T> {
    if s == [] || Before(key(x), key(s[0])) then [x] + s else [s[0]] + Insert(s[1..], x, key)
  }

  function OrderBy<T>(s: seq<T>, key: T -> (int, int)): seq<T> {
    if s == [] then [] else Insert(OrderBy(s[1..], key), s[0], key)
  }

  lemma {:induction false} InsertMembers<T>(s: seq<T>, x: T, key: T -> (int, int), y: T)
    ensures y in Insert(s, x, key) <==> y == x || y in s
  {
    if s != [] && !Before(key(x), key(s[0])) {
      InsertMembers(s[1..], x, key, y);
      assert s == [s[0]] + s[1..];
    }
  }

  lemma {:induction false} InsertKeepsOrder<T>(s: seq<T>, x: T, key: T -> (int, int))
    requires SortedBy(s, key) && Distinct(s) && x !in s
    ensures SortedBy(Insert(s, x, key), key) && Distinct(Insert(s, x, key))
  {
    if s != [] && !Before(key(x), key(s[0])) {
      var rest := Insert(s[1..], x, key);
      InsertKeepsOrder(s[1..], x, key);
      forall y | y in rest ensures Before(key(s[0]), key(y)) && y != s[0] {
        InsertMembers(s[1..], x, key, y);
      }
      forall i | 0 <= i < |rest| ensures Before(key(s[0]), key(rest[i])) && rest[i] != s[0] {
        assert rest[i] in rest;
      }
    }
  }

  /** Sorting a list without repeats keeps its members, repeats none, and puts them in order. */
  lemma {:induction false} OrderBySorts<T>(s: seq<T>, key: T -> (int, int))
    requires Distinct(s)
    ensures SortedBy(OrderBy(s, key), key) && Distinct(OrderBy(s, key))
    ensures forall y :: y in OrderBy(s, key) <==> y in s
  {
    if s != [] {
      assert s == [s[0]] + s[1..];
      OrderBySorts(s[1..], key);
      InsertKeepsOrder(OrderBy(s[1..], key), s[0], key);
      forall y ensures y in OrderBy(s, key) <==> y in s {
        InsertMembers(OrderBy(s[1..], key), s[0], key, y);
      }
    }
  }

  // ----- WHERE -----

  function Where<T>(s: seq<T>, keep: T -> bool): seq<T> {
    if s == [] then []
    else if keep(s[0]) then [s[0]] + Where(s[1..], keep)
    else Where(s[1..], keep)
  }

  lemma {:induction false} WhereMembers<T>(s: seq<T>, keep: T -> bool)
    ensures forall x :: x in Where(s, keep) <==> x in s && keep(x)
    ensures Distinct(s) ==> Distinct(Where(s, keep))
  {
    if s != [] {
      assert s == [s[0]] + s[1..];
      WhereMembers(s[1..], keep);
      if Distinct(s) {
        forall i, j | 0 <= i < j < |s| - 1 ensures s[1..][i] != s[1..][j] {
          assert s[i + 1] != s[j + 1];
        }
        assert s[0] !in s[1..];
      }
    }
  }

  // ----- LEFT JOIN decisions ON phase_run_id = id -----

  /** One row of the join: a run with one of its decisions, or with NULL if it has none. */
  datatype Joined = Joined(run: RunId, decision: Option<DecisionId>)

  predicate MadeBy(decisions: map<DecisionId, DecisionRow>, d: DecisionId, r: RunId) {
    d in decisions && decisions[d].phaseRunId == Some(r)
  }

  function Hits(decisions: map<DecisionId, DecisionRow>, r: RunId, scan: seq<DecisionId>): seq<DecisionId> {
    Where(scan, d => MadeBy(decisions, d, r))
  }

  function Pairs(r: RunId, hits: seq<DecisionId>): seq<Joined> {
    if hits == [] then [] else [Joined(r, Some(hits[0]))] + Pairs(r, hits[1..])
  }

  function JoinOne(decisions: map<DecisionId, DecisionRow>, r: RunId, scan: seq<DecisionId>): seq<Joined> {
    var hits := Hits(decisions, r, scan);
    if hits == [] then [Joined(r, None)] else Pairs(r, hits)
  }

  function LeftJoin(decisions: map<DecisionId, DecisionRow>, runs: seq<RunId>, scan: seq<DecisionId>): seq<Joined> {
    if runs == [] then [] else JoinOne(decisions, runs[0], scan) + LeftJoin(decisions, runs[1..], scan)
  }

  // ----- GROUP BY pr.id, json_group_array(d.id) -----

  /** The groups met so far, each with the array collected for it. */
  type Groups = map<RunId, seq<Option<DecisionId>>>

  function AddRow(groups: Groups, row: Joined): Groups {
    groups[row.run := (if row.run in groups then groups[row.run] else []) + [row.decision]]
  }

  function GroupBy(rows: seq<Joined>, groups: Groups): Groups
    decreases |rows|
  {
    if rows == [] then groups else GroupBy(rows[1..], AddRow(groups, rows[0]))
  }

  /** Everything the rows hold for one run. */
  function Column(rows: seq<Joined>, r: RunId): seq<Option<DecisionId>> {
    if rows == [] then []
    else if rows[0].run == r then [rows[0].decision] + Column(rows[1..], r)
    else Column(rows[1..], r)
  }

  function Collected(groups: Groups, r: RunId): seq<Option<DecisionId>> {
    if r in groups then groups[r] else []
  }

  lemma {:induction false} GroupByCollects(rows: seq<Joined>, groups: Groups, r: RunId)
    ensures Collected(GroupBy(rows, groups), r) == Collected(groups, r) + Column(rows, r)
    ensures r in GroupBy(rows, groups) <==> r in groups || Column(rows, r) != []
    decreases |rows|
  {
    if rows != [] {
      GroupByCollects(rows[1..], AddRow(groups, rows[0]), r);
    }
  }

  lemma {:induction false} ColumnOfConcat(a: seq<Joined>, b: seq<Joined>, r: RunId)
    ensures Column(a + b, r) == Column(a, r) + Column(b, r)
  {
    if a == [] {
      assert a + b == b;
    } else {
      assert a + b == [a[0]] + (a[1..] + b);
      ColumnOfConcat(a[1..], b, r);
    }
  }

  // ----- Vec<Option<String>>::flatten -----

  function Flatten<T>(s: seq<Option<T>>): seq<T> {
    if s == [] then []
    else if s[0].Some? then [s[0].value] + Flatten(s[1..])
    else Flatten(s[1..])
  }

  lemma {:induction false} PairsColumn(r: RunId, hits: seq<DecisionId>, q: RunId)
    ensures Column(Pairs(r, hits), q) != [] <==> q == r && hits != []
    ensures q != r ==> Column(Pairs(r, hits), q) == []
    ensures Flatten(Column(Pairs(r, hits), r)) == hits
  {
    if hits != [] {
      PairsColumn(r, hits[1..], q);
    }
  }

  lemma JoinOneColumn(decisions: map<DecisionId, DecisionRow>, r: RunId, scan: seq<DecisionId>, q: RunId)
    ensures Column(JoinOne(decisions, r, scan), q) != [] <==> q == r
    ensures Flatten(Column(JoinOne(decisions, r, scan), r)) == Hits(decisions, r, scan)
  {
    PairsColumn(r, Hits(decisions, r, scan), q);
  }

  /** What the join holds for a run is its decisions, with NULL standing for none; it holds nothing for other runs. */
  lemma {:induction false} LeftJoinColumn(decisions: map<DecisionId, DecisionRow>, runs: seq<RunId>,
                                         scan: seq<DecisionId>, q: RunId)
    requires Distinct(runs)
    ensures Column(LeftJoin(decisions, runs, scan), q) != [] <==> q in runs
    ensures q in runs ==> Flatten(Column(LeftJoin(decisions, runs, scan), q)) == Hits(decisions, q, scan)
  {
    if runs != [] {
      assert runs == [runs[0]] + runs[1..];
      LeftJoinColumn(decisions, runs[1..], scan, q);
      JoinOneColumn(decisions, runs[0], scan, q);
      var first, rest := JoinOne(decisions, runs[0], scan), LeftJoin(decisions, runs[1..], scan);
      ColumnOfConcat(first, rest, q);
      assert Column(first + rest, q) == if q == runs[0] then Column(first, q) else Column(rest, q);
    }
  }

  lemma {:induction false} ColumnOfWhere(rows: seq<Joined>, keep: Joined -> bool, r: RunId, kept: bool)
    requires forall row: Joined :: row.run == r ==> keep(row) == kept
    ensures Column(Where(rows, keep), r) == if kept then Column(rows, r) else []
  {
    if rows != [] {
      ColumnOfWhere(rows[1..], keep, r, kept);
    }
  }

  // ----- prior_phase_runs -----

  const U32_MAX := 0xFFFF_FFFF

  datatype Summary = Summary(
    id: RunId, phase: string, phaseIteration: int, provider: string, synopsis: string,
    verdictOutcome: Option<string>, filesTouched: seq<string>, decisionsMade: seq<DecisionId>,
    completedAt: Option<Time>, errorWhyFix: Option<ErrorWhyFix>)

  datatype Corrupt = CorruptPhaseIteration

  function OutcomeName(v: Verdict): string {
    match v.outcome
    case VPassing(_) => "passing"
    case VRedo => "redo"
    case VBlocked(_, _) => "blocked"
    case VFail(_) => "fail"
    case VCanceled => "canceled"
  }

  function ForwardedError(v: Verdict): Option<ErrorWhyFix> {
    match v.outcome
    case VFail(e) => Some(e)
    case VBlocked(_, detail) => detail
    case VPassing(_) | VRedo | VCanceled => None
  }

  function RowToSummary(r: RunId, row: RunRow, made: seq<Option<DecisionId>>): Result<Summary, Corrupt> {
    if row.phaseIteration < 0 || row.phaseIteration > U32_MAX then Err(CorruptPhaseIteration)
    else Ok(Summary(
              r, row.phase, row.phaseIteration, row.provider, row.synopsis,
              if row.verdict.Some? then Some(OutcomeName(row.verdict.value)) else None,
              row.filesTouched, Flatten(made), row.completedAt,
              if row.verdict.Some? then ForwardedError(row.verdict.value) else None))
  }

  /** `rows.into_iter().map(row_to_summary).collect()`: the first bad row fails the whole query. */
  function Decode(runs: map<RunId, RunRow>, groups: Groups, ids: seq<RunId>): Result<seq<Summary>, Corrupt>
    requires forall r :: r in ids ==> r in runs
  {
    if ids == [] then Ok([])
    else
      var first := RowToSummary(ids[0], runs[ids[0]], Collected(groups, ids[0]));
      if first.Err? then Err(first.error)
      else
        var rest := Decode(runs, groups, ids[1..]);
        if rest.Err? then rest else Ok([first.value] + rest.value)
  }

  /** `task = None` is the spec-level query: `task_id IS NULL`. */
  predicate Selected(runs: map<RunId, RunRow>, s: SpecId, task: Option<TaskId>, r: RunId) {
    r in runs && runs[r].specId == s && runs[r].taskId == task
  }

  function OfTask(runs: map<RunId, RunRow>, s: SpecId, task: Option<TaskId>): Joined -> bool {
    (row: Joined) => Selected(runs, s, task, row.run)
  }

  function PriorGroups(db: Db, s: SpecId, task: Option<TaskId>, runScan: seq<RunId>, decisionScan: seq<DecisionId>)
    : Groups
  {
    var joined := LeftJoin(db.decisions, runScan, decisionScan);
    GroupBy(Where(joined, OfTask(db.runs, s, task)), map[])
  }

  function RunKey(runs: map<RunId, RunRow>, r: RunId): (int, int) {
    if r in runs then (runs[r].startedAt, runs[r].phaseIteration) else (0, 0)
  }

  lemma PriorGroupsHold(db: Db, s: SpecId, task: Option<TaskId>, runScan: seq<RunId>, decisionScan: seq<DecisionId>,
                        r: RunId)
    requires Scans(runScan, db.runs.Keys)
    ensures var groups := PriorGroups(db, s, task, runScan, decisionScan);
            && (r in groups <==> Selected(db.runs, s, task, r))
            && (r in groups ==> Flatten(groups[r]) == Hits(db.decisions, r, decisionScan))
  {
    var joined := LeftJoin(db.decisions, runScan, decisionScan);
    var kept := Where(joined, OfTask(db.runs, s, task));
    LeftJoinColumn(db.decisions, runScan, decisionScan, r);
    ColumnOfWhere(joined, OfTask(db.runs, s, task), r, Selected(db.runs, s, task, r));
    GroupByCollects(kept, map[], r);
    assert [] + Column(kept, r) == Column(kept, r);
  }

  lemma GroupsAreRuns(db: Db, s: SpecId, task: Option<TaskId>, runScan: seq<RunId>, decisionScan: seq<DecisionId>,
                      groupScan: seq<RunId>)
    requires Scans(runScan, db.runs.Keys)
    requires Scans(groupScan, PriorGroups(db, s, task, runScan, decisionScan).Keys)
    ensures var ids := OrderBy(groupScan, r => RunKey(db.runs, r));
            && Distinct(ids) && SortedBy(ids, r => RunKey(db.runs, r))
            && forall r :: r in ids <==> Selected(db.runs, s, task, r)
  {
    var key := r => RunKey(db.runs, r);
    OrderBySorts(groupScan, key);
    forall r ensures r in OrderBy(groupScan, key) <==> Selected(db.runs, s, task, r) {
      PriorGroupsHold(db, s, task, runScan, decisionScan, r);
    }
  }

  function PriorPhaseRuns(db: Db, s: SpecId, task: Option<TaskId>, runScan: seq<RunId>,
                          decisionScan: seq<DecisionId>, groupScan: seq<RunId>): Result<seq<Summary>, Corrupt>
    requires Scans(runScan, db.runs.Keys)
    requires Scans(groupScan, PriorGroups(db, s, task, runScan, decisionScan).Keys)
  {
    GroupsAreRuns(db, s, task, runScan, decisionScan, groupScan);
    Decode(db.runs, PriorGroups(db, s, task, runScan, decisionScan), OrderBy(groupScan, r => RunKey(db.runs, r)))
  }

  predicate InRange(row: RunRow) {
    0 <= row.phaseIteration <= U32_MAX
  }

  /** An outcome is named after its verdict; only a failed or blocked one forwards an error, a failed one always. */
  predicate SpeaksOf(summary: Summary, verdict: Option<Verdict>) {
    && (summary.verdictOutcome.Some? <==> verdict.Some?)
    && (verdict.Some? ==>
          var outcome := verdict.value.outcome;
          && (summary.verdictOutcome == Some("passing") <==> outcome.VPassing?)
          && (summary.verdictOutcome == Some("redo") <==> outcome.VRedo?)
          && (summary.verdictOutcome == Some("blocked") <==> outcome.VBlocked?)
          && (summary.verdictOutcome == Some("fail") <==> outcome.VFail?)
          && (summary.verdictOutcome == Some("canceled") <==> outcome.VCanceled?)
          && (outcome.VFail? ==> summary.errorWhyFix == Some(outcome.failed))
          && (outcome.VBlocked? ==> summary.errorWhyFix == outcome.detail))
    && (summary.errorWhyFix.Some? ==> summary.verdictOutcome in [Some("fail"), Some("blocked")])
  }

  /** What a caller wants to read off a summary: the run it stands for, and exactly the decisions that run recorded. */
  ghost predicate Describes(db: Db, summary: Summary, r: RunId) {
    && r in db.runs
    && var row := db.runs[r];
       && summary.id == r
       && summary.phase == row.phase && summary.phaseIteration == row.phaseIteration
       && summary.provider == row.provider && summary.synopsis == row.synopsis
       && summary.filesTouched == row.filesTouched && summary.completedAt == row.completedAt
       && SpeaksOf(summary, row.verdict)
       && Distinct(summary.decisionsMade)
       && forall d :: d in summary.decisionsMade <==> d in db.decisions && db.decisions[d].phaseRunId == Some(r)
  }

  lemma SummaryDescribes(db: Db, r: RunId, made: seq<Option<DecisionId>>, decisionScan: seq<DecisionId>)
    requires r in db.runs && Scans(decisionScan, db.decisions.Keys)
    requires Flatten(made) == Hits(db.decisions, r, decisionScan)
    ensures RowToSummary(r, db.runs[r], made).Ok? <==> InRange(db.runs[r])
    ensures InRange(db.runs[r]) ==> Describes(db, RowToSummary(r, db.runs[r], made).value, r)
  {
    WhereMembers(decisionScan, d => MadeBy(db.decisions, d, r));
  }

  lemma {:induction false} DecodeDescribes(db: Db, groups: Groups, ids: seq<RunId>, decisionScan: seq<DecisionId>)
    requires forall r :: r in ids ==> r in db.runs
    requires Scans(decisionScan, db.decisions.Keys)
    requires forall r :: r in ids ==> Flatten(Collected(groups, r)) == Hits(db.decisions, r, decisionScan)
    ensures Decode(db.runs, groups, ids).Err? <==> exists r :: r in ids && !InRange(db.runs[r])
    ensures Decode(db.runs, groups, ids).Ok? ==>
              var out := Decode(db.runs, groups, ids).value;
              |out| == |ids| && forall i :: 0 <= i < |ids| ==> Describes(db, out[i], ids[i])
  {
    hide Describes, RowToSummary, InRange, Hits;
    if ids != [] {
      assert ids[0] in ids && forall r :: r in ids[1..] ==> r in ids;
      assert ids == [ids[0]] + ids[1..];
      SummaryDescribes(db, ids[0], Collected(groups, ids[0]), decisionScan);
      DecodeDescribes(db, groups, ids[1..], decisionScan);
    }
  }

  /**
   The join, the grouping, the NULL filter and the sort together return each run of the task (or, for `None`, each
   spec-level run) exactly once, in start order, each with exactly the decisions it recorded; and the query fails only
   on a run whose iteration does not fit 32 bits.
   */
  lemma PriorRunsAreTheRunsOnce(db: Db, s: SpecId, task: Option<TaskId>, runScan: seq<RunId>,
                                decisionScan: seq<DecisionId>, groupScan: seq<RunId>)
    requires Scans(runScan, db.runs.Keys) && Scans(decisionScan, db.decisions.Keys)
    requires Scans(groupScan, PriorGroups(db, s, task, runScan, decisionScan).Keys)
    ensures var reply := PriorPhaseRuns(db, s, task, runScan, decisionScan, groupScan);
            && (reply.Err? <==>
                  exists r :: r in db.runs && db.runs[r].specId == s && db.runs[r].taskId == task
                              && !(0 <= db.runs[r].phaseIteration <= 4_294_967_295))
            && (reply.Ok? ==> ListsRuns(db, s, task, reply.value))
  {
    hide Decode, Hits, PriorGroups, SpeaksOf;
    var groups := PriorGroups(db, s, task, runScan, decisionScan);
    var key := r => RunKey(db.runs, r);
    var ids := OrderBy(groupScan, key);
    GroupsAreRuns(db, s, task, runScan, decisionScan, groupScan);
    forall r | r in ids ensures Flatten(Collected(groups, r)) == Hits(db.decisions, r, decisionScan) {
      PriorGroupsHold(db, s, task, runScan, decisionScan, r);
    }
    DecodeDescribes(db, groups, ids, decisionScan);
    var reply := PriorPhaseRuns(db, s, task, runScan, decisionScan, groupScan);
    if reply.Ok? {
      forall r ensures Listed(reply.value, r) <==> Selected(db.runs, s, task, r) {
        if r in ids {
          var i :| 0 <= i < |ids| && ids[i] == r;
          assert reply.value[i].id == r;
        }
      }
      forall i, j | 0 <= i < j < |reply.value|
        ensures StartedInOrder(db.runs[reply.value[i].id], db.runs[reply.value[j].id])
      {
        assert Before(key(ids[i]), key(ids[j]));
      }
    }
  }

  ghost predicate Listed(summaries: seq<Summary>, r: RunId) {
    exists i :: 0 <= i < |summaries| && summaries[i].id == r
  }

  /** By start, and runs that started together by iteration. */
  predicate StartedInOrder(first: RunRow, second: RunRow) {
    || first.startedAt < second.startedAt
    || (first.startedAt == second.startedAt && first.phaseIteration <= second.phaseIteration)
  }

  ghost predicate ListsRuns(db: Db, s: SpecId, task: Option<TaskId>, summaries: seq<Summary>) {
    && (forall r :: Listed(summaries, r) <==> r in db.runs && db.runs[r].specId == s && db.runs[r].taskId == task)
    && (forall i, j :: 0 <= i < j < |summaries| ==> summaries[i].id != summaries[j].id)
    && (forall i :: 0 <= i < |summaries| ==> Describes(db, summaries[i], summaries[i].id))
    && (forall i, j :: 0 <= i < j < |summaries| ==>
          StartedInOrder(db.runs[summaries[i].id], db.runs[summaries[j].id]))
  }

  // ----- decisions::fetch_by_spec -----

  predicate OfSpec(decisions: map<DecisionId, DecisionRow>, s: SpecId, d: DecisionId) {
    d in decisions && decisions[d].specId == s
  }

  function CreatedKey(decisions: map<DecisionId, DecisionRow>, d: DecisionId): (int, int) {
    if d in decisions then (decisions[d].createdAt, 0) else (0, 0)
  }

  function FetchBySpec(decisions: map<DecisionId, DecisionRow>, s: SpecId, scan: seq<DecisionId>): seq<DecisionId> {
    OrderBy(Where(scan, d => OfSpec(decisions, s, d)), d => CreatedKey(decisions, d))
  }

  /** Every decision of the spec, authored ones included, once, in order of creation. */
  lemma FetchBySpecIsComplete(decisions: map<DecisionId, DecisionRow>, s: SpecId, scan: seq<DecisionId>)
    requires Scans(scan, decisions.Keys)
    ensures var found := FetchBySpec(decisions, s, scan);
            && Distinct(found)
            && (forall d :: d in found <==> d in decisions && decisions[d].specId == s)
            && (forall i, j :: 0 <= i < j < |found| ==> decisions[found[i]].createdAt <= decisions[found[j]].createdAt)
  {
    WhereMembers(scan, d => OfSpec(decisions, s, d));
    OrderBySorts(Where(scan, d => OfSpec(decisions, s, d)), d => CreatedKey(decisions, d));
  }

  // ----- compose_for_phase -----

  datatype Composed = Composed(decisions: seq<DecisionId>, priorRuns: seq<Summary>)

  function ComposeForPhase(db: Db, s: SpecId, task: Option<TaskId>, runScan: seq<RunId>,
                           decisionScan: seq<DecisionId>, groupScan: seq<RunId>): Result<Composed, Corrupt>
    requires Scans(runScan, db.runs.Keys)
    requires Scans(groupScan, PriorGroups(db, s, task, runScan, decisionScan).Keys)
  {
    var found := FetchBySpec(db.decisions, s, decisionScan);
    var prior := PriorPhaseRuns(db, s, task, runScan, decisionScan, groupScan);
    if prior.Ok? then Ok(Composed(found, prior.value)) else Err(prior.error)
  }

  /**
   The two halves of a composed context fit together: whatever a listed run claims to have decided is in the list of
   decisions (this needs runs and their decisions to name the same spec, which no foreign key says), no decision is
   claimed by two runs, and an authored decision is claimed by none yet listed all the same.
   */
  lemma ComposedContextFits(db: Db, s: SpecId, task: Option<TaskId>, runScan: seq<RunId>,
                            decisionScan: seq<DecisionId>, groupScan: seq<RunId>)
    requires Scans(runScan, db.runs.Keys) && Scans(decisionScan, db.decisions.Keys)
    requires Scans(groupScan, PriorGroups(db, s, task, runScan, decisionScan).Keys)
    requires Valid(db) && DecisionsWithTheirRuns(db.runs, db.decisions)
    requires ComposeForPhase(db, s, task, runScan, decisionScan, groupScan).Ok?
    ensures var composed := ComposeForPhase(db, s, task, runScan, decisionScan, groupScan).value;
            && (forall i, d :: 0 <= i < |composed.priorRuns| && d in composed.priorRuns[i].decisionsMade ==>
                  d in composed.decisions)
            && (forall i, j, d :: 0 <= i < j < |composed.priorRuns| && d in composed.priorRuns[i].decisionsMade ==>
                  d !in composed.priorRuns[j].decisionsMade)
            && (forall d :: d in db.decisions && db.decisions[d].specId == s && db.decisions[d].origin.Authored? ==>
                  d in composed.decisions
                  && forall i :: 0 <= i < |composed.priorRuns| ==> d !in composed.priorRuns[i].decisionsMade)
  {
    PriorRunsAreTheRunsOnce(db, s, task, runScan, decisionScan, groupScan);
    FetchBySpecIsComplete(db.decisions, s, decisionScan);
    var runs := ComposeForPhase(db, s, task, runScan, decisionScan, groupScan).value.priorRuns;
    forall i | 0 <= i < |runs| ensures Selected(db.runs, s, task, runs[i].id) {
      assert Listed(runs, runs[i].id);
    }
  }
}
