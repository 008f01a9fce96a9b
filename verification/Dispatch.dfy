/**
 From an accepted spec to rows: `build_dispatch` of src/cli/dispatch.rs, which mints ids and resolves `blocked_by`, and
 the five-table transaction of src/repo/dispatch.rs.
 */
module Dispatch {
  import opened Outcomes
  import opened Digraph
  import opened SpecValidation
  import opened Schema
  import opened Repo

  /** The structural payload of one dispatch. */
  datatype DispatchRows = DispatchRows(
    specId: SpecId, title: string, contracts: map<TaskId, string>,
    tasks: seq<(TaskId, Option<string>)>, deps: seq<(TaskId, TaskId)>)

  /** `task` counts from one. */
  datatype UnknownDep = UnknownDep(task: nat, dep: string)

  // ----- Minting and resolving -----

  /** The ref-to-id map; as in the source, a later task would overwrite an earlier one with the same ref. */
  function RefToId(tasks: seq<RawTask>, minted: seq<TaskId>): map<string, TaskId>
    requires |minted| == |tasks|
  {
    if tasks == [] then map[]
    else
      var n := |tasks| - 1;
      var rest := RefToId(tasks[..n], minted[..n]);
      if tasks[n].taskRef.Some? then rest[tasks[n].taskRef.value := minted[n]] else rest
  }

  /** The edges of one task, blocker by blocker. */
  function EdgesFor(task: TaskId, blockers: seq<string>, ids: map<string, TaskId>): seq<(TaskId, TaskId)>
    requires forall d :: d in blockers ==> d in ids
  {
    seq(|blockers|, k requires 0 <= k < |blockers| => (task, ids[blockers[k]]))
  }

  ghost predicate Resolvable(tasks: seq<RawTask>, ids: map<string, TaskId>) {
    forall t, d :: t in tasks && d in t.blockedBy ==> d in ids
  }

  /** The edge list, task by task. */
  function AllEdges(tasks: seq<RawTask>, minted: seq<TaskId>, ids: map<string, TaskId>): seq<(TaskId, TaskId)>
    requires |minted| == |tasks| && Resolvable(tasks, ids)
  {
    if tasks == [] then []
    else
      var n := |tasks| - 1;
      assert tasks[n] in tasks && forall t :: t in tasks[..n] ==> t in tasks;
      AllEdges(tasks[..n], minted[..n], ids) + EdgesFor(minted[n], tasks[n].blockedBy, ids)
  }

  function Contracts(tasks: seq<RawTask>, minted: seq<TaskId>): map<TaskId, string>
    requires |minted| == |tasks|
  {
    if tasks == [] then map[]
    else
      var n := |tasks| - 1;
      Contracts(tasks[..n], minted[..n])[minted[n] := tasks[n].behavior]
  }

  /** The whole payload: every task with its id and ref, every contract under its task's id, every edge. */
  function PlanOf(title: string, tasks: seq<RawTask>, specId: SpecId, minted: seq<TaskId>): DispatchRows
    requires |minted| == |tasks| && Resolvable(tasks, RefToId(tasks, minted))
  {
    DispatchRows(specId, title, Contracts(tasks, minted),
                 seq(|tasks|, i requires 0 <= i < |tasks| => (minted[i], tasks[i].taskRef)),
                 AllEdges(tasks, minted, RefToId(tasks, minted)))
  }

  lemma {:induction false} RefToIdKeys(tasks: seq<RawTask>, minted: seq<TaskId>)
    requires |minted| == |tasks|
    ensures RefToId(tasks, minted).Keys == DeclaredRefs(tasks)
  {
    if tasks != [] {
      var n := |tasks| - 1;
      RefToIdKeys(tasks[..n], minted[..n]);
      assert tasks == tasks[..n] + [tasks[n]];
      forall s ensures s in DeclaredRefs(tasks) <==> s in RefToId(tasks, minted) {
        if s in DeclaredRefs(tasks) {
          var t :| t in tasks && t.taskRef == Some(s);
          assert t in tasks[..n] ==> s in DeclaredRefs(tasks[..n]);
        }
        if s in DeclaredRefs(tasks[..n]) {
          var t :| t in tasks[..n] && t.taskRef == Some(s);
          assert t in tasks;
        }
      }
    }
  }

  /** The inner loop: every blocker of one task, or the first that names nothing. */
  method ResolveBlockers(task: TaskId, blockers: seq<string>, ids: map<string, TaskId>)
    returns (r: Result<seq<(TaskId, TaskId)>, string>)
    ensures r.Ok? <==> forall d :: d in blockers ==> d in ids
    ensures r.Ok? ==> r.value == EdgesFor(task, blockers, ids)
    ensures r.Err? ==> exists k :: 0 <= k < |blockers| && blockers[k] == r.error && r.error !in ids
                                   && forall m :: 0 <= m < k ==> blockers[m] in ids
  {
    var edges: seq<(TaskId, TaskId)> := [];
    for k := 0 to |blockers|
      invariant forall m :: 0 <= m < k ==> blockers[m] in ids
      invariant edges == seq(k, m requires 0 <= m < k => (task, ids[blockers[m]]))
    {
      if blockers[k] !in ids {
        return Err(blockers[k]);
      }
      edges := edges + [(task, ids[blockers[k]])];
    }
    r := Ok(edges);
  }

  /** The first loop: remember the minted id of every task that has a ref. */
  method MapRefs(tasks: seq<RawTask>, minted: seq<TaskId>) returns (ids: map<string, TaskId>)
    requires |minted| == |tasks|
    ensures ids == RefToId(tasks, minted)
  {
    ids := map[];
    for i := 0 to |tasks|
      invariant ids == RefToId(tasks[..i], minted[..i])
    {
      assert tasks[..i + 1][..i] == tasks[..i] && minted[..i + 1][..i] == minted[..i];
      if tasks[i].taskRef.Some? {
        ids := ids[tasks[i].taskRef.value := minted[i]];
      }
    }
    assert tasks[..|tasks|] == tasks && minted[..|tasks|] == minted;
  }

  /**
   `build_dispatch`, given the ids the generator hands out. It succeeds exactly when every blocker names a declared ref;
   otherwise it names the first blocker, in author order, that does not.
   */
  method BuildDispatch(title: string, tasks: seq<RawTask>, specId: SpecId, minted: seq<TaskId>)
    returns (r: Result<DispatchRows, UnknownDep>)
    requires |minted| == |tasks|
    ensures r.Ok? <==> DepsResolve(tasks)
    ensures r.Ok? ==>
              Resolvable(tasks, RefToId(tasks, minted)) && r.value == PlanOf(title, tasks, specId, minted)
    ensures r.Err? ==>
              && 1 <= r.error.task <= |tasks|
              && r.error.dep in tasks[r.error.task - 1].blockedBy && r.error.dep !in DeclaredRefs(tasks)
              && DepsOf(tasks, r.error.task - 1) <= DeclaredRefs(tasks)
  {
    var ids := MapRefs(tasks, minted);
    RefToIdKeys(tasks, minted);
    hide RefToId;
    var contracts: map<TaskId, string> := map[];
    var rows: seq<(TaskId, Option<string>)> := [];
    var deps: seq<(TaskId, TaskId)> := [];
    for i := 0 to |tasks|
      invariant contracts == Contracts(tasks[..i], minted[..i])
      invariant rows == seq(i, k requires 0 <= k < i => (minted[k], tasks[k].taskRef))
      invariant DepsOf(tasks, i) <= DeclaredRefs(tasks)
      invariant Resolvable(tasks[..i], ids) && deps == AllEdges(tasks[..i], minted[..i], ids)
    {
      assert tasks[..i + 1][..i] == tasks[..i] && minted[..i + 1][..i] == minted[..i];
      contracts := contracts[minted[i] := tasks[i].behavior];
      rows := rows + [(minted[i], tasks[i].taskRef)];
      var resolved := ResolveBlockers(minted[i], tasks[i].blockedBy, ids);
      if resolved.Err? {
        assert tasks[i] in tasks;
        return Err(UnknownDep(i + 1, resolved.error));
      }
      deps := deps + resolved.value;
      assert forall t :: t in tasks[..i + 1] <==> t in tasks[..i] || t == tasks[i];
    }
    assert tasks[..|tasks|] == tasks && minted[..|tasks|] == minted;
    r := Ok(DispatchRows(specId, title, contracts, rows, deps));
  }

  /** The blockers named by the first `n` tasks. */
  ghost function DepsOf(tasks: seq<RawTask>, n: nat): set<string>
    requires n <= |tasks|
  {
    set i, d | 0 <= i < n && d in tasks[i].blockedBy :: d
  }

  // ----- The edges are the author's -----

  lemma {:induction false} RefToIdEntries(tasks: seq<RawTask>, minted: seq<TaskId>)
    requires |minted| == |tasks| && RefsDistinct(tasks)
    ensures forall j :: 0 <= j < |tasks| && tasks[j].taskRef.Some? ==>
              tasks[j].taskRef.value in RefToId(tasks, minted) && RefToId(tasks, minted)[tasks[j].taskRef.value] == minted[j]
  {
    if tasks != [] {
      var n := |tasks| - 1;
      RefToIdEntries(tasks[..n], minted[..n]);
      forall j | 0 <= j < |tasks| && tasks[j].taskRef.Some?
        ensures tasks[j].taskRef.value in RefToId(tasks, minted) &&
                RefToId(tasks, minted)[tasks[j].taskRef.value] == minted[j]
      {
        if j < n {
          assert tasks[..n][j] == tasks[j] && minted[..n][j] == minted[j];
        }
      }
    }
  }

  lemma {:induction false} EdgeListMembers(tasks: seq<RawTask>, minted: seq<TaskId>, ids: map<string, TaskId>)
    requires |minted| == |tasks| && Resolvable(tasks, ids)
    ensures forall e :: e in AllEdges(tasks, minted, ids) <==>
              exists i, d :: 0 <= i < |tasks| && d in tasks[i].blockedBy && e == (minted[i], ids[d])
  {
    if tasks != [] {
      var n := |tasks| - 1;
      var front, last := AllEdges(tasks[..n], minted[..n], ids), EdgesFor(minted[n], tasks[n].blockedBy, ids);
      EdgeListMembers(tasks[..n], minted[..n], ids);
      forall e ensures e in AllEdges(tasks, minted, ids) <==>
                 exists i, d :: 0 <= i < |tasks| && d in tasks[i].blockedBy && e == (minted[i], ids[d])
      {
        if e in front {
          var i, d :| 0 <= i < n && d in tasks[..n][i].blockedBy && e == (minted[..n][i], ids[d]);
          assert d in tasks[i].blockedBy && e == (minted[i], ids[d]);
        } else if e in last {
          var k :| 0 <= k < |last| && last[k] == e;
          assert tasks[n].blockedBy[k] in tasks[n].blockedBy && e == (minted[n], ids[tasks[n].blockedBy[k]]);
        }
        if i, d :| 0 <= i < |tasks| && d in tasks[i].blockedBy && e == (minted[i], ids[d]) {
          if i < n {
            assert tasks[..n][i] == tasks[i] && minted[..n][i] == minted[i];
            assert e in front;
          } else {
            var k :| 0 <= k < |tasks[n].blockedBy| && tasks[n].blockedBy[k] == d;
            assert last[k] == e;
          }
        }
      }
    }
  }

  ghost function EdgeSet(deps: seq<(TaskId, TaskId)>): Edges<TaskId> {
    set e | e in deps
  }

  /** For a validated spec the minted edges are exactly the images of the author's `blocked_by` pairs. */
  lemma EdgesAreTheAuthors(tasks: seq<RawTask>, minted: seq<TaskId>)
    requires |minted| == |tasks| && RefsDistinct(tasks) && DepsResolve(tasks)
    ensures Resolvable(tasks, RefToId(tasks, minted))
    ensures forall e :: e in AllEdges(tasks, minted, RefToId(tasks, minted)) <==>
              exists i, j :: BlockedBy(tasks, i, j) && e == (minted[i], minted[j])
  {
    var ids := RefToId(tasks, minted);
    RefToIdKeys(tasks, minted);
    RefToIdEntries(tasks, minted);
    EdgeListMembers(tasks, minted, ids);
    forall e ensures e in AllEdges(tasks, minted, ids) <==>
               exists i, j :: BlockedBy(tasks, i, j) && e == (minted[i], minted[j])
    {
      if e in AllEdges(tasks, minted, ids) {
        var i, d :| 0 <= i < |tasks| && d in tasks[i].blockedBy && e == (minted[i], ids[d]);
        assert d in DeclaredRefs(tasks) by { assert tasks[i] in tasks; }
        var t :| t in tasks && t.taskRef == Some(d);
        var j :| 0 <= j < |tasks| && tasks[j] == t;
        assert BlockedBy(tasks, i, j) && e == (minted[i], minted[j]);
      }
      if i, j :| BlockedBy(tasks, i, j) && e == (minted[i], minted[j]) {
        assert tasks[j].taskRef.value in tasks[i].blockedBy && ids[tasks[j].taskRef.value] == minted[j];
      }
    }
  }

  /** Distinct ids carry the acyclicity of the authored graph over to the minted edges. */
  lemma MintedEdgesAcyclic(tasks: seq<RawTask>, minted: seq<TaskId>)
    requires |minted| == |tasks| && RefsDistinct(tasks) && DepsResolve(tasks) && Acyclic(TaskEdges(tasks))
    requires Distinct(minted)
    ensures Resolvable(tasks, RefToId(tasks, minted))
    ensures Acyclic(EdgeSet(AllEdges(tasks, minted, RefToId(tasks, minted))))
  {
    EdgesAreTheAuthors(tasks, minted);
    var edges := EdgeSet(AllEdges(tasks, minted, RefToId(tasks, minted)));
    var index := map t | t in minted :: IndexOf(minted, t);
    forall e | e in edges ensures e.0 in index && e.1 in index && (index[e.0], index[e.1]) in TaskEdges(tasks) {
      var i, j :| BlockedBy(tasks, i, j) && e == (minted[i], minted[j]);
      assert minted[i] in minted && minted[j] in minted;
      assert index[e.0] == i && index[e.1] == j;
    }
    AcyclicUnderRelabelling(edges, TaskEdges(tasks), index);
  }

  ghost function IndexOf(minted: seq<TaskId>, t: TaskId): (i: int)
    requires t in minted
    ensures 0 <= i < |minted| && minted[i] == t
  {
    var i :| 0 <= i < |minted| && minted[i] == t;
    i
  }

  /** With distinct ids the contract map holds each task's own contract, and nothing else. */
  lemma {:induction false} ContractsByTask(tasks: seq<RawTask>, minted: seq<TaskId>)
    requires |minted| == |tasks|
    ensures forall t :: t in Contracts(tasks, minted) <==> t in minted
    ensures Distinct(minted) ==>
              forall i :: 0 <= i < |tasks| ==>
                minted[i] in Contracts(tasks, minted) && Contracts(tasks, minted)[minted[i]] == tasks[i].behavior
  {
    if tasks != [] {
      var n := |tasks| - 1;
      ContractsByTask(tasks[..n], minted[..n]);
      assert minted == minted[..n] + [minted[n]];
      forall i | 0 <= i < |tasks| && Distinct(minted)
        ensures minted[i] in Contracts(tasks, minted) && Contracts(tasks, minted)[minted[i]] == tasks[i].behavior
      {
        if i < n {
          assert minted[..n][i] == minted[i] && tasks[..n][i] == tasks[i] && minted[i] != minted[n];
        }
      }
    }
  }

  // ----- Repeated blockers -----

  /** No task lists the same blocker twice. Nothing in `validate` asks for this. */
  ghost predicate NoRepeatedBlocker(tasks: seq<RawTask>) {
    forall t :: t in tasks ==> Distinct(t.blockedBy)
  }

  ghost predicate IdsOfRefsDistinct(ids: map<string, TaskId>) {
    forall a, b :: a in ids && b in ids && a != b ==> ids[a] != ids[b]
  }

  lemma {:induction false} EdgeListDistinct(tasks: seq<RawTask>, minted: seq<TaskId>, ids: map<string, TaskId>)
    requires |minted| == |tasks| && Distinct(minted) && Resolvable(tasks, ids) && IdsOfRefsDistinct(ids)
    ensures Distinct(AllEdges(tasks, minted, ids)) <==> NoRepeatedBlocker(tasks)
  {
    if tasks != [] {
      var n := |tasks| - 1;
      var front, last := AllEdges(tasks[..n], minted[..n], ids), EdgesFor(minted[n], tasks[n].blockedBy, ids);
      EdgeListDistinct(tasks[..n], minted[..n], ids);
      EdgeListMembers(tasks[..n], minted[..n], ids);
      assert tasks == tasks[..n] + [tasks[n]];
      assert NoRepeatedBlocker(tasks) <==> NoRepeatedBlocker(tasks[..n]) && Distinct(tasks[n].blockedBy);
      EdgesForDistinct(minted[n], tasks[n].blockedBy, ids);
      forall e | e in front ensures e !in last {
        assert forall k :: 0 <= k < |last| ==> last[k].0 == minted[n];
      }
      DistinctConcat(front, last);
    }
  }

  lemma EdgesForDistinct(task: TaskId, blockers: seq<string>, ids: map<string, TaskId>)
    requires (forall d :: d in blockers ==> d in ids) && IdsOfRefsDistinct(ids)
    ensures Distinct(EdgesFor(task, blockers, ids)) <==> Distinct(blockers)
  {
    var edges := EdgesFor(task, blockers, ids);
    forall i, j | 0 <= i < j < |blockers| ensures edges[i] != edges[j] <==> blockers[i] != blockers[j] {
      assert blockers[i] in ids && blockers[j] in ids;
    }
  }

  lemma DistinctConcat<T>(a: seq<T>, b: seq<T>)
    requires forall x :: x in a ==> x !in b
    ensures Distinct(a + b) <==> Distinct(a) && Distinct(b)
  {
    var ab := a + b;
    forall i | 0 <= i < |a| ensures ab[i] == a[i] && ab[i] in a {}
    forall i | 0 <= i < |b| ensures ab[|a| + i] == b[i] {}
    if Distinct(ab) {
      forall i, j | 0 <= i < j < |b| ensures b[i] != b[j] {
        assert ab[|a| + i] != ab[|a| + j];
      }
    }
    if Distinct(a) && Distinct(b) {
      forall i, j | 0 <= i < j < |ab| ensures ab[i] != ab[j] {
        if i >= |a| {
          assert ab[i] == b[i - |a|] && ab[j] == b[j - |a|];
        } else if j >= |a| {
          assert ab[j] == b[j - |a|] && ab[j] in b;
        }
      }
    }
  }

  lemma DistinctRefsGetDistinctIds(tasks: seq<RawTask>, minted: seq<TaskId>)
    requires |minted| == |tasks| && RefsDistinct(tasks) && Distinct(minted)
    ensures IdsOfRefsDistinct(RefToId(tasks, minted))
  {
    RefToIdKeys(tasks, minted);
    RefToIdEntries(tasks, minted);
    var ids := RefToId(tasks, minted);
    forall a, b | a in ids && b in ids && a != b ensures ids[a] != ids[b] {
      var t :| t in tasks && t.taskRef == Some(a);
      var u :| u in tasks && u.taskRef == Some(b);
      var i :| 0 <= i < |tasks| && tasks[i] == t;
      var j :| 0 <= j < |tasks| && tasks[j] == u;
      assert ids[a] == minted[i] && ids[b] == minted[j];
    }
  }
}
