/**
 Spec validation of src/config/validate.rs: the checks, their order, and what an accepted spec is known to satisfy.
 */
module SpecValidation {
  import opened Outcomes
  import opened Digraph
  import opened CycleCheck
  import opened Text

  datatype RawVerification = RawVerification(name: Option<string>, intent: Option<string>, command: Option<string>)

  datatype RawTask = RawTask(
    taskRef: Option<string>, behavior: string, blockedBy: seq<string>, verifications: seq<RawVerification>)

  datatype RawContract = RawContract(
    scope: string, workspace: Option<string>, workspaceRationale: Option<string>, baseBranch: string,
    verifications: seq<RawVerification>)

  /** The removed top-level fields are kept only so that their presence can be rejected by name. */
  datatype RawSpec = RawSpec(
    title: string, pipeline: Option<string>, contract: RawContract, tasks: seq<RawTask>,
    mode: Option<string>, maxIterations: Option<string>, cleanState: Option<string>, initiative: Option<string>)

  datatype ConfigError =
    | ModesRemoved
    | MaxIterationsHardcoded
    | CleanStateStrict
    | InitiativeRemoved
    | MissingField(field: string)
    | UnknownPipeline(got: string)
    | WorkspaceXor
    | VerificationMutex(name: string)
    | DuplicateRef(taskRef: string)
    | DanglingDep(taskRef: string, missing: string)
    | DependencyCycle(taskRef: string)

  // ----- What the checks are for, stated on the spec itself -----

  /** Task `i` lists the ref of task `j` among its blockers. */
  ghost predicate BlockedBy(tasks: seq<RawTask>, i: int, j: int) {
    && 0 <= i < |tasks| && 0 <= j < |tasks|
    && tasks[j].taskRef.Some? && tasks[j].taskRef.value in tasks[i].blockedBy
  }

  /** The dependency graph over all tasks, those without a ref included. */
  ghost function TaskEdges(tasks: seq<RawTask>): Edges<int> {
    set i, j | 0 <= i < |tasks| && 0 <= j < |tasks| && BlockedBy(tasks, i, j) :: (i, j)
  }

  ghost predicate RefsDistinct(tasks: seq<RawTask>) {
    forall i, j :: 0 <= i < j < |tasks| && tasks[i].taskRef.Some? ==> tasks[i].taskRef != tasks[j].taskRef
  }

  function DeclaredRefs(tasks: seq<RawTask>): set<string> {
    set t | t in tasks && t.taskRef.Some? :: t.taskRef.value
  }

  ghost predicate DepsResolve(tasks: seq<RawTask>) {
    forall t, d :: t in tasks && d in t.blockedBy ==> d in DeclaredRefs(tasks)
  }

  predicate MutexHolds(v: RawVerification) {
    v.intent.Some? != v.command.Some?
  }

  function AllVerifications(raw: RawSpec): seq<RawVerification> {
    raw.contract.verifications + TaskVerifications(raw.tasks)
  }

  function TaskVerifications(tasks: seq<RawTask>): seq<RawVerification> {
    if tasks == [] then [] else tasks[0].verifications + TaskVerifications(tasks[1..])
  }

  ghost predicate RequiredFieldsPresent(raw: RawSpec) {
    && !Blank(raw.title) && !Blank(raw.contract.scope) && !Blank(raw.contract.baseBranch) && raw.tasks != []
    && (forall t :: t in raw.tasks ==> !Blank(t.behavior) && t.verifications != [])
  }

  /** The eight rules, in the order `validate` applies them. */
  ghost predicate RuleHolds(rule: int, raw: RawSpec) {
    match rule
    case 0 => raw.mode.None? && raw.maxIterations.None? && raw.cleanState.None? && raw.initiative.None?
    case 1 => RequiredFieldsPresent(raw)
    case 2 => raw.pipeline.None? || raw.pipeline == Some("standard")
    case 3 => raw.contract.workspace.Some? != raw.contract.workspaceRationale.Some?
    case 4 => forall v :: v in AllVerifications(raw) ==> MutexHolds(v)
    case 5 => RefsDistinct(raw.tasks)
    case 6 => DepsResolve(raw.tasks)
    case 7 => Acyclic(TaskEdges(raw.tasks))
    case _ => true
  }

  function RuleOf(e: ConfigError): int {
    match e
    case ModesRemoved | MaxIterationsHardcoded | CleanStateStrict | InitiativeRemoved => 0
    case MissingField(_) => 1
    case UnknownPipeline(_) => 2
    case WorkspaceXor => 3
    case VerificationMutex(_) => 4
    case DuplicateRef(_) => 5
    case DanglingDep(_, _) => 6
    case DependencyCycle(_) => 7
  }

  function Label(name: Option<string>): string {
    if name.Some? then name.value else "<unnamed>"
  }

  /** An offender without a name is reported as unnamed. */
  predicate Labels(name: Option<string>, shown: string) {
    name == Some(shown) || (name == None && shown == "<unnamed>")
  }

  predicate FieldsFine(task: RawTask) {
    !Blank(task.behavior) && task.verifications != []
  }

  /** The first task with a required field missing: its behavior, or else its verifications. */
  ghost predicate FirstUnfineTask(tasks: seq<RawTask>, k: int, field: string) {
    && 0 <= k < |tasks| && (forall j :: 0 <= j < k ==> FieldsFine(tasks[j]))
    && if Blank(tasks[k].behavior) then field == "task.behavior"
       else tasks[k].verifications == [] && field == "task.verifications"
  }

  ghost predicate FirstBrokenMutex(vs: seq<RawVerification>, k: int, name: string) {
    0 <= k < |vs| && !MutexHolds(vs[k]) && Labels(vs[k].name, name) && forall j :: 0 <= j < k ==> MutexHolds(vs[j])
  }

  /** The first task, in author order, whose ref an earlier one has. */
  ghost predicate FirstRepeat(tasks: seq<RawTask>, k: int, taskRef: string) {
    && 0 <= k < |tasks| && tasks[k].taskRef == Some(taskRef) && RefsDistinct(tasks[..k])
    && exists j :: 0 <= j < k && tasks[j].taskRef == Some(taskRef)
  }

  /** The first blocker, in author order, that names no task. */
  ghost predicate FirstDangling(tasks: seq<RawTask>, i: int, m: int, taskRef: string, missing: string) {
    && 0 <= i < |tasks| && 0 <= m < |tasks[i].blockedBy|
    && tasks[i].blockedBy[m] == missing && missing !in DeclaredRefs(tasks) && Labels(tasks[i].taskRef, taskRef)
    && (forall n :: 0 <= n < m ==> tasks[i].blockedBy[n] in DeclaredRefs(tasks))
    && (forall j, d :: 0 <= j < i && d in tasks[j].blockedBy ==> d in DeclaredRefs(tasks))
  }

  /** What the payload of an error tells the author about the spec: the first offender of its rule. */
  ghost predicate Explains(raw: RawSpec, e: ConfigError) {
    match e
    case ModesRemoved => raw.mode.Some?
    case MaxIterationsHardcoded => raw.mode.None? && raw.maxIterations.Some?
    case CleanStateStrict => raw.mode.None? && raw.maxIterations.None? && raw.cleanState.Some?
    case InitiativeRemoved =>
      raw.mode.None? && raw.maxIterations.None? && raw.cleanState.None? && raw.initiative.Some?
    case MissingField(field) =>
      if Blank(raw.title) then field == "title"
      else if Blank(raw.contract.scope) then field == "contract.scope"
      else if Blank(raw.contract.baseBranch) then field == "contract.base_branch"
      else if raw.tasks == [] then field == "tasks"
      else exists k :: FirstUnfineTask(raw.tasks, k, field)
    case UnknownPipeline(got) => raw.pipeline == Some(got) && got != "standard"
    case WorkspaceXor => raw.contract.workspace.Some? <==> raw.contract.workspaceRationale.Some?
    case VerificationMutex(name) => exists k :: FirstBrokenMutex(AllVerifications(raw), k, name)
    case DuplicateRef(taskRef) => exists k :: FirstRepeat(raw.tasks, k, taskRef)
    case DanglingDep(taskRef, missing) => exists i, m :: FirstDangling(raw.tasks, i, m, taskRef, missing)
    case DependencyCycle(taskRef) =>
      exists i :: 0 <= i < |raw.tasks| && raw.tasks[i].taskRef == Some(taskRef) && Reaches(TaskEdges(raw.tasks), i, i)
  }

  // ----- The checks -----

  function RejectRemovedFields(raw: RawSpec): Result<(), ConfigError> {
    if raw.mode.Some? then Err(ModesRemoved)
    else if raw.maxIterations.Some? then Err(MaxIterationsHardcoded)
    else if raw.cleanState.Some? then Err(CleanStateStrict)
    else if raw.initiative.Some? then Err(InitiativeRemoved)
    else Ok(())
  }

  function CheckTaskFields(tasks: seq<RawTask>): (r: Result<(), ConfigError>)
    ensures r.Ok? <==> forall t :: t in tasks ==> !Blank(t.behavior) && t.verifications != []
    ensures r.Err? ==> r.error.MissingField? && exists k :: FirstUnfineTask(tasks, k, r.error.field)
  {
    if tasks == [] then Ok(())
    else if Blank(tasks[0].behavior) then
      assert FirstUnfineTask(tasks, 0, "task.behavior");
      Err(MissingField("task.behavior"))
    else if tasks[0].verifications == [] then
      assert FirstUnfineTask(tasks, 0, "task.verifications");
      Err(MissingField("task.verifications"))
    else
      var rest := CheckTaskFields(tasks[1..]);
      assert forall t :: t in tasks <==> t == tasks[0] || t in tasks[1..];
      assert rest.Err? ==> exists k :: FirstUnfineTask(tasks, k, rest.error.field) by {
        if rest.Err? {
          var k :| FirstUnfineTask(tasks[1..], k, rest.error.field);
          assert forall j :: 0 < j <= k ==> tasks[j] == tasks[1..][j - 1];
          assert FirstUnfineTask(tasks, k + 1, rest.error.field);
        }
      }
      rest
  }

  function CheckRequiredFields(raw: RawSpec): (r: Result<(), ConfigError>) {
    if Blank(raw.title) then Err(MissingField("title"))
    else if Blank(raw.contract.scope) then Err(MissingField("contract.scope"))
    else if Blank(raw.contract.baseBranch) then Err(MissingField("contract.base_branch"))
    else if raw.tasks == [] then Err(MissingField("tasks"))
    else CheckTaskFields(raw.tasks)
  }

  function CheckPipeline(raw: RawSpec): Result<(), ConfigError> {
    if raw.pipeline.None? || raw.pipeline.value == "standard" then Ok(()) else Err(UnknownPipeline(raw.pipeline.value))
  }

  function CheckWorkspaceXor(raw: RawSpec): Result<(), ConfigError> {
    if raw.contract.workspace.Some? == raw.contract.workspaceRationale.Some? then Err(WorkspaceXor) else Ok(())
  }

  function CheckVerifications(vs: seq<RawVerification>): (r: Result<(), ConfigError>)
    ensures r.Ok? <==> forall v :: v in vs ==> MutexHolds(v)
    ensures r.Err? ==> r.error.VerificationMutex? && exists k :: FirstBrokenMutex(vs, k, r.error.name)
  {
    if vs == [] then Ok(())
    else if !MutexHolds(vs[0]) then
      assert FirstBrokenMutex(vs, 0, Label(vs[0].name));
      Err(VerificationMutex(Label(vs[0].name)))
    else
      var rest := CheckVerifications(vs[1..]);
      assert forall v :: v in vs <==> v == vs[0] || v in vs[1..];
      assert rest.Err? ==> exists k :: FirstBrokenMutex(vs, k, rest.error.name) by {
        if rest.Err? {
          var k :| FirstBrokenMutex(vs[1..], k, rest.error.name);
          assert forall j :: 0 < j <= k ==> vs[j] == vs[1..][j - 1];
          assert FirstBrokenMutex(vs, k + 1, rest.error.name);
        }
      }
      rest
  }

  method CheckRefUniqueness(tasks: seq<RawTask>) returns (r: Result<(), ConfigError>)
    ensures r.Ok? <==> RefsDistinct(tasks)
    ensures r.Err? ==> r.error.DuplicateRef? && exists k :: FirstRepeat(tasks, k, r.error.taskRef)
  {
    var seen: set<string> := {};
    for k := 0 to |tasks|
      invariant RefsDistinct(tasks[..k])
      invariant forall s :: s in seen <==> exists i :: 0 <= i < k && tasks[i].taskRef == Some(s)
    {
      if tasks[k].taskRef.Some? {
        var taskRef := tasks[k].taskRef.value;
        if taskRef in seen {
          assert FirstRepeat(tasks, k, taskRef);
          return Err(DuplicateRef(taskRef));
        }
        seen := seen + {taskRef};
      }
    }
    assert tasks[..|tasks|] == tasks;
    r := Ok(());
  }

  /** The hash map from ref to blockers; a later task with the same ref would replace an earlier one. */
  function RefGraphOf(tasks: seq<RawTask>): RefGraph {
    if tasks == [] then map[]
    else
      var last := tasks[|tasks| - 1];
      var rest := RefGraphOf(tasks[..|tasks| - 1]);
      if last.taskRef.Some? then rest[last.taskRef.value := last.blockedBy] else rest
  }

  lemma {:induction false} RefGraphEntries(tasks: seq<RawTask>)
    requires RefsDistinct(tasks)
    ensures RefGraphOf(tasks).Keys == DeclaredRefs(tasks)
    ensures forall i :: 0 <= i < |tasks| && tasks[i].taskRef.Some? ==>
              tasks[i].taskRef.value in RefGraphOf(tasks) && RefGraphOf(tasks)[tasks[i].taskRef.value] == tasks[i].blockedBy
  {
    if tasks != [] {
      var front := tasks[..|tasks| - 1];
      RefGraphEntries(front);
      assert tasks == front + [tasks[|tasks| - 1]];
      forall i | 0 <= i < |tasks| && tasks[i].taskRef.Some?
        ensures tasks[i].taskRef.value in RefGraphOf(tasks) &&
                RefGraphOf(tasks)[tasks[i].taskRef.value] == tasks[i].blockedBy
      {
        if i < |front| {
          assert front[i] == tasks[i];
        }
      }
      forall s ensures s in DeclaredRefs(tasks) <==> s in RefGraphOf(tasks) {
        if s in DeclaredRefs(tasks) {
          var t :| t in tasks && t.taskRef == Some(s);
          assert t in front ==> s in DeclaredRefs(front);
        }
        if s in DeclaredRefs(front) {
          var t :| t in front && t.taskRef == Some(s);
          assert t in tasks;
        }
      }
    }
  }

  ghost function RefOfIndex(tasks: seq<RawTask>): map<int, string> {
    map i | 0 <= i < |tasks| && tasks[i].taskRef.Some? :: tasks[i].taskRef.value
  }

  /** A cycle among the tasks runs through refs only, so the ref graph has it too. */
  lemma TaskCycleIsRefCycle(tasks: seq<RawTask>)
    requires RefsDistinct(tasks)
    ensures Relabels(TaskEdges(tasks), RefEdges(RefGraphOf(tasks)), RefOfIndex(tasks))
  {
    RefGraphEntries(tasks);
    var graph, names := RefGraphOf(tasks), RefOfIndex(tasks);
    forall e, into | e in TaskEdges(tasks) && into in TaskEdges(tasks) && into.1 == e.0
      ensures e.0 in names && e.1 in names && (names[e.0], names[e.1]) in RefEdges(graph)
    {
      assert BlockedBy(tasks, e.0, e.1) && BlockedBy(tasks, into.0, e.0);
    }
  }

  ghost function IndexOfRef(tasks: seq<RawTask>): map<string, int> {
    map s | s in DeclaredRefs(tasks) :: var i :| 0 <= i < |tasks| && tasks[i].taskRef == Some(s); i
  }

  lemma RefCycleIsTaskCycle(tasks: seq<RawTask>)
    requires RefsDistinct(tasks)
    ensures Relabels(RefEdges(RefGraphOf(tasks)), TaskEdges(tasks), IndexOfRef(tasks))
  {
    RefGraphEntries(tasks);
    var graph, index := RefGraphOf(tasks), IndexOfRef(tasks);
    forall e | e in RefEdges(graph)
      ensures e.0 in index && e.1 in index && (index[e.0], index[e.1]) in TaskEdges(tasks)
    {
      assert BlockedBy(tasks, index[e.0], index[e.1]);
    }
  }

  /** The two passes over `blocked_by`: every entry names a declared ref, then the graph has no cycle. */
  method CheckDependencyGraph(tasks: seq<RawTask>, keyOrder: seq<string>) returns (r: Result<(), ConfigError>)
    requires RefsDistinct(tasks)
    requires forall s :: s in keyOrder <==> s in DeclaredRefs(tasks)
    ensures r.Ok? <==> DepsResolve(tasks) && Acyclic(TaskEdges(tasks))
    ensures r.Err? ==> r.error.DanglingDep? || (r.error.DependencyCycle? && DepsResolve(tasks))
    ensures r.Err? && r.error.DanglingDep? ==>
              exists i, m :: FirstDangling(tasks, i, m, r.error.taskRef, r.error.missing)
    ensures r.Err? && r.error.DependencyCycle? ==>
              exists i :: 0 <= i < |tasks| && tasks[i].taskRef == Some(r.error.taskRef) && Reaches(TaskEdges(tasks), i, i)
  {
    var declared := DeclaredRefs(tasks);
    for k := 0 to |tasks|
      invariant forall i, d :: 0 <= i < k && d in tasks[i].blockedBy ==> d in declared
    {
      var task := tasks[k];
      for m := 0 to |task.blockedBy|
        invariant forall n :: 0 <= n < m ==> task.blockedBy[n] in declared
      {
        if task.blockedBy[m] !in declared {
          assert task in tasks && task.blockedBy[m] in task.blockedBy;
          assert FirstDangling(tasks, k, m, Label(task.taskRef), task.blockedBy[m]);
          return Err(DanglingDep(Label(task.taskRef), task.blockedBy[m]));
        }
      }
    }
    RefGraphEntries(tasks);
    TaskCycleIsRefCycle(tasks);
    RefCycleIsTaskCycle(tasks);
    var found, _ := DetectCycle(RefGraphOf(tasks), keyOrder);
    match found {
      case Ok(_) =>
        AcyclicUnderRelabelling(TaskEdges(tasks), RefEdges(RefGraphOf(tasks)), RefOfIndex(tasks));
        return Ok(());
      case Err(cycle) =>
        CycleUnderRelabelling(RefEdges(RefGraphOf(tasks)), TaskEdges(tasks), IndexOfRef(tasks), cycle.taskRef);
        return Err(DependencyCycle(cycle.taskRef));
    }
  }

  /**
   `validate`: accepted exactly when all eight rules hold; otherwise the error belongs to the first rule that does not,
   and its payload names a real offender.
   */
  method Validate(raw: RawSpec, keyOrder: seq<string>) returns (r: Result<(), ConfigError>)
    requires forall s :: s in keyOrder <==> s in DeclaredRefs(raw.tasks)
    ensures r.Ok? ==> forall rule :: RuleHolds(rule, raw)
    ensures r.Err? ==> !RuleHolds(RuleOf(r.error), raw) && (forall rule :: rule < RuleOf(r.error) ==> RuleHolds(rule, raw))
    ensures r.Err? ==> Explains(raw, r.error)
  {
    r := RejectRemovedFields(raw);
    if r.Err? { return; }
    r := CheckRequiredFields(raw);
    if r.Err? { return; }
    r := CheckPipeline(raw);
    if r.Err? { return; }
    r := CheckWorkspaceXor(raw);
    if r.Err? { return; }
    r := CheckVerifications(AllVerifications(raw));
    if r.Err? { return; }
    r := CheckRefUniqueness(raw.tasks);
    if r.Err? { return; }
    r := CheckDependencyGraph(raw.tasks, keyOrder);
  }

  // ----- The rules in full -----

  lemma {:induction false} TaskVerificationsOf(tasks: seq<RawTask>, v: RawVerification)
    ensures v in TaskVerifications(tasks) <==> exists t :: t in tasks && v in t.verifications
  {
    if tasks != [] {
      assert tasks == [tasks[0]] + tasks[1..];
      TaskVerificationsOf(tasks[1..], v);
    }
  }

  ghost predicate SomethingIn(s: string) {
    exists c :: c in s && !IsSpace(c)
  }

  ghost predicate ExactlyOne(a: Option<string>, b: Option<string>) {
    (a == None && b != None) || (a != None && b == None)
  }

  /** A walk along `blocked_by` that comes back to where it began. */
  ghost predicate WaitsForItself(tasks: seq<RawTask>, p: seq<int>) {
    && |p| >= 2 && p[0] == p[|p| - 1]
    && (forall k :: 0 <= k < |p| ==> 0 <= p[k] < |tasks|)
    && (forall k :: 0 < k < |p| ==> WaitsFor(tasks[p[k - 1]], tasks[p[k]]))
  }

  predicate WaitsFor(task: RawTask, blocker: RawTask) {
    exists d :: d in task.blockedBy && blocker.taskRef == Some(d)
  }

  lemma CycleIsAWalk(tasks: seq<RawTask>, p: seq<int>)
    requires |p| >= 2
    ensures PathBetween(TaskEdges(tasks), p, p[0], p[0]) <==> WaitsForItself(tasks, p)
  {
    forall i, j | 0 <= i < |tasks| && 0 <= j < |tasks|
      ensures WaitsFor(tasks[i], tasks[j]) <==> (i, j) in TaskEdges(tasks)
    {
      assert WaitsFor(tasks[i], tasks[j]) <==> BlockedBy(tasks, i, j);
    }
    if IsPath(TaskEdges(tasks), p) {
      forall k | 0 <= k < |p| ensures 0 <= p[k] < |tasks| {
        assert (p[if k == 0 then 0 else k - 1], p[if k == 0 then 1 else k]) in TaskEdges(tasks);
      }
    }
  }

  lemma AcyclicMeansNobodyWaitsForItself(tasks: seq<RawTask>)
    ensures Acyclic(TaskEdges(tasks)) <==> !exists p :: WaitsForItself(tasks, p)
  {
    if p :| WaitsForItself(tasks, p) {
      CycleIsAWalk(tasks, p);
      assert Reaches(TaskEdges(tasks), p[0], p[0]);
    } else {
      forall n: int ensures !Reaches(TaskEdges(tasks), n, n) {
        if Reaches(TaskEdges(tasks), n, n) {
          var p :| PathBetween(TaskEdges(tasks), p, n, n);
          CycleIsAWalk(tasks, p);
        }
      }
    }
  }

  /** What `validate` asks of a spec, without the functions it is computed with. */
  lemma RulesInFull(raw: RawSpec)
    ensures (forall rule :: RuleHolds(rule, raw)) <==>
              && raw.mode == None && raw.maxIterations == None && raw.cleanState == None && raw.initiative == None
              && SomethingIn(raw.title) && SomethingIn(raw.contract.scope) && SomethingIn(raw.contract.baseBranch)
              && raw.tasks != []
              && (forall t :: t in raw.tasks ==> SomethingIn(t.behavior) && t.verifications != [])
              && (raw.pipeline != None ==> raw.pipeline == Some("standard"))
              && ExactlyOne(raw.contract.workspace, raw.contract.workspaceRationale)
              && (forall v :: v in raw.contract.verifications ==> ExactlyOne(v.intent, v.command))
              && (forall t, v :: t in raw.tasks && v in t.verifications ==> ExactlyOne(v.intent, v.command))
              && (forall i, j :: 0 <= i < j < |raw.tasks| && raw.tasks[i].taskRef != None ==>
                    raw.tasks[j].taskRef != raw.tasks[i].taskRef)
              && (forall t, d :: t in raw.tasks && d in t.blockedBy ==> exists u :: u in raw.tasks && u.taskRef == Some(d))
              && !exists p :: WaitsForItself(raw.tasks, p)
  {
    AcyclicMeansNobodyWaitsForItself(raw.tasks);
    forall v ensures v in TaskVerifications(raw.tasks) <==> exists t :: t in raw.tasks && v in t.verifications {
      TaskVerificationsOf(raw.tasks, v);
    }
    assert DepsResolve(raw.tasks) <==>
             forall t, d :: t in raw.tasks && d in t.blockedBy ==> exists u :: u in raw.tasks && u.taskRef == Some(d) by {
      DepsInFull(raw.tasks);
    }
    RuleByRule(raw);
    hide DepsResolve, Acyclic, WaitsForItself, RuleHolds, TaskVerifications, IsSpace;
  }

  lemma DepsInFull(tasks: seq<RawTask>)
    ensures DepsResolve(tasks) <==>
              forall t, d :: t in tasks && d in t.blockedBy ==> exists u :: u in tasks && u.taskRef == Some(d)
  {
    forall d ensures d in DeclaredRefs(tasks) <==> exists u :: u in tasks && u.taskRef == Some(d) {
      if u :| u in tasks && u.taskRef == Some(d) {
        assert u.taskRef.value in DeclaredRefs(tasks);
      }
    }
    hide DeclaredRefs;
  }

  lemma RuleByRule(raw: RawSpec)
    ensures (forall rule :: RuleHolds(rule, raw)) <==>
              && raw.mode == None && raw.maxIterations == None && raw.cleanState == None && raw.initiative == None
              && RequiredFieldsPresent(raw)
              && (raw.pipeline != None ==> raw.pipeline == Some("standard"))
              && ExactlyOne(raw.contract.workspace, raw.contract.workspaceRationale)
              && (forall v :: v in AllVerifications(raw) ==> ExactlyOne(v.intent, v.command))
              && RefsDistinct(raw.tasks) && DepsResolve(raw.tasks) && Acyclic(TaskEdges(raw.tasks))
  {
    assert (forall rule :: RuleHolds(rule, raw)) <==>
             && RuleHolds(0, raw) && RuleHolds(1, raw) && RuleHolds(2, raw) && RuleHolds(3, raw)
             && RuleHolds(4, raw) && RuleHolds(5, raw) && RuleHolds(6, raw) && RuleHolds(7, raw) by {
      hide RequiredFieldsPresent, RefsDistinct, DepsResolve, Acyclic, MutexHolds, AllVerifications;
    }
    hide RequiredFieldsPresent, RefsDistinct, DepsResolve, Acyclic, AllVerifications;
  }
}
