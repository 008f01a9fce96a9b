# A verified model of the spec orchestrator

The repository is a daemon that takes specs — a title, a pipeline and a graph of tasks — validates them, persists them in
seven SQLite tables, drives them through a guarded lifecycle, and cleans up after them. This project models that core in
Dafny and proves what its modules promise one another.

| file | models |
|---|---|
| `Digraph`, `CycleCheck`, `Text`, `SpecValidation` | `validate`: the ordered checks, unique refs, and the three-colour depth-first search with its explicit stack, on a mutable colour map and in any key order |
| `Dispatch`, `DispatchInsert` | from validated spec to minted ids, edge list and the five-table transaction |
| `Schema`, `Statements`, `Operations`, `Records`, `Repo` | the seven tables with foreign keys, CHECKs and unique keys; each repo operation as a function with its refusals; a `Store` object updated in place, one method per statement; what any sequence of operations keeps |
| `RepoColumns`, `BusColumns`, `LifecycleColumns`, `SweepColumns` | the same operations read column by column: when each is accepted and what every row then holds, without the functions that compute it |
| `Clean`, `Reclaim` | the full cascade and the retention prune, deleting row by row under an immediate RESTRICT; the order of guard, disk and rows, and the directory loop |
| `Bus`, `EmitSteps`, `DeadSpecs` | the transition guard and the event bus, an emit as a whole and statement by statement; what becomes of the tasks of a failed or canceled spec |
| `Lifecycle` | crash recovery, graceful drain, late steps of detached workers, unblock |
| `Handlers`, `HandlerRaces`, `HandlerExamples`, `ChannelOrder`, `CommandHandler`, `HandlerAlone` | the command handlers as processes interleaved at every statement; what that costs and exactly when; the order of the channel; the handlers as methods on the live store; and that a process nobody interrupts does what its method promises |
| `Sweep` | the two sweeper queries, the tick, and what regular ticks guarantee over a whole history |
| `Composition` | join, grouping, NULL filter and sort against what the caller wants to know |
| `VerifyLint`, `LintedText` | rules R1 and R9 of the verify lint, and what they say of the text of a command |
| `Histories` | everything above that writes the database, in any order |

Methods follow the code step by step and are proved against functions of the database (`Store.Contents()`); the lemmas
are about those functions. What each of them computes is also stated without it: on the columns of the rows, on the
fields of a spec, on the text of a command. Orders that the program leaves to the engine or to a hash map — key iteration, row visiting,
table scans — are parameters or arbitrary choices, so results hold for all of them. Clock readings, minted ids, preflight
results, unreadable directories and failing emits are parameters too. A concurrent writer appears as a list of statements
that land in between (`meanwhile`, `first`, `second`), as late steps, or as another process.

Run `dafny verify dfyconfig.toml` to check everything.

## Where the code does less than one might expect

Each of these is a theorem; where the code meets a property only sometimes, the exact condition is proved.

- **Guard and write are two statements.** The bus reads a row, checks the transition in memory and then writes
  unconditionally. Two dispatches that both read before either writes are both accepted and both queued
  (`DoubleDispatchQueuesTwoStarts`); a cancel between the read and the write of a start leaves a canceled spec running
  (`StartOverwritesCancel`); a failed preflight is followed by a queued start when another dispatch was accepted beside
  it (`FailedPreflightCanBeFollowedByStart`). What the handlers stand at tells beforehand: a terminal spec is terminal for
  good (`TerminalForGoodIff`), and a started one is not started again (`NoSecondStartIff`), exactly if no handler stands
  between the read and the write of its start; after a failed preflight no start is queued exactly if no other handler is
  on its way to sending one (`NoStartAfterFailedPreflightIff`). Step by step, a terminal status is left exactly by such a
  late write (`TerminalLeftExactlyByLateWrite`), and the guard of a start still holds at its write exactly if nobody wrote
  the row since its read (`StartLandsOnGuardIff`). The start that a refused dispatch had accepted itself is never queued
  (`RefusedStartIsNeverSent`), and without late writes the promises hold (`TerminalStays`, `OneStartPerSpec`,
  `FailedPreflightQueuesNoStart`).
- **A task written late.** The same gap lets an unblock land on a canceled task and leave an active row with a completion
  time (`LateUnblockSpoilsTask`). A row is spoilt exactly when it was terminal and the target is not
  (`LateWriteSpoilsTaskRow`; for specs `LateStartSpoilsStamps`). What an unblock after a restart relies on survives every
  statement (`StatementKeepsActiveRows`).
- **A repeated blocker.** `blocked_by = ["a", "a"]` passes every rule of `validate`
  (`RepeatedBlockerPassesValidation`), but its edge key collides in `insert_dispatch`, which then refuses the whole spec.
  A validated plan with fresh ids goes in if and only if no task repeats a blocker (`ValidatedPlanInserts`). `add_dep`
  accepts the same collision (`AddDepsIsIdempotent`).
- **`add_dep` checks no cycle**, and plan revisions call it with edges nobody has validated (`AddDepCanCloseCycle`). The
  graph stays acyclic if and only if no added edge leads back to its start (`DoesKeepsAcyclic`,
  `ReachableGraphsAreAcyclic`).
- **Supersede chains and the full cascade.** Step 1 of the cascade deletes decisions without cutting their supersede
  edges first, unlike the prune. RESTRICT fires per row, so a spec with a supersede chain is cleaned in one row order and
  refused in another (`SupersedeChainStopsCascade`); it is cleaned in every order if and only if none of its decisions is
  superseded by another and no other spec points in (`CascadesInEveryOrder`).
- **A crash inside an emit.** Recovery can be restarted between its emits (`RecoveryIsRestartable`), not inside one: the
  bus commits the failed status before it sweeps the active tasks, and a spec that is no longer running is never visited
  again (`CrashInsideSweepStrandsATask`; `CrashInsideSweep`, an if and only if).
- **A late spec-level start.** The comments call the recovery predicate robust to late starts. It is for runs of blocked
  tasks; a spec-level run that opens after the drain costs the spec its life (`LateSpecLevelStartLosesASpec`;
  `LateStartCanLoseASurvivor`, an if and only if). So does an `unblock` still under way (`LateUnblockLosesItsSpec`).
- **The guard of `clean_spec`.** A comment in src/cli/clean.rs says the check is repeated in the transaction; the code
  reads the status before opening it. What is deleted is still terminal unless a late write reopens it (`CleanSpec`,
  `LateStartIsCleanedAway`).
- **The disk of a live spec.** `clean_spec_with_reclaim` checks the status first so that the disk of a live spec is never
  touched, but nothing holds the status until the disk step runs. A start that lands in between costs the running spec its
  clean directories, and only then are its rows refused (`LateStartCostsLiveDirectory`). Past the first check the disk
  step meets a live spec exactly if the last statement about it has left it live (`CleanSpecWithReclaim`).
- **`update_end`** is the one closer without an `IS NULL` guard. A closed row changes if and only if it is aimed at it
  and says something new (`ClosedRunChangesOnlyByUpdateEnd`, `LateReportRewritesReapedRun`).
- **Unblock under a dying spec.** `unblock` checks the spec and then emits; a `fail` in between leaves an active task
  under a failed spec (`UnblockCanReviveUnderDeadSpec`). An emit by itself keeps dead specs quiet except for starts and
  unblocks of their tasks (`EmitKeepsDeadQuiet`, an if and only if; `StatementKeepsDeadQuietIff` for each statement).
- **Order on the channel.** A cancel accepted during a preflight is queued before the start (`StartCanBeOvertaken`). A
  send keeps its place in every continuation if and only if no other handler that is then sending or at its preflight
  holds an earlier acceptance (`SendIsSafeIff`), and a run of such sends is heard of in order (`SafeSendsAreInOrder`).

## Model

| member | source | states |
|---|---|---|
| CycleCheck.DetectCycle | src/config/validate.rs:198-244 | For every graph and every order in which its keys are iterated: `Ok` exactly when the graph has no cycle, an `Err` names a ref that lies on a real cycle, and on `Ok` the first-finish order is a topological order of all keys |
| CycleCheck.ExploreFrom | src/config/validate.rs:210-242 | The search from one unvisited key ends, leaves an empty stack and that key visited, and unvisits nothing |
| CycleCheck.Visit | src/config/validate.rs:216-241 | One pop keeps the search invariant and strictly decreases (unvisited keys, enter frames, stack length), although finished nodes are entered and greyed again |
| CycleCheck.PushChildren | src/config/validate.rs:226-240 | A grey successor is reported only if it lies on a cycle; otherwise the invariant is back; a node entered a second time pushes no child |
| CycleCheck.EnterKeepsInvariant | src/config/validate.rs:221-227 | An enter frame never pops on a grey node, so the skip at 221-224 is never taken on any run |
| CycleCheck.LeaveKeepsInvariant | src/config/validate.rs:217-220 | When a node turns black all its successors have finished before it |
| CycleCheck.EnterDecreases | src/config/validate.rs:225-227 | Entering either shrinks the set of unvisited keys or, on a node entered again, the number of enter frames |
| CycleCheck.GreyChildClosesCycle | src/config/validate.rs:229-234 | A grey successor still has its leave frame on the stack, hence reaches the node that found it |
| CycleCheck.AllExplored | src/config/validate.rs:210-243 | With every key visited and the stack empty, the finished list is all keys and the graph is acyclic |
| Digraph.TopologicalOrderMeansAcyclic | src/config/validate.rs:195-197 | A topological order of all nodes rules out every cycle |
| SpecValidation.CheckRefUniqueness | src/config/validate.rs:144-156 | Accepts exactly the specs in which no two tasks share a ref; the error names the first that repeats, in author order |
| SpecValidation.CheckDependencyGraph | src/config/validate.rs:160-193 | Accepts exactly when every `blocked_by` names a declared ref and the graph over all tasks, unnamed ones included, is acyclic; a dangling reference is the first in author order, a reported ref lies on a cycle, and a cycle is reported only after every reference resolved |
| SpecValidation.TaskCycleIsRefCycle | src/config/validate.rs:183-190 | Unnamed tasks cannot be on a cycle: every cycle among tasks maps to a cycle of the ref-keyed graph |
| SpecValidation.RefCycleIsTaskCycle | src/config/validate.rs:183-192 | And back: with unique refs a cycle of the ref graph is a cycle among tasks |
| SpecValidation.Validate | src/config/validate.rs:28-38 | Accepts exactly when all eight rules hold; otherwise the error belongs to the first rule that fails and names the first offender of that rule in author order (for a cycle, one of its refs) |
| SpecValidation.RulesInFull | src/config/validate.rs:42-196 | The eight rules written out on the fields of the spec: what is absent, what has something but white space in it, exactly one of two, distinct refs, declared blockers, and no walk along `blocked_by` that comes back to its start |
| SpecValidation.AcyclicMeansNobodyWaitsForItself | src/config/validate.rs:195-244 | The graph is acyclic exactly if no task waits for itself through any chain of blockers |
| Dispatch.MapRefs | src/cli/dispatch.rs:316-325 | The ref map holds the minted id of every task that has a ref |
| Dispatch.ResolveBlockers | src/cli/dispatch.rs:345-357 | All edges of a task in author order, or the first blocker that resolves to nothing |
| Dispatch.BuildDispatch | src/cli/dispatch.rs:308-389 | Succeeds exactly when every blocker names a declared ref, and then yields the full plan; otherwise names the first offender in author order |
| Dispatch.EdgesAreTheAuthors | src/cli/dispatch.rs:344-357 | For a validated spec the minted edges are exactly the images of the `blocked_by` pairs |
| Dispatch.MintedEdgesAcyclic | src/cli/dispatch.rs:313-358 | With distinct ids the minted edges are acyclic whenever the authored graph is |
| Dispatch.ContractsByTask | src/cli/dispatch.rs:327-339 | The contract map holds each task its own contract and nothing else |
| Dispatch.EdgeListDistinct | src/cli/dispatch.rs:345-357 | With distinct ids the edge list repeats nothing exactly when no task lists a blocker twice |
| Dispatch.DistinctRefsGetDistinctIds | src/cli/dispatch.rs:317-323 | With unique refs and distinct ids no two refs share an id |
| DispatchInsert.InsertDispatch | src/repo/dispatch.rs:91-198 | Succeeds exactly when the spec id is fresh, the task ids are fresh and distinct, all endpoints exist and no edge repeats; then adds exactly the described rows to five tables, otherwise changes nothing |
| DispatchInsert.InsertTaskRows | src/repo/dispatch.rs:155-175 | The task loop goes through exactly when the ids are new and distinct, and adds exactly their rows |
| DispatchInsert.InsertDepRows | src/repo/dispatch.rs:177-194 | The edge loop goes through exactly when no edge repeats and every endpoint exists, and adds exactly those edges |
| DispatchInsert.ValidatedPlanInserts | src/repo/dispatch.rs:177-194 | The plan of a validated spec with fresh ids goes in if and only if no task repeats a blocker |
| DispatchInsert.RepeatedBlockerPassesValidation | src/config/validate.rs:28-38 | A concrete whole spec with a repeated blocker that every rule of `validate` lets pass |
| DispatchInsert.AddDepsIsIdempotent | src/repo/task_deps.rs:26-52 | Adding a list of edges through `add_dep` accepts repeats and ends with exactly their set: the collision `insert_dispatch` refuses |
| DispatchInsert.DispatchKeepsValid | src/repo/dispatch.rs:66-70 | A dispatch keeps every constraint of the schema |
| DispatchInsert.DispatchKeepsCoherent | src/repo/dispatch.rs:58-63 | The plan of a validated spec keeps related rows under one spec |
| DispatchInsert.DispatchKeepsGraphAcyclic | src/cli/dispatch.rs:327-358 | The persisted dependency graph stays acyclic when the plan of a validated spec joins it |
| DispatchInsert.DispatchSpec | src/cli/dispatch.rs:194-245 | From parsed spec to committed rows: succeeds exactly when all rules hold, none of the other gates (workspace path, delivery, lint, branch policy) objects and no blocker repeats; all or nothing, and the `UnknownDep` error is never seen |
| DispatchInsert.DispatchedColumns | src/repo/dispatch.rs:91-198 | Column by column: a queued spec at version 1 that nothing explains, stamps or counts; version 1 with the title and each contract; a row per task, not started, with its ref; the edges of the author; every other row as it was |
| DispatchInsert.DispatchedSpecStarts | src/repo/dispatch.rs:136-175 | What was dispatched can be run: `SpecStarted` is accepted on it, and then `TaskStarted` for each of its tasks |
| Operations.StepKeepsInvariants | migrations/0001_initial.sql:20-150 | Every repo operation keeps all foreign keys, CHECKs and unique keys, and keeps related rows under one spec unless it mixes specs itself |
| Operations.ReachableIsValid | migrations/0001_initial.sql:20-150 | Every database that any sequence of repo operations reaches satisfies every constraint |
| Operations.StartStepKeeps | src/repo/phase_runs.rs:89-140 | Opening a run, accepted or not, keeps every constraint, the composite key of task-scoped runs included |
| Operations.SpecRowStepKeeps | src/repo/spec_runtime.rs:90-301 | Every write to a spec row, accepted or refused, keeps the status/reason mutex and the version pointer |
| Operations.DecisionStepKeeps | src/repo/decisions.rs:35-69 | Recording a decision, accepted or not, keeps the origin/run mutex, referential integrity and one superseder per decision |
| Operations.ClosedRunStaysClosed | src/repo/phase_runs.rs:222-543 | No operation clears `completed_at`, and none but `update_end` aimed at the run changes a closed row |
| Operations.ClosedRunChangesOnlyByUpdateEnd | src/repo/phase_runs.rs:222-272 | A closed row changes if and only if `update_end` is aimed at it, takes the token counts and writes something new |
| Operations.LateReportRewritesReapedRun | src/repo/phase_runs.rs:222-272 | A concrete reaped run whose verdict and completion time a late report overwrites |
| Operations.ClosedRunStaysClosedOverRuns | src/repo/phase_runs.rs:222-543 | The same over any sequence of operations |
| Records.RunExtends | src/repo/decisions.rs:8-9 | Over any sequence of operations specs, snapshots and decisions are append-only, rows keep their identity, and a first-time stamp is never moved |
| Records.CountersCount | src/repo/task_runtime.rs:232-299 | Each iteration counter equals its own increments since the last reset, read off the operations alone |
| Repo.Store.InsertSpec | src/repo/specs.rs:24-48 | Adds the identity row, or reports a duplicate and changes nothing |
| Repo.Store.AppendVersion | src/repo/spec_versions.rs:51-88 | Adds the snapshot, or reports the taken version or missing spec and changes nothing |
| Repo.Store.InitializeSpec | src/repo/spec_runtime.rs:90-125 | Adds a queued row pointing at an existing version, or reports why not |
| Repo.Store.UpdateStatus | src/repo/spec_runtime.rs:131-183 | Writes status and reasons, stamps start and completion once; a status without its reason is refused |
| Repo.Store.UpdateCurrentVersion | src/repo/spec_runtime.rs:192-213 | Moves the pointer to an existing version only |
| Repo.Store.IncrementSpecIteration | src/repo/spec_runtime.rs:276-301 | Bumps exactly one counter of the spec |
| Repo.Store.InsertTask | src/repo/task_runtime.rs:91-118 | Adds a not-started row, or reports the taken id or missing spec |
| Repo.Store.UpdateState | src/repo/task_runtime.rs:166-223 | Writes state and reasons, stamps once; a failure reason is refused before anything is written |
| Repo.Store.IncrementIteration | src/repo/task_runtime.rs:232-279 | Bumps exactly one counter and returns its new value |
| Repo.Store.ResetIterations | src/repo/task_runtime.rs:284-299 | Zeroes the four counters of one task and nothing else |
| Repo.Store.AddDep | src/repo/task_deps.rs:29-52 | Adds an edge, accepts one that is there, refuses a missing endpoint |
| Repo.Store.RemoveDep | src/repo/task_deps.rs:55-70 | Removes the edge if it is there and touches nothing else |
| Repo.Store.InsertStart | src/repo/phase_runs.rs:89-140 | Opens a run, or reports the taken id or key or the missing reference |
| Repo.Store.UpdateEnd | src/repo/phase_runs.rs:222-272 | Completes the addressed row, open or not; refuses token counts beyond 64 bits |
| Repo.Store.RecordHeartbeat | src/repo/phase_runs.rs:280-294 | Stamps an open row and ignores a closed or missing one |
| Repo.Store.CloseRuns | src/repo/phase_runs.rs:371-543 | Closes exactly the open rows in scope and counts the rows that changed |
| Repo.Store.InsertDecision | src/repo/decisions.rs:35-69 | Adds the decision, or reports the violated CHECK, key or reference, and changes nothing |
| RepoColumns.SpecInserted | src/repo/specs.rs:24-48 | Accepted for a new id, and then created now |
| RepoColumns.VersionAppended | src/repo/spec_versions.rs:51-88 | Accepted for a new version of a known spec, and then that snapshot |
| RepoColumns.SpecInitialized | src/repo/spec_runtime.rs:90-125 | A spec starts out queued at the given version, with no reason, no stamp and no count |
| RepoColumns.StatusUpdated | src/repo/spec_runtime.rs:131-183 | Accepted exactly with the reason the status asks for; each status and stamp column spelled out, nothing else written |
| RepoColumns.CurrentVersionUpdated | src/repo/spec_runtime.rs:192-213 | Only the version pointer moves, and only to a version that is there |
| RepoColumns.SpecIterationIncremented | src/repo/spec_runtime.rs:276-301 | One is added to the named counter of the spec, and to no other |
| RepoColumns.TaskInserted | src/repo/task_runtime.rs:91-118 | A task starts out not started, with its ref and nothing else |
| RepoColumns.StateUpdated | src/repo/task_runtime.rs:166-223 | State, both reasons and both stamps spelled out; a failure reason is refused first |
| RepoColumns.IterationIncremented | src/repo/task_runtime.rs:232-279 | One is added to the named counter of the task, and to no other |
| RepoColumns.IterationsReset | src/repo/task_runtime.rs:284-299 | All four counters are zero, every other column as it was |
| RepoColumns.DepAdded | src/repo/task_deps.rs:29-52 | An edge is there afterwards exactly if it was or is this one |
| RepoColumns.DepRemoved | src/repo/task_deps.rs:55-70 | An edge is there afterwards exactly if it was and is not this one |
| RepoColumns.RunStarted | src/repo/phase_runs.rs:89-140 | Every column of a run that has just started; refused for a taken id, a taken key or a missing reference |
| RepoColumns.RunEnded | src/repo/phase_runs.rs:222-272 | Verdict, synopsis, files, tokens and completion time of the addressed run, and no other column |
| RepoColumns.HeartbeatRecorded | src/repo/phase_runs.rs:280-294 | Only the heartbeat of an open run moves |
| RepoColumns.RunsClosed | src/repo/phase_runs.rs:371-543 | Exactly the open rows that the WHERE clause addresses are completed now, with the verdict and its synopsis if there is one |
| RepoColumns.DecisionInserted | src/repo/decisions.rs:35-69 | Accepted exactly if origin and run fit, id and superseded decision are free and all references are there; then the row as given |
| Clean.DeleteDecisions | src/repo/clean.rs:131-135 | Deleting row by row under an immediate RESTRICT goes through exactly when no row is superseded by one that is still there when its turn comes |
| Clean.PruneRuns | src/repo/clean.rs:234-290 | For every deletion order and every supersede chain the prune goes through and leaves exactly the pruned database, with true counts |
| Clean.PruneSpares | src/repo/clean.rs:261-282 | Exactly the completed runs of the spec older than the cutoff go, with exactly the decisions attached to them; open runs and all other rows stay |
| Clean.PruneCountsWhatIsGone | src/repo/clean.rs:261-290 | Both counts of the prune are the differences in size of their tables |
| Clean.PruneCutsOnlyDanglingEdges | src/repo/clean.rs:244-259 | A surviving decision keeps its whole row, and its supersede edge unless the edge would dangle |
| Clean.PruneKeepsValid | src/repo/clean.rs:190-212 | The prune keeps every constraint of the schema |
| Clean.PruneIsIdempotent | src/repo/clean.rs:234-290 | Pruning twice at one cutoff is pruning once |
| Clean.PruneInStages | src/repo/clean.rs:240-241 | A longer threshold prunes a subset, and pruning by the longer first makes no difference to the shorter |
| Clean.CleanSpecForced | src/repo/clean.rs:108-188 | Succeeds exactly when nothing blocks the cascade; then removes exactly the rows of the spec from seven tables and every edge touching its tasks, with true counts; otherwise changes nothing |
| Clean.CleanedTableByTable | src/repo/clean.rs:124-188 | In each of the seven tables a row goes exactly if it carries the spec, an edge exactly if one of its ends is a task that does; the rows that stay are equal |
| Clean.ReportCountsWhatIsGone | src/repo/clean.rs:124-188 | Each count of the report is the difference in size of its own table |
| Clean.CascadeSteps | src/repo/clean.rs:137-158 | What can block the second and fourth statement is exactly a decision or run of another spec pointing in |
| Clean.CascadesInEveryOrder | src/repo/clean.rs:124-188 | The cascade goes through in every row order if and only if no other spec points in and no decision of the spec is superseded by another decision |
| Clean.SupersedeChainStopsCascade | src/repo/clean.rs:131-135 | A valid database whose cascade fails in one row order and succeeds in the other |
| Clean.CoherentHasNoForeignReferences | src/repo/clean.rs:137-158 | If rows keep to their spec, only its own supersede edges can stand in the way |
| Clean.CleanedIsValid | src/repo/clean.rs:99-107 | A cascade that goes through keeps every constraint of the schema |
| Clean.CleanSpec | src/repo/clean.rs:68-84 | The guard reads the status before the transaction opens; whatever lands in between, the rows go under the target of the last statement about the spec, which is still the terminal status read unless a statement lands where its guard no longer holds; a non-terminal or unknown spec is refused unchanged |
| Clean.LateStartIsCleanedAway | src/repo/clean.rs:68-84 | A start that lands between the check and the transaction: a running spec is cleaned away |
| Reclaim.Worktrees.Reclaim | src/runtime/reclaim.rs:88-141 | The directory loop removes exactly the removable clean worktrees it meets, reports dirty, undeterminable and unremovable ones, and fails exactly on an unreadable entry, with the earlier removals done; other specs are untouched |
| Reclaim.OnlyCleanGo | src/runtime/reclaim.rs:126-139 | No dirty or undeterminable worktree is ever among the removed |
| Reclaim.DirsLeftInFull | src/cli/clean.rs:117-139 | A directory goes exactly if the current version is there, its contract can be read, and the directory is a removable clean worktree met before anything unreadable |
| Reclaim.DeleteRows | src/cli/clean.rs:140-147 | The last step: all rows go or none; without force a second check refuses exactly a spec that is not terminal then, and what a refusal leaves is exact |
| Reclaim.CleanSpecWithReclaim | src/cli/clean.rs:95-153 | A spec that does not pass the first check loses neither directories nor rows. Past it the disk step runs whatever has landed since: the status is the target of the last statement, the clean directories that were readable go if the workspace is known, a reclaim fault happens exactly on an unreadable entry and deletes no row, and the second check refuses exactly a spec reopened since the first, rows kept |
| Reclaim.LateStartCostsLiveDirectory | src/cli/clean.rs:101-147 | From every terminal spec with one clean worktree: a start that lands after the first check makes it run, its directory is removed all the same, and then its rows are refused |
| Bus.EmitEvent | src/service/bus.rs:177-315 | An emit with no statement of others in between has its whole effect or none |
| BusColumns.AcceptedExactlyFrom | src/service/transitions.rs:60-135 | Each of the nine lifecycle events is accepted exactly from the states listed for it; a missing row and an illegal move are told apart |
| BusColumns.TaskEventWrites | src/service/bus.rs:317-340 | The new state, the reason the event carries and both stamps, written out per event; every other row as it was |
| BusColumns.SpecEventWrites | src/service/bus.rs:342-420 | The new status, reason and stamps, written out per event; a failed or canceled spec takes exactly its active tasks along, canceled on its behalf |
| BusColumns.PhaseStartWrites | src/service/bus.rs:237-265 | A phase starts under the version its spec points at, with every column spelled out |
| BusColumns.PhaseEndWrites | src/service/bus.rs:266-300 | A phase completes with its verdict; only a passing one has touched files |
| BusColumns.DecisionWrites | src/service/bus.rs:301-303 | A decision is recorded as it was made |
| Bus.TransitionTaskRow | src/service/bus.rs:317-340 | With no statement of others in between, a task moves only along a legal edge |
| Bus.TransitionSpecRow | src/service/bus.rs:342-376 | With no statement of others in between, a spec moves only along a legal edge, and failing or canceling it sweeps its active tasks |
| Bus.CancelStrandedActiveTasks | src/service/bus.rs:378-420 | With no statement of others in between, exactly the active tasks of the spec are canceled, in any row order |
| Bus.EmitKeepsReasons | src/service/bus.rs:317-340 | An emit by itself keeps the reason and stamp columns of every task in agreement with its state |
| Bus.GuardedStatementKeepsStamps | src/service/bus.rs:317-376 | Reasons and stamps of tasks and specs agree with their states as long as every statement lands where its guard still holds |
| Bus.LateStartSpoilsStamps | src/service/bus.rs:343-355 | A late write leaves a spec row at odds with itself if and only if it is a start that lands on a terminal row |
| Bus.LateWriteSpoilsTaskRow | src/service/bus.rs:317-340 | A write of a task, late or not (one that blocks or passes it finds it started), leaves the row at odds with itself if and only if the row was terminal and the target is not |
| Bus.LateUnblockSpoilsTask | src/service/bus.rs:317-340 | From every blocked task: an unblock guarded before a cancel and written after it leaves an active row with a completion time |
| Bus.StatementKeepsActiveRows | src/service/bus.rs:317-376 | What every statement keeps wherever it lands: an active task has a start time and no reasons |
| Bus.EmitKeepsSpecStamps | src/service/bus.rs:342-376 | An emit by itself keeps a completion time exactly on terminal specs, and a start time on those that have run |
| Bus.EmitKeepsSpecProgress | src/service/transitions.rs:112-136 | An emit by itself moves no spec back to queued, removes none and takes none out of a terminal status |
| Bus.SendStatement | src/service/bus.rs:317-376 | The write of an emit sets its target on whatever row it finds: no statement repeats the guard |
| Bus.WrittenAllStatus | src/service/bus.rs:343-355 | After any sequence of statements a status is the target of the last one about the spec |
| Bus.TerminalIsForever | src/cli/daemon.rs:575-580 | A terminal status survives every sequence of statements in which none about the spec lands where its guard no longer holds |
| EmitSteps.AloneIsEmit | src/service/bus.rs:159-420 | Read, guard, write, list and sweep, run with no other statement in between, do exactly what the emit as a whole is specified to do |
| EmitSteps.StageStatus | src/service/bus.rs:343-355 | Statement by statement, a status moves only at the write of an emit that was guarded earlier |
| Bus.TerminalSpecHasNoActiveTask | src/service/bus.rs:342-420 | The emit that fails or cancels a spec leaves none of its tasks active and touches no other task |
| Lifecycle.RecoverAfterCrash | src/cli/boot.rs:500-582 | In any row order, exactly the running specs that are not awaiting their operator are failed (except where an emit faults), then every open run is closed; the tallies are the number failed, the number whose emit faulted and the number of runs that were open |
| Lifecycle.RecoveredIsQuiet | src/cli/boot.rs:483-499 | Afterwards no run is open and every spec still running has a blocked and no active task |
| LifecycleColumns.VictimsInFull | src/cli/boot.rs:597-622 | Recovery fails exactly the running specs with no blocked task, an active task, or an open run that belongs to no blocked task of theirs |
| LifecycleColumns.RecoveredColumns | src/cli/boot.rs:500-582 | What recovery leaves in every row: failed as a daemon crash, tasks canceled on behalf of their spec, open runs completed now, nothing else |
| Lifecycle.RecoveryIsIdempotent | src/cli/boot.rs:500-582 | A second pass changes nothing |
| Lifecycle.RecoveryIsRestartable | src/cli/boot.rs:504-561 | Cut off after any of its emits and run again in full, recovery ends where one uninterrupted pass ends, completion stamps aside |
| Lifecycle.CrashInsideSweep | src/service/bus.rs:342-420 | A crash inside any one emit of the recovery, after any of the others, is made good by the next boot if and only if its task sweep was already complete |
| Lifecycle.CrashInsideSweepStrandsATask | src/service/bus.rs:342-420 | A concrete database in which such a crash leaves a task active after the next recovery |
| Lifecycle.ClosingFirstWouldSpare | src/cli/boot.rs:560-561 | Exactly which crash victims would be spared if the open runs were closed first |
| Lifecycle.DrainInFlightSpecs | src/cli/boot.rs:661-748 | In any spec order, exactly the active tasks of in-flight running specs are parked (except where an emit faults), and the tallies are what the next boot will decide |
| LifecycleColumns.InFlightInFull | src/cli/boot.rs:689-705 | What the tallies range over: running specs with an active task or with an open run, spec-level ones included |
| LifecycleColumns.DrainedColumns | src/cli/boot.rs:706-725 | The active tasks of running specs are blocked as draining; no other row changes |
| Lifecycle.DrainParksExactly | src/cli/boot.rs:624-660 | After a clean drain a running spec is spared if and only if it had an active or blocked task and every open run is owned by one |
| Lifecycle.DrainNeverHurts | src/cli/boot.rs:447-456 | Draining, even partially, adds no crash victim |
| Lifecycle.WhoSurvivesShutDown | src/cli/boot.rs:441-474 | A running spec survives a shutdown if and only if it was awaiting its operator anyway, or the stop was graceful, both writers had stopped, and the spec was parkable |
| Lifecycle.LateStepsKeepSurvivor | src/cli/boot.rs:637-644 | No sequence of late worker steps — starts under blocked tasks, heartbeats, run ends, decisions — turns a survivor into a victim |
| Lifecycle.LateStartCanLoseASurvivor | src/cli/boot.rs:611-620 | An accepted run that opens after the drain keeps the survivor if and only if it is for another spec or for a blocked task of this one |
| Lifecycle.LateSpecLevelStartLosesASpec | src/cli/boot.rs:597-622 | A concrete valid database, drained in good order, whose spec fails at the next boot because of a late spec-level start |
| Lifecycle.LateUnblockLosesItsSpec | src/cli/control.rs:160-190 | An unblock still under way after the drain costs exactly the spec of its task its life |
| LifecycleColumns.LateReportLeaves | src/repo/phase_runs.rs:222-294 | What the last act of a detached worker writes into its run |
| Lifecycle.SurvivesGracefulRestart | src/cli/boot.rs:500-748 | Drain, late worker steps and recovery leave a parkable spec untouched; with no late step one that is not parkable is failed |
| Lifecycle.UnblockRestoresRow | src/cli/daemon.rs:539-636 | Unblocking a parked task gives back the row it had, original start time included |
| Lifecycle.RestartRoundTrip | src/cli/daemon.rs:539-636 | Drain, restart and unblocking every parked task are all accepted and restore every task of the spec |
| Handlers.QueuedWasAccepted | src/cli/daemon.rs:322-336 | With every statement, check and send a step of its own and under every interleaving of these, each event on the channel was accepted by the bus earlier, and no acceptance is queued twice |
| Handlers.PlayKeepsInv | src/cli/daemon.rs:322-438 | The invariant behind it: what is queued or held was accepted, each acceptance has one holder, and a spec whose start was accepted never returns to the status queued |
| HandlerRaces.TerminalLeftExactlyByLateWrite | src/service/bus.rs:343-355 | A step takes a spec out of a terminal status if and only if it is the write of an emit guarded earlier, with another target; the guard then no longer holds |
| HandlerRaces.TerminalStays | src/cli/daemon.rs:575-580 | In a run in which no write about the spec lands late, a terminal status has no exit |
| HandlerRaces.StartLandsOnGuardIff | src/service/bus.rs:343-355 | The guard of a start still holds at its write if and only if nobody wrote the row since its read |
| HandlerRaces.GuardSurvivesQuiet | src/service/bus.rs:343-355 | Any guard about a spec that nobody writes in between still holds at the write |
| HandlerRaces.TerminalForGoodIff | src/cli/daemon.rs:575-580 | A terminal spec stays terminal in every continuation if and only if no handler stands between the read and the write of its start |
| HandlerRaces.NoSecondStartIff | src/cli/daemon.rs:354-365 | With one start of a spec accepted, no continuation has a second accepted if and only if no handler stands between the read and the write of such a start |
| HandlerRaces.TwoStartsExactlyIfOneIsLate | src/cli/daemon.rs:354-365 | The fact about one run behind it: two starts are accepted if and only if some start is written over an earlier one |
| HandlerRaces.OneStartPerSpec | src/cli/daemon.rs:354-430 | In a run in which no write about the spec lands late, at most one `SpecStarted` of it is ever queued |
| HandlerRaces.NoStartAfterFailedPreflightIff | src/cli/daemon.rs:362-415 | After a failed preflight, with no start of the spec queued yet and the channel open, no continuation queues one if and only if no other handler is at its preflight for the spec, about to send its start, or between the read and the write of a start it would send |
| HandlerRaces.RefusedStartIsNeverSent | src/cli/daemon.rs:362-415 | In every run, whatever lands late: the start that a refused dispatch had accepted is never queued |
| HandlerRaces.FailedPreflightQueuesNoStart | src/cli/daemon.rs:362-415 | In a run in which no write about the spec lands late a failed preflight is followed by no queued start of the spec at all, and its handler leaves the spec terminal |
| HandlerRaces.PlayKeepsOrderly | src/cli/daemon.rs:339-438 | The invariant behind both, kept by every step that lands on its guard |
| HandlerExamples.DoubleDispatchQueuesTwoStarts | src/cli/daemon.rs:354-430 | From every database with the spec queued: two dispatches that both read before either writes are both accepted and both queued |
| HandlerExamples.StartOverwritesCancel | src/service/bus.rs:343-355 | From every such database: a cancel between the read and the write of a start leaves a canceled spec running |
| HandlerExamples.FailedPreflightCanBeFollowedByStart | src/cli/daemon.rs:354-430 | From every such database: of two dispatches that both read before either writes, one fails its preflight and the other queues its start |
| HandlerExamples.StartCanBeOvertaken | src/cli/daemon.rs:350-425 | A cancel that runs during the preflight is queued before the start it cancels |
| ChannelOrder.SendIsSafeIff | src/cli/daemon.rs:322-336 | At a send, everything queued after it in every continuation was accepted later than it if and only if no other handler that is then sending or at its preflight holds an earlier acceptance |
| ChannelOrder.EverySendSafeIff | src/cli/daemon.rs:322-336 | The same over a run: each send keeps its place however the run is carried on, if and only if each is safe when it is made |
| ChannelOrder.SafeSendsAreInOrder | src/cli/daemon.rs:322-336 | A run whose sends are all safe is heard of in order of acceptance |
| ChannelOrder.ChannelInOrderIff | src/cli/daemon.rs:322-336 | Looking back on one run: its channel is in order of acceptance if and only if nobody who held an earlier acceptance at a send went on to send it |
| ChannelOrder.OneAtATimeIsInOrder | src/cli/daemon.rs:322-336 | Handlers of which only one at a time has an acceptance to send are heard of in order |
| DeadSpecs.EmitKeepsDeadQuiet | src/service/bus.rs:317-420 | An emit by itself leaves an active task under a failed or canceled spec if and only if it starts or unblocks a task of such a spec |
| DeadSpecs.StatementKeepsDeadQuietIff | src/service/bus.rs:317-420 | Statement by statement, wherever it lands: such a task is left if and only if the statement sets a task of a dead spec to work, or kills a spec whose active tasks are yet to be swept |
| HandlerExamples.UninterruptedUnblockIsSafe | src/cli/daemon.rs:574-604 | With nothing between its check and its write, `unblock` never does that |
| HandlerExamples.UnblockCanReviveUnderDeadSpec | src/cli/daemon.rs:574-628 | With a `fail` in between it does, from every database with a blocked task of a running spec that has no active one |
| CommandHandler.DaemonState.EmitAndNotify | src/cli/daemon.rs:322-336 | Queued if and only if accepted and the channel is open |
| CommandHandler.DaemonState.HandleDispatch | src/cli/daemon.rs:339-438 | With others acting only while the preflight runs: queues the start exactly when it was accepted, the preflight passed and the channel is open; a failed preflight queues nothing and ends the spec, whatever statements landed meanwhile |
| CommandHandler.RefusalEndsSpec | src/cli/daemon.rs:369-387 | From every status a started spec can have, the refusal of its dispatch leaves it terminal |
| CommandHandler.DaemonState.HandleCancel | src/cli/daemon.rs:475-536 | A spec id cancels an existing spec, a task id an existing task under its own spec; anything else changes nothing |
| LifecycleColumns.CancelLeaves | src/cli/daemon.rs:475-536 | A queued or running spec, or a task that is not over, is canceled with the note of the operator, and the active tasks of the spec with it; any other target changes nothing |
| CommandHandler.DaemonState.HandleFail | src/cli/daemon.rs:639-660 | Marks a running spec failed with the note of the operator, or changes nothing |
| CommandHandler.DaemonState.HandleUnblock | src/cli/daemon.rs:539-636 | The checks in order; a refused unblock changes nothing; an accepted one is queued, and reported as done, only if the channel is open |
| LifecycleColumns.UnblockLeaves | src/cli/daemon.rs:539-636 | Done exactly for a blocked task of a spec that is queued or running; the task is then active with nothing to explain, its counters zeroed only if asked |
| CommandHandler.UnblockIsNeverRejected | src/cli/daemon.rs:608-628 | With its checks passed an uninterrupted unblock is accepted, so its counter reset is never orphaned |
| HandlerAlone.NotifyAlone | src/cli/daemon.rs:322-336 | The steps of a handler that emits and notifies, taken with no step of another in between, lead to what `EmitAndNotify` promises: emitted, and queued if accepted on an open channel |
| HandlerAlone.CancelAlone | src/cli/daemon.rs:475-536 | Taken alone, the steps of `handle_cancel` lead to what `HandleCancel` promises, for a spec, a task or neither |
| HandlerAlone.FailAlone | src/cli/daemon.rs:639-660 | Taken alone, the steps of `handle_fail` lead to what `HandleFail` promises |
| HandlerAlone.ForwardAlone | src/cli/daemon.rs:322-336 | Taken alone, forwarding an event leads to what `EmitAndNotify` promises for it |
| HandlerAlone.UnblockAlone | src/cli/daemon.rs:539-636 | Taken alone, the steps of `handle_unblock` lead to the database and the answer that `Lifecycle.Unblock` computes |
| HandlerAlone.DispatchAlone | src/cli/daemon.rs:339-438 | Taken alone, the steps of `handle_dispatch` lead to what `HandleDispatch` promises with an empty interval, the refused dispatch included |
| Sweep.Tick | src/service/sweeper.rs:179-195 | Both passes close every overdue run exactly once and stop the owner of each, whatever the bus makes of the emits, and the count is the number accepted |
| SweepColumns.TickClosesRuns | src/repo/phase_runs.rs:304-480 | Which runs a tick closes, by heartbeat, start, threshold and budget, and the verdict it leaves in each; every other run as it was |
| SweepColumns.PassLeavesTask | src/service/sweeper.rs:318-365 | In whatever order the rows come: an active task stops with the first reaped run that concerns it, blocked with the reason of its own run or canceled with its spec; every other task as it was |
| SweepColumns.PassLeavesSpec | src/service/sweeper.rs:318-365 | A running spec fails with the reason of the first of its spec-level runs that is reaped; every other spec as it was |
| SweepColumns.CountsWhatItStops | src/service/sweeper.rs:493-516 | A reaped run counts exactly if it found its task active, or its spec running |
| Sweep.SweepPass | src/service/sweeper.rs:318-365 | In whatever order the rows come, each is emitted for and then closed |
| Sweep.ReapingCloses | src/service/sweeper.rs:338-360 | A pass closes exactly the runs its query returned |
| Sweep.ReapingStopsOwners | src/service/sweeper.rs:552-586 | Every reaped run stops its owner: the task is no longer active, or the spec no longer running |
| Sweep.NoRunOutlivesItsBudget | src/repo/phase_runs.rs:336-356 | With ticks at most one interval apart, no run is ever open longer than budget plus interval, in any history of ticks, operations and deletions |
| Sweep.LivenessIsLastSignal | src/repo/phase_runs.rs:304-317 | The coalesced column of an open row is the last sign of life in the history |
| Sweep.AbandonedMeansSilent | src/repo/phase_runs.rs:304-328 | A tick returns a run as abandoned if and only if it is open and its last sign of life is older than the threshold |
| Sweep.ReapedOnce | src/repo/phase_runs.rs:296-356 | A run that one tick reaps is returned by no later tick, unless it is deleted and its id given to a new run |
| Composition.PriorRunsAreTheRunsOnce | src/repo/composition.rs:84-124 | Join, group, NULL filter and sort return each run of the task (or each spec-level run) exactly once, by start and then iteration, ascending, each with exactly its decisions; the query fails only on an iteration beyond 32 bits |
| Composition.LeftJoinColumn | src/repo/composition.rs:92-104 | The join holds a run exactly once per decision, or once with NULL |
| Composition.GroupByCollects | src/repo/composition.rs:95-103 | A group exists exactly for the runs in the rows and holds their whole column in order |
| Composition.SummaryDescribes | src/repo/composition.rs:127-165 | A decoded row describes its run; it fails exactly on an iteration outside 32 bits |
| Composition.OrderBySorts | src/repo/composition.rs:103-103 | Sorting keeps the members, repeats none and puts them in order |
| Composition.FetchBySpecIsComplete | src/repo/decisions.rs:76-90 | Every decision of the spec, authored ones included, once, the oldest first |
| Composition.ComposedContextFits | src/repo/composition.rs:47-62 | What a listed run claims to have decided is in the decision list, no decision is claimed twice, authored ones are claimed by none and listed all the same |
| VerifyLint.R9Fires | src/config/verify_lint.rs:234-280 | The nested scanning loops decide exactly whether some separated command greps a directory argument without a recursive flag |
| VerifyLint.HasRecursiveFlag | src/config/verify_lint.rs:249-267 | True exactly if some word is `--recursive` or a short cluster with r or R |
| VerifyLint.HasDirectoryArgument | src/config/verify_lint.rs:272-277 | True exactly if some word, its trailing punctuation stripped, ends in a slash and is not the root |
| VerifyLint.R9Distributes | src/config/verify_lint.rs:235-235 | Around any `&`, `|` or `;`, R9 of a list is R9 of one side or of the other |
| LintedText.R9OnWords | src/config/verify_lint.rs:234-280 | R9 of `grep` and any words fires exactly if some word is a text, a slash and perhaps punctuation, and no word is `--recursive` or a short cluster with an r or R |
| LintedText.GrepOfDirectoryFires | src/config/verify_lint.rs:271-277 | `grep pattern dir/` is reported, with the end of a substitution or quote after the slash too |
| LintedText.GrepOfRootIsQuiet | src/config/verify_lint.rs:274-276 | `grep pattern /` is not |
| LintedText.LongOptionStillFires | src/config/verify_lint.rs:256-260 | A long option other than `--recursive` does not silence it, whatever letters it has |
| LintedText.ShortClusterSilences | src/config/verify_lint.rs:261-264 | A cluster of short flags with an r does |
| LintedText.NoSlashNoR9 | src/config/verify_lint.rs:271-277 | A text without a slash is never reported, however many commands it holds |
| Text.WhiteSpaceIs | src/config/verify_lint.rs:250-250 | The 25 code points of the Unicode property White_Space |
| VerifyLint.RecursiveFlagSilencesR9 | src/config/verify_lint.rs:328-328 | The suggested fix works: `-r` as a word anywhere in a command silences R9 |
| VerifyLint.TrimKeepsTokens | src/config/verify_lint.rs:236-236 | Trimming a piece does not change its words |
| VerifyLint.R1Meaning | src/config/verify_lint.rs:76-92 | R1 fires exactly if some tool occurs with no `export PATH=` to its left |
| LintedText.R1OnText | src/config/verify_lint.rs:71-92 | R1 on the text: one of the seven named tools is used with no `export PATH=` to its left |
| VerifyLint.HintFixesR1Only | src/config/verify_lint.rs:284-290 | Prepending the suggested fix of R1 to any command silences R1 and leaves the verdict of R9 alone |
| VerifyLint.R1SurvivesMore | src/config/verify_lint.rs:76-92 | Appending text to a command never silences R1 |
| Histories.EmitKeepsInvariants | src/service/bus.rs:159-315 | Every event keeps every constraint of the schema, and rows of one spec together if the row it inserts does |
| Histories.StatementKeepsInvariants | src/service/bus.rs:317-376 | So does every single statement of an emit, landing late or not |
| Histories.EveryReachableDbIsSound | migrations/0001_initial.sql:20-150 | Repo operations, emits as a whole or statement by statement, dispatches, cleans, prunes, recoveries and drains in any order only ever reach valid databases, and coherent ones as every inserted row keeps to one spec |
| Digraph.AddingEdgeClosesCycle | src/service/plan_layer.rs:472-488 | An edge added to a graph without cycles closes one if and only if it is new and its end is its start or leads there |
| Histories.DoesKeepsAcyclic | src/service/plan_layer.rs:472-488 | An act keeps the persisted task graph acyclic if and only if it is no `add_dep` that closes a cycle |
| Histories.AddDepCanCloseCycle | src/repo/task_deps.rs:29-52 | With an edge between two tasks of a spec, `add_dep` accepts the edge back and the graph has a cycle |
| Histories.ReachableGraphsAreAcyclic | src/cli/dispatch.rs:327-358 | In any history the task graph has been acyclic all along if and only if no act so far closed a cycle |

## Left out

- Columns no modelled statement reads or writes (models, cost and cache counters, worktree paths, triggers), and the id format CHECKs: ids are typed values.
- JSON, TOML and error texts: values are already typed, so corrupt-row branches (unparsable status, id or reason) do not arise; the one decoding error kept is the 32-bit range of an iteration.
- Sweep.Tick: the texts the sweeper writes leave out the seconds and phase names that the program prints into them; one moment of a history; heartbeats that arrive between its query and its close are not interleaved.
- Id generation: minted ids are an arbitrary supply, assumed fresh and distinct where the result needs it; the retry caps of the allocators are not modelled.
- The clock: one reading per pass where the code reads it once per statement; equalities after an interrupted recovery therefore disregard completion stamps.
- Concurrency inside one statement or transaction: each is one atomic step. So is the emit of `PhaseStarted`, which reads the version pointer and then inserts; and recovery, drain and tick run with no statement of others in between, except for the late steps and statements named.
- Bus.EmitEvent: speaks of an emit with no statement of others in between, as do Bus.TransitionTaskRow, Bus.TransitionSpecRow, Bus.CancelStrandedActiveTasks and the lemmas that end an emit with `Emitted`; `EmitSteps` and `Handlers` take the emit apart.
- Bus.EmitKeepsSpecProgress: does not hold of interleaved statements; Bus.WrittenAllStatus and HandlerRaces.TerminalLeftExactlyByLateWrite say what does.
- CommandHandler.DaemonState.HandleDispatch: lets others in only while the preflight runs; `HandlerRaces` has every interleaving.
- Database faults: an emit that faults leaves the database unchanged, other statements only fail on constraints.
- The orchestrator loop, plan revision, phase execution, observers, OTel and the control socket: their effects enter as events and late steps.
- Cleaning a spec and dispatching the same id again while handlers are running: `Handlers` has no deletes, so its one start per spec is for ids that are never reused.
- `resolve-conflict` and the contents of the preflights: a preflight is its outcome.
- The auto-clean pass and the WIP commit of the sweeper, and the tick's closes failing.
- That plan revisions keep edges and runs within one spec: `KeepsToOneSpec` is a premise of Histories.EveryReachableDbIsSound, act by act.
- Reading queries that only select or aggregate columns (`fetch_*`, `deps_of`, `dependents_of`, `aggregate_metrics_for_spec`).
- Lint rules R2, R3 and R5 (single substring tests), R4, R6, R7 and R8 (their meaning is in the regex library), and the walk over verifications.
- `branch_policy`, `verify_spec`, the duration resolvers and the worktree configuration: decision tables that one branch settles.
- Reclaim.CleanSpecWithReclaim: the disk is a set of directory names per spec; git registrations and the final removal of the emptied directory are not modelled.
- Lifecycle.SurvivesGracefulRestart: the converse is stated for a restart without late steps only, because a worker that ends its own run after the drain can save a spec that was not parkable.
- Composition.PriorRunsAreTheRunsOnce: the order of the decision ids within one run is the scan order of the engine, which the query leaves open.
