/**
 `clean_spec_with_reclaim` of src/cli/clean.rs — guard, then disk, then rows — and the directory loop of
 src/runtime/reclaim.rs that it runs in the middle.
 */
module Reclaim {
  import opened Outcomes
  import opened Schema
  import S = Statements
  import opened Repo
  import opened Bus
  import opened Clean

  // ----- The disk -----

  /** What the dirty-check says of a worktree, and whether git then manages to remove a clean one. */
  datatype Condition = CleanTree(removable: bool) | DirtyTree | Undeterminable

  /** One entry of the spec's directory. An unreadable one, or a panic in its place, ends the pass with an error. */
  datatype Entry = Unreadable | NoWorktree | Worktree(leaf: string, condition: Condition)

  datatype ReclaimOutcome = ReclaimOutcome(removed: set<string>, skippedDirty: set<string>, failed: set<string>)

  function Leaves(entries: seq<Entry>, condition: Condition): set<string> {
    set e | e in entries && e.Worktree? && e.condition == condition :: e.leaf
  }

  function Standing(dirs: map<SpecId, set<string>>, s: SpecId): set<string> {
    if s in dirs then dirs[s] else {}
  }

  /** The entries are the directories of the spec, each once and in one condition, and perhaps other things. */
  ghost predicate Lists(entries: seq<Entry>, dirs: set<string>) {
    && (forall e :: e in entries && e.Worktree? ==> e.leaf in dirs)
    && (forall e, f :: e in entries && f in entries && e.Worktree? && f.Worktree? && e.leaf == f.leaf ==> e == f)
  }

  /** The entries the pass gets to see. */
  function Readable(entries: seq<Entry>): seq<Entry> {
    if entries == [] || entries[0].Unreadable? then [] else [entries[0]] + Readable(entries[1..])
  }

  lemma {:induction false} ReadablePrefix(entries: seq<Entry>, n: nat)
    requires n <= |entries| && forall k :: 0 <= k < n ==> !entries[k].Unreadable?
    requires n < |entries| ==> entries[n].Unreadable?
    ensures Readable(entries) == entries[..n]
  {
    if n > 0 {
      ReadablePrefix(entries[1..], n - 1);
      assert entries[..n] == [entries[0]] + entries[1..][..n - 1];
    }
  }

  lemma LeavesGrow(entries: seq<Entry>, n: nat, condition: Condition)
    requires n < |entries|
    ensures Leaves(entries[..n + 1], condition)
            == Leaves(entries[..n], condition)
               + if entries[n].Worktree? && entries[n].condition == condition then {entries[n].leaf} else {}
  {
    assert entries[..n + 1] == entries[..n] + [entries[n]];
  }

  /** The worktree directories on disk, by spec. */
  class Worktrees {
    var dirs: map<SpecId, set<string>>

    constructor (dirs: map<SpecId, set<string>>)
      ensures this.dirs == dirs
    {
      this.dirs := dirs;
    }

    /**
     `reclaim_blocking`: exactly the clean worktrees met before the first unreadable entry go, as far as git can remove
     them; dirty and undeterminable ones stay and are reported. After an error some directories may be gone already.
     */
    method Reclaim(s: SpecId, entries: seq<Entry>) returns (r: Result<ReclaimOutcome, ()>)
      modifies this
      ensures r.Ok? <==> Unreadable !in entries
      ensures Standing(dirs, s) == Standing(old(dirs), s) - Leaves(Readable(entries), CleanTree(true))
      ensures r.Ok? ==>
                && Readable(entries) == entries
                && r.value.removed == Leaves(entries, CleanTree(true))
                && r.value.skippedDirty == Leaves(entries, DirtyTree)
                && r.value.failed == Leaves(entries, CleanTree(false)) + Leaves(entries, Undeterminable)
      ensures forall other :: other != s ==> Standing(dirs, other) == Standing(old(dirs), other)
    {
      var removed, skippedDirty, failed: set<string> := {}, {}, {};
      for n := 0 to |entries|
        invariant forall k :: 0 <= k < n ==> !entries[k].Unreadable?
        invariant removed == Leaves(entries[..n], CleanTree(true)) && skippedDirty == Leaves(entries[..n], DirtyTree)
        invariant failed == Leaves(entries[..n], CleanTree(false)) + Leaves(entries[..n], Undeterminable)
        invariant Standing(dirs, s) == Standing(old(dirs), s) - removed
        invariant forall other :: other != s ==> Standing(dirs, other) == Standing(old(dirs), other)
      {
        LeavesGrow(entries, n, CleanTree(true));
        LeavesGrow(entries, n, CleanTree(false));
        LeavesGrow(entries, n, DirtyTree);
        LeavesGrow(entries, n, Undeterminable);
        match entries[n] {
          case Unreadable =>
            ReadablePrefix(entries, n);
            return Err(());
          case NoWorktree =>
          case Worktree(leaf, CleanTree(true)) =>
            dirs := dirs[s := Standing(dirs, s) - {leaf}];
            removed := removed + {leaf};
          case Worktree(leaf, CleanTree(false)) => failed := failed + {leaf};
          case Worktree(leaf, DirtyTree) => skippedDirty := skippedDirty + {leaf};
          case Worktree(leaf, Undeterminable) => failed := failed + {leaf};
        }
      }
      ReadablePrefix(entries, |entries|);
      assert entries[..|entries|] == entries;
      r := Ok(ReclaimOutcome(removed, skippedDirty, failed));
    }
  }

  /** No directory goes that is not clean: what the pass leaves covers every dirty and undeterminable one. */
  lemma OnlyCleanGo(entries: seq<Entry>, dirs: set<string>, leaf: string, condition: Condition)
    requires Lists(entries, dirs) && Worktree(leaf, condition) in entries && !condition.CleanTree?
    ensures leaf !in Leaves(Readable(entries), CleanTree(true))
  {
    if leaf in Leaves(Readable(entries), CleanTree(true)) {
      ReadableIsPart(entries, Worktree(leaf, CleanTree(true)));
    }
  }

  lemma {:induction false} ReadableIsPart(entries: seq<Entry>, e: Entry)
    ensures e in Readable(entries) ==> e in entries
  {
    if entries != [] && !entries[0].Unreadable? {
      ReadableIsPart(entries[1..], e);
    }
  }

  // ----- The command -----

  datatype ManageError = RowsRefused(error: S.RepoError) | ReclaimFailed

  /** `reclaim` is absent when the workspace could not be resolved and the disk was left alone. */
  datatype CleanSummary = CleanSummary(report: CleanReport, reclaim: Option<ReclaimOutcome>)

  /** The snapshot the runtime row points at must be there and its contract readable. */
  predicate WorkspaceKnown(db: Db, s: SpecId, contractReadable: bool) {
    s in db.specRuntime && (s, db.specRuntime[s].currentVersion) in db.versions && contractReadable
  }

  predicate PassesGuard(db: Db, s: SpecId, force: bool) {
    s in db.specRuntime && (force || db.specRuntime[s].status.Terminal())
  }

  /** What a refused deletion leaves: no row is gone, and what others wrote since the second check is there. */
  function RowsKept(db: Db, s: SpecId, force: bool, meanwhile: seq<Statement>): Db
    requires s in db.specRuntime
  {
    if !force && db.specRuntime[s].status.Terminal() then WrittenAll(db, meanwhile) else db
  }

  /** Step 4, with the statements that land between the check `clean_spec` makes for itself and its transaction. */
  method DeleteRows(store: Store, s: SpecId, force: bool, meanwhile: seq<Statement>)
    returns (r: Result<CleanReport, S.RepoError>)
    requires s in store.specRuntime
    modifies store
    ensures r.Ok? && force ==> store.Contents() == Cleaned(old(store.Contents()), s)
    ensures r.Ok? && !force ==> RowsGoneUnder(old(store.Contents()), store.Contents(), s, meanwhile)
    ensures r.Err? ==>
              r.error == if force || old(store.specRuntime)[s].status.Terminal() then S.ForeignKeyViolation
                         else S.SpecNotTerminal(old(store.specRuntime)[s].status)
    ensures r.Err? ==> store.Contents() == RowsKept(old(store.Contents()), s, force, meanwhile)
  {
    hide WrittenAll, LandOnGuard, LastStatus, Cleaned, FullReport, ForeignDecisions, ForeignRuns, NoneSuperseded,
      CascadeUnblocked;
    if force {
      var order := VisitingOrder(OwnDecisions(store.Contents(), s));
      r := CleanSpecForced(store, s, order);
    } else {
      r := CleanSpec(store, s, meanwhile);
    }
  }

  lemma StaysTerminalOnGuard(db: Db, ws: seq<Statement>, s: SpecId)
    requires s in db.specRuntime
    ensures s in WrittenAll(db, ws).specRuntime
    ensures db.specRuntime[s].status.Terminal() && LandOnGuard(db, ws, s) ==>
              WrittenAll(db, ws).specRuntime[s].status.Terminal()
  {
    WrittenAllStatus(db, ws, s);
    if db.specRuntime[s].status.Terminal() && LandOnGuard(db, ws, s) {
      TerminalIsForever(db, ws, s);
    }
    hide WrittenAll, LandOnGuard, LastStatus;
  }

  /** Without force: the spec was terminal when checked, and still is when its rows go unless a statement lands late. */
  ghost predicate RowsGoneUnder(checked: Db, after: Db, s: SpecId, meanwhile: seq<Statement>) {
    var late := WrittenAll(checked, meanwhile);
    && after == Cleaned(late, s)
    && s in checked.specRuntime && checked.specRuntime[s].status.Terminal()
    && s in late.specRuntime && (LandOnGuard(checked, meanwhile, s) ==> late.specRuntime[s].status.Terminal())
  }

  /** What the disk step leaves of the spec's directories, if it is reached. */
  function DirsLeft(db: Db, s: SpecId, contractReadable: bool, entries: seq<Entry>, dirs: set<string>): set<string> {
    if WorkspaceKnown(db, s, contractReadable) then dirs - Leaves(Readable(entries), CleanTree(true)) else dirs
  }

  /** The entry is a clean worktree that git can remove, and nothing unreadable comes before it. */
  ghost predicate MetClean(entries: seq<Entry>, k: int, leaf: string) {
    0 <= k < |entries| && entries[k] == Worktree(leaf, CleanTree(true)) && forall j :: 0 <= j < k ==> entries[j] != Unreadable
  }

  lemma {:induction false} ReadableEntries(entries: seq<Entry>, leaf: string)
    ensures Worktree(leaf, CleanTree(true)) in Readable(entries) <==> exists k :: MetClean(entries, k, leaf)
  {
    if entries != [] && !entries[0].Unreadable? {
      ReadableEntries(entries[1..], leaf);
      if entries[0] == Worktree(leaf, CleanTree(true)) {
        assert MetClean(entries, 0, leaf);
      }
      if k :| MetClean(entries[1..], k, leaf) {
        forall j | 0 <= j < k + 1 ensures entries[j] != Unreadable {
          assert j > 0 ==> entries[j] == entries[1..][j - 1];
        }
        assert MetClean(entries, k + 1, leaf);
      }
      if k :| MetClean(entries, k, leaf) {
        if k > 0 {
          forall j | 0 <= j < k - 1 ensures entries[1..][j] != Unreadable {
            assert entries[1..][j] == entries[j + 1];
          }
          assert MetClean(entries[1..], k - 1, leaf);
        }
      }
    }
  }

  /**
   A directory goes exactly if the version the spec points at is there, its contract can be read, and the directory is a
   clean worktree met before anything unreadable.
   */
  lemma DirsLeftInFull(db: Db, s: SpecId, contractReadable: bool, entries: seq<Entry>, dirs: set<string>, leaf: string)
    requires s in db.specRuntime
    ensures leaf in DirsLeft(db, s, contractReadable, entries, dirs) <==>
              && leaf in dirs
              && !((s, db.specRuntime[s].currentVersion) in db.versions && contractReadable
                   && exists k :: MetClean(entries, k, leaf))
  {
    ReadableEntries(entries, leaf);
    if leaf in Leaves(Readable(entries), CleanTree(true)) {
      assert Worktree(leaf, CleanTree(true)) in Readable(entries);
    }
    if Worktree(leaf, CleanTree(true)) in Readable(entries) {
      assert Worktree(leaf, CleanTree(true)).leaf in Leaves(Readable(entries), CleanTree(true));
    }
  }

  /**
   Statements of other writers may land between the command's own check and the disk, `first`, and between the check
   that the deletion makes for itself and its transaction, `second`.

   A spec that does not pass the guard loses neither directories nor rows. Past the guard the disk step runs, whatever
   `first` has made of the spec: its status is then the target of the last statement about it. A reclaim fault happens
   exactly on an unreadable entry and deletes no row. Without force the second check refuses exactly a spec that
   `first` has reopened; its rows stay, but its clean directories are gone. Other specs' directories always stay.
   */
  method CleanSpecWithReclaim(store: Store, disk: Worktrees, s: SpecId, force: bool, contractReadable: bool,
                              entries: seq<Entry>, first: seq<Statement>, second: seq<Statement>)
    returns (r: Result<CleanSummary, ManageError>)
    modifies store, disk
    ensures forall other :: other != s ==> Standing(disk.dirs, other) == Standing(old(disk.dirs), other)
    ensures !PassesGuard(old(store.Contents()), s, force) ==>
              r.Err? && r.error.RowsRefused? && store.Contents() == old(store.Contents()) && disk.dirs == old(disk.dirs)
    ensures PassesGuard(old(store.Contents()), s, force) ==>
              var early := WrittenAll(old(store.Contents()), first);
              && s in early.specRuntime
              && early.specRuntime[s].status == LastStatus(first, s, old(store.specRuntime)[s].status)
              && Standing(disk.dirs, s) == DirsLeft(early, s, contractReadable, entries, Standing(old(disk.dirs), s))
              && (r == Err(ReclaimFailed) <==> WorkspaceKnown(early, s, contractReadable) && Unreadable in entries)
              && (r == Err(ReclaimFailed) ==> store.Contents() == early)
              && (r.Err? && r.error.RowsRefused? ==>
                    && store.Contents() == RowsKept(early, s, force, second)
                    && r.error.error == if force || early.specRuntime[s].status.Terminal() then S.ForeignKeyViolation
                                        else S.SpecNotTerminal(early.specRuntime[s].status))
              && (r.Ok? ==>
                    && r.value.reclaim.Some? == WorkspaceKnown(early, s, contractReadable)
                    && (r.value.reclaim.Some? ==>
                          && r.value.reclaim.value.removed == Leaves(entries, CleanTree(true))
                          && r.value.reclaim.value.skippedDirty == Leaves(entries, DirtyTree))
                    && if force then store.Contents() == Cleaned(early, s)
                       else RowsGoneUnder(early, store.Contents(), s, second))
    ensures PassesGuard(old(store.Contents()), s, false) && LandOnGuard(old(store.Contents()), first, s) ==>
              PassesGuard(WrittenAll(old(store.Contents()), first), s, false)
  {
    hide WrittenAll, LandOnGuard, LastStatus, Leaves, Readable, RowsGoneUnder, RowsKept, Cleaned;
    if s !in store.specRuntime { return Err(RowsRefused(S.NotFound)); }
    var status := store.specRuntime[s].status;
    if !force && !status.Terminal() { return Err(RowsRefused(S.SpecNotTerminal(status))); }
    StaysTerminalOnGuard(store.Contents(), first, s);
    WrittenAllStatus(store.Contents(), first, s);
    SendStatements(store, first);
    var reclaim: Option<ReclaimOutcome> := None;
    if WorkspaceKnown(store.Contents(), s, contractReadable) {
      var outcome := disk.Reclaim(s, entries);
      if outcome.Err? { return Err(ReclaimFailed); }
      reclaim := Some(outcome.value);
    }
    var rows := DeleteRows(store, s, force, second);
    r := if rows.Ok? then Ok(CleanSummary(rows.value, reclaim)) else Err(RowsRefused(rows.error));
  }

  /**
   The command's own check does not keep the disk of a live spec safe: a start that was guarded before the spec was
   canceled lands after the check, the running spec loses its clean directory, and only then does the second check
   refuse, with every row in place.
   */
  method LateStartCostsLiveDirectory(store: Store, disk: Worktrees, s: SpecId, leaf: string, at: Time)
    returns (r: Result<CleanSummary, ManageError>)
    requires s in store.specRuntime && store.specRuntime[s].status.Terminal()
    requires (s, store.specRuntime[s].currentVersion) in store.versions && Standing(disk.dirs, s) == {leaf}
    modifies store, disk
    ensures s in store.specRuntime && store.specRuntime[s].status.Running?
    ensures Standing(disk.dirs, s) == {}
    ensures r == Err(RowsRefused(S.SpecNotTerminal(Running)))
    ensures store.Contents() == Written(old(store.Contents()), OfEvent(SpecStarted(s), at))
  {
    var start := OfEvent(SpecStarted(s), at);
    ghost var early := Written(store.Contents(), start);
    LateStartIsCleanedAway(store.Contents(), s, at);
    StartKeepsVersion(store.Contents(), s, at);
    assert [start][1..] == [];
    assert WrittenAll(store.Contents(), [start]) == early;
    CleanEntryGoes(leaf);
    hide Written, WrittenAll, LastStatus, LandOnGuard, Leaves, Readable, Cleaned;
    assert Unreadable !in [Worktree(leaf, CleanTree(true))];
    r := CleanSpecWithReclaim(store, disk, s, false, true, [Worktree(leaf, CleanTree(true))], [start], []);
    assert r.Err? && r.error.ReclaimFailed? ==> r == Err(ReclaimFailed);
  }

  lemma StartKeepsVersion(db: Db, s: SpecId, at: Time)
    requires s in db.specRuntime
    ensures var after := Written(db, OfEvent(SpecStarted(s), at));
            && after.versions == db.versions && s in after.specRuntime
            && after.specRuntime[s].currentVersion == db.specRuntime[s].currentVersion
  {}

  lemma CleanEntryGoes(leaf: string)
    ensures Leaves(Readable([Worktree(leaf, CleanTree(true))]), CleanTree(true)) == {leaf}
  {
    assert Readable([Worktree(leaf, CleanTree(true))]) == [Worktree(leaf, CleanTree(true))];
  }
}
