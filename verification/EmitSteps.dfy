/**
 `EventBus::emit` (src/service/bus.rs) statement by statement, as one of several producers running at once: read and
 guard, write, and for a spec that fails or is canceled, list its tasks and guard and write each active one in turn.
 */
module EmitSteps {
  import opened Outcomes
  import opened Digraph
  import opened Schema
  import S = Statements
  import opened Bus

  /** Where an emit stands; `todo` are the tasks its sweep has still to visit. */
  datatype Stage =
    | Fetching
    | Guarded
    | Listing
    | Sweeping(todo: seq<TaskId>)
    | SweepGuarded(todo: seq<TaskId>)

  datatype Progress = Going(stage: Stage) | Returned(ok: bool)

  predicate Sweeps(e: Event) {
    e.SpecFailed? || e.SpecCanceled?
  }

  /** An emit that has a guard to pass; the others consist of one statement. */
  predicate IsGuarded(e: Event) {
    SpecMove(e).Some? || TaskMove(e).Some?
  }

  /** The active tasks of the spec, in the order in which the engine returns them. */
  ghost predicate ListsActive(db: Db, s: SpecId, listed: seq<TaskId>) {
    Distinct(listed)
    && forall t :: t in listed <==> t in db.tasks && db.tasks[t].specId == s && db.tasks[t].state.Active?
  }

  function SweepOn(todo: seq<TaskId>): Progress {
    if todo == [] then Returned(true) else Going(Sweeping(todo))
  }

  /** One statement of an emit. A refused or late sweep makes the emit an error, with what it has written left behind. */
  ghost function EmitStage(db: Db, e: Event, stage: Stage, listed: seq<TaskId>, now: Time): (Db, Progress) {
    match stage
    case Fetching =>
      if !IsGuarded(e) then (Written(db, OfEvent(e, now)), Returned(Sent(db, OfEvent(e, now)).Done?))
      else if GuardHolds(db, OfEvent(e, now)) then (db, Going(Guarded))
      else (db, Returned(false))
    case Guarded =>
      var next := if Sweeps(e) then Going(Listing) else Returned(true);
      (Written(db, OfEvent(e, now)), if Sent(db, OfEvent(e, now)).Done? then next else Returned(false))
    case Listing =>
      if Sweeps(e) && ListsActive(db, e.spec, listed) then (db, SweepOn(listed)) else (db, Going(Listing))
    case Sweeping(todo) =>
      if todo == [] then (db, Returned(true))
      else if GuardHolds(db, OfSweep(todo[0], now)) then (db, Going(SweepGuarded(todo)))
      else (db, Returned(false))
    case SweepGuarded(todo) =>
      if todo == [] then (db, Returned(true))
      else
        (Written(db, OfSweep(todo[0], now)),
         if Sent(db, OfSweep(todo[0], now)).Done? then SweepOn(todo[1..]) else Returned(false))
  }

  // ----- Alone, the statements add up to the emit -----

  /** The emit carried on from a stage with nobody in between. */
  ghost function Alone(db: Db, e: Event, stage: Stage, listed: seq<TaskId>, now: Time, fuel: nat): (Db, Progress)
    decreases fuel
  {
    var (after, progress) := EmitStage(db, e, stage, listed, now);
    if progress.Going? && fuel > 0 then Alone(after, e, progress.stage, listed, now, fuel - 1) else (after, progress)
  }

  /** What is left to do for a sweep: the given tasks, all active, canceled. */
  ghost function SweptList(tasks: map<TaskId, TaskRow>, todo: seq<TaskId>, now: Time): map<TaskId, TaskRow> {
    map t | t in tasks :: if t in todo then S.StateWritten(tasks[t], TaskWasCanceled, SWEPT, None, now) else tasks[t]
  }

  /** One task of the sweep: read, guarded and canceled. */
  lemma SweepOneTask(db: Db, e: Event, todo: seq<TaskId>, listed: seq<TaskId>, now: Time)
    requires todo != [] && todo[0] in db.tasks && db.tasks[todo[0]].state.Active?
    ensures EmitStage(db, e, Sweeping(todo), listed, now) == (db, Going(SweepGuarded(todo)))
    ensures EmitStage(db, e, SweepGuarded(todo), listed, now)
            == (db.(tasks := SweptList(db.tasks, [todo[0]], now)), SweepOn(todo[1..]))
  {
    assert SweptList(db.tasks, [todo[0]], now)
        == db.tasks[todo[0] := S.StateWritten(db.tasks[todo[0]], TaskWasCanceled, SWEPT, None, now)];
  }

  lemma SweptInTurn(tasks: map<TaskId, TaskRow>, todo: seq<TaskId>, now: Time)
    requires Distinct(todo) && todo != []
    ensures SweptList(SweptList(tasks, [todo[0]], now), todo[1..], now) == SweptList(tasks, todo, now)
    ensures forall t :: t in todo[1..] && t in tasks ==> SweptList(tasks, [todo[0]], now)[t] == tasks[t]
  {
    assert todo == [todo[0]] + todo[1..];
  }

  lemma {:induction false} SweepAlone(db: Db, e: Event, todo: seq<TaskId>, listed: seq<TaskId>, now: Time, fuel: nat)
    requires Distinct(todo) && todo != [] && fuel >= 2 * |todo|
    requires forall t :: t in todo ==> t in db.tasks && db.tasks[t].state.Active?
    ensures Alone(db, e, Sweeping(todo), listed, now, fuel)
            == (db.(tasks := SweptList(db.tasks, todo, now)), Returned(true))
    decreases |todo|
  {
    SweepOneTask(db, e, todo, listed, now);
    SweptInTurn(db.tasks, todo, now);
    var next := db.(tasks := SweptList(db.tasks, [todo[0]], now));
    if todo[1..] == [] {
      assert todo == [todo[0]];
      hide EmitStage, SweptList;
    } else {
      forall u | u in todo[1..] ensures u in next.tasks && next.tasks[u] == db.tasks[u] {}
      hide EmitStage, SweptList;
      SweepAlone(next, e, todo[1..], listed, now, fuel - 2);
    }
  }

  /** Run to its end with no other statement in between, an emit does exactly what `Emit` says, all of it or nothing. */
  lemma AloneIsEmit(db: Db, e: Event, listed: seq<TaskId>, now: Time, fuel: nat)
    requires Sweeps(e) ==> ListsActive(Written(db, OfEvent(e, now)), e.spec, listed)
    requires fuel >= 2 * |listed| + 3
    ensures Alone(db, e, Fetching, listed, now, fuel)
            == (Emitted(db, Emit(db, e, now)), Returned(Emit(db, e, now).Accepted?))
  {
    var w := OfEvent(e, now);
    if IsGuarded(e) && GuardHolds(db, w) {
      assert EmitStage(db, e, Fetching, listed, now) == (db, Going(Guarded));
      if Sweeps(e) {
        var after := Written(db, w);
        assert EmitStage(db, e, Guarded, listed, now) == (after, Going(Listing));
        assert EmitStage(after, e, Listing, listed, now) == (after, SweepOn(listed));
        assert SweptList(after.tasks, listed, now) == StrandedSwept(after.tasks, e.spec, now);
        assert Emit(db, e, now) == Accepted(after.(tasks := SweptList(after.tasks, listed, now)));
        if listed != [] {
          SweepAlone(after, e, listed, listed, now, fuel - 3);
        } else {
          assert SweptList(after.tasks, [], now) == after.tasks;
        }
        assert Alone(after, e, Listing, listed, now, fuel - 2)
            == (after.(tasks := SweptList(after.tasks, listed, now)), Returned(true));
      }
    }
  }

  // ----- What one statement does to a status -----

  /** The status of a spec moves at the write of an emit that guarded it earlier, and nowhere else. */
  lemma StageStatus(db: Db, e: Event, stage: Stage, listed: seq<TaskId>, now: Time, s: SpecId)
    requires s in db.specRuntime
    ensures var after := EmitStage(db, e, stage, listed, now).0;
            && s in after.specRuntime
            && after.specRuntime[s].status
               == if stage.Guarded? then StatusAfter(OfEvent(e, now), s, db.specRuntime[s].status)
                  else db.specRuntime[s].status
  {
    WrittenStatus(db, OfEvent(e, now), s);
    if stage.SweepGuarded? && stage.todo != [] {
      WrittenStatus(db, OfSweep(stage.todo[0], now), s);
    }
    hide Written, Sent, GuardHolds;
  }

  /** An emit about a spec returns `Ok` only after its write, and the write finds the row or nothing. */
  lemma StartReturnsAtItsWrite(db: Db, s: SpecId, stage: Stage, listed: seq<TaskId>, now: Time)
    requires stage.Fetching? || stage.Guarded?
    requires EmitStage(db, SpecStarted(s), stage, listed, now).1 == Returned(true)
    ensures stage.Guarded? && s in db.specRuntime
    ensures EmitStage(db, SpecStarted(s), stage, listed, now).0 == Written(db, OfEvent(SpecStarted(s), now))
  {}
}
