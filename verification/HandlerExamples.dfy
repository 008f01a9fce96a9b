/**
 Runs that go wrong, each from every database that allows it: two dispatches of one spec, a start written over a
 cancel, a start overtaken on the channel, and an unblock under a spec that has just failed.
 */
module HandlerExamples {
  import opened Outcomes
  import opened Digraph
  import opened Schema
  import S = Statements
  import opened Bus
  import opened EmitSteps
  import opened Handlers
  import opened HandlerRaces
  import opened DeadSpecs

  predicate AtStatus(db: Db, s: SpecId, status: SpecStatus) {
    s in db.specRuntime && db.specRuntime[s].status == status && s in db.specs
  }

  // ----- Runs in parts -----

  lemma {:induction false} PlayInParts(d: Daemon, a: seq<Action>, b: seq<Action>)
    ensures Play(d, a + b) == Play(Play(d, a), b)
    decreases |a|
  {
    hide Next;
    if a == [] {
      assert a + b == b;
    } else {
      assert (a + b)[0] == a[0] && (a + b)[1..] == a[1..] + b;
      PlayInParts(Next(d, a[0]), a[1..], b);
    }
  }

  lemma PlayTwo(d: Daemon, a: Action, b: Action)
    ensures Play(d, [a, b]) == Next(Next(d, a), b)
  {
    hide Next;
    assert [a, b][1..] == [b];
    assert Play(Next(d, a), [b]) == Play(Next(Next(d, a), b), []);
  }

  lemma PlayThree(d: Daemon, a: Action, b: Action, c: Action)
    ensures Play(d, [a, b, c]) == Next(Next(Next(d, a), b), c)
  {
    hide Next;
    assert [a, b, c][1..] == [b, c];
    PlayTwo(Next(d, a), b, c);
  }

  /** The inputs every step below takes: the preflight passes, no task is active, the clock reads `now`. */
  function Quiet(now: Time): Outside {
    Outside(None, [], now)
  }

  function Turn(p: nat, now: Time): Action {
    Advance(p, Quiet(now))
  }

  /** Each of two handlers takes a step. */
  function Both(now: Time): seq<Action> {
    [Turn(0, now), Turn(1, now)]
  }

  // ----- Single steps -----

  lemma StepGoes(d: Daemon, p: nat, now: Time, db: Db, next: Stage)
    requires p < |d.procs| && d.procs[p].InEmit?
    requires EmitStage(d.db, d.procs[p].e, d.procs[p].stage, [], now) == (db, Going(next))
    ensures Next(d, Turn(p, now)) == Goto(d.(db := db), p, InEmit(d.procs[p].e, next, d.procs[p].purpose))
  {
    hide EmitStage;
  }

  lemma StepReturns(d: Daemon, p: nat, now: Time, db: Db, ok: bool)
    requires p < |d.procs| && d.procs[p].InEmit?
    requires EmitStage(d.db, d.procs[p].e, d.procs[p].stage, [], now) == (db, Returned(ok))
    ensures Next(d, Turn(p, now)) == Return(d.(db := db), p, d.procs[p].e, d.procs[p].purpose, ok)
  {
    hide EmitStage;
  }

  lemma StepSends(d: Daemon, p: nat, now: Time)
    requires p < |d.procs| && d.procs[p].Sending?
    ensures Next(d, Turn(p, now)) == SendStep(d, p, d.procs[p].e, d.procs[p].ticket)
  {}

  lemma StepPasses(d: Daemon, p: nat, now: Time)
    requires p < |d.procs| && d.procs[p].Preflighting?
    ensures Next(d, Turn(p, now)) == Goto(d, p, Sending(SpecStarted(d.procs[p].s), d.procs[p].ticket))
  {}

  lemma StepResets(d: Daemon, p: nat, now: Time)
    requires p < |d.procs| && d.procs[p].SawLiveSpec?
    ensures Next(d, Turn(p, now)) == ResetStep(d, p, d.procs[p].t, d.procs[p].s, d.procs[p].resetCounter)
  {}

  // ----- Emits, stage by stage -----

  lemma StartReads(db: Db, s: SpecId, now: Time)
    ensures AtStatus(db, s, Queued) ==> EmitStage(db, SpecStarted(s), Fetching, [], now) == (db, Going(Guarded))
    ensures s in db.specRuntime ==>
              EmitStage(db, SpecStarted(s), Guarded, [], now)
              == (Written(db, OfEvent(SpecStarted(s), now)), Returned(true))
  {}

  lemma StartWritten(db: Db, s: SpecId, now: Time)
    requires s in db.specRuntime && s in db.specs
    ensures AtStatus(Written(db, OfEvent(SpecStarted(s), now)), s, Running)
    ensures Written(db, OfEvent(SpecStarted(s), now)).tasks == db.tasks
  {}

  // ----- Two starts of one spec -----

  lemma TwoDispatchesRead(db: Db, s: SpecId, now: Time)
    requires AtStatus(db, s, Queued)
    ensures Play(Boot(db), [Spawn(Dispatch(s)), Spawn(Dispatch(s))] + (Both(now) + Both(now)))
            == Daemon(db, [], [], [], true, [InEmit(SpecStarted(s), Guarded, ForDispatch),
                                             InEmit(SpecStarted(s), Guarded, ForDispatch)])
  {
    var start := SpecStarted(s);
    var spawn := [Spawn(Dispatch(s)), Spawn(Dispatch(s))];
    PlayInParts(Boot(db), spawn, Both(now) + Both(now));
    PlayTwo(Boot(db), spawn[0], spawn[1]);
    var d1 := Daemon(db, [], [], [], true, [Ready(Dispatch(s)), Ready(Dispatch(s))]);
    assert Play(Boot(db), spawn) == d1;
    PlayInParts(d1, Both(now), Both(now));
    PlayTwo(d1, Turn(0, now), Turn(1, now));
    var d2 := Daemon(db, [], [], [], true, [InEmit(start, Fetching, ForDispatch), InEmit(start, Fetching, ForDispatch)]);
    assert Play(d1, Both(now)) == d2;
    PlayTwo(d2, Turn(0, now), Turn(1, now));
    StartReads(db, s, now);
    hide EmitStage;
  }

  lemma TwoDispatchesWrite(db: Db, s: SpecId, now: Time)
    requires AtStatus(db, s, Queued)
    ensures var start := SpecStarted(s);
            var d := Daemon(db, [], [], [], true, [InEmit(start, Guarded, ForDispatch), InEmit(start, Guarded, ForDispatch)]);
            var after := Play(d, Both(now));
            after == Daemon(after.db, [start, start], [], [], true, [Preflighting(s, 0), Preflighting(s, 1)])
  {
    var start := SpecStarted(s);
    var d := Daemon(db, [], [], [], true, [InEmit(start, Guarded, ForDispatch), InEmit(start, Guarded, ForDispatch)]);
    PlayTwo(d, Turn(0, now), Turn(1, now));
    StartReads(db, s, now);
    StartWritten(db, s, now);
    StartReads(Written(db, OfEvent(start, now)), s, now);
    hide EmitStage, Written;
  }

  lemma TwoDispatchesSend(db: Db, s: SpecId, now: Time)
    ensures var start := SpecStarted(s);
            var d := Daemon(db, [start, start], [], [], true, [Preflighting(s, 0), Preflighting(s, 1)]);
            Play(d, Both(now) + Both(now)).channel == [start, start]
  {
    var start := SpecStarted(s);
    var d := Daemon(db, [start, start], [], [], true, [Preflighting(s, 0), Preflighting(s, 1)]);
    PlayInParts(d, Both(now), Both(now));
    PlayTwo(d, Turn(0, now), Turn(1, now));
    var sending := d.(procs := [Sending(start, 0), Sending(start, 1)]);
    assert Play(d, Both(now)) == sending;
    PlayTwo(sending, Turn(0, now), Turn(1, now));
    hide EmitStage;
  }

  /** Two dispatches of one queued spec that both read before either writes are both accepted, and both are queued. */
  lemma DoubleDispatchQueuesTwoStarts(db: Db, s: SpecId, now: Time)
    requires AtStatus(db, s, Queued)
    ensures exists actions :: Play(Boot(db), actions).channel == [SpecStarted(s), SpecStarted(s)]
  {
    var read := [Spawn(Dispatch(s)), Spawn(Dispatch(s))] + (Both(now) + Both(now));
    var write, send := Both(now), Both(now) + Both(now);
    TwoDispatchesRead(db, s, now);
    TwoDispatchesWrite(db, s, now);
    var d1 := Play(Boot(db), read);
    var d2 := Play(d1, write);
    TwoDispatchesSend(d2.db, s, now);
    PlayInParts(d1, write, send);
    PlayInParts(Boot(db), read, write + send);
    hide Play;
    assert Play(Boot(db), read + (write + send)).channel == [SpecStarted(s), SpecStarted(s)];
  }

  // ----- A failed preflight, and the start queued all the same -----

  predicate FailedYetQueued(d: Daemon, p: nat, s: SpecId) {
    p < |d.procs| && FailedPreflight(d.procs[p], s) && SpecStarted(s) in d.channel
  }

  lemma OneFailsOtherPasses(db: Db, s: SpecId, why: string, now: Time)
    ensures var start := SpecStarted(s);
            var d := Daemon(db, [start, start], [], [], true, [Preflighting(s, 0), Preflighting(s, 1)]);
            var fail := Advance(0, Outside(Some(why), [], now));
            FailedYetQueued(Play(d, [fail, Turn(1, now), Turn(1, now)]), 0, s)
  {
    var start := SpecStarted(s);
    var d := Daemon(db, [start, start], [], [], true, [Preflighting(s, 0), Preflighting(s, 1)]);
    var fail := Advance(0, Outside(Some(why), [], now));
    PlayThree(d, fail, Turn(1, now), Turn(1, now));
    var d1 := Next(d, fail);
    assert d1 == d.(procs := [InEmit(SpecFailed(s, PreflightFailed(why)), Fetching, ForRefusal(s, 0)), Preflighting(s, 1)]);
    hide Next, Play, EmitStage;
    StepPasses(d1, 1, now);
    StepSends(Next(d1, Turn(1, now)), 1, now);
    var last := Next(Next(d1, Turn(1, now)), Turn(1, now));
    assert last.channel == [start];
  }

  /** Of two dispatches that were both accepted one fails its preflight and the other passes: the start is queued. */
  lemma FailedPreflightCanBeFollowedByStart(db: Db, s: SpecId, why: string, now: Time)
    requires AtStatus(db, s, Queued)
    ensures exists actions, p :: FailedYetQueued(Play(Boot(db), actions), p, s)
  {
    var read := [Spawn(Dispatch(s)), Spawn(Dispatch(s))] + (Both(now) + Both(now));
    var write, finish := Both(now), [Advance(0, Outside(Some(why), [], now)), Turn(1, now), Turn(1, now)];
    TwoDispatchesRead(db, s, now);
    TwoDispatchesWrite(db, s, now);
    var d1 := Play(Boot(db), read);
    var d2 := Play(d1, write);
    OneFailsOtherPasses(d2.db, s, why, now);
    PlayInParts(d1, write, finish);
    PlayInParts(Boot(db), read, write + finish);
    hide Play, FailedYetQueued;
    assert FailedYetQueued(Play(Boot(db), read + (write + finish)), 0, s);
  }

  // ----- A start written over a cancel -----

  function CancelOf(s: SpecId, note: string): Event {
    SpecCanceled(s, Operator(Some(note)))
  }

  lemma CancelStages(db: Db, s: SpecId, note: string, now: Time)
    ensures AtStatus(db, s, Queued) || AtStatus(db, s, Running) ==>
              EmitStage(db, CancelOf(s, note), Fetching, [], now) == (db, Going(Guarded))
    ensures s in db.specRuntime ==>
              EmitStage(db, CancelOf(s, note), Guarded, [], now)
              == (Written(db, OfEvent(CancelOf(s, note), now)), Going(Listing))
    ensures NoneActive(db, s) ==> EmitStage(db, CancelOf(s, note), Listing, [], now) == (db, Returned(true))
  {}

  lemma CancelWritten(db: Db, s: SpecId, note: string, now: Time)
    requires s in db.specRuntime && s in db.specs
    ensures AtStatus(Written(db, OfEvent(CancelOf(s, note), now)), s, SpecWasCanceled)
    ensures Written(db, OfEvent(CancelOf(s, note), now)).tasks == db.tasks
  {}

  ghost predicate NoneActive(db: Db, s: SpecId) {
    forall t :: t in db.tasks && db.tasks[t].specId == s ==> !db.tasks[t].state.Active?
  }

  lemma StartAndCancelRead(db: Db, s: SpecId, note: string, now: Time)
    requires AtStatus(db, s, Queued)
    ensures Play(Boot(db), [Spawn(Dispatch(s)), Spawn(Cancel(SpecTarget(s), note))] + (Both(now) + Both(now)))
            == Daemon(db, [], [], [], true, [InEmit(SpecStarted(s), Guarded, ForDispatch),
                                             InEmit(CancelOf(s, note), Guarded, ForNotice)])
  {
    var start, cancel := SpecStarted(s), CancelOf(s, note);
    var spawn := [Spawn(Dispatch(s)), Spawn(Cancel(SpecTarget(s), note))];
    PlayInParts(Boot(db), spawn, Both(now) + Both(now));
    PlayTwo(Boot(db), spawn[0], spawn[1]);
    var d1 := Daemon(db, [], [], [], true, [Ready(Dispatch(s)), Ready(Cancel(SpecTarget(s), note))]);
    assert Play(Boot(db), spawn) == d1;
    PlayInParts(d1, Both(now), Both(now));
    PlayTwo(d1, Turn(0, now), Turn(1, now));
    var d2 := Daemon(db, [], [], [], true, [InEmit(start, Fetching, ForDispatch), InEmit(cancel, Fetching, ForNotice)]);
    assert Play(d1, Both(now)) == d2;
    PlayTwo(d2, Turn(0, now), Turn(1, now));
    StartReads(db, s, now);
    CancelStages(db, s, note, now);
    hide EmitStage;
  }

  /** A cancel that lands between the read and the write of a start: the canceled spec is `running` again. */
  lemma StartOverwritesCancel(db: Db, s: SpecId, note: string, now: Time)
    requires AtStatus(db, s, Queued)
    ensures exists before, late ::
              && AtStatus(Play(Boot(db), before).db, s, SpecWasCanceled)
              && AtStatus(Next(Play(Boot(db), before), late).db, s, Running)
  {
    var read := [Spawn(Dispatch(s)), Spawn(Cancel(SpecTarget(s), note))] + (Both(now) + Both(now));
    StartAndCancelRead(db, s, note, now);
    PlayInParts(Boot(db), read, [Turn(1, now)]);
    var d := Play(Boot(db), read);
    CancelStages(db, s, note, now);
    CancelWritten(db, s, note, now);
    var canceled := Written(db, OfEvent(CancelOf(s, note), now));
    StartReads(canceled, s, now);
    StartWritten(canceled, s, now);
    hide EmitStage, Written;
    assert Play(d, [Turn(1, now)]) == Next(d, Turn(1, now));
    var before := read + [Turn(1, now)];
    assert AtStatus(Play(Boot(db), before).db, s, SpecWasCanceled);
    assert AtStatus(Next(Play(Boot(db), before), Turn(0, now)).db, s, Running);
  }

  // ----- A start overtaken on the channel -----

  predicate OvertakesStart(d: Daemon, s: SpecId) {
    && AtStatus(d.db, s, SpecWasCanceled)
    && |d.log| == 2 && d.log[0] == SpecStarted(s) && d.channel == [d.log[1], d.log[0]]
  }

  lemma DispatchBegins(db: Db, s: SpecId, cmd: Command, now: Time)
    requires AtStatus(db, s, Queued)
    ensures var d := Play(Boot(db), [Spawn(Dispatch(s)), Spawn(cmd)] + [Turn(0, now), Turn(0, now), Turn(0, now)]);
            && AtStatus(d.db, s, Running) && d.db.tasks == db.tasks
            && d == Daemon(d.db, [SpecStarted(s)], [], [], true, [Preflighting(s, 0), Ready(cmd)])
  {
    var spawn, steps := [Spawn(Dispatch(s)), Spawn(cmd)], [Turn(0, now), Turn(0, now), Turn(0, now)];
    PlayInParts(Boot(db), spawn, steps);
    PlayTwo(Boot(db), spawn[0], spawn[1]);
    var d := Daemon(db, [], [], [], true, [Ready(Dispatch(s)), Ready(cmd)]);
    assert Play(Boot(db), spawn) == d;
    PlayThree(d, steps[0], steps[1], steps[2]);
    StartReads(db, s, now);
    StartWritten(db, s, now);
    hide EmitStage, Written;
  }

  lemma CancelOpens(db: Db, s: SpecId, note: string)
    requires s in db.specs
    ensures Opening(db, Cancel(SpecTarget(s), note)) == NoticeOf(CancelOf(s, note))
  {}

  lemma CancelWrites(d: Daemon, s: SpecId, note: string, now: Time)
    requires AtStatus(d.db, s, Running) && |d.procs| == 2 && d.procs[1] == Ready(Cancel(SpecTarget(s), note))
    ensures var after := Play(d, [Turn(1, now), Turn(1, now), Turn(1, now)]);
            && AtStatus(after.db, s, SpecWasCanceled) && after.db.tasks == d.db.tasks
            && after == d.(db := after.db, procs := [d.procs[0], InEmit(CancelOf(s, note), Listing, ForNotice)])
  {
    PlayThree(d, Turn(1, now), Turn(1, now), Turn(1, now));
    CancelOpens(d.db, s, note);
    CancelStages(d.db, s, note, now);
    CancelWritten(d.db, s, note, now);
    hide EmitStage, Written, Opening;
  }

  lemma CancelRuns(d: Daemon, s: SpecId, note: string, now: Time)
    requires AtStatus(d.db, s, Running) && NoneActive(d.db, s)
    requires d == Daemon(d.db, [SpecStarted(s)], [], [], true, [Preflighting(s, 0), Ready(Cancel(SpecTarget(s), note))])
    ensures var after := Play(d, [Turn(1, now), Turn(1, now), Turn(1, now)] + [Turn(1, now), Turn(1, now)]);
            var canceled := CancelOf(s, note);
            && AtStatus(after.db, s, SpecWasCanceled) && after.open
            && after.log == [SpecStarted(s), canceled] && after.channel == [canceled]
            && after.procs == [Preflighting(s, 0), Answered(true)]
  {
    var write, send := [Turn(1, now), Turn(1, now), Turn(1, now)], [Turn(1, now), Turn(1, now)];
    PlayInParts(d, write, send);
    CancelWrites(d, s, note, now);
    var d1 := Play(d, write);
    CancelStages(d1.db, s, note, now);
    PlayTwo(d1, send[0], send[1]);
    hide Next, Play, EmitStage;
    StepReturns(d1, 1, now, d1.db, true);
    StepSends(Next(d1, send[0]), 1, now);
  }

  lemma DispatchFinishes(d: Daemon, s: SpecId, now: Time)
    requires |d.procs| == 2 && d.procs[0] == Preflighting(s, 0) && d.open
    ensures var after := Play(d, [Turn(0, now), Turn(0, now)]);
            after.db == d.db && after.log == d.log && after.channel == d.channel + [SpecStarted(s)]
  {
    PlayTwo(d, Turn(0, now), Turn(0, now));
    hide Next, Play;
    StepPasses(d, 0, now);
    StepSends(Next(d, Turn(0, now)), 0, now);
  }

  /** A cancel that runs while a dispatch is at its preflight is queued before the start it cancels. */
  lemma StartCanBeOvertaken(db: Db, s: SpecId, note: string, now: Time)
    requires AtStatus(db, s, Queued) && NoneActive(db, s)
    ensures exists actions :: OvertakesStart(Play(Boot(db), actions), s)
  {
    hide Play, Next;
    var cmd := Cancel(SpecTarget(s), note);
    var begin := [Spawn(Dispatch(s)), Spawn(cmd)] + [Turn(0, now), Turn(0, now), Turn(0, now)];
    var cancel := [Turn(1, now), Turn(1, now), Turn(1, now)] + [Turn(1, now), Turn(1, now)];
    var finish := [Turn(0, now), Turn(0, now)];
    DispatchBegins(db, s, cmd, now);
    var d1 := Play(Boot(db), begin);
    CancelRuns(d1, s, note, now);
    var d2 := Play(d1, cancel);
    DispatchFinishes(d2, s, now);
    PlayInParts(d1, cancel, finish);
    PlayInParts(Boot(db), begin, cancel + finish);
    assert OvertakesStart(Play(Boot(db), begin + (cancel + finish)), s);
  }

  // ----- Unblocking under a live spec -----

  lemma UnblockAccepted(db: Db, t: TaskId, s: SpecId, now: Time)
    requires t in db.tasks && db.tasks[t].state.Blocked?
    ensures var o := Emit(db, TaskUnblocked(s, t), now);
            && o.Accepted? && o.db.specRuntime == db.specRuntime && t in o.db.tasks
            && o.db.tasks[t].state.Active? && o.db.tasks[t].specId == db.tasks[t].specId
  {}

  lemma UnblockStages(db: Db, s: SpecId, t: TaskId, now: Time)
    ensures EmitStage(db, TaskUnblocked(s, t), Fetching, [], now)
            == (db, if t in db.tasks && db.tasks[t].state.Blocked? then Going(Guarded)
                    else if Emit(db, TaskUnblocked(s, t), now).Accepted? then Going(Guarded) else Returned(false))
    ensures t in db.tasks && LegalTask(db.tasks[t].state, Active) ==>
              EmitStage(db, TaskUnblocked(s, t), Guarded, [], now)
              == (Emit(db, TaskUnblocked(s, t), now).db, Returned(true))
  {}

  lemma ResetIsHarmless(d: Daemon, p: nat, t: TaskId, s: SpecId, resetCounter: bool)
    requires QuietWhenDead(d.db) && p < |d.procs| && t in d.db.tasks && d.db.tasks[t].specId == s
    ensures var after := ResetStep(d, p, t, s, resetCounter);
            && QuietWhenDead(after.db) && after.procs == d.procs[p := NoticeOf(TaskUnblocked(s, t))]
            && after.db.specRuntime == d.db.specRuntime
            && t in after.db.tasks && after.db.tasks[t].specId == s
            && after.db.tasks[t].state == d.db.tasks[t].state
  {}

  lemma UnblockEmits(d: Daemon, p: nat, t: TaskId, s: SpecId, now: Time)
    requires p < |d.procs| && d.procs[p] == NoticeOf(TaskUnblocked(s, t))
    ensures var db := Next(Next(d, Turn(p, now)), Turn(p, now)).db;
            db == d.db || Emit(d.db, TaskUnblocked(s, t), now) == Accepted(db)
    ensures t in d.db.tasks && d.db.tasks[t].state.Blocked? ==>
              Emit(d.db, TaskUnblocked(s, t), now) == Accepted(Next(Next(d, Turn(p, now)), Turn(p, now)).db)
  {
    UnblockStages(d.db, s, t, now);
    if t in d.db.tasks && d.db.tasks[t].state.Blocked? {
      UnblockAccepted(d.db, t, s, now);
    }
    hide EmitStage, Emit, Next;
    if EmitStage(d.db, TaskUnblocked(s, t), Fetching, [], now).1.Going? {
      StepGoes(d, p, now, d.db, Guarded);
      StepReturns(Next(d, Turn(p, now)), p, now, Emit(d.db, TaskUnblocked(s, t), now).db, true);
    } else {
      StepReturns(d, p, now, d.db, false);
      AnsweredStays(Next(d, Turn(p, now)), p, now);
    }
  }

  lemma AnsweredStays(d: Daemon, p: nat, now: Time)
    requires p < |d.procs| && d.procs[p].Answered?
    ensures Next(d, Turn(p, now)) == d
  {}

  lemma LiveUnblockIsSafe(d: Daemon, p: nat, now: Time)
    requires QuietWhenDead(d.db) && p < |d.procs| && d.procs[p].SawLiveSpec?
    requires d.procs[p].t in d.db.tasks && d.db.tasks[d.procs[p].t].specId == d.procs[p].s
    requires LiveSpec(d.db, d.procs[p].s)
    ensures QuietWhenDead(Next(Next(Next(d, Turn(p, now)), Turn(p, now)), Turn(p, now)).db)
  {
    var (t, s, resetCounter) := (d.procs[p].t, d.procs[p].s, d.procs[p].resetCounter);
    ResetIsHarmless(d, p, t, s, resetCounter);
    StepResets(d, p, now);
    hide Next, Emit, ResetStep, QuietWhenDead;
    var reset := Next(d, Turn(p, now));
    UnblockEmits(reset, p, t, s, now);
    if Emit(reset.db, TaskUnblocked(s, t), now).Accepted? {
      EmitKeepsDeadQuiet(reset.db, TaskUnblocked(s, t), now);
    }
  }

  /** `unblock` re-checks the spec first, which is enough when nothing comes between the check and the write. */
  lemma UninterruptedUnblockIsSafe(d: Daemon, p: nat, now: Time)
    requires QuietWhenDead(d.db) && p < |d.procs| && d.procs[p].SawBlocked?
    requires d.procs[p].t in d.db.tasks && d.db.tasks[d.procs[p].t].specId == d.procs[p].s
    ensures QuietWhenDead(Next(Next(Next(Next(d, Turn(p, now)), Turn(p, now)), Turn(p, now)), Turn(p, now)).db)
  {
    var d1 := Next(d, Turn(p, now));
    if LiveSpec(d.db, d.procs[p].s) {
      LiveUnblockIsSafe(d1, p, now);
    } else {
      assert d1.procs[p] == Answered(false);
    }
    hide EmitStep, ResetStep, SendStep, Opening;
  }

  // ----- An unblock under a spec that has just failed -----

  predicate Revived(d: Daemon, t: TaskId) {
    t in d.db.tasks && d.db.tasks[t].state.Active? && Dead(d.db, d.db.tasks[t].specId)
  }

  function FailOf(s: SpecId, note: string): Event {
    SpecFailed(s, OperatorMarkedFailed(Some(note)))
  }

  lemma FailStages(db: Db, s: SpecId, note: string, now: Time)
    requires AtStatus(db, s, Running) && NoneActive(db, s)
    ensures var e := FailOf(s, note);
            var after := Written(db, OfEvent(e, now));
            && EmitStage(db, e, Fetching, [], now) == (db, Going(Guarded))
            && EmitStage(db, e, Guarded, [], now) == (after, Going(Listing))
            && EmitStage(after, e, Listing, [], now) == (after, Returned(true))
            && after.tasks == db.tasks && Dead(after, s)
  {}

  lemma UnblockChecks(db: Db, t: TaskId, note: string, now: Time)
    requires t in db.tasks && db.tasks[t].state.Blocked? && AtStatus(db, db.tasks[t].specId, Running)
    ensures var s := db.tasks[t].specId;
            Play(Boot(db), [Spawn(Unblock(t, false)), Spawn(Fail(s, note))] + [Turn(0, now), Turn(0, now)])
            == Daemon(db, [], [], [], true, [SawLiveSpec(t, s, false), Ready(Fail(s, note))])
  {
    var s := db.tasks[t].specId;
    var spawn, check := [Spawn(Unblock(t, false)), Spawn(Fail(s, note))], [Turn(0, now), Turn(0, now)];
    PlayInParts(Boot(db), spawn, check);
    PlayTwo(Boot(db), spawn[0], spawn[1]);
    var d := Daemon(db, [], [], [], true, [Ready(Unblock(t, false)), Ready(Fail(s, note))]);
    assert Play(Boot(db), spawn) == d;
    PlayTwo(d, check[0], check[1]);
    hide EmitStage;
  }

  lemma FailRuns(d: Daemon, s: SpecId, note: string, now: Time)
    requires AtStatus(d.db, s, Running) && NoneActive(d.db, s)
    requires |d.procs| == 2 && d.procs[1] == Ready(Fail(s, note))
    ensures var after := Play(d, [Turn(1, now), Turn(1, now)] + [Turn(1, now), Turn(1, now)]);
            && Dead(after.db, s) && after.db.tasks == d.db.tasks
            && |after.procs| == 2 && after.procs[0] == d.procs[0]
  {
    var read, write := [Turn(1, now), Turn(1, now)], [Turn(1, now), Turn(1, now)];
    PlayInParts(d, read, write);
    PlayTwo(d, read[0], read[1]);
    FailStages(d.db, s, note, now);
    var d1 := d.(procs := d.procs[1 := NoticeOf(FailOf(s, note))]);
    assert Next(d, read[0]) == d1;
    hide EmitStage, Written, Next;
    StepGoes(d1, 1, now, d.db, Guarded);
    var d2 := d.(procs := d.procs[1 := InEmit(FailOf(s, note), Guarded, ForNotice)]);
    assert Play(d, read) == d2;
    PlayTwo(d2, write[0], write[1]);
    var after := Written(d.db, OfEvent(FailOf(s, note), now));
    StepGoes(d2, 1, now, after, Listing);
    StepReturns(Next(d2, write[0]), 1, now, after, true);
  }

  lemma UnblockFinishes(d: Daemon, t: TaskId, s: SpecId, now: Time)
    requires |d.procs| == 2 && d.procs[0] == SawLiveSpec(t, s, false)
    requires t in d.db.tasks && d.db.tasks[t].specId == s && d.db.tasks[t].state.Blocked? && Dead(d.db, s)
    ensures Revived(Play(d, [Turn(0, now), Turn(0, now), Turn(0, now)]), t)
  {
    PlayThree(d, Turn(0, now), Turn(0, now), Turn(0, now));
    StepResets(d, 0, now);
    UnblockAccepted(d.db, t, s, now);
    hide Next, Play, Emit;
    UnblockEmits(Next(d, Turn(0, now)), 0, t, s, now);
  }

  /** Between the check and the write a `fail` can run to its end; the unblock is then still accepted. */
  lemma UnblockCanReviveUnderDeadSpec(db: Db, t: TaskId, note: string, now: Time)
    requires t in db.tasks && db.tasks[t].state.Blocked?
    requires AtStatus(db, db.tasks[t].specId, Running) && NoneActive(db, db.tasks[t].specId)
    ensures exists actions :: Revived(Play(Boot(db), actions), t)
  {
    var s := db.tasks[t].specId;
    var check := [Spawn(Unblock(t, false)), Spawn(Fail(s, note))] + [Turn(0, now), Turn(0, now)];
    var fail := [Turn(1, now), Turn(1, now)] + [Turn(1, now), Turn(1, now)];
    var finish := [Turn(0, now), Turn(0, now), Turn(0, now)];
    UnblockChecks(db, t, note, now);
    var d1 := Play(Boot(db), check);
    FailRuns(d1, s, note, now);
    var d2 := Play(d1, fail);
    UnblockFinishes(d2, t, s, now);
    PlayInParts(d1, fail, finish);
    PlayInParts(Boot(db), check, fail + finish);
    hide Play, Revived;
    assert Revived(Play(Boot(db), check + (fail + finish)), t);
  }
}
