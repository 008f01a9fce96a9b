/**
 A handler that nobody interrupts. Its steps in `Handlers` then add up to what the methods of `CommandHandler` promise
 and what `Lifecycle.Unblock` computes, as the statements of an emit add up to the emit.
 */
module HandlerAlone {
  import opened Outcomes
  import opened Schema
  import S = Statements
  import opened Bus
  import opened EmitSteps
  import opened Handlers
  import Lifecycle

  /** The handler takes `n` steps in a row. */
  function Turns(p: nat, outside: Outside, n: nat): seq<Action> {
    if n == 0 then [] else [Advance(p, outside)] + Turns(p, outside, n - 1)
  }

  ghost function After(d: Daemon, p: nat, outside: Outside, n: nat): Daemon {
    Play(d, Turns(p, outside, n))
  }

  lemma OneTurn(d: Daemon, p: nat, outside: Outside, n: nat)
    ensures After(d, p, outside, n + 1) == After(Next(d, Advance(p, outside)), p, outside, n)
    ensures After(d, p, outside, 0) == d
  {
    hide Next;
    assert Turns(p, outside, n + 1)[1..] == Turns(p, outside, n);
  }

  /** The handler comes to stand at `end` by its own steps. */
  ghost predicate Leads(d: Daemon, p: nat, outside: Outside, end: Daemon) {
    exists n :: After(d, p, outside, n) == end
  }

  lemma LeadsOn(d: Daemon, p: nat, outside: Outside, end: Daemon)
    requires Leads(Next(d, Advance(p, outside)), p, outside, end)
    ensures Leads(d, p, outside, end)
  {
    var n :| After(Next(d, Advance(p, outside)), p, outside, n) == end;
    OneTurn(d, p, outside, n);
    hide Next, After;
  }

  lemma LeadsNowhere(d: Daemon, p: nat, outside: Outside)
    ensures Leads(d, p, outside, d)
  {
    OneTurn(d, p, outside, 0);
    hide After;
  }

  lemma {:induction false} LeadsThrough(d: Daemon, p: nat, outside: Outside, n: nat, mid: Daemon, end: Daemon)
    requires After(d, p, outside, n) == mid && Leads(mid, p, outside, end)
    ensures Leads(d, p, outside, end)
    decreases n
  {
    OneTurn(d, p, outside, if n == 0 then 0 else n - 1);
    hide Next, After, Leads;
    if n > 0 {
      LeadsThrough(Next(d, Advance(p, outside)), p, outside, n - 1, mid, end);
      LeadsOn(d, p, outside, end);
    }
  }

  lemma LeadsTransitive(d: Daemon, p: nat, outside: Outside, mid: Daemon, end: Daemon)
    requires Leads(d, p, outside, mid) && Leads(mid, p, outside, end)
    ensures Leads(d, p, outside, end)
  {
    var n :| After(d, p, outside, n) == mid;
    LeadsThrough(d, p, outside, n, mid, end);
  }

  // ----- Its emits -----

  lemma EmitTurn(d: Daemon, p: nat, outside: Outside)
    requires p < |d.procs| && d.procs[p].InEmit?
    ensures Next(d, Advance(p, outside)) == EmitStep(d, p, d.procs[p].e, d.procs[p].stage, d.procs[p].purpose, outside)
  {
    hide EmitStage;
  }

  lemma {:induction false} StagesLead(d: Daemon, p: nat, e: Event, stage: Stage, purpose: Purpose, outside: Outside,
                                     fuel: nat, db: Db, ok: bool)
    requires p < |d.procs| && d.procs[p] == InEmit(e, stage, purpose)
    requires Alone(d.db, e, stage, outside.listed, outside.now, fuel) == (db, Returned(ok))
    ensures Leads(d, p, outside, Return(d.(db := db), p, e, purpose, ok))
    decreases fuel
  {
    EmitTurn(d, p, outside);
    var (between, progress) := EmitStage(d.db, e, stage, outside.listed, outside.now);
    var next := Next(d, Advance(p, outside));
    var end := Return(d.(db := db), p, e, purpose, ok);
    hide EmitStage, Next, Leads;
    if progress.Going? {
      assert next == Goto(d.(db := between), p, InEmit(e, progress.stage, purpose));
      StagesLead(next, p, e, progress.stage, purpose, outside, fuel - 1, db, ok);
      assert Return(next.(db := db), p, e, purpose, ok) == end;
    } else {
      assert next == end;
      LeadsNowhere(next, p, outside);
    }
    LeadsOn(d, p, outside, end);
  }

  /** The tasks are listed as the database then has them. */
  ghost predicate ListedRight(db: Db, e: Event, outside: Outside) {
    Sweeps(e) ==> ListsActive(Written(db, OfEvent(e, outside.now)), e.spec, outside.listed)
  }

  /** An emit that a handler runs by itself has the effect of the whole emit, or none. */
  lemma EmitLeads(d: Daemon, p: nat, e: Event, purpose: Purpose, outside: Outside)
    requires p < |d.procs| && d.procs[p] == InEmit(e, Fetching, purpose) && ListedRight(d.db, e, outside)
    ensures var o := Emit(d.db, e, outside.now);
            Leads(d, p, outside, Return(d.(db := Emitted(d.db, o)), p, e, purpose, o.Accepted?))
  {
    var fuel := 2 * |outside.listed| + 3;
    AloneIsEmit(d.db, e, outside.listed, outside.now, fuel);
    var o := Emit(d.db, e, outside.now);
    hide Emit, Leads;
    StagesLead(d, p, e, Fetching, purpose, outside, fuel, Emitted(d.db, o), o.Accepted?);
  }

  // ----- Whole handlers -----

  /** What `CommandHandler.DaemonState.EmitAndNotify` promises, as a state of the machine. */
  function Notified(d: Daemon, p: nat, e: Event, now: Time): Daemon
    requires p < |d.procs|
  {
    var o := Emit(d.db, e, now);
    var sent := o.Accepted? && d.open;
    d.(db := Emitted(d.db, o),
       log := d.log + (if o.Accepted? then [e] else []),
       channel := if sent then d.channel + [e] else d.channel,
       tickets := d.tickets + (if sent then [|d.log|] else []),
       procs := d.procs[p := Answered(sent)])
  }

  lemma SendLeads(d: Daemon, p: nat, outside: Outside)
    requires p < |d.procs| && d.procs[p].Sending?
    ensures Leads(d, p, outside, SendStep(d, p, d.procs[p].e, d.procs[p].ticket))
  {
    var end := SendStep(d, p, d.procs[p].e, d.procs[p].ticket);
    assert Next(d, Advance(p, outside)) == end;
    hide Next, Leads;
    LeadsNowhere(end, p, outside);
    LeadsOn(d, p, outside, end);
  }

  /** `emit_and_notify` alone: emitted, and queued if accepted on an open channel. Cancel, fail and forward end in it. */
  lemma NotifyAlone(d: Daemon, p: nat, e: Event, outside: Outside)
    requires p < |d.procs| && d.procs[p] == NoticeOf(e) && ListedRight(d.db, e, outside)
    ensures Leads(d, p, outside, Notified(d, p, e, outside.now))
  {
    var o := Emit(d.db, e, outside.now);
    EmitLeads(d, p, e, ForNotice, outside);
    hide Emit, Leads;
    var emitted := Return(d.(db := Emitted(d.db, o)), p, e, ForNotice, o.Accepted?);
    if o.Accepted? {
      SendLeads(emitted, p, outside);
      assert SendStep(emitted, p, e, |d.log|) == Notified(d, p, e, outside.now);
      LeadsTransitive(d, p, outside, emitted, Notified(d, p, e, outside.now));
    } else {
      assert emitted == Notified(d, p, e, outside.now);
    }
  }

  lemma OpeningLeads(d: Daemon, p: nat, outside: Outside, end: Daemon)
    requires p < |d.procs| && d.procs[p].Ready?
    requires Leads(Goto(d, p, Opening(d.db, d.procs[p].cmd)), p, outside, end)
    ensures Leads(d, p, outside, end)
  {
    assert Next(d, Advance(p, outside)) == Goto(d, p, Opening(d.db, d.procs[p].cmd));
    hide Next, Leads, Opening;
    LeadsOn(d, p, outside, end);
  }

  /** `handle_fail` alone is `CommandHandler.DaemonState.HandleFail`. */
  lemma FailAlone(d: Daemon, p: nat, s: SpecId, note: string, outside: Outside)
    requires p < |d.procs| && d.procs[p] == Ready(Fail(s, note))
    requires ListedRight(d.db, SpecFailed(s, OperatorMarkedFailed(Some(note))), outside)
    ensures Leads(d, p, outside, Notified(d, p, SpecFailed(s, OperatorMarkedFailed(Some(note))), outside.now))
  {
    var e := SpecFailed(s, OperatorMarkedFailed(Some(note)));
    hide Leads, Emit;
    NotifyAlone(Goto(d, p, NoticeOf(e)), p, e, outside);
    assert Notified(Goto(d, p, NoticeOf(e)), p, e, outside.now) == Notified(d, p, e, outside.now);
    OpeningLeads(d, p, outside, Notified(d, p, e, outside.now));
  }

  /** What `handle_cancel` leaves. */
  function Canceled(d: Daemon, p: nat, target: Target, note: string, now: Time): Daemon
    requires p < |d.procs|
  {
    match CancelEvent(d.db, target, note)
    case None => Goto(d, p, Answered(false))
    case Some(e) => Notified(d, p, e, now)
  }

  /** `handle_cancel` alone is `CommandHandler.DaemonState.HandleCancel`. */
  lemma CancelAlone(d: Daemon, p: nat, target: Target, note: string, outside: Outside)
    requires p < |d.procs| && d.procs[p] == Ready(Cancel(target, note))
    requires CancelEvent(d.db, target, note).Some? ==>
               ListedRight(d.db, CancelEvent(d.db, target, note).value, outside)
    ensures Leads(d, p, outside, Canceled(d, p, target, note, outside.now))
  {
    var end := Canceled(d, p, target, note, outside.now);
    hide Leads, Emit;
    match CancelEvent(d.db, target, note) {
      case None =>
        LeadsNowhere(end, p, outside);
      case Some(e) =>
        NotifyAlone(Goto(d, p, NoticeOf(e)), p, e, outside);
        assert Notified(Goto(d, p, NoticeOf(e)), p, e, outside.now) == end;
    }
    OpeningLeads(d, p, outside, end);
  }

  /** The forwarding of an event alone: `emit_and_notify`, of the event it was given. */
  lemma ForwardAlone(d: Daemon, p: nat, e: Event, outside: Outside)
    requires p < |d.procs| && d.procs[p] == Ready(Forward(e)) && ListedRight(d.db, e, outside)
    ensures Leads(d, p, outside, Notified(d, p, e, outside.now))
  {
    hide Leads, Emit;
    NotifyAlone(Goto(d, p, NoticeOf(e)), p, e, outside);
    assert Notified(Goto(d, p, NoticeOf(e)), p, e, outside.now) == Notified(d, p, e, outside.now);
    OpeningLeads(d, p, outside, Notified(d, p, e, outside.now));
  }

  /** What `handle_unblock` leaves, by its answer. */
  function Unblocked(d: Daemon, p: nat, t: TaskId, resetCounter: bool, now: Time): Daemon
    requires p < |d.procs|
  {
    var answer := Lifecycle.Unblock(d.db, t, resetCounter, now);
    if !answer.Done? then Goto(d, p, Answered(false))
    else
      var e := TaskUnblocked(d.db.tasks[t].specId, t);
      d.(db := answer.db,
         log := d.log + [e],
         channel := if d.open then d.channel + [e] else d.channel,
         tickets := d.tickets + (if d.open then [|d.log|] else []),
         procs := d.procs[p := Answered(d.open)])
  }

  lemma TurnLeads(d: Daemon, p: nat, outside: Outside, next: Daemon, end: Daemon)
    requires Next(d, Advance(p, outside)) == next && Leads(next, p, outside, end)
    ensures Leads(d, p, outside, end)
  {
    hide Next, Leads;
    LeadsOn(d, p, outside, end);
  }

  lemma UnblockNotifies(d: Daemon, p: nat, t: TaskId, resetCounter: bool, now: Time)
    requires p < |d.procs| && t in d.db.tasks && d.db.tasks[t].state.Blocked?
    requires LiveSpec(d.db, d.db.tasks[t].specId)
    ensures var s := d.db.tasks[t].specId;
            var reset := ResetStep(d, p, t, s, resetCounter);
            && p < |reset.procs| && reset.procs[p] == NoticeOf(TaskUnblocked(s, t))
            && Notified(reset, p, TaskUnblocked(s, t), now) == Unblocked(d, p, t, resetCounter, now)
  {}

  /** After both checks: the counter, the emit, the channel. */
  lemma UnblockLiveLeads(d: Daemon, p: nat, t: TaskId, s: SpecId, resetCounter: bool, outside: Outside)
    requires p < |d.procs| && d.procs[p] == SawLiveSpec(t, s, resetCounter)
    requires t in d.db.tasks && d.db.tasks[t].state.Blocked? && d.db.tasks[t].specId == s && LiveSpec(d.db, s)
    ensures Leads(d, p, outside, Unblocked(d, p, t, resetCounter, outside.now))
  {
    var reset := ResetStep(d, p, t, s, resetCounter);
    assert Next(d, Advance(p, outside)) == reset;
    UnblockNotifies(d, p, t, resetCounter, outside.now);
    hide Next, Leads, Emit, ResetStep, Unblocked;
    NotifyAlone(reset, p, TaskUnblocked(s, t), outside);
    TurnLeads(d, p, outside, reset, Unblocked(d, p, t, resetCounter, outside.now));
  }

  /** After the first check: the spec is looked up. */
  lemma UnblockBlockedLeads(d: Daemon, p: nat, t: TaskId, s: SpecId, resetCounter: bool, outside: Outside)
    requires p < |d.procs| && d.procs[p] == SawBlocked(t, s, resetCounter)
    requires t in d.db.tasks && d.db.tasks[t].state.Blocked? && d.db.tasks[t].specId == s
    ensures Leads(d, p, outside, Unblocked(d, p, t, resetCounter, outside.now))
  {
    var end := Unblocked(d, p, t, resetCounter, outside.now);
    if LiveSpec(d.db, s) {
      var live := Goto(d, p, SawLiveSpec(t, s, resetCounter));
      assert Next(d, Advance(p, outside)) == live;
      assert Unblocked(live, p, t, resetCounter, outside.now) == end;
      hide Next, Leads, Unblocked;
      UnblockLiveLeads(live, p, t, s, resetCounter, outside);
      TurnLeads(d, p, outside, live, end);
    } else {
      assert Next(d, Advance(p, outside)) == end;
      hide Next, Leads;
      LeadsNowhere(end, p, outside);
      TurnLeads(d, p, outside, end, end);
    }
  }

  /** `handle_unblock` alone does what `Lifecycle.Unblock` computes. */
  lemma UnblockAlone(d: Daemon, p: nat, t: TaskId, resetCounter: bool, outside: Outside)
    requires p < |d.procs| && d.procs[p] == Ready(Unblock(t, resetCounter))
    ensures Leads(d, p, outside, Unblocked(d, p, t, resetCounter, outside.now))
  {
    var end := Unblocked(d, p, t, resetCounter, outside.now);
    var opening := Goto(d, p, Opening(d.db, Unblock(t, resetCounter)));
    if t in d.db.tasks && d.db.tasks[t].state.Blocked? {
      assert Unblocked(opening, p, t, resetCounter, outside.now) == end;
      hide Leads, Unblocked;
      UnblockBlockedLeads(opening, p, t, d.db.tasks[t].specId, resetCounter, outside);
    } else {
      assert opening == end;
      hide Leads;
      LeadsNowhere(end, p, outside);
    }
    OpeningLeads(d, p, outside, end);
  }

  /** What `handle_dispatch` leaves if nothing happens during its preflight. */
  function DispatchedAlone(d: Daemon, p: nat, s: SpecId, outside: Outside): Daemon
    requires p < |d.procs|
  {
    var start := SpecStarted(s);
    var o := Emit(d.db, start, outside.now);
    if o.Rejected? then Goto(d, p, Answered(false))
    else if outside.preflight.None? then
      d.(db := o.db, log := d.log + [start], channel := if d.open then d.channel + [start] else d.channel,
         tickets := d.tickets + (if d.open then [|d.log|] else []), procs := d.procs[p := Answered(d.open)])
    else
      var failed := SpecFailed(s, PreflightFailed(outside.preflight.value));
      var refused := Emit(o.db, failed, outside.now);
      d.(db := Emitted(o.db, refused), log := d.log + [start] + (if refused.Accepted? then [failed] else []),
         procs := d.procs[p := RefusedDispatch(s, |d.log|)])
  }

  lemma RefusalLeads(d: Daemon, p: nat, s: SpecId, ticket: nat, why: string, outside: Outside)
    requires p < |d.procs| && d.procs[p] == Preflighting(s, ticket) && outside.preflight == Some(why)
    requires ListedRight(d.db, SpecFailed(s, PreflightFailed(why)), outside)
    ensures var failed := SpecFailed(s, PreflightFailed(why));
            var o := Emit(d.db, failed, outside.now);
            Leads(d, p, outside, Return(d.(db := Emitted(d.db, o)), p, failed, ForRefusal(s, ticket), o.Accepted?))
  {
    var failed := SpecFailed(s, PreflightFailed(why));
    var emitting := Goto(d, p, InEmit(failed, Fetching, ForRefusal(s, ticket)));
    var o := Emit(d.db, failed, outside.now);
    var end := Return(d.(db := Emitted(d.db, o)), p, failed, ForRefusal(s, ticket), o.Accepted?);
    assert Next(d, Advance(p, outside)) == emitting;
    EmitLeads(emitting, p, failed, ForRefusal(s, ticket), outside);
    hide Next, Leads, Emit;
    assert Return(emitting.(db := Emitted(d.db, o)), p, failed, ForRefusal(s, ticket), o.Accepted?) == end;
    TurnLeads(d, p, outside, emitting, end);
  }

  lemma PassLeads(d: Daemon, p: nat, s: SpecId, ticket: nat, outside: Outside)
    requires p < |d.procs| && d.procs[p] == Preflighting(s, ticket) && outside.preflight.None?
    ensures Leads(d, p, outside, SendStep(d, p, SpecStarted(s), ticket))
  {
    var sending := Goto(d, p, Sending(SpecStarted(s), ticket));
    var end := SendStep(d, p, SpecStarted(s), ticket);
    assert Next(d, Advance(p, outside)) == sending;
    hide Next, Leads;
    SendLeads(sending, p, outside);
    assert SendStep(sending, p, SpecStarted(s), ticket) == end;
    TurnLeads(d, p, outside, sending, end);
  }

  /** `handle_dispatch` alone is `CommandHandler.DaemonState.HandleDispatch` with nothing in between. */
  lemma DispatchAlone(d: Daemon, p: nat, s: SpecId, outside: Outside)
    requires p < |d.procs| && d.procs[p] == Ready(Dispatch(s))
    requires var o := Emit(d.db, SpecStarted(s), outside.now);
             o.Accepted? && outside.preflight.Some? ==>
               ListedRight(o.db, SpecFailed(s, PreflightFailed(outside.preflight.value)), outside)
    ensures Leads(d, p, outside, DispatchedAlone(d, p, s, outside))
  {
    var start := SpecStarted(s);
    var o := Emit(d.db, start, outside.now);
    var end := DispatchedAlone(d, p, s, outside);
    var emitting := Goto(d, p, InEmit(start, Fetching, ForDispatch));
    EmitLeads(emitting, p, start, ForDispatch, outside);
    hide Emit, Leads;
    var started := Return(emitting.(db := Emitted(d.db, o)), p, start, ForDispatch, o.Accepted?);
    if o.Rejected? {
      assert started == end;
    } else {
      if outside.preflight.None? {
        PassLeads(started, p, s, |d.log|, outside);
        assert SendStep(started, p, start, |d.log|) == end;
      } else {
        var why := outside.preflight.value;
        RefusalLeads(started, p, s, |d.log|, why, outside);
        var failed := SpecFailed(s, PreflightFailed(why));
        var refused := Emit(o.db, failed, outside.now);
        assert Return(started.(db := Emitted(o.db, refused)), p, failed, ForRefusal(s, |d.log|), refused.Accepted?) == end;
      }
      LeadsTransitive(emitting, p, outside, started, end);
    }
    OpeningLeads(d, p, outside, end);
  }
}
