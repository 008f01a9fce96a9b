/**
 The command handlers of src/cli/daemon.rs as concurrent processes over one database, one event bus and one channel
 to the orchestrator. A step is one statement, one check in memory or one send; between any two steps of a handler,
 inside its emits included, any other handler and any other producer of events may take steps of its own.
 */
module Handlers {
  import opened Outcomes
  import opened Digraph
  import opened Schema
  import S = Statements
  import opened Bus
  import opened EmitSteps

  // ----- Programs -----

  /** `boi cancel <id>`: spec ids and task ids are told apart by their first letter. */
  datatype Target = SpecTarget(s: SpecId) | TaskTarget(t: TaskId) | NeitherTarget

  /** `Elsewhere` stands for every producer that emits without queueing: the orchestrator, a worker, the drain. */
  datatype Command =
    | Dispatch(s: SpecId)
    | Cancel(target: Target, note: string)
    | Unblock(t: TaskId, resetCounter: bool)
    | Fail(s: SpecId, note: string)
    | Forward(e: Event)
    | Elsewhere(e: Event)

  /** What an emit is for, and so what follows it. */
  datatype Purpose = ForDispatch | ForRefusal(s: SpecId, ticket: nat) | ForNotice | ForNobody

  /**
   Where a handler stands. A `ticket` is the place an accepted event has in the bus's log; it is bookkeeping that no
   step looks at.
   */
  datatype Proc =
    | Ready(cmd: Command)
    | InEmit(e: Event, stage: Stage, purpose: Purpose)
    | Preflighting(s: SpecId, ticket: nat)
    | SawBlocked(t: TaskId, s: SpecId, resetCounter: bool)
    | SawLiveSpec(t: TaskId, s: SpecId, resetCounter: bool)
    | Sending(e: Event, ticket: nat)
    | Answered(ok: bool)
    | RefusedDispatch(s: SpecId, ticket: nat)

  /** `log` lists what the bus accepted, `channel` what was ever queued, `tickets` which acceptance each stems from. */
  datatype Daemon = Daemon(
    db: Db, log: seq<Event>, channel: seq<Event>, tickets: seq<nat>, open: bool, procs: seq<Proc>)

  /** What a step takes from outside: the preflight's outcome, the order in which rows are listed, the clock. */
  datatype Outside = Outside(preflight: Option<string>, listed: seq<TaskId>, now: Time)

  datatype Action = Spawn(cmd: Command) | Advance(p: nat, outside: Outside) | CloseChannel

  // ----- Steps -----

  function Goto(d: Daemon, p: nat, next: Proc): Daemon
    requires p < |d.procs|
  {
    d.(procs := d.procs[p := next])
  }

  function NoticeOf(e: Event): Proc {
    InEmit(e, Fetching, ForNotice)
  }

  function AfterEmit(e: Event, purpose: Purpose, ok: bool, ticket: nat): Proc {
    match purpose
    case ForDispatch => if ok && e.SpecStarted? then Preflighting(e.spec, ticket) else Answered(false)
    case ForRefusal(s, started) => RefusedDispatch(s, started)
    case ForNotice => if ok then Sending(e, ticket) else Answered(false)
    case ForNobody => Answered(ok)
  }

  /** An emit returns: an accepted event is logged. */
  function Return(d: Daemon, p: nat, e: Event, purpose: Purpose, ok: bool): Daemon
    requires p < |d.procs|
  {
    Goto(if ok then d.(log := d.log + [e]) else d, p, AfterEmit(e, purpose, ok, |d.log|))
  }

  ghost function EmitStep(d: Daemon, p: nat, e: Event, stage: Stage, purpose: Purpose, outside: Outside): Daemon
    requires p < |d.procs|
  {
    var (db, progress) := EmitStage(d.db, e, stage, outside.listed, outside.now);
    match progress
    case Going(next) => Goto(d.(db := db), p, InEmit(e, next, purpose))
    case Returned(ok) => Return(d.(db := db), p, e, purpose, ok)
  }

  /** `daemon_tx.send` */
  function SendStep(d: Daemon, p: nat, e: Event, ticket: nat): Daemon
    requires p < |d.procs|
  {
    if d.open then Goto(d.(channel := d.channel + [e], tickets := d.tickets + [ticket]), p, Answered(true))
    else Goto(d, p, Answered(false))
  }

  /** What a cancel emits. A spec id that names no spec falls through to the task check, which it cannot pass. */
  function CancelEvent(db: Db, target: Target, note: string): Option<Event> {
    match target
    case SpecTarget(s) => if s in db.specs then Some(SpecCanceled(s, Operator(Some(note)))) else None
    case TaskTarget(t) =>
      if t in db.tasks then Some(TaskCanceled(db.tasks[t].specId, t, Operator(Some(note)))) else None
    case NeitherTarget => None
  }

  /** The first step of a handler: it looks up what the command names and knows what to emit. */
  function Opening(db: Db, cmd: Command): Proc {
    match cmd
    case Dispatch(s) => InEmit(SpecStarted(s), Fetching, ForDispatch)
    case Cancel(target, note) =>
      var e := CancelEvent(db, target, note);
      if e.Some? then NoticeOf(e.value) else Answered(false)
    case Unblock(t, resetCounter) =>
      if t in db.tasks && db.tasks[t].state.Blocked? then SawBlocked(t, db.tasks[t].specId, resetCounter)
      else Answered(false)
    case Fail(s, note) => NoticeOf(SpecFailed(s, OperatorMarkedFailed(Some(note))))
    case Forward(e) => NoticeOf(e)
    case Elsewhere(e) => InEmit(e, Fetching, ForNobody)
  }

  predicate LiveSpec(db: Db, s: SpecId) {
    s in db.specRuntime && !db.specRuntime[s].status.Terminal()
  }

  function ResetStep(d: Daemon, p: nat, t: TaskId, s: SpecId, resetCounter: bool): Daemon
    requires p < |d.procs|
  {
    if !resetCounter then Goto(d, p, NoticeOf(TaskUnblocked(s, t)))
    else
      var o := S.ResetIterations(d.db, t);
      Goto(d.(db := S.After(d.db, o)), p, if o.Done? then NoticeOf(TaskUnblocked(s, t)) else Answered(false))
  }

  ghost function AdvanceProc(d: Daemon, p: nat, outside: Outside): Daemon
    requires p < |d.procs|
  {
    match d.procs[p]
    case Ready(cmd) => Goto(d, p, Opening(d.db, cmd))
    case InEmit(e, stage, purpose) => EmitStep(d, p, e, stage, purpose, outside)
    case Preflighting(s, ticket) =>
      Goto(d, p, if outside.preflight.None? then Sending(SpecStarted(s), ticket)
                 else InEmit(SpecFailed(s, PreflightFailed(outside.preflight.value)), Fetching, ForRefusal(s, ticket)))
    case SawBlocked(t, s, resetCounter) =>
      Goto(d, p, if LiveSpec(d.db, s) then SawLiveSpec(t, s, resetCounter) else Answered(false))
    case SawLiveSpec(t, s, resetCounter) => ResetStep(d, p, t, s, resetCounter)
    case Sending(e, ticket) => SendStep(d, p, e, ticket)
    case Answered(_) => d
    case RefusedDispatch(_, _) => d
  }

  ghost function Next(d: Daemon, a: Action): Daemon {
    match a
    case Spawn(cmd) => d.(procs := d.procs + [Ready(cmd)])
    case Advance(p, outside) => if p < |d.procs| then AdvanceProc(d, p, outside) else d
    case CloseChannel => d.(open := false)
  }

  ghost function Play(d: Daemon, actions: seq<Action>): Daemon
    decreases |actions|
  {
    if actions == [] then d else Play(Next(d, actions[0]), actions[1..])
  }

  /** A daemon that has just come up: nothing accepted, nothing queued, no handler running. */
  function Boot(db: Db): Daemon {
    Daemon(db, [], [], [], true, [])
  }

  // ----- What holds under every interleaving -----

  /** The acceptance a handler still holds, and the event accepted. */
  function Held(proc: Proc): Option<(nat, Event)> {
    match proc
    case Preflighting(s, ticket) => Some((ticket, SpecStarted(s)))
    case InEmit(_, _, ForRefusal(s, ticket)) => Some((ticket, SpecStarted(s)))
    case RefusedDispatch(s, ticket) => Some((ticket, SpecStarted(s)))
    case Sending(e, ticket) => Some((ticket, e))
    case _ => None
  }

  ghost predicate InLog(log: seq<Event>, ticket: nat, e: Event) {
    ticket < |log| && log[ticket] == e
  }

  /** Everything queued was accepted before, and no acceptance was queued twice. */
  ghost predicate QueueFromLog(log: seq<Event>, channel: seq<Event>, tickets: seq<nat>) {
    && |tickets| == |channel|
    && Distinct(tickets)
    && forall i :: 0 <= i < |tickets| ==> InLog(log, tickets[i], channel[i])
  }

  /** What handlers hold is in the log, not queued yet, and held by one handler only. */
  ghost predicate HeldFromLog(log: seq<Event>, tickets: seq<nat>, procs: seq<Proc>) {
    && (forall p :: 0 <= p < |procs| && Held(procs[p]).Some? ==>
          InLog(log, Held(procs[p]).value.0, Held(procs[p]).value.1) && Held(procs[p]).value.0 !in tickets)
    && (forall p, q :: 0 <= p < q < |procs| && Held(procs[p]).Some? && Held(procs[q]).Some? ==>
          Held(procs[p]).value.0 != Held(procs[q]).value.0)
  }

  ghost predicate HasStarted(db: Db, s: SpecId) {
    s in db.specRuntime && !db.specRuntime[s].status.Queued?
  }

  ghost predicate LoggedHaveStarted(db: Db, log: seq<Event>) {
    forall i :: 0 <= i < |log| && log[i].SpecStarted? ==> HasStarted(db, log[i].spec)
  }

  /** The stages an emit can be at, given its event and purpose. */
  predicate WellPlaced(proc: Proc) {
    proc.InEmit? ==>
      && (!proc.stage.Fetching? ==> IsGuarded(proc.e))
      && (proc.stage.Listing? || proc.stage.Sweeping? || proc.stage.SweepGuarded? ==> Sweeps(proc.e))
      && (proc.purpose.ForRefusal? ==> proc.e.SpecFailed? && proc.e.spec == proc.purpose.s)
  }

  ghost predicate AllWellPlaced(procs: seq<Proc>) {
    forall p :: 0 <= p < |procs| ==> WellPlaced(procs[p])
  }

  ghost predicate Inv(d: Daemon) {
    && QueueFromLog(d.log, d.channel, d.tickets)
    && HeldFromLog(d.log, d.tickets, d.procs)
    && LoggedHaveStarted(d.db, d.log)
    && AllWellPlaced(d.procs)
  }

  /** No spec row disappears and none goes back to `queued`, whatever lands on it. */
  ghost predicate StartsRemain(before: Db, after: Db) {
    forall s :: HasStarted(before, s) ==> HasStarted(after, s)
  }

  lemma StageKeepsStarts(db: Db, e: Event, stage: Stage, listed: seq<TaskId>, now: Time)
    ensures StartsRemain(db, EmitStage(db, e, stage, listed, now).0)
  {
    hide EmitStage;
    forall s | HasStarted(db, s) ensures HasStarted(EmitStage(db, e, stage, listed, now).0, s) {
      StageStatus(db, e, stage, listed, now, s);
    }
  }

  lemma NewDbKeepsInv(d: Daemon, db: Db)
    requires Inv(d) && StartsRemain(d.db, db)
    ensures Inv(d.(db := db))
  {}

  /** A step to a place that holds nothing new. */
  lemma GotoKeepsInv(d: Daemon, p: nat, next: Proc)
    requires Inv(d) && p < |d.procs| && WellPlaced(next)
    requires Held(next).Some? ==> Held(next) == Held(d.procs[p])
    ensures Inv(Goto(d, p, next))
  {}

  /** A step to a place that holds the acceptance just logged. */
  lemma TakingTicketKeepsInv(before: Daemon, d: Daemon, p: nat, next: Proc, e: Event)
    requires Inv(before) && Inv(d) && p < |d.procs| && WellPlaced(next)
    requires d.procs == before.procs && d.tickets == before.tickets && d.log == before.log + [e]
    requires Held(next) == Some((|before.log|, e))
    ensures Inv(Goto(d, p, next))
  {}

  lemma LoggingKeepsInv(d: Daemon, e: Event)
    requires Inv(d) && (e.SpecStarted? ==> HasStarted(d.db, e.spec))
    ensures Inv(d.(log := d.log + [e]))
  {}

  lemma ReturnKeepsInv(d: Daemon, p: nat, e: Event, stage: Stage, purpose: Purpose, ok: bool)
    requires Inv(d) && p < |d.procs| && d.procs[p] == InEmit(e, stage, purpose)
    requires ok && e.SpecStarted? ==> HasStarted(d.db, e.spec)
    ensures Inv(Return(d, p, e, purpose, ok))
  {
    var next := AfterEmit(e, purpose, ok, |d.log|);
    if ok {
      LoggingKeepsInv(d, e);
      var logged := d.(log := d.log + [e]);
      hide Inv;
      if Held(next) == Some((|d.log|, e)) {
        TakingTicketKeepsInv(d, logged, p, next, e);
      } else {
        GotoKeepsInv(logged, p, next);
      }
    } else {
      hide Inv;
      GotoKeepsInv(d, p, next);
    }
  }

  lemma AcceptedStartHasStarted(db: Db, s: SpecId, stage: Stage, listed: seq<TaskId>, now: Time)
    requires stage.Fetching? || stage.Guarded?
    requires EmitStage(db, SpecStarted(s), stage, listed, now).1 == Returned(true)
    ensures HasStarted(EmitStage(db, SpecStarted(s), stage, listed, now).0, s)
  {
    StartReturnsAtItsWrite(db, s, stage, listed, now);
    StageStatus(db, SpecStarted(s), stage, listed, now, s);
    hide EmitStage;
  }

  lemma StagesFollow(db: Db, e: Event, stage: Stage, purpose: Purpose, listed: seq<TaskId>, now: Time)
    requires WellPlaced(InEmit(e, stage, purpose))
    ensures var progress := EmitStage(db, e, stage, listed, now).1;
            progress.Going? ==> WellPlaced(InEmit(e, progress.stage, purpose))
  {
    hide Written, Sent, GuardHolds, ListsActive;
  }

  lemma EmitStepKeepsInv(d: Daemon, p: nat, e: Event, stage: Stage, purpose: Purpose, outside: Outside)
    requires Inv(d) && p < |d.procs| && d.procs[p] == InEmit(e, stage, purpose)
    ensures Inv(EmitStep(d, p, e, stage, purpose, outside))
  {
    var (db, progress) := EmitStage(d.db, e, stage, outside.listed, outside.now);
    assert WellPlaced(d.procs[p]);
    StageKeepsStarts(d.db, e, stage, outside.listed, outside.now);
    StagesFollow(d.db, e, stage, purpose, outside.listed, outside.now);
    NewDbKeepsInv(d, db);
    if progress == Returned(true) && e.SpecStarted? {
      AcceptedStartHasStarted(d.db, e.spec, stage, outside.listed, outside.now);
    }
    hide EmitStage, Inv;
    match progress
    case Going(next) => GotoKeepsInv(d.(db := db), p, InEmit(e, next, purpose));
    case Returned(ok) => ReturnKeepsInv(d.(db := db), p, e, stage, purpose, ok);
  }

  lemma SendKeepsInv(d: Daemon, p: nat, e: Event, ticket: nat)
    requires Inv(d) && p < |d.procs| && d.procs[p] == Sending(e, ticket)
    ensures Inv(SendStep(d, p, e, ticket))
  {
    assert Held(d.procs[p]) == Some((ticket, e));
  }

  lemma ResetKeepsInv(d: Daemon, p: nat, t: TaskId, s: SpecId, resetCounter: bool)
    requires Inv(d) && p < |d.procs|
    ensures Inv(ResetStep(d, p, t, s, resetCounter))
  {
    var reset := d.(db := S.After(d.db, S.ResetIterations(d.db, t)));
    assert reset.db.specRuntime == d.db.specRuntime;
    NewDbKeepsInv(d, reset.db);
    hide Inv, S.ResetIterations;
    var emitting := NoticeOf(TaskUnblocked(s, t));
    GotoKeepsInv(d, p, emitting);
    GotoKeepsInv(reset, p, emitting);
    GotoKeepsInv(reset, p, Answered(false));
  }

  lemma OpeningKeepsInv(d: Daemon, p: nat, cmd: Command)
    requires Inv(d) && p < |d.procs|
    ensures Inv(Goto(d, p, Opening(d.db, cmd)))
  {
    hide Inv;
    GotoKeepsInv(d, p, Opening(d.db, cmd));
  }

  lemma AdvanceKeepsInv(d: Daemon, p: nat, outside: Outside)
    requires Inv(d) && p < |d.procs|
    ensures Inv(AdvanceProc(d, p, outside))
  {
    hide Inv, EmitStep, SendStep, ResetStep, Goto, Opening;
    match d.procs[p]
    case Ready(cmd) => OpeningKeepsInv(d, p, cmd);
    case InEmit(e, stage, purpose) => EmitStepKeepsInv(d, p, e, stage, purpose, outside);
    case Preflighting(s, ticket) =>
      GotoKeepsInv(d, p, Sending(SpecStarted(s), ticket));
      if outside.preflight.Some? {
        GotoKeepsInv(d, p, InEmit(SpecFailed(s, PreflightFailed(outside.preflight.value)), Fetching, ForRefusal(s, ticket)));
      }
    case SawBlocked(t, s, resetCounter) =>
      GotoKeepsInv(d, p, SawLiveSpec(t, s, resetCounter));
      GotoKeepsInv(d, p, Answered(false));
    case SawLiveSpec(t, s, resetCounter) => ResetKeepsInv(d, p, t, s, resetCounter);
    case Sending(e, ticket) => SendKeepsInv(d, p, e, ticket);
    case Answered(_) =>
    case RefusedDispatch(_, _) =>
  }

  lemma NextKeepsInv(d: Daemon, a: Action)
    requires Inv(d)
    ensures Inv(Next(d, a))
  {
    match a
    case Spawn(cmd) =>
    case Advance(p, outside) =>
      hide Inv, AdvanceProc;
      if p < |d.procs| {
        AdvanceKeepsInv(d, p, outside);
      }
    case CloseChannel =>
  }

  lemma {:induction false} PlayKeepsInv(d: Daemon, actions: seq<Action>)
    requires Inv(d)
    ensures Inv(Play(d, actions))
    decreases |actions|
  {
    hide Inv, Next;
    if actions != [] {
      NextKeepsInv(d, actions[0]);
      PlayKeepsInv(Next(d, actions[0]), actions[1..]);
    }
  }

  /** However the steps interleave, the channel holds only accepted events, each acceptance at most once. */
  lemma QueuedWasAccepted(db: Db, actions: seq<Action>)
    ensures var d := Play(Boot(db), actions);
            && |d.tickets| == |d.channel| && Distinct(d.tickets)
            && forall i :: 0 <= i < |d.channel| ==> InLog(d.log, d.tickets[i], d.channel[i])
  {
    hide Play;
    PlayKeepsInv(Boot(db), actions);
  }
}
