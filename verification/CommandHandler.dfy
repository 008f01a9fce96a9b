/**
 The handlers of src/cli/daemon.rs on the live store and channel, one command at a time. Only a dispatch lets others in
 here, while its preflight runs; `Handlers` and the modules about it interleave every statement of every handler, and
 `HandlerAlone` leads an uninterrupted one to the store, channel and answer these methods promise.
 */
module CommandHandler {
  import opened Outcomes
  import opened Schema
  import opened Repo
  import opened Bus
  import opened Handlers
  import opened HandlerAlone
  import Lifecycle

  class DaemonState {
    const store: Store
    var channel: seq<Event>
    var open: bool

    constructor (store: Store)
      ensures this.store == store && channel == [] && open
    {
      this.store := store;
      channel, open := [], true;
    }

    /** The machine of `Handlers` has this store and channel. */
    ghost predicate Mirrors(d: Daemon)
      reads this, store
    {
      d.db == store.Contents() && d.channel == channel && d.open == open
    }

    /** An event reaches the channel only after the bus has accepted it. */
    method EmitAndNotify(e: Event, now: Time) returns (ok: bool)
      modifies this, store
      ensures store.Contents() == Emitted(old(store.Contents()), Emit(old(store.Contents()), e, now))
      ensures ok <==> Emit(old(store.Contents()), e, now).Accepted? && open
      ensures channel == old(channel) + (if ok then [e] else []) && open == old(open)
      ensures forall d: Daemon, p: nat :: old(Mirrors(d)) && p < |d.procs| ==>
                Mirrors(Notified(d, p, e, now)) && Notified(d, p, e, now).procs[p] == Answered(ok)
    {
      hide Emit;
      var reply := EmitEvent(store, e, now);
      if reply.Err? || !open { return false; }
      channel := channel + [e];
      ok := true;
    }

    /**
     `preflight` is what the preflights come to, `meanwhile` the statements of others that land while they run. If a
     preflight fails nothing is queued and the spec ends up terminal, whatever landed meanwhile.
     */
    method HandleDispatch(s: SpecId, preflight: Option<string>, meanwhile: seq<Statement>, now: Time)
      returns (ok: bool)
      modifies this, store
      ensures open == old(open)
      ensures channel == old(channel) + if ok then [SpecStarted(s)] else []
      ensures ok <==> Emit(old(store.Contents()), SpecStarted(s), now).Accepted? && preflight.None? && open
      ensures Emit(old(store.Contents()), SpecStarted(s), now).Rejected? ==> store.Contents() == old(store.Contents())
      ensures var started := Emit(old(store.Contents()), SpecStarted(s), now);
              started.Accepted? && preflight.None? ==> store.Contents() == WrittenAll(started.db, meanwhile)
      ensures var started := Emit(old(store.Contents()), SpecStarted(s), now);
              started.Accepted? && preflight.Some? ==>
                var during := WrittenAll(started.db, meanwhile);
                var failed := SpecFailed(s, PreflightFailed(preflight.value));
                && store.Contents() == Emitted(during, Emit(during, failed, now))
                && s in store.specRuntime && store.specRuntime[s].status.Terminal()
      ensures meanwhile == [] ==>
                forall d: Daemon, p: nat, listed :: old(Mirrors(d)) && p < |d.procs| ==>
                  var alone := DispatchedAlone(d, p, s, Outside(preflight, listed, now));
                  Mirrors(alone) && (ok <==> alone.procs[p] == Answered(true))
    {
      AcceptedStart(store.Contents(), s, now);
      hide Emit;
      var started := EmitEvent(store, SpecStarted(s), now);
      if started.Err? { return false; }
      StartedStaysStarted(store.Contents(), meanwhile, s);
      hide WrittenAll;
      SendStatements(store, meanwhile);
      match preflight {
        case Some(why) =>
          RefusalEndsSpec(store.Contents(), s, why, now);
          var failed := EmitEvent(store, SpecFailed(s, PreflightFailed(why)), now);
          return false;
        case None =>
      }
      if !open { return false; }
      channel := channel + [SpecStarted(s)];
      ok := true;
    }

    /** A spec id that names no spec falls through to the task check, which it cannot pass. */
    method HandleCancel(target: Target, note: string, now: Time) returns (ok: bool)
      modifies this, store
      ensures open == old(open)
      ensures var e := CancelEvent(old(store.Contents()), target, note);
              if e.None? then !ok && channel == old(channel) && store.Contents() == old(store.Contents())
              else
                var o := Emit(old(store.Contents()), e.value, now);
                && store.Contents() == Emitted(old(store.Contents()), o)
                && (ok <==> o.Accepted? && open)
                && channel == old(channel) + if ok then [e.value] else []
      ensures forall d: Daemon, p: nat :: old(Mirrors(d)) && p < |d.procs| ==>
                var alone := Canceled(d, p, target, note, now);
                Mirrors(alone) && alone.procs[p] == Answered(ok)
    {
      hide Emit;
      match target
      case SpecTarget(s) =>
        if s !in store.specs { return false; }
        ok := EmitAndNotify(SpecCanceled(s, Operator(Some(note))), now);
      case TaskTarget(t) =>
        if t !in store.tasks { return false; }
        ok := EmitAndNotify(TaskCanceled(store.tasks[t].specId, t, Operator(Some(note))), now);
      case NeitherTarget => return false;
    }

    method HandleFail(s: SpecId, note: string, now: Time) returns (ok: bool)
      modifies this, store
      ensures var e := SpecFailed(s, OperatorMarkedFailed(Some(note)));
              var o := Emit(old(store.Contents()), e, now);
              && open == old(open)
              && store.Contents() == Emitted(old(store.Contents()), o)
              && (ok <==> o.Accepted? && open)
              && channel == old(channel) + (if ok then [e] else [])
              && forall d: Daemon, p: nat :: old(Mirrors(d)) && p < |d.procs| ==>
                   Mirrors(Notified(d, p, e, now)) && Notified(d, p, e, now).procs[p] == Answered(ok)
    {
      hide Emit;
      ok := EmitAndNotify(SpecFailed(s, OperatorMarkedFailed(Some(note))), now);
    }

    /**
     The checks in the order the operator hears about them; a refused unblock changes nothing. The operator hears `ok`
     only if the event was queued as well: on a closed channel the task is unblocked and the answer is an error.
     */
    method HandleUnblock(t: TaskId, resetCounter: bool, now: Time) returns (answer: Lifecycle.Answer, ok: bool)
      modifies this, store
      ensures open == old(open)
      ensures answer == Lifecycle.Unblock(old(store.Contents()), t, resetCounter, now)
      ensures store.Contents() == if answer.Done? then answer.db else old(store.Contents())
      ensures ok <==> answer.Done? && open
      ensures channel == old(channel) + if ok then [TaskUnblocked(old(store.tasks)[t].specId, t)] else []
      ensures forall d: Daemon, p: nat :: old(Mirrors(d)) && p < |d.procs| ==>
                var alone := Unblocked(d, p, t, resetCounter, now);
                Mirrors(alone) && alone.procs[p] == Answered(ok)
    {
      UnblockIsNeverRejected(store.Contents(), t, resetCounter, now);
      hide Emit;
      if t !in store.tasks { return Lifecycle.NoSuchTask, false; }
      var task := store.tasks[t];
      if !task.state.Blocked? { return Lifecycle.NotBlocked(task.state), false; }
      if task.specId !in store.specRuntime { return Lifecycle.NoSpecRow, false; }
      if store.specRuntime[task.specId].status.Terminal() { return Lifecycle.SpecIsTerminal, false; }
      if resetCounter {
        var reset := store.ResetIterations(t);
      }
      ok := EmitAndNotify(TaskUnblocked(task.specId, t), now);
      answer := Lifecycle.Answer.Done(store.Contents());
    }
  }

  lemma AcceptedStart(db: Db, s: SpecId, now: Time)
    ensures Emit(db, SpecStarted(s), now).Accepted? ==>
              !HasStarted(db, s) && HasStarted(Emit(db, SpecStarted(s), now).db, s)
  {}

  /** Whatever the status of a started spec has become, the refusal of its dispatch leaves it terminal. */
  lemma RefusalEndsSpec(db: Db, s: SpecId, why: string, now: Time)
    requires HasStarted(db, s)
    ensures var after := Emitted(db, Emit(db, SpecFailed(s, PreflightFailed(why)), now));
            s in after.specRuntime && after.specRuntime[s].status.Terminal()
  {}

  lemma {:induction false} NeverRequeued(ws: seq<Statement>, s: SpecId, before: SpecStatus)
    requires !before.Queued?
    ensures !LastStatus(ws, s, before).Queued?
    decreases |ws|
  {
    if ws != [] {
      NeverRequeued(ws[1..], s, StatusAfter(ws[0], s, before));
    }
  }

  /** Once started, a spec is never queued again, so the refusal of its dispatch finds it running or terminal. */
  lemma StartedStaysStarted(db: Db, ws: seq<Statement>, s: SpecId)
    requires HasStarted(db, s)
    ensures HasStarted(WrittenAll(db, ws), s)
  {
    WrittenAllStatus(db, ws, s);
    NeverRequeued(ws, s, db.specRuntime[s].status);
    hide WrittenAll, LastStatus;
  }

  /** With its checks passed, an uninterrupted unblock is accepted by the bus, so its counter reset is never orphaned. */
  lemma UnblockIsNeverRejected(db: Db, t: TaskId, resetCounter: bool, now: Time)
    ensures !Lifecycle.Unblock(db, t, resetCounter, now).EmitFailed?
  {}
}
