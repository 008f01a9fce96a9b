/**
 The order in which the orchestrator hears of events. Between the acceptance of an event and its send other handlers
 may run, so the channel need not be in order of acceptance; here is exactly when it is.
 */
module ChannelOrder {
  import opened Outcomes
  import opened Digraph
  import opened Schema
  import opened Bus
  import opened EmitSteps
  import opened Handlers
  import opened HandlerRaces

  predicate Holds(proc: Proc, ticket: nat) {
    Held(proc).Some? && Held(proc).value.0 == ticket
  }

  ghost predicate SomeoneHolds(d: Daemon, ticket: nat) {
    exists q :: 0 <= q < |d.procs| && Holds(d.procs[q], ticket)
  }

  /** The ticket that a step puts on the channel. */
  function SentBy(d: Daemon, a: Action): Option<nat> {
    if a.Advance? && a.p < |d.procs| && d.procs[a.p].Sending? && d.open then Some(d.procs[a.p].ticket) else None
  }

  lemma StepSends(d: Daemon, a: Action)
    ensures Next(d, a).tickets == d.tickets + (if SentBy(d, a).Some? then [SentBy(d, a).value] else [])
    ensures |d.log| <= |Next(d, a).log|
  {
    hide EmitStage;
  }

  lemma OwnStepHands(d: Daemon, p: nat, outside: Outside, ticket: nat)
    requires p < |d.procs| && |AdvanceProc(d, p, outside).procs| == |d.procs|
    requires Holds(AdvanceProc(d, p, outside).procs[p], ticket)
    ensures Holds(d.procs[p], ticket) || ticket == |d.log|
  {
    hide EmitStage;
  }

  /** A ticket that a handler holds after a step was held before it or has just been given out. */
  lemma StepHands(d: Daemon, a: Action, ticket: nat)
    requires SomeoneHolds(Next(d, a), ticket)
    ensures SomeoneHolds(d, ticket) || ticket >= |d.log|
  {
    var q :| 0 <= q < |Next(d, a).procs| && Holds(Next(d, a).procs[q], ticket);
    hide AdvanceProc;
    if a.Advance? && a.p == q {
      if q < |d.procs| {
        AdvanceKeepsCount(d, q, a.outside);
        OwnStepHands(d, q, a.outside, ticket);
      }
    } else {
      OthersStay(d, a, q);
    }
    hide Next;
  }

  /** Whatever is sent from now on is held by some handler now, or not accepted yet. */
  lemma {:induction false} LaterTickets(d: Daemon, actions: seq<Action>, i: nat)
    requires |d.tickets| <= i < |Play(d, actions).tickets|
    ensures SomeoneHolds(d, Play(d, actions).tickets[i]) || Play(d, actions).tickets[i] >= |d.log|
    decreases |actions|
  {
    var next := Next(d, actions[0]);
    StepSends(d, actions[0]);
    TicketsOnlyGrow(next, actions[1..]);
    if i < |next.tickets| {
      var sender := actions[0].p;
      assert Holds(d.procs[sender], next.tickets[i]);
      assert SomeoneHolds(d, next.tickets[i]);
    } else {
      hide Next;
      LaterTickets(next, actions[1..], i);
      var ticket := Play(d, actions).tickets[i];
      if SomeoneHolds(next, ticket) {
        StepHands(d, actions[0], ticket);
      }
    }
  }

  lemma {:induction false} TicketsOnlyGrow(d: Daemon, actions: seq<Action>)
    ensures d.tickets <= Play(d, actions).tickets
    decreases |actions|
  {
    if actions != [] {
      StepSends(d, actions[0]);
      hide Next;
      TicketsOnlyGrow(Next(d, actions[0]), actions[1..]);
    }
  }

  ghost predicate Increasing(s: seq<nat>) {
    forall i, j :: 0 <= i < j < |s| ==> s[i] < s[j]
  }

  /** No other handler that holds an earlier acceptance when this one is sent goes on to send it. */
  ghost predicate NotOvertaking(d: Daemon, a: Action, final: seq<nat>) {
    SentBy(d, a).Some? ==>
      forall q :: 0 <= q < |d.procs| && q != a.p && Held(d.procs[q]).Some?
                  && Held(d.procs[q]).value.0 < SentBy(d, a).value ==>
        Held(d.procs[q]).value.0 !in final
  }

  /**
   A send keeps its place for good — everything queued later was accepted later — exactly if no other handler that
   holds an earlier acceptance goes on to send it.
   */
  lemma SendKeepsItsPlaceIff(d: Daemon, a: Action, rest: seq<Action>)
    requires Inv(d) && SentBy(d, a).Some?
    ensures var final := Play(Next(d, a), rest).tickets;
            && |d.tickets| < |final|
            && (NotOvertaking(d, a, final) <==>
                  forall i :: |d.tickets| < i < |final| ==> SentBy(d, a).value < final[i])
  {
    var next, ticket := Next(d, a), SentBy(d, a).value;
    var final := Play(next, rest).tickets;
    StepSends(d, a);
    TicketsOnlyGrow(next, rest);
    NextKeepsInv(d, a);
    assert Holds(d.procs[a.p], ticket) && InLog(d.log, ticket, d.procs[a.p].e);
    assert next.tickets[|d.tickets|] == ticket;
    PlayKeepsInv(next, rest);
    DistinctTickets(Play(next, rest));
    hide Next, Play;
    if NotOvertaking(d, a, final) {
      forall i | |d.tickets| < i < |final| ensures ticket < final[i] {
        LaterTickets(next, rest, i);
        if SomeoneHolds(next, final[i]) {
          StepHands(d, a, final[i]);
        }
        assert final[|d.tickets|] == ticket;
      }
    } else {
      var q :| 0 <= q < |d.procs| && q != a.p && Held(d.procs[q]).Some? && Held(d.procs[q]).value.0 < ticket
               && Held(d.procs[q]).value.0 in final;
      var i :| 0 <= i < |final| && final[i] == Held(d.procs[q]).value.0;
      HeldNotSent(d, q);
      assert i > |d.tickets| by {
        assert forall k :: 0 <= k < |d.tickets| ==> final[k] == d.tickets[k];
      }
    }
  }

  lemma DistinctTickets(d: Daemon)
    requires Inv(d)
    ensures Distinct(d.tickets)
  {}

  /** Every send of the run keeps its place. */
  ghost predicate NobodyOvertakes(d: Daemon, actions: seq<Action>)
    decreases |actions|
  {
    actions == []
    || (NotOvertaking(d, actions[0], Play(d, actions).tickets) && NobodyOvertakes(Next(d, actions[0]), actions[1..]))
  }

  lemma {:induction false} SuffixIncreasingIff(d: Daemon, actions: seq<Action>)
    requires Inv(d)
    ensures |d.tickets| <= |Play(d, actions).tickets|
    ensures Increasing(Play(d, actions).tickets[|d.tickets|..]) <==> NobodyOvertakes(d, actions)
    decreases |actions|
  {
    TicketsOnlyGrow(d, actions);
    if actions != [] {
      var next, final := Next(d, actions[0]), Play(d, actions).tickets;
      StepSends(d, actions[0]);
      NextKeepsInv(d, actions[0]);
      SuffixIncreasingIff(next, actions[1..]);
      TicketsOnlyGrow(next, actions[1..]);
      if SentBy(d, actions[0]).Some? {
        SendKeepsItsPlaceIff(d, actions[0], actions[1..]);
        hide Next, NotOvertaking, Inv;
        FirstOfIncreasing(final[|d.tickets|..]);
        assert final[|d.tickets|..][1..] == final[|next.tickets|..];
        assert final[|d.tickets|] == next.tickets[|d.tickets|] == SentBy(d, actions[0]).value;
      }
    }
  }

  lemma FirstOfIncreasing(s: seq<nat>)
    requires s != []
    ensures Increasing(s) <==> Increasing(s[1..]) && forall i :: 0 < i < |s| ==> s[0] < s[i]
  {
    if Increasing(s[1..]) && forall i :: 0 < i < |s| ==> s[0] < s[i] {
      forall i, j | 0 <= i < j < |s| ensures s[i] < s[j] {
        if i > 0 {
          assert s[1..][i - 1] < s[1..][j - 1];
        }
      }
    }
  }

  /** The channel is in order of acceptance exactly if at no send some earlier acceptance is still to be sent. */
  lemma ChannelInOrderIff(db: Db, actions: seq<Action>)
    ensures Increasing(Play(Boot(db), actions).tickets) <==> NobodyOvertakes(Boot(db), actions)
  {
    SuffixIncreasingIff(Boot(db), actions);
    hide Play, NobodyOvertakes;
    assert Play(Boot(db), actions).tickets[0..] == Play(Boot(db), actions).tickets;
  }

  lemma HoldersMaySendOrRefused(proc: Proc)
    ensures Held(proc).Some? ==>
              || proc.Sending? || proc.Preflighting?
              || (proc.RefusedDispatch? && FailedPreflight(proc, proc.s))
              || (proc.InEmit? && proc.purpose.ForRefusal? && FailedPreflight(proc, proc.purpose.s))
  {}

  // ----- What the state at a send says about it -----

  /** Everything queued after this send was accepted after it. */
  ghost predicate KeepsItsPlace(d: Daemon, a: Action, rest: seq<Action>)
    requires SentBy(d, a).Some?
  {
    var final := Play(Next(d, a), rest).tickets;
    forall i :: |d.tickets| < i < |final| ==> SentBy(d, a).value < final[i]
  }

  /** The handler holds an acceptance earlier than `ticket` and can still come to send it. */
  predicate MayOvertake(proc: Proc, ticket: nat) {
    (proc.Sending? || proc.Preflighting?) && proc.ticket < ticket
  }

  /** No other handler that is sending or at its preflight holds an earlier acceptance. */
  ghost predicate SafeSend(d: Daemon, a: Action) {
    SentBy(d, a).Some? ==>
      forall q :: 0 <= q < |d.procs| && q != a.p ==> !MayOvertake(d.procs[q], SentBy(d, a).value)
  }

  lemma SafeSendIsNotOvertaken(d: Daemon, a: Action, rest: seq<Action>)
    requires Inv(d) && SafeSend(d, a)
    ensures NotOvertaking(d, a, Play(Next(d, a), rest).tickets)
  {
    if SentBy(d, a).Some? {
      var final := Play(Next(d, a), rest).tickets;
      assert Play(d, [a] + rest).tickets == final by {
        assert ([a] + rest)[1..] == rest;
      }
      hide Play, Next, Inv, FailedPreflight;
      forall q | 0 <= q < |d.procs| && q != a.p && Held(d.procs[q]).Some?
                 && Held(d.procs[q]).value.0 < SentBy(d, a).value
        ensures Held(d.procs[q]).value.0 !in final
      {
        assert !MayOvertake(d.procs[q], SentBy(d, a).value);
        HoldersMaySendOrRefused(d.procs[q]);
        RefusedStartIsNeverSent(d, [a] + rest, q, if d.procs[q].InEmit? then d.procs[q].purpose.s else d.procs[q].s);
      }
    }
  }

  /** A handler that is sending or at its preflight sends within two steps of its own. */
  lemma OvertakerSends(d: Daemon, q: nat)
    requires q < |d.procs| && d.open && (d.procs[q].Sending? || d.procs[q].Preflighting?)
    ensures exists rest :: Play(d, rest).tickets == d.tickets + [d.procs[q].ticket]
  {
    PlayOne(d, Go(q));
    var next := Next(d, Go(q));
    StepSends(d, Go(q));
    if d.procs[q].Preflighting? {
      assert next == Goto(d, q, Sending(SpecStarted(d.procs[q].s), d.procs[q].ticket));
      PlayOne(next, Go(q));
      StepSends(next, Go(q));
      hide Next;
      assert ([Go(q)] + [Go(q)])[1..] == [Go(q)];
      assert Play(d, [Go(q)] + [Go(q)]).tickets == d.tickets + [d.procs[q].ticket];
    } else {
      hide Next, Play;
      assert Play(d, [Go(q)]).tickets == d.tickets + [d.procs[q].ticket];
    }
  }

  lemma SendingKeepsTheRest(d: Daemon, a: Action, q: nat)
    requires SentBy(d, a).Some? && q < |d.procs| && q != a.p
    ensures Next(d, a).open && q < |Next(d, a).procs| && Next(d, a).procs[q] == d.procs[q]
    ensures Next(d, a).tickets == d.tickets + [SentBy(d, a).value]
  {}

  /**
   A send keeps its place in every continuation exactly if no other handler that is sending or at its preflight holds
   an earlier acceptance at that moment.
   */
  lemma SendIsSafeIff(d: Daemon, a: Action)
    requires Inv(d) && SentBy(d, a).Some?
    ensures (forall rest :: KeepsItsPlace(d, a, rest)) <==> SafeSend(d, a)
  {
    if SafeSend(d, a) {
      forall rest ensures KeepsItsPlace(d, a, rest) {
        SafeSendIsNotOvertaken(d, a, rest);
        SendKeepsItsPlaceIff(d, a, rest);
      }
    } else {
      var q :| 0 <= q < |d.procs| && q != a.p && MayOvertake(d.procs[q], SentBy(d, a).value);
      SendingKeepsTheRest(d, a, q);
      hide Next, Play, Inv;
      OvertakerSends(Next(d, a), q);
      var rest :| Play(Next(d, a), rest).tickets == Next(d, a).tickets + [d.procs[q].ticket];
      assert Play(Next(d, a), rest).tickets[|d.tickets| + 1] == d.procs[q].ticket;
      assert !KeepsItsPlace(d, a, rest);
    }
  }

  ghost predicate EverySendSafe(d: Daemon, actions: seq<Action>)
    decreases |actions|
  {
    actions == [] || (SafeSend(d, actions[0]) && EverySendSafe(Next(d, actions[0]), actions[1..]))
  }

  /** However the run is carried on after each of its sends, that send keeps its place. */
  ghost predicate EverySendKeeps(d: Daemon, actions: seq<Action>)
    decreases |actions|
  {
    actions == []
    || ((SentBy(d, actions[0]).Some? ==> forall rest :: KeepsItsPlace(d, actions[0], rest))
        && EverySendKeeps(Next(d, actions[0]), actions[1..]))
  }

  /** Over a run: every send keeps its place in every continuation exactly if every send is safe when it is made. */
  lemma {:induction false} EverySendSafeIff(d: Daemon, actions: seq<Action>)
    requires Inv(d)
    ensures EverySendKeeps(d, actions) <==> EverySendSafe(d, actions)
    decreases |actions|
  {
    if actions != [] {
      NextKeepsInv(d, actions[0]);
      if SentBy(d, actions[0]).Some? {
        SendIsSafeIff(d, actions[0]);
      }
      hide Next, Inv, KeepsItsPlace;
      EverySendSafeIff(Next(d, actions[0]), actions[1..]);
    }
  }

  lemma {:induction false} SafeSendsNobodyOvertakes(d: Daemon, actions: seq<Action>)
    requires Inv(d) && EverySendSafe(d, actions)
    ensures NobodyOvertakes(d, actions)
    decreases |actions|
  {
    if actions != [] {
      NextKeepsInv(d, actions[0]);
      SafeSendIsNotOvertaken(d, actions[0], actions[1..]);
      hide Next, Inv, SafeSend, NotOvertaking;
      SafeSendsNobodyOvertakes(Next(d, actions[0]), actions[1..]);
    }
  }

  /** So a run whose sends are all safe is heard of in order. */
  lemma SafeSendsAreInOrder(db: Db, actions: seq<Action>)
    requires EverySendSafe(Boot(db), actions)
    ensures Increasing(Play(Boot(db), actions).tickets)
  {
    SafeSendsNobodyOvertakes(Boot(db), actions);
    ChannelInOrderIff(db, actions);
  }

  /** At each send the sender is the only handler that is sending or at its preflight. */
  ghost predicate OneAtATime(d: Daemon, actions: seq<Action>)
    decreases |actions|
  {
    actions == []
    || ((SentBy(d, actions[0]).Some? ==>
           forall q :: 0 <= q < |d.procs| && q != actions[0].p ==> !d.procs[q].Sending? && !d.procs[q].Preflighting?)
        && OneAtATime(Next(d, actions[0]), actions[1..]))
  }

  lemma {:induction false} OneAtATimeIsSafe(d: Daemon, actions: seq<Action>)
    requires OneAtATime(d, actions)
    ensures EverySendSafe(d, actions)
    decreases |actions|
  {
    if actions != [] {
      hide Next;
      OneAtATimeIsSafe(Next(d, actions[0]), actions[1..]);
    }
  }

  /** Handlers that run one after the other are heard of in order. */
  lemma OneAtATimeIsInOrder(db: Db, actions: seq<Action>)
    requires OneAtATime(Boot(db), actions)
    ensures Increasing(Play(Boot(db), actions).tickets)
  {
    OneAtATimeIsSafe(Boot(db), actions);
    SafeSendsAreInOrder(db, actions);
  }
}
