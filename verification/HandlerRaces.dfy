/**
 What the unguarded write of an emit costs the handlers, and exactly when: the bus reads a row, checks the transition
 in memory and writes later, so a write may land on a row that no longer allows it.
 */
module HandlerRaces {
  import opened Outcomes
  import opened Digraph
  import opened Schema
  import opened Bus
  import opened EmitSteps
  import opened Handlers

  // ----- Which step writes a spec row -----

  predicate WritesNow(d: Daemon, a: Action, s: SpecId) {
    && a.Advance? && a.p < |d.procs| && d.procs[a.p].InEmit? && d.procs[a.p].stage.Guarded?
    && WritesSpec(OfEvent(d.procs[a.p].e, a.outside.now), s)
  }

  /** If this step writes the row of the spec, the guard it passed earlier would let it pass now. */
  predicate LandsOnGuard(d: Daemon, a: Action, s: SpecId) {
    WritesNow(d, a, s) ==> GuardHolds(d.db, OfEvent(d.procs[a.p].e, a.outside.now))
  }

  /** No write about the spec lands late in the whole run. */
  ghost predicate Undisturbed(d: Daemon, actions: seq<Action>, s: SpecId)
    decreases |actions|
  {
    actions == [] || (LandsOnGuard(d, actions[0], s) && Undisturbed(Next(d, actions[0]), actions[1..], s))
  }

  ghost predicate NobodyWrites(d: Daemon, actions: seq<Action>, s: SpecId)
    decreases |actions|
  {
    actions == [] || (!WritesNow(d, actions[0], s) && NobodyWrites(Next(d, actions[0]), actions[1..], s))
  }

  function Target(d: Daemon, a: Action, s: SpecId): SpecStatus
    requires WritesNow(d, a, s)
  {
    SpecMove(d.procs[a.p].e).value.1
  }

  /** The status of a spec moves at these steps and no others. */
  lemma StepStatus(d: Daemon, a: Action, s: SpecId)
    requires s in d.db.specRuntime
    ensures var after := Next(d, a).db;
            && s in after.specRuntime
            && after.specRuntime[s].status == if WritesNow(d, a, s) then Target(d, a, s) else d.db.specRuntime[s].status
  {
    if a.Advance? && a.p < |d.procs| && d.procs[a.p].InEmit? {
      StageStatus(d.db, d.procs[a.p].e, d.procs[a.p].stage, a.outside.listed, a.outside.now, s);
    }
    hide EmitStage;
  }

  // ----- Terminal statuses -----

  predicate IsTerminal(db: Db, s: SpecId) {
    s in db.specRuntime && db.specRuntime[s].status.Terminal()
  }

  /** A step takes a spec out of a terminal status exactly if it is a write, guarded before, with another target. */
  lemma TerminalLeftExactlyByLateWrite(d: Daemon, a: Action, s: SpecId)
    requires IsTerminal(d.db, s)
    ensures s in Next(d, a).db.specRuntime
    ensures Next(d, a).db.specRuntime[s].status != d.db.specRuntime[s].status <==>
              WritesNow(d, a, s) && Target(d, a, s) != d.db.specRuntime[s].status
    ensures WritesNow(d, a, s) ==> !LandsOnGuard(d, a, s)
  {
    StepStatus(d, a, s);
    hide Next;
  }

  /** So a terminal status has no exit in a run in which no write about the spec lands late. */
  lemma {:induction false} TerminalStays(d: Daemon, actions: seq<Action>, s: SpecId)
    requires IsTerminal(d.db, s) && Undisturbed(d, actions, s)
    ensures s in Play(d, actions).db.specRuntime
    ensures Play(d, actions).db.specRuntime[s].status == d.db.specRuntime[s].status
    decreases |actions|
  {
    if actions != [] {
      TerminalLeftExactlyByLateWrite(d, actions[0], s);
      hide Next, LandsOnGuard;
      TerminalStays(Next(d, actions[0]), actions[1..], s);
    }
  }

  // ----- When a guard survives until its write -----

  lemma {:induction false} NobodyWritesKeepsStatus(d: Daemon, between: seq<Action>, s: SpecId)
    requires s in d.db.specRuntime && NobodyWrites(d, between, s)
    ensures s in Play(d, between).db.specRuntime
    ensures Play(d, between).db.specRuntime[s].status == d.db.specRuntime[s].status
    decreases |between|
  {
    if between != [] {
      StepStatus(d, between[0], s);
      hide Next, WritesNow;
      NobodyWritesKeepsStatus(Next(d, between[0]), between[1..], s);
    }
  }

  lemma {:induction false} StartedStaysStarted(d: Daemon, actions: seq<Action>, s: SpecId)
    requires HasStarted(d.db, s)
    ensures HasStarted(Play(d, actions).db, s)
    decreases |actions|
  {
    if actions != [] {
      StepStatus(d, actions[0], s);
      hide Next;
      StartedStaysStarted(Next(d, actions[0]), actions[1..], s);
    }
  }

  /** A guard that held still holds if no other write to the row fell in between. */
  lemma GuardSurvivesQuiet(d: Daemon, between: seq<Action>, s: SpecId, e: Event, at: Time)
    requires WritesSpec(OfEvent(e, at), s) && GuardHolds(d.db, OfEvent(e, at)) && NobodyWrites(d, between, s)
    ensures GuardHolds(Play(d, between).db, OfEvent(e, at))
  {
    NobodyWritesKeepsStatus(d, between, s);
    hide Play;
  }

  lemma {:induction false} WriteStartsTheSpec(d: Daemon, actions: seq<Action>, s: SpecId)
    requires s in d.db.specRuntime && !NobodyWrites(d, actions, s)
    ensures HasStarted(Play(d, actions).db, s)
    decreases |actions|
  {
    StepStatus(d, actions[0], s);
    if WritesNow(d, actions[0], s) {
      hide Next;
      StartedStaysStarted(Next(d, actions[0]), actions[1..], s);
    } else {
      hide Next;
      WriteStartsTheSpec(Next(d, actions[0]), actions[1..], s);
    }
  }

  /** For a start this is exact: its guard holds at the write if and only if nobody wrote the row since the read. */
  lemma StartLandsOnGuardIff(d: Daemon, between: seq<Action>, s: SpecId, at: Time)
    requires GuardHolds(d.db, OfEvent(SpecStarted(s), at))
    ensures GuardHolds(Play(d, between).db, OfEvent(SpecStarted(s), at)) <==> NobodyWrites(d, between, s)
  {
    if NobodyWrites(d, between, s) {
      GuardSurvivesQuiet(d, between, s, SpecStarted(s), at);
    } else {
      WriteStartsTheSpec(d, between, s);
      hide Play;
    }
  }

  // ----- One start per spec, and what a refused dispatch leaves -----

  ghost predicate StartedOnce(log: seq<Event>, s: SpecId) {
    forall i, j :: 0 <= i < j < |log| && log[i] == SpecStarted(s) ==> log[j] != SpecStarted(s)
  }

  /** The handler has made its spec fail, or has found it terminal. */
  predicate HasRefused(proc: Proc, s: SpecId) {
    || (proc.RefusedDispatch? && proc.s == s)
    || (proc.InEmit? && proc.purpose.ForRefusal? && proc.purpose.s == s && !proc.stage.Fetching? && !proc.stage.Guarded?)
  }

  ghost predicate RefusedAreTerminal(d: Daemon, s: SpecId) {
    forall p :: 0 <= p < |d.procs| && HasRefused(d.procs[p], s) ==> IsTerminal(d.db, s)
  }

  /** The log grows by `SpecStarted` for a spec exactly at the write of such a start. */
  lemma LogGrowsAtTheWrite(d: Daemon, a: Action, s: SpecId)
    requires Inv(d)
    ensures d.log <= Next(d, a).log && |Next(d, a).log| <= |d.log| + 1
    ensures |Next(d, a).log| == |d.log| + 1 && Next(d, a).log[|d.log|] == SpecStarted(s) <==>
              WritesNow(d, a, s) && d.procs[a.p].e == SpecStarted(s) && s in d.db.specRuntime
  {
    if a.Advance? && a.p < |d.procs| && d.procs[a.p].InEmit? {
      var (e, stage) := (d.procs[a.p].e, d.procs[a.p].stage);
      assert WellPlaced(d.procs[a.p]);
      if e == SpecStarted(s) {
        StartStages(d.db, s, stage, a.outside.listed, a.outside.now);
      }
      hide EmitStage;
    }
  }

  lemma StartStages(db: Db, s: SpecId, stage: Stage, listed: seq<TaskId>, now: Time)
    requires stage.Fetching? || stage.Guarded?
    ensures EmitStage(db, SpecStarted(s), stage, listed, now).1 == Returned(true) <==>
              stage.Guarded? && s in db.specRuntime
  {}

  lemma StartOnGuardIsFirst(d: Daemon, a: Action, s: SpecId)
    requires Inv(d) && LandsOnGuard(d, a, s) && WritesNow(d, a, s) && d.procs[a.p].e == SpecStarted(s)
    ensures SpecStarted(s) !in d.log
  {
    assert d.db.specRuntime[s].status.Queued?;
  }

  lemma StepKeepsStartedOnce(d: Daemon, a: Action, s: SpecId)
    requires Inv(d) && StartedOnce(d.log, s) && LandsOnGuard(d, a, s)
    ensures StartedOnce(Next(d, a).log, s)
  {
    LogGrowsAtTheWrite(d, a, s);
    if WritesNow(d, a, s) && d.procs[a.p].e == SpecStarted(s) {
      StartOnGuardIsFirst(d, a, s);
    }
    hide Inv, Next, WritesNow, LandsOnGuard;
  }

  lemma OthersStay(d: Daemon, a: Action, p: nat)
    requires p < |Next(d, a).procs| && !(a.Advance? && a.p == p)
    ensures if p < |d.procs| then Next(d, a).procs[p] == d.procs[p] else Next(d, a).procs[p].Ready?
  {
    hide EmitStage;
  }

  lemma OnlyEmitsRefuse(d: Daemon, p: nat, outside: Outside, s: SpecId)
    requires p < |d.procs| && !d.procs[p].InEmit?
    ensures HasRefused(AdvanceProc(d, p, outside).procs[p], s) ==> HasRefused(d.procs[p], s)
  {}

  lemma RefusingStage(db: Db, e: Event, stage: Stage, listed: seq<TaskId>, now: Time)
    requires e.SpecFailed? && HasStarted(db, e.spec) && (stage.Fetching? || stage.Guarded?)
    ensures var progress := EmitStage(db, e, stage, listed, now).1;
            progress == if stage.Guarded? then Going(Listing)
                        else if IsTerminal(db, e.spec) then Returned(false) else Going(Guarded)
  {}

  lemma EmitRefuses(d: Daemon, p: nat, outside: Outside, s: SpecId)
    requires Inv(d) && p < |d.procs| && d.procs[p].InEmit?
    requires HasRefused(AdvanceProc(d, p, outside).procs[p], s) && !HasRefused(d.procs[p], s)
    ensures IsTerminal(d.db, s) || WritesNow(d, Advance(p, outside), s)
    ensures WritesNow(d, Advance(p, outside), s) ==> Target(d, Advance(p, outside), s).Failed?
  {
    var (e, stage, purpose) := (d.procs[p].e, d.procs[p].stage, d.procs[p].purpose);
    assert WellPlaced(d.procs[p]);
    if purpose.ForRefusal? && purpose.s == s {
      assert InLog(d.log, purpose.ticket, SpecStarted(s)) by {
        assert Held(d.procs[p]).Some?;
      }
      RefusingStage(d.db, e, stage, outside.listed, outside.now);
    }
    hide EmitStage;
  }

  /** A handler that has just refused its dispatch has found its spec terminal, or is about to have made it so. */
  lemma RefusalStep(d: Daemon, a: Action, p: nat, s: SpecId)
    requires Inv(d) && p < |Next(d, a).procs| && HasRefused(Next(d, a).procs[p], s)
    ensures p < |d.procs|
    ensures HasRefused(d.procs[p], s) || IsTerminal(d.db, s) || (WritesNow(d, a, s) && Target(d, a, s).Failed?)
  {
    if a.Advance? && a.p == p {
      assert p < |d.procs| by {
        hide AdvanceProc;
      }
      hide AdvanceProc, Inv, IsTerminal;
      if !d.procs[p].InEmit? {
        OnlyEmitsRefuse(d, p, a.outside, s);
      } else if !HasRefused(d.procs[p], s) {
        EmitRefuses(d, p, a.outside, s);
      }
    } else {
      OthersStay(d, a, p);
      hide Next;
    }
  }

  lemma StepKeepsRefusedTerminal(d: Daemon, a: Action, s: SpecId)
    requires Inv(d) && RefusedAreTerminal(d, s) && LandsOnGuard(d, a, s)
    ensures RefusedAreTerminal(Next(d, a), s)
  {
    var after := Next(d, a);
    forall p | 0 <= p < |after.procs| && HasRefused(after.procs[p], s) ensures IsTerminal(after.db, s) {
      RefusalStep(d, a, p, s);
      if IsTerminal(d.db, s) {
        TerminalLeftExactlyByLateWrite(d, a, s);
      } else {
        StepStatus(d, a, s);
      }
      hide Next;
    }
  }

  ghost predicate Orderly(d: Daemon, s: SpecId) {
    Inv(d) && StartedOnce(d.log, s) && RefusedAreTerminal(d, s)
  }

  lemma {:induction false} PlayKeepsOrderly(d: Daemon, actions: seq<Action>, s: SpecId)
    requires Orderly(d, s) && Undisturbed(d, actions, s)
    ensures Orderly(Play(d, actions), s)
    decreases |actions|
  {
    if actions != [] {
      hide Next, LandsOnGuard, Inv, StartedOnce, RefusedAreTerminal;
      NextKeepsInv(d, actions[0]);
      StepKeepsStartedOnce(d, actions[0], s);
      StepKeepsRefusedTerminal(d, actions[0], s);
      PlayKeepsOrderly(Next(d, actions[0]), actions[1..], s);
    }
  }

  lemma BootIsOrderly(db: Db, s: SpecId)
    ensures Orderly(Boot(db), s)
  {}

  lemma StartQueuedOnce(d: Daemon, i: nat, j: nat, s: SpecId)
    requires Orderly(d, s) && i < j < |d.channel| && d.channel[i] == SpecStarted(s)
    ensures d.channel[j] != SpecStarted(s)
  {
    assert InLog(d.log, d.tickets[i], d.channel[i]) && InLog(d.log, d.tickets[j], d.channel[j]);
    var a, b := d.tickets[i], d.tickets[j];
    assert a != b;
  }

  /** At most one `SpecStarted` of a spec is ever queued, in every run in which no write about the spec lands late. */
  lemma OneStartPerSpec(db: Db, actions: seq<Action>, s: SpecId, i: nat, j: nat)
    requires Undisturbed(Boot(db), actions, s)
    requires i < j < |Play(Boot(db), actions).channel| && Play(Boot(db), actions).channel[i] == SpecStarted(s)
    ensures Play(Boot(db), actions).channel[j] != SpecStarted(s)
  {
    BootIsOrderly(db, s);
    PlayKeepsOrderly(Boot(db), actions, s);
    hide Play, Orderly;
    StartQueuedOnce(Play(Boot(db), actions), i, j, s);
  }

  // ----- A failed preflight -----

  predicate FailedPreflight(proc: Proc, s: SpecId) {
    || (proc.RefusedDispatch? && proc.s == s)
    || (proc.InEmit? && proc.purpose.ForRefusal? && proc.purpose.s == s)
  }

  lemma RefusedStartNotQueued(d: Daemon, p: nat, s: SpecId)
    requires Orderly(d, s) && p < |d.procs| && FailedPreflight(d.procs[p], s)
    ensures SpecStarted(s) !in d.channel
  {
    assert Held(d.procs[p]).Some?;
    var ticket := Held(d.procs[p]).value.0;
    forall i | 0 <= i < |d.channel| ensures d.channel[i] != SpecStarted(s) {
      assert InLog(d.log, d.tickets[i], d.channel[i]) && InLog(d.log, ticket, SpecStarted(s));
      assert d.tickets[i] in d.tickets;
    }
  }

  lemma StepKeepsFailedPreflight(d: Daemon, a: Action, p: nat, s: SpecId)
    requires p < |d.procs| && FailedPreflight(d.procs[p], s)
    ensures p < |Next(d, a).procs| && FailedPreflight(Next(d, a).procs[p], s)
    ensures Held(Next(d, a).procs[p]) == Held(d.procs[p])
  {
    hide EmitStage;
    if a.Advance? && a.p == p {
    } else {
      AtLeastAsMany(d, a);
      OthersStay(d, a, p);
      hide Next;
    }
  }

  lemma AtLeastAsMany(d: Daemon, a: Action)
    ensures |d.procs| <= |Next(d, a).procs|
  {
    hide EmitStage;
  }

  lemma {:induction false} FailedPreflightIsFinal(d: Daemon, actions: seq<Action>, p: nat, s: SpecId)
    requires p < |d.procs| && FailedPreflight(d.procs[p], s)
    ensures p < |Play(d, actions).procs| && FailedPreflight(Play(d, actions).procs[p], s)
    ensures Held(Play(d, actions).procs[p]) == Held(d.procs[p])
    decreases |actions|
  {
    hide Next, FailedPreflight, Held;
    if actions != [] {
      StepKeepsFailedPreflight(d, actions[0], p, s);
      FailedPreflightIsFinal(Next(d, actions[0]), actions[1..], p, s);
    }
  }

  /**
   Once a dispatch has failed its preflight, nothing that happens later queues a `SpecStarted` for its spec, and when
   its handler is done the spec is in a terminal status — as long as no write about the spec lands late.
   */
  lemma FailedPreflightQueuesNoStart(d: Daemon, actions: seq<Action>, p: nat, s: SpecId)
    requires Orderly(d, s) && Undisturbed(d, actions, s)
    requires p < |d.procs| && FailedPreflight(d.procs[p], s)
    ensures var later := Play(d, actions);
            && SpecStarted(s) !in later.channel
            && (p < |later.procs| && later.procs[p].RefusedDispatch? ==> IsTerminal(later.db, s))
  {
    PlayKeepsOrderly(d, actions, s);
    FailedPreflightIsFinal(d, actions, p, s);
    hide Play;
    RefusedStartNotQueued(Play(d, actions), p, s);
  }

  // ----- Exactly when a spec is started twice -----

  ghost predicate StartedTwice(log: seq<Event>, s: SpecId) {
    exists i, j :: 0 <= i < j < |log| && log[i] == SpecStarted(s) && log[j] == SpecStarted(s)
  }

  /** A start is written although the bus has accepted one before: its guard was checked before that one was written. */
  predicate StartsAgain(d: Daemon, a: Action, s: SpecId) {
    WritesNow(d, a, s) && d.procs[a.p].e == SpecStarted(s) && SpecStarted(s) in d.log
  }

  ghost predicate SomeStartAgain(d: Daemon, actions: seq<Action>, s: SpecId)
    decreases |actions|
  {
    actions != [] && (StartsAgain(d, actions[0], s) || SomeStartAgain(Next(d, actions[0]), actions[1..], s))
  }

  lemma {:induction false} LogOnlyGrows(d: Daemon, actions: seq<Action>)
    requires Inv(d)
    ensures d.log <= Play(d, actions).log
    decreases |actions|
  {
    if actions != [] {
      NextKeepsInv(d, actions[0]);
      LogGrowsAtTheWrite(d, actions[0], SpecId(""));
      hide Next, Inv;
      LogOnlyGrows(Next(d, actions[0]), actions[1..]);
    }
  }

  lemma StepStartsTwice(d: Daemon, a: Action, s: SpecId)
    requires Inv(d) && !StartedTwice(d.log, s)
    ensures StartedTwice(Next(d, a).log, s) <==> StartsAgain(d, a, s)
  {
    LogGrowsAtTheWrite(d, a, s);
    var after := Next(d, a).log;
    if StartsAgain(d, a, s) {
      var i :| 0 <= i < |d.log| && d.log[i] == SpecStarted(s);
      assert s in d.db.specRuntime by {
        assert HasStarted(d.db, d.log[i].spec);
      }
      assert after[i] == SpecStarted(s) && after[|d.log|] == SpecStarted(s);
    }
    hide Next, Inv;
    if StartedTwice(after, s) {
      var i, j :| 0 <= i < j < |after| && after[i] == SpecStarted(s) && after[j] == SpecStarted(s);
      assert forall k :: 0 <= k < |d.log| ==> after[k] == d.log[k];
      assert j == |d.log|;
      assert d.log[i] == SpecStarted(s);
    }
  }

  /** The bus accepts two starts of a spec in a run exactly if some start is written over an earlier one. */
  lemma {:induction false} TwoStartsExactlyIfOneIsLate(d: Daemon, actions: seq<Action>, s: SpecId)
    requires Inv(d) && !StartedTwice(d.log, s)
    ensures StartedTwice(Play(d, actions).log, s) <==> SomeStartAgain(d, actions, s)
    decreases |actions|
  {
    if actions != [] {
      NextKeepsInv(d, actions[0]);
      StepStartsTwice(d, actions[0], s);
      hide Next, Inv, StartsAgain;
      if StartsAgain(d, actions[0], s) {
        LogOnlyGrows(Next(d, actions[0]), actions[1..]);
        TwiceStaysTwice(Next(d, actions[0]).log, Play(d, actions).log, s);
      } else {
        TwoStartsExactlyIfOneIsLate(Next(d, actions[0]), actions[1..], s);
      }
    }
  }

  lemma TwiceStaysTwice(log: seq<Event>, longer: seq<Event>, s: SpecId)
    requires StartedTwice(log, s) && log <= longer
    ensures StartedTwice(longer, s)
  {
    var i, j :| 0 <= i < j < |log| && log[i] == SpecStarted(s) && log[j] == SpecStarted(s);
    assert longer[i] == SpecStarted(s) && longer[j] == SpecStarted(s);
  }

  // ----- What the state says about every continuation -----

  /** A handler that has read the spec as queued and is about to write its start. */
  predicate GuardedStart(proc: Proc, s: SpecId) {
    proc.InEmit? && proc.stage.Guarded? && proc.e == SpecStarted(s)
  }

  ghost predicate NoGuardedStart(d: Daemon, s: SpecId) {
    forall p :: 0 <= p < |d.procs| ==> !GuardedStart(d.procs[p], s)
  }

  lemma FetchFindsStarted(db: Db, s: SpecId, listed: seq<TaskId>, now: Time)
    requires HasStarted(db, s)
    ensures EmitStage(db, SpecStarted(s), Fetching, listed, now) == (db, Returned(false))
  {}

  lemma OwnStepGuardsNoStart(d: Daemon, p: nat, outside: Outside, s: SpecId)
    requires p < |d.procs| && HasStarted(d.db, s) && !GuardedStart(d.procs[p], s) && WellPlaced(d.procs[p])
    requires |AdvanceProc(d, p, outside).procs| == |d.procs|
    ensures !GuardedStart(AdvanceProc(d, p, outside).procs[p], s)
  {
    FetchFindsStarted(d.db, s, outside.listed, outside.now);
    if d.procs[p].InEmit? {
      GuardedComesFromFetching(d.db, d.procs[p].e, d.procs[p].stage, outside.listed, outside.now);
    }
    hide EmitStage;
  }

  lemma GuardedComesFromFetching(db: Db, e: Event, stage: Stage, listed: seq<TaskId>, now: Time)
    ensures EmitStage(db, e, stage, listed, now).1 == Going(Guarded) ==> stage.Fetching?
  {}

  lemma AdvanceKeepsCount(d: Daemon, p: nat, outside: Outside)
    requires p < |d.procs|
    ensures |AdvanceProc(d, p, outside).procs| == |d.procs|
  {
    hide EmitStage;
  }

  /** Once a spec has started, no handler comes to stand guarded on a start of it. */
  lemma StepKeepsNoGuardedStart(d: Daemon, a: Action, s: SpecId)
    requires Inv(d) && HasStarted(d.db, s) && NoGuardedStart(d, s)
    ensures HasStarted(Next(d, a).db, s) && NoGuardedStart(Next(d, a), s)
  {
    StepStatus(d, a, s);
    var after := Next(d, a);
    forall p | 0 <= p < |after.procs| ensures !GuardedStart(after.procs[p], s) {
      if a.Advance? && a.p == p {
        if p < |d.procs| {
          AdvanceKeepsCount(d, p, a.outside);
          assert WellPlaced(d.procs[p]);
          OwnStepGuardsNoStart(d, p, a.outside, s);
        }
        hide AdvanceProc, Inv;
      } else {
        OthersStay(d, a, p);
        hide Next, Inv;
      }
    }
    hide Next;
  }

  lemma NoGuardedStartNoneAgain(d: Daemon, a: Action, s: SpecId)
    requires NoGuardedStart(d, s)
    ensures !StartsAgain(d, a, s)
  {}

  lemma {:induction false} NoGuardedStartNeverAgain(d: Daemon, rest: seq<Action>, s: SpecId)
    requires Inv(d) && HasStarted(d.db, s) && NoGuardedStart(d, s)
    ensures !SomeStartAgain(d, rest, s)
    decreases |rest|
  {
    if rest != [] {
      NoGuardedStartNoneAgain(d, rest[0], s);
      StepKeepsNoGuardedStart(d, rest[0], s);
      NextKeepsInv(d, rest[0]);
      hide Next, Inv, StartsAgain, NoGuardedStart;
      NoGuardedStartNeverAgain(Next(d, rest[0]), rest[1..], s);
    }
  }

  lemma PlayOne(d: Daemon, a: Action)
    ensures Play(d, [a]) == Next(d, a)
  {
    hide Next;
    assert [a][1..] == [];
  }

  /**
   With one start of a spec accepted, no continuation has a second one accepted exactly if no handler stands between
   the read and the write of such a start.
   */
  lemma NoSecondStartIff(d: Daemon, s: SpecId)
    requires Inv(d) && SpecStarted(s) in d.log && !StartedTwice(d.log, s)
    ensures (forall rest :: !StartedTwice(Play(d, rest).log, s)) <==> NoGuardedStart(d, s)
  {
    var i :| 0 <= i < |d.log| && d.log[i] == SpecStarted(s);
    assert HasStarted(d.db, d.log[i].spec);
    if NoGuardedStart(d, s) {
      forall rest ensures !StartedTwice(Play(d, rest).log, s) {
        NoGuardedStartNeverAgain(d, rest, s);
        TwoStartsExactlyIfOneIsLate(d, rest, s);
      }
    } else {
      var p :| 0 <= p < |d.procs| && GuardedStart(d.procs[p], s);
      var a := Advance(p, Outside(None, [], 0));
      StepStartsTwice(d, a, s);
      PlayOne(d, a);
      hide Next, Play, Inv;
      assert StartsAgain(d, a, s);
      assert StartedTwice(Play(d, [a]).log, s);
    }
  }

  lemma OnlyStartsReopen(d: Daemon, a: Action, s: SpecId)
    requires IsTerminal(d.db, s) && NoGuardedStart(d, s)
    ensures IsTerminal(Next(d, a).db, s)
  {
    StepStatus(d, a, s);
    hide Next;
  }

  lemma {:induction false} NoGuardedStartStaysTerminal(d: Daemon, rest: seq<Action>, s: SpecId)
    requires Inv(d) && IsTerminal(d.db, s) && NoGuardedStart(d, s)
    ensures IsTerminal(Play(d, rest).db, s)
    decreases |rest|
  {
    if rest != [] {
      OnlyStartsReopen(d, rest[0], s);
      StepKeepsNoGuardedStart(d, rest[0], s);
      NextKeepsInv(d, rest[0]);
      hide Next, Inv, NoGuardedStart, IsTerminal;
      NoGuardedStartStaysTerminal(Next(d, rest[0]), rest[1..], s);
    }
  }

  /** A terminal spec is terminal for good exactly if no handler stands between the read and the write of its start. */
  lemma TerminalForGoodIff(d: Daemon, s: SpecId)
    requires Inv(d) && IsTerminal(d.db, s)
    ensures (forall rest :: IsTerminal(Play(d, rest).db, s)) <==> NoGuardedStart(d, s)
  {
    if NoGuardedStart(d, s) {
      forall rest ensures IsTerminal(Play(d, rest).db, s) {
        NoGuardedStartStaysTerminal(d, rest, s);
      }
    } else {
      var p :| 0 <= p < |d.procs| && GuardedStart(d.procs[p], s);
      var a := Advance(p, Outside(None, [], 0));
      StepStatus(d, a, s);
      PlayOne(d, a);
      hide Next, Play, Inv;
      assert Target(d, a, s).Running?;
      assert !IsTerminal(Play(d, [a]).db, s);
    }
  }

  // ----- After a failed preflight -----

  /** A handler that can still come to queue a start of the spec. */
  predicate PendingStart(proc: Proc, s: SpecId) {
    || (proc.Preflighting? && proc.s == s)
    || (proc.Sending? && proc.e == SpecStarted(s))
    || (GuardedStart(proc, s) && (proc.purpose.ForDispatch? || proc.purpose.ForNotice?))
  }

  ghost predicate NoPendingStart(d: Daemon, s: SpecId) {
    forall p :: 0 <= p < |d.procs| ==> !PendingStart(d.procs[p], s)
  }

  lemma StartReturnsFromGuarded(db: Db, s: SpecId, stage: Stage, listed: seq<TaskId>, now: Time)
    requires HasStarted(db, s) && (stage.Fetching? || stage.Guarded?)
    ensures var progress := EmitStage(db, SpecStarted(s), stage, listed, now).1;
            progress == if stage.Guarded? then Returned(true) else Returned(false)
  {}

  lemma OwnStepPendsNoStart(d: Daemon, p: nat, outside: Outside, s: SpecId)
    requires p < |d.procs| && HasStarted(d.db, s) && !PendingStart(d.procs[p], s) && WellPlaced(d.procs[p])
    requires |AdvanceProc(d, p, outside).procs| == |d.procs|
    ensures !PendingStart(AdvanceProc(d, p, outside).procs[p], s)
  {
    if d.procs[p].InEmit? {
      if d.procs[p].e == SpecStarted(s) {
        StartReturnsFromGuarded(d.db, s, d.procs[p].stage, outside.listed, outside.now);
      }
    }
    hide EmitStage;
  }

  lemma StepKeepsNoPendingStart(d: Daemon, a: Action, s: SpecId)
    requires Inv(d) && HasStarted(d.db, s) && NoPendingStart(d, s)
    ensures HasStarted(Next(d, a).db, s) && NoPendingStart(Next(d, a), s)
  {
    StepStatus(d, a, s);
    var after := Next(d, a);
    forall p | 0 <= p < |after.procs| ensures !PendingStart(after.procs[p], s) {
      if a.Advance? && a.p == p {
        if p < |d.procs| {
          AdvanceKeepsCount(d, p, a.outside);
          assert WellPlaced(d.procs[p]);
          OwnStepPendsNoStart(d, p, a.outside, s);
        }
        hide AdvanceProc, Inv;
      } else {
        OthersStay(d, a, p);
        hide Next, Inv;
      }
    }
    hide Next;
  }

  /** The channel grows by what a handler was about to send, and by nothing else. */
  lemma ChannelGrows(d: Daemon, a: Action)
    ensures Next(d, a).channel ==
            d.channel + if a.Advance? && a.p < |d.procs| && d.procs[a.p].Sending? && d.open then [d.procs[a.p].e] else []
  {
    hide EmitStage;
  }

  lemma {:induction false} NoPendingStartQueuesNone(d: Daemon, rest: seq<Action>, s: SpecId)
    requires Inv(d) && HasStarted(d.db, s) && NoPendingStart(d, s) && SpecStarted(s) !in d.channel
    ensures SpecStarted(s) !in Play(d, rest).channel
    decreases |rest|
  {
    if rest != [] {
      ChannelGrows(d, rest[0]);
      StepKeepsNoPendingStart(d, rest[0], s);
      NextKeepsInv(d, rest[0]);
      hide Next, Inv;
      NoPendingStartQueuesNone(Next(d, rest[0]), rest[1..], s);
    }
  }

  lemma SendingQueues(d: Daemon, p: nat, s: SpecId)
    requires p < |d.procs| && d.open && d.procs[p].Sending? && d.procs[p].e == SpecStarted(s)
    ensures SpecStarted(s) in Play(d, [Go(p)]).channel
  {
    ChannelGrows(d, Go(p));
    PlayOne(d, Go(p));
    hide Next, Play;
    assert Next(d, Go(p)).channel[|d.channel|] == SpecStarted(s);
  }

  /** A step of one handler whose preflight passes. */
  function Go(p: nat): Action {
    Advance(p, Outside(None, [], 0))
  }

  lemma PassingSends(d: Daemon, p: nat, s: SpecId)
    requires p < |d.procs| && d.open && d.procs[p].Preflighting? && d.procs[p].s == s
    ensures SpecStarted(s) in Play(d, [Go(p)] + [Go(p)]).channel
  {
    var next := Goto(d, p, Sending(SpecStarted(s), d.procs[p].ticket));
    assert Next(d, Go(p)) == next;
    hide Next;
    SendingQueues(next, p, s);
    assert ([Go(p)] + [Go(p)])[1..] == [Go(p)];
  }

  lemma GuardedStartPasses(d: Daemon, p: nat, s: SpecId)
    requires p < |d.procs| && d.open && HasStarted(d.db, s) && GuardedStart(d.procs[p], s)
    ensures d.procs[p].purpose.ForNotice? ==> SpecStarted(s) in Play(d, [Go(p)] + [Go(p)]).channel
    ensures d.procs[p].purpose.ForDispatch? ==> SpecStarted(s) in Play(d, [Go(p)] + ([Go(p)] + [Go(p)])).channel
  {
    StartReturnsFromGuarded(d.db, s, Guarded, [], 0);
    var next := Next(d, Go(p));
    GuardedStartReturns(d, p, s);
    hide Next, EmitStage;
    assert ([Go(p)] + [Go(p)])[1..] == [Go(p)];
    assert ([Go(p)] + ([Go(p)] + [Go(p)]))[1..] == [Go(p)] + [Go(p)];
    if d.procs[p].purpose.ForNotice? {
      SendingQueues(next, p, s);
    } else if d.procs[p].purpose.ForDispatch? {
      PassingSends(next, p, s);
    }
  }

  lemma GuardedStartReturns(d: Daemon, p: nat, s: SpecId)
    requires p < |d.procs| && d.open && HasStarted(d.db, s) && GuardedStart(d.procs[p], s)
    ensures var next := Next(d, Go(p));
            && next.open && p < |next.procs|
            && next.procs[p] == AfterEmit(SpecStarted(s), d.procs[p].purpose, true, |d.log|)
  {
    StartReturnsFromGuarded(d.db, s, Guarded, [], 0);
    hide EmitStage;
  }

  /**
   After a failed preflight, with no start of the spec queued so far and the channel open, none ever will be exactly if
   no other handler is at its preflight for the spec, about to send its start, or between the read and the write of a
   start it would go on to send.
   */
  lemma NoStartAfterFailedPreflightIff(d: Daemon, p: nat, s: SpecId)
    requires Inv(d) && d.open && SpecStarted(s) !in d.channel
    requires p < |d.procs| && FailedPreflight(d.procs[p], s)
    ensures (forall rest :: SpecStarted(s) !in Play(d, rest).channel) <==> NoPendingStart(d, s)
  {
    assert HasStarted(d.db, s) by {
      assert Held(d.procs[p]).Some?;
      assert InLog(d.log, Held(d.procs[p]).value.0, SpecStarted(s));
    }
    hide Inv, FailedPreflight;
    if NoPendingStart(d, s) {
      forall rest ensures SpecStarted(s) !in Play(d, rest).channel {
        NoPendingStartQueuesNone(d, rest, s);
      }
    } else {
      var q :| 0 <= q < |d.procs| && PendingStart(d.procs[q], s);
      if d.procs[q].Sending? {
        SendingQueues(d, q, s);
      } else if d.procs[q].Preflighting? {
        PassingSends(d, q, s);
      } else {
        GuardedStartPasses(d, q, s);
      }
    }
  }

  /** Whatever else happens, the start that a refused dispatch had accepted is never queued. */
  lemma RefusedStartIsNeverSent(d: Daemon, actions: seq<Action>, p: nat, s: SpecId)
    requires Inv(d) && p < |d.procs| && FailedPreflight(d.procs[p], s)
    ensures Held(d.procs[p]).Some? && Held(d.procs[p]).value.0 !in Play(d, actions).tickets
  {
    PlayKeepsInv(d, actions);
    FailedPreflightIsFinal(d, actions, p, s);
    hide Play;
    HeldNotSent(Play(d, actions), p);
  }

  lemma HeldNotSent(d: Daemon, q: nat)
    requires Inv(d) && q < |d.procs| && Held(d.procs[q]).Some?
    ensures Held(d.procs[q]).value.0 !in d.tickets
  {}
}
