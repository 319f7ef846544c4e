/** Which clients can still be released from an open recovery. The client's own member
    is honest: it reports a load or a receipt only after its game has done it, although
    the report may be delayed or repeated. Everybody else may report anything. */
module RecoveryRelease {
  import opened Basics
  import CampaignState
  import CampaignCoreCodec
  import opened CampaignStore
  import opened CampaignHistory
  import opened RuntimeModel
  import opened OperationShapes
  import opened RuntimeInvariants
  import opened RuntimeSafety
  import opened RuntimeRuns
  import opened RecoveryTheorems
  import opened OpenAttempt
  import opened RecoveryProgress
  import opened RecoveryComposition
  import BarrierFreshness
  import CheckpointTheorems
  import FullRoster
  import JournalGrammar
  import RC = RecoveryClient
  import CR = RecoveryClientRuns

  /** A report of the client's member follows the deed it reports. */
  predicate HonestReport(deeds: seq<Deed>, step: Step, me: Id) {
    && (step.DoRecordLoaded? && step.loaded.actor.slot == me && step.loaded.succeeded ==>
          LoadedSave(step.loaded.attempt, step.loaded.checkpoint) in deeds)
    && (step.DoRecordApplied? && step.applied.actor.slot == me ==>
          AppliedSnapshot(step.applied.attempt, step.applied.checkpoint, step.applied.restore) in deeds)
  }

  predicate HonestMove(w: World, m: Move) {
    Possible(w, m) && (m.Server? ==> HonestReport(w.deeds, m.step, w.me))
  }

  ghost predicate HonestRun(cfg: Config, w: World, moves: seq<Move>)
    decreases |moves|
  {
    moves == [] ||
    (HonestRun(cfg, w, moves[..|moves| - 1])
     && HonestMove(Result(cfg, w, moves[..|moves| - 1]), moves[|moves| - 1]))
  }

  /*
   * What fits a history
   */

  predicate IsOpen(h: History, n: nat) { h.open.Some? && h.open.value.entry == n }

  /** An attempt of the past or the open one, with the checkpoint the open one has. */
  predicate FitsAttempt(h: History, n: nat, id: Id) {
    n <= h.revision && (IsOpen(h, n) ==> h.lastCommitted == Some(id))
  }

  predicate FitsSource(h: History, n: nat, id: Id, source: nat) {
    && FitsAttempt(h, n, id) && id != [] && source != 0
    && (IsOpen(h, n) ==> id in h.saved && source == h.saved[id].campaign.version)
  }

  predicate FitsMessage(h: History, m: RC.Message) {
    match m
    case LoadRequest(n, id, source) => FitsSource(h, n, id, source)
    case Snapshot(n, id, restore) => FitsAttempt(h, n, id) && restore == n + 1
    case Complete(n, _, restore) => n <= h.revision && !IsOpen(h, n) && restore == n + 1
  }

  predicate FitsClient(cfg: Config, h: History, c: RC.Client) {
    && RC.Sane(c)
    && (c.stage != RC.Idle ==> c.correlation.campaign == cfg.campaign)
    && (c.correlation.attempt.Some? ==>
          var n := c.correlation.attempt.value;
          && FitsSource(h, n, c.correlation.checkpoint, c.correlation.source)
          && (c.correlation.restore == 0 || c.correlation.restore == n + 1)
          && (c.stage == RC.Completed ==> !IsOpen(h, n)))
  }

  /** A deed of the open attempt shows in the client's stage. */
  predicate FitsDeed(h: History, c: RC.Client, d: Deed) {
    && d.attempt <= h.revision
    && (IsOpen(h, d.attempt) ==> CR.In(c, d.attempt) && RC.Progress(c.stage) >= (if d.LoadedSave? then 3 else 4))
  }

  /** The member counts for the second barrier only if its client applied the snapshot. */
  predicate FitsReceipt(v: Volatile, me: Id, c: RC.Client) {
    v.recovery.Some? && me in v.recovery.value.applied ==>
      CR.In(c, v.recovery.value.attempt) && RC.Progress(c.stage) >= 4
  }

  ghost predicate Fitting(cfg: Config, w: World) {
    && Valid(cfg, w.server) && cfg.campaign != []
    && var h := Past(cfg, w.server.d);
       && (forall m :: m in w.sent ==> FitsMessage(h, m))
       && FitsClient(cfg, h, w.client)
       && (forall d :: d in w.deeds ==> FitsDeed(h, w.client, d))
       && FitsReceipt(w.server.v, w.me, w.client)
  }

  /** What every honest run keeps. */
  ghost predicate HonestInv(cfg: Config, w: World) { WorldInv(cfg, w) && Fitting(cfg, w) }

  lemma OpenBefore(h: History, next: History, n: nat)
    requires Follows(h, next) && n <= h.revision && IsOpen(next, n)
    ensures IsOpen(h, n) && next.saved == h.saved && next.lastCommitted == h.lastCommitted
  {
  }

  lemma MessageFitsLater(h: History, next: History, m: RC.Message)
    requires Follows(h, next) && FitsMessage(h, m)
    ensures FitsMessage(next, m)
  {
    hide Follows;
    if IsOpen(next, m.attempt) {
      OpenBefore(h, next, m.attempt);
    }
    RevisionGrows(h, next);
  }

  lemma RevisionGrows(h: History, next: History)
    requires Follows(h, next)
    ensures h.revision <= next.revision
  {
  }

  lemma ClientFitsLater(cfg: Config, h: History, next: History, c: RC.Client)
    requires Follows(h, next) && FitsClient(cfg, h, c)
    ensures FitsClient(cfg, next, c)
  {
    hide Follows, RC.Sane;
    RevisionGrows(h, next);
    if c.correlation.attempt.Some? && IsOpen(next, c.correlation.attempt.value) {
      OpenBefore(h, next, c.correlation.attempt.value);
    }
  }

  lemma DeedFitsLater(h: History, next: History, c: RC.Client, d: Deed)
    requires Follows(h, next) && FitsDeed(h, c, d)
    ensures FitsDeed(next, c, d)
  {
    hide Follows, RC.Progress;
    RevisionGrows(h, next);
    if IsOpen(next, d.attempt) {
      OpenBefore(h, next, d.attempt);
    }
  }

  /*
   * The server's moves
   */

  lemma DispatchFits(cfg: Config, s: System, dispatch: Dispatch, m: RC.Message)
    requires Valid(cfg, s) && m in Dispatched(s, dispatch)
    ensures FitsMessage(Past(cfg, s.d), m) && IsOpen(Past(cfg, s.d), m.attempt) && !m.Complete?
  {
    hide Replay, SlotsApart;
    StandsAtRevision(cfg, s.d);
    ReplayIsSound(cfg, s.d.journal);
    var a := s.v.recovery.value;
    var h := Past(cfg, s.d);
    assert SoundSaved(cfg, h, a.checkpoint.value, h.saved[a.checkpoint.value]);
  }

  lemma CompletedHasNoRecovery(cfg: Config, s: System, c: AppliedReport, calls: nat)
    requires RecordAppliedOp(cfg, s, c, calls).completed
    ensures RecordAppliedOp(cfg, s, c, calls).s.v.recovery.None?
  {
    hide ReconstructRecovery, LoadAggregate, FullRoster.EvaluateFullRoster, ApplyMutation, CompletionIndex,
      MemberSlotIndex;
  }

  lemma EndedIsPast(cfg: Config, d: Durable, attempt: nat, checkpoint: Id, restore: nat)
    requires Stands(cfg, d) && Ended(d.journal, attempt, checkpoint, restore)
    ensures attempt <= Past(cfg, d).revision && !IsOpen(Past(cfg, d), attempt) && restore == attempt + 1
  {
    hide Replay, JournalGrammar.EachOnce;
    StandsAtRevision(cfg, d);
    var k :| 0 <= k < |d.journal| && d.journal[k].payload == CompleteRecovery(attempt, checkpoint, restore);
    FirstRecordCreates(cfg, d.journal);
    var b, m, slots := JournalGrammar.CompletedAttempt(cfg, d.journal, k);
    JournalIsAccounted(cfg, d.journal);
    CompletionMutation(cfg, d.journal, k);
    assert Accounted(cfg, Past(cfg, d), d.journal[k]);
  }

  lemma CompletionMutation(cfg: Config, journal: seq<Record>, k: nat)
    requires Replay(cfg, journal).Some? && 0 < k < |journal| && journal[k].payload.CompleteRecovery?
    ensures journal[k].mutation == CompleteOf(journal[k].payload.attempt)
  {
    hide Replay;
    JournalGrammar.ReplayPrefix(cfg, journal, k + 1);
    var front := journal[..k + 1];
    assert front[..k] == journal[..k] && front[k] == journal[k];
    ReplayStep(cfg, front);
  }

  lemma ReplayStep(cfg: Config, journal: seq<Record>)
    requires |journal| > 1 && Replay(cfg, journal).Some?
    ensures Replay(cfg, journal[..|journal| - 1]).Some?
    ensures Next(cfg, Replay(cfg, journal[..|journal| - 1]).value, journal[|journal| - 1]) == Replay(cfg, journal)
  {
    hide Next;
  }

  /** Every message of a step fits the history after it. */
  lemma SendsFit(cfg: Config, s: System, step: Step, me: Id, m: RC.Message)
    requires Valid(cfg, Exec(cfg, s, step)) && m in Sends(cfg, s, step, me)
    ensures FitsMessage(Past(cfg, Exec(cfg, s, step).d), m)
  {
    hide PrepareRecoveryOp, RecordLoadedOp, RecordAppliedOp, InStep, Dispatched, Ended, Replay, FitsSource, FitsAttempt,
      IsOpen, Told;
    var next := Exec(cfg, s, step);
    ValidStandsHere(cfg, next);
    match step
    case DoPrepare(presence, calls) => DispatchFits(cfg, next, PrepareRecoveryOp(cfg, s, presence, calls).dispatch, m);
    case DoRecordLoaded(c, calls) => DispatchFits(cfg, next, RecordLoadedOp(cfg, s, c, calls).dispatch, m);
    case DoRecordApplied(c, calls) =>
      CompletionIsJournaled(cfg, s, c, calls);
      EndedIsPast(cfg, next.d, c.attempt, c.checkpoint, c.restore);
    case _ =>
  }

  /** Who is new in the second barrier has just reported for the open attempt. */
  lemma ReceiptGained(cfg: Config, s: System, step: Step, me: Id)
    requires Valid(cfg, s) && Valid(cfg, Exec(cfg, s, step))
    requires Exec(cfg, s, step).v.recovery.Some? && me in Exec(cfg, s, step).v.recovery.value.applied
    ensures s.v.recovery.Some? && IsOpen(Past(cfg, s.d), s.v.recovery.value.attempt)
    ensures s.v.recovery.value.attempt == Exec(cfg, s, step).v.recovery.value.attempt
    ensures me in s.v.recovery.value.applied
            || (step.DoRecordApplied? && step.applied.actor.slot == me
                && step.applied.attempt == s.v.recovery.value.attempt)
  {
    hide Exec, Replay, Stands, RecordAppliedOp, BarrierFreshness.Members, BarrierFreshness.ProvesLoad,
      BarrierFreshness.ProvesApply, Follows, SlotsApart, FullRoster.EvaluateFullRoster, Tracks, TracksRecovery;
    ValidIsConsistent(cfg, s);
    StandsAtRevision(cfg, s.d);
    BarrierFreshness.ExecBarrierStep(cfg, s, step);
    RecoveringIsSealed(cfg, s);
    AttemptIsOpen(cfg, s.d, s.v.recovery.value);
    SameWhileRecovering(cfg, s, step);
    if me !in s.v.recovery.value.applied {
      ProvenReceipt(cfg, s, step.applied);
    }
  }

  lemma AttemptIsOpen(cfg: Config, d: Durable, a: RecoveryActivity)
    requires Replay(cfg, d.journal).Some? && TracksRecovery(Past(cfg, d), a)
    ensures IsOpen(Past(cfg, d), a.attempt)
  {
    hide Replay;
  }

  lemma ProvenReceipt(cfg: Config, s: System, c: AppliedReport)
    requires BarrierFreshness.ProvesApply(cfg, s, c)
    ensures Replay(cfg, s.d.journal).Some? && IsOpen(Past(cfg, s.d), c.attempt)
  {
    hide Replay, FullRoster.EvaluateFullRoster;
  }

  /** The second barrier gains the honest member only after its client's deed. */
  lemma ReceiptFits(cfg: Config, w: World, step: Step)
    requires Fitting(cfg, w) && HonestReport(w.deeds, step, w.me) && Valid(cfg, Exec(cfg, w.server, step))
    ensures FitsReceipt(Exec(cfg, w.server, step).v, w.me, w.client)
  {
    hide Exec, Valid, Replay, RC.Progress, FitsMessage, FitsClient;
    var s := w.server;
    var next := Exec(cfg, s, step);
    ValidStandsHere(cfg, s);
    if next.v.recovery.Some? && w.me in next.v.recovery.value.applied {
      ReceiptGained(cfg, s, step, w.me);
      if w.me !in s.v.recovery.value.applied {
        assert FitsDeed(Past(cfg, s.d), w.client,
                        AppliedSnapshot(step.applied.attempt, step.applied.checkpoint, step.applied.restore));
      }
    }
  }

  lemma SameWhileRecovering(cfg: Config, s: System, step: Step)
    requires Valid(cfg, s) && Valid(cfg, Exec(cfg, s, step)) && s.v.recovery.Some?
             && Exec(cfg, s, step).v.recovery.Some?
    ensures s.v.recovery.value.attempt == Exec(cfg, s, step).v.recovery.value.attempt
  {
    hide RecordAppliedOp, Follows, Replay, SlotsApart, EditOp, BeginCheckpointOp, RecordSaveOp, FailCheckpointOp,
      BeginRecoveryOp, PrepareRecoveryOp, RecordLoadedOp, ReconstructRecovery, Stands;
    RecoveringIsSealed(cfg, s);
    RecoveringIsSealed(cfg, Exec(cfg, s, step));
    OpenAttemptStays(cfg, s, step);
    if step.DoRecordApplied? && RecordAppliedOp(cfg, s, step.applied, step.calls).completed {
      CompletedHasNoRecovery(cfg, s, step.applied, step.calls);
    }
  }

  lemma ServerKeepsHonest(cfg: Config, w: World, step: Step)
    requires Fitting(cfg, w) && HonestReport(w.deeds, step, w.me) && SlotsApart(cfg, Exec(cfg, w.server, step).d)
    ensures Fitting(cfg, Advance(cfg, w, Server(step)))
  {
    hide Exec, Valid, Replay, RC.Progress, FitsMessage, FitsClient, FitsDeed, FitsReceipt, Sends, HonestReport,
      SlotsApart, Follows;
    var next := Exec(cfg, w.server, step);
    ExecKeepsValid(cfg, w.server, step);
    CheckpointTheorems.ExecFollows(cfg, w.server, step);
    ValidStandsHere(cfg, w.server);
    ValidStandsHere(cfg, next);
    var h, later := Past(cfg, w.server.d), Past(cfg, next.d);
    forall m | m in w.sent + Sends(cfg, w.server, step, w.me) ensures FitsMessage(later, m) {
      if m in w.sent {
        MessageFitsLater(h, later, m);
      } else {
        SendsFit(cfg, w.server, step, w.me, m);
      }
    }
    ClientFitsLater(cfg, h, later, w.client);
    forall d | d in w.deeds ensures FitsDeed(later, w.client, d) {
      DeedFitsLater(h, later, w.client, d);
    }
    ReceiptFits(cfg, w, step);
  }

  /*
   * The client's moves
   */

  lemma ReactionFits(cfg: Config, h: History, c: RC.Client, e: RC.Event)
    requires FitsClient(cfg, h, c) && cfg.campaign != [] && (e.Receive? ==> FitsMessage(h, e.message))
    ensures FitsClient(cfg, h, RC.React(c, e, cfg.campaign).0)
  {
    hide FitsSource;
  }

  /** A client busy with an attempt stays in it and gets no less far. */
  lemma BusyStays(c: RC.Client, e: RC.Event, n: nat, campaign: Id)
    requires RC.Sane(c) && CR.In(c, n) && c.stage != RC.Completed
    ensures var next := RC.React(c, e, campaign).0; CR.In(next, n) && CR.Further(c, next)
  {
    hide RC.React;
    BusyIsNotFree(c, n, campaign);
    CR.StepInAttempt(c, e, n, campaign);
  }

  lemma BusyIsNotFree(c: RC.Client, n: nat, campaign: Id)
    requires RC.Sane(c) && CR.In(c, n) && c.stage != RC.Completed
    ensures !CR.Free(c, campaign)
  {
  }

  lemma ClientKeepsHonest(cfg: Config, w: World, e: RC.Event)
    requires Fitting(cfg, w) && Possible(w, ClientEvent(e))
    ensures Fitting(cfg, Advance(cfg, w, ClientEvent(e)))
  {
    hide Valid, Replay, RC.Progress, FitsMessage, RC.React, FitsSource, FitsAttempt, RC.Sane;
    ValidStandsHere(cfg, w.server);
    var h := Past(cfg, w.server.d);
    var next := RC.React(w.client, e, cfg.campaign).0;
    ReactionFits(cfg, h, w.client, e);
    forall n | CR.In(w.client, n) && IsOpen(h, n) ensures CR.In(next, n) && CR.Further(w.client, next) {
      BusyStays(w.client, e, n, cfg.campaign);
    }
    forall d | d in w.deeds + Does(w.client, next) ensures FitsDeed(h, next, d) {
      if d in w.deeds {
        assert FitsDeed(h, w.client, d);
      } else {
        NewDeedFits(cfg, h, w.client, next, d);
      }
    }
    if w.server.v.recovery.Some? && w.me in w.server.v.recovery.value.applied {
      ValidStandsHere(cfg, w.server);
      RecoveringIsSealed(cfg, w.server);
      AttemptIsOpen(cfg, w.server.d, w.server.v.recovery.value);
    }
  }

  lemma NewDeedFits(cfg: Config, h: History, c: RC.Client, next: RC.Client, d: Deed)
    requires FitsClient(cfg, h, next) && d in Does(c, next)
    ensures FitsDeed(h, next, d)
  {
  }

  lemma HonestMoveKeeps(cfg: Config, w: World, m: Move)
    requires HonestInv(cfg, w) && HonestMove(w, m) && MoveApart(cfg, Advance(cfg, w, m))
    ensures HonestInv(cfg, Advance(cfg, w, m))
  {
    hide Exec, Valid, Replay, FitsMessage, FitsClient, FitsDeed, FitsReceipt, Sends, HonestReport, SlotsApart, RC.React,
      WorldInv;
    MoveKeeps(cfg, w, m);
    match m
    case Server(step) => ServerKeepsHonest(cfg, w, step);
    case ClientEvent(e) => ClientKeepsHonest(cfg, w, e);
    case Lose(m) =>
  }

  /** The invariant holds after every honest run. */
  lemma {:induction false} HonestRunKeeps(cfg: Config, w: World, moves: seq<Move>)
    requires HonestInv(cfg, w) && HonestRun(cfg, w, moves) && MoveApart(cfg, Result(cfg, w, moves))
    ensures HonestInv(cfg, Result(cfg, w, moves))
  {
    hide Advance, HonestInv, HonestMove, MoveApart;
    if moves != [] {
      var n := |moves| - 1;
      var before := Result(cfg, w, moves[..n]);
      ApartBeforeMove(cfg, before, moves[n]);
      HonestRunKeeps(cfg, w, moves[..n]);
      HonestMoveKeeps(cfg, before, moves[n]);
    }
  }

  lemma HonestWorldsBegin(cfg: Config, mutation: Id, roster: seq<CampaignState.SlotRecord>, me: Id)
    requires CreateLobby(cfg, mutation, roster).Some? && CampaignState.ValidIdentity(cfg.campaign)
    ensures HonestInv(cfg, World(CreateLobby(cfg, mutation, roster).value, {}, RC.FRESH, [], me, false))
  {
    hide CreateLobby, Valid, WorldInv;
    CreatedIsValid(cfg, mutation, roster);
    CreatedIsIdle(cfg, mutation, roster);
    WorldsBeginSound(cfg, mutation, roster, me);
  }

  lemma CreatedIsIdle(cfg: Config, mutation: Id, roster: seq<CampaignState.SlotRecord>)
    requires CreateLobby(cfg, mutation, roster).Some?
    ensures CreateLobby(cfg, mutation, roster).value.v == Volatile(None, None)
  {
    hide CampaignCoreCodec.EncodeCore, CampaignCoreCodec.EncodeIntent, CampaignState.RosterFault;
  }

  /*
   * Clients that cannot follow the open attempt
   */

  /** The network still holds what the client needs to finish the attempt it is in. */
  predicate Escapes(sent: set<RC.Message>, c: RC.Client) {
    && c.correlation.attempt.Some?
    && var n, id := c.correlation.attempt.value, c.correlation.checkpoint;
       && RC.Complete(n, id, n + 1) in sent
       && (c.stage == RC.SnapshotApplied || RC.Snapshot(n, id, n + 1) in sent)
       && (c.stage == RC.Failed ==> RC.LoadRequest(n, id, c.correlation.source) in sent)
  }

  /** The client is at rest, merely locked, in the open attempt already, or able to finish
      the other attempt it is in. */
  predicate CanFollow(cfg: Config, w: World, m: nat) {
    CR.Free(w.client, cfg.campaign) || CR.In(w.client, m) || Escapes(w.sent, w.client)
  }

  predicate Listed(slots: seq<CampaignState.SlotRecord>, me: Id) {
    exists i :: 0 <= i < |slots| && slots[i].slot == me
  }

  /** An attempt is open whose honest member's client cannot follow it. */
  ghost predicate Blocked(cfg: Config, w: World, m: nat) {
    && HonestInv(cfg, w) && IsOpen(Past(cfg, w.server.d), m) && Listed(w.server.d.slots, w.me)
    && !CanFollow(cfg, w, m)
  }

  lemma CompletesKnown(cfg: Config, s: System, c: AppliedReport, calls: nat)
    requires Consistent(cfg, s) && Past(cfg, s.d).open.Some? && RecordAppliedOp(cfg, s, c, calls).completed
    ensures s.v.recovery.Some?
  {
    hide ReconstructRecovery, Consistent, AcknowledgeSnapshot, Replay, RecordAppliedOp, LoadAggregate,
      FullRoster.EvaluateFullRoster, MemberSlotIndex;
    RebuiltAttempt(cfg, s, calls);
    RecordAppliedCases(cfg, s, c, calls);
    BarrierFreshness.RebuiltIsLocked(cfg, s, calls);
  }

  lemma ListedIsMember(d: Durable, me: Id)
    requires Listed(d.slots, me)
    ensures me in BarrierFreshness.Members(d)
  {
  }

  /** Completing an attempt takes a receipt of every member. */
  lemma CompletionCounts(cfg: Config, s: System, c: AppliedReport, calls: nat, me: Id)
    requires Valid(cfg, s) && Past(cfg, s.d).open.Some? && RecordAppliedOp(cfg, s, c, calls).completed
    requires Listed(s.d.slots, me)
    ensures s.v.recovery.Some?
    ensures me in s.v.recovery.value.applied
            || (c.actor.slot == me && IsOpen(Past(cfg, s.d), c.attempt))
  {
    hide RecordAppliedOp, BarrierFreshness.Members, BarrierFreshness.ProvesApply, InStep, SlotsApart, Replay,
      BarrierFreshness.BarrierStep;
    ValidIsConsistent(cfg, s);
    CompletesKnown(cfg, s, c, calls);
    BarrierFreshness.RecordAppliedEffect(cfg, s, c, calls);
    ListedIsMember(s.d, me);
    if BarrierFreshness.ProvesApply(cfg, s, c) {
      ProvenReceipt(cfg, s, c);
    }
  }

  lemma NoDeedsOfBlocked(cfg: Config, w: World, m: nat)
    requires Blocked(cfg, w, m)
    ensures forall d :: d in w.deeds ==> d.attempt != m
    ensures !CR.In(w.client, m)
  {
    hide Valid, Replay, RC.Progress, FitsMessage, FitsClient, WorldInv, Listed, Escapes;
    ValidStandsHere(cfg, w.server);
    forall d | d in w.deeds ensures d.attempt != m {
      assert FitsDeed(Past(cfg, w.server.d), w.client, d);
    }
  }

  /** So a blocked attempt is not completed by any honest step. */
  lemma BlockedIsNotCompleted(cfg: Config, w: World, m: nat, step: Step)
    requires Blocked(cfg, w, m) && HonestReport(w.deeds, step, w.me)
    ensures !(step.DoRecordApplied? && RecordAppliedOp(cfg, w.server, step.applied, step.calls).completed)
  {
    hide RecordAppliedOp, Valid, Replay, RC.Progress, FitsMessage, FitsClient, WorldInv, Listed, Escapes;
    var s := w.server;
    NoDeedsOfBlocked(cfg, w, m);
    ValidStandsHere(cfg, s);
    if s.v.recovery.Some? {
      RecoveringIsSealed(cfg, s);
      AttemptIsOpen(cfg, s.d, s.v.recovery.value);
    }
    if step.DoRecordApplied? && RecordAppliedOp(cfg, s, step.applied, step.calls).completed {
      CompletionCounts(cfg, s, step.applied, step.calls, w.me);
    }
  }

  /** Steps of an open attempt send messages of that attempt only, and no completion. */
  lemma SendsOfOpen(cfg: Config, s: System, step: Step, me: Id, m: nat, x: RC.Message)
    requires Valid(cfg, Exec(cfg, s, step)) && IsOpen(Past(cfg, Exec(cfg, s, step).d), m)
    requires x in Sends(cfg, s, step, me)
    requires !(step.DoRecordApplied? && RecordAppliedOp(cfg, s, step.applied, step.calls).completed)
    ensures x.attempt == m && !x.Complete?
  {
    hide PrepareRecoveryOp, RecordLoadedOp, RecordAppliedOp, InStep, Dispatched, Replay, FitsMessage, Told;
    var next := Exec(cfg, s, step);
    ValidStandsHere(cfg, next);
    match step
    case DoPrepare(presence, calls) => DispatchFits(cfg, next, PrepareRecoveryOp(cfg, s, presence, calls).dispatch, x);
    case DoRecordLoaded(c, calls) => DispatchFits(cfg, next, RecordLoadedOp(cfg, s, c, calls).dispatch, x);
    case _ =>
  }

  lemma BusyHasAttempt(cfg: Config, h: History, c: RC.Client)
    requires FitsClient(cfg, h, c) && !CR.Free(c, cfg.campaign)
    ensures c.correlation.attempt.Some?
            && c.stage in {RC.Failed, RC.LoadingNativeSave, RC.NativeSaveLoaded, RC.SnapshotApplied}
  {
  }

  lemma ServerKeepsBlocked(cfg: Config, w: World, m: nat, step: Step)
    requires Blocked(cfg, w, m) && HonestReport(w.deeds, step, w.me)
    ensures Blocked(cfg, Advance(cfg, w, Server(step)), m)
  {
    hide Exec, Valid, Replay, Sends, HonestReport, Listed, RecordAppliedOp, FitsMessage, FitsDeed, FitsReceipt,
      WorldInv, Follows, CR.Free, FitsClient;
    var s, next := w.server, Exec(cfg, w.server, step);
    ValidStandsHere(cfg, s);
    RecoveringIsSealed(cfg, s);
    StepKeeps(cfg, s, step);
    ValidStandsHere(cfg, next);
    ValidIsApart(cfg, next);
    HonestMoveKeeps(cfg, w, Server(step));
    BlockedIsNotCompleted(cfg, w, m, step);
    OpenAttemptStays(cfg, s, step);
    BusyHasAttempt(cfg, Past(cfg, s.d), w.client);
    forall x | x in Sends(cfg, s, step, w.me) ensures x.attempt == m {
      SendsOfOpen(cfg, s, step, w.me, m, x);
    }
  }

  lemma ValidIsApart(cfg: Config, s: System)
    requires Valid(cfg, s)
    ensures SlotsApart(cfg, s.d)
  {
  }

  /** A client that cannot finish its attempt does not get to by anything it receives. */
  lemma ReactionKeepsCaught(cfg: Config, h: History, sent: set<RC.Message>, c: RC.Client, e: RC.Event)
    requires FitsClient(cfg, h, c) && !CR.Free(c, cfg.campaign) && !Escapes(sent, c)
    requires e.Receive? ==> e.message in sent && FitsMessage(h, e.message)
    ensures var next := RC.React(c, e, cfg.campaign).0;
            !CR.Free(next, cfg.campaign) && next.correlation.attempt == c.correlation.attempt && !Escapes(sent, next)
  {
    hide FitsSource, FitsAttempt, IsOpen;
  }

  lemma ClientKeepsBlocked(cfg: Config, w: World, m: nat, e: RC.Event)
    requires Blocked(cfg, w, m) && Possible(w, ClientEvent(e))
    ensures Blocked(cfg, Advance(cfg, w, ClientEvent(e)), m)
  {
    hide Valid, Replay, FitsMessage, FitsDeed, FitsReceipt, WorldInv, CR.Free, FitsClient, Escapes, RC.React, Listed;
    ValidStandsHere(cfg, w.server);
    ValidIsApart(cfg, w.server);
    HonestMoveKeeps(cfg, w, ClientEvent(e));
    BusyHasAttempt(cfg, Past(cfg, w.server.d), w.client);
    ReactionKeepsCaught(cfg, Past(cfg, w.server.d), w.sent, w.client, e);
  }

  lemma LossKeepsBlocked(cfg: Config, w: World, m: nat, x: RC.Message)
    requires Blocked(cfg, w, m)
    ensures Blocked(cfg, Advance(cfg, w, Lose(x)), m)
  {
    hide Valid, Replay, FitsMessage, FitsDeed, FitsReceipt, WorldInv, CR.Free, FitsClient, RC.React, Listed;
    ValidStandsHere(cfg, w.server);
    ValidIsApart(cfg, w.server);
    HonestMoveKeeps(cfg, w, Lose(x));
  }

  /** A blocked attempt stays open and its client stays caught over every honest run:
      nobody is ever released from it. */
  lemma {:induction false} BlockedForGood(cfg: Config, w: World, m: nat, moves: seq<Move>)
    requires Blocked(cfg, w, m) && HonestRun(cfg, w, moves)
    ensures Blocked(cfg, Result(cfg, w, moves), m)
  {
    hide Advance, Blocked, HonestReport;
    if moves != [] {
      var n := |moves| - 1;
      var before := Result(cfg, w, moves[..n]);
      BlockedForGood(cfg, w, m, moves[..n]);
      match moves[n]
      case Server(step) => ServerKeepsBlocked(cfg, before, m, step);
      case ClientEvent(e) => ClientKeepsBlocked(cfg, before, m, e);
      case Lose(x) => LossKeepsBlocked(cfg, before, m, x);
    }
  }
}
