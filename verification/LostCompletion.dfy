/** A lost completion: the server and the other members go on, and the client that
    missed it holds up the next recovery for good. */
module LostCompletion {
  import opened Basics
  import CampaignState
  import opened CampaignStore
  import opened CampaignHistory
  import opened RuntimeModel
  import opened OperationShapes
  import opened RuntimeInvariants
  import opened RuntimeSafety
  import opened RuntimeRuns
  import opened RecoveryTheorems
  import opened RecoveryProgress
  import opened RecoveryComposition
  import opened RecoveryRelease
  import opened RecoveryFollow
  import FullRoster
  import OpenAttempt
  import RecoverySafety
  import RosterLoss
  import RC = RecoveryClient
  import CR = RecoveryClientRuns

  /*
   * What the server does
   */

  /** With nobody left of a sealed roster, the next attempt opens. */
  lemma LossStep(cfg: Config, s: System) returns (step: Step)
    requires Idle(cfg, s) && s.d.sealed && s.d.slots != [] && s.d.revision < MAX_REVISION
    ensures step.DoBeginRecovery?
    ensures var next := Exec(cfg, s, step);
            && Valid(cfg, next) && next.d.slots == s.d.slots && next.d.revision == s.d.revision + 1
            && Past(cfg, next.d) == Past(cfg, s.d).(revision := s.d.revision + 1,
                                                    open := Some(Attempt(s.d.revision + 1, false, {}, {})))
  {
    hide Replay, SlotsApart, Stands, FullRoster.EvaluateFullRoster, CampaignState.MemberIndex, BeginRecoveryOp;
    step := DoBeginRecovery(LossReport(MemberAt(cfg, s.d.slots, 0), [], true, false), PLENTY);
    ValidStandsHere(cfg, s);
    StandsAtRevision(cfg, s.d);
    FullIsEligible(cfg, s.d, []);
    StoredMember(cfg, s.d, 0);
    RosterLoss.LossOpens(cfg, s, step.loss, PLENTY);
    OpenAttempt.StepKeeps(cfg, s, step);
    StandsAtRevision(cfg, Exec(cfg, s, step).d);
  }

  lemma StoredMember(cfg: Config, d: Durable, i: nat)
    requires Stands(cfg, d) && i < |d.slots|
    ensures var roster := Current(Past(cfg, d)).roster;
            CampaignState.MemberIndex(roster, MemberAt(cfg, d.slots, i).Record()) < |roster|
  {
    hide Replay;
    assert d.slots == CampaignState.Records(Past(cfg, d).campaign.roster);
    assert Past(cfg, d).campaign.roster[i].Record() == d.slots[i];
  }

  /** Nothing but the journal changes. */
  predicate OnlyJournals(d: Durable, next: Durable) { next == d.(journal := next.journal) }

  lemma NoChangeJournals(d: Durable, q: Request)
    requires q.content.NoChange?
    ensures OnlyJournals(d, ApplyMutation(d, q).d)
  {
    hide JournalIndex, Storable;
  }

  lemma ReceiptJournals(cfg: Config, s: System, a: RecoveryActivity, version: nat, k: Checkpoint, x: CheckpointSlot,
                        c: AppliedReport, calls: nat)
    ensures OnlyJournals(s.d, AcknowledgeSnapshot(cfg, s, a, version, k, x, c, calls).s.d)
  {
    hide ApplyMutation;
    var q := RecoverySafety.AckRequest(cfg, version, ApplyAck(a.attempt, c.restore), k.id, x);
    NoChangeJournals(s.d, q);
    NoChangeJournals(s.d, RecoverySafety.CompleteRequest(c));
    NoChangeJournals(ApplyMutation(s.d, q).d, RecoverySafety.CompleteRequest(c));
  }

  lemma ReceiptOnlyJournals(cfg: Config, s: System, c: AppliedReport, calls: nat)
    ensures OnlyJournals(s.d, RecordAppliedOp(cfg, s, c, calls).s.d)
  {
    hide ReconstructRecovery, LoadAggregate, FullRoster.EvaluateFullRoster, MemberSlotIndex, RecordAppliedOp,
      AcknowledgeSnapshot;
    RecordAppliedCases(cfg, s, c, calls);
    var g := ReconstructRecovery(cfg, s, calls);
    if ApplyReaches(cfg, s, c, g) {
      var k := s.d.checkpoints[c.checkpoint];
      ReceiptJournals(cfg, s.(v := g.v), g.v.recovery.value, LoadAggregate(cfg, s.d).value.version, k,
                      k.slots[MemberSlotIndex(k.slots, c.actor)], c, g.left - 3);
    }
  }

  lemma {:induction false} ReceiptsOnlyJournal(cfg: Config, s: System, steps: seq<Step>)
    requires forall i :: 0 <= i < |steps| ==> steps[i].DoRecordApplied?
    ensures OnlyJournals(s.d, Run(cfg, s, steps).d)
  {
    hide RecordAppliedOp;
    if steps != [] {
      var n := |steps| - 1;
      ReceiptsOnlyJournal(cfg, s, steps[..n]);
      ReceiptOnlyJournals(cfg, Run(cfg, s, steps[..n]), steps[n].applied, steps[n].calls);
    }
  }

  lemma ReceiptsAreReceipts(cfg: Config, slots: seq<CampaignState.SlotRecord>, m: nat, id: Id, steps: seq<Step>)
    requires ReportsFrom(cfg, slots, 0, false, m, id, steps)
    ensures forall i :: 0 <= i < |steps| ==> steps[i].DoRecordApplied?
  {
    forall i | 0 <= i < |steps| ensures steps[i].DoRecordApplied? {
      assert Reports(cfg, slots, 0 + i, false, m, id, steps[i]);
    }
  }

  /** While the snapshot is applied the campaign stands at its restore. */
  lemma ApplyingRevision(cfg: Config, s: System, m: nat, id: Id)
    requires Applying(cfg, s, 0) && Goes(cfg, s.d, m, id)
    ensures s.d.revision == m + 1
  {
    hide Replay, SlotsApart, Stands;
    ValidStandsHere(cfg, s);
    StandsAtRevision(cfg, s.d);
    ReplayIsSound(cfg, s.d.journal);
    RecoverySafety.RestoreRevisionIsCurrent(cfg, Past(cfg, s.d), s.v.recovery.value);
  }

  function Everybody(cfg: Config, slots: seq<CampaignState.SlotRecord>): (r: seq<CampaignState.Presence>)
    ensures |r| == |slots|
    ensures forall i :: 0 <= i < |r| ==> r[i] == CampaignState.Presence(MemberAt(cfg, slots, i), true, true)
  {
    seq(|slots|, i requires 0 <= i < |slots| => CampaignState.Presence(MemberAt(cfg, slots, i), true, true))
  }

  lemma {:induction false} EverybodyAdmitted(cfg: Config, slots: seq<CampaignState.SlotRecord>)
    ensures FullRoster.Admitted(Everybody(cfg, slots)) == MembersOf(cfg, slots)
  {
    if slots != [] {
      var n := |slots| - 1;
      EverybodyAdmitted(cfg, slots[..n]);
      assert Everybody(cfg, slots)[..n] == Everybody(cfg, slots[..n]);
      assert MembersOf(cfg, slots) == MembersOf(cfg, slots[..n]) + [MemberAt(cfg, slots, n)];
    }
  }

  lemma EverybodyIsFull(cfg: Config, slots: seq<CampaignState.SlotRecord>)
    requires slots != []
    ensures FullPresence(cfg, slots, Everybody(cfg, slots))
  {
    EverybodyAdmitted(cfg, slots);
  }

  /*
   * The run
   */

  /** No attempt is open, a checkpoint is committed, and the honest member's client is
      at rest or merely locked. */
  ghost predicate Settled(cfg: Config, w: World) {
    && HonestInv(cfg, w) && Idle(cfg, w.server) && w.server.d.sealed && w.server.d.lastCommitted.Some?
    && Listed(w.server.d.slots, w.me) && CR.Free(w.client, cfg.campaign)
    && w.server.d.revision + 4 <= MAX_REVISION
  }

  lemma OpenNext(cfg: Config, w: World) returns (moves: seq<Move>)
    requires HonestInv(cfg, w) && Idle(cfg, w.server) && w.server.d.sealed && w.server.d.lastCommitted.Some?
    requires w.server.d.slots != [] && w.server.d.revision + 2 <= MAX_REVISION
    ensures HonestRun(cfg, w, moves)
    ensures var last := Result(cfg, w, moves);
            && HonestInv(cfg, last) && Valid(cfg, last.server) && last.server.d.slots == w.server.d.slots
            && last.client == w.client && last.sent == w.sent
            && Goes(cfg, last.server.d, w.server.d.revision + 1, w.server.d.lastCommitted.value)
            && Room(cfg, last.server.d)
            && last.server.d.revision == w.server.d.revision + 1
  {
    var step := LossStep(cfg, w.server);
    hide Exec, HonestInv, Replay, Stands, SlotsApart, Tracks;
    OneMove(cfg, w, Server(step));
    ValidIsApart(cfg, Exec(cfg, w.server, step));
    HonestMoveKeeps(cfg, w, Server(step));
    moves := [Server(step)];
    ValidStandsHere(cfg, w.server);
    SameCommitted(cfg, w.server.d);
  }

  lemma SameCommitted(cfg: Config, d: Durable)
    requires Stands(cfg, d)
    ensures Past(cfg, d).lastCommitted == d.lastCommitted
  {
    hide Replay;
  }

  /** Everybody applies the open attempt's snapshot and reports it, so the attempt is
      completed, but the message that says so is lost. */
  lemma CompleteUnheard(cfg: Config, w: World, m: nat, id: Id) returns (moves: seq<Move>)
    requires HonestInv(cfg, w) && Valid(cfg, w.server) && Goes(cfg, w.server.d, m, id) && Room(cfg, w.server.d)
    requires w.server.d.slots != [] && CR.Free(w.client, cfg.campaign)
    ensures HonestRun(cfg, w, moves)
    ensures var last := Result(cfg, w, moves);
            && HonestInv(cfg, last) && Idle(cfg, last.server) && HasApplied(last.client, m, id)
            && RC.Complete(m, id, m + 1) !in last.sent && last.server.d.revision == m + 1
            && last.server.d.lastCommitted == Some(id) && last.server.d.slots == w.server.d.slots
            && last.server.d.sealed
  {
    hide Exec, Run, HonestInv, Result, HonestRun, Goes, Valid, Room, FullPresence, CR.Free, HasLoaded, HasApplied,
      Loading, Applying, Idle, ReportsFrom, LastRestores, LastCompletes, PrepareRecoveryOp;
    var slots := w.server.d.slots;
    EverybodyIsFull(cfg, slots);
    var lock, prepare, loads, receipts := AttemptHasPlan(cfg, w.server, Everybody(cfg, slots), m, id);
    var first := FirstPhase(cfg, w, m, id, lock, prepare);
    var w1 := Result(cfg, w, first);
    var second := SecondPhase(cfg, w1, slots, m, id, loads);
    var w2 := Result(cfg, w1, second);
    var third := Unheard(cfg, w2, slots, m, id, receipts);
    HonestAppend(cfg, w, first, second);
    HonestAppend(cfg, w, first + second, third);
    RosterStays(cfg, w.server, m, id, lock, prepare, loads);
    moves := first + second + third;
  }

  lemma RosterStays(cfg: Config, s: System, m: nat, id: Id, lock: Step, prepare: Step, loads: seq<Step>)
    requires Valid(cfg, s) && Goes(cfg, s.d, m, id)
    ensures Run(cfg, Exec(cfg, Exec(cfg, s, lock), prepare), loads).d.slots == s.d.slots
  {
    hide Exec, Run, Replay, InStep, SlotsApart;
    OpenAttempt.RecoveringIsSealed(cfg, s);
    ExecExtends(cfg, s, lock);
    ExecExtends(cfg, Exec(cfg, s, lock), prepare);
    RunExtends(cfg, Exec(cfg, Exec(cfg, s, lock), prepare), loads);
  }

  lemma Unheard(cfg: Config, w: World, slots: seq<CampaignState.SlotRecord>, m: nat, id: Id,
                receipts: seq<Step>)
    returns (moves: seq<Move>)
    requires HonestInv(cfg, w) && HasApplied(w.client, m, id) && AppliedSnapshot(m, id, m + 1) in w.deeds
    requires Applying(cfg, w.server, 0) && Goes(cfg, w.server.d, m, id)
    requires ReportsFrom(cfg, slots, 0, false, m, id, receipts) && Idle(cfg, Run(cfg, w.server, receipts))
    ensures HonestRun(cfg, w, moves)
    ensures var last := Result(cfg, w, moves);
            && HonestInv(cfg, last) && Idle(cfg, last.server) && last.client == w.client
            && RC.Complete(m, id, m + 1) !in last.sent && last.server.d.revision == m + 1
            && last.server.d.lastCommitted == Some(id) && last.server.d.slots == w.server.d.slots
            && last.server.d.sealed
  {
    GoesIsSealed(cfg, w.server, m, id);
    ApplyingRevision(cfg, w.server, m, id);
    hide Exec, Run, HonestInv, Result, HonestRun, Valid, HonestReport, ReportsFrom, Goes, Applying, Advance;
    ReportsAreHonest(cfg, slots, false, m, id, receipts, w.deeds, w.me);
    ReceiptsAreReceipts(cfg, slots, m, id, receipts);
    ReceiptsOnlyJournal(cfg, w.server, receipts);
    ServerAlone(cfg, w, receipts);
    KeptByServer(cfg, w, receipts);
    var done := Result(cfg, w, ServerMoves(receipts));
    var lose := Lose(RC.Complete(m, id, m + 1));
    LossGoes(cfg, done, RC.Complete(m, id, m + 1));
    HonestAppend(cfg, w, ServerMoves(receipts), [lose]);
    moves := ServerMoves(receipts) + [lose];
  }

  lemma LossGoes(cfg: Config, w: World, x: RC.Message)
    requires HonestInv(cfg, w)
    ensures HonestRun(cfg, w, [Lose(x)]) && HonestInv(cfg, Result(cfg, w, [Lose(x)]))
    ensures Result(cfg, w, [Lose(x)]) == w.(sent := w.sent - {x})
  {
    ServerIsValid(cfg, w);
    ValidIsApart(cfg, w.server);
    hide HonestInv, HonestMove, Valid, SlotsApart;
    LossIsHonest(w, x);
    OneMove(cfg, w, Lose(x));
    HonestMoveKeeps(cfg, w, Lose(x));
  }

  lemma LossIsHonest(w: World, x: RC.Message)
    ensures HonestMove(w, Lose(x))
  {
  }

  lemma GoesIsSealed(cfg: Config, s: System, m: nat, id: Id)
    requires Applying(cfg, s, 0) && Goes(cfg, s.d, m, id)
    ensures s.d.sealed && s.d.lastCommitted == Some(id)
  {
    hide Replay, SlotsApart, Stands;
    ValidStandsHere(cfg, s);
    OpenAttempt.RecoveringIsSealed(cfg, s);
    SameCommitted(cfg, s.d);
  }

  /** From every settled world some honest run ends with an attempt open that the
      service could complete and the client can never be released from: the completion
      of the attempt before is lost, and a member drops out again. */
  lemma LostCompletionBlocks(cfg: Config, w: World) returns (moves: seq<Move>, m: nat)
    requires Settled(cfg, w)
    ensures HonestRun(cfg, w, moves) && Blocked(cfg, Result(cfg, w, moves), m)
    ensures Valid(cfg, Result(cfg, w, moves).server) && Room(cfg, Result(cfg, w, moves).server.d)
    ensures Past(cfg, Result(cfg, w, moves).server.d).lastCommitted.Some?
  {
    var n, id := w.server.d.revision + 1, w.server.d.lastCommitted.value;
    hide Exec, HonestInv, Result, HonestRun, Goes, Valid, Room, CR.Free, HasApplied, Idle;
    var first := OpenNext(cfg, w);
    var w1 := Result(cfg, w, first);
    var second := CompleteUnheard(cfg, w1, n, id);
    var w2 := Result(cfg, w1, second);
    var third := OpenNext(cfg, w2);
    var w3 := Result(cfg, w2, third);
    m := n + 2;
    HonestAppend(cfg, w, first, second);
    HonestAppend(cfg, w, first + second, third);
    moves := first + second + third;
    LeftBehind(cfg, w3, n, m, id);
  }

  lemma LeftBehind(cfg: Config, w: World, n: nat, m: nat, id: Id)
    requires HonestInv(cfg, w) && HasApplied(w.client, n, id) && RC.Complete(n, id, n + 1) !in w.sent && n != m
    requires Goes(cfg, w.server.d, m, id) && Listed(w.server.d.slots, w.me)
    ensures Blocked(cfg, w, m) && Past(cfg, w.server.d).lastCommitted.Some?
  {
    hide HonestInv, Replay;
  }
}
