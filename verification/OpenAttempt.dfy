/** An open attempt stays the open attempt until a receipt completes it. */
module OpenAttempt {
  import opened Basics
  import opened CampaignState
  import opened FullRoster
  import opened CampaignStore
  import opened CampaignHistory
  import opened RuntimeModel
  import opened OperationShapes
  import opened RuntimeInvariants
  import opened RecoveryRebuild
  import opened RuntimeSafety
  import opened RuntimeRuns
  import opened CheckpointTheorems
  import opened RecoveryTheorems

  /** With a sealed roster every step keeps the service valid and the roster in place. */
  lemma StepKeeps(cfg: Config, s: System, step: Step)
    requires Valid(cfg, s) && s.d.sealed
    ensures Valid(cfg, Exec(cfg, s, step)) && Exec(cfg, s, step).d.sealed && Exec(cfg, s, step).d.slots == s.d.slots
  {
    hide Exec, InStep;
    ExecExtends(cfg, s, step);
    ExecKeepsValid(cfg, s, step);
  }

  lemma RecoveringIsSealed(cfg: Config, s: System)
    requires Valid(cfg, s) && (s.v.recovery.Some? || Past(cfg, s.d).open.Some?)
    ensures s.d.sealed && Past(cfg, s.d).open.Some?
    ensures s.v.recovery.Some? ==> TracksRecovery(Past(cfg, s.d), s.v.recovery.value) && s.v.active.None?
  {
    hide Replay, SlotsApart;
    ReplayIsSound(cfg, s.d.journal);
  }

  /** The service knows the open attempt, or its rebuilding failed and changed nothing. */
  lemma RebuiltAttempt(cfg: Config, s: System, calls: nat)
    requires Consistent(cfg, s) && Past(cfg, s.d).open.Some?
    ensures var g := ReconstructRecovery(cfg, s, calls);
            g.failure.None? ==> g.v.recovery.Some? && g.v.recovery.value.attempt == Past(cfg, s.d).open.value.entry
  {
    hide ReconstructRecovery, Stands, Apart, Replay;
    ReconstructKeeps(cfg, s, calls);
  }

  lemma SaveIsFenced(cfg: Config, s: System, c: SaveReport, calls: nat)
    requires Consistent(cfg, s) && Past(cfg, s.d).open.Some?
    ensures RecordSaveOp(cfg, s, c, calls).s.d == s.d
  {
    hide ReconstructRecovery, Consistent, RecordSlot, Replay;
    RebuiltAttempt(cfg, s, calls);
  }

  lemma BeginIsFenced(cfg: Config, s: System, c: Id, identity: Id, presence: seq<Presence>, calls: nat)
    requires Consistent(cfg, s) && Past(cfg, s.d).open.Some?
    ensures BeginCheckpointOp(cfg, s, c, identity, presence, calls).s.d == s.d
  {
    hide CheckMutationFence, Consistent, BeginCheckpointOp, Replay, LoadAggregate, EvaluateFullRoster, PersistCandidate;
    FenceCloses(cfg, s, calls);
    BeginCheckpointCases(cfg, s, c, identity, presence, calls);
  }

  lemma LossKeepsStore(cfg: Config, s: System, c: LossReport, calls: nat)
    requires Consistent(cfg, s) && Past(cfg, s.d).open.Some?
    ensures BeginRecoveryOp(cfg, s, c, calls).s.d == s.d
  {
    hide ReconstructRecovery, Consistent, StartRecovery, Replay;
    RebuiltAttempt(cfg, s, calls);
  }

  lemma FireKeepsAttempt(cfg: Config, s: System, a: RecoveryActivity, c: Checkpoint, reply: Reply, calls: nat)
    requires s.v.recovery == Some(a)
    ensures var b := FireRestore(cfg, s, a, c, reply, calls).s.v.recovery; b.Some? && b.value.attempt == a.attempt
  {
    hide RestoredCore, RestoreSnapshot, JournalIndex;
  }

  lemma LoadKeepsAttempt(cfg: Config, s: System, a: RecoveryActivity, version: nat, k: Checkpoint, c: LoadedReport,
                         calls: nat)
    requires s.v.recovery == Some(a)
    ensures var b := CheckLoad(cfg, s, a, version, k, c, calls).s.v.recovery; b.Some? && b.value.attempt == a.attempt
  {
    hide AcknowledgeLoad, ProofMatches, MemberSlotIndex;
    IndexInSlots(k, c.actor);
    var i := MemberSlotIndex(k.slots, c.actor);
    if i < |k.slots| {
      AcknowledgeKeepsAttempt(cfg, s, a, version, k, k.slots[i], calls);
    }
  }

  lemma IndexInSlots(k: Checkpoint, m: Member)
    ensures MemberSlotIndex(k.slots, m) <= |k.slots|
  {
  }

  lemma AcknowledgeKeepsAttempt(cfg: Config, s: System, a: RecoveryActivity, version: nat, k: Checkpoint,
                                x: CheckpointSlot, calls: nat)
    requires s.v.recovery == Some(a)
    ensures var b := AcknowledgeLoad(cfg, s, a, version, k, x, calls).s.v.recovery;
            b.Some? && b.value.attempt == a.attempt
  {
    hide ApplyMutation, FireRestore;
    var durable := x.slot in a.durableLoaded;
    var q := Request(version, LoadedBy(cfg.slotHash(x.slot), a.attempt), RecoveryLoaded(a.attempt, k.id, x), NoChange);
    var w := if durable then Written(s.d, Stored, version, false, false) else ApplyMutation(s.d, q);
    var a2 := a.(durableLoaded := a.durableLoaded + {x.slot}, loaded := a.loaded + {x.slot});
    if durable || calls >= 1 {
      FireKeepsAttempt(cfg, Recovering(s.(d := w.d), a2), a2, k,
                       FromWritten(w).(replay := durable || x.slot in a.loaded), if durable then calls else calls - 1);
    }
  }

  lemma ReceiptKeepsAttempt(cfg: Config, s: System, a: RecoveryActivity, version: nat, k: Checkpoint, x: CheckpointSlot,
                            c: AppliedReport, calls: nat)
    requires s.v.recovery == Some(a)
    ensures var r := AcknowledgeSnapshot(cfg, s, a, version, k, x, c, calls);
            r.completed || (r.s.v.recovery.Some? && r.s.v.recovery.value.attempt == a.attempt)
  {
    hide ApplyMutation;
  }

  /** The step left the store alone, or the service in the same attempt, or completed it. */
  predicate Keeps(s: System, next: System, entry: nat, completed: bool) {
    next.d == s.d || (next.v.recovery.Some? && next.v.recovery.value.attempt == entry) || completed
  }

  lemma LoadedKeeps(cfg: Config, s: System, c: LoadedReport, calls: nat)
    requires Consistent(cfg, s) && Past(cfg, s.d).open.Some?
    ensures Keeps(s, RecordLoadedOp(cfg, s, c, calls).s, Past(cfg, s.d).open.value.entry, false)
  {
    hide ReconstructRecovery, Consistent, CheckLoad, Replay, RecordLoadedOp, LoadAggregate, EvaluateFullRoster;
    RebuiltAttempt(cfg, s, calls);
    RecordLoadedCases(cfg, s, c, calls);
    var g := ReconstructRecovery(cfg, s, calls);
    if LoadReaches(cfg, s, c, g) {
      LoadKeepsAttempt(cfg, s.(v := g.v), g.v.recovery.value, LoadAggregate(cfg, s.d).value.version,
                       s.d.checkpoints[c.checkpoint], c, g.left - 3);
    }
  }

  lemma AppliedKeeps(cfg: Config, s: System, c: AppliedReport, calls: nat)
    requires Consistent(cfg, s) && Past(cfg, s.d).open.Some?
    ensures var r := RecordAppliedOp(cfg, s, c, calls);
            Keeps(s, r.s, Past(cfg, s.d).open.value.entry, r.completed)
  {
    hide ReconstructRecovery, Consistent, AcknowledgeSnapshot, Replay, RecordAppliedOp, LoadAggregate,
      EvaluateFullRoster, MemberSlotIndex;
    RebuiltAttempt(cfg, s, calls);
    RecordAppliedCases(cfg, s, c, calls);
    var g := ReconstructRecovery(cfg, s, calls);
    if ApplyReaches(cfg, s, c, g) {
      var k := s.d.checkpoints[c.checkpoint];
      ReceiptKeepsAttempt(cfg, s.(v := g.v), g.v.recovery.value, LoadAggregate(cfg, s.d).value.version, k,
                          k.slots[MemberSlotIndex(k.slots, c.actor)], c, g.left - 3);
    }
  }

  lemma ExecKeeps(cfg: Config, s: System, step: Step)
    requires Valid(cfg, s) && Past(cfg, s.d).open.Some?
    ensures Keeps(s, Exec(cfg, s, step), Past(cfg, s.d).open.value.entry,
                  step.DoRecordApplied? && RecordAppliedOp(cfg, s, step.applied, step.calls).completed)
  {
    hide EditOp, BeginCheckpointOp, RecordSaveOp, FailCheckpointOp, BeginRecoveryOp, PrepareRecoveryOp, RecordLoadedOp,
      RecordAppliedOp, ReconstructRecovery, Consistent, Valid, Replay;
    ValidIsConsistent(cfg, s);
    match step
    case DoEdit(c, calls) => FencedCommandsChangeNothing(cfg, s, c, calls);
    case DoBeginCheckpoint(c, identity, presence, calls) => BeginIsFenced(cfg, s, c, identity, presence, calls);
    case DoRecordSave(c, calls) => SaveIsFenced(cfg, s, c, calls);
    case DoFailCheckpoint(c, identity, actor, calls) => FailKeepsStore(cfg, s, c, identity, actor, calls);
    case DoAbandon =>
    case DoBeginRecovery(c, calls) => LossKeepsStore(cfg, s, c, calls);
    case DoPrepare(presence, calls) => PrepareKeepsStore(cfg, s, presence, calls);
    case DoRecordLoaded(c, calls) => LoadedKeeps(cfg, s, c, calls);
    case DoRecordApplied(c, calls) => AppliedKeeps(cfg, s, c, calls);
    case DoObserve(calls) =>
    case Restart =>
  }

  /** The attempt that is open stays open, with its checkpoint, unless the step is the
      receipt that completes it. */
  lemma OpenAttemptStays(cfg: Config, s: System, step: Step)
    requires Valid(cfg, s) && Past(cfg, s.d).open.Some?
    ensures Valid(cfg, Exec(cfg, s, step)) && Follows(Past(cfg, s.d), Past(cfg, Exec(cfg, s, step).d))
    ensures (step.DoRecordApplied? && RecordAppliedOp(cfg, s, step.applied, step.calls).completed)
            || SameAttempt(Past(cfg, s.d), Past(cfg, Exec(cfg, s, step).d))
  {
    hide Exec, RecordAppliedOp, InStep, Follows, Replay;
    RecoveringIsSealed(cfg, s);
    StepKeeps(cfg, s, step);
    ExecFollows(cfg, s, step);
    ExecKeeps(cfg, s, step);
    var next := Exec(cfg, s, step);
    if next.v.recovery.Some? {
      RecoveringIsSealed(cfg, next);
    }
  }
}
