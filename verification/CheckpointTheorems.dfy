/** Fencing and checkpoint consistency, over every run. */
module CheckpointTheorems {
  import opened Basics
  import opened CampaignState
  import opened FullRoster
  import CampaignCoreCodec
  import opened CampaignStore
  import opened CampaignHistory
  import opened RuntimeModel
  import opened OperationShapes
  import opened RuntimeInvariants
  import opened RecoveryRebuild
  import opened RuntimeSafety
  import opened RecoverySafety
  import opened RuntimeRuns
  import opened RecoveryTheorems

  /** A campaign never has an active checkpoint and an open recovery together, not
      even a recovery the service has not rebuilt yet. */
  lemma OneFenceAtATime(cfg: Config, s: System)
    requires Valid(cfg, s) && s.v.active.Some?
    ensures Past(cfg, s.d).open.None? && s.v.recovery.None?
  {
    hide Replay, SlotsApart;
  }

  /** While a checkpoint is active or a recovery is open, rebuilt or not, every
      roster, phase, manager and readiness command is refused and changes nothing
      durable. */
  lemma FencedCommandsChangeNothing(cfg: Config, s: System, c: Command, calls: nat)
    requires Valid(cfg, s) && (s.v.active.Some? || Past(cfg, s.d).open.Some?)
    ensures var r := EditOp(cfg, s, c, calls); r.s.d == s.d && r.reply.error != NoError
  {
    hide CheckMutationFence, LoadAggregate, FindReplay, PersistOutcome, Stands, Apart, SlotsApart, Tracks;
    ValidIsConsistent(cfg, s);
    FenceCloses(cfg, s, calls);
    FenceRefuses(cfg, s, calls);
  }

  lemma FenceCloses(cfg: Config, s: System, calls: nat)
    requires Consistent(cfg, s) && (s.v.active.Some? || Past(cfg, s.d).open.Some?)
    ensures CheckMutationFence(cfg, s, calls).failure.Some?
  {
    hide Stands, Apart, Tracks, ReconstructRecovery;
    FenceKeeps(cfg, s, calls);
  }

  /** A checkpoint that was abandoned, failed or interrupted, or never became
      active again, is dead: it will not be committed by any later run. */
  ghost predicate Dead(cfg: Config, s: System, c: Id) {
    && Replay(cfg, s.d.journal).Some?
    && c in Past(cfg, s.d).saved && Past(cfg, s.d).saved[c].committedAt.None?
    && (s.v.active.Some? ==> s.v.active.value.checkpoint != c)
  }

  lemma SavedKept(h: History, next: History, c: Id)
    requires Follows(h, next) && c in h.saved
    ensures c in next.saved
  {
  }

  lemma StoredState(cfg: Config, d: Durable, c: Id)
    requires Stands(cfg, d) && c in Past(cfg, d).saved
    ensures c in d.checkpoints && d.checkpoints[c].committedAt == Past(cfg, d).saved[c].committedAt
  {
    hide Replay, CampaignCoreCodec.CoreBytes, CheckpointSlots;
  }

  /** A stored checkpoint never becomes the active one again. */
  lemma NeverActiveAgain(cfg: Config, s: System, step: Step, c: Id)
    requires Consistent(cfg, s) && c in Past(cfg, s.d).saved && ActiveId(s.v) != Some(c)
    ensures ActiveId(Exec(cfg, s, step).v) != Some(c)
  {
    hide EditOp, BeginCheckpointOp, RecordSaveOp, FailCheckpointOp, BeginRecoveryOp, PrepareRecoveryOp, RecordLoadedOp,
      RecordAppliedOp, ReconstructRecovery, CheckMutationFence, Consistent;
    ActiveStaysEverywhere(cfg, s);
    match step
    case DoEdit(e, calls) => EditActive(cfg, s, e, calls);
    case DoBeginCheckpoint(id, identity, presence, calls) => BeginActive(cfg, s, id, identity, presence, calls, c);
    case DoRecordSave(r, calls) => RecordSaveActive(cfg, s, r, calls);
    case DoFailCheckpoint(id, identity, actor, calls) => FailActive(cfg, s, id, identity, actor, calls);
    case DoAbandon =>
    case DoBeginRecovery(r, calls) => BeginRecoveryActive(cfg, s, r, calls);
    case DoPrepare(presence, calls) => PrepareActive(cfg, s, presence, calls);
    case DoRecordLoaded(r, calls) => LoadedActive(cfg, s, r, calls);
    case DoRecordApplied(r, calls) => AppliedActive(cfg, s, r, calls);
    case DoObserve(calls) =>
    case Restart =>
  }

  lemma ActiveStaysEverywhere(cfg: Config, s: System)
    ensures forall calls: nat :: ReconstructRecovery(cfg, s, calls).v.active == s.v.active
    ensures forall calls: nat :: CheckMutationFence(cfg, s, calls).v.active == s.v.active
  {
    hide ReconstructRecovery, CheckMutationFence;
    forall calls: nat
      ensures ReconstructRecovery(cfg, s, calls).v.active == s.v.active
      ensures CheckMutationFence(cfg, s, calls).v.active == s.v.active
    {
      ActiveStays(cfg, s, calls);
    }
  }

  lemma EditActive(cfg: Config, s: System, c: Command, calls: nat)
    ensures EditOp(cfg, s, c, calls).s.v.active == CheckMutationFence(cfg, s, calls).v.active
  {
    hide CheckMutationFence, LoadAggregate, Apply, FindReplay, PersistNoOp, PersistEdit;
  }

  lemma RecordSaveActive(cfg: Config, s: System, c: SaveReport, calls: nat)
    ensures RecordSaveOp(cfg, s, c, calls).s.v.active in {None, ReconstructRecovery(cfg, s, calls).v.active}
  {
    hide ReconstructRecovery, RecordSlotSave, CommitCandidate, ExactArtifact, JournalIndex;
  }

  lemma FailActive(cfg: Config, s: System, c: Id, identity: Id, actor: Member, calls: nat)
    ensures FailCheckpointOp(cfg, s, c, identity, actor, calls).s.v.active
            in {None, ReconstructRecovery(cfg, s, calls).v.active}
  {
    hide ReconstructRecovery;
  }

  lemma BeginRecoveryActive(cfg: Config, s: System, c: LossReport, calls: nat)
    ensures BeginRecoveryOp(cfg, s, c, calls).s.v.active in
            {None, s.v.active, ReconstructRecovery(cfg, s, calls).v.active}
  {
    hide ReconstructRecovery, LoadAggregate, ApplyMutation, EvaluateFullRoster, MemberIndex;
  }

  lemma PrepareActive(cfg: Config, s: System, presence: seq<Presence>, calls: nat)
    ensures PrepareRecoveryOp(cfg, s, presence, calls).s.v.active == ReconstructRecovery(cfg, s, calls).v.active
  {
    hide ReconstructRecovery, LoadAggregate, EvaluateFullRoster, Recoverable;
  }

  lemma FireActive(cfg: Config, s: System, a: RecoveryActivity, c: Checkpoint, reply: Reply, calls: nat)
    ensures FireRestore(cfg, s, a, c, reply, calls).s.v.active == s.v.active
  {
    hide RestoredCore, RestoreSnapshot, JournalIndex;
  }

  lemma AcknowledgeLoadActive(cfg: Config, s: System, a: RecoveryActivity, version: nat, c: Checkpoint,
                              x: CheckpointSlot, calls: nat)
    ensures AcknowledgeLoad(cfg, s, a, version, c, x, calls).s.v.active == s.v.active
  {
    hide ApplyMutation, FireRestore;
    var durable := x.slot in a.durableLoaded;
    var q := AckRequest(cfg, version, LoadAck(a.attempt), c.id, x);
    var w := if durable then Written(s.d, Stored, version, false, false) else ApplyMutation(s.d, q);
    var a2 := a.(durableLoaded := a.durableLoaded + {x.slot}, loaded := a.loaded + {x.slot});
    if durable || calls >= 1 {
      FireActive(cfg, Recovering(s.(d := w.d), a2), a2, c,
                 FromWritten(w).(replay := durable || x.slot in a.loaded), if durable then calls else calls - 1);
    }
  }

  lemma LoadedActive(cfg: Config, s: System, c: LoadedReport, calls: nat)
    ensures RecordLoadedOp(cfg, s, c, calls).s.v.active == ReconstructRecovery(cfg, s, calls).v.active
  {
    hide ReconstructRecovery, LoadAggregate, EvaluateFullRoster, AcknowledgeLoad, ProofMatches;
    var g := ReconstructRecovery(cfg, s, calls);
    var loaded := LoadAggregate(cfg, s.d);
    if g.v.recovery.Some? && loaded.Some? && g.left >= 3 && c.checkpoint in s.d.checkpoints {
      var k := s.d.checkpoints[c.checkpoint];
      var i := MemberSlotIndex(k.slots, c.actor);
      if i < |k.slots| {
        AcknowledgeLoadActive(cfg, s.(v := g.v), g.v.recovery.value, loaded.value.version, k, k.slots[i], g.left - 3);
      }
    }
  }

  lemma AppliedActive(cfg: Config, s: System, c: AppliedReport, calls: nat)
    ensures RecordAppliedOp(cfg, s, c, calls).s.v.active == ReconstructRecovery(cfg, s, calls).v.active
  {
    hide ReconstructRecovery, LoadAggregate, EvaluateFullRoster, ApplyMutation, CompletionIndex;
  }

  lemma BeginActive(cfg: Config, s: System, id: Id, identity: Id, presence: seq<Presence>, calls: nat, c: Id)
    requires Consistent(cfg, s) && c in Past(cfg, s.d).saved
    ensures var next := BeginCheckpointOp(cfg, s, id, identity, presence, calls).s.v;
            || next.active == s.v.active || next.active == CheckMutationFence(cfg, s, calls).v.active
            || ActiveId(next) != Some(c)
  {
    hide CheckMutationFence, LoadAggregate, PersistCandidate, EvaluateFullRoster, Apart, Tracks, Stands, Replay,
      BeginCheckpointOp;
    BeginCheckpointCases(cfg, s, id, identity, presence, calls);
    StandsAtRevision(cfg, s.d);
    LoadIsCurrent(cfg, s.d);
    FenceKeeps(cfg, s, calls);
    var g := CheckMutationFence(cfg, s, calls);
    if BeginReaches(cfg, s, id, identity, presence, g) {
      CandidateActive(cfg, s.(v := g.v), id, c, g.left - 2);
    }
  }

  lemma CandidateActive(cfg: Config, s: System, id: Id, c: Id, calls: nat)
    requires Stands(cfg, s.d) && Past(cfg, s.d).open.None? && id != [] && c in Past(cfg, s.d).saved
    ensures var next := PersistCandidate(s, id, SaveIdentity(id), Current(Past(cfg, s.d)), calls).s.v;
            next.active == s.v.active || ActiveId(next) != Some(c)
  {
    hide Replay, Stands, CreateCheckpointCandidate, CampaignCoreCodec.EncodeCore, CampaignCoreCodec.CoreBytes,
      CampaignCoreCodec.ImageOf;
    StandsAtRevision(cfg, s.d);
    CurrentEncodes(cfg, s.d);
    CandidateStands(cfg, s.d, id);
  }

  lemma DeadStaysDeadStep(cfg: Config, s: System, step: Step, c: Id)
    requires Valid(cfg, s) && Valid(cfg, Exec(cfg, s, step)) && Dead(cfg, s, c)
    ensures Dead(cfg, Exec(cfg, s, step), c)
  {
    hide Exec, Replay, Stands, Apart, Tracks, SlotsApart, Follows, Extends;
    ValidIsConsistent(cfg, s);
    StandsAtRevision(cfg, s.d);
    StandsAtRevision(cfg, Exec(cfg, s, step).d);
    NeverActiveAgain(cfg, s, step, c);
    ExecFollows(cfg, s, step);
    SavedKept(Past(cfg, s.d), Past(cfg, Exec(cfg, s, step).d), c);
    StoredState(cfg, s.d, c);
    StoredState(cfg, Exec(cfg, s, step).d, c);
    ExecExtends(cfg, s, step);
  }

  lemma ExecFollows(cfg: Config, s: System, step: Step)
    requires Valid(cfg, s) && Valid(cfg, Exec(cfg, s, step))
    ensures Follows(Past(cfg, s.d), Past(cfg, Exec(cfg, s, step).d))
  {
    hide Exec, Follows;
    OneStepRun(cfg, s, step);
    RunFollows(cfg, s, [step]);
  }

  lemma OneStepRun(cfg: Config, s: System, step: Step)
    ensures Run(cfg, s, [step]) == Exec(cfg, s, step)
  {
    hide Exec;
    assert [step][..0] == [];
    assert Run(cfg, s, [step][..0]) == s;
  }

  /** Once a checkpoint is failed, abandoned or cut off by a recovery or a restart,
      no later run commits it. */
  lemma {:induction false} DeadStaysDead(cfg: Config, s: System, steps: seq<Step>, c: Id)
    requires Valid(cfg, s) && Dead(cfg, s, c) && SlotsApart(cfg, Run(cfg, s, steps).d)
    ensures Dead(cfg, Run(cfg, s, steps), c)
  {
    hide Exec, Valid, Dead, SlotsApart;
    if steps != [] {
      var n := |steps| - 1;
      var before := Run(cfg, s, steps[..n]);
      ApartBefore(cfg, before, steps[n]);
      RunKeepsValid(cfg, s, steps[..n]);
      RunKeepsValid(cfg, s, steps);
      DeadStaysDead(cfg, s, steps[..n], c);
      DeadStaysDeadStep(cfg, before, steps[n], c);
    }
  }

  /** A committed checkpoint is never changed or committed again: every later run
      keeps its campaign, its proofs and its commit revision. */
  lemma CommittedForever(cfg: Config, s: System, steps: seq<Step>, c: Id)
    requires Valid(cfg, s) && SlotsApart(cfg, Run(cfg, s, steps).d)
    requires c in s.d.checkpoints && s.d.checkpoints[c].committedAt.Some?
    ensures c in Run(cfg, s, steps).d.checkpoints && Run(cfg, s, steps).d.checkpoints[c] == s.d.checkpoints[c]
  {
    hide Run, Replay, SlotsApart, CheckpointSlots, CampaignCoreCodec.CoreBytes;
    RunFollows(cfg, s, steps);
  }

  /*
   * What a commit proves
   */

  lemma CommitProves(cfg: Config, s: System, x: CheckpointActivity, reply: Reply, calls: nat)
    requires InStep(cfg, s) && s.v == Volatile(Some(x), None)
    requires CommitIfComplete(cfg, s, x, reply, calls).committed
    ensures var next := CommitIfComplete(cfg, s, x, reply, calls).s;
            && x.checkpoint in Past(cfg, s.d).saved
            && Stands(cfg, next.d) && Past(cfg, next.d).lastCommitted == Some(x.checkpoint)
            && x.checkpoint in Past(cfg, next.d).saved
            && Past(cfg, next.d).campaign == Past(cfg, s.d).campaign
            && Past(cfg, next.d).saved[x.checkpoint].campaign == Past(cfg, s.d).saved[x.checkpoint].campaign
            && (forall y :: y in CheckpointSlots(Past(cfg, next.d).saved[x.checkpoint]) ==>
                ExactArtifact(cfg, y, x.identity))
  {
    hide Replay, CampaignCoreCodec.CoreBytes, Sound, CommitCandidate, ExactArtifact, CheckpointSlots;
    CommitStands(cfg, s.d, x);
    CommitKeepsSlots(Past(cfg, s.d).saved[x.checkpoint], Past(cfg, s.d).revision + 1);
  }

  lemma RecordSlotProves(cfg: Config, s: System, x: CheckpointActivity, i: nat, proof: Artifact, calls: nat)
    requires InStep(cfg, s) && s.v == Volatile(Some(x), None)
    requires x.checkpoint in Past(cfg, s.d).saved && i < |Past(cfg, s.d).saved[x.checkpoint].campaign.roster|
    requires var slot := CheckpointSlots(Past(cfg, s.d).saved[x.checkpoint])[i].(artifact := Some(proof));
             RecordSlot(cfg, s, x, slot, calls).committed
    ensures var slot := CheckpointSlots(Past(cfg, s.d).saved[x.checkpoint])[i].(artifact := Some(proof));
            var next := RecordSlot(cfg, s, x, slot, calls).s;
            && Stands(cfg, next.d) && CommitIsExact(cfg, next.d, x.checkpoint)
  {
    hide Replay, Stands, CheckpointSlots, RecordSlotSave, CommitIfComplete, TracksActive, CommitIsExact;
    StandsAtRevision(cfg, s.d);
    var slot := CheckpointSlots(Past(cfg, s.d).saved[x.checkpoint])[i].(artifact := Some(proof));
    SlotSaveKeeps(cfg, s.d, x, i, proof);
    var m := AcknowledgeOf(x.checkpoint, slot.slot);
    var k := JournalIndex(s.d.journal, m);
    var used := if k < |s.d.journal| then 1 else 2;
    var expected := if k < |s.d.journal| then s.d.journal[k].expected else s.d.revision;
    var w := RecordSlotSave(s.d, Request(expected, m, SaveSlot(x.checkpoint, slot.slot), SlotSave(slot)), x.checkpoint);
    StandsAtRevision(cfg, w.d);
    CommitOfActive(cfg, s.(d := w.d), x, FromWritten(w), calls - used - 1);
  }

  /** The selected checkpoint is the campaign as it now is, with an exact proof,
      under the one prescribed save identity, for every slot of the roster. */
  ghost predicate CommitIsExact(cfg: Config, d: Durable, c: Id) {
    && c in d.checkpoints && d.lastCommitted == Some(c) && d.checkpoints[c].committedAt.Some?
    && (forall y :: y in d.checkpoints[c].slots ==> ExactArtifact(cfg, y, SaveIdentity(c)))
    && SlotRecords(d.checkpoints[c].slots) == d.slots
    && d.checkpoints[c].source <= MAX_U64
    && var saved := DecodeAt(cfg, SlotRecords(d.checkpoints[c].slots), true, d.checkpoints[c].core,
                             d.checkpoints[c].source);
       saved.Some? && LoadAggregate(cfg, d) == Some(saved.value.(version := d.revision))
  }

  lemma CommitOfActive(cfg: Config, s: System, x: CheckpointActivity, reply: Reply, calls: nat)
    requires InStep(cfg, s) && s.v == Volatile(Some(x), None)
    requires CommitIfComplete(cfg, s, x, reply, calls).committed
    ensures var next := CommitIfComplete(cfg, s, x, reply, calls).s;
            Stands(cfg, next.d) && CommitIsExact(cfg, next.d, x.checkpoint)
  {
    hide Replay, CommitIfComplete, Stands, CommitIsExact, ExactArtifact, CheckpointSlots;
    StandsAtRevision(cfg, s.d);
    CommitProves(cfg, s, x, reply, calls);
    var next := CommitIfComplete(cfg, s, x, reply, calls).s;
    SelectedIsExact(cfg, next.d, x, Past(cfg, s.d));
  }

  lemma SavedDecodes(cfg: Config, d: Durable, c: Id)
    requires Stands(cfg, d) && c in Past(cfg, d).saved
    ensures var saved := Past(cfg, d).saved[c];
            && c in d.checkpoints && d.checkpoints[c].slots == CheckpointSlots(saved)
            && SlotRecords(CheckpointSlots(saved)) == d.slots
            && DecodeAt(cfg, d.slots, true, d.checkpoints[c].core, d.checkpoints[c].source) == Some(saved.campaign)
  {
    hide Replay, CampaignCoreCodec.CoreBytes, CampaignCoreCodec.ImageOf, CampaignCoreCodec.DecodeCore,
      CampaignCoreCodec.EncodeCore, CampaignCoreCodec.ValidAggregate, SoundCampaign;
    ReplayIsSound(cfg, d.journal);
    var saved := Past(cfg, d).saved[c];
    assert SoundSaved(cfg, Past(cfg, d), c, saved);
    SavedBounds(cfg, saved.campaign);
    SoundEncodes(cfg, saved.campaign);
    assert SlotRecords(CheckpointSlots(saved)) == Records(saved.campaign.roster);
  }

  lemma SavedBounds(cfg: Config, a: Aggregate)
    requires SoundCampaign(cfg, a)
    ensures a.id == cfg.campaign && a.version <= MAX_REVISION
  {
  }

  lemma SelectedIsExact(cfg: Config, d: Durable, x: CheckpointActivity, before: History)
    requires Stands(cfg, d) && TracksActive(before, x)
    requires var h := Past(cfg, d);
             && h.lastCommitted == Some(x.checkpoint) && x.checkpoint in h.saved && h.campaign == before.campaign
             && h.saved[x.checkpoint].campaign == before.saved[x.checkpoint].campaign
             && forall y :: y in CheckpointSlots(h.saved[x.checkpoint]) ==> ExactArtifact(cfg, y, x.identity)
    ensures CommitIsExact(cfg, d, x.checkpoint)
  {
    hide Replay, LoadAggregate, Stands, ExactArtifact, DecodeAt, CheckpointSlots, SlotRecords;
    SavedDecodes(cfg, d, x.checkpoint);
    SelectedIsStored(cfg, d, x.checkpoint);
    LoadAlwaysSucceeds(cfg, d);
    StandsAtRevision(cfg, d);
  }

  lemma SelectedIsStored(cfg: Config, d: Durable, c: Id)
    requires Stands(cfg, d) && Past(cfg, d).lastCommitted == Some(c) && c in Past(cfg, d).saved
    ensures d.lastCommitted == Some(c) && c in d.checkpoints && d.checkpoints[c].committedAt.Some?
    ensures d.checkpoints[c].source <= MAX_REVISION
  {
    hide Replay, CampaignCoreCodec.CoreBytes, CheckpointSlots, SoundCampaign, SoundSaved;
    ReplayIsSound(cfg, d.journal);
  }

  /** A report that commits its checkpoint commits the campaign as it is, with an
      exact native-save proof for every slot; nothing changed since the candidate. */
  lemma CommitCapturesCampaign(cfg: Config, s: System, c: SaveReport, calls: nat)
    requires Valid(cfg, s) && RecordSaveOp(cfg, s, c, calls).committed
    ensures s.v.active.Some? && s.v.active.value.checkpoint == c.checkpoint
    ensures CommitIsExact(cfg, RecordSaveOp(cfg, s, c, calls).s.d, c.checkpoint)
    ensures RecordSaveOp(cfg, s, c, calls).s.v.active.None?
  {
    hide ReconstructRecovery, Replay, Stands, CheckpointSlots, RecordSlot, Apart, TracksActive, TracksRecovery,
      SlotsApart, CommitIsExact;
    ValidIsConsistent(cfg, s);
    ReconstructKeeps(cfg, s, calls);
    var g := ReconstructRecovery(cfg, s, calls);
    var x := g.v.active.value;
    StandsAtRevision(cfg, s.d);
    ActiveCheckpointIsStored(cfg, s.d, x);
    var i := MemberSlotIndex(s.d.checkpoints[x.checkpoint].slots, c.actor);
    RecordSlotProves(cfg, s.(v := g.v), x, i, c.proof, g.left - 1);
    CommitClears(cfg, s.(v := g.v), x, s.d.checkpoints[x.checkpoint].slots[i].(artifact := Some(c.proof)), g.left - 1);
  }

  lemma CommitClears(cfg: Config, s: System, x: CheckpointActivity, slot: CheckpointSlot, calls: nat)
    requires RecordSlot(cfg, s, x, slot, calls).committed
    ensures RecordSlot(cfg, s, x, slot, calls).s.v.active.None?
  {
    hide RecordSlotSave, CommitCandidate, ExactArtifact, JournalIndex;
  }
}
