/** What ends the activity of a checkpoint, and that one given up is never committed. */
module CheckpointEnds {
  import opened Basics
  import opened CampaignState
  import opened CampaignStore
  import opened CampaignHistory
  import opened RuntimeModel
  import opened RuntimeInvariants
  import opened RuntimeSafety
  import opened RuntimeRuns
  import opened RecoveryTheorems
  import opened CheckpointTheorems
  import opened EditAnswers
  import opened CheckpointAnswers
  import opened RecoveryAnswers
  import OpenAttempt

  /** The steps that give up an active checkpoint: abandoning it, stopping, a member's
      failure report, a loss or a requested load. */
  ghost predicate GivesUp(cfg: Config, s: System, step: Step) {
    match step
    case DoAbandon => true
    case Restart => true
    case DoFailCheckpoint(c, identity, m, calls) => Fails(cfg, s, c, identity, m, calls)
    case DoBeginRecovery(c, calls) => Opens(cfg, s.d, c) && calls >= 3
    case _ => false
  }

  /** The report that commits it. */
  predicate CommitsIt(cfg: Config, s: System, step: Step) {
    step.DoRecordSave? && RecordSaveOp(cfg, s, step.save, step.calls).committed
  }

  lemma SaveEnds(cfg: Config, s: System, c: SaveReport, calls: nat)
    ensures var r := RecordSaveOp(cfg, s, c, calls);
            r.s.v.active == if r.committed then None else ReconstructRecovery(cfg, s, calls).v.active
  {
    hide ReconstructRecovery, RecordSlotSave, CommitCandidate, ExactArtifact, JournalIndex, MemberSlotIndex;
  }

  lemma FailEnds(cfg: Config, s: System, c: Id, identity: Id, m: Member, calls: nat)
    requires Valid(cfg, s) && s.v.active.Some?
    ensures FailCheckpointOp(cfg, s, c, identity, m, calls).s.v.active ==
            if Fails(cfg, s, c, identity, m, calls) then None else s.v.active
  {
    hide ReconstructRecovery, InStep, SlotsApart, MemberSlotIndex, SlotRecords, FailCheckpointOp, Looked, Replay;
    ServiceStands(cfg, s);
    ActiveSlots(cfg, s);
    if calls >= 3 {
      FailAnswer(cfg, s, c, identity, m, calls);
    } else {
      ActiveStaysEverywhere(cfg, s);
      TooFewToFail(cfg, s, c, identity, m, calls);
    }
  }

  lemma TooFewToFail(cfg: Config, s: System, c: Id, identity: Id, m: Member, calls: nat)
    requires calls < 3 && s.v.recovery.None?
    ensures FailCheckpointOp(cfg, s, c, identity, m, calls).s.v.active == ReconstructRecovery(cfg, s, calls).v.active
  {
    hide ScanJournal, AckedSlots, MemberSlotIndex;
  }

  lemma BeginEnds(cfg: Config, s: System, c: LossReport, calls: nat)
    requires Valid(cfg, s) && s.v.active.Some?
    ensures BeginRecoveryOp(cfg, s, c, calls).s.v.active ==
            if Opens(cfg, s.d, c) && calls >= 3 then None else s.v.active
  {
    hide ReconstructRecovery, InStep, SlotsApart, BeginRecoveryOp, Looked, Replay, Opens, LoadAggregate;
    ServiceStands(cfg, s);
    ActiveSlots(cfg, s);
    if calls >= 3 {
      BeginAnswer(cfg, s, c, calls);
    } else {
      ActiveStaysEverywhere(cfg, s);
      TooFewCalls(cfg, s, c, calls);
    }
  }

  lemma TooFewCalls(cfg: Config, s: System, c: LossReport, calls: nat)
    requires calls < 3 && s.v.recovery.None?
    ensures BeginRecoveryOp(cfg, s, c, calls).s.v.active in {s.v.active, ReconstructRecovery(cfg, s, calls).v.active}
  {
    hide LoadAggregate, ScanJournal, AckedSlots;
  }

  /** An active checkpoint stops being active exactly by a step that gives it up or by the
      report that commits it. Every other step, whatever it reports and wherever the store
      fails, leaves the activity as it was. */
  lemma ActivityEndsIff(cfg: Config, s: System, step: Step)
    requires Valid(cfg, s) && s.v.active.Some?
    ensures Exec(cfg, s, step).v.active ==
            if GivesUp(cfg, s, step) || CommitsIt(cfg, s, step) then None else s.v.active
  {
    hide EditOp, BeginCheckpointOp, RecordSaveOp, FailCheckpointOp, BeginRecoveryOp, PrepareRecoveryOp, RecordLoadedOp,
      RecordAppliedOp, ReconstructRecovery, CheckMutationFence, Valid, Opens, Fails;
    ActiveStaysEverywhere(cfg, s);
    match step
    case DoEdit(e, calls) => EditActive(cfg, s, e, calls);
    case DoBeginCheckpoint(id, identity, presence, calls) => BeginFenced(cfg, s, id, identity, presence, calls);
    case DoRecordSave(r, calls) => SaveEnds(cfg, s, r, calls);
    case DoFailCheckpoint(id, identity, actor, calls) => FailEnds(cfg, s, id, identity, actor, calls);
    case DoAbandon =>
    case DoBeginRecovery(r, calls) => BeginEnds(cfg, s, r, calls);
    case DoPrepare(presence, calls) => PrepareActive(cfg, s, presence, calls);
    case DoRecordLoaded(r, calls) => LoadedActive(cfg, s, r, calls);
    case DoRecordApplied(r, calls) => AppliedActive(cfg, s, r, calls);
    case DoObserve(calls) =>
    case Restart =>
  }

  lemma GivingUpKeepsSaved(cfg: Config, s: System, step: Step, c: Id)
    requires Valid(cfg, s) && s.v.active.Some? && GivesUp(cfg, s, step) && c in Past(cfg, s.d).saved
    ensures var next := Exec(cfg, s, step);
            && Replay(cfg, next.d.journal).Some? && c in Past(cfg, next.d).saved
            && Past(cfg, next.d).saved[c] == Past(cfg, s.d).saved[c]
  {
    hide FailCheckpointOp, BeginRecoveryOp, InStep, SlotsApart, Replay, Opens, Fails, LoadAggregate, Journals;
    ServiceStands(cfg, s);
    ActiveSlots(cfg, s);
    match step
    case DoFailCheckpoint(id, identity, actor, calls) => FailKeepsStore(cfg, s, id, identity, actor, calls);
    case DoBeginRecovery(r, calls) =>
      BeginAnswer(cfg, s, r, calls);
      StandsIfOpened(cfg, BeginRecoveryOp(cfg, s, r, calls).s.d, s.d);
    case _ =>
  }

  lemma StandsIfOpened(cfg: Config, next: Durable, d: Durable)
    requires next == d || Stands(cfg, next)
    requires Replay(cfg, d.journal).Some?
    ensures Replay(cfg, next.journal).Some?
  {
    hide Replay, Project;
  }

  /** A checkpoint that is given up is dead. */
  lemma GivenUpIsDead(cfg: Config, s: System, step: Step)
    requires Valid(cfg, s) && s.v.active.Some? && GivesUp(cfg, s, step)
    ensures Dead(cfg, Exec(cfg, s, step), s.v.active.value.checkpoint)
  {
    hide Exec, InStep, SlotsApart, Replay, GivesUp, CommitsIt, LoadAggregate;
    ServiceStands(cfg, s);
    ActiveSlots(cfg, s);
    GivingUpKeepsSaved(cfg, s, step, s.v.active.value.checkpoint);
    ActivityEndsIff(cfg, s, step);
  }

  /** And no run after that commits it. */
  lemma GivenUpNeverCommits(cfg: Config, s: System, step: Step, steps: seq<Step>)
    requires Valid(cfg, s) && s.v.active.Some? && GivesUp(cfg, s, step)
    ensures var c := s.v.active.value.checkpoint;
            var last := Run(cfg, Exec(cfg, s, step), steps);
            && Valid(cfg, last) && c in last.d.checkpoints && last.d.checkpoints[c].committedAt.None?
            && last.d.lastCommitted != Some(c)
  {
    hide Exec, Run, InStep, SlotsApart, Replay, GivesUp, Extends;
    var c := s.v.active.value.checkpoint;
    var next := Exec(cfg, s, step);
    var last := Run(cfg, next, steps);
    ActiveSealed(cfg, s);
    OpenAttempt.StepKeeps(cfg, s, step);
    SealedRunIsValid(cfg, next, steps);
    GivenUpIsDead(cfg, s, step);
    ApartAtEnd(cfg, last);
    DeadStaysDead(cfg, next, steps, c);
    ServiceStands(cfg, last);
    DeadIsUncommitted(cfg, last, c);
  }

  lemma ActiveSealed(cfg: Config, s: System)
    requires Valid(cfg, s) && s.v.active.Some?
    ensures s.d.sealed
  {
    hide Replay, SlotsApart;
    ReplayIsSound(cfg, s.d.journal);
  }

  lemma SealedRunIsValid(cfg: Config, s: System, steps: seq<Step>)
    requires Valid(cfg, s) && s.d.sealed
    ensures Valid(cfg, Run(cfg, s, steps))
  {
    hide Run, InStep;
    RunExtends(cfg, s, steps);
    RunKeepsValid(cfg, s, steps);
  }

  lemma ApartAtEnd(cfg: Config, s: System)
    requires Valid(cfg, s)
    ensures SlotsApart(cfg, s.d)
  {
  }

  lemma DeadIsUncommitted(cfg: Config, s: System, c: Id)
    requires Stands(cfg, s.d) && Dead(cfg, s, c)
    ensures c in s.d.checkpoints && s.d.checkpoints[c].committedAt.None? && s.d.lastCommitted != Some(c)
  {
    hide Replay, CheckpointSlots, SoundSaved, SoundCampaign;
    ReplayIsSound(cfg, s.d.journal);
    StoredState(cfg, s.d, c);
  }
}
