/** No barrier fires on acknowledgements from before the last lock: a roster loss,
    a repeated recovery request or a restart makes every member prove again. */
module BarrierFreshness {
  import opened Basics
  import opened CampaignState
  import opened FullRoster
  import CampaignCoreCodec
  import opened CampaignStore
  import opened CampaignHistory
  import opened RuntimeModel
  import opened OperationShapes
  import opened RuntimeInvariants
  import opened RecoveryRebuild
  import opened RuntimeSafety
  import opened RecoverySafety
  import opened RuntimeRuns

  /** The slot identities the store lists. */
  function Members(d: Durable): set<Id> {
    set i | 0 <= i < |d.slots| :: d.slots[i].slot
  }

  /** A report that reaches a service collecting loads and proves, with the full roster
      present, that its member loaded the exact save of the open attempt's checkpoint. */
  ghost predicate ProvesLoad(cfg: Config, s: System, c: LoadedReport) {
    && s.v.recovery.Some? && s.v.recovery.value.stage == LoadingNativeSaves
    && Replay(cfg, s.d.journal).Some?
    && var h := Past(cfg, s.d);
       && Chosen(h, c.attempt, c.checkpoint) && c.succeeded && c.actor.campaign == cfg.campaign
       && EvaluateFullRoster(Current(h), c.presence) == Eligible
       && exists x :: x in CheckpointSlots(h.saved[c.checkpoint]) && x.Record() == c.actor.Record()
                      && ProofMatches(cfg, x, c.proof)
  }

  /** A report that reaches a service collecting receipts: its member applied the
      restored snapshot of the open attempt. */
  ghost predicate ProvesApply(cfg: Config, s: System, c: AppliedReport) {
    && s.v.recovery.Some? && s.v.recovery.value.stage == ApplyingSnapshot
    && Replay(cfg, s.d.journal).Some?
    && var h := Past(cfg, s.d);
       && Chosen(h, c.attempt, c.checkpoint) && h.open.value.restored && c.restore == c.attempt + 1
       && c.actor.campaign == cfg.campaign && EvaluateFullRoster(Current(h), c.presence) == Eligible
       && c.actor.Record() in SlotRecords(CheckpointSlots(h.saved[c.checkpoint]))
  }

  /** The slots that proved their load since the last lock or restart of a run. */
  ghost function FreshLoads(cfg: Config, s: System, steps: seq<Step>): set<Id> {
    if steps == [] then {}
    else
      var n := |steps| - 1;
      var before := FreshLoads(cfg, s, steps[..n]);
      match steps[n]
      case Restart => {}
      case DoBeginRecovery(c, _) => if c.member.campaign == cfg.campaign then {} else before
      case DoRecordLoaded(c, _) =>
        if ProvesLoad(cfg, Run(cfg, s, steps[..n]), c) then before + {c.actor.slot} else before
      case _ => before
  }

  /** The slots that proved their snapshot since the last lock or restart of a run. */
  ghost function FreshApplies(cfg: Config, s: System, steps: seq<Step>): set<Id> {
    if steps == [] then {}
    else
      var n := |steps| - 1;
      var before := FreshApplies(cfg, s, steps[..n]);
      match steps[n]
      case Restart => {}
      case DoBeginRecovery(c, _) => if c.member.campaign == cfg.campaign then {} else before
      case DoRecordApplied(c, _) =>
        if ProvesApply(cfg, Run(cfg, s, steps[..n]), c) then before + {c.actor.slot} else before
      case _ => before
  }

  predicate Emptied(a: RecoveryActivity) {
    a.loaded == {} && a.applied == {} && a.stage != ApplyingSnapshot
  }

  /** What a step may do to the barriers: keep them, empty them, or, for an
      acknowledgement, add the slot it proves. */
  ghost predicate BarrierStep(v: Volatile, next: Volatile, members: set<Id>, load: set<Id>, apply: set<Id>) {
    next.recovery.Some? ==>
      var b := next.recovery.value;
      || Emptied(b)
      || (&& v.recovery.Some?
          && var a := v.recovery.value;
             && b.loaded <= a.loaded + load && b.applied <= a.applied + apply
             && (b.stage == ApplyingSnapshot ==> a.stage == ApplyingSnapshot || members <= b.loaded))
  }

  lemma RebuiltIsLocked(cfg: Config, s: System, calls: nat)
    requires Consistent(cfg, s)
    ensures var g := ReconstructRecovery(cfg, s, calls);
            || g.v.recovery == s.v.recovery
            || (s.v.recovery.None? && g.v.recovery.Some? && Emptied(g.v.recovery.value)
                && g.v.recovery.value.stage == RecoveryLock)
  {
    hide ReconstructRecovery, Stands, Apart, Tracks;
    if s.v.recovery.None? {
      StandsAtRevision(cfg, s.d);
      RebuildIsExact(cfg, s, calls);
    } else {
      ReconstructKnown(cfg, s, calls);
    }
  }

  /** Steps that are not about recovery at most rebuild a locked attempt. */
  lemma QuietStep(cfg: Config, s: System, step: Step)
    requires Consistent(cfg, s)
    requires !step.DoBeginRecovery? && !step.DoPrepare? && !step.DoRecordLoaded? && !step.DoRecordApplied?
    ensures BarrierStep(s.v, Exec(cfg, s, step).v, Members(s.d), {}, {})
  {
    hide ReconstructRecovery, LoadAggregate, PersistOutcome, PersistCandidate, RecordSlotSave, CommitCandidate,
      EvaluateFullRoster, FindReplay, Consistent, ExactArtifact;
    match step
    case DoEdit(c, calls) => RebuiltIsLocked(cfg, s, calls); EditVolatile(cfg, s, c, calls);
    case DoBeginCheckpoint(c, identity, presence, calls) =>
      RebuiltIsLocked(cfg, s, calls); BeginCheckpointVolatile(cfg, s, c, identity, presence, calls);
    case DoRecordSave(c, calls) => RebuiltIsLocked(cfg, s, calls); RecordSaveVolatile(cfg, s, c, calls);
    case DoFailCheckpoint(c, identity, actor, calls) => RebuiltIsLocked(cfg, s, calls);
    case DoAbandon =>
    case DoObserve(calls) => RebuiltIsLocked(cfg, s, calls);
    case Restart =>
  }

  lemma EditVolatile(cfg: Config, s: System, c: Command, calls: nat)
    ensures EditOp(cfg, s, c, calls).s.v.recovery in {s.v.recovery, ReconstructRecovery(cfg, s, calls).v.recovery}
  {
    hide ReconstructRecovery, LoadAggregate, FindReplay, PersistNoOp, PersistEdit, Apply;
  }

  lemma BeginCheckpointVolatile(cfg: Config, s: System, c: Id, identity: Id, presence: seq<Presence>, calls: nat)
    ensures BeginCheckpointOp(cfg, s, c, identity, presence, calls).s.v.recovery in
            {s.v.recovery, ReconstructRecovery(cfg, s, calls).v.recovery}
  {
    hide ReconstructRecovery, LoadAggregate, CreateCheckpointCandidate, CampaignCoreCodec.EncodeCore,
      EvaluateFullRoster;
  }

  lemma RecordSaveVolatile(cfg: Config, s: System, c: SaveReport, calls: nat)
    ensures RecordSaveOp(cfg, s, c, calls).s.v.recovery == ReconstructRecovery(cfg, s, calls).v.recovery
  {
    hide ReconstructRecovery, RecordSlotSave, CommitCandidate, ExactArtifact, JournalIndex;
  }

  lemma BeginRecoveryLocks(cfg: Config, s: System, c: LossReport, calls: nat)
    requires Consistent(cfg, s)
    ensures BarrierStep(s.v, BeginRecoveryOp(cfg, s, c, calls).s.v, Members(s.d), {}, {})
    ensures c.member.campaign == cfg.campaign && BeginRecoveryOp(cfg, s, c, calls).s.v.recovery.Some? ==>
              Emptied(BeginRecoveryOp(cfg, s, c, calls).s.v.recovery.value)
  {
    hide ReconstructRecovery, LoadAggregate, ApplyMutation, EvaluateFullRoster, Consistent, MemberIndex;
    RebuiltIsLocked(cfg, s, calls);
    ReconstructFails(cfg, s, calls);
    LockedIsEmpty(cfg, s, calls);
  }

  lemma ReconstructFails(cfg: Config, s: System, calls: nat)
    ensures var g := ReconstructRecovery(cfg, s, calls); g.failure.Some? ==> g.v.recovery.None?
  {
    hide ScanJournal, AckedSlots;
  }

  lemma PrepareVolatile(cfg: Config, s: System, presence: seq<Presence>, calls: nat)
    ensures var g := ReconstructRecovery(cfg, s, calls);
            var next := PrepareRecoveryOp(cfg, s, presence, calls).s.v.recovery;
            && (next.Some? ==> g.v.recovery.Some?)
            && (next.Some? ==>
                  var a, b := g.v.recovery.value, next.value;
                  || (b.loaded == a.loaded && b.applied == a.applied && b.stage == a.stage)
                  || (&& a.stage != ApplyingSnapshot && b.stage == LoadingNativeSaves
                      && b.loaded <= a.loaded && b.applied <= a.applied))
  {
    hide ReconstructRecovery, LoadAggregate, EvaluateFullRoster, Recoverable, LoadCheckpoint, LoadLastCommitted;
  }

  lemma PrepareKeepsBarriers(cfg: Config, s: System, presence: seq<Presence>, calls: nat)
    requires Consistent(cfg, s)
    ensures BarrierStep(s.v, PrepareRecoveryOp(cfg, s, presence, calls).s.v, Members(s.d), {}, {})
  {
    hide ReconstructRecovery, PrepareRecoveryOp, Consistent;
    RebuiltIsLocked(cfg, s, calls);
    PrepareVolatile(cfg, s, presence, calls);
  }

  lemma LockedIsEmpty(cfg: Config, s: System, calls: nat)
    requires Consistent(cfg, s)
    ensures var g := ReconstructRecovery(cfg, s, calls);
            g.v.recovery.Some? && g.v.recovery.value.stage == RecoveryLock ==>
              g.v.recovery.value.loaded == {} == g.v.recovery.value.applied
  {
    hide ReconstructRecovery, Stands, Apart, TracksActive;
    ReconstructKeeps(cfg, s, calls);
    StandsAtRevision(cfg, s.d);
  }

  /*
   * Acknowledgements
   */

  /** How a load acknowledgement may change the barriers, given what it proves. */
  ghost predicate LoadEffect(a: RecoveryActivity, b: RecoveryActivity, members: set<Id>, x: Id) {
    && b.loaded <= a.loaded + {x} && b.applied <= a.applied
    && (b.stage == ApplyingSnapshot ==> a.stage == ApplyingSnapshot || members <= b.loaded)
  }

  lemma FireRestoreVolatile(cfg: Config, s: System, a: RecoveryActivity, c: Checkpoint, reply: Reply, calls: nat)
    requires s.v.recovery == Some(a)
    ensures var b := FireRestore(cfg, s, a, c, reply, calls).s.v.recovery;
            b.Some? && b.value.loaded == a.loaded && b.value.applied <= a.applied
  {
    hide RestoredCore, RestoreSnapshot, JournalIndex;
  }

  lemma AcknowledgeLoadVolatile(cfg: Config, s: System, a: RecoveryActivity, c: Checkpoint, x: CheckpointSlot,
                                calls: nat, members: set<Id>)
    requires s.v.recovery == Some(a)
    requires |a.loaded + {x.slot}| == |c.slots| ==> members <= a.loaded + {x.slot}
    ensures var b := AcknowledgeLoad(cfg, s, a, s.d.revision, c, x, calls).s.v.recovery;
            b.Some? && LoadEffect(a, b.value, members, x.slot)
  {
    hide ApplyMutation, FireRestore;
    var durable := x.slot in a.durableLoaded;
    var q := AckRequest(cfg, s.d.revision, LoadAck(a.attempt), c.id, x);
    var w := if durable then Written(s.d, Stored, s.d.revision, false, false) else ApplyMutation(s.d, q);
    var a2 := a.(durableLoaded := a.durableLoaded + {x.slot}, loaded := a.loaded + {x.slot});
    if durable || calls >= 1 {
      FireRestoreVolatile(cfg, Recovering(s.(d := w.d), a2), a2, c,
                          FromWritten(w).(replay := durable || x.slot in a.loaded),
                          if durable then calls else calls - 1);
    }
  }

  /** A barrier that is as large as the checkpoint holds every member. */
  lemma LargeBarrierIsFull(cfg: Config, d: Durable, a: RecoveryActivity, x: Id)
    requires Stands(cfg, d) && TracksRecovery(Past(cfg, d), a) && a.checkpoint.Some?
             && a.checkpoint.value in d.checkpoints
    requires x in SlotIds(Past(cfg, d).campaign)
    ensures |a.loaded + {x}| == |d.checkpoints[a.checkpoint.value].slots| ==> Members(d) <= a.loaded + {x}
    ensures |a.applied + {x}| == |d.checkpoints[a.checkpoint.value].slots| ==> Members(d) <= a.applied + {x}
  {
    hide Replay, CheckpointSlots, CampaignCoreCodec.CoreBytes;
    ReplayIsSound(cfg, d.journal);
    AttemptCheckpoint(cfg, d, a);
    var h := Past(cfg, d);
    MembersAreSlotIds(h.campaign);
    FullBarrier(h.campaign, a.loaded + {x});
    FullBarrier(h.campaign, a.applied + {x});
    assert |Records(h.saved[a.checkpoint.value].campaign.roster)| == |Records(h.campaign.roster)|;
  }

  lemma MembersAreSlotIds(a: Aggregate)
    ensures (set i | 0 <= i < |Records(a.roster)| :: Records(a.roster)[i].slot) == SlotIds(a)
  {
    assert forall i :: 0 <= i < |a.roster| ==> Records(a.roster)[i].slot == a.roster[i].slot;
    forall x | x in SlotIds(a) ensures x in set i | 0 <= i < |Records(a.roster)| :: Records(a.roster)[i].slot {
      var i :| 0 <= i < |a.roster| && a.roster[i].slot == x;
      assert Records(a.roster)[i].slot == x;
    }
  }

  lemma CheckpointSlotIsMember(cfg: Config, d: Durable, a: RecoveryActivity, i: nat)
    requires Stands(cfg, d) && TracksRecovery(Past(cfg, d), a) && a.checkpoint.Some?
             && a.checkpoint.value in d.checkpoints
    requires i < |d.checkpoints[a.checkpoint.value].slots|
    ensures var h := Past(cfg, d);
            var x := d.checkpoints[a.checkpoint.value].slots[i];
            && a.checkpoint.value in h.saved && x in CheckpointSlots(h.saved[a.checkpoint.value])
            && x.slot in SlotIds(h.campaign)
            && x.Record() in SlotRecords(CheckpointSlots(h.saved[a.checkpoint.value]))
  {
    hide Replay, CampaignCoreCodec.CoreBytes;
    ReplayIsSound(cfg, d.journal);
    AttemptCheckpoint(cfg, d, a);
    SlotsOfAttempt(cfg, Past(cfg, d), a, i);
    var saved := Past(cfg, d).saved[a.checkpoint.value];
    assert SlotRecords(CheckpointSlots(saved))[i] == CheckpointSlots(saved)[i].Record();
  }

  lemma UnknownLoad(cfg: Config, s: System, c: LoadedReport, calls: nat)
    requires Consistent(cfg, s) && s.v.recovery.None?
    ensures var b := RecordLoadedOp(cfg, s, c, calls).s.v.recovery; b.Some? ==> Emptied(b.value)
  {
    hide ReconstructRecovery, LoadAggregate, EvaluateFullRoster, CheckLoad, Consistent, RecordLoadedOp, Emptied, Replay,
      Stands, TracksRecovery;
    RebuiltIsLocked(cfg, s, calls);
    RecordLoadedCases(cfg, s, c, calls);
    var g := ReconstructRecovery(cfg, s, calls);
    if LoadReaches(cfg, s, c, g) {
      ConsistentLoads(cfg, s);
      LockedCannotLoad(cfg, s.(v := g.v), g.v.recovery.value, c, g.left - 3);
    }
  }

  lemma ConsistentLoads(cfg: Config, s: System)
    requires Consistent(cfg, s)
    ensures Stands(cfg, s.d) && LoadAggregate(cfg, s.d) == Some(Current(Past(cfg, s.d)))
    ensures Current(Past(cfg, s.d)).version == s.d.revision
    ensures s.v.recovery.Some? ==> TracksRecovery(Past(cfg, s.d), s.v.recovery.value)
  {
    hide LoadAggregate, Stands, TracksRecovery;
    StandsAtRevision(cfg, s.d);
    LoadIsCurrent(cfg, s.d);
  }

  lemma KnownLoad(cfg: Config, s: System, c: LoadedReport, calls: nat)
    requires Consistent(cfg, s) && s.v.recovery.Some?
    ensures BarrierStep(s.v, RecordLoadedOp(cfg, s, c, calls).s.v, Members(s.d),
                        if ProvesLoad(cfg, s, c) then {c.actor.slot} else {}, {})
  {
    hide ReconstructRecovery, LoadAggregate, EvaluateFullRoster, CheckLoad, Stands, Apart, TracksRecovery, TracksActive,
      ProvesLoad, RecordLoadedOp, Members, Tracks;
    ReconstructKnown(cfg, s, calls);
    RecordLoadedCases(cfg, s, c, calls);
    var g := ReconstructRecovery(cfg, s, calls);
    if LoadReaches(cfg, s, c, g) {
      ConsistentLoads(cfg, s);
      CheckLoadEffect(cfg, s, s.v.recovery.value, c, g.left - 3);
    }
  }

  lemma RecordLoadedEffect(cfg: Config, s: System, c: LoadedReport, calls: nat)
    requires Consistent(cfg, s)
    ensures BarrierStep(s.v, RecordLoadedOp(cfg, s, c, calls).s.v, Members(s.d),
                        if ProvesLoad(cfg, s, c) then {c.actor.slot} else {}, {})
  {
    hide Consistent, ProvesLoad, RecordLoadedOp, Members, Emptied;
    if s.v.recovery.None? {
      UnknownLoad(cfg, s, c, calls);
    } else {
      KnownLoad(cfg, s, c, calls);
    }
  }

  lemma TracksOf(cfg: Config, s: System, calls: nat)
    requires Consistent(cfg, s)
    ensures var g := ReconstructRecovery(cfg, s, calls);
            && Stands(cfg, s.d) && (g.v.recovery.Some? ==> TracksRecovery(Past(cfg, s.d), g.v.recovery.value))
  {
    hide ReconstructRecovery, Stands, Apart, TracksRecovery, TracksActive;
    ReconstructKeeps(cfg, s, calls);
  }

  /** Outside the load barrier a report changes no barrier. */
  lemma LockedCannotLoad(cfg: Config, s: System, a: RecoveryActivity, c: LoadedReport, calls: nat)
    requires s.v.recovery == Some(a) && c.checkpoint in s.d.checkpoints
    ensures var b := CheckLoad(cfg, s, a, s.d.revision, s.d.checkpoints[c.checkpoint], c, calls).s.v.recovery;
            Emptied(a) && a.stage == RecoveryLock ==> b.Some? && Emptied(b.value)
  {
    hide AcknowledgeLoad, ProofMatches;
  }

  lemma CheckLoadEffect(cfg: Config, s: System, a: RecoveryActivity, c: LoadedReport, calls: nat)
    requires Stands(cfg, s.d) && TracksRecovery(Past(cfg, s.d), a) && s.v.recovery == Some(a)
    requires a.attempt == c.attempt && a.checkpoint == Some(c.checkpoint) && c.checkpoint in s.d.checkpoints
    requires c.actor.campaign == cfg.campaign && EvaluateFullRoster(Current(Past(cfg, s.d)), c.presence) == Eligible
    ensures var b := CheckLoad(cfg, s, a, s.d.revision, s.d.checkpoints[c.checkpoint], c, calls).s.v.recovery;
            && b.Some? && b.value.applied <= a.applied
            && b.value.loaded <= a.loaded + (if ProvesLoad(cfg, s, c) then {c.actor.slot} else {})
            && (b.value.stage == ApplyingSnapshot ==> a.stage == ApplyingSnapshot || Members(s.d) <= b.value.loaded)
            && (b.value.stage == RecoveryLock ==>
                  a.stage == RecoveryLock && b.value.loaded == a.loaded && b.value.applied == a.applied)
  {
    hide Replay, EvaluateFullRoster, AcknowledgeLoad, Stands, ExactProof, TracksRecovery, Members;
    StandsAtRevision(cfg, s.d);
    var k := s.d.checkpoints[c.checkpoint];
    var i := MemberSlotIndex(k.slots, c.actor);
    if i < |k.slots| && c.succeeded && ProofMatches(cfg, k.slots[i], c.proof) && a.stage != RecoveryLock {
      CheckpointSlotIsMember(cfg, s.d, a, i);
      ChosenByActivity(cfg, s.d, a);
      assert a.stage == LoadingNativeSaves ==> ProvesLoad(cfg, s, c);
      LargeBarrierIsFull(cfg, s.d, a, k.slots[i].slot);
      AcknowledgeLoadVolatile(cfg, s, a, k, k.slots[i], calls, Members(s.d));
      AcknowledgeLoadStage(cfg, s, a, k, k.slots[i], calls);
    }
  }

  lemma AcknowledgeLoadStage(cfg: Config, s: System, a: RecoveryActivity, c: Checkpoint, x: CheckpointSlot, calls: nat)
    requires s.v.recovery == Some(a) && a.stage != RecoveryLock
    ensures AcknowledgeLoad(cfg, s, a, s.d.revision, c, x, calls).s.v.recovery.Some?
    ensures AcknowledgeLoad(cfg, s, a, s.d.revision, c, x, calls).s.v.recovery.value.stage != RecoveryLock
    ensures a.stage == ApplyingSnapshot ==>
              AcknowledgeLoad(cfg, s, a, s.d.revision, c, x, calls).s.v.recovery.value.loaded == a.loaded
  {
    hide ApplyMutation, RestoredCore, RestoreSnapshot, JournalIndex;
  }

  lemma ChosenByActivity(cfg: Config, d: Durable, a: RecoveryActivity)
    requires Stands(cfg, d) && TracksRecovery(Past(cfg, d), a) && a.checkpoint.Some?
    ensures Chosen(Past(cfg, d), a.attempt, a.checkpoint.value)
    ensures a.restore.Some? ==> Past(cfg, d).open.value.restored && a.restore.value == a.attempt + 1
  {
    hide Replay;
  }

  lemma AcknowledgeSnapshotVolatile(cfg: Config, s: System, a: RecoveryActivity, k: Checkpoint, x: CheckpointSlot,
                                    c: AppliedReport, calls: nat, members: set<Id>)
    requires s.v.recovery == Some(a)
    requires |a.applied + {x.slot}| == |k.slots| ==> members <= a.applied + {x.slot}
    ensures var r := AcknowledgeSnapshot(cfg, s, a, s.d.revision, k, x, c, calls);
            && (r.s.v.recovery.Some? ==>
                  && r.s.v.recovery.value.loaded == a.loaded && r.s.v.recovery.value.stage == a.stage
                  && r.s.v.recovery.value.applied <= a.applied + {x.slot})
            && (r.completed ==> r.s.v.recovery.None? && members <= a.applied + {x.slot})
  {
    hide ApplyMutation;
  }

  lemma RecordAppliedEffect(cfg: Config, s: System, c: AppliedReport, calls: nat)
    requires Consistent(cfg, s)
    ensures var r := RecordAppliedOp(cfg, s, c, calls);
            && BarrierStep(s.v, r.s.v, Members(s.d), {}, if ProvesApply(cfg, s, c) then {c.actor.slot} else {})
            && (r.completed && s.v.recovery.Some? ==>
                  Members(s.d) <= s.v.recovery.value.applied + (if ProvesApply(cfg, s, c) then {c.actor.slot} else {}))
  {
    hide ReconstructRecovery, LoadAggregate, EvaluateFullRoster, AcknowledgeSnapshot, Stands, Apart, TracksRecovery,
      TracksActive, ProvesApply, RecordAppliedOp, Members, Tracks, MemberSlotIndex;
    RebuiltIsLocked(cfg, s, calls);
    RecordAppliedCases(cfg, s, c, calls);
    var g := ReconstructRecovery(cfg, s, calls);
    if ApplyReaches(cfg, s, c, g) {
      assert s.v.recovery.Some?;
      ReconstructKnown(cfg, s, calls);
      StandsAtRevision(cfg, s.d);
      LoadIsCurrent(cfg, s.d);
      TracksOf(cfg, s, calls);
      var a := g.v.recovery.value;
      var k := s.d.checkpoints[c.checkpoint];
      var i := MemberSlotIndex(k.slots, c.actor);
      MemberSlotMatches(k, c);
      CheckpointSlotIsMember(cfg, s.d, a, i);
      ChosenByActivity(cfg, s.d, a);
      ReportProvesApply(cfg, s, c, k.slots[i]);
      LargeBarrierIsFull(cfg, s.d, a, k.slots[i].slot);
      AcknowledgeSnapshotVolatile(cfg, s, a, k, k.slots[i], c, g.left - 3, Members(s.d));
    }
  }

  lemma MemberSlotMatches(k: Checkpoint, c: AppliedReport)
    ensures var i := MemberSlotIndex(k.slots, c.actor);
            i < |k.slots| ==> k.slots[i].Record() == c.actor.Record()
  {
  }

  lemma ReportProvesApply(cfg: Config, s: System, c: AppliedReport, x: CheckpointSlot)
    requires s.v.recovery.Some? && s.v.recovery.value.stage == ApplyingSnapshot
    requires Replay(cfg, s.d.journal).Some? && Chosen(Past(cfg, s.d), c.attempt, c.checkpoint)
    requires Past(cfg, s.d).open.value.restored && c.restore == c.attempt + 1 && c.actor.campaign == cfg.campaign
    requires EvaluateFullRoster(Current(Past(cfg, s.d)), c.presence) == Eligible && x.Record() == c.actor.Record()
    requires x.Record() in SlotRecords(CheckpointSlots(Past(cfg, s.d).saved[c.checkpoint]))
    ensures ProvesApply(cfg, s, c)
  {
  }

  /*
   * Freshness over whole runs
   */

  /** The barriers hold only what was proved since the last lock or restart, and a
      snapshot is only applied after every member proved its load since then. */
  ghost predicate Fresh(s: System, loads: set<Id>, applies: set<Id>) {
    s.v.recovery.Some? ==>
      var a := s.v.recovery.value;
      a.loaded <= loads && a.applied <= applies && (a.stage == ApplyingSnapshot ==> Members(s.d) <= loads)
  }

  lemma ExecBarrierStep(cfg: Config, s: System, step: Step)
    requires Consistent(cfg, s)
    ensures BarrierStep(s.v, Exec(cfg, s, step).v, Members(s.d),
                        if step.DoRecordLoaded? && ProvesLoad(cfg, s, step.loaded)
                        then {step.loaded.actor.slot} else {},
                        if step.DoRecordApplied? && ProvesApply(cfg, s, step.applied)
                        then {step.applied.actor.slot} else {})
  {
    hide EditOp, BeginCheckpointOp, RecordSaveOp, FailCheckpointOp, BeginRecoveryOp, PrepareRecoveryOp, RecordLoadedOp,
      RecordAppliedOp, ReconstructRecovery, Consistent, ProvesLoad, ProvesApply, Members, BarrierStep;
    match step
    case DoBeginRecovery(c, calls) => BeginRecoveryLocks(cfg, s, c, calls);
    case DoPrepare(presence, calls) => PrepareKeepsBarriers(cfg, s, presence, calls);
    case DoRecordLoaded(c, calls) => RecordLoadedEffect(cfg, s, c, calls);
    case DoRecordApplied(c, calls) => RecordAppliedEffect(cfg, s, c, calls);
    case _ => QuietStep(cfg, s, step);
  }

  /** While an attempt exists, the roster is sealed and does not change. */
  lemma MembersStay(cfg: Config, s: System, step: Step)
    requires Consistent(cfg, s) && s.v.recovery.Some?
    ensures Members(Exec(cfg, s, step).d) == Members(s.d)
  {
    hide Exec, Replay;
    ReplayIsSound(cfg, s.d.journal);
    ExecExtends(cfg, s, step);
  }

  lemma ResetsLock(cfg: Config, s: System, step: Step)
    requires Consistent(cfg, s)
    requires step.Restart? || (step.DoBeginRecovery? && step.loss.member.campaign == cfg.campaign)
    ensures var next := Exec(cfg, s, step).v.recovery; next.Some? ==> Emptied(next.value)
  {
    hide BeginRecoveryOp, Consistent;
    if step.DoBeginRecovery? {
      BeginRecoveryLocks(cfg, s, step.loss, step.calls);
    }
  }

  lemma {:induction false} BarriersAreFresh(cfg: Config, s: System, steps: seq<Step>)
    requires Valid(cfg, s) && s.v.recovery.None? && SlotsApart(cfg, Run(cfg, s, steps).d)
    ensures Fresh(Run(cfg, s, steps), FreshLoads(cfg, s, steps), FreshApplies(cfg, s, steps))
  {
    hide Exec, Valid, SlotsApart, BarrierStep, ProvesLoad, ProvesApply, Members, Consistent;
    if steps != [] {
      var n := |steps| - 1;
      var before := Run(cfg, s, steps[..n]);
      ApartBefore(cfg, before, steps[n]);
      BarriersAreFresh(cfg, s, steps[..n]);
      RunKeepsValid(cfg, s, steps[..n]);
      ValidIsConsistent(cfg, before);
      StepStaysFresh(cfg, s, steps);
    }
  }

  lemma StepStaysFresh(cfg: Config, s: System, steps: seq<Step>)
    requires steps != [] && Consistent(cfg, Run(cfg, s, steps[..|steps| - 1]))
    requires var n := |steps| - 1;
             Fresh(Run(cfg, s, steps[..n]), FreshLoads(cfg, s, steps[..n]), FreshApplies(cfg, s, steps[..n]))
    ensures Fresh(Run(cfg, s, steps), FreshLoads(cfg, s, steps), FreshApplies(cfg, s, steps))
  {
    hide Exec, ProvesLoad, ProvesApply, Members, Consistent;
    var n := |steps| - 1;
    var before := Run(cfg, s, steps[..n]);
    var after := Exec(cfg, before, steps[n]);
    ExecBarrierStep(cfg, before, steps[n]);
    if before.v.recovery.Some? {
      MembersStay(cfg, before, steps[n]);
    }
    if steps[n].Restart? || (steps[n].DoBeginRecovery? && steps[n].loss.member.campaign == cfg.campaign) {
      ResetsLock(cfg, before, steps[n]);
    }
  }

  /** The first barrier is fresh: a service applying a snapshot has seen every member
      prove its load, to a service prepared for it, since the last roster loss, request
      or restart; so no proof straddles any of these or the preparation. */
  lemma FirstBarrierIsFresh(cfg: Config, s: System, steps: seq<Step>, a: RecoveryActivity)
    requires Valid(cfg, s) && s.v.recovery.None? && SlotsApart(cfg, Run(cfg, s, steps).d)
    requires Run(cfg, s, steps).v.recovery == Some(a) && a.stage == ApplyingSnapshot
    ensures Members(Run(cfg, s, steps).d) <= FreshLoads(cfg, s, steps)
  {
    hide Run, FreshLoads, FreshApplies, Valid, SlotsApart, Members;
    BarriersAreFresh(cfg, s, steps);
  }

  /** The second barrier is fresh: the report that completes an attempt is the last
      of a full set since the last roster loss, request or restart. */
  lemma SecondBarrierIsFresh(cfg: Config, s: System, steps: seq<Step>, c: AppliedReport, calls: nat)
    requires Valid(cfg, s) && s.v.recovery.None?
    requires var before := Run(cfg, s, steps);
             && SlotsApart(cfg, before.d) && before.v.recovery.Some?
             && RecordAppliedOp(cfg, before, c, calls).completed
    ensures Members(Run(cfg, s, steps).d) <= FreshApplies(cfg, s, steps + [DoRecordApplied(c, calls)])
  {
    hide Run, FreshLoads, Valid, SlotsApart, Members, ProvesApply, RecordAppliedOp, Consistent;
    var before := Run(cfg, s, steps);
    RunKeepsValid(cfg, s, steps);
    ValidIsConsistent(cfg, before);
    BarriersAreFresh(cfg, s, steps);
    RecordAppliedEffect(cfg, before, c, calls);
    var all := steps + [DoRecordApplied(c, calls)];
    assert all[..|all| - 1] == steps && all[|all| - 1] == DoRecordApplied(c, calls);
  }
}
