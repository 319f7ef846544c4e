/** Whole runs of the service: commands, reports, failing store calls, restarts. */
module RuntimeRuns {
  import opened Basics
  import opened CampaignState
  import opened CampaignCoreCodec
  import opened CampaignStore
  import opened CampaignHistory
  import opened RuntimeModel
  import opened RuntimeInvariants
  import opened RecoveryRebuild
  import opened RuntimeSafety
  import opened RecoverySafety

  /** Two slots of the stored, sealed roster never share a hash. */
  predicate SlotsApart(cfg: Config, d: Durable) {
    d.sealed ==>
      forall i, j :: 0 <= i < j < |d.slots| ==> cfg.slotHash(d.slots[i].slot) != cfg.slotHash(d.slots[j].slot)
  }

  lemma SlotsApartIff(cfg: Config, d: Durable)
    requires Stands(cfg, d)
    ensures SlotsApart(cfg, d) <==> Apart(cfg, Past(cfg, d).campaign)
  {
    hide Replay;
    var a := Past(cfg, d).campaign;
    assert |d.slots| == |a.roster|;
    forall i | 0 <= i < |a.roster| ensures d.slots[i].slot == a.roster[i].slot {
      assert d.slots[i] == a.roster[i].Record();
    }
  }

  /*
   * Journals only grow and a sealed roster is sealed for good, whatever state
   * the store is in
   */

  predicate Extends(d: Durable, next: Durable) {
    d.journal <= next.journal && (d.sealed ==> next.sealed && next.slots == d.slots)
  }

  /** At most one checkpoint changes its committed state. */
  predicate CommitsOnly(d: Durable, next: Durable, may: Option<Id>) {
    forall c :: c in d.checkpoints ==>
      c in next.checkpoints && (next.checkpoints[c].committedAt == d.checkpoints[c].committedAt || may == Some(c))
  }

  predicate Grows(d: Durable, next: Durable, may: Option<Id>) {
    Extends(d, next) && CommitsOnly(d, next, may)
  }

  function ActiveId(v: Volatile): Option<Id> {
    if v.active.Some? then Some(v.active.value.checkpoint) else None
  }

  lemma MutationGrows(d: Durable, q: Request)
    requires q.content.NoChange? || q.content.RevisionOnly? || q.content.CoreState?
    ensures Grows(d, ApplyMutation(d, q).d, None)
  {
    hide JournalIndex, BySlot;
  }

  lemma CandidateGrows(d: Durable, q: Request, c: Id)
    requires q.content.CandidateState?
    ensures Grows(d, CreateCheckpointCandidate(d, q, c).d, None)
  {
    hide JournalIndex;
  }

  lemma SlotSaveGrows(d: Durable, q: Request, c: Id)
    requires q.content.SlotSave?
    ensures Grows(d, RecordSlotSave(d, q, c).d, None)
  {
    hide JournalIndex;
  }

  lemma CommitGrows(d: Durable, q: Request, c: Id)
    ensures Grows(d, CommitCandidate(d, q, c).d, Some(c))
  {
    hide JournalIndex;
  }

  lemma RestoreGrows(d: Durable, q: Request, c: Id)
    requires q.content.RestoredState?
    ensures Grows(d, RestoreSnapshot(d, q, c).d, None)
  {
    hide JournalIndex;
  }

  lemma GrowsItself(d: Durable)
    ensures Grows(d, d, None)
  {
  }

  lemma GrowsTwice(a: Durable, b: Durable, c: Durable, may: Option<Id>)
    requires Grows(a, b, None) && Grows(b, c, may)
    ensures Grows(a, c, may)
  {
  }

  lemma EditExtends(cfg: Config, s: System, c: Command, calls: nat)
    ensures Grows(s.d, EditOp(cfg, s, c, calls).s.d, None)
  {
    hide CheckMutationFence, LoadAggregate, Apply, ApplyMutation, EncodeCore, EncodeIntent, FindReplay;
    forall q: Request | q.content.NoChange? || q.content.RevisionOnly? || q.content.CoreState?
      ensures Grows(s.d, ApplyMutation(s.d, q).d, None)
    {
      MutationGrows(s.d, q);
    }
  }

  lemma BeginCheckpointExtends(cfg: Config, s: System, c: Id, identity: Id, presence: seq<Presence>, calls: nat)
    ensures Grows(s.d, BeginCheckpointOp(cfg, s, c, identity, presence, calls).s.d, None)
  {
    hide CheckMutationFence, LoadAggregate, CreateCheckpointCandidate, EncodeCore, FullRoster.EvaluateFullRoster;
    forall q: Request | q.content.CandidateState? ensures Grows(s.d, CreateCheckpointCandidate(s.d, q, c).d, None) {
      CandidateGrows(s.d, q, c);
    }
  }

  lemma CommitExtends(cfg: Config, s: System, x: CheckpointActivity, reply: Reply, calls: nat)
    ensures Grows(s.d, CommitIfComplete(cfg, s, x, reply, calls).s.d, Some(x.checkpoint))
  {
    hide CommitCandidate, ExactArtifact;
    CommitGrows(s.d, CommitRequest(s.d.revision, x.checkpoint), x.checkpoint);
  }

  lemma RecordSlotExtends(cfg: Config, s: System, x: CheckpointActivity, slot: CheckpointSlot, calls: nat)
    ensures Grows(s.d, RecordSlot(cfg, s, x, slot, calls).s.d, Some(x.checkpoint))
  {
    hide RecordSlotSave, CommitIfComplete, ExactArtifact, JournalIndex;
    var m := AcknowledgeOf(x.checkpoint, slot.slot);
    var k := JournalIndex(s.d.journal, m);
    var used := if k < |s.d.journal| then 1 else 2;
    var expected := if k < |s.d.journal| then s.d.journal[k].expected else s.d.revision;
    var q := Request(expected, m, SaveSlot(x.checkpoint, slot.slot), SlotSave(slot));
    var w := RecordSlotSave(s.d, q, x.checkpoint);
    SlotSaveGrows(s.d, q, x.checkpoint);
    if calls > used {
      CommitExtends(cfg, s.(d := w.d), x, FromWritten(w), calls - used - 1);
    }
  }

  lemma ActiveStays(cfg: Config, s: System, calls: nat)
    ensures ReconstructRecovery(cfg, s, calls).v.active == s.v.active
    ensures CheckMutationFence(cfg, s, calls).v.active == s.v.active
  {
    hide ScanJournal, AckedSlots;
  }

  lemma RecordSaveExtends(cfg: Config, s: System, c: SaveReport, calls: nat)
    ensures Grows(s.d, RecordSaveOp(cfg, s, c, calls).s.d, ActiveId(s.v))
  {
    hide ReconstructRecovery, RecordSlot;
    ActiveStays(cfg, s, calls);
    var g := ReconstructRecovery(cfg, s, calls);
    if g.v.active.Some? && g.left >= 1 && c.checkpoint in s.d.checkpoints {
      var slots := s.d.checkpoints[c.checkpoint].slots;
      var i := MemberSlotIndex(slots, c.actor);
      if i < |slots| {
        RecordSlotExtends(cfg, s.(v := g.v), g.v.active.value, slots[i].(artifact := Some(c.proof)), g.left - 1);
      }
    }
  }

  lemma BeginRecoveryExtends(cfg: Config, s: System, c: LossReport, calls: nat)
    ensures Grows(s.d, BeginRecoveryOp(cfg, s, c, calls).s.d, None)
  {
    hide ReconstructRecovery, LoadAggregate, ApplyMutation, FullRoster.EvaluateFullRoster, MemberIndex;
    forall q: Request | q.content.RevisionOnly? ensures Grows(s.d, ApplyMutation(s.d, q).d, None) {
      MutationGrows(s.d, q);
    }
  }

  lemma PrepareKeepsStore(cfg: Config, s: System, presence: seq<Presence>, calls: nat)
    ensures PrepareRecoveryOp(cfg, s, presence, calls).s.d == s.d
  {
    hide ReconstructRecovery, LoadAggregate, FullRoster.EvaluateFullRoster, Recoverable;
  }

  lemma FireExtends(cfg: Config, s: System, a: RecoveryActivity, c: Checkpoint, reply: Reply, calls: nat)
    ensures Grows(s.d, FireRestore(cfg, s, a, c, reply, calls).s.d, None)
  {
    hide RestoreSnapshot, RestoredCore, JournalIndex;
    RestoreGrows(s.d, RestoreRequest(s.d.revision, a.attempt, c.id, RestoredCore(cfg, s.d, c).1), c.id);
  }

  lemma AcknowledgeExtends(cfg: Config, s: System, a: RecoveryActivity, version: nat, c: Checkpoint, x: CheckpointSlot,
                           calls: nat)
    ensures Grows(s.d, AcknowledgeLoad(cfg, s, a, version, c, x, calls).s.d, None)
  {
    hide ApplyMutation, FireRestore;
    var q := AckRequest(cfg, version, LoadAck(a.attempt), c.id, x);
    MutationGrows(s.d, q);
    var durable := x.slot in a.durableLoaded;
    var w := if durable then Written(s.d, Stored, version, false, false) else ApplyMutation(s.d, q);
    var a2 := a.(durableLoaded := a.durableLoaded + {x.slot}, loaded := a.loaded + {x.slot});
    if durable || calls >= 1 {
      FireExtends(cfg, Recovering(s.(d := w.d), a2), a2, c,
                    FromWritten(w).(replay := durable || x.slot in a.loaded), if durable then calls else calls - 1);
    }
  }

  lemma RecordLoadedExtends(cfg: Config, s: System, c: LoadedReport, calls: nat)
    ensures Grows(s.d, RecordLoadedOp(cfg, s, c, calls).s.d, None)
  {
    hide ReconstructRecovery, LoadAggregate, AcknowledgeLoad, FullRoster.EvaluateFullRoster, ProofMatches;
    var g := ReconstructRecovery(cfg, s, calls);
    var loaded := LoadAggregate(cfg, s.d);
    if g.v.recovery.Some? && loaded.Some? && g.left >= 3 && c.checkpoint in s.d.checkpoints {
      var k := s.d.checkpoints[c.checkpoint];
      var i := MemberSlotIndex(k.slots, c.actor);
      if i < |k.slots| {
        AcknowledgeExtends(cfg, s.(v := g.v), g.v.recovery.value, loaded.value.version, k, k.slots[i], g.left - 3);
      }
    }
  }

  lemma SnapshotExtends(cfg: Config, s: System, a: RecoveryActivity, version: nat, k: Checkpoint, x: CheckpointSlot,
                        c: AppliedReport, calls: nat)
    ensures Grows(s.d, AcknowledgeSnapshot(cfg, s, a, version, k, x, c, calls).s.d, None)
  {
    hide ApplyMutation, Extends, CommitsOnly;
    var q := AckRequest(cfg, version, ApplyAck(a.attempt, c.restore), k.id, x);
    GrowsItself(s.d);
    MutationGrows(s.d, q);
    MutationGrows(s.d, CompleteRequest(c));
    MutationGrows(ApplyMutation(s.d, q).d, CompleteRequest(c));
    GrowsTwice(s.d, ApplyMutation(s.d, q).d, ApplyMutation(ApplyMutation(s.d, q).d, CompleteRequest(c)).d, None);
  }

  lemma RecordAppliedExtends(cfg: Config, s: System, c: AppliedReport, calls: nat)
    ensures Grows(s.d, RecordAppliedOp(cfg, s, c, calls).s.d, None)
  {
    hide ReconstructRecovery, LoadAggregate, AcknowledgeSnapshot, FullRoster.EvaluateFullRoster, CompletionIndex;
    var g := ReconstructRecovery(cfg, s, calls);
    var loaded := LoadAggregate(cfg, s.d);
    if g.v.recovery.Some? && loaded.Some? && g.left >= 3 && c.checkpoint in s.d.checkpoints {
      var k := s.d.checkpoints[c.checkpoint];
      var i := MemberSlotIndex(k.slots, c.actor);
      if i < |k.slots| {
        SnapshotExtends(cfg, s.(v := g.v), g.v.recovery.value, loaded.value.version, k, k.slots[i], c, g.left - 3);
      }
    }
  }

  lemma ExecExtends(cfg: Config, s: System, step: Step)
    ensures Grows(s.d, Exec(cfg, s, step).d, ActiveId(s.v))
  {
    hide EditOp, BeginCheckpointOp, RecordSaveOp, FailCheckpointOp, BeginRecoveryOp, PrepareRecoveryOp, RecordLoadedOp,
      RecordAppliedOp, ReconstructRecovery;
    match step
    case DoEdit(c, calls) => EditExtends(cfg, s, c, calls);
    case DoBeginCheckpoint(c, identity, presence, calls) =>
      BeginCheckpointExtends(cfg, s, c, identity, presence, calls);
    case DoRecordSave(c, calls) => RecordSaveExtends(cfg, s, c, calls);
    case DoFailCheckpoint(c, identity, actor, calls) => FailKeepsStore(cfg, s, c, identity, actor, calls);
    case DoAbandon =>
    case DoBeginRecovery(c, calls) => BeginRecoveryExtends(cfg, s, c, calls);
    case DoPrepare(presence, calls) => PrepareKeepsStore(cfg, s, presence, calls);
    case DoRecordLoaded(c, calls) => RecordLoadedExtends(cfg, s, c, calls);
    case DoRecordApplied(c, calls) => RecordAppliedExtends(cfg, s, c, calls);
    case DoObserve(calls) =>
    case Restart =>
  }

  lemma FailKeepsStore(cfg: Config, s: System, c: Id, identity: Id, actor: Member, calls: nat)
    ensures FailCheckpointOp(cfg, s, c, identity, actor, calls).s.d == s.d
  {
    hide ReconstructRecovery;
  }

  /*
   * The invariant over every run
   */

  lemma ExecKeepsStep(cfg: Config, s: System, step: Step)
    requires Consistent(cfg, s)
    ensures InStep(cfg, Exec(cfg, s, step))
  {
    hide EditOp, BeginCheckpointOp, RecordSaveOp, FailCheckpointOp, BeginRecoveryOp, PrepareRecoveryOp, RecordLoadedOp,
      RecordAppliedOp, ReconstructRecovery, Stands, Apart;
    match step
    case DoEdit(c, calls) => EditKeeps(cfg, s, c, calls);
    case DoBeginCheckpoint(c, identity, presence, calls) => BeginCheckpointKeeps(cfg, s, c, identity, presence, calls);
    case DoRecordSave(c, calls) => RecordSaveKeeps(cfg, s, c, calls);
    case DoFailCheckpoint(c, identity, actor, calls) => FailCheckpointKeeps(cfg, s, c, identity, actor, calls);
    case DoAbandon =>
    case DoBeginRecovery(c, calls) => BeginRecoveryKeeps(cfg, s, c, calls);
    case DoPrepare(presence, calls) => PrepareKeeps(cfg, s, presence, calls);
    case DoRecordLoaded(c, calls) => RecordLoadedKeeps(cfg, s, c, calls);
    case DoRecordApplied(c, calls) => RecordAppliedKeeps(cfg, s, c, calls);
    case DoObserve(calls) => ReconstructKeeps(cfg, s, calls);
    case Restart =>
  }

  /** A consistent service whose stored slots are apart. */
  ghost predicate Valid(cfg: Config, s: System) {
    InStep(cfg, s) && SlotsApart(cfg, s.d)
  }

  lemma ValidIsConsistent(cfg: Config, s: System)
    ensures Valid(cfg, s) <==> Consistent(cfg, s)
  {
    hide Stands, Tracks, Apart, SlotsApart;
    if Stands(cfg, s.d) {
      SlotsApartIff(cfg, s.d);
    }
  }

  lemma ApartBefore(cfg: Config, s: System, step: Step)
    ensures SlotsApart(cfg, Exec(cfg, s, step).d) ==> SlotsApart(cfg, s.d)
  {
    hide Exec;
    ExecExtends(cfg, s, step);
  }

  lemma ExecKeepsValid(cfg: Config, s: System, step: Step)
    requires Valid(cfg, s) && SlotsApart(cfg, Exec(cfg, s, step).d)
    ensures Valid(cfg, Exec(cfg, s, step))
  {
    hide Exec, InStep, SlotsApart;
    ValidIsConsistent(cfg, s);
    ExecKeepsStep(cfg, s, step);
  }

  lemma {:induction false} RunKeepsValid(cfg: Config, s: System, steps: seq<Step>)
    requires Valid(cfg, s) && SlotsApart(cfg, Run(cfg, s, steps).d)
    ensures Valid(cfg, Run(cfg, s, steps))
  {
    hide Exec, Valid, SlotsApart;
    if steps != [] {
      var n := |steps| - 1;
      ApartBefore(cfg, Run(cfg, s, steps[..n]), steps[n]);
      RunKeepsValid(cfg, s, steps[..n]);
      ExecKeepsValid(cfg, Run(cfg, s, steps[..n]), steps[n]);
    }
  }

  /** The sorted initial roster is in slot order and nobody in it is ready. */
  lemma SortedRoster(roster: seq<SlotRecord>)
    requires ValidRoster(Sort(States(roster)))
    ensures var sorted := Sort(States(roster));
            && Ascending(sorted) && States(Records(sorted)) == sorted && Unready(Sort(sorted)) == sorted
  {
    var sorted := Sort(States(roster));
    SortedStatesUnready(roster);
    ValidRosterIsPermutationInvariant(sorted, States(roster));
    SortAscending(States(roster));
    SortFixesAscending(sorted);
    forall i | 0 <= i < |sorted| ensures !sorted[i].ready {
      assert sorted[i] in sorted;
    }
  }

  lemma CreatedIsValid(cfg: Config, mutation: Id, roster: seq<SlotRecord>)
    requires CreateLobby(cfg, mutation, roster).Some? && ValidIdentity(cfg.campaign)
    ensures Valid(cfg, CreateLobby(cfg, mutation, roster).value)
  {
    hide ValidRoster, Ascending, ValidAggregate, CoreBytes, ImageOf, IntentBytes, Sort, States, Records, Unready;
    var s := CreateLobby(cfg, mutation, roster).value;
    var sorted := Sort(States(roster));
    RosterFaultIff(sorted, true);
    SortedRoster(roster);
    assert Replay(cfg, s.d.journal) == Created(cfg, s.d.journal[0]);
    assert Past(cfg, s.d) == History(1, Aggregate(cfg.campaign, 1, Lobby, false, None, sorted), map[], None, None);
  }

  lemma SortedStatesUnready(roster: seq<SlotRecord>)
    ensures forall x :: x in Sort(States(roster)) ==> !x.ready
  {
    forall x | x in Sort(States(roster)) ensures !x.ready {
      assert x in multiset(States(roster));
    }
  }

  /** From the creation of the campaign on, through any commands, reports,
      failing store calls and restarts, the service stays consistent. */
  lemma EveryRunIsValid(cfg: Config, mutation: Id, roster: seq<SlotRecord>, steps: seq<Step>)
    requires CreateLobby(cfg, mutation, roster).Some? && ValidIdentity(cfg.campaign)
    requires SlotsApart(cfg, Run(cfg, CreateLobby(cfg, mutation, roster).value, steps).d)
    ensures Valid(cfg, Run(cfg, CreateLobby(cfg, mutation, roster).value, steps))
  {
    hide Run, CreateLobby, Valid, SlotsApart;
    CreatedIsValid(cfg, mutation, roster);
    RunKeepsValid(cfg, CreateLobby(cfg, mutation, roster).value, steps);
  }
}
