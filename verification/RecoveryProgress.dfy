/** When an open recovery can still be completed, and when the campaign is stuck. */
module RecoveryProgress {
  import opened Basics
  import opened CampaignState
  import opened FullRoster
  import opened CampaignCoreCodec
  import opened CampaignStore
  import opened CampaignHistory
  import opened RuntimeModel
  import opened OperationShapes
  import opened RuntimeInvariants
  import opened RecoveryRebuild
  import opened RuntimeSafety
  import opened RecoverySafety
  import opened RuntimeRuns
  import opened OpenAttempt
  import opened RecoveryTheorems
  import RosterLoss

  /** Store calls enough for any one step. */
  const PLENTY: nat := 9

  /*
   * The committed checkpoint and the roster
   */

  function MemberAt(cfg: Config, slots: seq<SlotRecord>, i: nat): Member
    requires i < |slots|
  {
    Member(cfg.campaign, slots[i].slot, slots[i].player, slots[i].binding)
  }

  function MembersOf(cfg: Config, slots: seq<SlotRecord>): (r: seq<Member>)
    ensures |r| == |slots|
    ensures forall i :: 0 <= i < |r| ==> r[i] == MemberAt(cfg, slots, i)
  {
    seq(|slots|, i requires 0 <= i < |slots| => MemberAt(cfg, slots, i))
  }

  /** Everybody in the stored roster is connected, and nobody else is admitted. */
  ghost predicate FullPresence(cfg: Config, slots: seq<SlotRecord>, presence: seq<Presence>) {
    slots != [] && AllConnected(presence) && multiset(Admitted(presence)) == multiset(MembersOf(cfg, slots))
  }

  lemma FullIsEligible(cfg: Config, d: Durable, presence: seq<Presence>)
    requires Stands(cfg, d) && d.sealed
    ensures EvaluateFullRoster(Current(Past(cfg, d)), presence) == Eligible <==> FullPresence(cfg, d.slots, presence)
  {
    hide Replay, CoreBytes, ImageOf, EvaluateFullRoster, CheckpointSlots;
    ReplayIsSound(cfg, d.journal);
    var a := Current(Past(cfg, d));
    EligibleIff(a, presence);
    assert d.slots == Records(a.roster);
    assert Expected(a) == MembersOf(cfg, d.slots);
  }

  function FirstSlots(slots: seq<SlotRecord>, n: nat): set<Id>
    requires n <= |slots|
  {
    set i | 0 <= i < n :: slots[i].slot
  }

  ghost predicate SlotsDistinct(slots: seq<SlotRecord>) {
    forall i, j :: 0 <= i < j < |slots| ==> slots[i].slot != slots[j].slot
  }

  lemma FirstSlotsGrow(slots: seq<SlotRecord>, n: nat)
    requires n < |slots|
    ensures FirstSlots(slots, n) + {slots[n].slot} == FirstSlots(slots, n + 1)
  {
  }

  lemma {:induction false} FirstSlotsCount(slots: seq<SlotRecord>, n: nat)
    requires n <= |slots| && SlotsDistinct(slots)
    ensures |FirstSlots(slots, n)| == n
  {
    if n > 0 {
      FirstSlotsCount(slots, n - 1);
      FirstSlotsGrow(slots, n - 1);
    }
  }

  /** The stored checkpoint is the committed one, with the stored roster and an exact
      proof for every slot. */
  ghost predicate Committed(cfg: Config, d: Durable, id: Id) {
    && d.lastCommitted == Some(id) && id in d.checkpoints
    && d.sealed && SlotsDistinct(d.slots)
    && var k := d.checkpoints[id];
       && k.id == id && k.committedAt.Some? && |k.slots| == |d.slots| && SlotRecords(k.slots) == d.slots
       && forall i :: 0 <= i < |k.slots| ==>
            k.slots[i].artifact.Some? && ExactArtifact(cfg, k.slots[i], k.slots[i].artifact.value.identity)
  }

  lemma RosterSlotsDistinct(a: Aggregate)
    requires ValidRoster(a.roster)
    ensures SlotsDistinct(Records(a.roster))
  {
    forall i, j | 0 <= i < j < |a.roster| ensures Records(a.roster)[i].slot != Records(a.roster)[j].slot {
      assert !Clash(a.roster[i], a.roster[j]);
    }
  }

  lemma ProofsAreExact(cfg: Config, h: History, id: Id)
    requires Sound(cfg, h) && h.lastCommitted == Some(id)
    ensures id in h.saved && h.saved[id].committedAt.Some?
    ensures var slots := CheckpointSlots(h.saved[id]);
            forall i :: 0 <= i < |slots| ==>
              slots[i].artifact.Some? && ExactArtifact(cfg, slots[i], slots[i].artifact.value.identity)
  {
    hide SoundCampaign;
    var saved := h.saved[id];
    assert SoundSaved(cfg, h, id, saved);
    forall i | 0 <= i < |saved.campaign.roster| ensures saved.campaign.roster[i].slot in saved.artifacts {
      assert saved.campaign.roster[i].slot in SlotIds(saved.campaign);
    }
  }

  lemma ProvenRecords(saved: Saved)
    ensures SlotRecords(CheckpointSlots(saved)) == Records(saved.campaign.roster)
  {
  }

  lemma SavedRosterIsCurrent(cfg: Config, h: History, id: Id)
    requires Sound(cfg, h) && id in h.saved
    ensures h.campaign.sealed && ValidRoster(h.campaign.roster)
    ensures Records(h.saved[id].campaign.roster) == Records(h.campaign.roster)
    ensures h.saved[id].campaign.version <= MAX_REVISION
  {
    hide ExactProof;
    assert SoundSaved(cfg, h, id, h.saved[id]);
  }

  lemma CommittedStands(cfg: Config, d: Durable, id: Id)
    requires Stands(cfg, d) && Past(cfg, d).lastCommitted == Some(id)
    ensures Committed(cfg, d, id)
  {
    hide Replay, CoreBytes, ImageOf, ExactArtifact, Sound, SlotsDistinct, SlotRecords, CheckpointSlots;
    ReplayIsSound(cfg, d.journal);
    var h := Past(cfg, d);
    ProofsAreExact(cfg, h, id);
    SavedRosterIsCurrent(cfg, h, id);
    RosterSlotsDistinct(h.campaign);
    ProvenRecords(h.saved[id]);
  }

  lemma MemberIsListed(cfg: Config, slots: seq<CheckpointSlot>, records: seq<SlotRecord>, n: nat)
    requires SlotRecords(slots) == records && SlotsDistinct(records) && n < |records|
    ensures MemberSlotIndex(slots, MemberAt(cfg, records, n)) == n
    ensures slots[n].Record() == records[n]
  {
    assert forall i :: 0 <= i < |slots| ==> slots[i].Record() == SlotRecords(slots)[i];
    var j := MemberSlotIndex(slots, MemberAt(cfg, records, n));
    assert slots[n].Record() == MemberAt(cfg, records, n).Record();
    assert j <= n;
    assert slots[j].Record() == records[n];
  }

  /*
   * The first barrier
   */

  /** The attempt is restored, or there is a revision left to restore it at. */
  ghost predicate Room(cfg: Config, d: Durable) {
    && Replay(cfg, d.journal).Some? && Past(cfg, d).open.Some?
    && (Past(cfg, d).open.value.restored || d.revision < MAX_REVISION)
  }

  /** The open attempt and the checkpoint it works with. */
  ghost predicate Goes(cfg: Config, d: Durable, m: nat, id: Id) {
    && Replay(cfg, d.journal).Some?
    && var h := Past(cfg, d);
       h.open.Some? && h.open.value.entry == m && h.lastCommitted == Some(id)
  }

  /** A service collecting loads has had exactly the first `n` members' since its lock. */
  ghost predicate Loading(cfg: Config, s: System, n: nat) {
    && Valid(cfg, s) && Room(cfg, s.d) && s.v.active.None? && s.v.recovery.Some? && n <= |s.d.slots|
    && var a := s.v.recovery.value;
       a.stage == LoadingNativeSaves && a.checkpoint.Some? && a.loaded == FirstSlots(s.d.slots, n)
  }

  /** A service applying the snapshot has had exactly the first `n` members' receipts. */
  ghost predicate Applying(cfg: Config, s: System, n: nat) {
    && Valid(cfg, s) && s.v.active.None? && s.v.recovery.Some? && n <= |s.d.slots|
    && var a := s.v.recovery.value;
       a.stage == ApplyingSnapshot && a.checkpoint.Some? && a.applied == FirstSlots(s.d.slots, n)
  }

  lemma RestoreWrites(d: Durable, q: Request, id: Id)
    requires q.content.RestoredState? && q.expected == d.revision < MAX_REVISION && id in d.checkpoints
    requires JournalIndex(d.journal, q.mutation) == |d.journal|
    requires d.checkpoints[id].committedAt.Some? && SlotRecords(d.checkpoints[id].slots) == d.slots
    ensures RestoreSnapshot(d, q, id).error == Stored
  {
  }

  lemma TrackedChoice(cfg: Config, d: Durable, a: RecoveryActivity)
    requires Stands(cfg, d) && TracksRecovery(Past(cfg, d), a) && a.checkpoint.Some?
    ensures Committed(cfg, d, a.checkpoint.value)
    ensures Past(cfg, d).open.Some?
  {
    hide Committed, Replay, Stands;
    CommittedStands(cfg, d, a.checkpoint.value);
  }

  /** With every member loaded the restore succeeds, or is found again. */
  lemma RestoreFires(cfg: Config, s: System, a: RecoveryActivity, reply: Reply, calls: nat)
    requires InStep(cfg, s) && TracksRecovery(Past(cfg, s.d), a) && a.checkpoint.Some? && Room(cfg, s.d) && calls >= 3
    requires a.checkpoint.value in s.d.checkpoints
    ensures var f := FireRestore(cfg, s, a, s.d.checkpoints[a.checkpoint.value], reply, calls);
            var r := f.s.v;
            && f.dispatch == RestoredSnapshot
            && r.active == s.v.active && r.recovery.Some? && r.recovery.value.stage == ApplyingSnapshot
            && r.recovery.value.checkpoint == a.checkpoint && r.recovery.value.applied == {}
  {
    hide Replay, Stands, RestoredCore, RestoreSnapshot, TracksRecovery, ExactArtifact, Tracks;
    StandsAtRevision(cfg, s.d);
    TrackedChoice(cfg, s.d, a);
    RestoreFound(cfg, s.d, a);
    if !Past(cfg, s.d).open.value.restored {
      var k := s.d.checkpoints[a.checkpoint.value];
      var core := RestoredCore(cfg, s.d, k);
      CoreIsStored(cfg, s.d, a);
      IndexIsBounded(s.d.journal, RestoreOf(a.attempt));
      RestoreWrites(s.d, RestoreRequest(s.d.revision, a.attempt, k.id, core.1), k.id);
    }
  }

  lemma IndexIsBounded(journal: seq<Record>, m: MutationId)
    ensures JournalIndex(journal, m) <= |journal|
  {
  }

  /** The durable half of a load acknowledgement: already there, or written now. */
  function LoadWritten(cfg: Config, s: System, a: RecoveryActivity, k: Checkpoint, x: CheckpointSlot): Written {
    if x.slot in a.durableLoaded then Written(s.d, Stored, s.d.revision, false, false)
    else ApplyMutation(s.d, AckRequest(cfg, s.d.revision, LoadAck(a.attempt), k.id, x))
  }

  lemma LoadIsWritten(cfg: Config, s: System, a: RecoveryActivity, n: nat)
    requires Consistent(cfg, s) && s.v == Volatile(None, Some(a)) && a.checkpoint.Some? && a.stage == LoadingNativeSaves
    requires n < |s.d.slots| && Room(cfg, s.d)
    ensures Committed(cfg, s.d, a.checkpoint.value)
    ensures var k := s.d.checkpoints[a.checkpoint.value];
            var w := LoadWritten(cfg, s, a, k, k.slots[n]);
            var a2 := a.(durableLoaded := a.durableLoaded + {k.slots[n].slot}, loaded := a.loaded + {k.slots[n].slot});
            && w.error == Stored && Stands(cfg, w.d) && TracksRecovery(Past(cfg, w.d), a2) && Room(cfg, w.d)
            && a.checkpoint.value in w.d.checkpoints && w.d.checkpoints[a.checkpoint.value] == k
  {
    hide Replay, Stands, ApplyMutation, TracksRecovery, Apart, CheckpointSlots, ExactArtifact, SlotRecords;
    StandsAtRevision(cfg, s.d);
    TrackedChoice(cfg, s.d, a);
    AttemptCheckpoint(cfg, s.d, a);
    var h := Past(cfg, s.d);
    var k := s.d.checkpoints[a.checkpoint.value];
    var x := k.slots[n];
    if x.slot !in a.durableLoaded {
      LoadAckStands(cfg, s.d, a, n);
    }
    var w := LoadWritten(cfg, s, a, k, x);
    DurableSlot(h, a, x.slot);
    StandsAtRevision(cfg, w.d);
    LoadedTracks(h, Past(cfg, w.d), a, x.slot);
    SameCheckpoint(cfg, s.d, w.d, a);
  }

  lemma LoadAcknowledged(cfg: Config, s: System, a: RecoveryActivity, n: nat, calls: nat)
    requires Consistent(cfg, s) && s.v == Volatile(None, Some(a)) && a.checkpoint.Some? && a.stage == LoadingNativeSaves
    requires n < |s.d.slots| && Room(cfg, s.d) && calls >= 4
    ensures Committed(cfg, s.d, a.checkpoint.value)
    ensures var k := s.d.checkpoints[a.checkpoint.value];
            var f := AcknowledgeLoad(cfg, s, a, s.d.revision, k, k.slots[n], calls);
            var r := f.s;
            var loaded := a.loaded + {k.slots[n].slot};
            && r.v.active.None? && r.v.recovery.Some? && r.v.recovery.value.checkpoint == a.checkpoint
            && if |loaded| != |k.slots|
               then r.v.recovery.value.stage == LoadingNativeSaves && r.v.recovery.value.loaded == loaded
                    && Room(cfg, r.d)
               else r.v.recovery.value.stage == ApplyingSnapshot && r.v.recovery.value.applied == {}
                    && f.dispatch == RestoredSnapshot
  {
    hide Replay, Stands, ApplyMutation, TracksRecovery, FireRestore, Apart, ExactArtifact, Room, SlotRecords;
    LoadIsWritten(cfg, s, a, n);
    var k := s.d.checkpoints[a.checkpoint.value];
    var x := k.slots[n];
    var w := LoadWritten(cfg, s, a, k, x);
    var a2 := a.(durableLoaded := a.durableLoaded + {x.slot}, loaded := a.loaded + {x.slot});
    var s2 := Recovering(s.(d := w.d), a2);
    var durable := x.slot in a.durableLoaded;
    StandsAtRevision(cfg, w.d);
    RestoreFires(cfg, s2, a2, FromWritten(w).(replay := durable || x.slot in a.loaded),
                 if durable then calls else calls - 1);
  }

  lemma CheckPasses(cfg: Config, s: System, a: RecoveryActivity, k: Checkpoint, c: LoadedReport, n: nat, calls: nat)
    requires MemberSlotIndex(k.slots, c.actor) == n < |k.slots| && c.succeeded && a.stage != RecoveryLock
    requires k.slots[n].artifact == Some(c.proof) && ExactArtifact(cfg, k.slots[n], c.proof.identity)
    ensures CheckLoad(cfg, s, a, s.d.revision, k, c, calls) ==
            AcknowledgeLoad(cfg, s, a, s.d.revision, k, k.slots[n], calls)
  {
    hide AcknowledgeLoad, MemberSlotIndex, ExactArtifact;
  }

  /** A member's own report about an attempt: its load, or its receipt. */
  ghost predicate Reports(cfg: Config, slots: seq<SlotRecord>, n: nat, loads: bool, m: nat, id: Id, step: Step) {
    && n < |slots|
    && if loads
       then step.DoRecordLoaded? && step.loaded.succeeded && step.loaded.actor == MemberAt(cfg, slots, n)
            && step.loaded.attempt == m && step.loaded.checkpoint == id
       else step.DoRecordApplied? && step.applied.actor == MemberAt(cfg, slots, n)
            && step.applied.attempt == m && step.applied.checkpoint == id && step.applied.restore == m + 1
  }

  /** Steps in which the members from `n` on report, in slot order. */
  ghost predicate ReportsFrom(cfg: Config, slots: seq<SlotRecord>, n: nat, loads: bool, m: nat, id: Id,
                              steps: seq<Step>) {
    n + |steps| == |slots| && forall i :: 0 <= i < |steps| ==> Reports(cfg, slots, n + i, loads, m, id, steps[i])
  }

  /** The next member's load is accepted; the last one fires the barrier. */
  lemma LoadStep(cfg: Config, s: System, n: nat, presence: seq<Presence>, m: nat, id: Id) returns (step: Step)
    requires Loading(cfg, s, n) && n < |s.d.slots| && FullPresence(cfg, s.d.slots, presence) && Goes(cfg, s.d, m, id)
    ensures Reports(cfg, s.d.slots, n, true, m, id, step)
    ensures var next := Exec(cfg, s, step);
            && next.d.slots == s.d.slots && Goes(cfg, next.d, m, id)
            && if n + 1 < |s.d.slots| then Loading(cfg, next, n + 1)
               else Applying(cfg, next, 0)
                    && RecordLoadedOp(cfg, s, step.loaded, step.calls).dispatch == RestoredSnapshot
  {
    hide Follows, Replay, Stands, TracksRecovery, ExactArtifact, AcknowledgeLoad, CheckLoad, LoadAggregate,
      EvaluateFullRoster, Tracks, FullPresence, RecordLoadedOp, MemberSlotIndex, SlotsApart, Apart, ReconstructRecovery,
      Room, FirstSlots, SlotRecords;
    var a := s.v.recovery.value;
    RecoveringIsSealed(cfg, s);
    ValidIsConsistent(cfg, s);
    TrackedChoice(cfg, s.d, a);
    AttemptGoes(cfg, s.d, a);
    var k := s.d.checkpoints[id];
    var c := LoadedReport(a.attempt, id, MemberAt(cfg, s.d.slots, n), true, k.slots[n].artifact.value, presence);
    step := DoRecordLoaded(c, PLENTY);
    ReconstructKnown(cfg, s, PLENTY);
    StandsAtRevision(cfg, s.d);
    LoadIsCurrent(cfg, s.d);
    FullIsEligible(cfg, s.d, presence);
    RecordLoadedCases(cfg, s, c, PLENTY);
    MemberIsListed(cfg, k.slots, s.d.slots, n);
    CheckPasses(cfg, s, a, k, c, n, PLENTY - 3);
    LoadAcknowledged(cfg, s, a, n, PLENTY - 3);
    FirstSlotsGrow(s.d.slots, n);
    FirstSlotsCount(s.d.slots, n + 1);
    NoSlots(s.d.slots);
    StepKeeps(cfg, s, step);
    StillGoes(cfg, s, step, m, id);
  }

  lemma AttemptGoes(cfg: Config, d: Durable, a: RecoveryActivity)
    requires Stands(cfg, d) && TracksRecovery(Past(cfg, d), a) && a.checkpoint.Some?
    ensures Goes(cfg, d, a.attempt, a.checkpoint.value)
  {
    hide Replay;
  }

  lemma StillGoes(cfg: Config, s: System, step: Step, m: nat, id: Id)
    requires Valid(cfg, s) && Goes(cfg, s.d, m, id)
    requires step.DoRecordApplied? ==> !RecordAppliedOp(cfg, s, step.applied, step.calls).completed
    ensures Valid(cfg, Exec(cfg, s, step)) && Goes(cfg, Exec(cfg, s, step).d, m, id)
  {
    hide Exec, RecordAppliedOp, Replay;
    OpenAttemptStays(cfg, s, step);
  }

  lemma NoSlots(slots: seq<SlotRecord>)
    ensures FirstSlots(slots, 0) == {}
  {
  }

  /*
   * The second barrier
   */

  function ReceiptWritten(cfg: Config, s: System, a: RecoveryActivity, k: Checkpoint, x: CheckpointSlot): Written {
    if x.slot in a.durableApplied then Written(s.d, Stored, s.d.revision, false, false)
    else ApplyMutation(s.d, AckRequest(cfg, s.d.revision, ApplyAck(a.attempt, s.d.revision), k.id, x))
  }

  lemma ReceiptIsWritten(cfg: Config, s: System, a: RecoveryActivity, n: nat)
    requires Consistent(cfg, s) && s.v == Volatile(None, Some(a)) && a.checkpoint.Some? && a.stage == ApplyingSnapshot
    requires n < |s.d.slots|
    ensures Committed(cfg, s.d, a.checkpoint.value)
    ensures var k := s.d.checkpoints[a.checkpoint.value];
            var w := ReceiptWritten(cfg, s, a, k, k.slots[n]);
            var a1 := a.(durableApplied := a.durableApplied + {k.slots[n].slot},
                         applied := a.applied + {k.slots[n].slot});
            && w.error == Stored && Stands(cfg, w.d) && TracksRecovery(Past(cfg, w.d), a1)
            && w.d.revision == s.d.revision
            && a.checkpoint.value in w.d.checkpoints && w.d.checkpoints[a.checkpoint.value] == k
  {
    hide Replay, Stands, ApplyMutation, TracksRecovery, Apart, CheckpointSlots, ExactArtifact, SlotRecords;
    StandsAtRevision(cfg, s.d);
    TrackedChoice(cfg, s.d, a);
    AttemptCheckpoint(cfg, s.d, a);
    var h := Past(cfg, s.d);
    var k := s.d.checkpoints[a.checkpoint.value];
    var x := k.slots[n];
    if x.slot !in a.durableApplied {
      ApplyAckStands(cfg, s.d, a, n);
    }
    var w := ReceiptWritten(cfg, s, a, k, x);
    DurableSlot(h, a, x.slot);
    StandsAtRevision(cfg, w.d);
    AppliedTracks(h, Past(cfg, w.d), a, x.slot);
    SameCheckpoint(cfg, s.d, w.d, a);
  }

  /** With every member's receipt the completion succeeds and ends the attempt. */
  lemma CompletionFires(cfg: Config, s: System, a: RecoveryActivity, c: AppliedReport, calls: nat)
    requires InStep(cfg, s) && s.v == Volatile(None, Some(a)) && a.stage == ApplyingSnapshot && calls >= 1
    requires a.checkpoint == Some(c.checkpoint) && a.restore == Some(c.restore) && a.attempt == c.attempt
    requires a.applied == SlotIds(Past(cfg, s.d).campaign)
    ensures var r := Complete(s, a, c, calls);
            r.completed && r.s.v == Volatile(None, None) && Stands(cfg, r.s.d) && Past(cfg, r.s.d).open.None?
  {
    hide Replay, Stands, TracksRecovery, ApplyMutation, SlotIds;
    StandsAtRevision(cfg, s.d);
    ReplayIsSound(cfg, s.d.journal);
    RestoreRevisionIsCurrent(cfg, Past(cfg, s.d), a);
    CompletionIsFresh(cfg, s.d, a);
    NoOpWrites(s.d, CompleteRequest(c));
    CompleteKeeps(cfg, s, a, c, calls);
    StandsAtRevision(cfg, Complete(s, a, c, calls).s.d);
  }

  lemma ReceiptAcknowledged(cfg: Config, s: System, a: RecoveryActivity, n: nat, c: AppliedReport, calls: nat)
    requires Consistent(cfg, s) && s.v == Volatile(None, Some(a)) && a.checkpoint.Some? && a.stage == ApplyingSnapshot
    requires a.checkpoint == Some(c.checkpoint) && a.restore == Some(c.restore) && a.attempt == c.attempt
    requires n < |s.d.slots| && calls >= 2
    ensures Committed(cfg, s.d, a.checkpoint.value)
    ensures var k := s.d.checkpoints[a.checkpoint.value];
            var r := AcknowledgeSnapshot(cfg, s, a, s.d.revision, k, k.slots[n], c, calls);
            var applied := a.applied + {k.slots[n].slot};
            if |applied| != |k.slots|
            then !r.completed && r.s.v.active.None? && r.s.v.recovery.Some?
                 && r.s.v.recovery.value.checkpoint == a.checkpoint
                 && r.s.v.recovery.value.stage == ApplyingSnapshot && r.s.v.recovery.value.applied == applied
            else r.completed && r.s.v == Volatile(None, None) && Stands(cfg, r.s.d) && Past(cfg, r.s.d).open.None?
  {
    hide Replay, Stands, ApplyMutation, TracksRecovery, Complete, Apart, ExactArtifact, SlotRecords, SlotIds;
    StandsAtRevision(cfg, s.d);
    ReplayIsSound(cfg, s.d.journal);
    RestoreRevisionIsCurrent(cfg, Past(cfg, s.d), a);
    ReceiptIsWritten(cfg, s, a, n);
    var k := s.d.checkpoints[a.checkpoint.value];
    var x := k.slots[n];
    var w := ReceiptWritten(cfg, s, a, k, x);
    var a1 := a.(durableApplied := a.durableApplied + {x.slot}, applied := a.applied + {x.slot});
    var s1 := Recovering(s.(d := w.d), a1);
    StandsAtRevision(cfg, w.d);
    LoadBarrier(cfg, w.d, a1);
    if |a1.applied| == |k.slots| {
      CompletionFires(cfg, s1, a1, c, if x.slot in a.durableApplied then calls else calls - 1);
    }
  }

  /** No attempt is open, and the service knows it. */
  ghost predicate Idle(cfg: Config, s: System) {
    Valid(cfg, s) && s.v == Volatile(None, None) && Past(cfg, s.d).open.None?
  }

  /** The next member's receipt is accepted; the last one completes the attempt. */
  lemma ReceiptStep(cfg: Config, s: System, n: nat, presence: seq<Presence>, m: nat, id: Id) returns (step: Step)
    requires Applying(cfg, s, n) && n < |s.d.slots| && FullPresence(cfg, s.d.slots, presence) && Goes(cfg, s.d, m, id)
    ensures Reports(cfg, s.d.slots, n, false, m, id, step) && s.v.recovery.Some?
    ensures var next := Exec(cfg, s, step);
            && next.d.slots == s.d.slots
            && if n + 1 < |s.d.slots| then Applying(cfg, next, n + 1) && Goes(cfg, next.d, m, id)
               else Idle(cfg, next) && RecordAppliedOp(cfg, s, step.applied, step.calls).completed
  {
    hide Follows, Replay, Stands, ExactArtifact, AcknowledgeSnapshot, LoadAggregate, EvaluateFullRoster, Tracks,
      TracksRecovery, FullPresence, RecordAppliedOp, MemberSlotIndex, SlotsApart, Apart, ReconstructRecovery,
      FirstSlots, SlotRecords;
    var a := s.v.recovery.value;
    StandsAtRevision(cfg, s.d);
    RecoveringIsSealed(cfg, s);
    ValidIsConsistent(cfg, s);
    TrackedChoice(cfg, s.d, a);
    AttemptGoes(cfg, s.d, a);
    ApplyingIsRestored(Past(cfg, s.d), a);
    var k := s.d.checkpoints[id];
    var c := AppliedReport(a.attempt, id, a.restore.value, MemberAt(cfg, s.d.slots, n), presence);
    step := DoRecordApplied(c, PLENTY);
    ReconstructKnown(cfg, s, PLENTY);
    LoadIsCurrent(cfg, s.d);
    FullIsEligible(cfg, s.d, presence);
    RecordAppliedCases(cfg, s, c, PLENTY);
    MemberIsListed(cfg, k.slots, s.d.slots, n);
    ReceiptAcknowledged(cfg, s, a, n, c, PLENTY - 3);
    FirstSlotsGrow(s.d.slots, n);
    FirstSlotsCount(s.d.slots, n + 1);
    StepKeeps(cfg, s, step);
    if n + 1 < |s.d.slots| {
      StillGoes(cfg, s, step, m, id);
    }
  }

  lemma ApplyingIsRestored(h: History, a: RecoveryActivity)
    requires TracksRecovery(h, a) && a.stage == ApplyingSnapshot
    ensures a.restore == Some(a.attempt + 1)
  {
  }

  /*
   * From any open attempt to its completion
   */

  /** Whatever the service knows of the attempt, reporting a loss takes it to the lock. */
  lemma RelockStep(cfg: Config, s: System, presence: seq<Presence>) returns (step: Step)
    requires Valid(cfg, s) && Past(cfg, s.d).open.Some? && s.d.slots != []
    ensures step.DoBeginRecovery?
    ensures var next := Exec(cfg, s, step);
            Valid(cfg, next) && next.d == s.d && next.v.recovery.Some? && next.v.recovery.value.stage == RecoveryLock
  {
    hide Replay, Stands, Tracks, SlotsApart, Apart, ReconstructRecovery, StartRecovery;
    StandsAtRevision(cfg, s.d);
    RecoveringIsSealed(cfg, s);
    ValidIsConsistent(cfg, s);
    step := DoBeginRecovery(LossReport(MemberAt(cfg, s.d.slots, 0), presence, true, true), PLENTY);
    RosterLoss.KnownOrRebuilt(cfg, s, PLENTY);
    LockedWhileLocked(cfg, s);
    StepKeeps(cfg, s, step);
  }

  lemma LockedWhileLocked(cfg: Config, s: System)
    requires Consistent(cfg, s)
    ensures var g := ReconstructRecovery(cfg, s, PLENTY);
            g.v.recovery.Some? ==> Relocked(g.v.recovery.value, true).stage == RecoveryLock
  {
    hide ReconstructRecovery;
  }

  lemma PrepareGoes(cfg: Config, s: System, a: RecoveryActivity, k: Checkpoint, presence: seq<Presence>)
    requires s.v.recovery == Some(a) && a.stage == RecoveryLock && Wanted(s, a) == Some(k)
    requires LoadAggregate(cfg, s.d).Some? && EvaluateFullRoster(LoadAggregate(cfg, s.d).value, presence) == Eligible
    requires Recoverable(cfg, k, |LoadAggregate(cfg, s.d).value.roster|)
    ensures PrepareRecoveryOp(cfg, s, presence, PLENTY).s == Recovering(s, StartLoading(a, k))
    ensures PrepareRecoveryOp(cfg, s, presence, PLENTY).dispatch == NativeLoad
  {
    hide LoadAggregate, EvaluateFullRoster, Recoverable, StartLoading, LoadCheckpoint, LoadLastCommitted,
      ReconstructRecovery;
    ReconstructKnown(cfg, s, PLENTY);
  }

  lemma WantedIsCommitted(cfg: Config, s: System, a: RecoveryActivity)
    requires Stands(cfg, s.d) && TracksRecovery(Past(cfg, s.d), a) && Past(cfg, s.d).lastCommitted.Some?
    ensures var id := Past(cfg, s.d).lastCommitted.value;
            Committed(cfg, s.d, id) && Wanted(s, a) == Some(s.d.checkpoints[id])
  {
    hide Replay, Stands;
    StandsAtRevision(cfg, s.d);
    CommittedStands(cfg, s.d, Past(cfg, s.d).lastCommitted.value);
  }

  /** A locked attempt with a committed checkpoint and everybody present starts loading. */
  lemma PrepareStep(cfg: Config, s: System, presence: seq<Presence>) returns (step: Step)
    requires Valid(cfg, s) && s.v.recovery.Some? && s.v.recovery.value.stage == RecoveryLock && Room(cfg, s.d)
    requires Past(cfg, s.d).lastCommitted.Some? && FullPresence(cfg, s.d.slots, presence)
    ensures step.DoPrepare? && PrepareRecoveryOp(cfg, s, step.presence, step.calls).dispatch == NativeLoad
    ensures Exec(cfg, s, step).d == s.d && Loading(cfg, Exec(cfg, s, step), 0)
  {
    hide Replay, Stands, Tracks, TracksRecovery, SlotsApart, Apart, LoadAggregate, EvaluateFullRoster, FullPresence,
      PrepareRecoveryOp, Wanted, ExactArtifact, Room, FirstSlots;
    var a := s.v.recovery.value;
    step := DoPrepare(presence, PLENTY);
    StandsAtRevision(cfg, s.d);
    RecoveringIsSealed(cfg, s);
    LoadIsCurrent(cfg, s.d);
    FullIsEligible(cfg, s.d, presence);
    WantedIsCommitted(cfg, s, a);
    var k := s.d.checkpoints[Past(cfg, s.d).lastCommitted.value];
    StoredRosterSize(cfg, s.d);
    PrepareGoes(cfg, s, a, k, presence);
    NoSlots(s.d.slots);
    StepKeeps(cfg, s, step);
  }

  lemma StoredRosterSize(cfg: Config, d: Durable)
    requires Stands(cfg, d)
    ensures |Current(Past(cfg, d)).roster| == |d.slots|
  {
    hide Replay;
  }

  lemma {:induction false} RunCons(cfg: Config, s: System, first: Step, rest: seq<Step>)
    ensures Run(cfg, s, [first] + rest) == Run(cfg, Exec(cfg, s, first), rest)
    decreases |rest|
  {
    hide Exec;
    var all := [first] + rest;
    if rest == [] {
      assert all[..0] == [] && Run(cfg, s, all[..0]) == s;
    } else {
      var n := |rest| - 1;
      assert all[..|all| - 1] == [first] + rest[..n];
      RunCons(cfg, s, first, rest[..n]);
    }
  }

  lemma ReportsCons(cfg: Config, slots: seq<SlotRecord>, n: nat, loads: bool, m: nat, id: Id, first: Step,
                    rest: seq<Step>)
    requires Reports(cfg, slots, n, loads, m, id, first) && ReportsFrom(cfg, slots, n + 1, loads, m, id, rest)
    ensures ReportsFrom(cfg, slots, n, loads, m, id, [first] + rest)
  {
    hide Reports;
    var all := [first] + rest;
    forall i | 0 <= i < |all| ensures Reports(cfg, slots, n + i, loads, m, id, all[i]) {
      assert i > 0 ==> all[i] == rest[i - 1] && Reports(cfg, slots, n + 1 + (i - 1), loads, m, id, rest[i - 1]);
    }
  }

  /** The last of some loads fires the first barrier. */
  ghost predicate LastRestores(cfg: Config, s: System, steps: seq<Step>) {
    && steps != []
    && var n := |steps| - 1;
       steps[n].DoRecordLoaded?
       && RecordLoadedOp(cfg, Run(cfg, s, steps[..n]), steps[n].loaded, steps[n].calls).dispatch == RestoredSnapshot
  }

  /** The last of some receipts completes the attempt, which the service knows to be open. */
  ghost predicate LastCompletes(cfg: Config, s: System, steps: seq<Step>) {
    && steps != []
    && var n := |steps| - 1;
       && steps[n].DoRecordApplied? && Run(cfg, s, steps[..n]).v.recovery.Some?
       && RecordAppliedOp(cfg, Run(cfg, s, steps[..n]), steps[n].applied, steps[n].calls).completed
  }

  lemma LastOfCons(cfg: Config, s: System, first: Step, rest: seq<Step>)
    ensures rest != [] ==>
              && (LastRestores(cfg, s, [first] + rest) <==> LastRestores(cfg, Exec(cfg, s, first), rest))
              && (LastCompletes(cfg, s, [first] + rest) <==> LastCompletes(cfg, Exec(cfg, s, first), rest))
    ensures Run(cfg, s, ([first] + rest)[..0]) == s
  {
    hide Exec, RecordLoadedOp, RecordAppliedOp;
    if rest != [] {
      var n := |rest| - 1;
      var all := [first] + rest;
      assert all[..n + 1] == [first] + rest[..n] && all[n + 1] == rest[n];
      RunCons(cfg, s, first, rest[..n]);
    }
  }

  lemma {:induction false} LoadAll(cfg: Config, s: System, n: nat, presence: seq<Presence>, m: nat, id: Id)
    returns (steps: seq<Step>)
    requires Loading(cfg, s, n) && n < |s.d.slots| && FullPresence(cfg, s.d.slots, presence) && Goes(cfg, s.d, m, id)
    ensures ReportsFrom(cfg, s.d.slots, n, true, m, id, steps) && LastRestores(cfg, s, steps)
    ensures var last := Run(cfg, s, steps);
            last.d.slots == s.d.slots && Applying(cfg, last, 0) && Goes(cfg, last.d, m, id)
    decreases |s.d.slots| - n
  {
    hide Loading, Applying, FullPresence, Exec, Goes, RecordLoadedOp;
    var first := LoadStep(cfg, s, n, presence, m, id);
    var next := Exec(cfg, s, first);
    var rest: seq<Step> := [];
    if n + 1 < |s.d.slots| {
      rest := LoadAll(cfg, next, n + 1, presence, m, id);
    }
    steps := [first] + rest;
    RunCons(cfg, s, first, rest);
    LastOfCons(cfg, s, first, rest);
    ReportsCons(cfg, s.d.slots, n, true, m, id, first, rest);
  }

  lemma {:induction false} ApplyAll(cfg: Config, s: System, n: nat, presence: seq<Presence>, m: nat, id: Id)
    returns (steps: seq<Step>)
    requires Applying(cfg, s, n) && n < |s.d.slots| && FullPresence(cfg, s.d.slots, presence) && Goes(cfg, s.d, m, id)
    ensures ReportsFrom(cfg, s.d.slots, n, false, m, id, steps) && LastCompletes(cfg, s, steps)
    ensures Run(cfg, s, steps).d.slots == s.d.slots && Idle(cfg, Run(cfg, s, steps))
    decreases |s.d.slots| - n
  {
    hide Applying, Idle, FullPresence, Exec, Goes, RecordAppliedOp;
    var first := ReceiptStep(cfg, s, n, presence, m, id);
    var next := Exec(cfg, s, first);
    var rest: seq<Step> := [];
    if n + 1 < |s.d.slots| {
      rest := ApplyAll(cfg, next, n + 1, presence, m, id);
    }
    steps := [first] + rest;
    RunCons(cfg, s, first, rest);
    LastOfCons(cfg, s, first, rest);
    ReportsCons(cfg, s.d.slots, n, false, m, id, first, rest);
  }

  lemma {:induction false} RunAppend(cfg: Config, s: System, a: seq<Step>, b: seq<Step>)
    ensures Run(cfg, s, a + b) == Run(cfg, Run(cfg, s, a), b)
    decreases |b|
  {
    hide Exec;
    if b == [] {
      assert a + b == a;
    } else {
      var n := |b| - 1;
      assert (a + b)[..|a + b| - 1] == a + b[..n];
      RunAppend(cfg, s, a, b[..n]);
    }
  }

  /** A way to complete the open attempt: a lock, a preparation, every member's load in
      slot order up to the restore, every member's receipt up to the completion. */
  ghost predicate Plan(cfg: Config, s: System, m: nat, id: Id, lock: Step, prepare: Step, loads: seq<Step>,
                       receipts: seq<Step>) {
    var locked := Exec(cfg, s, lock);
    var loading := Exec(cfg, locked, prepare);
    var applying := Run(cfg, loading, loads);
    && lock.DoBeginRecovery? && prepare.DoPrepare?
    && PrepareRecoveryOp(cfg, locked, prepare.presence, prepare.calls).dispatch == NativeLoad
    && Loading(cfg, loading, 0) && Goes(cfg, loading.d, m, id)
    && ReportsFrom(cfg, s.d.slots, 0, true, m, id, loads) && LastRestores(cfg, loading, loads)
    && Applying(cfg, applying, 0) && Goes(cfg, applying.d, m, id)
    && ReportsFrom(cfg, s.d.slots, 0, false, m, id, receipts) && LastCompletes(cfg, applying, receipts)
    && Idle(cfg, Run(cfg, applying, receipts))
  }

  lemma RunOfPlan(cfg: Config, s: System, lock: Step, prepare: Step, loads: seq<Step>, receipts: seq<Step>)
    ensures Run(cfg, s, [lock, prepare] + loads + receipts) ==
            Run(cfg, Run(cfg, Exec(cfg, Exec(cfg, s, lock), prepare), loads), receipts)
  {
    hide Exec, Run;
    RunCons(cfg, s, lock, [prepare]);
    RunCons(cfg, Exec(cfg, s, lock), prepare, []);
    NoSteps(cfg, Exec(cfg, Exec(cfg, s, lock), prepare));
    assert [lock] + [prepare] == [lock, prepare] && [prepare] + [] == [prepare];
    RunAppend(cfg, s, [lock, prepare], loads);
    RunAppend(cfg, s, [lock, prepare] + loads, receipts);
  }

  lemma AttemptHasPlan(cfg: Config, s: System, presence: seq<Presence>, m: nat, id: Id)
    returns (lock: Step, prepare: Step, loads: seq<Step>, receipts: seq<Step>)
    requires Valid(cfg, s) && Room(cfg, s.d) && Goes(cfg, s.d, m, id) && FullPresence(cfg, s.d.slots, presence)
    ensures Plan(cfg, s, m, id, lock, prepare, loads, receipts)
  {
    RosterNotEmpty(cfg, s.d, presence);
    assert Past(cfg, s.d).open.Some? && Past(cfg, s.d).lastCommitted.Some?;
    hide Loading, Applying, Idle, Exec, Run, Valid, Room, ReportsFrom, Replay, FullPresence, Goes, LastRestores,
      LastCompletes, PrepareRecoveryOp;
    lock := RelockStep(cfg, s, presence);
    prepare := PrepareStep(cfg, Exec(cfg, s, lock), presence);
    var loading := Exec(cfg, Exec(cfg, s, lock), prepare);
    loads := LoadAll(cfg, loading, 0, presence, m, id);
    receipts := ApplyAll(cfg, Run(cfg, loading, loads), 0, presence, m, id);
  }

  /** An open attempt can be completed from any state, reachable after whatever losses,
      restarts and failures: with a committed checkpoint, a revision left and everybody
      present, one lock, one preparation, one load report and one receipt of each member
      do it. */
  lemma RecoveryCanComplete(cfg: Config, s: System, presence: seq<Presence>)
    returns (lock: Step, prepare: Step, loads: seq<Step>, receipts: seq<Step>)
    requires Valid(cfg, s) && Room(cfg, s.d) && Past(cfg, s.d).lastCommitted.Some?
    requires EvaluateFullRoster(Current(Past(cfg, s.d)), presence) == Eligible
    ensures Plan(cfg, s, Past(cfg, s.d).open.value.entry, Past(cfg, s.d).lastCommitted.value, lock, prepare, loads,
                 receipts)
    ensures Idle(cfg, Run(cfg, s, [lock, prepare] + loads + receipts))
  {
    assert Past(cfg, s.d).open.Some?;
    var m, id := Past(cfg, s.d).open.value.entry, Past(cfg, s.d).lastCommitted.value;
    assert Goes(cfg, s.d, m, id);
    hide Run, EvaluateFullRoster, InStep, Room, SlotsApart, Replay, FullPresence, Goes, Plan, Idle;
    RecoveringIsSealed(cfg, s);
    ValidStandsHere(cfg, s);
    FullIsEligible(cfg, s.d, presence);
    lock, prepare, loads, receipts := AttemptHasPlan(cfg, s, presence, m, id);
    RunOfPlan(cfg, s, lock, prepare, loads, receipts);
    PlanEndsIdle(cfg, s, m, id, lock, prepare, loads, receipts);
  }

  lemma PlanEndsIdle(cfg: Config, s: System, m: nat, id: Id, lock: Step, prepare: Step, loads: seq<Step>,
                     receipts: seq<Step>)
    requires Plan(cfg, s, m, id, lock, prepare, loads, receipts)
    ensures Idle(cfg, Run(cfg, Run(cfg, Exec(cfg, Exec(cfg, s, lock), prepare), loads), receipts))
  {
    hide Exec, Run, Idle, Loading, Applying, Goes, ReportsFrom, LastRestores, LastCompletes, PrepareRecoveryOp;
  }

  lemma NoSteps(cfg: Config, s: System)
    ensures Run(cfg, s, []) == s
  {
  }

  lemma RosterNotEmpty(cfg: Config, d: Durable, presence: seq<Presence>)
    requires FullPresence(cfg, d.slots, presence)
    ensures d.slots != []
  {
  }

  lemma ValidStandsHere(cfg: Config, s: System)
    requires Valid(cfg, s)
    ensures Stands(cfg, s.d) && Replay(cfg, s.d.journal).Some?
  {
  }

  /*
   * When it is stuck
   */

  /** There is nothing to restore, or no revision left to restore it at. */
  predicate Stuck(h: History) {
    h.open.Some? && (h.lastCommitted.None? || (!h.open.value.restored && h.revision == MAX_REVISION))
  }

  lemma StuckStays(cfg: Config, h: History, r: Record)
    requires Stuck(h) && Next(cfg, h, r).Some?
    ensures Stuck(Next(cfg, h, r).value)
  {
    hide CoreBytes, IntentBytes, ImageOf, Apply, CheckpointSlots, SlotIds, Records;
  }

  lemma {:induction false} StuckInJournal(cfg: Config, journal: seq<Record>, n: nat)
    requires 0 < n <= |journal| && Replay(cfg, journal).Some?
    requires Replay(cfg, journal[..n]).Some? && Stuck(Replay(cfg, journal[..n]).value)
    ensures Stuck(Replay(cfg, journal).value)
    decreases |journal|
  {
    hide Next, Stuck, Created;
    if n == |journal| {
      assert journal[..n] == journal;
    } else {
      var front := journal[..|journal| - 1];
      assert front[..n] == journal[..n];
      StuckInJournal(cfg, front, n);
      StuckStays(cfg, Replay(cfg, front).value, journal[|journal| - 1]);
    }
  }

  /** A stuck attempt stays open over every run, and with it the campaign stays fenced. */
  lemma StuckForever(cfg: Config, s: System, steps: seq<Step>)
    requires Valid(cfg, s) && Stuck(Past(cfg, s.d))
    ensures Valid(cfg, Run(cfg, s, steps)) && Stuck(Past(cfg, Run(cfg, s, steps).d))
  {
    assert Past(cfg, s.d).open.Some?;
    hide Run, InStep, Replay, Stuck;
    RecoveringIsSealed(cfg, s);
    RunExtends(cfg, s, steps);
    RunKeepsValid(cfg, s, steps);
    var last := Run(cfg, s, steps);
    ValidStandsHere(cfg, s);
    ValidStandsHere(cfg, last);
    NeverEmpty(cfg, s.d.journal);
    assert last.d.journal[..|s.d.journal|] == s.d.journal;
    StuckInJournal(cfg, last.d.journal, |s.d.journal|);
  }

  /** After these steps no attempt is open any more. */
  ghost predicate Completes(cfg: Config, s: System, steps: seq<Step>) {
    var last := Run(cfg, s, steps);
    Valid(cfg, last) && Past(cfg, last.d).open.None?
  }

  /** With everybody present, an open attempt can be completed by some run exactly when
      a checkpoint was committed before it and it is restored or has a revision left. */
  lemma CanCompleteIff(cfg: Config, s: System, presence: seq<Presence>)
    requires Valid(cfg, s) && Past(cfg, s.d).open.Some?
    requires EvaluateFullRoster(Current(Past(cfg, s.d)), presence) == Eligible
    ensures (exists steps :: Completes(cfg, s, steps)) <==> Past(cfg, s.d).lastCommitted.Some? && Room(cfg, s.d)
  {
    hide Run, InStep, Replay, SlotsApart, EvaluateFullRoster, Plan;
    ValidStandsHere(cfg, s);
    StandsAtRevision(cfg, s.d);
    if Past(cfg, s.d).lastCommitted.Some? && Room(cfg, s.d) {
      var lock, prepare, loads, receipts := RecoveryCanComplete(cfg, s, presence);
      assert Completes(cfg, s, [lock, prepare] + loads + receipts);
    } else {
      forall steps ensures !Completes(cfg, s, steps) {
        StuckForever(cfg, s, steps);
      }
    }
  }
}
