/** What the service answers to its members' loads and receipts, in every state its runs
    reach. */
module BarrierAnswers {
  import opened Basics
  import opened CampaignState
  import opened FullRoster
  import CampaignCoreCodec
  import CheckpointTheorems
  import opened CampaignStore
  import opened CampaignHistory
  import opened RuntimeModel
  import opened RuntimeInvariants
  import opened RecoveryRebuild
  import opened RuntimeSafety
  import opened RecoverySafety
  import opened RuntimeRuns
  import opened RecoveryProgress
  import opened EditAnswers
  import opened CheckpointAnswers
  import JournalGrammar
  import RecoveryComposition
  import RecoveryRelease
  import opened RecoveryAnswers

  /*
   * Loads
   */

  /** The report is about the attempt and its checkpoint, and is the campaign's. */
  predicate Meant(cfg: Config, a: RecoveryActivity, attempt: nat, checkpoint: Id, m: Member) {
    a.attempt == attempt && a.checkpoint == Some(checkpoint) && m.campaign == cfg.campaign
  }

  /** The proof is the one the member's save was committed with. */
  predicate Known(h: History, checkpoint: Id, m: Member, proof: Artifact) {
    && checkpoint in h.saved && m.slot in h.saved[checkpoint].artifacts
    && h.saved[checkpoint].artifacts[m.slot] == proof
  }

  lemma LoadedGate(cfg: Config, s: System, c: LoadedReport, calls: nat)
    requires var g := ReconstructRecovery(cfg, s, calls);
             && g.failure.None? && g.left >= 3 && g.v.recovery.Some? && g.v == Volatile(None, g.v.recovery)
             && (g.v.recovery.value.checkpoint.Some? ==> g.v.recovery.value.checkpoint.value in s.d.checkpoints)
    requires LoadAggregate(cfg, s.d).Some?
    ensures var g := ReconstructRecovery(cfg, s, calls);
            var now := LoadAggregate(cfg, s.d).value;
            var a := g.v.recovery.value;
            RecordLoadedOp(cfg, s, c, calls) ==
            if !Meant(cfg, a, c.attempt, c.checkpoint, c.actor) then Turned(With(s, a), RecoveryMismatch, 0)
            else if EvaluateFullRoster(now, c.presence) != Eligible then
              Turned(With(s, a), RosterIncomplete, now.version)
            else CheckLoad(cfg, With(s, a), a, now.version, s.d.checkpoints[c.checkpoint], c, g.left - 3)
  {
    hide ReconstructRecovery, LoadAggregate, EvaluateFullRoster, CheckLoad;
  }

  lemma CheckedLoad(cfg: Config, s: System, a: RecoveryActivity, version: nat, k: Checkpoint, c: LoadedReport,
                    calls: nat)
    requires s == With(s, a)
    ensures var i := MemberSlotIndex(k.slots, c.actor);
            CheckLoad(cfg, s, a, version, k, c, calls) ==
            if i >= |k.slots| then Turned(s, NotCampaignMember, 0)
            else if !c.succeeded
                 then Turned(With(s, a.(reason := ClientLoadFailed)), InvalidCheckpointArtifact, version)
            else if !ProofMatches(cfg, k.slots[i], c.proof) then Turned(s, InvalidCheckpointArtifact, version)
            else if a.stage == RecoveryLock then Turned(s, RecoveryMismatch, version)
            else AcknowledgeLoad(cfg, s, a, version, k, k.slots[i], calls)
  {
    hide MemberSlotIndex, ProofMatches, AcknowledgeLoad;
    SlotIndexInRange(k.slots, c.actor);
  }

  lemma CommittedProof(cfg: Config, d: Durable, id: Id, i: nat, m: Member, proof: Artifact)
    requires Stands(cfg, d) && Committed(cfg, d, id) && Past(cfg, d).lastCommitted == Some(id)
    requires i < |d.checkpoints[id].slots| && d.checkpoints[id].slots[i].Record() == m.Record()
    ensures ProofMatches(cfg, d.checkpoints[id].slots[i], proof) <==> Known(Past(cfg, d), id, m, proof)
  {
    hide Replay, ExactProof, SlotRecords, SlotsDistinct;
    var h := Past(cfg, d);
    assert id in h.saved by {
      SourceOfCommitted(cfg, d);
    }
    assert d.checkpoints[id] == CheckpointOf(id, h.saved[id]);
    assert d.checkpoints[id].slots[i] == ProvenSlot(h.saved[id].campaign.roster[i], h.saved[id]);
  }

  /** The member's report passes every check against the attempt as it is known. */
  ghost predicate LoadPasses(cfg: Config, s: System, a: RecoveryActivity, c: LoadedReport)
    requires Replay(cfg, s.d.journal).Some?
  {
    && Meant(cfg, a, c.attempt, c.checkpoint, c.actor) && FullPresence(cfg, s.d.slots, c.presence)
    && c.actor.Record() in s.d.slots && c.succeeded && Known(Past(cfg, s.d), c.checkpoint, c.actor, c.proof)
    && a.stage != RecoveryLock
  }

  /** Every other report about a load, and why it is refused. A failed load is noted. */
  lemma LoadRefused(cfg: Config, s: System, c: LoadedReport, calls: nat)
    requires Valid(cfg, s) && calls >= 5
    ensures var r := RecordLoadedOp(cfg, s, c, calls);
            if Past(cfg, s.d).open.None? then r == Turned(s, RecoveryNotActive, 0)
            else
              && Looked(cfg, s).recovery.Some?
              && var a := Looked(cfg, s).recovery.value;
                 !LoadPasses(cfg, s, a, c) ==>
                   r == if !Meant(cfg, a, c.attempt, c.checkpoint, c.actor) then Turned(With(s, a), RecoveryMismatch, 0)
                        else if !FullPresence(cfg, s.d.slots, c.presence) then
                          Turned(With(s, a), RosterIncomplete, s.d.revision)
                        else if c.actor.Record() !in s.d.slots then Turned(With(s, a), NotCampaignMember, 0)
                        else if !c.succeeded then
                          Turned(With(s, a.(reason := ClientLoadFailed)), InvalidCheckpointArtifact, s.d.revision)
                        else if !Known(Past(cfg, s.d), c.checkpoint, c.actor, c.proof) then
                          Turned(With(s, a), InvalidCheckpointArtifact, s.d.revision)
                        else Turned(With(s, a), RecoveryMismatch, s.d.revision)
  {
    hide ReconstructRecovery, Replay, InStep, SlotsApart, Looked, LoadAggregate, EvaluateFullRoster, FullPresence,
      RecordLoadedOp, CheckLoad, TracksRecovery, Known, ProofMatches, MemberSlotIndex, AcknowledgeLoad, ExactArtifact,
      Stands, SlotsDistinct, SlotRecords, Apart;
    ServiceStands(cfg, s);
    LooksAlways(cfg, s, calls);
    if Past(cfg, s.d).open.None? {
      LooksIdle(cfg, s, calls);
      NoRecoveryNorCheckpoint(cfg, s, calls);
    } else {
      GatheredIff(cfg, s, c.presence);
      LookedTracks(cfg, s);
      var a := Looked(cfg, s).recovery.value;
      if a.checkpoint.Some? {
        ChoiceStands(cfg, s.d, a, c.actor);
      }
      LoadedGate(cfg, s, c, calls);
      if Meant(cfg, a, c.attempt, c.checkpoint, c.actor) && FullPresence(cfg, s.d.slots, c.presence) {
        var k := s.d.checkpoints[c.checkpoint];
        var i := MemberSlotIndex(k.slots, c.actor);
        CheckedLoad(cfg, With(s, a), a, s.d.revision, k, c, ReconstructRecovery(cfg, s, calls).left - 3);
        if i < |k.slots| {
          IndexedRecord(k.slots, c.actor);
          CommittedProof(cfg, s.d, c.checkpoint, i, c.actor, c.proof);
        }
      }
    }
  }

  lemma IndexedRecord(slots: seq<CheckpointSlot>, m: Member)
    ensures MemberSlotIndex(slots, m) < |slots| ==> slots[MemberSlotIndex(slots, m)].Record() == m.Record()
  {
  }

  /** The checkpoint an attempt works with is the committed one, and lists the roster. */
  lemma ChoiceStands(cfg: Config, d: Durable, a: RecoveryActivity, m: Member)
    requires Stands(cfg, d) && TracksRecovery(Past(cfg, d), a) && a.checkpoint.Some?
    ensures var id := a.checkpoint.value;
            && Committed(cfg, d, id) && Past(cfg, d).lastCommitted == Some(id) && id in d.checkpoints
            && |d.checkpoints[id].slots| == |d.slots|
            && (MemberSlotIndex(d.checkpoints[id].slots, m) < |d.checkpoints[id].slots| <==> m.Record() in d.slots)
  {
    hide Replay, Stands, SlotsDistinct, SlotRecords, ExactArtifact, MemberSlotIndex;
    TrackedChoice(cfg, d, a);
    AttemptGoes(cfg, d, a);
    ListedOnce(cfg, d.checkpoints[a.checkpoint.value].slots, d.slots, m);
  }

  /** The history once a member's load is acknowledged. */
  function WithLoad(h: History, slot: Id): History
    requires h.open.Some?
  {
    h.(open := Some(h.open.value.(loaded := h.open.value.loaded + {slot})))
  }

  lemma LoadWrites(cfg: Config, s: System, a: RecoveryActivity, n: nat)
    requires Consistent(cfg, s) && s.v == Volatile(None, Some(a)) && a.checkpoint.Some? && a.stage == LoadingNativeSaves
    requires n < |s.d.slots|
    ensures Committed(cfg, s.d, a.checkpoint.value) && Past(cfg, s.d).open.Some?
    ensures var k := s.d.checkpoints[a.checkpoint.value];
            var x := k.slots[n];
            var w := LoadWritten(cfg, s, a, k, x);
            var a1 := a.(durableLoaded := a.durableLoaded + {x.slot}, loaded := a.loaded + {x.slot});
            && FromWritten(w) == Reply(NoError, Stored, s.d.revision, false, false)
            && Stands(cfg, w.d) && TracksRecovery(Past(cfg, w.d), a1)
            && Past(cfg, w.d) == WithLoad(Past(cfg, s.d), x.slot)
            && a.checkpoint.value in w.d.checkpoints && w.d.checkpoints[a.checkpoint.value] == k
  {
    hide Replay, Stands, ApplyMutation, TracksRecovery, Apart, CheckpointSlots, ExactArtifact, SlotRecords;
    StandsAtRevision(cfg, s.d);
    TrackedChoice(cfg, s.d, a);
    AttemptCheckpoint(cfg, s.d, a);
    var h := Past(cfg, s.d);
    var k := s.d.checkpoints[a.checkpoint.value];
    var x := k.slots[n];
    if x.slot !in a.durableLoaded {
      LoadAckStands(cfg, s.d, a, n);
      SlotInRoster(cfg, s.d, a, n);
      LoadAckIsFresh(cfg, s.d, a, x.slot);
      NoOpWrites(s.d, AckRequest(cfg, s.d.revision, LoadAck(a.attempt), k.id, x));
    }
    var w := LoadWritten(cfg, s, a, k, x);
    DurableSlot(h, a, x.slot);
    StandsAtRevision(cfg, w.d);
    LoadedTracks(h, Past(cfg, w.d), a, x.slot);
    SameCheckpoint(cfg, s.d, w.d, a);
  }

  lemma SlotInRoster(cfg: Config, d: Durable, a: RecoveryActivity, n: nat)
    requires Stands(cfg, d) && TracksRecovery(Past(cfg, d), a) && a.checkpoint.Some?
    requires a.checkpoint.value in d.checkpoints && n < |d.checkpoints[a.checkpoint.value].slots|
    ensures d.checkpoints[a.checkpoint.value].slots[n].slot in SlotIds(Past(cfg, d).campaign)
  {
    hide Replay, CheckpointSlots;
    ReplayIsSound(cfg, d.journal);
    AttemptCheckpoint(cfg, d, a);
    SlotsOfAttempt(cfg, Past(cfg, d), a, n);
  }

  /** The attempt once its snapshot is restored. */
  function ApplyingOf(a: RecoveryActivity): RecoveryActivity {
    a.(stage := ApplyingSnapshot, reason := NoReason, restore := Some(a.attempt + 1), applied := {})
  }

  /** The history once the checkpoint is restored. */
  function Restored(h: History, id: Id): History
    requires h.open.Some? && id in h.saved && h.revision < MAX_REVISION
  {
    h.(revision := h.revision + 1,
       campaign := h.saved[id].campaign.(version := h.revision + 1),
       open := Some(h.open.value.(restored := true)))
  }

  /** The first barrier fires: the restore is found again, or written if a revision is
      left, and the snapshot is sent. */
  ghost predicate Fires(cfg: Config, s: System, a: RecoveryActivity, id: Id, replayed: Reply, r: RecoveryResult)
    requires Replay(cfg, s.d.journal).Some?
  {
    var h := Past(cfg, s.d);
    && h.open.Some? && id in h.saved
    && if h.open.value.restored then
         r == RecoveryResult(With(s, ApplyingOf(a)), replayed.(version := a.attempt + 1, replay := true),
                             RestoredSnapshot, true, false)
       else if s.d.revision == MAX_REVISION then r == Unwritten(s)
       else
         && h.revision < MAX_REVISION
         && r == RecoveryResult(r.s, Reply(NoError, Stored, a.attempt + 1, true, false), RestoredSnapshot, true, false)
         && r.s.v == Volatile(None, Some(ApplyingOf(a))) && Stands(cfg, r.s.d)
         && Past(cfg, r.s.d) == Restored(h, id)
  }

  /** The checkpoint's core state decodes to the campaign it captured. */
  lemma CoreDecodes(cfg: Config, d: Durable, id: Id)
    requires Stands(cfg, d) && Past(cfg, d).lastCommitted == Some(id)
    ensures id in d.checkpoints && id in Past(cfg, d).saved
    ensures var k := d.checkpoints[id];
            DecodeCanonical(cfg, SlotRecords(k.slots), true, k.core, d.journal, k.source,
                            HistoricalRevision(d.journal, k.source)) == Some(Past(cfg, d).saved[id].campaign)
  {
    hide Replay, CampaignCoreCodec.CoreBytes, CampaignCoreCodec.ImageOf, DecodeAncestor, DecodeAt, HistoricalRevision,
      SlotRecords, CheckpointSlots, SoundCampaign;
    SourceOfCommitted(cfg, d);
    CheckpointTheorems.SavedDecodes(cfg, d, id);
  }

  lemma EncodesAgain(cfg: Config, h: History, id: Id)
    requires Sound(cfg, h) && id in h.saved && ValidIdentity(cfg.campaign)
    ensures CampaignCoreCodec.EncodeCore(h.saved[id].campaign.(version := h.revision + 1)).Some?
  {
    hide CampaignCoreCodec.EncodeCore, Inv;
    assert SoundSaved(cfg, h, id, h.saved[id]);
    InvIgnoresVersion(h.saved[id].campaign, h.revision + 1);
    EditAnswers.InvEncodes(cfg, h.saved[id].campaign.(version := h.revision + 1));
  }

  lemma CoreAnyway(cfg: Config, d: Durable, a: RecoveryActivity)
    requires Stands(cfg, d) && TracksRecovery(Past(cfg, d), a) && a.checkpoint.Some?
             && a.checkpoint.value in d.checkpoints
    ensures RestoredCore(cfg, d, d.checkpoints[a.checkpoint.value]).0 == Stored
  {
    hide Replay, CampaignCoreCodec.EncodeCore, DecodeCanonical, Stands, Sound, HistoricalRevision, SlotRecords;
    StandsAtRevision(cfg, d);
    ReplayIsSound(cfg, d.journal);
    AttemptGoes(cfg, d, a);
    EditAnswers.SealedHere(cfg, d);
    CoreDecodes(cfg, d, a.checkpoint.value);
    EncodesAgain(cfg, Past(cfg, d), a.checkpoint.value);
  }

  lemma NoRevisionToRestore(d: Durable, q: Request, id: Id)
    requires q.content.RestoredState? && q.expected == d.revision == MAX_REVISION
    requires JournalIndex(d.journal, q.mutation) == |d.journal|
    ensures RestoreSnapshot(d, q, id) == Failed(d, InvalidArgument)
  {
    hide JournalIndex;
  }

  lemma RestoreReply(d: Durable, q: Request, id: Id)
    requires q.content.RestoredState? && JournalIndex(d.journal, q.mutation) == |d.journal|
    requires RestoreSnapshot(d, q, id).error == Stored
    ensures FromWritten(RestoreSnapshot(d, q, id)) == Reply(NoError, Stored, d.revision + 1, true, false)
  {
    hide JournalIndex;
  }

  lemma RestoreIsFound(cfg: Config, s: System, a: RecoveryActivity, c: Checkpoint, reply: Reply, calls: nat)
    requires s.v == Volatile(None, Some(a)) && calls >= 1
    requires var i := JournalIndex(s.d.journal, RestoreOf(a.attempt));
             && i < |s.d.journal| && s.d.journal[i].payload.RestoreCheckpoint?
             && s.d.journal[i].resulting == a.attempt + 1
             && s.d.journal[i].restoredFrom == Some(RestoredFrom(c.id, c.source))
    ensures FireRestore(cfg, s, a, c, reply, calls) ==
            RecoveryResult(With(s, ApplyingOf(a)), reply.(version := a.attempt + 1, replay := true), RestoredSnapshot,
                           true, false)
  {
    hide RestoredCore, RestoreSnapshot, JournalIndex;
  }

  lemma RestoreIsTried(cfg: Config, s: System, a: RecoveryActivity, c: Checkpoint, reply: Reply, calls: nat)
    requires s.v == Volatile(None, Some(a)) && calls >= 3 && RestoredCore(cfg, s.d, c).0 == Stored
    requires JournalIndex(s.d.journal, RestoreOf(a.attempt)) == |s.d.journal|
    ensures var q := RestoreRequest(s.d.revision, a.attempt, c.id, RestoredCore(cfg, s.d, c).1);
            var w := RestoreSnapshot(s.d, q, c.id);
            FireRestore(cfg, s, a, c, reply, calls) ==
            if w.error != Stored then
              RecoveryResult(s, StoreFailure(w.error), NoDispatch, false, false)
            else RecoveryResult(System(w.d, Volatile(None, Some(ApplyingOf(a).(restore := Some(w.revision))))),
                                FromWritten(w), RestoredSnapshot, true, false)
  {
    hide RestoredCore, RestoreSnapshot, JournalIndex;
  }

  lemma RestoreGoes(cfg: Config, s: System, a: RecoveryActivity)
    requires InStep(cfg, s) && s.v == Volatile(None, Some(a)) && a.checkpoint.Some? && a.stage == LoadingNativeSaves
    requires a.checkpoint.value in s.d.checkpoints && a.loaded == SlotIds(Past(cfg, s.d).campaign)
    requires JournalIndex(s.d.journal, RestoreOf(a.attempt)) == |s.d.journal| && s.d.revision < MAX_REVISION
    requires Past(cfg, s.d).open.Some? && !Past(cfg, s.d).open.value.restored
    ensures var k := s.d.checkpoints[a.checkpoint.value];
            var q := RestoreRequest(s.d.revision, a.attempt, k.id, RestoredCore(cfg, s.d, k).1);
            var w := RestoreSnapshot(s.d, q, k.id);
            && RestoredCore(cfg, s.d, k).0 == Stored && k.id == a.checkpoint.value && k.id in Past(cfg, s.d).saved
            && FromWritten(w) == Reply(NoError, Stored, a.attempt + 1, true, false) && w.revision == a.attempt + 1
            && Past(cfg, s.d).revision < MAX_REVISION
            && Stands(cfg, w.d) && Past(cfg, w.d) == Restored(Past(cfg, s.d), k.id)
  {
    hide Replay, Stands, RestoredCore, RestoreSnapshot, TracksRecovery, ExactArtifact, JournalIndex, SlotIds,
      SlotRecords, SlotsDistinct, CampaignCoreCodec.CoreBytes, SoundSaved, SoundCampaign, CheckpointSlots;
    StandsAtRevision(cfg, s.d);
    TrackedChoice(cfg, s.d, a);
    AttemptCheckpoint(cfg, s.d, a);
    CoreAnyway(cfg, s.d, a);
    var k := s.d.checkpoints[a.checkpoint.value];
    var core := RestoredCore(cfg, s.d, k);
    var q := RestoreRequest(s.d.revision, a.attempt, k.id, core.1);
    RestoreWrites(s.d, q, k.id);
    RestoreStands(cfg, s.d, a, core.1);
    RestoreReply(s.d, q, k.id);
  }

  lemma BarrierFires(cfg: Config, s: System, a: RecoveryActivity, reply: Reply, calls: nat)
    requires InStep(cfg, s) && s.v == Volatile(None, Some(a)) && a.checkpoint.Some? && a.stage == LoadingNativeSaves
    requires a.checkpoint.value in s.d.checkpoints && a.loaded == SlotIds(Past(cfg, s.d).campaign) && calls >= 3
    ensures Fires(cfg, s, a, a.checkpoint.value, reply,
                  FireRestore(cfg, s, a, s.d.checkpoints[a.checkpoint.value], reply, calls))
  {
    hide Replay, Stands, RestoredCore, RestoreSnapshot, TracksRecovery, ExactArtifact, JournalIndex, SlotIds,
      SlotRecords, SlotsDistinct, FireRestore;
    StandsAtRevision(cfg, s.d);
    RestoreFound(cfg, s.d, a);
    AttemptCheckpointId(cfg, s.d, a);
    ChoiceIsSaved(cfg, s.d, a);
    IndexIsBounded(s.d.journal, RestoreOf(a.attempt));
    var k := s.d.checkpoints[a.checkpoint.value];
    if Past(cfg, s.d).open.value.restored {
      RestoreIsFound(cfg, s, a, k, reply, calls);
    } else {
      CoreAnyway(cfg, s.d, a);
      RestoreIsTried(cfg, s, a, k, reply, calls);
      if s.d.revision == MAX_REVISION {
        NoRevisionToRestore(s.d, RestoreRequest(s.d.revision, a.attempt, k.id, RestoredCore(cfg, s.d, k).1), k.id);
      } else {
        RestoreGoes(cfg, s, a);
      }
    }
  }

  lemma ChoiceIsSaved(cfg: Config, d: Durable, a: RecoveryActivity)
    requires Stands(cfg, d) && TracksRecovery(Past(cfg, d), a) && a.checkpoint.Some?
    ensures a.checkpoint.value in Past(cfg, d).saved
  {
    hide Replay;
  }

  lemma LoadPassesOn(cfg: Config, s: System, a: RecoveryActivity, c: LoadedReport, calls: nat) returns (n: nat)
    requires Valid(cfg, s) && s.v.recovery == Some(a) && LoadPasses(cfg, s, a, c) && calls >= 3
    ensures Consistent(cfg, s) && s.v == Volatile(None, Some(a)) && TracksRecovery(Past(cfg, s.d), a)
    ensures Committed(cfg, s.d, c.checkpoint) && a.checkpoint == Some(c.checkpoint) && n < |s.d.slots|
    ensures c.checkpoint in s.d.checkpoints
    ensures var k := s.d.checkpoints[c.checkpoint];
            && k.id == c.checkpoint && n < |k.slots| && k.slots[n].slot == c.actor.slot
            && RecordLoadedOp(cfg, s, c, calls) ==
               AcknowledgeLoad(cfg, s, a, s.d.revision, k, k.slots[n], calls - 3)
  {
    hide ReconstructRecovery, Replay, InStep, SlotsApart, LoadAggregate, EvaluateFullRoster, FullPresence,
      RecordLoadedOp, CheckLoad, TracksRecovery, Known, ProofMatches, MemberSlotIndex, AcknowledgeLoad, ExactArtifact,
      Stands, SlotsDistinct, SlotRecords, Apart, Looked;
    ServiceStands(cfg, s);
    LooksKnown(cfg, s, calls);
    LookedTracks(cfg, s);
    GatheredIff(cfg, s, c.presence);
    assert With(s, a) == s;
    assert s.(v := s.v) == s;
    ChoiceStands(cfg, s.d, a, c.actor);
    LoadedGate(cfg, s, c, calls);
    var k := s.d.checkpoints[c.checkpoint];
    n := MemberSlotIndex(k.slots, c.actor);
    IndexedRecord(k.slots, c.actor);
    CommittedProof(cfg, s.d, c.checkpoint, n, c.actor, c.proof);
    CheckedLoad(cfg, s, a, s.d.revision, k, c, calls - 3);
  }

  /** The attempt with one member more in its first barrier. */
  function CountsLoad(a: RecoveryActivity, slot: Id): RecoveryActivity {
    a.(durableLoaded := a.durableLoaded + {slot}, loaded := a.loaded + {slot})
  }

  lemma LoadIsAcknowledged(cfg: Config, s: System, a: RecoveryActivity, n: nat, calls: nat)
    requires Consistent(cfg, s) && s.v == Volatile(None, Some(a)) && a.checkpoint.Some? && a.stage == LoadingNativeSaves
    requires n < |s.d.slots| && calls >= 4
    ensures Committed(cfg, s.d, a.checkpoint.value) && Past(cfg, s.d).open.Some?
    ensures var h := Past(cfg, s.d);
            var k := s.d.checkpoints[a.checkpoint.value];
            var slot := k.slots[n].slot;
            var d := LoadWritten(cfg, s, a, k, k.slots[n]).d;
            var replied := Reply(NoError, Stored, s.d.revision, false, slot in a.durableLoaded);
            var r := AcknowledgeLoad(cfg, s, a, s.d.revision, k, k.slots[n], calls);
            && Stands(cfg, d) && Past(cfg, d) == WithLoad(h, slot) && (slot in a.durableLoaded ==> d == s.d)
            && if a.loaded + {slot} == SlotIds(h.campaign)
               then Fires(cfg, With(s.(d := d), CountsLoad(a, slot)), CountsLoad(a, slot), a.checkpoint.value,
                          replied, r)
               else r == RecoveryResult(With(s.(d := d), CountsLoad(a, slot)), replied, NoDispatch, false, false)
  {
    hide Replay, Stands, ApplyMutation, TracksRecovery, FireRestore, Apart, ExactArtifact, SlotRecords, SlotIds,
      CheckpointSlots, SlotsDistinct, Fires;
    StandsAtRevision(cfg, s.d);
    LoadWrites(cfg, s, a, n);
    var k := s.d.checkpoints[a.checkpoint.value];
    var x := k.slots[n];
    var w := LoadWritten(cfg, s, a, k, x);
    var a1 := CountsLoad(a, x.slot);
    StandsAtRevision(cfg, w.d);
    LoadedIsDurable(Past(cfg, s.d), a);
    LoadBarrier(cfg, w.d, a1);
    var s1 := With(s.(d := w.d), a1);
    if |a1.loaded| == |k.slots| {
      BarrierFires(cfg, s1, a1, Reply(NoError, Stored, s.d.revision, false, x.slot in a.durableLoaded),
                   if x.slot in a.durableLoaded then calls else calls - 1);
    }
  }

  lemma LoadedIsDurable(h: History, a: RecoveryActivity)
    requires TracksRecovery(h, a)
    ensures a.loaded <= a.durableLoaded && a.applied <= a.durableApplied
  {
  }

  /** While loads are collected, a report that passes counts, once; the one that completes
      the roster fires the first barrier. */
  lemma LoadAnswer(cfg: Config, s: System, a: RecoveryActivity, c: LoadedReport, calls: nat)
    requires Valid(cfg, s) && s.v.recovery == Some(a) && LoadPasses(cfg, s, a, c)
    requires a.stage == LoadingNativeSaves && calls >= 7
    ensures var h := Past(cfg, s.d);
            var slot := c.actor.slot;
            var replied := Reply(NoError, Stored, s.d.revision, false, slot in a.durableLoaded);
            var r := RecordLoadedOp(cfg, s, c, calls);
            && h.open.Some?
            && exists d :: && Stands(cfg, d) && Past(cfg, d) == WithLoad(h, slot)
                           && (slot in a.durableLoaded ==> d == s.d)
                           && if a.loaded + {slot} == SlotIds(h.campaign)
                              then Fires(cfg, With(s.(d := d), CountsLoad(a, slot)), CountsLoad(a, slot), c.checkpoint,
                                         replied, r)
                              else r == RecoveryResult(With(s.(d := d), CountsLoad(a, slot)), replied, NoDispatch,
                                                       false,
                                                       false)
  {
    hide Replay, InStep, SlotsApart, TracksRecovery, AcknowledgeLoad, RecordLoadedOp, Committed, SlotIds, LoadPasses,
      Fires, ApplyMutation, LoadWritten, Stands, Consistent;
    var n := LoadPassesOn(cfg, s, a, c, calls);
    LoadIsAcknowledged(cfg, s, a, n, calls - 3);
    var k := s.d.checkpoints[c.checkpoint];
    var d := LoadWritten(cfg, s, a, k, k.slots[n]).d;
    assert Stands(cfg, d);
  }

  lemma LateLoad(cfg: Config, s: System, a: RecoveryActivity, version: nat, k: Checkpoint, x: CheckpointSlot,
                 calls: nat)
    requires s.v == Volatile(None, Some(a)) && a.stage == ApplyingSnapshot && x.slot in a.durableLoaded
    ensures AcknowledgeLoad(cfg, s, a, version, k, x, calls) ==
            RecoveryResult(s, Reply(NoError, Stored, version, false, true), RestoredSnapshot, true, false)
  {
    assert a.durableLoaded + {x.slot} == a.durableLoaded;
    assert a.(durableLoaded := a.durableLoaded) == a;
  }

  /** A load reported again after the restore changes nothing and has the restored
      snapshot sent again. */
  lemma LateLoadAnswer(cfg: Config, s: System, a: RecoveryActivity, c: LoadedReport, calls: nat)
    requires Valid(cfg, s) && s.v.recovery == Some(a) && LoadPasses(cfg, s, a, c)
    requires a.stage == ApplyingSnapshot && calls >= 3
    ensures RecordLoadedOp(cfg, s, c, calls) ==
            RecoveryResult(s, Reply(NoError, Stored, s.d.revision, false, true), RestoredSnapshot, true, false)
  {
    hide Replay, InStep, SlotsApart, TracksRecovery, AcknowledgeLoad, RecordLoadedOp, SlotIds, LoadPasses, Stands,
      ExactArtifact, SlotRecords, SlotsDistinct, Apart, LoadAggregate;
    ServiceStands(cfg, s);
    var n := LoadPassesOn(cfg, s, a, c, calls);
    ApplyingHasRestore(cfg, s.d, a);
    SlotInRoster(cfg, s.d, a, n);
    var k := s.d.checkpoints[c.checkpoint];
    LateLoad(cfg, s, a, s.d.revision, k, k.slots[n], calls - 3);
  }

  /*
   * Receipts
   */

  lemma ReceiptGate(cfg: Config, s: System, c: AppliedReport, calls: nat)
    requires var g := ReconstructRecovery(cfg, s, calls);
             && g.failure.None? && g.left >= 3 && g.v.recovery.Some? && g.v == Volatile(None, g.v.recovery)
             && (g.v.recovery.value.checkpoint.Some? ==> g.v.recovery.value.checkpoint.value in s.d.checkpoints)
    requires LoadAggregate(cfg, s.d).Some?
    ensures var g := ReconstructRecovery(cfg, s, calls);
            var now := LoadAggregate(cfg, s.d).value;
            var a := g.v.recovery.value;
            RecordAppliedOp(cfg, s, c, calls) ==
            if a.stage != ApplyingSnapshot || !Meant(cfg, a, c.attempt, c.checkpoint, c.actor)
               || a.restore != Some(c.restore)
            then Turned(With(s, a), RecoveryMismatch, 0)
            else if EvaluateFullRoster(now, c.presence) != Eligible then
              Turned(With(s, a), RosterIncomplete, now.version)
            else
              var k := s.d.checkpoints[c.checkpoint];
              var i := MemberSlotIndex(k.slots, c.actor);
              if i >= |k.slots| then Turned(With(s, a), NotCampaignMember, 0)
              else AcknowledgeSnapshot(cfg, With(s, a), a, now.version, k, k.slots[i], c, g.left - 3)
  {
    hide ReconstructRecovery, LoadAggregate, EvaluateFullRoster, AcknowledgeSnapshot, MemberSlotIndex;
    if c.checkpoint in s.d.checkpoints {
      SlotIndexInRange(s.d.checkpoints[c.checkpoint].slots, c.actor);
    }
  }

  /** The member's receipt is for the snapshot that is being applied. */
  predicate ReceiptMeant(cfg: Config, a: RecoveryActivity, c: AppliedReport) {
    a.stage == ApplyingSnapshot && Meant(cfg, a, c.attempt, c.checkpoint, c.actor) && c.restore == a.attempt + 1
  }

  ghost predicate ReceiptPasses(cfg: Config, s: System, a: RecoveryActivity, c: AppliedReport) {
    ReceiptMeant(cfg, a, c) && FullPresence(cfg, s.d.slots, c.presence) && c.actor.Record() in s.d.slots
  }

  /** Every other receipt while an attempt is open, and why it is refused. */
  lemma ReceiptRefused(cfg: Config, s: System, c: AppliedReport, calls: nat)
    requires Valid(cfg, s) && Past(cfg, s.d).open.Some? && calls >= 5
    ensures Looked(cfg, s).recovery.Some?
    ensures var a := Looked(cfg, s).recovery.value;
            !ReceiptPasses(cfg, s, a, c) ==>
              RecordAppliedOp(cfg, s, c, calls) ==
              if !ReceiptMeant(cfg, a, c) then Turned(With(s, a), RecoveryMismatch, 0)
              else if !FullPresence(cfg, s.d.slots, c.presence) then
                Turned(With(s, a), RosterIncomplete, s.d.revision)
              else Turned(With(s, a), NotCampaignMember, 0)
  {
    hide ReconstructRecovery, Replay, InStep, SlotsApart, Looked, LoadAggregate, EvaluateFullRoster, FullPresence,
      RecordAppliedOp, TracksRecovery, MemberSlotIndex, AcknowledgeSnapshot, ExactArtifact, Stands, SlotsDistinct,
      SlotRecords, Apart;
    ServiceStands(cfg, s);
    LooksAlways(cfg, s, calls);
    GatheredIff(cfg, s, c.presence);
    LookedTracks(cfg, s);
    var a := Looked(cfg, s).recovery.value;
    if a.checkpoint.Some? {
      ChoiceStands(cfg, s.d, a, c.actor);
    }
    if a.stage == ApplyingSnapshot {
      ApplyingHasRestore(cfg, s.d, a);
    }
    ReceiptGate(cfg, s, c, calls);
  }

  lemma ReceiptPassesOn(cfg: Config, s: System, a: RecoveryActivity, c: AppliedReport, calls: nat) returns (n: nat)
    requires Valid(cfg, s) && s.v.recovery == Some(a) && ReceiptPasses(cfg, s, a, c) && calls >= 3
    ensures Consistent(cfg, s) && s.v == Volatile(None, Some(a)) && TracksRecovery(Past(cfg, s.d), a)
    ensures Committed(cfg, s.d, c.checkpoint) && n < |s.d.slots| && a.restore == Some(c.restore)
    ensures c.restore == s.d.revision
    ensures var k := s.d.checkpoints[c.checkpoint];
            && k.id == c.checkpoint && n < |k.slots| && k.slots[n].slot == c.actor.slot
            && RecordAppliedOp(cfg, s, c, calls) ==
               AcknowledgeSnapshot(cfg, s, a, s.d.revision, k, k.slots[n], c, calls - 3)
  {
    hide ReconstructRecovery, Replay, InStep, SlotsApart, LoadAggregate, EvaluateFullRoster, FullPresence,
      RecordAppliedOp, TracksRecovery, MemberSlotIndex, AcknowledgeSnapshot, ExactArtifact, Stands, SlotsDistinct,
      SlotRecords, Apart, Looked;
    ServiceStands(cfg, s);
    LooksKnown(cfg, s, calls);
    LookedTracks(cfg, s);
    GatheredIff(cfg, s, c.presence);
    assert With(s, a) == s;
    assert s.(v := s.v) == s;
    ChoiceStands(cfg, s.d, a, c.actor);
    ApplyingHasRestore(cfg, s.d, a);
    ReceiptGate(cfg, s, c, calls);
    n := MemberSlotIndex(s.d.checkpoints[c.checkpoint].slots, c.actor);
    IndexedRecord(s.d.checkpoints[c.checkpoint].slots, c.actor);
  }

  /** The attempt with one member more in its second barrier. */
  function CountsReceipt(a: RecoveryActivity, slot: Id): RecoveryActivity {
    a.(durableApplied := a.durableApplied + {slot}, applied := a.applied + {slot})
  }

  function WithReceipt(h: History, slot: Id): History
    requires h.open.Some?
  {
    h.(open := Some(h.open.value.(applied := h.open.value.applied + {slot})))
  }

  lemma ReceiptWrites(cfg: Config, s: System, a: RecoveryActivity, n: nat)
    requires Consistent(cfg, s) && s.v == Volatile(None, Some(a)) && a.checkpoint.Some? && a.stage == ApplyingSnapshot
    requires n < |s.d.slots|
    ensures Committed(cfg, s.d, a.checkpoint.value) && Past(cfg, s.d).open.Some?
    ensures var k := s.d.checkpoints[a.checkpoint.value];
            var x := k.slots[n];
            var w := ReceiptWritten(cfg, s, a, k, x);
            && FromWritten(w) == Reply(NoError, Stored, s.d.revision, false, false)
            && Stands(cfg, w.d) && TracksRecovery(Past(cfg, w.d), CountsReceipt(a, x.slot))
            && Past(cfg, w.d) == WithReceipt(Past(cfg, s.d), x.slot)
            && a.checkpoint.value in w.d.checkpoints && w.d.checkpoints[a.checkpoint.value] == k
  {
    hide Replay, Stands, ApplyMutation, TracksRecovery, Apart, CheckpointSlots, ExactArtifact, SlotRecords;
    StandsAtRevision(cfg, s.d);
    TrackedChoice(cfg, s.d, a);
    AttemptCheckpoint(cfg, s.d, a);
    var h := Past(cfg, s.d);
    var k := s.d.checkpoints[a.checkpoint.value];
    var x := k.slots[n];
    if x.slot !in a.durableApplied {
      ApplyAckStands(cfg, s.d, a, n);
      SlotInRoster(cfg, s.d, a, n);
      ApplyAckIsFresh(cfg, s.d, a, x.slot);
      NoOpWrites(s.d, AckRequest(cfg, s.d.revision, ApplyAck(a.attempt, s.d.revision), k.id, x));
    }
    var w := ReceiptWritten(cfg, s, a, k, x);
    DurableSlot(h, a, x.slot);
    StandsAtRevision(cfg, w.d);
    AppliedTracks(h, Past(cfg, w.d), a, x.slot);
    SameCheckpoint(cfg, s.d, w.d, a);
  }

  lemma CompletionAnswer(cfg: Config, s: System, a: RecoveryActivity, c: AppliedReport, calls: nat)
    requires InStep(cfg, s) && s.v == Volatile(None, Some(a)) && a.stage == ApplyingSnapshot && calls >= 1
    requires a.checkpoint == Some(c.checkpoint) && a.restore == Some(c.restore) && a.attempt == c.attempt
    requires a.applied == SlotIds(Past(cfg, s.d).campaign)
    ensures var r := Complete(s, a, c, calls);
            && r == RecoveryResult(r.s, Reply(NoError, Stored, s.d.revision, false, false), NoDispatch, false, true)
            && r.s.v == Volatile(None, None) && Stands(cfg, r.s.d)
            && Past(cfg, r.s.d) == Past(cfg, s.d).(open := None)
  {
    hide Replay, Stands, TracksRecovery, ApplyMutation, SlotIds;
    StandsAtRevision(cfg, s.d);
    ReplayIsSound(cfg, s.d.journal);
    RestoreRevisionIsCurrent(cfg, Past(cfg, s.d), a);
    CompletionIsFresh(cfg, s.d, a);
    NoOpWrites(s.d, CompleteRequest(c));
    CompleteKeeps(cfg, s, a, c, calls);
    StandsAtRevision(cfg, Complete(s, a, c, calls).s.d);
  }

  lemma ReceiptIsAcknowledged(cfg: Config, s: System, a: RecoveryActivity, n: nat, c: AppliedReport, calls: nat)
    requires Consistent(cfg, s) && s.v == Volatile(None, Some(a)) && a.checkpoint.Some? && a.stage == ApplyingSnapshot
    requires a.checkpoint == Some(c.checkpoint) && a.restore == Some(c.restore) && a.attempt == c.attempt
    requires n < |s.d.slots| && calls >= 2
    ensures Committed(cfg, s.d, a.checkpoint.value) && Past(cfg, s.d).open.Some?
    ensures var h := Past(cfg, s.d);
            var k := s.d.checkpoints[a.checkpoint.value];
            var slot := k.slots[n].slot;
            var d := ReceiptWritten(cfg, s, a, k, k.slots[n]).d;
            var r := AcknowledgeSnapshot(cfg, s, a, s.d.revision, k, k.slots[n], c, calls);
            && Stands(cfg, d) && Past(cfg, d) == WithReceipt(h, slot) && (slot in a.durableApplied ==> d == s.d)
            && if a.applied + {slot} == SlotIds(h.campaign)
               then && r == RecoveryResult(r.s, Reply(NoError, Stored, s.d.revision, false, false), NoDispatch, false,
                                           true)
                    && r.s.v == Volatile(None, None) && Stands(cfg, r.s.d)
                    && Past(cfg, r.s.d) == h.(open := None)
               else r == RecoveryResult(With(s.(d := d), CountsReceipt(a, slot)),
                                        Reply(NoError, Stored, s.d.revision, false, slot in a.durableApplied),
                                        NoDispatch, false, false)
  {
    hide Replay, Stands, ApplyMutation, TracksRecovery, Complete, Apart, ExactArtifact, SlotRecords, SlotIds,
      CheckpointSlots, SlotsDistinct;
    StandsAtRevision(cfg, s.d);
    ReplayIsSound(cfg, s.d.journal);
    RestoreRevisionIsCurrent(cfg, Past(cfg, s.d), a);
    ReceiptWrites(cfg, s, a, n);
    LoadedIsDurable(Past(cfg, s.d), a);
    var k := s.d.checkpoints[a.checkpoint.value];
    var x := k.slots[n];
    var w := ReceiptWritten(cfg, s, a, k, x);
    var a1 := CountsReceipt(a, x.slot);
    StandsAtRevision(cfg, w.d);
    LoadBarrier(cfg, w.d, a1);
    if |a1.applied| == |k.slots| {
      CompletionAnswer(cfg, With(s.(d := w.d), a1), a1, c, if x.slot in a.durableApplied then calls else calls - 1);
    }
  }

  /** While receipts are collected, one that passes counts, once; the one that completes
      the roster ends the attempt. */
  lemma ReceiptAnswer(cfg: Config, s: System, a: RecoveryActivity, c: AppliedReport, calls: nat)
    requires Valid(cfg, s) && s.v.recovery == Some(a) && ReceiptPasses(cfg, s, a, c) && calls >= 5
    ensures var h := Past(cfg, s.d);
            var slot := c.actor.slot;
            var r := RecordAppliedOp(cfg, s, c, calls);
            && h.open.Some?
            && if a.applied + {slot} == SlotIds(h.campaign)
               then && r == RecoveryResult(r.s, Reply(NoError, Stored, s.d.revision, false, false), NoDispatch, false,
                                           true)
                    && r.s.v == Volatile(None, None) && Stands(cfg, r.s.d)
                    && Past(cfg, r.s.d) == h.(open := None)
               else && r == RecoveryResult(With(r.s, CountsReceipt(a, slot)),
                                           Reply(NoError, Stored, s.d.revision, false, slot in a.durableApplied),
                                           NoDispatch, false, false)
                    && Stands(cfg, r.s.d) && Past(cfg, r.s.d) == WithReceipt(h, slot)
                    && (slot in a.durableApplied ==> r.s.d == s.d)
  {
    hide Replay, InStep, SlotsApart, TracksRecovery, AcknowledgeSnapshot, RecordAppliedOp, Committed, SlotIds,
      ApplyMutation, ReceiptWritten, Stands, Consistent, FullPresence;
    var n := ReceiptPassesOn(cfg, s, a, c, calls);
    ReceiptIsAcknowledged(cfg, s, a, n, c, calls - 3);
  }

  /*
   * Receipts for a completed attempt
   */

  lemma CompletionRecord(cfg: Config, journal: seq<Record>, k: nat)
    requires Replay(cfg, journal).Some? && k < |journal| && journal[k].payload.CompleteRecovery?
    ensures journal[k].mutation == CompleteOf(journal[k].payload.attempt)
    ensures journal[k].resulting == journal[k].payload.restore
  {
    hide Replay;
    RecoveryComposition.FirstRecordCreates(cfg, journal);
    JournalGrammar.ReplayPrefix(cfg, journal, k + 1);
    var front := journal[..k + 1];
    assert front[..k] == journal[..k] && front[k] == journal[k];
    RecoveryRelease.ReplayStep(cfg, front);
  }

  lemma FoundIff(cfg: Config, journal: seq<Record>, c: AppliedReport)
    requires Replay(cfg, journal).Some?
    ensures var i := CompletionIndex(journal, c);
            && i <= |journal|
            && (i < |journal| <==> RecoveryComposition.Ended(journal, c.attempt, c.checkpoint, c.restore))
            && (i < |journal| ==> journal[i].resulting == c.restore)
  {
    hide Replay;
    if RecoveryComposition.Ended(journal, c.attempt, c.checkpoint, c.restore) {
      var k :| 0 <= k < |journal| && journal[k].payload == CompleteRecovery(c.attempt, c.checkpoint, c.restore);
      CompletionRecord(cfg, journal, k);
    }
  }

  lemma SavedSlots(cfg: Config, d: Durable, id: Id, m: Member)
    requires Stands(cfg, d)
    ensures id in d.checkpoints <==> id in Past(cfg, d).saved
    ensures id in d.checkpoints ==>
              var slots := d.checkpoints[id].slots;
              MemberSlotIndex(slots, m) <= |slots| && (MemberSlotIndex(slots, m) < |slots| <==> m.Record() in d.slots)
  {
    hide Replay, CampaignCoreCodec.CoreBytes, CampaignCoreCodec.ImageOf, CheckpointSlots, SlotsDistinct, SlotRecords,
      MemberSlotIndex, Inv;
    if id in Past(cfg, d).saved {
      ReplayIsSound(cfg, d.journal);
      SavedRosterIsCurrent(cfg, Past(cfg, d), id);
      RosterSlotsDistinct(Past(cfg, d).campaign);
      ProvenRecords(Past(cfg, d).saved[id]);
      SlotIndexInRange(d.checkpoints[id].slots, m);
      ListedOnce(cfg, d.checkpoints[id].slots, d.slots, m);
    }
  }

  lemma LateGate(cfg: Config, s: System, c: AppliedReport, calls: nat)
    requires calls >= 3 && ReconstructRecovery(cfg, s, calls) == Gate(s.v, None, calls - 1) && s.v.recovery.None?
    ensures RecordAppliedOp(cfg, s, c, calls) ==
            if c.checkpoint !in s.d.checkpoints then
              RecoveryResult(s, Reply(PersistenceFailure, NotFound, 0, false, false), NoDispatch, false, false)
            else if MemberSlotIndex(s.d.checkpoints[c.checkpoint].slots, c.actor) ==
                    |s.d.checkpoints[c.checkpoint].slots| then Turned(s, NotCampaignMember, 0)
            else if CompletionIndex(s.d.journal, c) == |s.d.journal| then Turned(s, RecoveryNotActive, 0)
            else RecoveryResult(s, Reply(NoError, Stored, s.d.journal[CompletionIndex(s.d.journal, c)].resulting, false,
                                         true), NoDispatch, false, true)
  {
    hide ReconstructRecovery, MemberSlotIndex;
    assert s.(v := s.v) == s;
  }

  /** With no attempt open, a member's receipt for a completed attempt is told that it is
      completed, again and again, and nothing changes. */
  lemma LateReceiptAnswer(cfg: Config, s: System, c: AppliedReport, calls: nat)
    requires Valid(cfg, s) && Past(cfg, s.d).open.None? && calls >= 3
    ensures RecordAppliedOp(cfg, s, c, calls) ==
            if c.checkpoint !in Past(cfg, s.d).saved then
              RecoveryResult(s, Reply(PersistenceFailure, NotFound, 0, false, false), NoDispatch, false, false)
            else if c.actor.Record() !in s.d.slots then Turned(s, NotCampaignMember, 0)
            else if !RecoveryComposition.Ended(s.d.journal, c.attempt, c.checkpoint, c.restore) then
              Turned(s, RecoveryNotActive, 0)
            else RecoveryResult(s, Reply(NoError, Stored, c.restore, false, true), NoDispatch, false, true)
  {
    hide ReconstructRecovery, Replay, InStep, SlotsApart, LoadAggregate, RecordAppliedOp, MemberSlotIndex,
      RecoveryComposition.Ended, CompletionIndex, Looked;
    ServiceStands(cfg, s);
    LooksIdle(cfg, s, calls);
    SavedSlots(cfg, s.d, c.checkpoint, c.actor);
    FoundIff(cfg, s.d.journal, c);
    LateGate(cfg, s, c, calls);
  }
}
