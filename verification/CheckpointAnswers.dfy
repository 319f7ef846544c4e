/** What the service answers about checkpoints, in every state its runs reach, and what
    ends the activity of one. */
module CheckpointAnswers {
  import opened Basics
  import opened CampaignState
  import opened FullRoster
  import opened CampaignCoreCodec
  import opened CampaignStore
  import opened CampaignHistory
  import opened RuntimeModel
  import opened RuntimeInvariants
  import opened RuntimeSafety
  import opened RuntimeRuns
  import opened RecoveryTheorems
  import opened CheckpointTheorems
  import opened RecoveryProgress
  import opened CheckpointProgress
  import opened EditAnswers

  /*
   * What is saved was journaled
   */

  lemma SavedBy(cfg: Config, h: History, r: Record, c: Id)
    requires Next(cfg, h, r).Some? && c in Next(cfg, h, r).value.saved
    ensures c in h.saved || r.mutation == CreateCandidateOf(c)
  {
    hide CoreBytes, IntentBytes, Apply, CheckpointSlots, SlotIds;
  }

  lemma ProvenBy(cfg: Config, h: History, r: Record, c: Id, slot: Id)
    requires Next(cfg, h, r).Some? && c in Next(cfg, h, r).value.saved
    requires slot in Next(cfg, h, r).value.saved[c].artifacts
    ensures (c in h.saved && slot in h.saved[c].artifacts) || r.mutation == AcknowledgeOf(c, slot)
  {
    hide CoreBytes, IntentBytes, Apply, CheckpointSlots, SlotIds, ExactArtifact;
  }

  lemma InLonger(journal: seq<Record>, n: nat, m: MutationId)
    requires n < |journal|
    requires JournalIndex(journal[..n], m) < n || journal[n].mutation == m
    ensures JournalIndex(journal, m) < |journal|
  {
    var i := JournalIndex(journal[..n], m);
    if i < n {
      assert journal[..n][i] == journal[i];
    }
  }

  /** A saved checkpoint has its candidate in the journal. */
  lemma {:induction false} CandidateIsJournaled(cfg: Config, journal: seq<Record>, c: Id)
    requires Replay(cfg, journal).Some? && c in Replay(cfg, journal).value.saved
    ensures JournalIndex(journal, CreateCandidateOf(c)) < |journal|
  {
    hide Next, JournalIndex;
    var n := |journal| - 1;
    if n > 0 {
      SavedBy(cfg, Replay(cfg, journal[..n]).value, journal[n], c);
      if journal[n].mutation != CreateCandidateOf(c) {
        CandidateIsJournaled(cfg, journal[..n], c);
      }
      InLonger(journal, n, CreateCandidateOf(c));
    }
  }

  /** A saved proof has its acknowledgement in the journal. */
  lemma {:induction false} ProofIsJournaled(cfg: Config, journal: seq<Record>, c: Id, slot: Id)
    requires Replay(cfg, journal).Some? && c in Replay(cfg, journal).value.saved
    requires slot in Replay(cfg, journal).value.saved[c].artifacts
    ensures JournalIndex(journal, AcknowledgeOf(c, slot)) < |journal|
  {
    hide Next, JournalIndex;
    var n := |journal| - 1;
    if n > 0 {
      ProvenBy(cfg, Replay(cfg, journal[..n]).value, journal[n], c, slot);
      if journal[n].mutation != AcknowledgeOf(c, slot) {
        ProofIsJournaled(cfg, journal[..n], c, slot);
      }
      InLonger(journal, n, AcknowledgeOf(c, slot));
    }
  }

  /*
   * Beginning
   */

  /** Everybody of a sealed roster is present. */
  ghost predicate Gathered(cfg: Config, d: Durable, presence: seq<Presence>) {
    d.sealed && FullPresence(cfg, d.slots, presence)
  }

  lemma GatheredIff(cfg: Config, s: System, presence: seq<Presence>)
    requires Valid(cfg, s)
    ensures LoadAggregate(cfg, s.d).Some?
    ensures EvaluateFullRoster(LoadAggregate(cfg, s.d).value, presence) == Eligible <==> Gathered(cfg, s.d, presence)
    ensures LoadAggregate(cfg, s.d).value.sealed == s.d.sealed && LoadAggregate(cfg, s.d).value.version == s.d.revision
  {
    hide Replay, LoadAggregate, SlotsApart, FullPresence, Tracks, Stands;
    ServiceStands(cfg, s);
    SealedHere(cfg, s.d);
    StandsAtRevision(cfg, s.d);
    if s.d.sealed {
      FullIsEligible(cfg, s.d, presence);
    }
  }

  /** A checkpoint does not begin beside another one or a recovery. */
  lemma BeginFenced(cfg: Config, s: System, c: Id, identity: Id, presence: seq<Presence>, calls: nat)
    requires Valid(cfg, s) && (s.v.active.Some? || (Past(cfg, s.d).open.Some? && calls >= 2))
    ensures var r := BeginCheckpointOp(cfg, s, c, identity, presence, calls);
            && r.s == s.(v := if s.v.active.Some? then s.v else Looked(cfg, s)) && !r.committed
            && r.reply == Reply(if s.v.active.Some? then CheckpointInProgress else RecoveryInProgress, Stored, 0,
                                false, false)
  {
    hide ReconstructRecovery, Valid, Looked, Replay;
    if s.v.active.None? {
      LooksAlways(cfg, s, calls);
    }
  }

  lemma BeginReachesCandidate(cfg: Config, s: System, c: Id, identity: Id, presence: seq<Presence>, calls: nat)
    requires calls >= 3 && s.v.active.None? && CheckMutationFence(cfg, s, calls) == Gate(s.v, None, calls - 1)
    requires LoadAggregate(cfg, s.d).Some?
    ensures var a := LoadAggregate(cfg, s.d).value;
            BeginCheckpointOp(cfg, s, c, identity, presence, calls) ==
            if c == [] || identity != SaveIdentity(c) then
              CheckpointResult(s, Reply(InvalidIdentity, Stored, 0, false, false), false)
            else if EvaluateFullRoster(a, presence) != Eligible then
              CheckpointResult(s, Reply(if a.sealed then RosterIncomplete else RosterNotSealed, Stored, 0, false,
                                        false),
                               false)
            else PersistCandidate(s, c, identity, a, calls - 3)
  {
    hide CheckMutationFence, LoadAggregate, EvaluateFullRoster, PersistCandidate;
    assert s.(v := s.v) == s;
  }

  lemma KnownCandidateConflicts(cfg: Config, d: Durable, c: Id)
    requires Stands(cfg, d) && c in Past(cfg, d).saved
    ensures var w := CreateCheckpointCandidate(d, CandidateRequest(Current(Past(cfg, d)), c), c);
            w == Failed(d, IdempotencyConflict)
  {
    hide Replay, CoreBytes, ImageOf, SoundCampaign, JournalIndex;
    StandsAtRevision(cfg, d);
    ReplayIsSound(cfg, d.journal);
    assert SoundSaved(cfg, Past(cfg, d), c, Past(cfg, d).saved[c]);
    CandidateIsJournaled(cfg, d.journal, c);
    CandidateReplayConflicts(cfg, d, CandidateRequest(Current(Past(cfg, d)), c));
  }

  lemma NewCandidateAnswer(cfg: Config, d: Durable, c: Id)
    requires Stands(cfg, d) && c !in Past(cfg, d).saved && d.sealed && d.slots != []
    ensures var w := CreateCheckpointCandidate(d, CandidateRequest(Current(Past(cfg, d)), c), c);
            if Storable(CreateCandidateOf(c)) && d.revision < MAX_REVISION
            then FromWritten(w) == Reply(NoError, Stored, d.revision + 1, true, false)
            else w == Failed(d, InvalidArgument)
  {
    hide Replay, CoreBytes, ImageOf, JournalIndex, Storable, EmptySlots;
    StandsAtRevision(cfg, d);
    NotStored(cfg, d, c);
    JournalIsAccounted(cfg, d.journal);
    forall r | r in d.journal ensures r.mutation != CreateCandidateOf(c) {
      assert Accounted(cfg, Past(cfg, d), r);
    }
    FreshMutation(d, CreateCandidateOf(c));
  }

  lemma NotStored(cfg: Config, d: Durable, c: Id)
    requires Stands(cfg, d) && c !in Past(cfg, d).saved
    ensures c !in d.checkpoints
  {
    hide Replay;
  }

  /** With nothing in its way, a checkpoint begins exactly under the save identity made
      from its own, with everybody present, if it is new, the store takes its text and
      has a revision left. It then captures the campaign and has no proof. */
  lemma BeginCheckpointAnswer(cfg: Config, s: System, c: Id, identity: Id, presence: seq<Presence>, calls: nat)
    requires Valid(cfg, s) && s.v.active.None? && Past(cfg, s.d).open.None? && calls >= 4
    ensures var r := BeginCheckpointOp(cfg, s, c, identity, presence, calls);
            var h := Past(cfg, s.d);
            if c == [] || identity != SaveIdentity(c) then
              r == CheckpointResult(s, Reply(InvalidIdentity, Stored, 0, false, false), false)
            else if !Gathered(cfg, s.d, presence) then
              r == CheckpointResult(s, Reply(if s.d.sealed then RosterIncomplete else RosterNotSealed, Stored, 0, false,
                                             false), false)
            else if c in h.saved then
              r == CheckpointResult(s, Reply(PersistenceFailure, IdempotencyConflict, 0, false, false), false)
            else if !Storable(CreateCandidateOf(c)) || s.d.revision == MAX_REVISION then
              r == CheckpointResult(s, Reply(PersistenceFailure, InvalidArgument, 0, false, false), false)
            else
              && r.reply == Reply(NoError, Stored, s.d.revision + 1, true, false) && !r.committed
              && r.s.v == Volatile(Some(CheckpointActivity(c, s.d.revision, identity)), None) && Stands(cfg, r.s.d)
              && Past(cfg, r.s.d) == h.(revision := s.d.revision + 1,
                                        saved := h.saved[c := Saved(Current(h), map[], None)])
  {
    hide CheckMutationFence, LoadAggregate, PersistCandidate, BeginCheckpointOp, Replay, Stands, SlotsApart, Tracks,
      Storable, EvaluateFullRoster, FullPresence;
    ServiceStands(cfg, s);
    GatheredIff(cfg, s, presence);
    EditAnswers.UnfencedGate(cfg, s, calls);
    BeginReachesCandidate(cfg, s, c, identity, presence, calls);
    if c != [] && identity == SaveIdentity(c) && Gathered(cfg, s.d, presence) {
      RosterNotEmpty(cfg, s.d, presence);
      CandidateAnswer(cfg, s, c, calls - 3);
    }
  }

  lemma CandidateAnswer(cfg: Config, s: System, c: Id, calls: nat)
    requires Stands(cfg, s.d) && Past(cfg, s.d).open.None? && c != [] && calls >= 1 && s.v == Volatile(None, None)
    requires s.d.sealed && s.d.slots != []
    ensures var r := PersistCandidate(s, c, SaveIdentity(c), Current(Past(cfg, s.d)), calls);
            var h := Past(cfg, s.d);
            if c in h.saved then
              r == CheckpointResult(s, Reply(PersistenceFailure, IdempotencyConflict, 0, false, false), false)
            else if !Storable(CreateCandidateOf(c)) || s.d.revision == MAX_REVISION then
              r == CheckpointResult(s, Reply(PersistenceFailure, InvalidArgument, 0, false, false), false)
            else
              && r.reply == Reply(NoError, Stored, s.d.revision + 1, true, false) && !r.committed
              && r.s.v == Volatile(Some(CheckpointActivity(c, s.d.revision, SaveIdentity(c))), None)
              && Stands(cfg, r.s.d)
              && Past(cfg, r.s.d) == h.(revision := s.d.revision + 1,
                                        saved := h.saved[c := Saved(Current(h), map[], None)])
  {
    hide Replay, Stands, CreateCheckpointCandidate, EncodeCore, CoreBytes, ImageOf, Storable, JournalIndex;
    StandsAtRevision(cfg, s.d);
    CurrentEncodes(cfg, s.d);
    if c in Past(cfg, s.d).saved {
      KnownCandidateConflicts(cfg, s.d, c);
    } else {
      NewCandidateAnswer(cfg, s.d, c);
      CandidateStands(cfg, s.d, c);
    }
  }

  /*
   * Reports about a save
   */

  /** The report names the active checkpoint and its save, and is the campaign's. */
  predicate Names(cfg: Config, x: CheckpointActivity, checkpoint: Id, identity: Id, m: Member) {
    checkpoint == x.checkpoint && identity == x.identity && m.campaign == cfg.campaign
  }

  /** Why a report about a save, good or bad, is refused before its proof is looked at. */
  lemma ReportRefused(cfg: Config, s: System, c: SaveReport, calls: nat)
    requires Valid(cfg, s) && calls >= 2
    ensures var r := RecordSaveOp(cfg, s, c, calls);
            && (Past(cfg, s.d).open.Some? ==>
                  r == CheckpointResult(s.(v := Looked(cfg, s)), Reply(RecoveryInProgress, Stored, 0, false, false),
                                        false))
            && (Past(cfg, s.d).open.None? && s.v.active.None? ==>
                  r == CheckpointResult(s, Reply(CheckpointNotActive, Stored, 0, false, false), false))
            && (s.v.active.Some? && !Names(cfg, s.v.active.value, c.checkpoint, c.proof.identity, c.actor) ==>
                  r == CheckpointResult(s, Reply(CheckpointMismatch, Stored, 0, false, false), false))
  {
    hide ReconstructRecovery, Looked, Replay, RecordSlot, InStep, SlotsApart, MemberSlotIndex, LoadAggregate;
    ServiceStands(cfg, s);
    if s.v.active.Some? {
      OneFenceAtATime(cfg, s);
    }
    if Past(cfg, s.d).open.Some? {
      LooksAlways(cfg, s, calls);
    } else {
      LooksIdle(cfg, s, calls);
      assert s.(v := s.v) == s;
    }
  }

  /** The place of a stored member among a checkpoint's slots. */
  predicate PlacedAt(slots: seq<SlotRecord>, r: SlotRecord, i: nat) {
    i < |slots| && slots[i] == r
  }

  lemma ListedOnce(cfg: Config, slots: seq<CheckpointSlot>, records: seq<SlotRecord>, m: Member)
    requires SlotRecords(slots) == records && SlotsDistinct(records)
    ensures var i := MemberSlotIndex(slots, m);
            && (i < |slots| <==> m.Record() in records)
            && forall k :: PlacedAt(records, m.Record(), k) ==> k == i
  {
    var i := MemberSlotIndex(slots, m);
    assert forall k :: 0 <= k < |slots| ==> slots[k].Record() == SlotRecords(slots)[k];
    if m.Record() in records {
      var k :| 0 <= k < |records| && records[k] == m.Record();
      assert slots[k].Record() == m.Record();
    }
  }

  /** A report for the active checkpoint gets to the slots of its roster. */
  lemma ActiveSlots(cfg: Config, s: System)
    requires Valid(cfg, s) && s.v.active.Some?
    ensures var x := s.v.active.value;
            && s.v == Volatile(Some(x), None) && Past(cfg, s.d).open.None? && TracksActive(Past(cfg, s.d), x)
            && x.checkpoint in s.d.checkpoints && x.checkpoint in Past(cfg, s.d).saved
            && SlotRecords(s.d.checkpoints[x.checkpoint].slots) == s.d.slots && SlotsDistinct(s.d.slots)
            && |s.d.checkpoints[x.checkpoint].slots| == |s.d.slots|
            && s.d.checkpoints[x.checkpoint].committedAt.None?
  {
    hide Replay, Stands, SlotsApart, TracksActive, SlotsDistinct, ExactArtifact, Storable;
    ServiceStands(cfg, s);
    ActiveIsAlone(cfg, s);
    ActiveUncommitted(cfg, s.d, s.v.active.value);
  }

  lemma SaveReachesSlot(cfg: Config, s: System, c: SaveReport, calls: nat)
    requires s.v.active.Some? && calls >= 2 && ReconstructRecovery(cfg, s, calls) == Gate(s.v, None, calls - 1)
    requires s.v == Volatile(s.v.active, None) && s.v.active.value.checkpoint in s.d.checkpoints
    requires Names(cfg, s.v.active.value, c.checkpoint, c.proof.identity, c.actor)
    ensures var x := s.v.active.value;
            var slots := s.d.checkpoints[x.checkpoint].slots;
            var i := MemberSlotIndex(slots, c.actor);
            RecordSaveOp(cfg, s, c, calls) ==
            if i == |slots| then CheckpointResult(s, Reply(NotCampaignMember, Stored, 0, false, false), false)
            else if i < |slots| then RecordSlot(cfg, s, x, slots[i].(artifact := Some(c.proof)), calls - 2)
            else CheckpointResult(s, CALL_FAILED, false)
  {
    hide ReconstructRecovery, RecordSlot, MemberSlotIndex;
    SlotIndexInRange(s.d.checkpoints[c.checkpoint].slots, c.actor);
    assert s.(v := s.v) == s;
  }

  lemma SlotIndexInRange(slots: seq<CheckpointSlot>, m: Member)
    ensures MemberSlotIndex(slots, m) <= |slots|
  {
  }

  /** The report is a stored member's, and about the active checkpoint. */
  predicate Reported(cfg: Config, s: System, c: SaveReport) {
    && s.v.active.Some? && Names(cfg, s.v.active.value, c.checkpoint, c.proof.identity, c.actor)
    && c.actor.Record() in s.d.slots
  }

  /** A report of somebody who is not a stored member, or without an exact proof. */
  lemma SaveRefused(cfg: Config, s: System, c: SaveReport, calls: nat)
    requires Valid(cfg, s) && s.v.active.Some? && calls >= 2
    requires Names(cfg, s.v.active.value, c.checkpoint, c.proof.identity, c.actor)
    ensures var r := RecordSaveOp(cfg, s, c, calls);
            && (c.actor.Record() !in s.d.slots ==>
                  r == CheckpointResult(s, Reply(NotCampaignMember, Stored, 0, false, false), false))
            && (c.actor.Record() in s.d.slots && !ExactProof(cfg, c.proof, s.v.active.value.identity) ==>
                  r == CheckpointResult(s, Reply(InvalidCheckpointArtifact, Stored, 0, false, false), false))
  {
    hide ReconstructRecovery, Replay, Stands, SlotsApart, MemberSlotIndex, SlotsDistinct, Tracks, TracksActive,
      RecordSaveOp, ExactProof, RecordSlotSave, CommitIfComplete;
    ActiveSlots(cfg, s);
    LooksIdle(cfg, s, calls);
    var slots := s.d.checkpoints[s.v.active.value.checkpoint].slots;
    ListedOnce(cfg, slots, s.d.slots, c.actor);
    SlotIndexInRange(slots, c.actor);
    SaveReachesSlot(cfg, s, c, calls);
  }

  /** A commit once every slot is proven and a revision left, and nothing before that. */
  ghost predicate Settled(cfg: Config, s: System, x: CheckpointActivity, reply: Reply, r: CheckpointResult)
    requires Replay(cfg, s.d.journal).Some?
  {
    var c, h := x.checkpoint, Past(cfg, s.d);
    && c in s.d.checkpoints && c in h.saved
    && if exists y :: y in s.d.checkpoints[c].slots && y.artifact.None? then r == CheckpointResult(s, reply, false)
       else if s.d.revision == MAX_REVISION then
         r == CheckpointResult(s, Reply(PersistenceFailure, InvalidArgument, 0, false, false), false)
       else
         && r.committed && r.reply == Reply(NoError, Stored, s.d.revision + 1, true, false)
         && r.s.v == Volatile(None, None) && Stands(cfg, r.s.d)
         && Past(cfg, r.s.d) == h.(revision := s.d.revision + 1, lastCommitted := Some(c),
                                   saved := h.saved[c := h.saved[c].(committedAt := Some(s.d.revision + 1))])
  }

  lemma NoRevisionForCommit(d: Durable, q: Request, id: Id)
    requires q.expected == d.revision == MAX_REVISION && id in d.checkpoints && d.checkpoints[id].committedAt.None?
    requires JournalIndex(d.journal, q.mutation) == |d.journal|
    ensures CommitCandidate(d, q, id) == Failed(d, InvalidArgument)
  {
    hide JournalIndex, Storable;
  }

  lemma CommitIsFresh(cfg: Config, d: Durable, x: CheckpointActivity)
    requires Stands(cfg, d) && TracksActive(Past(cfg, d), x)
    ensures JournalIndex(d.journal, CommitOf(x.checkpoint)) == |d.journal|
  {
    hide Replay;
    JournalIsAccounted(cfg, d.journal);
    forall r | r in d.journal ensures r.mutation != CommitOf(x.checkpoint) {
      assert Accounted(cfg, Past(cfg, d), r);
    }
    FreshMutation(d, CommitOf(x.checkpoint));
  }

  lemma CommitReply(d: Durable, q: Request, id: Id)
    requires JournalIndex(d.journal, q.mutation) == |d.journal| && id in d.checkpoints
    requires d.checkpoints[id].committedAt.None? && CommitCandidate(d, q, id).error == Stored
    ensures FromWritten(CommitCandidate(d, q, id)) == Reply(NoError, Stored, d.revision + 1, true, false)
  {
    hide JournalIndex, Storable;
  }

  lemma ProofsSettle(cfg: Config, s: System, x: CheckpointActivity, reply: Reply, calls: nat)
    requires InStep(cfg, s) && s.v == Volatile(Some(x), None) && calls >= 3
    ensures Settled(cfg, s, x, reply, CommitIfComplete(cfg, s, x, reply, calls))
  {
    hide Replay, Stands, CommitCandidate, ExactArtifact, TracksActive, SlotRecords, CheckpointSlots, Storable;
    StandsAtRevision(cfg, s.d);
    ActiveUncommitted(cfg, s.d, x);
    var slots := s.d.checkpoints[x.checkpoint].slots;
    var q := CommitRequest(s.d.revision, x.checkpoint);
    if y :| y in slots && y.artifact.None? {
      NoProofIsNotExact(cfg, y, x.identity);
    } else {
      CommitIsFresh(cfg, s.d, x);
      if s.d.revision == MAX_REVISION {
        NoRevisionForCommit(s.d, q, x.checkpoint);
      } else {
        CommitGoes(cfg, s.d, x);
        CommitStands(cfg, s.d, x);
        CommitReply(s.d, q, x.checkpoint);
      }
    }
  }

  /** The history with one proof more. */
  function WithProof(h: History, c: Id, slot: Id, proof: Artifact): History
    requires c in h.saved && h.revision < MAX_REVISION
  {
    h.(revision := h.revision + 1,
       saved := h.saved[c := h.saved[c].(artifacts := h.saved[c].artifacts[slot := proof])])
  }

  /** What a first exact proof of a member does to the store. */
  lemma NewProofStored(cfg: Config, d: Durable, x: CheckpointActivity, i: nat, proof: Artifact)
    requires Stands(cfg, d) && TracksActive(Past(cfg, d), x) && x.checkpoint in d.checkpoints
    requires x.checkpoint in Past(cfg, d).saved
    requires i < |d.checkpoints[x.checkpoint].slots| && d.checkpoints[x.checkpoint].slots[i].artifact.None?
    requires ExactProof(cfg, proof, x.identity)
    ensures var slot := d.checkpoints[x.checkpoint].slots[i].(artifact := Some(proof));
            var w := RecordSlotSave(d, SaveRequest(d.revision, x.checkpoint, slot), x.checkpoint);
            && JournalIndex(d.journal, AcknowledgeOf(x.checkpoint, slot.slot)) == |d.journal|
            && if !Storable(AcknowledgeOf(x.checkpoint, slot.slot)) || d.revision == MAX_REVISION
               then w == Failed(d, InvalidArgument)
               else && FromWritten(w) == Reply(NoError, Stored, d.revision + 1, true, false)
                    && w.d.revision == d.revision + 1
                    && Stands(cfg, w.d) && TracksActive(Past(cfg, w.d), x)
                    && Past(cfg, w.d) == WithProof(Past(cfg, d), x.checkpoint, slot.slot, proof)
  {
    hide Replay, CheckpointSlots, RecordSlotSave, JournalIndex, CheckpointSlotIndex, ExactProof, Stands, TracksActive,
      Storable;
    StandsAtRevision(cfg, d);
    ActiveUncommitted(cfg, d, x);
    var saved := Past(cfg, d).saved[x.checkpoint];
    var slots := d.checkpoints[x.checkpoint].slots;
    var slot := slots[i].(artifact := Some(proof));
    UnprovenSlot(saved, i);
    NewSaveIsFresh(cfg, d, x, slot.slot);
    SlotIndexIsUnique(saved, i);
    ExactIsComplete(cfg, proof, x.identity);
    if Storable(AcknowledgeOf(x.checkpoint, slot.slot)) && d.revision < MAX_REVISION {
      NewProofSaved(cfg, d, x, i, proof);
      SaveIsExact(cfg, d, x, i, proof);
      NewSaveReply(d, SaveRequest(d.revision, x.checkpoint, slot), x.checkpoint);
    } else {
      NewSaveRefused(d, SaveRequest(d.revision, x.checkpoint, slot), x.checkpoint);
    }
  }

  lemma NewSaveReply(d: Durable, q: Request, id: Id)
    requires q.content.SlotSave? && JournalIndex(d.journal, q.mutation) == |d.journal| && id in d.checkpoints
    requires var i := CheckpointSlotIndex(d.checkpoints[id].slots, q.content.slot.slot);
             i < |d.checkpoints[id].slots| ==> d.checkpoints[id].slots[i].artifact.None?
    requires RecordSlotSave(d, q, id).error == Stored
    ensures FromWritten(RecordSlotSave(d, q, id)) == Reply(NoError, Stored, d.revision + 1, true, false)
  {
    hide JournalIndex, CheckpointSlotIndex, Storable;
    SlotIdIndexInRange(d.checkpoints[id].slots, q.content.slot.slot);
  }

  lemma SlotIdIndexInRange(slots: seq<CheckpointSlot>, slot: Id)
    ensures CheckpointSlotIndex(slots, slot) <= |slots|
  {
  }

  lemma NewSaveRefused(d: Durable, q: Request, id: Id)
    requires q.content.SlotSave? && JournalIndex(d.journal, q.mutation) == |d.journal| && q.expected == d.revision
    requires !Storable(q.mutation) || d.revision == MAX_REVISION
    ensures RecordSlotSave(d, q, id) == Failed(d, InvalidArgument)
  {
    hide JournalIndex, CheckpointSlotIndex, Storable;
  }

  lemma SaveIsExact(cfg: Config, d: Durable, x: CheckpointActivity, i: nat, proof: Artifact)
    requires Stands(cfg, d) && TracksActive(Past(cfg, d), x) && d.revision < MAX_REVISION
    requires x.checkpoint in d.checkpoints && i < |d.checkpoints[x.checkpoint].slots|
    requires x.checkpoint in Past(cfg, d).saved
    requires d.checkpoints[x.checkpoint].slots[i].artifact.None? && ExactProof(cfg, proof, x.identity)
    requires Storable(AcknowledgeOf(x.checkpoint, d.checkpoints[x.checkpoint].slots[i].slot))
    ensures var slot := d.checkpoints[x.checkpoint].slots[i].(artifact := Some(proof));
            var w := RecordSlotSave(d, SaveRequest(d.revision, x.checkpoint, slot), x.checkpoint);
            Stands(cfg, w.d) && Past(cfg, w.d) == WithProof(Past(cfg, d), x.checkpoint, slot.slot, proof)
  {
    hide Replay, Next, CoreBytes, ImageOf, Sound, SoundCampaign, CheckpointSlots, Storable, ExactProof;
    var h := Past(cfg, d);
    ActiveUncommitted(cfg, d, x);
    var slot := d.checkpoints[x.checkpoint].slots[i].(artifact := Some(proof));
    UnprovenSlot(h.saved[x.checkpoint], i);
    NewProofSaved(cfg, d, x, i, proof);
    SaveAccepted(cfg, h, x.checkpoint, i, proof);
    SaveWritten(cfg, d, x, slot);
  }

  /** Replaying the record that was written gives the history with the proof. */
  lemma SaveWritten(cfg: Config, d: Durable, x: CheckpointActivity, slot: CheckpointSlot)
    requires Stands(cfg, d) && d.revision < MAX_REVISION
    requires JournalIndex(d.journal, AcknowledgeOf(x.checkpoint, slot.slot)) == |d.journal|
    requires var w := RecordSlotSave(d, SaveRequest(d.revision, x.checkpoint, slot), x.checkpoint);
             w.error == Stored && w.d.revision == d.revision + 1 && Stands(cfg, w.d)
    ensures var w := RecordSlotSave(d, SaveRequest(d.revision, x.checkpoint, slot), x.checkpoint);
            Some(Past(cfg, w.d)) == Next(cfg, Past(cfg, d), SaveRecord(x.checkpoint, d.revision, slot))
  {
    hide Next, Created, JournalIndex, CheckpointSlotIndex, Storable, Project;
    var w := RecordSlotSave(d, SaveRequest(d.revision, x.checkpoint, slot), x.checkpoint);
    NeverEmpty(cfg, d.journal);
    assert w.d.journal[..|d.journal|] == d.journal;
    assert w.d.journal[|d.journal|] == SaveRecord(x.checkpoint, d.revision, slot);
  }

  /** A member's proof of a slot without one is refused only for its name or the lack of
      revisions; otherwise it is stored, and the checkpoint settled. */
  lemma NewSaveAnswer(cfg: Config, s: System, c: SaveReport, i: nat, calls: nat)
    requires Valid(cfg, s) && Reported(cfg, s, c) && calls >= 8
    requires ExactProof(cfg, c.proof, s.v.active.value.identity) && PlacedAt(s.d.slots, c.actor.Record(), i)
    requires c.checkpoint in s.d.checkpoints && i < |s.d.checkpoints[c.checkpoint].slots|
    requires s.d.checkpoints[c.checkpoint].slots[i].artifact.None?
    ensures var r := RecordSaveOp(cfg, s, c, calls);
            if !Storable(AcknowledgeOf(c.checkpoint, c.actor.slot)) || s.d.revision == MAX_REVISION then
              r == CheckpointResult(s, Reply(PersistenceFailure, InvalidArgument, 0, false, false), false)
            else
              exists d :: && StoresProof(cfg, s.d, d, c)
                          && Settled(cfg, s.(d := d), s.v.active.value,
                                     Reply(NoError, Stored, s.d.revision + 1, true, false), r)
  {
    hide ReconstructRecovery, Replay, Stands, SlotsApart, MemberSlotIndex, SlotsDistinct, Tracks, TracksActive,
      RecordSaveOp, ExactProof, RecordSlotSave, CommitIfComplete, RecordSlot, Storable, JournalIndex, Settled,
      LoadAggregate;
    var x := s.v.active.value;
    ServiceStands(cfg, s);
    ActiveSlots(cfg, s);
    LooksIdle(cfg, s, calls);
    var slots := s.d.checkpoints[x.checkpoint].slots;
    ListedOnce(cfg, slots, s.d.slots, c.actor);
    SaveReachesSlot(cfg, s, c, calls);
    var slot := slots[i].(artifact := Some(c.proof));
    ActorsSlot(slots, s.d.slots, c.actor, i);
    NewProofStored(cfg, s.d, x, i, c.proof);
    NewSlotAnswer(cfg, s, x, slot, calls - 2);
    if Storable(AcknowledgeOf(c.checkpoint, c.actor.slot)) && s.d.revision < MAX_REVISION {
      var w := RecordSlotSave(s.d, SaveRequest(s.d.revision, x.checkpoint, slot), x.checkpoint);
      ActiveKept(cfg, s, w.d, x);
      ProofsSettle(cfg, s.(d := w.d), x, FromWritten(w), calls - 5);
      assert StoresProof(cfg, s.d, w.d, c);
    }
  }

  /** The store after a report's proof was taken. */
  ghost predicate StoresProof(cfg: Config, d: Durable, next: Durable, c: SaveReport) {
    && Stands(cfg, d) && Stands(cfg, next) && c.checkpoint in Past(cfg, d).saved && d.revision < MAX_REVISION
    && Past(cfg, d).revision == d.revision
    && Past(cfg, next) == WithProof(Past(cfg, d), c.checkpoint, c.actor.slot, c.proof)
  }

  lemma ActorsSlot(slots: seq<CheckpointSlot>, records: seq<SlotRecord>, m: Member, i: nat)
    requires SlotRecords(slots) == records && PlacedAt(records, m.Record(), i) && i < |slots|
    ensures slots[i].slot == m.slot && slots[i].Record() == m.Record()
  {
    assert SlotRecords(slots)[i] == slots[i].Record();
  }

  lemma ActiveKept(cfg: Config, s: System, d: Durable, x: CheckpointActivity)
    requires s.v == Volatile(Some(x), None) && Stands(cfg, d) && TracksActive(Past(cfg, d), x)
    ensures InStep(cfg, s.(d := d))
  {
    hide Replay, Stands, TracksActive;
    StandsAtRevision(cfg, d);
  }

  lemma NewSlotAnswer(cfg: Config, s: System, x: CheckpointActivity, slot: CheckpointSlot, calls: nat)
    requires ExactArtifact(cfg, slot, x.identity) && calls >= 6
    requires JournalIndex(s.d.journal, AcknowledgeOf(x.checkpoint, slot.slot)) == |s.d.journal|
    ensures var w := RecordSlotSave(s.d, SaveRequest(s.d.revision, x.checkpoint, slot), x.checkpoint);
            RecordSlot(cfg, s, x, slot, calls) ==
            if w.error != Stored then CheckpointResult(s, StoreFailure(w.error), false)
            else CommitIfComplete(cfg, s.(d := w.d), x, FromWritten(w), calls - 3)
  {
    hide RecordSlotSave, CommitIfComplete, ExactArtifact, JournalIndex;
  }

  lemma KnownSlotAnswer(cfg: Config, s: System, x: CheckpointActivity, slot: CheckpointSlot, calls: nat)
    requires ExactArtifact(cfg, slot, x.identity) && calls >= 5
    requires JournalIndex(s.d.journal, AcknowledgeOf(x.checkpoint, slot.slot)) < |s.d.journal|
    ensures var r := s.d.journal[JournalIndex(s.d.journal, AcknowledgeOf(x.checkpoint, slot.slot))];
            var w := RecordSlotSave(s.d, SaveRequest(r.expected, x.checkpoint, slot), x.checkpoint);
            RecordSlot(cfg, s, x, slot, calls) ==
            if w.error != Stored then CheckpointResult(s, StoreFailure(w.error), false)
            else CommitIfComplete(cfg, s.(d := w.d), x, FromWritten(w), calls - 2)
  {
    hide RecordSlotSave, CommitIfComplete, ExactArtifact, JournalIndex;
  }

  lemma ReplayedSave(d: Durable, q: Request, id: Id)
    requires q.content.SlotSave? && q.content.slot.artifact.Some? && q.content.slot.artifact.value.Complete()
    requires JournalIndex(d.journal, q.mutation) < |d.journal| && Storable(q.mutation)
    requires var r := d.journal[JournalIndex(d.journal, q.mutation)];
             q.expected == r.expected && q.payload == r.payload && r.content.SlotSave?
    ensures var r := d.journal[JournalIndex(d.journal, q.mutation)];
            RecordSlotSave(d, q, id) ==
            if r.content == q.content then Written(d, Stored, r.resulting, false, true)
            else Failed(d, IdempotencyConflict)
  {
    hide JournalIndex, CheckpointSlotIndex, Storable;
  }

  /** What a member reports for a slot that has a proof: the same proof is answered as
      it was, and the checkpoint settled; another one is a conflict. */
  lemma KnownSaveAnswer(cfg: Config, s: System, c: SaveReport, i: nat, calls: nat)
    requires Valid(cfg, s) && Reported(cfg, s, c) && calls >= 7
    requires ExactProof(cfg, c.proof, s.v.active.value.identity) && PlacedAt(s.d.slots, c.actor.Record(), i)
    requires c.checkpoint in s.d.checkpoints && i < |s.d.checkpoints[c.checkpoint].slots|
    requires s.d.checkpoints[c.checkpoint].slots[i].artifact.Some?
    ensures var r := RecordSaveOp(cfg, s, c, calls);
            var k := JournalIndex(s.d.journal, AcknowledgeOf(c.checkpoint, c.actor.slot));
            && k < |s.d.journal|
            && if s.d.checkpoints[c.checkpoint].slots[i].artifact != Some(c.proof) then
                 r == CheckpointResult(s, Reply(PersistenceFailure, IdempotencyConflict, 0, false, false), false)
               else Settled(cfg, s, s.v.active.value, Reply(NoError, Stored, s.d.journal[k].resulting, false, true), r)
  {
    hide ReconstructRecovery, Replay, Stands, SlotsApart, MemberSlotIndex, SlotsDistinct, Tracks, TracksActive,
      RecordSaveOp, ExactProof, RecordSlotSave, CommitIfComplete, RecordSlot, Storable, JournalIndex, Settled,
      CheckpointSlots, LoadAggregate;
    var x := s.v.active.value;
    ServiceStands(cfg, s);
    ActiveSlots(cfg, s);
    LooksIdle(cfg, s, calls);
    var slots := s.d.checkpoints[x.checkpoint].slots;
    ListedOnce(cfg, slots, s.d.slots, c.actor);
    SaveReachesSlot(cfg, s, c, calls);
    var slot := slots[i].(artifact := Some(c.proof));
    ActorsSlot(slots, s.d.slots, c.actor, i);
    KnownProofAnswer(cfg, s.d, x, i, c.proof);
    KnownSlotAnswer(cfg, s, x, slot, calls - 2);
    if slots[i].artifact == Some(c.proof) {
      ActiveKept(cfg, s, s.d, x);
      assert s.(d := s.d) == s;
      var k := JournalIndex(s.d.journal, AcknowledgeOf(x.checkpoint, slot.slot));
      ProofsSettle(cfg, s, x, Reply(NoError, Stored, s.d.journal[k].resulting, false, true), calls - 4);
    }
  }

  lemma KnownProofAnswer(cfg: Config, d: Durable, x: CheckpointActivity, i: nat, proof: Artifact)
    requires Stands(cfg, d) && TracksActive(Past(cfg, d), x) && x.checkpoint in d.checkpoints
    requires i < |d.checkpoints[x.checkpoint].slots| && d.checkpoints[x.checkpoint].slots[i].artifact.Some?
    requires ExactProof(cfg, proof, x.identity)
    ensures var slot := d.checkpoints[x.checkpoint].slots[i].(artifact := Some(proof));
            var k := JournalIndex(d.journal, AcknowledgeOf(x.checkpoint, slot.slot));
            && k < |d.journal|
            && RecordSlotSave(d, SaveRequest(d.journal[k].expected, x.checkpoint, slot), x.checkpoint) ==
               if d.checkpoints[x.checkpoint].slots[i].artifact == Some(proof)
               then Written(d, Stored, d.journal[k].resulting, false, true)
               else Failed(d, IdempotencyConflict)
  {
    hide Replay, CheckpointSlots, RecordSlotSave, JournalIndex, CheckpointSlotIndex, ExactProof, Stands, TracksActive,
      Storable;
    StandsAtRevision(cfg, d);
    ActiveUncommitted(cfg, d, x);
    var saved := Past(cfg, d).saved[x.checkpoint];
    var old' := d.checkpoints[x.checkpoint].slots[i];
    assert old' in d.checkpoints[x.checkpoint].slots;
    UnprovenSlot(saved, i);
    ProofIsJournaled(cfg, d.journal, x.checkpoint, old'.slot);
    AcknowledgedContent(cfg, d, x, i);
    ExactIsComplete(cfg, proof, x.identity);
    var k := JournalIndex(d.journal, AcknowledgeOf(x.checkpoint, old'.slot));
    ReplayedSave(d, SaveRequest(d.journal[k].expected, x.checkpoint, old'.(artifact := Some(proof))), x.checkpoint);
  }

  /*
   * Failing
   */

  /** A report that fails the active checkpoint. */
  predicate Fails(cfg: Config, s: System, checkpoint: Id, identity: Id, m: Member, calls: nat) {
    && s.v.active.Some? && Names(cfg, s.v.active.value, checkpoint, identity, m)
    && m.Record() in s.d.slots && calls >= 3
  }

  lemma FailReaches(cfg: Config, s: System, checkpoint: Id, identity: Id, m: Member, calls: nat)
    requires calls >= 1 && ReconstructRecovery(cfg, s, calls) == Gate(s.v, None, calls - 1) && s.v.recovery.None?
    requires s.v.active.Some? ==> s.v.active.value.checkpoint in s.d.checkpoints
    ensures var r := FailCheckpointOp(cfg, s, checkpoint, identity, m, calls);
            && (s.v.active.None? ==>
                  r == CheckpointResult(s, Reply(CheckpointNotActive, Stored, 0, false, false), false))
            && (s.v.active.Some? && !Names(cfg, s.v.active.value, checkpoint, identity, m) ==>
                  r == CheckpointResult(s, Reply(CheckpointMismatch, Stored, 0, false, false), false))
            && (s.v.active.Some? && Names(cfg, s.v.active.value, checkpoint, identity, m) ==>
                  var slots := s.d.checkpoints[checkpoint].slots;
                  r == if calls < 2 then CheckpointResult(s, CALL_FAILED, false)
                       else if MemberSlotIndex(slots, m) == |slots| then
                         CheckpointResult(s, Reply(NotCampaignMember, Stored, 0, false, false), false)
                       else if calls < 3 then CheckpointResult(s, CALL_FAILED, false)
                       else CheckpointResult(s.(v := Volatile(None, None)),
                                             Reply(NoError, Stored, s.d.revision, false, false), false))
  {
    hide ReconstructRecovery, MemberSlotIndex;
    assert s.(v := s.v) == s;
  }

  /** A stored member's report about the active checkpoint fails it; any other report
      says why not. Neither touches the store. */
  lemma FailAnswer(cfg: Config, s: System, checkpoint: Id, identity: Id, m: Member, calls: nat)
    requires Valid(cfg, s) && calls >= 3
    ensures var r := FailCheckpointOp(cfg, s, checkpoint, identity, m, calls);
            if Past(cfg, s.d).open.Some? then
                 r == CheckpointResult(s.(v := Looked(cfg, s)), Reply(RecoveryInProgress, Stored, 0, false, false),
                                       false)
               else if s.v.active.None? then
                 r == CheckpointResult(s, Reply(CheckpointNotActive, Stored, 0, false, false), false)
               else if !Names(cfg, s.v.active.value, checkpoint, identity, m) then
                 r == CheckpointResult(s, Reply(CheckpointMismatch, Stored, 0, false, false), false)
               else if m.Record() !in s.d.slots then
                 r == CheckpointResult(s, Reply(NotCampaignMember, Stored, 0, false, false), false)
               else
                 r == CheckpointResult(s.(v := Volatile(None, None)),
                                       Reply(NoError, Stored, s.d.revision, false, false),
                                       false)
  {
    hide ReconstructRecovery, Replay, InStep, SlotsApart, MemberSlotIndex, SlotsDistinct, FailCheckpointOp,
      TracksActive,
      LoadAggregate, Looked;
    ServiceStands(cfg, s);
    if Past(cfg, s.d).open.Some? {
      FailFenced(cfg, s, checkpoint, identity, m, calls);
    } else {
      LooksIdle(cfg, s, calls);
      if s.v.active.Some? {
        ActiveSlots(cfg, s);
        ListedOnce(cfg, s.d.checkpoints[s.v.active.value.checkpoint].slots, s.d.slots, m);
      }
      FailReaches(cfg, s, checkpoint, identity, m, calls);
      if s.v.active.Some? {
        SlotIndexInRange(s.d.checkpoints[s.v.active.value.checkpoint].slots, m);
      }
    }
  }

  lemma FailFenced(cfg: Config, s: System, checkpoint: Id, identity: Id, m: Member, calls: nat)
    requires Valid(cfg, s) && Past(cfg, s.d).open.Some? && calls >= 2
    ensures var r := FailCheckpointOp(cfg, s, checkpoint, identity, m, calls);
            r == CheckpointResult(s.(v := Looked(cfg, s)), Reply(RecoveryInProgress, Stored, 0, false, false), false)
  {
    hide ReconstructRecovery, Looked, Replay, Valid;
    LooksAlways(cfg, s, calls);
  }
}
