/** An active checkpoint can always be committed by its members' proofs. */
module CheckpointProgress {
  import opened Basics
  import opened CampaignState
  import opened CampaignCoreCodec
  import opened CampaignStore
  import opened CampaignHistory
  import opened RuntimeModel
  import opened RuntimeInvariants
  import opened RuntimeSafety
  import opened RuntimeRuns
  import opened RecoveryTheorems
  import opened OpenAttempt
  import opened RecoveryProgress
  import RosterLoss

  /** How many slots have no proof yet. */
  function Missing(slots: seq<CheckpointSlot>): nat {
    if slots == [] then 0
    else Missing(slots[..|slots| - 1]) + if slots[|slots| - 1].artifact.None? then 1 else 0
  }

  lemma {:induction false} MissingAfterProof(slots: seq<CheckpointSlot>, i: nat, proof: Artifact)
    requires i < |slots| && slots[i].artifact.None?
    ensures Missing(slots[i := slots[i].(artifact := Some(proof))]) == Missing(slots) - 1
    decreases |slots|
  {
    var n := |slots| - 1;
    var next := slots[i := slots[i].(artifact := Some(proof))];
    if i == n {
      assert next[..n] == slots[..n];
    } else {
      MissingAfterProof(slots[..n], i, proof);
      assert next[..n] == slots[..n][i := slots[i].(artifact := Some(proof))];
    }
  }

  lemma {:induction false} FirstMissing(slots: seq<CheckpointSlot>) returns (i: nat)
    ensures Missing(slots) == 0 ==> forall k :: 0 <= k < |slots| ==> slots[k].artifact.Some?
    ensures Missing(slots) > 0 ==> i < |slots| && slots[i].artifact.None?
  {
    i := 0;
    if slots != [] {
      var n := |slots| - 1;
      i := FirstMissing(slots[..n]);
      if Missing(slots[..n]) == 0 {
        i := n;
      }
    }
  }

  /*
   * What the store does with a member's proof
   */

  function SaveRequest(revision: nat, c: Id, s: CheckpointSlot): Request {
    Request(revision, AcknowledgeOf(c, s.slot), SaveSlot(c, s.slot), SlotSave(s))
  }

  lemma NewSaveIsFresh(cfg: Config, d: Durable, x: CheckpointActivity, slot: Id)
    requires Stands(cfg, d) && TracksActive(Past(cfg, d), x) && slot !in Past(cfg, d).saved[x.checkpoint].artifacts
    ensures JournalIndex(d.journal, AcknowledgeOf(x.checkpoint, slot)) == |d.journal|
  {
    hide Replay, CheckpointSlots;
    JournalIsAccounted(cfg, d.journal);
    forall r | r in d.journal ensures r.mutation != AcknowledgeOf(x.checkpoint, slot) {
      assert Accounted(cfg, Past(cfg, d), r);
    }
    FreshMutation(d, AcknowledgeOf(x.checkpoint, slot));
  }

  lemma NewSaveWrites(d: Durable, q: Request, id: Id, i: nat)
    requires q.content.SlotSave? && q.expected == d.revision < MAX_REVISION && id in d.checkpoints
    requires JournalIndex(d.journal, q.mutation) == |d.journal| && Storable(q.mutation)
    requires var s := q.content.slot;
             s.artifact.Some? && s.artifact.value.Complete()
    requires d.checkpoints[id].committedAt.None?
    requires CheckpointSlotIndex(d.checkpoints[id].slots, q.content.slot.slot) == i < |d.checkpoints[id].slots|
    requires d.checkpoints[id].slots[i].Record() == q.content.slot.Record() && d.checkpoints[id].slots[i].artifact.None?
    ensures var w := RecordSlotSave(d, q, id);
            && w.error == Stored && w.d.revision == d.revision + 1
            && id in w.d.checkpoints && w.d.checkpoints[id].slots == d.checkpoints[id].slots[i := q.content.slot]
  {
    hide JournalIndex, CheckpointSlotIndex;
  }

  lemma ExactIsComplete(cfg: Config, proof: Artifact, identity: Id)
    requires ExactProof(cfg, proof, identity) && identity != []
    ensures proof.Complete()
  {
  }

  /** Saved proofs are exact and were stored under texts the store takes. */
  lemma SavedIsExact(cfg: Config, h: History, c: Id)
    requires Sound(cfg, h) && c in h.saved
    ensures Storable(CommitOf(c))
    ensures forall s :: s in CheckpointSlots(h.saved[c]) && s.artifact.Some? ==>
              ExactArtifact(cfg, s, SaveIdentity(c)) && Storable(AcknowledgeOf(c, s.slot))
  {
    hide SoundCampaign, ExactProof;
    assert SoundSaved(cfg, h, c, h.saved[c]);
  }

  lemma ActiveUncommitted(cfg: Config, d: Durable, x: CheckpointActivity)
    requires Stands(cfg, d) && TracksActive(Past(cfg, d), x)
    ensures x.checkpoint in d.checkpoints && d.checkpoints[x.checkpoint].committedAt.None?
    ensures x.checkpoint in Past(cfg, d).saved && ValidRoster(Past(cfg, d).saved[x.checkpoint].campaign.roster)
    ensures Past(cfg, d).saved[x.checkpoint].campaign.roster != []
    ensures d.checkpoints[x.checkpoint].slots == CheckpointSlots(Past(cfg, d).saved[x.checkpoint])
    ensures SlotRecords(d.checkpoints[x.checkpoint].slots) == d.slots
    ensures x.identity == SaveIdentity(x.checkpoint) != [] && Storable(CommitOf(x.checkpoint))
    ensures forall s :: s in d.checkpoints[x.checkpoint].slots && s.artifact.Some? ==>
              ExactArtifact(cfg, s, x.identity) && Storable(AcknowledgeOf(x.checkpoint, s.slot))
  {
    hide Replay, CoreBytes, ImageOf, ExactArtifact, Inv, Sound, SoundCampaign, Storable, CheckpointSlots, ValidRoster;
    ReplayIsSound(cfg, d.journal);
    var h := Past(cfg, d);
    SavedRoster(cfg, h, x.checkpoint);
    SavedRosterIsCurrent(cfg, h, x.checkpoint);
    SavedNotEmpty(cfg, h, x.checkpoint);
    SavedIsExact(cfg, h, x.checkpoint);
    ProvenRecords(h.saved[x.checkpoint]);
  }

  lemma SavedNotEmpty(cfg: Config, h: History, c: Id)
    requires Sound(cfg, h) && c in h.saved && ValidIdentity(cfg.campaign)
    ensures h.saved[c].campaign.roster != []
  {
    hide CoreBytes, ImageOf, Inv;
    assert SoundSaved(cfg, h, c, h.saved[c]);
    SoundEncodes(cfg, h.saved[c].campaign);
  }

  lemma UnprovenSlot(saved: Saved, i: nat)
    requires i < |saved.campaign.roster|
    ensures CheckpointSlots(saved)[i].artifact.None? <==> saved.campaign.roster[i].slot !in saved.artifacts
    ensures CheckpointSlots(saved)[i].slot == saved.campaign.roster[i].slot
  {
  }

  /** A member's first proof is stored, under the next revision. */
  lemma NewProofSaved(cfg: Config, d: Durable, x: CheckpointActivity, i: nat, proof: Artifact)
    requires Stands(cfg, d) && TracksActive(Past(cfg, d), x) && d.revision < MAX_REVISION
    requires x.checkpoint in d.checkpoints && i < |d.checkpoints[x.checkpoint].slots|
    requires d.checkpoints[x.checkpoint].slots[i].artifact.None? && ExactProof(cfg, proof, x.identity)
    requires Storable(AcknowledgeOf(x.checkpoint, d.checkpoints[x.checkpoint].slots[i].slot))
    ensures var slots := d.checkpoints[x.checkpoint].slots;
            var slot := slots[i].(artifact := Some(proof));
            var w := RecordSlotSave(d, SaveRequest(d.revision, x.checkpoint, slot), x.checkpoint);
            && JournalIndex(d.journal, AcknowledgeOf(x.checkpoint, slot.slot)) == |d.journal|
            && w.error == Stored && Stands(cfg, w.d) && TracksActive(Past(cfg, w.d), x)
            && w.d.revision == d.revision + 1 && x.checkpoint in w.d.checkpoints
            && w.d.checkpoints[x.checkpoint].slots == slots[i := slot]
  {
    hide Replay, CheckpointSlots, RecordSlotSave, JournalIndex, CheckpointSlotIndex, ExactProof;
    StandsAtRevision(cfg, d);
    ActiveUncommitted(cfg, d, x);
    var saved := Past(cfg, d).saved[x.checkpoint];
    var slots := d.checkpoints[x.checkpoint].slots;
    var slot := slots[i].(artifact := Some(proof));
    UnprovenSlot(saved, i);
    NewSaveIsFresh(cfg, d, x, slot.slot);
    SlotIndexIsUnique(saved, i);
    ExactIsComplete(cfg, proof, x.identity);
    SlotSaveKeeps(cfg, d, x, i, proof);
    NewSaveWrites(d, SaveRequest(d.revision, x.checkpoint, slot), x.checkpoint, i);
  }

  lemma KnownSaveStays(d: Durable, q: Request, id: Id, i: nat)
    requires q.content.SlotSave? && d.revision < MAX_REVISION && id in d.checkpoints
    requires q.content.slot.artifact.Some? && q.content.slot.artifact.value.Complete() && Storable(q.mutation)
    requires d.checkpoints[id].committedAt.None?
    requires CheckpointSlotIndex(d.checkpoints[id].slots, q.content.slot.slot) == i < |d.checkpoints[id].slots|
    requires d.checkpoints[id].slots[i] == q.content.slot
    requires var k := JournalIndex(d.journal, q.mutation);
             if k < |d.journal|
             then q.expected == d.journal[k].expected && q.payload == d.journal[k].payload
                  && q.content == d.journal[k].content
             else k == |d.journal| && q.expected == d.revision
    ensures var w := RecordSlotSave(d, q, id); w.error == Stored && w.d == d
  {
    hide JournalIndex, CheckpointSlotIndex;
  }

  lemma AcknowledgedContent(cfg: Config, d: Durable, x: CheckpointActivity, i: nat)
    requires Stands(cfg, d) && TracksActive(Past(cfg, d), x)
    requires x.checkpoint in d.checkpoints && i < |d.checkpoints[x.checkpoint].slots|
    requires d.checkpoints[x.checkpoint].slots[i].artifact.Some?
    ensures var slot := d.checkpoints[x.checkpoint].slots[i];
            var k := JournalIndex(d.journal, AcknowledgeOf(x.checkpoint, slot.slot));
            k < |d.journal| ==>
              d.journal[k].payload == SaveSlot(x.checkpoint, slot.slot) && d.journal[k].content == SlotSave(slot)
  {
    hide Replay;
    ActiveUncommitted(cfg, d, x);
    JournalIsAccounted(cfg, d.journal);
    var saved := Past(cfg, d).saved[x.checkpoint];
    var slot := d.checkpoints[x.checkpoint].slots[i];
    var k := JournalIndex(d.journal, AcknowledgeOf(x.checkpoint, slot.slot));
    if k < |d.journal| {
      var r := d.journal[k];
      assert Accounted(cfg, Past(cfg, d), r);
      var j :| 0 <= j < |CheckpointSlots(saved)| && CheckpointSlots(saved)[j] == r.content.slot;
      SlotIndexIsUnique(saved, i);
      SlotIndexIsUnique(saved, j);
    }
  }

  /** The proof a member gave before is accepted again and changes nothing. */
  lemma KnownProofSaved(cfg: Config, d: Durable, x: CheckpointActivity, i: nat)
    requires Stands(cfg, d) && TracksActive(Past(cfg, d), x) && d.revision < MAX_REVISION
    requires x.checkpoint in d.checkpoints && i < |d.checkpoints[x.checkpoint].slots|
    requires d.checkpoints[x.checkpoint].slots[i].artifact.Some?
    ensures var slot := d.checkpoints[x.checkpoint].slots[i];
            var k := JournalIndex(d.journal, AcknowledgeOf(x.checkpoint, slot.slot));
            var expected := if k < |d.journal| then d.journal[k].expected else d.revision;
            var w := RecordSlotSave(d, SaveRequest(expected, x.checkpoint, slot), x.checkpoint);
            w.error == Stored && w.d == d
  {
    hide Replay, CheckpointSlots, RecordSlotSave, JournalIndex, CheckpointSlotIndex, ExactProof;
    ActiveUncommitted(cfg, d, x);
    var saved := Past(cfg, d).saved[x.checkpoint];
    var slot := d.checkpoints[x.checkpoint].slots[i];
    var k := JournalIndex(d.journal, AcknowledgeOf(x.checkpoint, slot.slot));
    UnprovenSlot(saved, i);
    SlotIndexIsUnique(saved, i);
    assert slot in d.checkpoints[x.checkpoint].slots;
    ExactIsComplete(cfg, slot.artifact.value, x.identity);
    AcknowledgedContent(cfg, d, x, i);
    IndexIsBounded(d.journal, AcknowledgeOf(x.checkpoint, slot.slot));
    KnownSaveStays(d, SaveRequest(if k < |d.journal| then d.journal[k].expected else d.revision, x.checkpoint, slot),
                   x.checkpoint, i);
  }

  lemma CommitWrites(d: Durable, q: Request, id: Id)
    requires q.expected == d.revision < MAX_REVISION && id in d.checkpoints && d.checkpoints[id].committedAt.None?
    requires JournalIndex(d.journal, q.mutation) == |d.journal| && Storable(q.mutation)
    requires forall s :: s in d.checkpoints[id].slots ==> s.artifact.Some? && s.artifact.value.Complete()
    ensures var w := CommitCandidate(d, q, id);
            w.error == Stored && w.d.lastCommitted == Some(id) && w.d.revision == d.revision + 1
  {
  }

  /** With every slot proven the commit succeeds. */
  lemma CommitGoes(cfg: Config, d: Durable, x: CheckpointActivity)
    requires Stands(cfg, d) && TracksActive(Past(cfg, d), x) && d.revision < MAX_REVISION
             && x.checkpoint in d.checkpoints
    requires forall s :: s in d.checkpoints[x.checkpoint].slots ==> s.artifact.Some?
    ensures var w := CommitCandidate(d, CommitRequest(d.revision, x.checkpoint), x.checkpoint);
            && w.error == Stored && w.d.lastCommitted == Some(x.checkpoint) && w.d.revision == d.revision + 1
            && Stands(cfg, w.d) && Past(cfg, w.d).open.None?
  {
    hide Replay, CheckpointSlots, ExactProof, CommitCandidate;
    ActiveUncommitted(cfg, d, x);
    CommitStands(cfg, d, x);
    JournalIsAccounted(cfg, d.journal);
    FreshMutation(d, CommitOf(x.checkpoint));
    forall s | s in d.checkpoints[x.checkpoint].slots ensures s.artifact.Some? && s.artifact.value.Complete() {
      ExactIsComplete(cfg, s.artifact.value, x.identity);
    }
    CommitWrites(d, CommitRequest(d.revision, x.checkpoint), x.checkpoint);
  }

  /*
   * What the service does with it
   */

  /** Every acknowledgement of a checkpoint has a text the store takes. */
  predicate NamesFit(d: Durable, c: Id) {
    forall i :: 0 <= i < |d.slots| ==> Storable(AcknowledgeOf(c, d.slots[i].slot))
  }

  /** An active checkpoint, with revisions left for its missing proofs and its commit. */
  ghost predicate Collecting(cfg: Config, s: System) {
    && Valid(cfg, s) && s.v.active.Some? && s.v.active.value.checkpoint in s.d.checkpoints
    && s.d.revision + Missing(s.d.checkpoints[s.v.active.value.checkpoint].slots) + 1 <= MAX_REVISION
  }

  lemma CommitsWhenProven(cfg: Config, s: System, x: CheckpointActivity, reply: Reply, calls: nat)
    requires InStep(cfg, s) && s.v == Volatile(Some(x), None) && x.checkpoint in s.d.checkpoints && calls >= 3
    requires s.d.revision < MAX_REVISION
    ensures var r := CommitIfComplete(cfg, s, x, reply, calls);
            if forall y :: y in s.d.checkpoints[x.checkpoint].slots ==> y.artifact.Some?
            then && r.committed && r.s.v == Volatile(None, None) && r.s.d.lastCommitted == Some(x.checkpoint)
                 && r.s.d.revision == s.d.revision + 1 && Stands(cfg, r.s.d) && Past(cfg, r.s.d).open.None?
            else r.s == s
  {
    hide Replay, Stands, CommitCandidate, ExactArtifact, TracksActive, SlotRecords;
    ActiveUncommitted(cfg, s.d, x);
    StandsAtRevision(cfg, s.d);
    var slots := s.d.checkpoints[x.checkpoint].slots;
    if forall y :: y in slots ==> y.artifact.Some? {
      CommitGoes(cfg, s.d, x);
    } else {
      var y :| y in slots && y.artifact.None?;
      assert !ExactArtifact(cfg, y, x.identity) by {
        NoProofIsNotExact(cfg, y, x.identity);
      }
    }
  }

  lemma NoProofIsNotExact(cfg: Config, y: CheckpointSlot, identity: Id)
    requires y.artifact.None?
    ensures !ExactArtifact(cfg, y, identity)
  {
  }

  /** The proof reported for a slot: the one it has, or an exact one for a slot without. */
  predicate Suits(cfg: Config, slot: CheckpointSlot, proof: Artifact, identity: Id) {
    if slot.artifact.Some? then slot.artifact == Some(proof) else ExactProof(cfg, proof, identity)
  }

  /** The revision the service names when it records a slot's proof. */
  function SaveExpects(d: Durable, c: Id, slot: Id): nat {
    var k := JournalIndex(d.journal, AcknowledgeOf(c, slot));
    if k < |d.journal| then d.journal[k].expected else d.revision
  }

  lemma SlotIsSaved(cfg: Config, s: System, x: CheckpointActivity, i: nat, proof: Artifact)
    requires Collecting(cfg, s) && s.v == Volatile(Some(x), None)
    requires i < |s.d.checkpoints[x.checkpoint].slots|
             && Suits(cfg, s.d.checkpoints[x.checkpoint].slots[i], proof, x.identity)
    requires Storable(AcknowledgeOf(x.checkpoint, s.d.checkpoints[x.checkpoint].slots[i].slot))
    ensures var slots := s.d.checkpoints[x.checkpoint].slots;
            var slot := slots[i].(artifact := Some(proof));
            var w := RecordSlotSave(s.d, SaveRequest(SaveExpects(s.d, x.checkpoint, slot.slot), x.checkpoint, slot),
                                    x.checkpoint);
            && ExactArtifact(cfg, slot, x.identity)
            && w.error == Stored && InStep(cfg, s.(d := w.d)) && x.checkpoint in w.d.checkpoints
            && w.d.checkpoints[x.checkpoint].slots == slots[i := slot] && w.d.revision < MAX_REVISION
            && w.d.revision == s.d.revision + (if slots[i].artifact.None? then 1 else 0)
  {
    hide Replay, Stands, RecordSlotSave, ExactArtifact, TracksActive, SlotRecords, JournalIndex, SlotsApart, Missing,
      Storable, Suits, ExactProof;
    StandsAtRevision(cfg, s.d);
    ActiveUncommitted(cfg, s.d, x);
    var slots := s.d.checkpoints[x.checkpoint].slots;
    var slot := slots[i].(artifact := Some(proof));
    SuitsIsExact(cfg, slots, i, proof, x.identity);
    IndexIsBounded(s.d.journal, AcknowledgeOf(x.checkpoint, slot.slot));
    if slots[i].artifact.None? {
      NewProofSaved(cfg, s.d, x, i, proof);
      EnoughRoom(slots, i);
    } else {
      assert slots[i := slot] == slots && slot == slots[i];
      KnownProofSaved(cfg, s.d, x, i);
    }
  }

  lemma SavedThenCommits(cfg: Config, s: System, x: CheckpointActivity, slot: CheckpointSlot, calls: nat)
    requires ExactArtifact(cfg, slot, x.identity) && calls >= 6
    requires RecordSlotSave(s.d, SaveRequest(SaveExpects(s.d, x.checkpoint, slot.slot), x.checkpoint, slot),
                            x.checkpoint).error == Stored
    ensures var w := RecordSlotSave(s.d, SaveRequest(SaveExpects(s.d, x.checkpoint, slot.slot), x.checkpoint, slot),
                                    x.checkpoint);
            exists left: nat ::
              && left >= 3
              && RecordSlot(cfg, s, x, slot, calls) == CommitIfComplete(cfg, s.(d := w.d), x, FromWritten(w), left)
  {
    hide RecordSlotSave, CommitIfComplete, ExactArtifact, JournalIndex;
    IndexIsBounded(s.d.journal, AcknowledgeOf(x.checkpoint, slot.slot));
    var used := if JournalIndex(s.d.journal, AcknowledgeOf(x.checkpoint, slot.slot)) < |s.d.journal| then 1 else 2;
    var w := RecordSlotSave(s.d, SaveRequest(SaveExpects(s.d, x.checkpoint, slot.slot), x.checkpoint, slot),
                            x.checkpoint);
    assert RecordSlot(cfg, s, x, slot, calls) ==
           CommitIfComplete(cfg, s.(d := w.d), x, FromWritten(w), calls - used - 1);
  }

  lemma SlotGoes(cfg: Config, s: System, x: CheckpointActivity, i: nat, proof: Artifact, calls: nat)
    requires Collecting(cfg, s) && s.v == Volatile(Some(x), None) && calls >= 6
    requires i < |s.d.checkpoints[x.checkpoint].slots|
             && Suits(cfg, s.d.checkpoints[x.checkpoint].slots[i], proof, x.identity)
    requires Storable(AcknowledgeOf(x.checkpoint, s.d.checkpoints[x.checkpoint].slots[i].slot))
    ensures var slots := s.d.checkpoints[x.checkpoint].slots;
            var slot := slots[i].(artifact := Some(proof));
            var r := RecordSlot(cfg, s, x, slot, calls);
            var written := if slots[i].artifact.None? then 1 else 0;
            if forall y :: y in slots[i := slot] ==> y.artifact.Some?
            then && r.committed && r.s.v == Volatile(None, None) && r.s.d.lastCommitted == Some(x.checkpoint)
                 && r.s.d.revision == s.d.revision + written + 1 && Stands(cfg, r.s.d) && Past(cfg, r.s.d).open.None?
            else && r.s.v == s.v && x.checkpoint in r.s.d.checkpoints
                 && r.s.d.checkpoints[x.checkpoint].slots == slots[i := slot]
                 && r.s.d.revision == s.d.revision + written
  {
    SlotIsSaved(cfg, s, x, i, proof);
    hide Replay, InStep, RecordSlotSave, RecordSlot, CommitIfComplete, ExactArtifact, SaveExpects, Stands, Storable,
      Suits, ExactProof, Collecting;
    var slot := s.d.checkpoints[x.checkpoint].slots[i].(artifact := Some(proof));
    var w := RecordSlotSave(s.d, SaveRequest(SaveExpects(s.d, x.checkpoint, slot.slot), x.checkpoint, slot),
                            x.checkpoint);
    SavedThenCommits(cfg, s, x, slot, calls);
    var left: nat :| left >= 3 && RecordSlot(cfg, s, x, slot, calls) ==
                                  CommitIfComplete(cfg, s.(d := w.d), x, FromWritten(w), left);
    CommitsWhenProven(cfg, s.(d := w.d), x, FromWritten(w), left);
  }

  lemma SuitsIsExact(cfg: Config, slots: seq<CheckpointSlot>, i: nat, proof: Artifact, identity: Id)
    requires i < |slots| && Suits(cfg, slots[i], proof, identity)
    requires forall s :: s in slots && s.artifact.Some? ==> ExactArtifact(cfg, s, identity)
    ensures ExactArtifact(cfg, slots[i].(artifact := Some(proof)), identity)
    ensures slots[i].artifact.None? ==> ExactProof(cfg, proof, identity)
    ensures slots[i].artifact.Some? ==> slots[i].artifact == Some(proof)
  {
    assert slots[i] in slots;
  }

  lemma EnoughRoom(slots: seq<CheckpointSlot>, i: nat)
    requires i < |slots| && slots[i].artifact.None?
    ensures Missing(slots) >= 1
  {
    MissingAfterProof(slots, i, Artifact([], [], 0, [], 0, []));
  }

  lemma AllProvenIff(slots: seq<CheckpointSlot>)
    ensures Missing(slots) == 0 <==> forall y :: y in slots ==> y.artifact.Some?
  {
    var i := FirstMissing(slots);
    if Missing(slots) == 0 {
      forall y | y in slots ensures y.artifact.Some? {
      }
    } else {
      assert slots[i] in slots;
    }
  }

  lemma SaveReaches(cfg: Config, s: System, x: CheckpointActivity, c: SaveReport, i: nat)
    requires var g := ReconstructRecovery(cfg, s, PLENTY);
             g.failure.None? && g.v == s.v && g.left >= PLENTY - 1
    requires s.v == Volatile(Some(x), None) && x.checkpoint in s.d.checkpoints
    requires ReportMatches(cfg, x, c.checkpoint, c.proof.identity, c.actor)
    requires MemberSlotIndex(s.d.checkpoints[x.checkpoint].slots, c.actor) == i < |s.d.checkpoints[x.checkpoint].slots|
    ensures var left := ReconstructRecovery(cfg, s, PLENTY).left;
            RecordSaveOp(cfg, s, c, PLENTY) ==
            RecordSlot(cfg, s, x, s.d.checkpoints[x.checkpoint].slots[i].(artifact := Some(c.proof)), left - 1)
  {
    hide ReconstructRecovery, RecordSlot, MemberSlotIndex;
  }

  lemma ActiveIsAlone(cfg: Config, s: System)
    requires Valid(cfg, s) && s.v.active.Some?
    ensures s.v == Volatile(s.v.active, None) && TracksActive(Past(cfg, s.d), s.v.active.value)
    ensures Past(cfg, s.d).open.None? && s.d.sealed && SlotsDistinct(s.d.slots)
  {
    hide Replay, SlotsApart, CoreBytes, ImageOf, SlotsDistinct;
    ReplayIsSound(cfg, s.d.journal);
    SavedRosterIsCurrent(cfg, Past(cfg, s.d), s.v.active.value.checkpoint);
    RosterSlotsDistinct(Past(cfg, s.d).campaign);
  }

  /** The slot to report for: one without a proof, or any if none is missing. */
  lemma NextProof(cfg: Config, s: System, proof: Artifact) returns (i: nat, given: Artifact)
    requires Collecting(cfg, s) && ExactProof(cfg, proof, s.v.active.value.identity)
    requires NamesFit(s.d, s.v.active.value.checkpoint)
    ensures var x := s.v.active.value;
            var slots := s.d.checkpoints[x.checkpoint].slots;
            && i < |slots| && i < |s.d.slots| && Suits(cfg, slots[i], given, x.identity) && given.identity == x.identity
            && Storable(AcknowledgeOf(x.checkpoint, slots[i].slot))
            && (Missing(slots) > 0 <==> slots[i].artifact.None?)
            && MemberSlotIndex(slots, MemberAt(cfg, s.d.slots, i)) == i
  {
    hide Replay, Stands, ExactProof, TracksActive, SlotRecords, SlotsApart, Missing, MemberSlotIndex, SlotsDistinct,
      Tracks, Storable, ExactArtifact;
    var x := s.v.active.value;
    var slots := s.d.checkpoints[x.checkpoint].slots;
    StandsAtRevision(cfg, s.d);
    ActiveIsAlone(cfg, s);
    ActiveUncommitted(cfg, s.d, x);
    i := FirstMissing(slots);
    if Missing(slots) == 0 {
      i := 0;
      assert slots[0] in slots;
    }
    given := if slots[i].artifact.Some? then slots[i].artifact.value else proof;
    MemberIsListed(cfg, slots, s.d.slots, i);
    assert Storable(AcknowledgeOf(x.checkpoint, s.d.slots[i].slot));
    ProofNamesSave(cfg, slots, i, given, x.identity);
  }

  /** A report for a slot reaches its record. */
  lemma ReportReaches(cfg: Config, s: System, i: nat, given: Artifact) returns (left: nat)
    requires Collecting(cfg, s) && i < |s.d.checkpoints[s.v.active.value.checkpoint].slots| && i < |s.d.slots|
    requires given.identity == s.v.active.value.identity
    requires MemberSlotIndex(s.d.checkpoints[s.v.active.value.checkpoint].slots, MemberAt(cfg, s.d.slots, i)) == i
    ensures var x := s.v.active.value;
            && s.v == Volatile(Some(x), None) && s.d.sealed && left >= 6
            && RecordSaveOp(cfg, s, SaveReport(x.checkpoint, MemberAt(cfg, s.d.slots, i), given), PLENTY) ==
               RecordSlot(cfg, s, x, s.d.checkpoints[x.checkpoint].slots[i].(artifact := Some(given)), left)
  {
    hide Replay, Stands, RecordSlot, TracksActive, SlotsApart, Missing, RecordSaveOp, MemberSlotIndex,
      ReconstructRecovery, SlotsDistinct, Tracks;
    var x := s.v.active.value;
    ActiveIsAlone(cfg, s);
    ValidIsConsistent(cfg, s);
    RosterLoss.NoGateWhenIdle(cfg, s, PLENTY);
    SaveReaches(cfg, s, x, SaveReport(x.checkpoint, MemberAt(cfg, s.d.slots, i), given), i);
    left := ReconstructRecovery(cfg, s, PLENTY).left - 1;
  }

  /** What the report leaves missing. */
  lemma OneFewerMissing(slots: seq<CheckpointSlot>, i: nat, given: Artifact)
    requires i < |slots| && (Missing(slots) > 0 <==> slots[i].artifact.None?)
    requires slots[i].artifact.Some? ==> slots[i].artifact == Some(given)
    ensures var next := slots[i := slots[i].(artifact := Some(given))];
            && Missing(next) == (if Missing(slots) > 0 then Missing(slots) - 1 else 0)
            && (Missing(next) == 0 <==> forall y :: y in next ==> y.artifact.Some?)
  {
    var next := slots[i := slots[i].(artifact := Some(given))];
    AllProvenIff(next);
    if slots[i].artifact.None? {
      MissingAfterProof(slots, i, given);
    } else {
      assert next == slots;
    }
  }

  /** One more report: a missing proof, or a repeated one when none is missing. */
  lemma SaveStep(cfg: Config, s: System, proof: Artifact) returns (step: Step)
    requires Collecting(cfg, s) && ExactProof(cfg, proof, s.v.active.value.identity)
    requires NamesFit(s.d, s.v.active.value.checkpoint)
    ensures step.DoRecordSave? && step.save.checkpoint == s.v.active.value.checkpoint
    ensures var next := Exec(cfg, s, step);
            var x := s.v.active.value;
            var missing := Missing(s.d.checkpoints[x.checkpoint].slots);
            && next.d.slots == s.d.slots
            && if missing <= 1
               then Idle(cfg, next) && next.d.lastCommitted == Some(x.checkpoint)
                    && next.d.revision == s.d.revision + missing + 1
               else next.v.active == s.v.active && Collecting(cfg, next) && next.d.revision == s.d.revision + 1
                    && Missing(next.d.checkpoints[x.checkpoint].slots) == missing - 1
  {
    hide InStep, RecordSlot, ExactProof, SlotsApart, Missing, RecordSaveOp, MemberSlotIndex, Storable, NamesFit, Replay;
    var x := s.v.active.value;
    var i, given := NextProof(cfg, s, proof);
    var left := ReportReaches(cfg, s, i, given);
    step := DoRecordSave(SaveReport(x.checkpoint, MemberAt(cfg, s.d.slots, i), given), PLENTY);
    SlotGoes(cfg, s, x, i, given, left);
    StepKeeps(cfg, s, step);
    OneFewerMissing(s.d.checkpoints[x.checkpoint].slots, i, given);
  }

  lemma ProofNamesSave(cfg: Config, slots: seq<CheckpointSlot>, i: nat, proof: Artifact, identity: Id)
    requires i < |slots| && Suits(cfg, slots[i], proof, identity)
    requires forall s :: s in slots && s.artifact.Some? ==> ExactArtifact(cfg, s, identity)
    ensures proof.identity == identity
  {
    assert slots[i] in slots;
  }

  /** An active checkpoint can be committed from any state it is active in: the members'
      missing proofs, or one repeated proof if none is missing, commit it, as long as
      revisions are left for the proofs and the commit and the store takes the texts of
      its acknowledgements. */
  lemma {:induction false} CheckpointCanCommit(cfg: Config, s: System, proof: Artifact) returns (steps: seq<Step>)
    requires Collecting(cfg, s) && ExactProof(cfg, proof, s.v.active.value.identity)
    requires NamesFit(s.d, s.v.active.value.checkpoint)
    ensures var c := s.v.active.value.checkpoint;
            var missing := Missing(s.d.checkpoints[c].slots);
            && |steps| == (if missing == 0 then 1 else missing)
            && (forall i :: 0 <= i < |steps| ==> steps[i].DoRecordSave? && steps[i].save.checkpoint == c)
            && Idle(cfg, Run(cfg, s, steps)) && Run(cfg, s, steps).d.lastCommitted == Some(c)
            && Run(cfg, s, steps).d.revision == s.d.revision + missing + 1 && Run(cfg, s, steps).d.slots == s.d.slots
    decreases Missing(s.d.checkpoints[s.v.active.value.checkpoint].slots)
  {
    hide Valid, ExactProof, Exec, Missing, Idle, Storable;
    var first := SaveStep(cfg, s, proof);
    var next := Exec(cfg, s, first);
    var rest: seq<Step> := [];
    if Missing(s.d.checkpoints[s.v.active.value.checkpoint].slots) > 1 {
      rest := CheckpointCanCommit(cfg, next, proof);
    }
    steps := [first] + rest;
    RunCons(cfg, s, first, rest);
  }

  /*
   * When it cannot
   */

  /** The writes a checkpoint still needs. */
  function Owed(saved: Saved): nat {
    Missing(CheckpointSlots(saved)) + if saved.committedAt.None? then 1 else 0
  }

  /** Every write a checkpoint needs takes a revision. */
  lemma OwedStep(cfg: Config, h: History, r: Record, c: Id)
    requires Sound(cfg, h) && Next(cfg, h, r).Some? && c in h.saved
    ensures var next := Next(cfg, h, r).value;
            c in next.saved && h.revision + Owed(h.saved[c]) <= next.revision + Owed(next.saved[c])
  {
    hide CoreBytes, ImageOf, IntentBytes, Apply, CheckpointSlots, Missing, Sound, SoundCampaign, ExactProof;
    var next := Next(cfg, h, r).value;
    if r.payload.SaveSlot? && r.payload.checkpoint == c {
      SavedRoster(cfg, h, c);
      SaveOwes(h.saved[c], r.content.slot);
    } else if r.payload.CommitCheckpoint? && r.payload.checkpoint == c {
      CommitKeepsSlots(h.saved[c], r.resulting);
    }
  }

  lemma SaveOwes(saved: Saved, slot: CheckpointSlot)
    requires ValidRoster(saved.campaign.roster) && slot.Record() in Records(saved.campaign.roster)
    requires slot.slot !in saved.artifacts && slot.artifact.Some?
    ensures Owed(saved.(artifacts := saved.artifacts[slot.slot := slot.artifact.value])) == Owed(saved) - 1
  {
    hide CheckpointSlots, Missing;
    var i :| 0 <= i < |saved.campaign.roster| && Records(saved.campaign.roster)[i] == slot.Record();
    UnprovenSlot(saved, i);
    ProofInPlace(saved, i, slot.artifact.value);
    MissingAfterProof(CheckpointSlots(saved), i, slot.artifact.value);
  }

  lemma {:induction false} OwedInJournal(cfg: Config, journal: seq<Record>, n: nat, c: Id)
    requires 0 < n <= |journal| && Replay(cfg, journal).Some?
    requires Replay(cfg, journal[..n]).Some? && c in Replay(cfg, journal[..n]).value.saved
    ensures var h, last := Replay(cfg, journal[..n]).value, Replay(cfg, journal).value;
            c in last.saved && h.revision + Owed(h.saved[c]) <= last.revision + Owed(last.saved[c])
    decreases |journal|
  {
    hide Next, Created, Owed, Sound;
    if n == |journal| {
      assert journal[..n] == journal;
    } else {
      var front := journal[..|journal| - 1];
      assert front[..n] == journal[..n];
      OwedInJournal(cfg, front, n, c);
      ReplayIsSound(cfg, front);
      OwedStep(cfg, Replay(cfg, front).value, journal[|journal| - 1], c);
    }
  }

  /** After these steps the checkpoint is the one a recovery would restore. */
  ghost predicate Commits(cfg: Config, s: System, steps: seq<Step>, c: Id) {
    Valid(cfg, Run(cfg, s, steps)) && Run(cfg, s, steps).d.lastCommitted == Some(c)
  }

  /** A committed checkpoint has every proof, each under a text the store took. */
  lemma CommittedFits(cfg: Config, d: Durable, c: Id)
    requires Stands(cfg, d) && d.lastCommitted == Some(c)
    ensures NamesFit(d, c) && c in Past(cfg, d).saved && Owed(Past(cfg, d).saved[c]) == 0
  {
    hide Replay, CoreBytes, ImageOf, ExactProof, SoundCampaign, Storable, Missing, CheckpointSlots;
    ReplayIsSound(cfg, d.journal);
    var h := Past(cfg, d);
    assert SoundSaved(cfg, h, c, h.saved[c]);
    forall i | 0 <= i < |d.slots| ensures Storable(AcknowledgeOf(c, d.slots[i].slot)) {
      assert d.slots[i] == Records(h.saved[c].campaign.roster)[i];
      assert d.slots[i].slot in SlotIds(h.saved[c].campaign);
    }
    ProofsAreExact(cfg, h, c);
    AllProvenIff(CheckpointSlots(h.saved[c]));
  }

  lemma ActiveOwes(cfg: Config, d: Durable, x: CheckpointActivity)
    requires Stands(cfg, d) && TracksActive(Past(cfg, d), x) && x.checkpoint in d.checkpoints
    ensures x.checkpoint in Past(cfg, d).saved
    ensures Owed(Past(cfg, d).saved[x.checkpoint]) == Missing(d.checkpoints[x.checkpoint].slots) + 1
  {
    hide Replay;
    ActiveUncommitted(cfg, d, x);
  }

  lemma CommittedOwes(cfg: Config, s: System, steps: seq<Step>)
    requires Valid(cfg, s) && s.v.active.Some? && s.v.active.value.checkpoint in s.d.checkpoints
    requires Commits(cfg, s, steps, s.v.active.value.checkpoint)
    ensures NamesFit(s.d, s.v.active.value.checkpoint)
    ensures s.d.revision + Missing(s.d.checkpoints[s.v.active.value.checkpoint].slots) + 1 <= MAX_REVISION
  {
    hide Run, Replay, Stands, SlotsApart, Missing, Owed, TracksActive, NamesFit, SlotsDistinct;
    var x := s.v.active.value;
    var last := Run(cfg, s, steps);
    ActiveIsAlone(cfg, s);
    ValidStandsHere(cfg, s);
    ValidStandsHere(cfg, last);
    RunExtends(cfg, s, steps);
    CommittedFits(cfg, last.d, x.checkpoint);
    NamesFitAlike(s.d, last.d, x.checkpoint);
    ActiveOwes(cfg, s.d, x);
    NeverEmpty(cfg, s.d.journal);
    assert last.d.journal[..|s.d.journal|] == s.d.journal;
    OwedInJournal(cfg, last.d.journal, |s.d.journal|, x.checkpoint);
    StandsAtRevision(cfg, s.d);
    StandsAtRevision(cfg, last.d);
  }

  lemma NamesFitAlike(d: Durable, next: Durable, c: Id)
    requires NamesFit(next, c) && next.slots == d.slots
    ensures NamesFit(d, c)
  {
  }

  /** An active checkpoint whose members have exact proofs can be committed by some run
      exactly when the store takes the texts of all its acknowledgements and has a
      revision left for each missing proof and for the commit. */
  lemma CommitIff(cfg: Config, s: System, proof: Artifact)
    requires Valid(cfg, s) && s.v.active.Some? && s.v.active.value.checkpoint in s.d.checkpoints
    requires ExactProof(cfg, proof, s.v.active.value.identity)
    ensures var c := s.v.active.value.checkpoint;
            (exists steps :: Commits(cfg, s, steps, c)) <==>
            NamesFit(s.d, c) && s.d.revision + Missing(s.d.checkpoints[c].slots) + 1 <= MAX_REVISION
  {
    hide Run, Valid, ExactProof, NamesFit, Missing, Idle;
    var c := s.v.active.value.checkpoint;
    if NamesFit(s.d, c) && s.d.revision + Missing(s.d.checkpoints[c].slots) + 1 <= MAX_REVISION {
      var steps := CheckpointCanCommit(cfg, s, proof);
      IdleIsValid(cfg, Run(cfg, s, steps));
      assert Commits(cfg, s, steps, c);
    } else {
      forall steps | Commits(cfg, s, steps, c) ensures false {
        CommittedOwes(cfg, s, steps);
      }
    }
  }

  lemma IdleIsValid(cfg: Config, s: System)
    requires Idle(cfg, s)
    ensures Valid(cfg, s)
  {
  }
}
