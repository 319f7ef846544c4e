/** Every operation of the service, whatever it answers and wherever a store call
    fails, keeps the store consistent with its journal and the volatile state
    consistent with the store. */
module RuntimeSafety {
  import opened Basics
  import opened CampaignState
  import opened FullRoster
  import opened CampaignCoreCodec
  import opened CampaignStore
  import opened CampaignHistory
  import opened RuntimeModel
  import opened OperationShapes
  import opened RuntimeInvariants
  import opened RecoveryRebuild

  /** An active checkpoint is an uncommitted candidate of the campaign as it still is. */
  ghost predicate TracksActive(h: History, x: CheckpointActivity) {
    && h.open.None?
    && x.checkpoint in h.saved && h.saved[x.checkpoint].committedAt.None?
    && x.identity == SaveIdentity(x.checkpoint) && x.source == h.saved[x.checkpoint].campaign.version
    && Current(h) == h.saved[x.checkpoint].campaign.(version := h.revision)
  }

  /** A recovery activity is the journaled attempt, with barriers that are at most
      as far as the journal, and empty while the attempt is locked. */
  ghost predicate TracksRecovery(h: History, a: RecoveryActivity) {
    && h.open.Some?
    && var o := h.open.value;
       && a.attempt == o.entry
       && a.durableLoaded == o.loaded && a.durableApplied == o.applied
       && a.loaded <= o.loaded && a.applied <= o.applied
       && a.restore == (if o.restored then Some(o.entry + 1) else None)
       && (a.checkpoint.Some? ==>
             && a.checkpoint == h.lastCommitted && a.checkpoint.value in h.saved
             && a.source == h.saved[a.checkpoint.value].campaign.version)
       && (o.loaded != {} || o.restored || a.stage != RecoveryLock ==> a.checkpoint.Some?)
       && (a.stage == RecoveryLock ==> a.loaded == {})
       && (a.stage != ApplyingSnapshot ==> a.applied == {})
       && (a.stage == ApplyingSnapshot ==> o.restored)
  }

  ghost predicate Tracks(h: History, v: Volatile) {
    && (v.active.Some? ==> TracksActive(h, v.active.value) && v.recovery.None?)
    && (v.recovery.Some? ==> TracksRecovery(h, v.recovery.value))
  }

  /** The volatile state is in step with a store that is in step with its journal. */
  ghost predicate InStep(cfg: Config, s: System) {
    Stands(cfg, s.d) && Tracks(Past(cfg, s.d), s.v)
  }

  ghost predicate Consistent(cfg: Config, s: System) {
    InStep(cfg, s) && Apart(cfg, Past(cfg, s.d).campaign)
  }

  /** An accepted record appended to a store in step leaves it in step. */
  lemma AppendStands(cfg: Config, d: Durable, r: Record, next: Durable)
    requires Stands(cfg, d) && Next(cfg, Past(cfg, d), r).Some?
    requires var h := Next(cfg, Past(cfg, d), r).value;
             next.journal == d.journal + [r] && (Bounded(h) ==> next == Project(h, d.journal + [r]))
    ensures Stands(cfg, next) && Past(cfg, next) == Next(cfg, Past(cfg, d), r).value
  {
    hide Next, Project, Bounded, Sound;
    var n := |d.journal|;
    assert next.journal[..n] == d.journal && next.journal[n] == r;
    ReplayIsSound(cfg, d.journal);
    NextKeepsSound(cfg, Past(cfg, d), r);
    SoundIsBounded(cfg, Next(cfg, Past(cfg, d), r).value);
    assert |d.journal| > 0;
  }

  /*
   * The gates
   */

  lemma DurablePartTracks(cfg: Config, h: History)
    requires Sound(cfg, h) && h.open.Some?
    ensures h.open.value.restored || h.open.value.loaded != {} ==>
              h.lastCommitted.Some? && h.lastCommitted.value in h.saved
    ensures TracksRecovery(h, DurablePart(h))
  {
  }

  lemma ReconstructKeeps(cfg: Config, s: System, calls: nat)
    requires Consistent(cfg, s)
    ensures var g := ReconstructRecovery(cfg, s, calls);
            && InStep(cfg, s.(v := g.v)) && g.v.active == s.v.active
            && (g.failure.None? && g.v.recovery.None? ==> Past(cfg, s.d).open.None?)
  {
    hide ReconstructRecovery, Sound, TracksRecovery, Apart;
    var h := Past(cfg, s.d);
    if s.v.recovery.None? {
      RebuildIsExact(cfg, s, calls);
      ReplayIsSound(cfg, s.d.journal);
      if h.open.Some? {
        DurablePartTracks(cfg, h);
      }
    } else {
      ReconstructKnown(cfg, s, calls);
    }
  }

  lemma ReconstructKnown(cfg: Config, s: System, calls: nat)
    requires s.v.recovery.Some?
    ensures ReconstructRecovery(cfg, s, calls) == Gate(s.v, None, calls)
  {
  }

  lemma FenceKeeps(cfg: Config, s: System, calls: nat)
    requires Consistent(cfg, s)
    ensures var g := CheckMutationFence(cfg, s, calls);
            && InStep(cfg, s.(v := g.v))
            && (g.failure.None? ==> g.v.active.None? && g.v.recovery.None? && Past(cfg, s.d).open.None?)
  {
    hide ReconstructRecovery, InStep;
    ReconstructKeeps(cfg, s, calls);
  }

  /*
   * Edits
   */

  lemma SuccessfulEditsChange(a: Aggregate, e: Edit)
    ensures Apply(a, e).error == NoError && !Apply(a, e).changed ==> MayBeNoOp(e)
  {
  }

  lemma BySlotKeepsAscending(roster: seq<SlotState>)
    requires Ascending(roster)
    ensures BySlot(Records(roster)) == Records(roster)
  {
    var states := States(Records(roster));
    assert Ascending(states);
    SortFixesAscending(states);
    assert Records(states) == Records(roster);
  }

  /** Who may be edited, and what an edit does to the seal. */
  lemma EditShape(a: Aggregate, e: Edit)
    requires Apply(a, e).error == NoError && Apply(a, e).changed
    ensures var next := Apply(a, e).campaign;
            && next.id == a.id && next.version == a.version + 1
            && (RosterEdit(e) ==> !a.sealed)
            && (!RosterEdit(e) ==> next.sealed == a.sealed && (a.manager.Some? || a.sealed))
            && next.sealed == (a.sealed || e.Start?)
            && (e.Start? ==> next.roster != [])
  {
    hide PrefixFault, Sort, ValidIdentity, Unready;
  }

  lemma EditedProjection(cfg: Config, h: History, e: Edit)
    requires Sound(cfg, h) && Apply(Current(h), e).error == NoError && Apply(Current(h), e).changed
    ensures var a := Apply(Current(h), e).campaign;
            && Inv(a) && a.id == cfg.campaign && a.version == h.revision + 1
            && (RosterEdit(e) ==> !h.campaign.sealed && BySlot(Records(a.roster)) == Records(a.roster))
            && (!RosterEdit(e) ==> Records(a.roster) == Records(h.campaign.roster))
            && a.sealed == (h.campaign.sealed || e.Start?)
            && (e.Start? ==> Records(a.roster) != [])
  {
    hide Apply, BySlot, SoundSaved, SoundAttempt, ValidRoster, Ascending, IsMember;
    var a := Apply(Current(h), e).campaign;
    ApplyKeepsInv(Current(h), e);
    EditShape(Current(h), e);
    BySlotKeepsAscending(a.roster);
    if !RosterEdit(e) {
      SealedIdentitiesFrozen(Current(h), e);
    }
  }

  lemma NoOpIsAccepted(cfg: Config, d: Durable, c: Command)
    requires Stands(cfg, d) && Past(cfg, d).open.None? && c.expected == d.revision
    requires JournalIndex(d.journal, ClientMutation(c.mutation)) == |d.journal|
    requires var o := Apply(Current(Past(cfg, d)), c.edit); o.error == NoError && !o.changed && MayBeNoOp(c.edit)
    ensures Stands(cfg, PersistNoOp(d, c).d) && Past(cfg, PersistNoOp(d, c).d) == Past(cfg, d)
  {
    hide CoreBytes, Apply, Replay;
    var w := PersistNoOp(d, c);
    var r := Record(ClientMutation(c.mutation), c.expected, d.revision, EditCampaign(c.edit), NoChange, None);
    assert Next(cfg, Past(cfg, d), r) == Some(Past(cfg, d));
    if Storable(r.mutation) {
      AppendStands(cfg, d, r, w.d);
    }
  }

  function EditRecord(c: Command, resulting: nat, a: Aggregate): Record {
    Record(ClientMutation(c.mutation), c.expected, resulting, EditCampaign(c.edit), EditContent(c.edit, a), None)
  }

  /** What a successful edit writes. */
  lemma EditWrites(cfg: Config, d: Durable, c: Command, a: Aggregate)
    requires JournalIndex(d.journal, ClientMutation(c.mutation)) == |d.journal|
    requires SoundCampaign(cfg, a) && ValidIdentity(cfg.campaign)
    requires RosterEdit(c.edit) ==> BySlot(Records(a.roster)) == Records(a.roster)
    ensures var w := PersistEdit(d, c, a);
            && (w.error != Stored ==> w.d == d)
            && (w.error == Stored ==>
                  && c.expected == d.revision < MAX_REVISION
                  && w.d == d.(
                       revision := d.revision + 1,
                       core := CoreBytes(ImageOf(a)),
                       sealed := d.sealed || c.edit.Start?,
                       slots := if RosterEdit(c.edit) then Records(a.roster) else d.slots,
                       journal := d.journal + [EditRecord(c, d.revision + 1, a)]))
  {
    hide CoreBytes, IntentBytes, BySlot, ImageOf, SoundCampaign, EncodeCore, EncodeIntent, ValidAggregate, DecodeCore,
      JournalIndex;
    SoundEncodes(cfg, a);
    var content := EditContent(c.edit, a);
    var q := Request(c.expected, ClientMutation(c.mutation), EditCampaign(c.edit), content);
    assert PersistEdit(d, c, a) == ApplyMutation(d, q);
    assert Replayed(d, q) == None;
  }

  lemma EditAccepted(cfg: Config, h: History, c: Command)
    requires h.open.None? && c.expected == h.revision < MAX_REVISION
    requires Apply(Current(h), c.edit).error == NoError && Apply(Current(h), c.edit).changed
    ensures var a := Apply(Current(h), c.edit).campaign;
            Next(cfg, h, EditRecord(c, h.revision + 1, a)) == Some(h.(revision := h.revision + 1, campaign := a))
  {
    hide EditContent, Apply;
  }

  lemma PersistKeepsOnFailure(d: Durable, c: Command, a: Aggregate)
    ensures PersistEdit(d, c, a).error != Stored ==> PersistEdit(d, c, a).d == d
    ensures JournalIndex(d.journal, ClientMutation(c.mutation)) == |d.journal| && d.revision == MAX_REVISION ==>
              PersistEdit(d, c, a).error != Stored
  {
    hide EncodeCore, EncodeIntent, BySlot;
  }

  lemma EditIsAccepted(cfg: Config, d: Durable, c: Command)
    requires Stands(cfg, d) && Past(cfg, d).open.None? && c.expected == d.revision
    requires JournalIndex(d.journal, ClientMutation(c.mutation)) == |d.journal|
    requires var o := Apply(Current(Past(cfg, d)), c.edit); o.error == NoError && o.changed
    ensures var o := Apply(Current(Past(cfg, d)), c.edit);
            var w := PersistEdit(d, c, o.campaign);
            && (w.error != Stored ==> w.d == d)
            && (w.error == Stored ==>
                  && d.revision < MAX_REVISION && Stands(cfg, w.d)
                  && Past(cfg, w.d) == Past(cfg, d).(revision := d.revision + 1, campaign := o.campaign))
  {
    hide PersistEdit, CoreBytes, Apply, Replay, Inv, BySlot, ImageOf, Next, RosterEdit;
    var h := Past(cfg, d);
    var a := Apply(Current(h), c.edit).campaign;
    ReplayIsSound(cfg, d.journal);
    EditedProjection(cfg, h, c.edit);
    PersistKeepsOnFailure(d, c, a);
    if d.revision < MAX_REVISION {
      EditWrites(cfg, d, c, a);
      EditAccepted(cfg, h, c);
      var w := PersistEdit(d, c, a);
      if w.error == Stored {
        AppendStands(cfg, d, EditRecord(c, d.revision + 1, a), w.d);
      }
    }
  }

  lemma PersistOutcomeKeeps(cfg: Config, s: System, c: Command, calls: nat)
    requires InStep(cfg, s) && Past(cfg, s.d).open.None? && s.v == Volatile(None, None)
    requires c.expected == s.d.revision && JournalIndex(s.d.journal, ClientMutation(c.mutation)) == |s.d.journal|
    ensures InStep(cfg, PersistOutcome(s, c, Apply(Current(Past(cfg, s.d)), c.edit), calls).s)
  {
    hide Apply, Stands, PersistEdit, PersistNoOp, Replay;
    StandsAtRevision(cfg, s.d);
    var o := Apply(Current(Past(cfg, s.d)), c.edit);
    SuccessfulEditsChange(Current(Past(cfg, s.d)), c.edit);
    if o.error == NoError {
      if o.changed {
        EditIsAccepted(cfg, s.d, c);
      } else {
        NoOpIsAccepted(cfg, s.d, c);
      }
    }
  }

  lemma EditKeeps(cfg: Config, s: System, c: Command, calls: nat)
    requires Consistent(cfg, s)
    ensures InStep(cfg, EditOp(cfg, s, c, calls).s)
  {
    hide CheckMutationFence, LoadAggregate, Apply, Stands, PersistOutcome, Replay, Tracks, Apart, EditOp;
    EditCases(cfg, s, c, calls);
    FenceKeeps(cfg, s, calls);
    StandsAtRevision(cfg, s.d);
    LoadIsCurrent(cfg, s.d);
    var g := CheckMutationFence(cfg, s, calls);
    if EditReaches(cfg, s, c, g) {
      assert g.v == Volatile(None, None);
      PersistOutcomeKeeps(cfg, s.(v := g.v), c, g.left - 3);
    }
  }

  lemma StandsAtRevision(cfg: Config, d: Durable)
    requires Stands(cfg, d)
    ensures Replay(cfg, d.journal).Some?
    ensures d.revision == Past(cfg, d).revision == Current(Past(cfg, d)).version
  {
  }

  /*
   * Checkpoints
   */

  lemma FreshMutation(d: Durable, m: MutationId)
    requires forall r :: r in d.journal ==> r.mutation != m
    ensures JournalIndex(d.journal, m) == |d.journal|
  {
  }

  /** A used candidate mutation can only conflict: its revision has passed. */
  lemma CandidateReplayConflicts(cfg: Config, d: Durable, q: Request)
    requires Stands(cfg, d) && q.mutation.CreateCandidateOf? && q.expected == d.revision
    ensures Replayed(d, q).Some? ==> Replayed(d, q).value == Failed(d, IdempotencyConflict)
  {
    hide Replay, Stands, Project;
    StandsAtRevision(cfg, d);
    JournalIsAccounted(cfg, d.journal);
    var i := JournalIndex(d.journal, q.mutation);
    if i < |d.journal| {
      assert d.journal[i] in d.journal;
      assert Accounted(cfg, Past(cfg, d), d.journal[i]);
    }
  }

  function CandidateRecord(c: Id, revision: nat, a: Aggregate): Record {
    Record(CreateCandidateOf(c), revision, revision + 1, CreateCandidate(c, SaveIdentity(c)),
           CandidateState(CoreBytes(ImageOf(a))), None)
  }

  lemma CandidateAccepted(cfg: Config, h: History, c: Id)
    requires h.open.None? && h.campaign.sealed && h.campaign.roster != [] && c !in h.saved
    requires Storable(CreateCandidateOf(c))
    requires h.revision < MAX_REVISION
    ensures Next(cfg, h, CandidateRecord(c, h.revision, Current(h))) ==
            Some(h.(revision := h.revision + 1, saved := h.saved[c := Saved(Current(h), map[], None)]))
  {
    hide CoreBytes, ImageOf;
  }

  lemma NewCandidateSlots(a: Aggregate)
    ensures EmptySlots(Records(a.roster)) == CheckpointSlots(Saved(a, map[], None))
  {
  }

  /** What a successful candidate writes. */
  lemma CandidateWrites(cfg: Config, d: Durable, q: Request, c: Id)
    requires Stands(cfg, d) && q.mutation == CreateCandidateOf(c) && q.expected == d.revision
             && q.content.CandidateState?
    ensures var w := CreateCheckpointCandidate(d, q, c);
            && (w.error != Stored ==> w.d == d)
            && (w.error == Stored ==>
                  && d.sealed && d.slots != [] && d.revision < MAX_REVISION && c !in d.checkpoints
                  && Storable(q.mutation)
                  && w.d == d.(
                       revision := d.revision + 1,
                       checkpoints :=
                         d.checkpoints[c := Checkpoint(c, None, d.revision, q.content.core, EmptySlots(d.slots))],
                       journal :=
                         d.journal + [Record(q.mutation, q.expected, d.revision + 1, q.payload, q.content, None)]))
  {
    hide Stands, Replayed;
    CandidateReplayConflicts(cfg, d, q);
  }

  lemma NewSavedProjects(h: History, c: Id, saved: Saved)
    requires Bounded(h) && c !in h.saved && saved.campaign.version <= MAX_REVISION
    ensures var next := h.(saved := h.saved[c := saved]);
            && Bounded(next)
            && (map k | k in next.saved :: CheckpointOf(k, next.saved[k])) ==
               (map k | k in h.saved :: CheckpointOf(k, h.saved[k]))[c := CheckpointOf(c, saved)]
  {
    hide CoreBytes, ImageOf, CheckpointSlots;
  }

  function CandidateRequest(a: Aggregate, c: Id): Request {
    Request(a.version, CreateCandidateOf(c), CreateCandidate(c, SaveIdentity(c)), CandidateState(CoreBytes(ImageOf(a))))
  }

  lemma CandidateStands(cfg: Config, d: Durable, c: Id)
    requires Stands(cfg, d) && Past(cfg, d).open.None? && c != []
    ensures var h := Past(cfg, d);
            var w := CreateCheckpointCandidate(d, CandidateRequest(Current(h), c), c);
            && (w.error != Stored ==> w.d == d)
            && (w.error == Stored ==>
                  && Stands(cfg, w.d) && h.revision < MAX_REVISION && c !in h.saved
                  && Past(cfg, w.d) ==
                     h.(revision := h.revision + 1, saved := h.saved[c := Saved(Current(h), map[], None)]))
  {
    hide Replay, CoreBytes, ImageOf, Sound, SoundCampaign, Next, CreateCheckpointCandidate, EmptySlots, CheckpointSlots,
      Records;
    var h := Past(cfg, d);
    var a := Current(h);
    CandidateWrites(cfg, d, CandidateRequest(a, c), c);
    var w := CreateCheckpointCandidate(d, CandidateRequest(a, c), c);
    if w.error == Stored {
      RosterIsListed(h);
      CandidateAccepted(cfg, h, c);
      NewCandidateSlots(a);
      NewSavedProjects(h, c, Saved(a, map[], None));
      AppendStands(cfg, d, CandidateRecord(c, h.revision, a), w.d);
    }
  }

  lemma RosterIsListed(h: History)
    ensures Records(h.campaign.roster) == [] <==> h.campaign.roster == []
  {
  }

  lemma CandidateKeeps(cfg: Config, s: System, c: Id, calls: nat)
    requires InStep(cfg, s) && Past(cfg, s.d).open.None? && s.v == Volatile(None, None) && c != []
    ensures InStep(cfg, PersistCandidate(s, c, SaveIdentity(c), Current(Past(cfg, s.d)), calls).s)
  {
    hide Replay, CoreBytes, ImageOf, EncodeCore, ValidAggregate, Sound, SoundCampaign, CreateCheckpointCandidate,
      Stands;
    StandsAtRevision(cfg, s.d);
    var h := Past(cfg, s.d);
    ReplayIsSound(cfg, s.d.journal);
    CurrentIsSound(cfg, h);
    WellNamed(cfg, s.d);
    SoundEncodes(cfg, Current(h));
    CandidateStands(cfg, s.d, c);
  }

  lemma WellNamed(cfg: Config, d: Durable)
    requires Stands(cfg, d)
    ensures ValidIdentity(cfg.campaign)
  {
  }

  lemma CurrentIsSound(cfg: Config, h: History)
    requires Sound(cfg, h)
    ensures SoundCampaign(cfg, Current(h))
  {
    InvIgnoresVersion(h.campaign, h.revision);
  }

  lemma BeginCheckpointKeeps(cfg: Config, s: System, c: Id, identity: Id, presence: seq<Presence>, calls: nat)
    requires Consistent(cfg, s)
    ensures InStep(cfg, BeginCheckpointOp(cfg, s, c, identity, presence, calls).s)
  {
    hide CheckMutationFence, LoadAggregate, Stands, PersistCandidate, Replay, Tracks, Apart, EvaluateFullRoster,
      BeginCheckpointOp;
    BeginCheckpointCases(cfg, s, c, identity, presence, calls);
    FenceKeeps(cfg, s, calls);
    StandsAtRevision(cfg, s.d);
    LoadIsCurrent(cfg, s.d);
    var g := CheckMutationFence(cfg, s, calls);
    if BeginReaches(cfg, s, c, identity, presence, g) {
      CandidateKeeps(cfg, s.(v := g.v), c, g.left - 2);
    }
  }

  lemma SlotIndexIsUnique(saved: Saved, i: nat)
    requires ValidRoster(saved.campaign.roster) && i < |saved.campaign.roster|
    ensures CheckpointSlotIndex(CheckpointSlots(saved), saved.campaign.roster[i].slot) == i
  {
    var slots := CheckpointSlots(saved);
    var j := CheckpointSlotIndex(slots, saved.campaign.roster[i].slot);
    assert slots[i].slot == saved.campaign.roster[i].slot;
    assert slots[j].slot == saved.campaign.roster[j].slot;
    assert j < i ==> !Clash(saved.campaign.roster[j], saved.campaign.roster[i]);
  }

  /** Recording one proof is recording it in one place of the slot list. */
  lemma ProofInPlace(saved: Saved, i: nat, proof: Artifact)
    requires ValidRoster(saved.campaign.roster) && i < |saved.campaign.roster|
    ensures var slot := saved.campaign.roster[i].slot;
            var next := saved.(artifacts := saved.artifacts[slot := proof]);
            CheckpointSlots(next) == CheckpointSlots(saved)[i := CheckpointSlots(saved)[i].(artifact := Some(proof))]
  {
    var slot := saved.campaign.roster[i].slot;
    var next := saved.(artifacts := saved.artifacts[slot := proof]);
    forall j | 0 <= j < |saved.campaign.roster| && j != i
      ensures ProvenSlot(saved.campaign.roster[j], next) == ProvenSlot(saved.campaign.roster[j], saved)
    {
      assert !Clash(saved.campaign.roster[if i < j then i else j], saved.campaign.roster[if i < j then j else i]);
    }
  }

  function SaveRecord(c: Id, revision: nat, s: CheckpointSlot): Record {
    Record(AcknowledgeOf(c, s.slot), revision, revision + 1, SaveSlot(c, s.slot), SlotSave(s), None)
  }

  lemma SaveAccepted(cfg: Config, h: History, c: Id, i: nat, proof: Artifact)
    requires h.open.None? && c in h.saved && h.saved[c].committedAt.None? && h.revision < MAX_REVISION
    requires i < |h.saved[c].campaign.roster| && h.saved[c].campaign.roster[i].slot !in h.saved[c].artifacts
    requires ExactProof(cfg, proof, SaveIdentity(c)) && Storable(AcknowledgeOf(c, h.saved[c].campaign.roster[i].slot))
    ensures var slot := CheckpointSlots(h.saved[c])[i].(artifact := Some(proof));
            var saved := h.saved[c].(artifacts := h.saved[c].artifacts[slot.slot := proof]);
            Next(cfg, h, SaveRecord(c, h.revision, slot)) ==
            Some(h.(revision := h.revision + 1, saved := h.saved[c := saved]))
  {
    var slot := CheckpointSlots(h.saved[c])[i].(artifact := Some(proof));
    assert slot.Record() == Records(h.saved[c].campaign.roster)[i];
  }

  /** What recording a slot's proof does to the store, in a fenced checkpoint. */
  lemma SlotSaveKeeps(cfg: Config, d: Durable, x: CheckpointActivity, i: nat, proof: Artifact)
    requires Stands(cfg, d) && TracksActive(Past(cfg, d), x)
    requires i < |Past(cfg, d).saved[x.checkpoint].campaign.roster| && ExactProof(cfg, proof, x.identity)
    ensures var h := Past(cfg, d);
            var slot := CheckpointSlots(h.saved[x.checkpoint])[i].(artifact := Some(proof));
            var m := AcknowledgeOf(x.checkpoint, slot.slot);
            var k := JournalIndex(d.journal, m);
            var expected := if k < |d.journal| then d.journal[k].expected else d.revision;
            var w := RecordSlotSave(d, Request(expected, m, SaveSlot(x.checkpoint, slot.slot), SlotSave(slot)),
                                    x.checkpoint);
            Stands(cfg, w.d) && TracksActive(Past(cfg, w.d), x)
  {
    hide Replay, Next, CoreBytes, ImageOf, Sound, SoundCampaign, CheckpointSlots;
    var h := Past(cfg, d);
    var id := x.checkpoint;
    var saved := h.saved[id];
    var slot := CheckpointSlots(saved)[i].(artifact := Some(proof));
    var m := AcknowledgeOf(id, slot.slot);
    var k := JournalIndex(d.journal, m);
    var expected := if k < |d.journal| then d.journal[k].expected else d.revision;
    var q := Request(expected, m, SaveSlot(id, slot.slot), SlotSave(slot));
    var w := RecordSlotSave(d, q, id);
    ReplayIsSound(cfg, d.journal);
    SavedRoster(cfg, h, id);
    SlotIndexIsUnique(saved, i);
    ProofInPlace(saved, i, proof);
    if w.d != d {
      SaveAccepted(cfg, h, id, i, proof);
      SavedProjects(h, id, saved.(artifacts := saved.artifacts[slot.slot := proof]));
      AppendStands(cfg, d, SaveRecord(id, h.revision, slot), w.d);
    }
  }

  lemma SavedRoster(cfg: Config, h: History, c: Id)
    requires Sound(cfg, h) && c in h.saved
    ensures SoundSaved(cfg, h, c, h.saved[c]) && ValidRoster(h.saved[c].campaign.roster)
  {
  }

  /** Changing one checkpoint of a history changes that checkpoint in the store. */
  lemma SavedProjects(h: History, c: Id, saved: Saved)
    requires Bounded(h) && c in h.saved && saved.campaign == h.saved[c].campaign
    ensures var next := h.(saved := h.saved[c := saved]);
            && Bounded(next)
            && (map k | k in next.saved :: CheckpointOf(k, next.saved[k])) ==
               (map k | k in h.saved :: CheckpointOf(k, h.saved[k]))[c := CheckpointOf(c, saved)]
  {
    hide CoreBytes, ImageOf, CheckpointSlots;
  }

  lemma AllProven(cfg: Config, saved: Saved, identity: Id)
    requires saved.artifacts.Keys <= SlotIds(saved.campaign)
    requires forall x :: x in CheckpointSlots(saved) ==> ExactArtifact(cfg, x, identity)
    requires identity != []
    ensures saved.artifacts.Keys == SlotIds(saved.campaign)
    ensures forall x :: x in CheckpointSlots(saved) ==> x.artifact.Some? && x.artifact.value.Complete()
  {
    forall k | k in SlotIds(saved.campaign) ensures k in saved.artifacts {
      var i :| 0 <= i < |saved.campaign.roster| && saved.campaign.roster[i].slot == k;
      assert CheckpointSlots(saved)[i] in CheckpointSlots(saved);
      assert ExactArtifact(cfg, CheckpointSlots(saved)[i], identity);
    }
  }

  function CommitRequest(revision: nat, c: Id): Request {
    Request(revision, CommitOf(c), CommitCheckpoint(c), Commit)
  }

  lemma CommitAccepted(cfg: Config, h: History, x: CheckpointActivity)
    requires TracksActive(h, x) && h.saved[x.checkpoint].artifacts.Keys == SlotIds(h.saved[x.checkpoint].campaign)
    requires h.revision < MAX_REVISION
    ensures var c := x.checkpoint;
            Next(cfg, h, Record(CommitOf(c), h.revision, h.revision + 1, CommitCheckpoint(c), Commit, None)) ==
            Some(h.(revision := h.revision + 1, lastCommitted := Some(c),
                    saved := h.saved[c := h.saved[c].(committedAt := Some(h.revision + 1))]))
  {
  }

  lemma CommitKeepsSlots(saved: Saved, revision: nat)
    ensures CheckpointSlots(saved.(committedAt := Some(revision))) == CheckpointSlots(saved)
  {
  }

  /** A complete, fenced candidate commits, once, with the campaign it captured. */
  lemma CommitStands(cfg: Config, d: Durable, x: CheckpointActivity)
    requires Stands(cfg, d) && TracksActive(Past(cfg, d), x)
    requires forall y :: y in CheckpointSlots(Past(cfg, d).saved[x.checkpoint]) ==> ExactArtifact(cfg, y, x.identity)
    ensures var h := Past(cfg, d);
            var c := x.checkpoint;
            var w := CommitCandidate(d, CommitRequest(d.revision, c), c);
            && (w.error != Stored ==> w.d == d)
            && (w.error == Stored ==>
                  && Stands(cfg, w.d) && h.revision < MAX_REVISION
                  && Past(cfg, w.d) ==
                     h.(revision := h.revision + 1, lastCommitted := Some(c),
                        saved := h.saved[c := h.saved[c].(committedAt := Some(h.revision + 1))]))
  {
    hide Replay, CoreBytes, ImageOf, SoundCampaign, Next, CheckpointSlots;
    var h := Past(cfg, d);
    var c := x.checkpoint;
    var w := CommitCandidate(d, CommitRequest(d.revision, c), c);
    ReplayIsSound(cfg, d.journal);
    JournalIsAccounted(cfg, d.journal);
    FreshMutation(d, CommitOf(c));
    SavedRoster(cfg, h, c);
    AllProven(cfg, h.saved[c], x.identity);
    if w.error == Stored {
      CommitAccepted(cfg, h, x);
      CommitKeepsSlots(h.saved[c], h.revision + 1);
      SavedProjects(h, c, h.saved[c].(committedAt := Some(h.revision + 1)));
      AppendStands(cfg, d, Record(CommitOf(c), h.revision, h.revision + 1, CommitCheckpoint(c), Commit, None), w.d);
    }
  }

  lemma CommitKeeps(cfg: Config, s: System, x: CheckpointActivity, reply: Reply, calls: nat)
    requires InStep(cfg, s) && s.v == Volatile(Some(x), None)
    ensures InStep(cfg, CommitIfComplete(cfg, s, x, reply, calls).s)
  {
    hide Replay, CoreBytes, ImageOf, Sound, CommitCandidate, ExactArtifact, CheckpointSlots;
    var h := Past(cfg, s.d);
    if forall y :: y in CheckpointSlots(h.saved[x.checkpoint]) ==> ExactArtifact(cfg, y, x.identity) {
      CommitStands(cfg, s.d, x);
    }
  }

  lemma RecordSlotKeeps(cfg: Config, s: System, x: CheckpointActivity, i: nat, proof: Artifact, calls: nat)
    requires InStep(cfg, s) && s.v == Volatile(Some(x), None)
    requires i < |Past(cfg, s.d).saved[x.checkpoint].campaign.roster|
    ensures var slot := CheckpointSlots(Past(cfg, s.d).saved[x.checkpoint])[i].(artifact := Some(proof));
            InStep(cfg, RecordSlot(cfg, s, x, slot, calls).s)
  {
    hide Replay, Stands, CheckpointSlots, RecordSlotSave, CommitIfComplete, TracksActive;
    StandsAtRevision(cfg, s.d);
    ActiveCheckpointIsStored(cfg, s.d, x);
    var slot := CheckpointSlots(Past(cfg, s.d).saved[x.checkpoint])[i].(artifact := Some(proof));
    if ExactArtifact(cfg, slot, x.identity) && calls >= 1 {
      SlotSaveKeeps(cfg, s.d, x, i, proof);
      var m := AcknowledgeOf(x.checkpoint, slot.slot);
      var k := JournalIndex(s.d.journal, m);
      var used := if k < |s.d.journal| then 1 else 2;
      var expected := if k < |s.d.journal| then s.d.journal[k].expected else s.d.revision;
      var w := RecordSlotSave(s.d, Request(expected, m, SaveSlot(x.checkpoint, slot.slot), SlotSave(slot)),
                              x.checkpoint);
      StandsAtRevision(cfg, w.d);
      if calls > used {
        CommitKeeps(cfg, s.(d := w.d), x, FromWritten(w), calls - used - 1);
      }
    }
  }

  lemma ActiveCheckpointIsStored(cfg: Config, d: Durable, x: CheckpointActivity)
    requires Stands(cfg, d) && TracksActive(Past(cfg, d), x)
    ensures x.checkpoint in d.checkpoints && x.checkpoint in Past(cfg, d).saved
    ensures d.checkpoints[x.checkpoint].slots == CheckpointSlots(Past(cfg, d).saved[x.checkpoint])
  {
    hide Replay, CheckpointSlots;
  }

  lemma RecordSaveKeeps(cfg: Config, s: System, c: SaveReport, calls: nat)
    requires Consistent(cfg, s)
    ensures InStep(cfg, RecordSaveOp(cfg, s, c, calls).s)
  {
    hide ReconstructRecovery, Replay, Stands, CheckpointSlots, RecordSlot, Apart, TracksActive, TracksRecovery;
    ReconstructKeeps(cfg, s, calls);
    var g := ReconstructRecovery(cfg, s, calls);
    if g.failure.None? && g.v.recovery.None? && g.v.active.Some? && g.left >= 1 {
      var x := g.v.active.value;
      StandsAtRevision(cfg, s.d);
      ActiveCheckpointIsStored(cfg, s.d, x);
      var i := MemberSlotIndex(s.d.checkpoints[x.checkpoint].slots, c.actor);
      if i < |s.d.checkpoints[x.checkpoint].slots| {
        RecordSlotKeeps(cfg, s.(v := g.v), x, i, c.proof, g.left - 1);
      }
    }
  }

  lemma FailCheckpointKeeps(cfg: Config, s: System, checkpoint: Id, identity: Id, actor: Member, calls: nat)
    requires Consistent(cfg, s)
    ensures InStep(cfg, FailCheckpointOp(cfg, s, checkpoint, identity, actor, calls).s)
  {
    hide ReconstructRecovery, Replay, Stands, Apart, TracksActive, TracksRecovery;
    ReconstructKeeps(cfg, s, calls);
  }
}
