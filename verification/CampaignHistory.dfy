/** What a journal means: replaying its records, in order, on the domain model.
    A record that no run of the service may write at that point is refused. */
module CampaignHistory {
  import opened Basics
  import opened CampaignState
  import opened CampaignCoreCodec
  import opened CampaignStore

  const SHA_256: Id := [0x53, 0x48, 0x41, 0x2D, 0x32, 0x35, 0x36]
  const SAVE_PREFIX: Id := [0x73, 0x74, 0x72, 0x65, 0x2D]

  /** The campaign, the 64-bit slot hash, and the artifact parser the service calls. */
  datatype Config = Config(campaign: Id, slotHash: Id -> nat, parses: (Id, Bytes, Bytes) -> bool)

  /** The native-save name a checkpoint prescribes. */
  function SaveIdentity(checkpoint: Id): Id { SAVE_PREFIX + checkpoint }

  predicate ExactProof(cfg: Config, a: Artifact, identity: Id) {
    && a.identity == identity && a.algorithm == SHA_256 && a.fingerprintVersion == 1
    && |a.fingerprint| == 32 && a.metadataVersion == 1 && 0 < |a.metadata| <= 256
    && cfg.parses(identity, a.fingerprint, a.metadata)
  }

  predicate ExactArtifact(cfg: Config, s: CheckpointSlot, identity: Id) {
    s.artifact.Some? && ExactProof(cfg, s.artifact.value, identity)
  }

  /** A checkpoint: the campaign as it was, and the proofs collected for it. */
  datatype Saved = Saved(campaign: Aggregate, artifacts: map<Id, Artifact>, committedAt: Option<nat>)

  /** An open recovery attempt, as far as the journal tells. */
  datatype Attempt = Attempt(entry: nat, restored: bool, loaded: set<Id>, applied: set<Id>)

  datatype History = History(
    revision: Revision,
    campaign: Aggregate,
    saved: map<Id, Saved>,
    lastCommitted: Option<Id>,
    open: Option<Attempt>)

  /** The slot identities of a roster. */
  function SlotIds(a: Aggregate): set<Id> {
    set i | 0 <= i < |a.roster| :: a.roster[i].slot
  }

  function ProvenSlot(s: SlotState, saved: Saved): CheckpointSlot {
    CheckpointSlot(s.slot, s.player, s.binding,
                   if s.slot in saved.artifacts then Some(saved.artifacts[s.slot]) else None)
  }

  function CheckpointSlots(saved: Saved): (r: seq<CheckpointSlot>)
    ensures |r| == |saved.campaign.roster|
    ensures forall i :: 0 <= i < |r| ==> r[i] == ProvenSlot(saved.campaign.roster[i], saved)
  {
    seq(|saved.campaign.roster|, i requires 0 <= i < |saved.campaign.roster| =>
      ProvenSlot(saved.campaign.roster[i], saved))
  }

  /*
   * One record
   */

  predicate Steps(h: History, r: Record, advances: bool) {
    && r.expected == h.revision
    && r.resulting == h.revision + (if advances then 1 else 0)
    && r.resulting <= MAX_REVISION
  }

  /** The aggregate at the current revision. */
  function Current(h: History): Aggregate { h.campaign.(version := h.revision) }

  predicate RosterEdit(e: Edit) { e.Add? || e.Remove? || e.Replace? || e.Start? }

  predicate MayBeNoOp(e: Edit) { e.Replace? || e.Transfer? || e.Ready? }

  function EditContent(e: Edit, a: Aggregate): Content {
    CoreState(CoreBytes(ImageOf(a)), IntentBytes(a), e.Start?, if RosterEdit(e) then Some(Records(a.roster)) else None)
  }

  function AfterEdit(h: History, r: Record): Option<History>
    requires r.payload.EditCampaign?
  {
    var o := Apply(Current(h), r.payload.edit);
    if h.open.Some? || !r.mutation.ClientMutation? || o.error != NoError || r.restoredFrom.Some? then None
    else if o.changed then
      if Steps(h, r, true) && r.content == EditContent(r.payload.edit, o.campaign)
      then Some(h.(revision := r.resulting, campaign := o.campaign)) else None
    else if Steps(h, r, false) && r.content == NoChange && MayBeNoOp(r.payload.edit) then Some(h)
    else None
  }

  function AfterCandidate(h: History, r: Record): Option<History>
    requires r.payload.CreateCandidate?
  {
    var c := r.payload.checkpoint;
    if && h.open.None? && h.campaign.sealed && h.campaign.roster != []
       && Storable(r.mutation) && c !in h.saved && r.payload.identity == SaveIdentity(c)
       && r.mutation == CreateCandidateOf(c) && Steps(h, r, true)
       && r.content == CandidateState(CoreBytes(ImageOf(Current(h)))) && r.restoredFrom.None?
    then Some(h.(revision := r.resulting, saved := h.saved[c := Saved(Current(h), map[], None)]))
    else None
  }

  function AfterSave(cfg: Config, h: History, r: Record): Option<History>
    requires r.payload.SaveSlot?
  {
    var c, s := r.payload.checkpoint, r.payload.slot;
    if && h.open.None? && c in h.saved && h.saved[c].committedAt.None?
       && s !in h.saved[c].artifacts
       && r.content.SlotSave? && r.content.slot.slot == s
       && r.content.slot.Record() in Records(h.saved[c].campaign.roster)
       && ExactArtifact(cfg, r.content.slot, SaveIdentity(c))
       && r.mutation == AcknowledgeOf(c, s) && Storable(r.mutation) && Steps(h, r, true) && r.restoredFrom.None?
    then
      var saved := h.saved[c].(artifacts := h.saved[c].artifacts[s := r.content.slot.artifact.value]);
      Some(h.(revision := r.resulting, saved := h.saved[c := saved]))
    else None
  }

  function AfterCommit(h: History, r: Record): Option<History>
    requires r.payload.CommitCheckpoint?
  {
    var c := r.payload.checkpoint;
    if && h.open.None? && c in h.saved && h.saved[c].committedAt.None?
       && h.saved[c].artifacts.Keys == SlotIds(h.saved[c].campaign)
       && Current(h) == h.saved[c].campaign.(version := h.revision)
       && r.mutation == CommitOf(c) && Steps(h, r, true) && r.content == Commit && r.restoredFrom.None?
    then
      var saved := h.saved[c].(committedAt := Some(r.resulting));
      Some(h.(revision := r.resulting, saved := h.saved[c := saved], lastCommitted := Some(c)))
    else None
  }

  function AfterBegin(h: History, r: Record): Option<History>
    requires r.payload.BeginRecovery?
  {
    if && h.open.None? && h.campaign.sealed && r.payload.member in Records(h.campaign.roster)
       && r.mutation == BeginAt(h.revision) && Steps(h, r, true) && r.content == RevisionOnly && r.restoredFrom.None?
    then Some(h.(revision := r.resulting, open := Some(Attempt(r.resulting, false, {}, {}))))
    else None
  }

  /** The committed checkpoint an open attempt works with. */
  predicate Chosen(h: History, attempt: nat, checkpoint: Id) {
    && h.open.Some? && h.open.value.entry == attempt
    && h.lastCommitted == Some(checkpoint) && checkpoint in h.saved
  }

  function AfterLoaded(cfg: Config, h: History, r: Record): Option<History>
    requires r.payload.RecoveryLoaded?
  {
    var p := r.payload;
    if && Chosen(h, p.attempt, p.checkpoint) && !h.open.value.restored
       && p.proof in CheckpointSlots(h.saved[p.checkpoint])
       && p.proof.slot !in h.open.value.loaded
       && r.mutation == LoadedBy(cfg.slotHash(p.proof.slot), p.attempt)
       && Steps(h, r, false) && r.content == NoChange && r.restoredFrom.None?
    then Some(h.(open := Some(h.open.value.(loaded := h.open.value.loaded + {p.proof.slot}))))
    else None
  }

  function AfterRestore(h: History, r: Record): Option<History>
    requires r.payload.RestoreCheckpoint?
  {
    var p := r.payload;
    if && Chosen(h, p.attempt, p.checkpoint) && !h.open.value.restored && h.revision == p.attempt
       && h.open.value.loaded == SlotIds(h.saved[p.checkpoint].campaign)
       && r.mutation == RestoreOf(p.attempt) && Steps(h, r, true)
       && r.restoredFrom == Some(RestoredFrom(p.checkpoint, h.saved[p.checkpoint].campaign.version))
       && r.content == RestoredState(CoreBytes(ImageOf(h.saved[p.checkpoint].campaign.(version := r.resulting))))
    then Some(h.(revision := r.resulting,
                 campaign := h.saved[p.checkpoint].campaign.(version := r.resulting),
                 open := Some(h.open.value.(restored := true))))
    else None
  }

  function AfterApplied(cfg: Config, h: History, r: Record): Option<History>
    requires r.payload.SnapshotApplied?
  {
    var p := r.payload;
    if && Chosen(h, p.attempt, p.checkpoint) && h.open.value.restored && p.restore == h.revision
       && p.member in Records(h.saved[p.checkpoint].campaign.roster)
       && p.member.slot !in h.open.value.applied
       && r.mutation == AppliedBy(cfg.slotHash(p.member.slot), p.attempt)
       && Steps(h, r, false) && r.content == NoChange && r.restoredFrom.None?
    then Some(h.(open := Some(h.open.value.(applied := h.open.value.applied + {p.member.slot}))))
    else None
  }

  function AfterComplete(h: History, r: Record): Option<History>
    requires r.payload.CompleteRecovery?
  {
    var p := r.payload;
    if && Chosen(h, p.attempt, p.checkpoint) && h.open.value.restored && p.restore == h.revision
       && h.open.value.applied == SlotIds(h.saved[p.checkpoint].campaign)
       && r.mutation == CompleteOf(p.attempt)
       && Steps(h, r, false) && r.content == NoChange && r.restoredFrom.None?
    then Some(h.(open := None))
    else None
  }

  function Next(cfg: Config, h: History, r: Record): Option<History> {
    match r.payload
    case CreateCampaign(_) => None
    case EditCampaign(_) => AfterEdit(h, r)
    case CreateCandidate(_, _) => AfterCandidate(h, r)
    case SaveSlot(_, _) => AfterSave(cfg, h, r)
    case CommitCheckpoint(_) => AfterCommit(h, r)
    case BeginRecovery(_, _) => AfterBegin(h, r)
    case RecoveryLoaded(_, _, _) => AfterLoaded(cfg, h, r)
    case RestoreCheckpoint(_, _) => AfterRestore(h, r)
    case SnapshotApplied(_, _, _, _) => AfterApplied(cfg, h, r)
    case CompleteRecovery(_, _, _) => AfterComplete(h, r)
  }

  /** A campaign is created as an unsealed lobby at revision 1. */
  function Created(cfg: Config, r: Record): Option<History> {
    if && r.payload.CreateCampaign? && r.mutation.ClientMutation? && r.expected == 0 && r.resulting == 1
       && ValidRoster(States(r.payload.roster)) && Ascending(States(r.payload.roster)) && r.restoredFrom.None?
    then Some(History(1, Lobbied(cfg.campaign, States(r.payload.roster)), map[], None, None))
    else None
  }

  function Replay(cfg: Config, journal: seq<Record>): Option<History> {
    if journal == [] then None
    else if |journal| == 1 then Created(cfg, journal[0])
    else
      var n := |journal| - 1;
      var h := Replay(cfg, journal[..n]);
      if h.None? then None else Next(cfg, h.value, journal[n])
  }

  /*
   * What the store holds for a history
   */

  function CheckpointOf(id: Id, saved: Saved): Checkpoint
    requires saved.campaign.version <= MAX_REVISION
  {
    Checkpoint(id, saved.committedAt, saved.campaign.version, CoreBytes(ImageOf(saved.campaign)),
               CheckpointSlots(saved))
  }

  predicate Bounded(h: History) {
    forall c :: c in h.saved ==> h.saved[c].campaign.version <= MAX_REVISION
  }

  function Project(h: History, journal: seq<Record>): Durable
    requires Bounded(h)
  {
    Durable(
      h.revision,
      h.campaign.sealed,
      CoreBytes(ImageOf(h.campaign)),
      Records(h.campaign.roster),
      h.lastCommitted,
      map c | c in h.saved :: CheckpointOf(c, h.saved[c]),
      journal)
  }

  /*
   * What every replayed journal guarantees
   */

  ghost predicate SoundCampaign(cfg: Config, a: Aggregate) {
    Inv(a) && a.id == cfg.campaign && 1 <= a.version <= MAX_REVISION
  }

  ghost predicate SoundSaved(cfg: Config, h: History, id: Id, s: Saved) {
    && SoundCampaign(cfg, s.campaign) && s.campaign.version < h.revision
    && s.campaign.sealed && Storable(CreateCandidateOf(id))
    && Records(s.campaign.roster) == Records(h.campaign.roster)
    && s.artifacts.Keys <= SlotIds(s.campaign)
    && (forall k :: k in s.artifacts ==>
          ExactProof(cfg, s.artifacts[k], SaveIdentity(id)) && Storable(AcknowledgeOf(id, k)))
    && (s.committedAt.Some? ==>
         s.artifacts.Keys == SlotIds(s.campaign) && s.campaign.version < s.committedAt.value <= h.revision)
  }

  ghost predicate SoundAttempt(h: History, o: Attempt) {
    && h.campaign.sealed
    && h.revision == (if o.restored then o.entry + 1 else o.entry)
    && o.loaded <= SlotIds(h.campaign) && o.applied <= SlotIds(h.campaign)
    && (o.loaded != {} ==> h.lastCommitted.Some?)
    && (!o.restored ==> o.applied == {})
    && (o.restored ==>
         && o.loaded == SlotIds(h.campaign) && h.lastCommitted.Some? && h.lastCommitted.value in h.saved
         && h.campaign == h.saved[h.lastCommitted.value].campaign.(version := h.revision))
  }

  ghost predicate Sound(cfg: Config, h: History) {
    && SoundCampaign(cfg, h.campaign) && h.campaign.version <= h.revision
    && (forall c :: c in h.saved ==> SoundSaved(cfg, h, c, h.saved[c]))
    && (h.saved != map[] ==> h.campaign.sealed)
    && (h.lastCommitted.Some? ==>
         h.lastCommitted.value in h.saved && h.saved[h.lastCommitted.value].committedAt.Some?)
    && (h.open.Some? ==> SoundAttempt(h, h.open.value))
  }

  lemma SameRecordsSameSlots(a: Aggregate, b: Aggregate)
    requires Records(a.roster) == Records(b.roster)
    ensures SlotIds(a) == SlotIds(b)
  {
    assert |a.roster| == |b.roster|;
    forall i | 0 <= i < |a.roster| ensures a.roster[i].slot == b.roster[i].slot {
      assert Records(a.roster)[i] == Records(b.roster)[i];
    }
  }

  lemma InvIgnoresVersion(a: Aggregate, version: u64)
    requires Inv(a)
    ensures Inv(a.(version := version))
  {
  }

  lemma CreatedIsSound(cfg: Config, r: Record)
    requires Created(cfg, r).Some?
    ensures Sound(cfg, Created(cfg, r).value)
  {
    UnreadySortKeepsRules(States(r.payload.roster));
  }

  lemma EditKeepsSound(cfg: Config, h: History, r: Record)
    requires Sound(cfg, h) && r.payload.EditCampaign? && AfterEdit(h, r).Some?
    ensures Sound(cfg, AfterEdit(h, r).value)
  {
    var e := r.payload.edit;
    var next := AfterEdit(h, r).value;
    var o := Apply(Current(h), e);
    ApplyKeepsInv(Current(h), e);
    VersionCountsChanges(Current(h), e);
    KeepsCampaignId(Current(h), e);
    if o.changed && h.saved != map[] {
      SealedIdentitiesFrozen(Current(h), e);
      SameRecordsSameSlots(h.campaign, o.campaign);
    }
    forall c | c in next.saved ensures SoundSaved(cfg, next, c, next.saved[c]) {
      assert SoundSaved(cfg, h, c, h.saved[c]);
    }
  }

  lemma KeepsCampaignId(a: Aggregate, e: Edit)
    ensures Apply(a, e).campaign.id == a.id
  {
    hide RosterFault, Sort, Unready, IsMember, ValidIdentity, SlotIndex, MemberIndex, Conflict;
  }

  lemma CandidateKeepsSound(cfg: Config, h: History, r: Record)
    requires Sound(cfg, h) && r.payload.CreateCandidate? && AfterCandidate(h, r).Some?
    ensures Sound(cfg, AfterCandidate(h, r).value)
  {
    hide Inv;
    var next := AfterCandidate(h, r).value;
    forall c | c in next.saved ensures SoundSaved(cfg, next, c, next.saved[c]) {
      if c != r.payload.checkpoint {
        assert SoundSaved(cfg, h, c, h.saved[c]);
      } else {
        InvIgnoresVersion(h.campaign, h.revision);
      }
    }
  }

  lemma SlotSaveKeepsSound(cfg: Config, h: History, r: Record)
    requires Sound(cfg, h) && r.payload.SaveSlot? && AfterSave(cfg, h, r).Some?
    ensures Sound(cfg, AfterSave(cfg, h, r).value)
  {
    hide SoundCampaign;
    var next := AfterSave(cfg, h, r).value;
    RecordIsRosterSlot(h.saved[r.payload.checkpoint].campaign, r.content.slot.Record());
    forall c | c in next.saved ensures SoundSaved(cfg, next, c, next.saved[c]) {
      assert SoundSaved(cfg, h, c, h.saved[c]);
    }
  }

  lemma CommitKeepsSound(cfg: Config, h: History, r: Record)
    requires Sound(cfg, h) && r.payload.CommitCheckpoint? && AfterCommit(h, r).Some?
    ensures Sound(cfg, AfterCommit(h, r).value)
  {
    hide SoundCampaign;
    var next := AfterCommit(h, r).value;
    forall c | c in next.saved ensures SoundSaved(cfg, next, c, next.saved[c]) {
      assert SoundSaved(cfg, h, c, h.saved[c]);
    }
  }

  lemma CheckpointKeepsSound(cfg: Config, h: History, r: Record)
    requires Sound(cfg, h)
    requires r.payload.CreateCandidate? || r.payload.SaveSlot? || r.payload.CommitCheckpoint?
    requires Next(cfg, h, r).Some?
    ensures Sound(cfg, Next(cfg, h, r).value)
  {
    hide Sound, AfterCandidate, AfterSave, AfterCommit;
    match r.payload
    case CreateCandidate(_, _) => CandidateKeepsSound(cfg, h, r);
    case SaveSlot(_, _) => SlotSaveKeepsSound(cfg, h, r);
    case CommitCheckpoint(_) => CommitKeepsSound(cfg, h, r);
  }

  lemma SavedStaySound(cfg: Config, h: History, next: History)
    requires Sound(cfg, h) && next.saved == h.saved && next.revision >= h.revision
    requires Records(next.campaign.roster) == Records(h.campaign.roster)
    ensures forall c :: c in next.saved ==> SoundSaved(cfg, next, c, next.saved[c])
  {
    hide SoundCampaign;
    forall c | c in next.saved ensures SoundSaved(cfg, next, c, next.saved[c]) {
      assert SoundSaved(cfg, h, c, h.saved[c]);
    }
  }

  lemma AcknowledgementKeepsSound(cfg: Config, h: History, r: Record)
    requires Sound(cfg, h)
    requires r.payload.BeginRecovery? || r.payload.RecoveryLoaded? || r.payload.SnapshotApplied?
             || r.payload.CompleteRecovery?
    requires Next(cfg, h, r).Some?
    ensures Sound(cfg, Next(cfg, h, r).value)
  {
    hide SoundCampaign, SoundSaved, CoreBytes, Apply;
    var next := Next(cfg, h, r).value;
    SavedStaySound(cfg, h, next);
    if r.payload.RecoveryLoaded? || r.payload.SnapshotApplied? {
      CheckpointHasRosterSlots(cfg, h, r.payload.checkpoint);
    }
    if r.payload.RecoveryLoaded? {
      ProvenSlotIsRosterSlot(h.saved[r.payload.checkpoint], r.payload.proof);
    } else if r.payload.SnapshotApplied? {
      RecordIsRosterSlot(h.saved[r.payload.checkpoint].campaign, r.payload.member);
    }
  }

  lemma CheckpointHasRosterSlots(cfg: Config, h: History, c: Id)
    requires Sound(cfg, h) && c in h.saved
    ensures SlotIds(h.saved[c].campaign) == SlotIds(h.campaign)
    ensures Records(h.saved[c].campaign.roster) == Records(h.campaign.roster)
  {
    hide SoundCampaign;
    assert SoundSaved(cfg, h, c, h.saved[c]);
    SameRecordsSameSlots(h.saved[c].campaign, h.campaign);
  }

  lemma RestoreKeepsSound(cfg: Config, h: History, r: Record)
    requires Sound(cfg, h) && r.payload.RestoreCheckpoint? && Next(cfg, h, r).Some?
    ensures Sound(cfg, Next(cfg, h, r).value)
  {
    hide ValidRoster, Ascending, IsMember, CoreBytes;
    var next := Next(cfg, h, r).value;
    var s := h.saved[r.payload.checkpoint];
    assert SoundSaved(cfg, h, r.payload.checkpoint, s);
    CheckpointHasRosterSlots(cfg, h, r.payload.checkpoint);
    SavedStaySound(cfg, h, next);
    InvIgnoresVersion(s.campaign, r.resulting);
    SameRecordsSameSlots(s.campaign, next.campaign);
  }

  lemma ProvenSlotIsRosterSlot(s: Saved, p: CheckpointSlot)
    requires p in CheckpointSlots(s)
    ensures p.slot in SlotIds(s.campaign)
  {
    var i :| 0 <= i < |CheckpointSlots(s)| && CheckpointSlots(s)[i] == p;
    assert s.campaign.roster[i].slot == p.slot;
  }

  lemma RecordIsRosterSlot(a: Aggregate, p: SlotRecord)
    requires p in Records(a.roster)
    ensures p.slot in SlotIds(a)
  {
    var i :| 0 <= i < |a.roster| && Records(a.roster)[i] == p;
    assert a.roster[i].slot == p.slot;
  }

  lemma NextKeepsSound(cfg: Config, h: History, r: Record)
    requires Sound(cfg, h) && Next(cfg, h, r).Some?
    ensures Sound(cfg, Next(cfg, h, r).value)
  {
    hide Sound;
    if r.payload.EditCampaign? {
      EditKeepsSound(cfg, h, r);
    } else if r.payload.CreateCandidate? || r.payload.SaveSlot? || r.payload.CommitCheckpoint? {
      CheckpointKeepsSound(cfg, h, r);
    } else if r.payload.RestoreCheckpoint? {
      RestoreKeepsSound(cfg, h, r);
    } else {
      AcknowledgementKeepsSound(cfg, h, r);
    }
  }

  /** Whatever journal is accepted, the campaign it describes obeys every rule. */
  lemma {:induction false} ReplayIsSound(cfg: Config, journal: seq<Record>)
    requires Replay(cfg, journal).Some?
    ensures Sound(cfg, Replay(cfg, journal).value)
  {
    hide Sound, Next, Created;
    if |journal| == 1 {
      CreatedIsSound(cfg, journal[0]);
    } else {
      var n := |journal| - 1;
      ReplayIsSound(cfg, journal[..n]);
      NextKeepsSound(cfg, Replay(cfg, journal[..n]).value, journal[n]);
    }
  }
}
