/** One campaign in the durable store: its current projection, its checkpoints
    and its journal. Every write is atomic, checks the expected revision and is
    idempotent by mutation identity. */
module CampaignStore {
  import opened Basics
  import opened CampaignState

  const MAX_REVISION: int := 0x7FFF_FFFF_FFFF_FFFF

  type Revision = n: int | 0 <= n <= MAX_REVISION

  /** A native-save proof: the identity of the save and what was measured of it. */
  datatype Artifact = Artifact(
    identity: Id,
    algorithm: Id,
    fingerprintVersion: nat,
    fingerprint: Bytes,
    metadataVersion: nat,
    metadata: Bytes)
  {
    predicate Complete() {
      && identity != [] && algorithm != [] && fingerprintVersion != 0
      && fingerprint != [] && metadataVersion != 0 && metadata != []
    }
  }

  datatype CheckpointSlot = CheckpointSlot(slot: Id, player: Id, binding: Id, artifact: Option<Artifact>) {
    function Record(): SlotRecord { SlotRecord(slot, player, binding) }
  }

  datatype Checkpoint = Checkpoint(
    id: Id,
    committedAt: Option<nat>,
    source: Revision,
    core: Bytes,
    slots: seq<CheckpointSlot>)

  /** Who asks for a change. An attempt is named by the revision that opened it. */
  datatype MutationId =
    | ClientMutation(id: Id)
    | CreateCandidateOf(checkpoint: Id)
    | AcknowledgeOf(checkpoint: Id, slot: Id)
    | CommitOf(checkpoint: Id)
    | BeginAt(expected: nat)
    | LoadedBy(slotHash: nat, attempt: nat)
    | RestoreOf(attempt: nat)
    | AppliedBy(slotHash: nat, attempt: nat)
    | CompleteOf(attempt: nat)

  /** The command a journal record stands for. */
  datatype Payload =
    | CreateCampaign(roster: seq<SlotRecord>)
    | EditCampaign(edit: Edit)
    | CreateCandidate(checkpoint: Id, identity: Id)
    | SaveSlot(checkpoint: Id, slot: Id)
    | CommitCheckpoint(checkpoint: Id)
    | BeginRecovery(member: SlotRecord, loadRequested: bool)
    | RecoveryLoaded(attempt: nat, checkpoint: Id, proof: CheckpointSlot)
    | RestoreCheckpoint(attempt: nat, checkpoint: Id)
    | SnapshotApplied(attempt: nat, checkpoint: Id, restore: nat, member: SlotRecord)
    | CompleteRecovery(attempt: nat, checkpoint: Id, restore: nat)

  /** What else the command digest of a request covers. */
  datatype Content =
    | NoChange
    | RevisionOnly
    | CoreState(core: Bytes, outbox: Bytes, seal: bool, roster: Option<seq<SlotRecord>>)
    | CandidateState(core: Bytes)
    | SlotSave(slot: CheckpointSlot)
    | Commit
    | RestoredState(core: Bytes)

  datatype RestoredFrom = RestoredFrom(checkpoint: Id, revision: nat)

  datatype Record = Record(
    mutation: MutationId,
    expected: nat,
    resulting: nat,
    payload: Payload,
    content: Content,
    restoredFrom: Option<RestoredFrom>)

  datatype Durable = Durable(
    revision: Revision,
    sealed: bool,
    core: Bytes,
    slots: seq<SlotRecord>,
    lastCommitted: Option<Id>,
    checkpoints: map<Id, Checkpoint>,
    journal: seq<Record>)

  datatype Request = Request(expected: nat, mutation: MutationId, payload: Payload, content: Content)

  datatype StoreError =
    | Stored
    | InvalidArgument
    | NotFound
    | AlreadyExists
    | Stale
    | IdempotencyConflict
    | Corrupt
    | Unavailable

  datatype Written = Written(d: Durable, error: StoreError, revision: nat, applied: bool, replay: bool)

  function Failed(d: Durable, error: StoreError): Written {
    Written(d, error, 0, false, false)
  }

  /** The store takes identities of at most 128 printable bytes. Around a checkpoint the
      reserved texts add 18 bytes to its identity, or 16 to it and a slot's together;
      the other reserved texts are never too long. */
  predicate Storable(m: MutationId) {
    match m
    case ClientMutation(id) => ValidIdentity(id)
    case CreateCandidateOf(c) => ValidIdentity(c) && |c| <= MAX_IDENTITY - 18
    case AcknowledgeOf(c, s) => ValidIdentity(c) && ValidIdentity(s) && |c| + |s| <= MAX_IDENTITY - 16
    case CommitOf(c) => ValidIdentity(c) && |c| <= MAX_IDENTITY - 18
    case _ => true
  }

  /** The journal position of a mutation, or the journal's length. */
  function JournalIndex(journal: seq<Record>, m: MutationId): nat {
    First(journal, (r: Record) => r.mutation == m)
  }

  /** A mutation that was used before is replayed, or conflicts. */
  function Replayed(d: Durable, q: Request): Option<Written> {
    var i := JournalIndex(d.journal, q.mutation);
    if i == |d.journal| then None
    else
      var r := d.journal[i];
      if r.expected != q.expected || r.payload != q.payload || r.content != q.content
      then Some(Failed(d, IdempotencyConflict))
      else Some(Written(d, Stored, r.resulting, false, true))
  }

  function Advanced(q: Request, resulting: nat, source: Option<RestoredFrom>): Record {
    Record(q.mutation, q.expected, resulting, q.payload, q.content, source)
  }

  function ApplyMutation(d: Durable, q: Request): Written
    requires q.content.NoChange? || q.content.RevisionOnly? || q.content.CoreState?
  {
    var advances := !q.content.NoChange?;
    var replay := Replayed(d, q);
    if !Storable(q.mutation) then Failed(d, InvalidArgument)
    else if replay.Some? then replay.value
    else if d.revision != q.expected then Failed(d, Stale)
    else if advances && d.revision >= MAX_REVISION then Failed(d, InvalidArgument)
    else if !advances then
      Written(d.(journal := d.journal + [Advanced(q, d.revision, None)]), Stored, d.revision, false, false)
    else if q.content.RevisionOnly? then
      Written(d.(revision := d.revision + 1, journal := d.journal + [Advanced(q, d.revision + 1, None)]),
              Stored, d.revision + 1, true, false)
    else
      var c := q.content;
      if d.sealed && c.roster.Some? then Failed(d, InvalidArgument)
      else if !d.sealed && c.seal && (if c.roster.Some? then c.roster.value else d.slots) == [] then
        Failed(d, InvalidArgument)
      else
        var next := d.(
          revision := d.revision + 1,
          core := c.core,
          sealed := d.sealed || c.seal,
          slots := if c.roster.Some? then BySlot(c.roster.value) else d.slots,
          journal := d.journal + [Advanced(q, d.revision + 1, None)]);
        Written(next, Stored, d.revision + 1, true, false)
  }

  function States(records: seq<SlotRecord>): (r: seq<SlotState>)
    ensures |r| == |records|
    ensures forall i :: 0 <= i < |r| ==> r[i] == ToSlotState(records[i])
  {
    seq(|records|, i requires 0 <= i < |records| => ToSlotState(records[i]))
  }

  /** The projection lists a roster in slot order. */
  function BySlot(records: seq<SlotRecord>): seq<SlotRecord> {
    Records(Sort(States(records)))
  }

  function EmptySlots(records: seq<SlotRecord>): (r: seq<CheckpointSlot>)
    ensures |r| == |records|
    ensures forall i :: 0 <= i < |r| ==>
              r[i] == CheckpointSlot(records[i].slot, records[i].player, records[i].binding, None)
  {
    seq(|records|, i requires 0 <= i < |records| =>
      CheckpointSlot(records[i].slot, records[i].player, records[i].binding, None))
  }

  function CreateCheckpointCandidate(d: Durable, q: Request, id: Id): Written
    requires q.content.CandidateState?
  {
    var replay := Replayed(d, q);
    if !Storable(q.mutation) then Failed(d, InvalidArgument)
    else if replay.Some? then replay.value
    else if d.revision != q.expected then Failed(d, Stale)
    else if !d.sealed || d.slots == [] then Failed(d, InvalidArgument)
    else if d.revision >= MAX_REVISION then Failed(d, InvalidArgument)
    else if id in d.checkpoints then Failed(d, AlreadyExists)
    else
      var candidate := Checkpoint(id, None, d.revision, q.content.core, EmptySlots(d.slots));
      var next := d.(
        revision := d.revision + 1,
        checkpoints := d.checkpoints[id := candidate],
        journal := d.journal + [Advanced(q, d.revision + 1, None)]);
      Written(next, Stored, d.revision + 1, true, false)
  }

  function CheckpointSlotIndex(slots: seq<CheckpointSlot>, slot: Id): nat {
    First(slots, (s: CheckpointSlot) => s.slot == slot)
  }

  function RecordSlotSave(d: Durable, q: Request, id: Id): Written
    requires q.content.SlotSave?
  {
    var s := q.content.slot;
    var replay := Replayed(d, q);
    if !Storable(q.mutation) || s.artifact.None? || !s.artifact.value.Complete() then Failed(d, InvalidArgument)
    else if replay.Some? then replay.value
    else if d.revision != q.expected then Failed(d, Stale)
    else if d.revision >= MAX_REVISION then Failed(d, InvalidArgument)
    else if id !in d.checkpoints then Failed(d, NotFound)
    else
      var c := d.checkpoints[id];
      var i := CheckpointSlotIndex(c.slots, s.slot);
      if i == |c.slots| then Failed(d, NotFound)
      else if c.committedAt.Some? then Failed(d, InvalidArgument)
      else if c.slots[i].Record() != s.Record() then Failed(d, InvalidArgument)
      else if c.slots[i].artifact.Some? then
        if c.slots[i].artifact == s.artifact then Written(d, Stored, d.revision, false, true)
        else Failed(d, IdempotencyConflict)
      else
        var next := d.(
          revision := d.revision + 1,
          checkpoints := d.checkpoints[id := c.(slots := c.slots[i := s])],
          journal := d.journal + [Advanced(q, d.revision + 1, None)]);
        Written(next, Stored, d.revision + 1, true, false)
  }

  function CommitCandidate(d: Durable, q: Request, id: Id): Written {
    var replay := Replayed(d, q);
    if !Storable(q.mutation) then Failed(d, InvalidArgument)
    else if replay.Some? then replay.value
    else if id !in d.checkpoints then Failed(d, NotFound)
    else
      var c := d.checkpoints[id];
      if c.committedAt.Some? then
        if d.lastCommitted == Some(id) then Written(d, Stored, c.committedAt.value, false, true)
        else Failed(d, IdempotencyConflict)
      else if d.revision != q.expected then Failed(d, Stale)
      else if d.revision >= MAX_REVISION then Failed(d, InvalidArgument)
      else if exists s :: s in c.slots && (s.artifact.None? || !s.artifact.value.Complete()) then
        Failed(d, InvalidArgument)
      else
        var next := d.(
          revision := d.revision + 1,
          lastCommitted := Some(id),
          checkpoints := d.checkpoints[id := c.(committedAt := Some(d.revision + 1))],
          journal := d.journal + [Advanced(q, d.revision + 1, None)]);
        Written(next, Stored, d.revision + 1, true, false)
  }

  function SlotRecords(slots: seq<CheckpointSlot>): (r: seq<SlotRecord>)
    ensures |r| == |slots|
    ensures forall i :: 0 <= i < |r| ==> r[i] == slots[i].Record()
  {
    seq(|slots|, i requires 0 <= i < |slots| => slots[i].Record())
  }

  function RestoreSnapshot(d: Durable, q: Request, id: Id): Written
    requires q.content.RestoredState?
  {
    var replay := Replayed(d, q);
    if replay.Some? then replay.value
    else if d.revision != q.expected then Failed(d, Stale)
    else if d.revision >= MAX_REVISION then Failed(d, InvalidArgument)
    else if id !in d.checkpoints then Failed(d, NotFound)
    else
      var c := d.checkpoints[id];
      if c.committedAt.None? then Failed(d, InvalidArgument)
      else if SlotRecords(c.slots) != d.slots then Failed(d, Corrupt)
      else
        var next := d.(
          revision := d.revision + 1,
          core := q.content.core,
          journal := d.journal + [Advanced(q, d.revision + 1, Some(RestoredFrom(id, c.source)))]);
        Written(next, Stored, d.revision + 1, true, false)
  }

  function LoadCheckpoint(d: Durable, id: Id): Option<Checkpoint> {
    if id in d.checkpoints then Some(d.checkpoints[id]) else None
  }

  function LoadLastCommitted(d: Durable): Option<Checkpoint> {
    if d.lastCommitted.Some? then LoadCheckpoint(d, d.lastCommitted.value) else None
  }
}
