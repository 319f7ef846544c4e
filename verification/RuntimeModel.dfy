/** The runtime service as functions of its durable and volatile state.
    Every operation takes the number of store calls that succeed before one
    fails; the failing call ends the operation and changes nothing durable. */
module RuntimeModel {
  import opened Basics
  import opened CampaignState
  import opened FullRoster
  import opened CampaignCoreCodec
  import opened CampaignStore
  import opened CampaignHistory

  datatype Stage = RecoveryLock | LoadingNativeSaves | ApplyingSnapshot

  datatype Reason = NoReason | RosterLoss | CampaignLoadRequested | NoCheckpoint | ClientLoadFailed

  datatype CheckpointActivity = CheckpointActivity(checkpoint: Id, source: nat, identity: Id)

  datatype RecoveryActivity = RecoveryActivity(
    attempt: nat,
    stage: Stage,
    reason: Reason,
    checkpoint: Option<Id>,
    source: nat,
    restore: Option<nat>,
    durableLoaded: set<Id>,
    durableApplied: set<Id>,
    loaded: set<Id>,
    applied: set<Id>)

  /** What a restart loses. */
  datatype Volatile = Volatile(active: Option<CheckpointActivity>, recovery: Option<RecoveryActivity>)

  datatype System = System(d: Durable, v: Volatile)

  datatype Reply = Reply(error: CampaignError, store: StoreError, version: nat, applied: bool, replay: bool)

  function Refuse(error: CampaignError): Reply { Reply(error, Stored, 0, false, false) }

  function Translate(error: StoreError): CampaignError {
    match error
    case Stored => NoError
    case Stale => StaleRevision
    case Corrupt => IntegrityFailure
    case _ => PersistenceFailure
  }

  function StoreFailure(error: StoreError): Reply { Reply(Translate(error), error, 0, false, false) }

  /** The store call itself failed. */
  const CALL_FAILED := StoreFailure(Unavailable)

  const INTEGRITY := StoreFailure(Corrupt)

  function FromWritten(w: Written): Reply {
    if w.error != Stored then StoreFailure(w.error) else Reply(NoError, Stored, w.revision, w.applied, w.replay)
  }

  /*
   * Loading the aggregate
   */

  predicate ProducesCore(r: Record) {
    && r.resulting > r.expected
    && !r.payload.CreateCandidate? && !r.payload.SaveSlot? && !r.payload.CommitCheckpoint?
    && !r.payload.BeginRecovery? && !r.payload.CompleteRecovery?
  }

  /** The restore that led to a revision, if the journal has one. */
  function RestoreInto(journal: seq<Record>, revision: nat): int {
    Last(journal, (r: Record) => r.resulting == revision && r.payload.RestoreCheckpoint? && r.restoredFrom.Some?)
  }

  /** Follows the lineage of restores until the payload decodes. */
  function DecodeAncestor(cfg: Config, records: seq<SlotRecord>, sealed: bool, payload: Bytes, journal: seq<Record>,
                          revision: nat, depth: nat): Option<Aggregate>
    decreases depth
  {
    if depth == 0 then None
    else
      var i := RestoreInto(journal, revision);
      if i < 0 || journal[i].restoredFrom.value.revision == revision then None
      else
        var ancestor := journal[i].restoredFrom.value.revision;
        var decoded := DecodeAt(cfg, records, sealed, payload, ancestor);
        if decoded.Some? then decoded
        else DecodeAncestor(cfg, records, sealed, payload, journal, ancestor, depth - 1)
  }

  function DecodeAt(cfg: Config, records: seq<SlotRecord>, sealed: bool, payload: Bytes, revision: nat)
    : Option<Aggregate>
  {
    if revision > MAX_U64 then None else DecodeCore(cfg.campaign, sealed, records, revision, payload)
  }

  function DecodeCanonical(cfg: Config, records: seq<SlotRecord>, sealed: bool, payload: Bytes, journal: seq<Record>,
                           preferred: nat, alternate: Option<nat>): Option<Aggregate>
  {
    var decoded := DecodeAt(cfg, records, sealed, payload, preferred);
    if decoded.Some? then decoded
    else if alternate.Some? && alternate.value != preferred then
      var other := DecodeAt(cfg, records, sealed, payload, alternate.value);
      if other.Some? then other
      else DecodeAncestor(cfg, records, sealed, payload, journal, alternate.value, |journal|)
    else DecodeAncestor(cfg, records, sealed, payload, journal, preferred, |journal|)
  }

  function CoreMutation(journal: seq<Record>): int {
    Last(journal, ProducesCore)
  }

  function LoadAggregate(cfg: Config, d: Durable): Option<Aggregate> {
    var i := CoreMutation(d.journal);
    if i < 0 then None
    else
      var a := DecodeCanonical(cfg, d.slots, d.sealed, d.core, d.journal, d.journal[i].resulting, None);
      if a.None? then None else Some(a.value.(version := d.revision))
  }

  /*
   * Rebuilding an open recovery from the journal
   */

  datatype Scan =
    | Broken
    | Scan(open: Option<RecoveryActivity>, loadedAcks: seq<Record>, appliedAcks: seq<Record>)

  function Opened(attempt: nat): RecoveryActivity {
    RecoveryActivity(attempt, RecoveryLock, RosterLoss, None, 0, None, {}, {}, {}, {})
  }

  function ScanRecord(s: Scan, r: Record): Scan {
    if s.Broken? then s
    else if r.payload.BeginRecovery? then
      if s.open.Some? || r.mutation != BeginAt(r.expected) || r.resulting != r.expected + 1 then Broken
      else Scan(Some(Opened(r.resulting)), [], [])
    else if s.open.None? then s
    else if r.payload.RecoveryLoaded? then s.(loadedAcks := s.loadedAcks + [r])
    else if r.payload.SnapshotApplied? then s.(appliedAcks := s.appliedAcks + [r])
    else if r.payload.RestoreCheckpoint? && r.mutation == RestoreOf(s.open.value.attempt) then
      if r.restoredFrom.None?
         || r.payload != RestoreCheckpoint(s.open.value.attempt, r.restoredFrom.value.checkpoint)
         || r.resulting != r.expected + 1
      then Broken
      else s.(open := Some(s.open.value.(
        checkpoint := Some(r.restoredFrom.value.checkpoint),
        source := r.restoredFrom.value.revision,
        restore := Some(r.resulting),
        stage := RecoveryLock,
        reason := NoReason)))
    else if r.payload.CompleteRecovery? && r.mutation == CompleteOf(s.open.value.attempt) then
      if s.open.value.checkpoint.None? || s.open.value.restore.None?
         || r.resulting != s.open.value.restore.value
         || r.payload != CompleteRecovery(s.open.value.attempt, s.open.value.checkpoint.value,
                                          s.open.value.restore.value)
      then Broken
      else Scan(None, [], [])
    else s
  }

  function ScanJournal(journal: seq<Record>): Scan {
    if journal == [] then Scan(None, [], [])
    else ScanRecord(ScanJournal(journal[..|journal| - 1]), journal[|journal| - 1])
  }

  /** The two kinds of slot acknowledgement an attempt journals. */
  datatype Ack = LoadAck(attempt: nat) | ApplyAck(attempt: nat, restore: nat)

  function AckMutation(cfg: Config, k: Ack, slot: Id): MutationId {
    match k
    case LoadAck(attempt) => LoadedBy(cfg.slotHash(slot), attempt)
    case ApplyAck(attempt, _) => AppliedBy(cfg.slotHash(slot), attempt)
  }

  function AckPayload(k: Ack, checkpoint: Id, s: CheckpointSlot): Payload {
    match k
    case LoadAck(attempt) => RecoveryLoaded(attempt, checkpoint, s)
    case ApplyAck(attempt, restore) => SnapshotApplied(attempt, checkpoint, restore, s.Record())
  }

  /** The slot whose acknowledgement mutation a record carries. */
  function AckIndex(cfg: Config, slots: seq<CheckpointSlot>, k: Ack, r: Record): nat {
    First(slots, (s: CheckpointSlot) => r.mutation == AckMutation(cfg, k, s.slot))
  }

  /** The slots a list of acknowledgements proves, if every one is exact. */
  function AckedSlots(cfg: Config, c: Checkpoint, k: Ack, acks: seq<Record>): Option<set<Id>> {
    if acks == [] then Some({})
    else
      var n := |acks| - 1;
      var before := AckedSlots(cfg, c, k, acks[..n]);
      if before.None? then None
      else
        var i := AckIndex(cfg, c.slots, k, acks[n]);
        if i == |c.slots| || acks[n].expected != acks[n].resulting
           || acks[n].payload != AckPayload(k, c.id, c.slots[i])
           || c.slots[i].slot in before.value
        then None
        else Some(before.value + {c.slots[i].slot})
  }

  /** The result of a preliminary step: what it left behind, whether it stops
      the operation, and how many store calls may still succeed. */
  datatype Gate = Gate(v: Volatile, failure: Option<Reply>, left: nat)

  function Spent(calls: nat, used: nat): nat {
    if calls >= used then calls - used else 0
  }

  function Rebuild(cfg: Config, d: Durable, v: Volatile, scan: Scan, calls: nat): Gate
    requires scan.Scan? && scan.open.Some?
  {
    var open := scan.open.value;
    if scan.loadedAcks == [] && scan.appliedAcks == [] then
      Gate(v.(recovery := Some(open)), None, calls)
    else if calls < 1 then Gate(v, Some(CALL_FAILED), 0)
    else
      var c := if open.checkpoint.Some? then LoadCheckpoint(d, open.checkpoint.value) else LoadLastCommitted(d);
      if c.None? then Gate(v, Some(StoreFailure(NotFound)), calls - 1)
      else
        var a := if open.checkpoint.Some? then open
                 else open.(checkpoint := Some(c.value.id), source := c.value.source);
        var restore := if a.restore.Some? then a.restore.value else 0;
        var loaded := AckedSlots(cfg, c.value, LoadAck(a.attempt), scan.loadedAcks);
        var applied := AckedSlots(cfg, c.value, ApplyAck(a.attempt, restore), scan.appliedAcks);
        if loaded.None? || (scan.appliedAcks != [] && a.restore.None?) || applied.None? then
          Gate(v, Some(INTEGRITY), calls - 1)
        else
          Gate(v.(recovery := Some(a.(durableLoaded := loaded.value, durableApplied := applied.value))), None,
               calls - 1)
  }

  function ReconstructRecovery(cfg: Config, s: System, calls: nat): Gate {
    if s.v.recovery.Some? then Gate(s.v, None, calls)
    else if calls < 1 then Gate(s.v, Some(CALL_FAILED), 0)
    else
      var scan := ScanJournal(s.d.journal);
      if scan.Broken? then Gate(s.v, Some(INTEGRITY), calls - 1)
      else if scan.open.None? then Gate(s.v, None, calls - 1)
      else Rebuild(cfg, s.d, s.v, scan, calls - 1)
  }

  function CheckMutationFence(cfg: Config, s: System, calls: nat): Gate {
    if s.v.active.Some? then Gate(s.v, Some(Refuse(CheckpointInProgress)), calls)
    else
      var g := ReconstructRecovery(cfg, s, calls);
      if g.failure.None? && g.v.recovery.Some? then g.(failure := Some(Refuse(RecoveryInProgress))) else g
  }

  /*
   * Campaign edits
   */

  datatype Command = Command(expected: nat, mutation: Id, edit: Edit)

  function FindReplay(journal: seq<Record>, c: Command): Option<Reply> {
    var i := JournalIndex(journal, ClientMutation(c.mutation));
    if i == |journal| then None
    else
      var r := journal[i];
      if r.expected != c.expected || r.payload != EditCampaign(c.edit) then
        Some(StoreFailure(IdempotencyConflict).(version := r.resulting))
      else Some(Reply(NoError, Stored, r.resulting, false, true))
  }

  function PersistNoOp(d: Durable, c: Command): Written {
    ApplyMutation(d, Request(c.expected, ClientMutation(c.mutation), EditCampaign(c.edit), NoChange))
  }

  function PersistEdit(d: Durable, c: Command, a: Aggregate): Written {
    var core := EncodeCore(a);
    var intent := EncodeIntent(a);
    if core.None? || intent.None? then Failed(d, InvalidArgument)
    else
      var roster := if RosterEdit(c.edit) then Some(Records(a.roster)) else None;
      ApplyMutation(d, Request(c.expected, ClientMutation(c.mutation), EditCampaign(c.edit),
                               CoreState(core.value, intent.value, c.edit.Start?, roster)))
  }

  datatype EditResult = EditResult(s: System, reply: Reply)

  function PersistOutcome(s: System, c: Command, o: Outcome, calls: nat): EditResult {
    var noOp := !o.changed && MayBeNoOp(c.edit);
    if o.error != NoError then EditResult(s, Refuse(o.error))
    else if calls < 1 && (noOp || (EncodeCore(o.campaign).Some? && EncodeIntent(o.campaign).Some?)) then
      EditResult(s, CALL_FAILED)
    else
      var w := if noOp then PersistNoOp(s.d, c) else PersistEdit(s.d, c, o.campaign);
      EditResult(s.(d := w.d), FromWritten(w))
  }

  function EditOp(cfg: Config, s: System, c: Command, calls: nat): EditResult {
    var g := CheckMutationFence(cfg, s, calls);
    var s1 := s.(v := g.v);
    if g.failure.Some? then EditResult(s1, g.failure.value)
    else if g.left < 1 then EditResult(s1, CALL_FAILED)
    else if FindReplay(s.d.journal, c).Some? then EditResult(s1, FindReplay(s.d.journal, c).value)
    else if g.left < 3 then EditResult(s1, CALL_FAILED)
    else
      var loaded := LoadAggregate(cfg, s.d);
      if loaded.None? then EditResult(s1, INTEGRITY)
      else if loaded.value.version != c.expected then
        EditResult(s1, StoreFailure(Stale).(version := loaded.value.version))
      else PersistOutcome(s1, c, Apply(loaded.value, c.edit), g.left - 3)
  }

  /*
   * Checkpoints
   */

  datatype CheckpointResult = CheckpointResult(s: System, reply: Reply, committed: bool)

  function CheckpointReply(s: System, reply: Reply): CheckpointResult { CheckpointResult(s, reply, false) }

  function PersistCandidate(s: System, c: Id, identity: Id, a: Aggregate, calls: nat): CheckpointResult {
    var core := EncodeCore(a);
    if core.None? then CheckpointReply(s, StoreFailure(InvalidArgument))
    else if calls < 1 then CheckpointReply(s, CALL_FAILED)
    else
      var q := Request(a.version, CreateCandidateOf(c), CreateCandidate(c, identity), CandidateState(core.value));
      var w := CreateCheckpointCandidate(s.d, q, c);
      if w.error != Stored then CheckpointReply(s, StoreFailure(w.error))
      else
        var activity := CheckpointActivity(c, a.version, identity);
        CheckpointReply(System(w.d, s.v.(active := Some(activity))), FromWritten(w))
  }

  function BeginCheckpointOp(cfg: Config, s: System, c: Id, identity: Id, presence: seq<Presence>, calls: nat)
    : CheckpointResult
  {
    if s.v.active.Some? then CheckpointReply(s, Refuse(CheckpointInProgress))
    else
      var g := CheckMutationFence(cfg, s, calls);
      var s1 := s.(v := g.v);
      if g.failure.Some? then CheckpointReply(s1, g.failure.value)
      else if c == [] || identity != SaveIdentity(c) then CheckpointReply(s1, Refuse(InvalidIdentity))
      else if g.left < 2 then CheckpointReply(s1, CALL_FAILED)
      else
        var loaded := LoadAggregate(cfg, s.d);
        if loaded.None? then CheckpointReply(s1, INTEGRITY)
        else if EvaluateFullRoster(loaded.value, presence) != Eligible then
          CheckpointReply(s1, Refuse(if loaded.value.sealed then RosterIncomplete else RosterNotSealed))
        else PersistCandidate(s1, c, identity, loaded.value, g.left - 2)
  }

  /** A client's report about the native save of its slot. */
  datatype SaveReport = SaveReport(checkpoint: Id, actor: Member, proof: Artifact)

  function MemberSlotIndex(slots: seq<CheckpointSlot>, actor: Member): nat {
    First(slots, (s: CheckpointSlot) => s.Record() == actor.Record())
  }

  predicate ReportMatches(cfg: Config, active: CheckpointActivity, checkpoint: Id, identity: Id, actor: Member) {
    active.checkpoint == checkpoint && active.identity == identity && actor.campaign == cfg.campaign
  }

  function CommitIfComplete(cfg: Config, s: System, active: CheckpointActivity, reply: Reply, calls: nat)
    : CheckpointResult
  {
    var id := active.checkpoint;
    if calls < 1 then CheckpointReply(s, CALL_FAILED)
    else if id !in s.d.checkpoints then CheckpointReply(s, StoreFailure(NotFound))
    else
      var slots := s.d.checkpoints[id].slots;
      if slots == [] || exists x :: x in slots && !ExactArtifact(cfg, x, active.identity) then CheckpointReply(s, reply)
      else if calls < 3 then CheckpointReply(s, CALL_FAILED)
      else
        var w := CommitCandidate(s.d, Request(s.d.revision, CommitOf(id), CommitCheckpoint(id), Commit), id);
        if w.error != Stored then CheckpointReply(s.(d := w.d), StoreFailure(w.error))
        else CheckpointResult(System(w.d, s.v.(active := None)), FromWritten(w), true)
  }

  function RecordSaveOp(cfg: Config, s: System, c: SaveReport, calls: nat): CheckpointResult {
    var g := ReconstructRecovery(cfg, s, calls);
    var s1 := s.(v := g.v);
    if g.failure.Some? then CheckpointReply(s1, g.failure.value)
    else if g.v.recovery.Some? then CheckpointReply(s1, Refuse(RecoveryInProgress))
    else if g.v.active.None? then CheckpointReply(s1, Refuse(CheckpointNotActive))
    else if !ReportMatches(cfg, g.v.active.value, c.checkpoint, c.proof.identity, c.actor) then
      CheckpointReply(s1, Refuse(CheckpointMismatch))
    else if g.left < 1 then CheckpointReply(s1, CALL_FAILED)
    else if c.checkpoint !in s.d.checkpoints then CheckpointReply(s1, StoreFailure(NotFound))
    else
      var slots := s.d.checkpoints[c.checkpoint].slots;
      var i := MemberSlotIndex(slots, c.actor);
      if i == |slots| then CheckpointReply(s1, Refuse(NotCampaignMember))
      else RecordSlot(cfg, s1, g.v.active.value, slots[i].(artifact := Some(c.proof)), g.left - 1)
  }

  function RecordSlot(cfg: Config, s: System, active: CheckpointActivity, canonical: CheckpointSlot, calls: nat)
    : CheckpointResult
  {
    var id := active.checkpoint;
    if !ExactArtifact(cfg, canonical, active.identity) then CheckpointReply(s, Refuse(InvalidCheckpointArtifact))
    else if calls < 1 then CheckpointReply(s, CALL_FAILED)
    else
      var mutation := AcknowledgeOf(id, canonical.slot);
      var i := JournalIndex(s.d.journal, mutation);
      var used := if i < |s.d.journal| then 1 else 2;
      if calls <= used then CheckpointReply(s, CALL_FAILED)
      else
        var expected := if i < |s.d.journal| then s.d.journal[i].expected else s.d.revision;
        var w := RecordSlotSave(s.d, Request(expected, mutation, SaveSlot(id, canonical.slot), SlotSave(canonical)),
                                id);
        if w.error != Stored then CheckpointReply(s, StoreFailure(w.error))
        else CommitIfComplete(cfg, s.(d := w.d), active, FromWritten(w), calls - used - 1)
  }

  function FailCheckpointOp(cfg: Config, s: System, checkpoint: Id, identity: Id, actor: Member, calls: nat)
    : CheckpointResult
  {
    var g := ReconstructRecovery(cfg, s, calls);
    var s1 := s.(v := g.v);
    if g.failure.Some? then CheckpointReply(s1, g.failure.value)
    else if g.v.recovery.Some? then CheckpointReply(s1, Refuse(RecoveryInProgress))
    else if g.v.active.None? then CheckpointReply(s1, Refuse(CheckpointNotActive))
    else if !ReportMatches(cfg, g.v.active.value, checkpoint, identity, actor) then
      CheckpointReply(s1, Refuse(CheckpointMismatch))
    else if g.left < 1 then CheckpointReply(s1, CALL_FAILED)
    else if checkpoint !in s.d.checkpoints then CheckpointReply(s1, StoreFailure(NotFound))
    else
      var slots := s.d.checkpoints[checkpoint].slots;
      if MemberSlotIndex(slots, actor) == |slots| then CheckpointReply(s1, Refuse(NotCampaignMember))
      else if g.left < 2 then CheckpointReply(s1, CALL_FAILED)
      else CheckpointReply(s1.(v := g.v.(active := None)), Reply(NoError, Stored, s.d.revision, false, false))
  }

  function AbandonOp(s: System): System { s.(v := s.v.(active := None)) }

  /*
   * Recovery
   */

  datatype Dispatch = NoDispatch | NativeLoad | RestoredSnapshot

  datatype RecoveryResult = RecoveryResult(s: System, reply: Reply, dispatch: Dispatch, barrier: bool, completed: bool)

  function RecoveryReply(s: System, reply: Reply): RecoveryResult {
    RecoveryResult(s, reply, NoDispatch, false, false)
  }

  function Recovering(s: System, a: RecoveryActivity): System { s.(v := s.v.(recovery := Some(a))) }

  datatype LossReport = LossReport(member: Member, presence: seq<Presence>, running: bool, loadRequested: bool)

  function ReasonOf(loadRequested: bool): Reason {
    if loadRequested then CampaignLoadRequested else RosterLoss
  }

  /** A roster loss while an attempt is open takes it back to its lock. */
  function Relocked(a: RecoveryActivity, loadRequested: bool): RecoveryActivity {
    var locked := if a.stage != RecoveryLock then a.(stage := RecoveryLock, loaded := {}, applied := {}) else a;
    locked.(reason := ReasonOf(loadRequested))
  }

  function OpenRecovery(s: System, c: LossReport, a: Aggregate, calls: nat): RecoveryResult {
    var idle := s.(v := s.v.(active := None));
    if calls < 1 then RecoveryReply(idle, CALL_FAILED)
    else
      var q := Request(a.version, BeginAt(a.version), BeginRecovery(c.member.Record(), c.loadRequested), RevisionOnly);
      var w := ApplyMutation(s.d, q);
      if w.error != Stored then RecoveryReply(idle, StoreFailure(w.error))
      else
        var activity := Opened(w.revision).(reason := ReasonOf(c.loadRequested));
        RecoveryReply(Recovering(idle.(d := w.d), activity), FromWritten(w))
  }

  /** A new attempt needs a running, sealed campaign, an exact member and the
      roster condition of its cause. */
  function StartRecovery(cfg: Config, s: System, c: LossReport, calls: nat): RecoveryResult {
    if !c.running then RecoveryReply(s, Refuse(RecoveryNotActive))
    else if calls < 2 then RecoveryReply(s, CALL_FAILED)
    else
      var loaded := LoadAggregate(cfg, s.d);
      if loaded.None? then RecoveryReply(s, INTEGRITY)
      else if !loaded.value.sealed then RecoveryReply(s, Refuse(RosterNotSealed))
      else if MemberIndex(loaded.value.roster, c.member.Record()) == |loaded.value.roster| then
        RecoveryReply(s, Refuse(NotCampaignMember))
      else
        var full := EvaluateFullRoster(loaded.value, c.presence) == Eligible;
        if !c.loadRequested && full then RecoveryReply(s, Refuse(InvalidRoster))
        else if c.loadRequested && !full then RecoveryReply(s, Refuse(RosterIncomplete))
        else OpenRecovery(s, c, loaded.value, calls - 2)
  }

  function BeginRecoveryOp(cfg: Config, s: System, c: LossReport, calls: nat): RecoveryResult {
    if c.member.campaign != cfg.campaign then RecoveryReply(s, Refuse(RecoveryMismatch))
    else
      var g := ReconstructRecovery(cfg, s, calls);
      var s1 := s.(v := g.v);
      if g.failure.Some? then RecoveryReply(s1, g.failure.value)
      else if g.v.recovery.Some? then
        var s2 := Recovering(s1, Relocked(g.v.recovery.value, c.loadRequested));
        if g.left < 1 then RecoveryReply(s2, CALL_FAILED)
        else RecoveryReply(s2, Reply(NoError, Stored, s.d.revision, false, true))
      else StartRecovery(cfg, s1, c, g.left)
  }

  /** A committed checkpoint with an exact proof for every slot. */
  predicate Recoverable(cfg: Config, c: Checkpoint, members: nat) {
    && c.committedAt.Some? && |c.slots| == members
    && forall x :: x in c.slots ==> x.artifact.Some? && ExactArtifact(cfg, x, x.artifact.value.identity)
  }

  function StartLoading(a: RecoveryActivity, c: Checkpoint): RecoveryActivity {
    var cleared := if a.stage == RecoveryLock then a.(loaded := {}, applied := {}) else a;
    cleared.(stage := LoadingNativeSaves, reason := NoReason, checkpoint := Some(c.id), source := c.source)
  }

  function PrepareRecoveryOp(cfg: Config, s: System, presence: seq<Presence>, calls: nat): RecoveryResult {
    var g := ReconstructRecovery(cfg, s, calls);
    var s1 := s.(v := g.v);
    if g.failure.Some? then RecoveryReply(s1, g.failure.value)
    else if g.v.recovery.None? then RecoveryReply(s1, Refuse(RecoveryNotActive))
    else if g.left < 2 then RecoveryReply(s1, CALL_FAILED)
    else
      var a := g.v.recovery.value;
      var loaded := LoadAggregate(cfg, s.d);
      if loaded.None? then RecoveryReply(s1, INTEGRITY)
      else
        var version := loaded.value.version;
        if EvaluateFullRoster(loaded.value, presence) != Eligible then
          RecoveryReply(Recovering(s1, a.(reason := RosterLoss)), Refuse(RosterIncomplete).(version := version))
        else if a.stage == ApplyingSnapshot then
          if a.checkpoint.None? || a.restore.None? then RecoveryReply(s1, INTEGRITY)
          else if g.left < 3 then RecoveryReply(s1, CALL_FAILED)
          else if a.checkpoint.value !in s.d.checkpoints then RecoveryReply(s1, StoreFailure(NotFound))
          else RecoveryResult(Recovering(s1, a.(reason := NoReason)), Reply(NoError, Stored, version, false, false),
                              RestoredSnapshot, false, false)
        else if g.left < 3 then RecoveryReply(s1, CALL_FAILED)
        else
          var c := if a.checkpoint.Some? then LoadCheckpoint(s.d, a.checkpoint.value) else LoadLastCommitted(s.d);
          if c.None? then
            RecoveryReply(Recovering(s1, a.(reason := NoCheckpoint)),
                          Refuse(NoCommittedCheckpoint).(version := version))
          else if !Recoverable(cfg, c.value, |loaded.value.roster|) then RecoveryReply(s1, INTEGRITY)
          else RecoveryResult(Recovering(s1, StartLoading(a, c.value)), Reply(NoError, Stored, version, false, false),
                              NativeLoad, false, false)
  }

  /** A client's report that it reloaded the native save of an attempt. */
  datatype LoadedReport = LoadedReport(
    attempt: nat, checkpoint: Id, actor: Member, succeeded: bool, proof: Artifact, presence: seq<Presence>)

  predicate ProofMatches(cfg: Config, s: CheckpointSlot, proof: Artifact) {
    s.artifact == Some(proof) && ExactArtifact(cfg, s, proof.identity)
  }

  /** The core mutation a checkpoint's source revision was reached with. */
  function HistoricalRevision(journal: seq<Record>, source: nat): Option<nat> {
    var i := Last(journal, (r: Record) => r.resulting <= source && ProducesCore(r));
    if i < 0 then None else Some(journal[i].resulting)
  }

  /** The checkpoint's core state, rebased to the revision it is restored at. */
  function RestoredCore(cfg: Config, d: Durable, c: Checkpoint): (StoreError, Bytes) {
    var core := DecodeCanonical(cfg, SlotRecords(c.slots), true, c.core, d.journal, c.source,
                                HistoricalRevision(d.journal, c.source));
    if core.None? then (Corrupt, [])
    else
      var payload := EncodeCore(core.value.(version := d.revision + 1));
      if payload.None? then (InvalidArgument, []) else (Stored, payload.value)
  }

  /** The first barrier: every member has reloaded, so the snapshot is restored. */
  function FireRestore(cfg: Config, s: System, a: RecoveryActivity, c: Checkpoint, reply: Reply, calls: nat)
    : RecoveryResult
  {
    if calls < 1 then RecoveryReply(s, CALL_FAILED)
    else
      var i := JournalIndex(s.d.journal, RestoreOf(a.attempt));
      if i < |s.d.journal| then
        var r := s.d.journal[i];
        if !r.payload.RestoreCheckpoint? || r.restoredFrom != Some(RestoredFrom(c.id, c.source)) then
          RecoveryReply(s, INTEGRITY)
        else SnapshotReady(s, a, reply.(version := r.resulting, replay := true))
      else if calls < 2 then RecoveryReply(s, CALL_FAILED)
      else
        var core := RestoredCore(cfg, s.d, c);
        if core.0 != Stored then RecoveryReply(s, StoreFailure(core.0))
        else if calls < 3 then RecoveryReply(s, CALL_FAILED)
        else
          var w := RestoreSnapshot(s.d, Request(s.d.revision, RestoreOf(a.attempt), RestoreCheckpoint(a.attempt, c.id),
                                                RestoredState(core.1)), c.id);
          if w.error != Stored then RecoveryReply(s, StoreFailure(w.error))
          else SnapshotReady(s.(d := w.d), a, FromWritten(w))
  }

  function SnapshotReady(s: System, a: RecoveryActivity, reply: Reply): RecoveryResult {
    var applying := a.(stage := ApplyingSnapshot, reason := NoReason, restore := Some(reply.version), applied := {});
    RecoveryResult(Recovering(s, applying), reply, RestoredSnapshot, true, false)
  }

  function AcknowledgeLoad(cfg: Config, s: System, a: RecoveryActivity, version: nat, c: Checkpoint, x: CheckpointSlot,
                           calls: nat)
    : RecoveryResult
  {
    var durable := x.slot in a.durableLoaded;
    if !durable && calls < 1 then RecoveryReply(s, CALL_FAILED)
    else
      var q := Request(version, LoadedBy(cfg.slotHash(x.slot), a.attempt), RecoveryLoaded(a.attempt, c.id, x),
                       NoChange);
      var w := if durable then Written(s.d, Stored, version, false, false) else ApplyMutation(s.d, q);
      if w.error != Stored then RecoveryReply(s, StoreFailure(w.error))
      else
        var a1 := a.(durableLoaded := a.durableLoaded + {x.slot});
        var reply := FromWritten(w);
        if a.stage == ApplyingSnapshot then
          RecoveryResult(Recovering(s.(d := w.d), a1), reply.(replay := true), RestoredSnapshot, true, false)
        else
          var a2 := a1.(loaded := a.loaded + {x.slot});
          var s2 := Recovering(s.(d := w.d), a2);
          var reply2 := reply.(replay := durable || x.slot in a.loaded);
          if |a2.loaded| != |c.slots| then RecoveryReply(s2, reply2)
          else FireRestore(cfg, s2, a2, c, reply2, if durable then calls else calls - 1)
  }

  function RecordLoadedOp(cfg: Config, s: System, c: LoadedReport, calls: nat): RecoveryResult {
    var g := ReconstructRecovery(cfg, s, calls);
    var s1 := s.(v := g.v);
    if g.failure.Some? then RecoveryReply(s1, g.failure.value)
    else if g.v.recovery.None? then RecoveryReply(s1, Refuse(RecoveryNotActive))
    else
      var a := g.v.recovery.value;
      if a.attempt != c.attempt || a.checkpoint != Some(c.checkpoint) || c.actor.campaign != cfg.campaign then
        RecoveryReply(s1, Refuse(RecoveryMismatch))
      else if g.left < 2 then RecoveryReply(s1, CALL_FAILED)
      else
        var loaded := LoadAggregate(cfg, s.d);
        if loaded.None? then RecoveryReply(s1, INTEGRITY)
        else if EvaluateFullRoster(loaded.value, c.presence) != Eligible then
          RecoveryReply(s1, Refuse(RosterIncomplete).(version := loaded.value.version))
        else if g.left < 3 then RecoveryReply(s1, CALL_FAILED)
        else if c.checkpoint !in s.d.checkpoints then RecoveryReply(s1, StoreFailure(NotFound))
        else CheckLoad(cfg, s1, a, loaded.value.version, s.d.checkpoints[c.checkpoint], c, g.left - 3)
  }

  function CheckLoad(cfg: Config, s: System, a: RecoveryActivity, version: nat, k: Checkpoint, c: LoadedReport,
                     calls: nat)
    : RecoveryResult
  {
    var i := MemberSlotIndex(k.slots, c.actor);
    if i == |k.slots| then RecoveryReply(s, Refuse(NotCampaignMember))
    else if !c.succeeded then
      RecoveryReply(Recovering(s, a.(reason := ClientLoadFailed)),
                    Refuse(InvalidCheckpointArtifact).(version := version))
    else if !ProofMatches(cfg, k.slots[i], c.proof) then
      RecoveryReply(s, Refuse(InvalidCheckpointArtifact).(version := version))
    else if a.stage == RecoveryLock then RecoveryReply(s, Refuse(RecoveryMismatch).(version := version))
    else AcknowledgeLoad(cfg, s, a, version, k, k.slots[i], calls)
  }

  /** A client's report that it applied the restored snapshot of an attempt. */
  datatype AppliedReport = AppliedReport(
    attempt: nat, checkpoint: Id, restore: nat, actor: Member, presence: seq<Presence>)

  /** The journal position of the completion a late acknowledgement refers to. */
  function CompletionIndex(journal: seq<Record>, c: AppliedReport): nat {
    First(journal, (r: Record) =>
      && r.mutation == CompleteOf(c.attempt) && r.resulting == c.restore
      && r.payload == CompleteRecovery(c.attempt, c.checkpoint, c.restore))
  }

  function AlreadyCompleted(s: System, c: AppliedReport, calls: nat): RecoveryResult {
    if calls < 1 then RecoveryReply(s, CALL_FAILED)
    else if c.checkpoint !in s.d.checkpoints then RecoveryReply(s, StoreFailure(NotFound))
    else if MemberSlotIndex(s.d.checkpoints[c.checkpoint].slots, c.actor) == |s.d.checkpoints[c.checkpoint].slots| then
      RecoveryReply(s, Refuse(NotCampaignMember))
    else if calls < 2 then RecoveryReply(s, CALL_FAILED)
    else
      var i := CompletionIndex(s.d.journal, c);
      if i == |s.d.journal| then RecoveryReply(s, Refuse(RecoveryNotActive))
      else RecoveryResult(s, Reply(NoError, Stored, s.d.journal[i].resulting, false, true), NoDispatch, false, true)
  }

  function AcknowledgeSnapshot(cfg: Config, s: System, a: RecoveryActivity, version: nat, k: Checkpoint,
                               x: CheckpointSlot, c: AppliedReport, calls: nat): RecoveryResult
  {
    var durable := x.slot in a.durableApplied;
    if !durable && calls < 1 then RecoveryReply(s, CALL_FAILED)
    else
      var q := Request(version, AppliedBy(cfg.slotHash(x.slot), a.attempt),
                       SnapshotApplied(a.attempt, k.id, c.restore, x.Record()), NoChange);
      var w := if durable then Written(s.d, Stored, version, false, false) else ApplyMutation(s.d, q);
      if w.error != Stored then RecoveryReply(s, StoreFailure(w.error))
      else
        var a1 := a.(durableApplied := a.durableApplied + {x.slot}, applied := a.applied + {x.slot});
        var s1 := Recovering(s.(d := w.d), a1);
        var reply := FromWritten(w).(replay := durable || x.slot in a.applied);
        if |a1.applied| != |k.slots| then RecoveryReply(s1, reply)
        else Complete(s1, a1, c, if durable then calls else calls - 1)
  }

  /** The second barrier: every member applied the snapshot, so the attempt ends. */
  function Complete(s: System, a: RecoveryActivity, c: AppliedReport, calls: nat): RecoveryResult {
    if calls < 1 then RecoveryReply(s, CALL_FAILED)
    else
      var q := Request(c.restore, CompleteOf(c.attempt), CompleteRecovery(c.attempt, c.checkpoint, c.restore),
                       NoChange);
      var w := ApplyMutation(s.d, q);
      if w.error != Stored then RecoveryReply(s, StoreFailure(w.error))
      else RecoveryResult(System(w.d, s.v.(recovery := None)), FromWritten(w), NoDispatch, false, true)
  }

  function RecordAppliedOp(cfg: Config, s: System, c: AppliedReport, calls: nat): RecoveryResult {
    var g := ReconstructRecovery(cfg, s, calls);
    var s1 := s.(v := g.v);
    if g.failure.Some? then RecoveryReply(s1, g.failure.value)
    else if g.v.recovery.None? then AlreadyCompleted(s1, c, g.left)
    else
      var a := g.v.recovery.value;
      if a.stage != ApplyingSnapshot || a.attempt != c.attempt || a.checkpoint != Some(c.checkpoint)
         || a.restore != Some(c.restore) || c.actor.campaign != cfg.campaign then
        RecoveryReply(s1, Refuse(RecoveryMismatch))
      else if g.left < 2 then RecoveryReply(s1, CALL_FAILED)
      else
        var loaded := LoadAggregate(cfg, s.d);
        if loaded.None? then RecoveryReply(s1, INTEGRITY)
        else if EvaluateFullRoster(loaded.value, c.presence) != Eligible then
          RecoveryReply(s1, Refuse(RosterIncomplete).(version := loaded.value.version))
        else if g.left < 3 then RecoveryReply(s1, CALL_FAILED)
        else if c.checkpoint !in s.d.checkpoints then RecoveryReply(s1, StoreFailure(NotFound))
        else
          var k := s.d.checkpoints[c.checkpoint];
          var i := MemberSlotIndex(k.slots, c.actor);
          if i == |k.slots| then RecoveryReply(s1, Refuse(NotCampaignMember))
          else AcknowledgeSnapshot(cfg, s1, a, loaded.value.version, k, k.slots[i], c, g.left - 3)
  }

  /*
   * Runs
   */

  datatype Step =
    | DoEdit(command: Command, calls: nat)
    | DoBeginCheckpoint(checkpoint: Id, identity: Id, presence: seq<Presence>, calls: nat)
    | DoRecordSave(save: SaveReport, calls: nat)
    | DoFailCheckpoint(checkpoint: Id, identity: Id, actor: Member, calls: nat)
    | DoAbandon
    | DoBeginRecovery(loss: LossReport, calls: nat)
    | DoPrepare(presence: seq<Presence>, calls: nat)
    | DoRecordLoaded(loaded: LoadedReport, calls: nat)
    | DoRecordApplied(applied: AppliedReport, calls: nat)
    | DoObserve(calls: nat)
    | Restart

  /** One step. Observing stands for the queries, which may rebuild a recovery;
      a restart after a step whose store call failed is a crash in its middle. */
  function Exec(cfg: Config, s: System, step: Step): System {
    match step
    case DoEdit(c, calls) => EditOp(cfg, s, c, calls).s
    case DoBeginCheckpoint(c, identity, presence, calls) => BeginCheckpointOp(cfg, s, c, identity, presence, calls).s
    case DoRecordSave(c, calls) => RecordSaveOp(cfg, s, c, calls).s
    case DoFailCheckpoint(c, identity, actor, calls) => FailCheckpointOp(cfg, s, c, identity, actor, calls).s
    case DoAbandon => AbandonOp(s)
    case DoBeginRecovery(c, calls) => BeginRecoveryOp(cfg, s, c, calls).s
    case DoPrepare(presence, calls) => PrepareRecoveryOp(cfg, s, presence, calls).s
    case DoRecordLoaded(c, calls) => RecordLoadedOp(cfg, s, c, calls).s
    case DoRecordApplied(c, calls) => RecordAppliedOp(cfg, s, c, calls).s
    case DoObserve(calls) => s.(v := ReconstructRecovery(cfg, s, calls).v)
    case Restart => s.(v := Volatile(None, None))
  }

  function Run(cfg: Config, s: System, steps: seq<Step>): System {
    if steps == [] then s
    else Exec(cfg, Run(cfg, s, steps[..|steps| - 1]), steps[|steps| - 1])
  }

  /** A campaign as `CreateLobbyCampaign` stores it. */
  function CreateLobby(cfg: Config, mutation: Id, roster: seq<SlotRecord>): Option<System> {
    var a := Aggregate(cfg.campaign, 1, Lobby, false, None, Sort(States(roster)));
    var core := EncodeCore(a);
    if !Storable(ClientMutation(mutation)) || RosterFault(a.roster, true) != NoError || core.None?
       || EncodeIntent(a).None?
    then None
    else
      var records := Records(a.roster);
      var r := Record(ClientMutation(mutation), 0, 1, CreateCampaign(records),
                      CoreState(core.value, EncodeIntent(a).value, false, Some(records)), None);
      Some(System(Durable(1, false, core.value, records, None, map[], [r]), Volatile(None, None)))
  }
}
