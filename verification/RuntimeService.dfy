/** The runtime service as it runs: a store it calls, an active checkpoint and an
    open recovery it updates in place. Every operation is the one of the model. */
module RuntimeService {
  import opened Basics
  import opened CampaignState
  import opened FullRoster
  import opened CampaignCoreCodec
  import opened CodecBuffers
  import opened CampaignStore
  import opened CampaignHistory
  import opened RuntimeModel

  /** The durable store of one campaign; `calls` of its calls still succeed. */
  class Store {
    var state: Durable
    var calls: nat

    constructor (d: Durable, working: nat)
      ensures state == d && calls == working
    {
      state := d;
      calls := working;
    }

    /** Whether the next call succeeds. */
    method Attempt() returns (ok: bool)
      modifies this`calls
      ensures ok <==> old(calls) > 0
      ensures calls == Spent(old(calls), 1)
    {
      ok := calls > 0;
      if ok {
        calls := calls - 1;
      }
    }

    method LoadJournal() returns (ok: bool, journal: seq<Record>)
      modifies this`calls
      ensures (ok <==> old(calls) > 0) && calls == Spent(old(calls), 1)
      ensures ok ==> journal == state.journal
    {
      ok := Attempt();
      journal := if ok then state.journal else [];
    }

    method LoadProjection() returns (ok: bool, d: Durable)
      modifies this`calls
      ensures (ok <==> old(calls) > 0) && calls == Spent(old(calls), 1) && d == state
    {
      ok := Attempt();
      d := state;
    }

    method LoadRevision() returns (ok: bool, revision: Revision)
      modifies this`calls
      ensures (ok <==> old(calls) > 0) && calls == Spent(old(calls), 1)
      ensures ok ==> revision == state.revision
    {
      ok := Attempt();
      revision := if ok then state.revision else 0;
    }

    method LoadCheckpoint(id: Id) returns (error: StoreError, c: Option<Checkpoint>)
      modifies this`calls
      ensures calls == Spent(old(calls), 1)
      ensures c == if old(calls) > 0 then CampaignStore.LoadCheckpoint(state, id) else None
      ensures error == if old(calls) == 0 then Unavailable else if c.None? then NotFound else Stored
    {
      var ok := Attempt();
      c := if ok then CampaignStore.LoadCheckpoint(state, id) else None;
      error := if !ok then Unavailable else if c.None? then NotFound else Stored;
    }

    method LoadLastCommittedCheckpoint() returns (error: StoreError, c: Option<Checkpoint>)
      modifies this`calls
      ensures calls == Spent(old(calls), 1)
      ensures c == if old(calls) > 0 then LoadLastCommitted(state) else None
      ensures error == if old(calls) == 0 then Unavailable else if c.None? then NotFound else Stored
    {
      var ok := Attempt();
      c := if ok then LoadLastCommitted(state) else None;
      error := if !ok then Unavailable else if c.None? then NotFound else Stored;
    }

    method Apply(q: Request) returns (w: Written)
      requires q.content.NoChange? || q.content.RevisionOnly? || q.content.CoreState?
      modifies this
      ensures calls == Spent(old(calls), 1) && state == w.d
      ensures w == if old(calls) > 0 then ApplyMutation(old(state), q) else Failed(old(state), Unavailable)
    {
      var ok := Attempt();
      w := if ok then ApplyMutation(state, q) else Failed(state, Unavailable);
      state := w.d;
    }

    method CreateCandidate(q: Request, id: Id) returns (w: Written)
      requires q.content.CandidateState?
      modifies this
      ensures calls == Spent(old(calls), 1) && state == w.d
      ensures w == if old(calls) > 0 then CreateCheckpointCandidate(old(state), q, id)
              else Failed(old(state), Unavailable)
    {
      var ok := Attempt();
      w := if ok then CreateCheckpointCandidate(state, q, id) else Failed(state, Unavailable);
      state := w.d;
    }

    method SaveSlot(q: Request, id: Id) returns (w: Written)
      requires q.content.SlotSave?
      modifies this
      ensures calls == Spent(old(calls), 1) && state == w.d
      ensures w == if old(calls) > 0 then RecordSlotSave(old(state), q, id) else Failed(old(state), Unavailable)
    {
      var ok := Attempt();
      w := if ok then RecordSlotSave(state, q, id) else Failed(state, Unavailable);
      state := w.d;
    }

    method Commit(q: Request, id: Id) returns (w: Written)
      modifies this
      ensures calls == Spent(old(calls), 1) && state == w.d
      ensures w == if old(calls) > 0 then CommitCandidate(old(state), q, id) else Failed(old(state), Unavailable)
    {
      var ok := Attempt();
      w := if ok then CommitCandidate(state, q, id) else Failed(state, Unavailable);
      state := w.d;
    }

    method Restore(q: Request, id: Id) returns (w: Written)
      requires q.content.RestoredState?
      modifies this
      ensures calls == Spent(old(calls), 1) && state == w.d
      ensures w == if old(calls) > 0 then RestoreSnapshot(old(state), q, id) else Failed(old(state), Unavailable)
    {
      var ok := Attempt();
      w := if ok then RestoreSnapshot(state, q, id) else Failed(state, Unavailable);
      state := w.d;
    }
  }

  /** A refused write leaves the store as it was. */
  lemma RefusedMutation(d: Durable, q: Request)
    requires q.content.NoChange? || q.content.RevisionOnly? || q.content.CoreState?
    ensures ApplyMutation(d, q).error != Stored ==> ApplyMutation(d, q).d == d
  {
    hide JournalIndex;
  }

  lemma RefusedCandidate(d: Durable, q: Request, id: Id)
    requires q.content.CandidateState?
    ensures CreateCheckpointCandidate(d, q, id).error != Stored ==> CreateCheckpointCandidate(d, q, id).d == d
  {
    hide JournalIndex;
  }

  /*
   * Journal scans
   */

  lemma {:induction false} BrokenStays(journal: seq<Record>, n: nat)
    requires n <= |journal| && ScanJournal(journal[..n]).Broken?
    ensures ScanJournal(journal).Broken?
    decreases |journal| - n
  {
    if n < |journal| {
      assert journal[..n + 1][..n] == journal[..n];
      BrokenStays(journal, n + 1);
    } else {
      assert journal[..n] == journal;
    }
  }

  /** The first pass over the journal: the open attempt and its acknowledgements. */
  method ScanForAttempt(journal: seq<Record>) returns (scan: Scan)
    ensures scan == ScanJournal(journal)
  {
    var open: Option<RecoveryActivity> := None;
    var loadedAcks: seq<Record>, appliedAcks: seq<Record> := [], [];
    for n := 0 to |journal|
      invariant ScanJournal(journal[..n]) == Scan(open, loadedAcks, appliedAcks)
    {
      var r := journal[n];
      assert journal[..n + 1][..n] == journal[..n] && journal[..n + 1][n] == r;
      if r.payload.BeginRecovery? {
        if open.Some? || r.mutation != BeginAt(r.expected) || r.resulting != r.expected + 1 {
          BrokenStays(journal, n + 1);
          return Broken;
        }
        open, loadedAcks, appliedAcks := Some(Opened(r.resulting)), [], [];
      } else if open.Some? {
        if r.payload.RecoveryLoaded? {
          loadedAcks := loadedAcks + [r];
        } else if r.payload.SnapshotApplied? {
          appliedAcks := appliedAcks + [r];
        } else if r.payload.RestoreCheckpoint? && r.mutation == RestoreOf(open.value.attempt) {
          if r.restoredFrom.None?
             || r.payload != RestoreCheckpoint(open.value.attempt, r.restoredFrom.value.checkpoint)
             || r.resulting != r.expected + 1
          {
            BrokenStays(journal, n + 1);
            return Broken;
          }
          open := Some(open.value.(checkpoint := Some(r.restoredFrom.value.checkpoint),
                                   source := r.restoredFrom.value.revision,
                                   restore := Some(r.resulting),
                                   stage := RecoveryLock,
                                   reason := NoReason));
        } else if r.payload.CompleteRecovery? && r.mutation == CompleteOf(open.value.attempt) {
          if open.value.checkpoint.None? || open.value.restore.None? || r.resulting != open.value.restore.value
             || r.payload != CompleteRecovery(open.value.attempt, open.value.checkpoint.value, open.value.restore.value)
          {
            BrokenStays(journal, n + 1);
            return Broken;
          }
          open, loadedAcks, appliedAcks := None, [], [];
        }
      }
    }
    assert journal[..|journal|] == journal;
    return Scan(open, loadedAcks, appliedAcks);
  }

  lemma {:induction false} UnprovenStays(cfg: Config, c: Checkpoint, k: Ack, acks: seq<Record>, n: nat)
    requires n <= |acks| && AckedSlots(cfg, c, k, acks[..n]).None?
    ensures AckedSlots(cfg, c, k, acks).None?
    decreases |acks| - n
  {
    if n < |acks| {
      assert acks[..n + 1][..n] == acks[..n];
      UnprovenStays(cfg, c, k, acks, n + 1);
    } else {
      assert acks[..n] == acks;
    }
  }

  /** The second pass: every acknowledgement must be the exact one of its slot. */
  method RecoverDurableSlots(cfg: Config, c: Checkpoint, k: Ack, acks: seq<Record>) returns (ok: bool, slots: set<Id>)
    ensures AckedSlots(cfg, c, k, acks) == if ok then Some(slots) else None
  {
    slots := {};
    for n := 0 to |acks|
      invariant AckedSlots(cfg, c, k, acks[..n]) == Some(slots)
    {
      assert acks[..n + 1][..n] == acks[..n] && acks[..n + 1][n] == acks[n];
      var i := AckIndex(cfg, c.slots, k, acks[n]);
      if i == |c.slots| || acks[n].expected != acks[n].resulting
         || acks[n].payload != AckPayload(k, c.id, c.slots[i]) || c.slots[i].slot in slots
      {
        UnprovenStays(cfg, c, k, acks, n + 1);
        return false, slots;
      }
      slots := slots + {c.slots[i].slot};
    }
    assert acks[..|acks|] == acks;
    ok := true;
  }

  lemma RefusedRestore(d: Durable, attempt: nat, c: Id, core: Bytes)
    ensures var w := RestoreSnapshot(d, Request(d.revision, RestoreOf(attempt), RestoreCheckpoint(attempt, c),
                                                RestoredState(core)), c);
            w.error != Stored ==> w.d == d
  {
    hide JournalIndex;
  }

  /** One campaign's service. */
  class CampaignRuntimeService {
    const cfg: Config
    const store: Store
    var active: Option<CheckpointActivity>
    var recovery: Option<RecoveryActivity>

    /** A service that has just started, or restarted, on a store. */
    constructor (config: Config, backing: Store)
      ensures cfg == config && store == backing
      ensures State() == System(backing.state, Volatile(None, None))
    {
      cfg := config;
      store := backing;
      active := None;
      recovery := None;
    }

    ghost function State(): System
      reads this, store
    {
      System(store.state, Volatile(active, recovery))
    }

    /*
     * Loading
     */

    method LoadAggregate() returns (error: StoreError, a: Aggregate)
      modifies store`calls
      ensures error == Unavailable <==> old(store.calls) < 2
      ensures error != Unavailable ==>
                && store.calls == old(store.calls) - 2
                && (error == Stored || error == Corrupt)
                && RuntimeModel.LoadAggregate(cfg, store.state) == if error == Stored then Some(a) else None
    {
      a := Aggregate([], 0, Lobby, false, None, []);
      var ok, projection := store.LoadProjection();
      if !ok {
        return Unavailable, a;
      }
      var journal: seq<Record>;
      ok, journal := store.LoadJournal();
      if !ok {
        return Unavailable, a;
      }
      var i := CoreMutation(journal);
      if i < 0 {
        return Corrupt, a;
      }
      var decoded := DecodeCanonical(cfg, projection.slots, projection.sealed, projection.core, journal,
                                     journal[i].resulting, None);
      if decoded.None? {
        return Corrupt, a;
      }
      return Stored, decoded.value.(version := projection.revision);
    }

    /** Rebuilds an open recovery this process does not know about. */
    method ReconstructRecovery() returns (failure: Option<Reply>)
      modifies this`recovery, store`calls
      ensures var g := RuntimeModel.ReconstructRecovery(cfg, old(State()), old(store.calls));
              failure == g.failure && State() == old(State()).(v := g.v) && store.calls == g.left
    {
      if recovery.Some? {
        return None;
      }
      var ok, journal := store.LoadJournal();
      if !ok {
        return Some(CALL_FAILED);
      }
      var scan := ScanForAttempt(journal);
      if scan.Broken? {
        return Some(INTEGRITY);
      }
      if scan.open.None? {
        return None;
      }
      failure := RebuildActivity(scan);
    }

    method RebuildActivity(scan: Scan) returns (failure: Option<Reply>)
      requires scan.Scan? && scan.open.Some?
      modifies this`recovery, store`calls
      ensures var g := Rebuild(cfg, store.state, Volatile(active, old(recovery)), scan, old(store.calls));
              failure == g.failure && Volatile(active, recovery) == g.v && store.calls == g.left
    {
      var open := scan.open.value;
      if scan.loadedAcks != [] || scan.appliedAcks != [] {
        var error: StoreError, c: Option<Checkpoint>;
        if open.checkpoint.Some? {
          error, c := store.LoadCheckpoint(open.checkpoint.value);
        } else {
          error, c := store.LoadLastCommittedCheckpoint();
        }
        if c.None? {
          return Some(StoreFailure(error));
        }
        if open.checkpoint.None? {
          open := open.(checkpoint := Some(c.value.id), source := c.value.source);
        }
        var ok: bool, loaded: set<Id>, applied: set<Id>;
        ok, loaded := RecoverDurableSlots(cfg, c.value, LoadAck(open.attempt), scan.loadedAcks);
        if !ok || (scan.appliedAcks != [] && open.restore.None?) {
          return Some(INTEGRITY);
        }
        var restore := if open.restore.Some? then open.restore.value else 0;
        ok, applied := RecoverDurableSlots(cfg, c.value, ApplyAck(open.attempt, restore), scan.appliedAcks);
        if !ok {
          return Some(INTEGRITY);
        }
        open := open.(durableLoaded := loaded, durableApplied := applied);
      }
      recovery := Some(open);
      return None;
    }

    method CheckMutationFence() returns (failure: Option<Reply>)
      modifies this`recovery, store`calls
      ensures var g := RuntimeModel.CheckMutationFence(cfg, old(State()), old(store.calls));
              failure == g.failure && State() == old(State()).(v := g.v) && store.calls == g.left
    {
      if active.Some? {
        return Some(Refuse(CheckpointInProgress));
      }
      failure := ReconstructRecovery();
      if failure.None? && recovery.Some? {
        failure := Some(Refuse(RecoveryInProgress));
      }
    }

    /*
     * Edits
     */

    method PersistMutation(c: Command, a: Aggregate) returns (reply: Reply)
      modifies store
      ensures var w := PersistEdit(old(store.state), c, a);
              if old(store.calls) > 0 then reply == FromWritten(w) && store.state == w.d
              else store.state == old(store.state) && reply.error != NoError
      ensures EncodeCore(a).Some? && EncodeIntent(a).Some? && old(store.calls) == 0 ==> reply == CALL_FAILED
      ensures EncodeCore(a).None? || EncodeIntent(a).None? ==> reply == StoreFailure(InvalidArgument)
    {
      var core := EncodeCoreState(a);
      if core.None? {
        return StoreFailure(InvalidArgument);
      }
      var intent := EncodeSnapshotIntent(a);
      if intent.None? {
        return StoreFailure(InvalidArgument);
      }
      var roster := if RosterEdit(c.edit) then Some(Records(a.roster)) else None;
      var w := store.Apply(Request(c.expected, ClientMutation(c.mutation), Payload.EditCampaign(c.edit),
                                   CoreState(core.value, intent.value, c.edit.Start?, roster)));
      return FromWritten(w);
    }

    method PersistAcceptedNoOp(c: Command) returns (reply: Reply)
      modifies store
      ensures var w := PersistNoOp(old(store.state), c);
              if old(store.calls) > 0 then reply == FromWritten(w) && store.state == w.d
              else reply == CALL_FAILED && store.state == old(store.state)
    {
      var w := store.Apply(Request(c.expected, ClientMutation(c.mutation), Payload.EditCampaign(c.edit), NoChange));
      return FromWritten(w);
    }

    /** Add, remove, replace, start, transfer and readiness follow one course. */
    method EditCampaign(c: Command) returns (reply: Reply)
      modifies this`recovery, store
      ensures var r := EditOp(cfg, old(State()), c, old(store.calls)); State() == r.s && reply == r.reply
    {
      hide RuntimeModel.CheckMutationFence, RuntimeModel.LoadAggregate, PersistOutcome, CampaignState.Apply;
      var fenced := CheckMutationFence();
      if fenced.Some? {
        return fenced.value;
      }
      var ok, journal := store.LoadJournal();
      if !ok {
        return CALL_FAILED;
      }
      var replay := FindReplay(journal, c);
      if replay.Some? {
        return replay.value;
      }
      var error, loaded := LoadAggregate();
      if error != Stored {
        return StoreFailure(error);
      }
      if loaded.version != c.expected {
        return StoreFailure(Stale).(version := loaded.version);
      }
      reply := PersistChange(c, CampaignState.Apply(loaded, c.edit));
    }

    method PersistChange(c: Command, changed: Outcome) returns (reply: Reply)
      modifies store
      ensures var r := PersistOutcome(old(State()), c, changed, old(store.calls)); State() == r.s && reply == r.reply
    {
      hide EncodeCore, EncodeIntent, ApplyMutation;
      if changed.error != NoError {
        return Refuse(changed.error);
      }
      if !changed.changed && MayBeNoOp(c.edit) {
        reply := PersistAcceptedNoOp(c);
      } else {
        reply := PersistMutation(c, changed.campaign);
      }
    }

    /*
     * Checkpoints
     */

    method BeginCheckpoint(c: Id, identity: Id, presence: seq<Presence>) returns (reply: Reply)
      modifies this, store
      ensures var r := BeginCheckpointOp(cfg, old(State()), c, identity, presence, old(store.calls));
              State() == r.s && reply == r.reply
    {
      hide RuntimeModel.CheckMutationFence, RuntimeModel.LoadAggregate, EvaluateFullRoster, EncodeCore,
        CreateCheckpointCandidate;
      if active.Some? {
        return Refuse(CheckpointInProgress);
      }
      var fenced := CheckMutationFence();
      if fenced.Some? {
        return fenced.value;
      }
      if c == [] || identity != SaveIdentity(c) {
        return Refuse(InvalidIdentity);
      }
      var error, loaded := LoadAggregate();
      if error != Stored {
        return StoreFailure(error);
      }
      var full := Evaluate(loaded, presence);
      if full != Eligible {
        return Refuse(if loaded.sealed then RosterIncomplete else RosterNotSealed);
      }
      var core := EncodeCoreState(loaded);
      if core.None? {
        return StoreFailure(InvalidArgument);
      }
      var q := Request(loaded.version, CreateCandidateOf(c), Payload.CreateCandidate(c, identity),
                       CandidateState(core.value));
      RefusedCandidate(store.state, q, c);
      var w := store.CreateCandidate(q, c);
      reply := FromWritten(w);
      if w.error == Stored {
        active := Some(CheckpointActivity(c, loaded.version, identity));
      }
    }

    method RecordCheckpointSave(c: SaveReport) returns (reply: Reply, committed: bool)
      modifies this, store
      ensures var r := RecordSaveOp(cfg, old(State()), c, old(store.calls));
              State() == r.s && reply == r.reply && committed == r.committed
    {
      committed := false;
      var failure := ReconstructRecovery();
      if failure.Some? {
        return failure.value, false;
      }
      if recovery.Some? {
        return Refuse(RecoveryInProgress), false;
      }
      if active.None? {
        return Refuse(CheckpointNotActive), false;
      }
      var operation := active.value;
      if !ReportMatches(cfg, operation, c.checkpoint, c.proof.identity, c.actor) {
        return Refuse(CheckpointMismatch), false;
      }
      var error, checkpoint := store.LoadCheckpoint(c.checkpoint);
      if error != Stored {
        return StoreFailure(error), false;
      }
      var slots := checkpoint.value.slots;
      var i := MemberSlotIndex(slots, c.actor);
      if i == |slots| {
        return Refuse(NotCampaignMember), false;
      }
      var canonical := slots[i].(artifact := Some(c.proof));
      if !ExactArtifact(cfg, canonical, operation.identity) {
        return Refuse(InvalidCheckpointArtifact), false;
      }
      var ok, journal := store.LoadJournal();
      if !ok {
        return CALL_FAILED, false;
      }
      var mutation := AcknowledgeOf(c.checkpoint, canonical.slot);
      var replay := JournalIndex(journal, mutation);
      var expected: nat;
      if replay < |journal| {
        expected := journal[replay].expected;
      } else {
        ok, expected := store.LoadRevision();
        if !ok {
          return CALL_FAILED, false;
        }
      }
      var w := store.SaveSlot(
        Request(expected, mutation, Payload.SaveSlot(c.checkpoint, canonical.slot), SlotSave(canonical)), c.checkpoint);
      if w.error != Stored {
        return StoreFailure(w.error), false;
      }
      reply, committed := CommitWhenComplete(operation, FromWritten(w));
    }

    method CommitWhenComplete(operation: CheckpointActivity, recorded: Reply) returns (reply: Reply, committed: bool)
      modifies this`active, store
      ensures var r := CommitIfComplete(cfg, old(State()), operation, recorded, old(store.calls));
              State() == r.s && reply == r.reply && committed == r.committed
    {
      var error, checkpoint := store.LoadCheckpoint(operation.checkpoint);
      if error != Stored {
        return StoreFailure(error), false;
      }
      var slots := checkpoint.value.slots;
      if slots == [] || exists x :: x in slots && !ExactArtifact(cfg, x, operation.identity) {
        return recorded, false;
      }
      var ok, revision := store.LoadRevision();
      if !ok {
        return CALL_FAILED, false;
      }
      var w := store.Commit(
        Request(revision, CommitOf(operation.checkpoint), CommitCheckpoint(operation.checkpoint), Content.Commit),
        operation.checkpoint);
      reply := FromWritten(w);
      committed := w.error == Stored;
      if committed {
        active := None;
      }
    }

    method FailCheckpoint(checkpoint: Id, identity: Id, actor: Member) returns (reply: Reply)
      modifies this, store`calls
      ensures var r := FailCheckpointOp(cfg, old(State()), checkpoint, identity, actor, old(store.calls));
              State() == r.s && reply == r.reply
    {
      var failure := ReconstructRecovery();
      if failure.Some? {
        return failure.value;
      }
      if recovery.Some? {
        return Refuse(RecoveryInProgress);
      }
      if active.None? {
        return Refuse(CheckpointNotActive);
      }
      if !ReportMatches(cfg, active.value, checkpoint, identity, actor) {
        return Refuse(CheckpointMismatch);
      }
      var error, stored := store.LoadCheckpoint(checkpoint);
      if error != Stored {
        return StoreFailure(error);
      }
      if MemberSlotIndex(stored.value.slots, actor) == |stored.value.slots| {
        return Refuse(NotCampaignMember);
      }
      var ok, revision := store.LoadRevision();
      if !ok {
        return CALL_FAILED;
      }
      active := None;
      return Reply(NoError, Stored, revision, false, false);
    }

    method AbandonCheckpoint()
      modifies this`active
      ensures State() == AbandonOp(old(State()))
    {
      active := None;
    }

    /*
     * Recovery
     */

    method BeginRecovery(c: LossReport) returns (reply: Reply)
      modifies this, store
      ensures var r := BeginRecoveryOp(cfg, old(State()), c, old(store.calls)); State() == r.s && reply == r.reply
    {
      hide RuntimeModel.ReconstructRecovery, RuntimeModel.LoadAggregate, EvaluateFullRoster, ApplyMutation, MemberIndex;
      if c.member.campaign != cfg.campaign {
        return Refuse(RecoveryMismatch);
      }
      var failure := ReconstructRecovery();
      if failure.Some? {
        return failure.value;
      }
      if recovery.Some? {
        if recovery.value.stage != RecoveryLock {
          recovery := Some(recovery.value.(stage := RecoveryLock, loaded := {}, applied := {}));
        }
        recovery := Some(recovery.value.(reason := ReasonOf(c.loadRequested)));
        var ok, revision := store.LoadRevision();
        if !ok {
          return CALL_FAILED;
        }
        return Reply(NoError, Stored, revision, false, true);
      }
      if !c.running {
        return Refuse(RecoveryNotActive);
      }
      var error, loaded := LoadAggregate();
      if error != Stored {
        return StoreFailure(error);
      }
      if !loaded.sealed {
        return Refuse(RosterNotSealed);
      }
      if MemberIndex(loaded.roster, c.member.Record()) == |loaded.roster| {
        return Refuse(NotCampaignMember);
      }
      var verdict := Evaluate(loaded, c.presence);
      if !c.loadRequested && verdict == Eligible {
        return Refuse(InvalidRoster);
      }
      if c.loadRequested && verdict != Eligible {
        return Refuse(RosterIncomplete);
      }
      active := None;
      var q := Request(loaded.version, BeginAt(loaded.version),
                       Payload.BeginRecovery(c.member.Record(), c.loadRequested),
                       RevisionOnly);
      RefusedMutation(store.state, q);
      var w := store.Apply(q);
      reply := FromWritten(w);
      if w.error == Stored {
        recovery := Some(Opened(w.revision).(reason := ReasonOf(c.loadRequested)));
      }
    }

    method PrepareRecovery(presence: seq<Presence>) returns (reply: Reply, dispatch: Dispatch)
      modifies this`recovery, store`calls
      ensures var r := PrepareRecoveryOp(cfg, old(State()), presence, old(store.calls));
              State() == r.s && reply == r.reply && dispatch == r.dispatch
    {
      dispatch := NoDispatch;
      var failure := ReconstructRecovery();
      if failure.Some? {
        return failure.value, NoDispatch;
      }
      if recovery.None? {
        return Refuse(RecoveryNotActive), NoDispatch;
      }
      var error, loaded := LoadAggregate();
      if error != Stored {
        return StoreFailure(error), NoDispatch;
      }
      var verdict := Evaluate(loaded, presence);
      if verdict != Eligible {
        recovery := Some(recovery.value.(reason := RosterLoss));
        return Refuse(RosterIncomplete).(version := loaded.version), NoDispatch;
      }
      var checkpoint: Option<Checkpoint>;
      if recovery.value.stage == ApplyingSnapshot {
        if recovery.value.checkpoint.None? || recovery.value.restore.None? {
          return INTEGRITY, NoDispatch;
        }
        error, checkpoint := store.LoadCheckpoint(recovery.value.checkpoint.value);
        if error != Stored {
          return StoreFailure(error), NoDispatch;
        }
        recovery := Some(recovery.value.(reason := NoReason));
        return Reply(NoError, Stored, loaded.version, false, false), RestoredSnapshot;
      }
      if recovery.value.checkpoint.Some? {
        error, checkpoint := store.LoadCheckpoint(recovery.value.checkpoint.value);
      } else {
        error, checkpoint := store.LoadLastCommittedCheckpoint();
      }
      if error == NotFound {
        recovery := Some(recovery.value.(reason := NoCheckpoint));
        return Refuse(NoCommittedCheckpoint).(version := loaded.version), NoDispatch;
      }
      if error != Stored {
        return StoreFailure(error), NoDispatch;
      }
      if !Recoverable(cfg, checkpoint.value, |loaded.roster|) {
        return INTEGRITY, NoDispatch;
      }
      if recovery.value.stage == RecoveryLock {
        recovery := Some(recovery.value.(loaded := {}, applied := {}));
      }
      recovery := Some(recovery.value.(stage := LoadingNativeSaves,
                                       reason := NoReason,
                                       checkpoint := Some(checkpoint.value.id),
                                       source := checkpoint.value.source));
      return Reply(NoError, Stored, loaded.version, false, false), NativeLoad;
    }

    method RecordRecoveryLoaded(c: LoadedReport) returns (reply: Reply, dispatch: Dispatch, barrier: bool)
      modifies this`recovery, store
      ensures var r := RecordLoadedOp(cfg, old(State()), c, old(store.calls));
              State() == r.s && reply == r.reply && dispatch == r.dispatch && barrier == r.barrier
    {
      dispatch, barrier := NoDispatch, false;
      var failure := ReconstructRecovery();
      if failure.Some? {
        return failure.value, NoDispatch, false;
      }
      if recovery.None? {
        return Refuse(RecoveryNotActive), NoDispatch, false;
      }
      if recovery.value.attempt != c.attempt || recovery.value.checkpoint != Some(c.checkpoint)
         || c.actor.campaign != cfg.campaign
      {
        return Refuse(RecoveryMismatch), NoDispatch, false;
      }
      var error, loaded := LoadAggregate();
      if error != Stored {
        return StoreFailure(error), NoDispatch, false;
      }
      var verdict := Evaluate(loaded, c.presence);
      if verdict != Eligible {
        return Refuse(RosterIncomplete).(version := loaded.version), NoDispatch, false;
      }
      var checkpoint: Option<Checkpoint>;
      error, checkpoint := store.LoadCheckpoint(c.checkpoint);
      if error != Stored {
        return StoreFailure(error), NoDispatch, false;
      }
      reply, dispatch, barrier := CheckLoadReport(loaded.version, checkpoint.value, c);
    }

    method CheckLoadReport(version: nat, checkpoint: Checkpoint, c: LoadedReport)
      returns (reply: Reply, dispatch: Dispatch, barrier: bool)
      requires recovery.Some?
      modifies this`recovery, store
      ensures var r := CheckLoad(cfg, old(State()), old(recovery.value), version, checkpoint, c, old(store.calls));
              State() == r.s && reply == r.reply && dispatch == r.dispatch && barrier == r.barrier
    {
      var i := MemberSlotIndex(checkpoint.slots, c.actor);
      if i == |checkpoint.slots| {
        return Refuse(NotCampaignMember), NoDispatch, false;
      }
      if !c.succeeded {
        recovery := Some(recovery.value.(reason := ClientLoadFailed));
        return Refuse(InvalidCheckpointArtifact).(version := version), NoDispatch, false;
      }
      if !ProofMatches(cfg, checkpoint.slots[i], c.proof) {
        return Refuse(InvalidCheckpointArtifact).(version := version), NoDispatch, false;
      }
      if recovery.value.stage == RecoveryLock {
        return Refuse(RecoveryMismatch).(version := version), NoDispatch, false;
      }
      reply, dispatch, barrier := AcknowledgeLoaded(version, checkpoint, checkpoint.slots[i]);
    }

    method AcknowledgeLoaded(version: nat, checkpoint: Checkpoint, x: CheckpointSlot)
      returns (reply: Reply, dispatch: Dispatch, barrier: bool)
      requires recovery.Some?
      modifies this`recovery, store
      ensures var r := AcknowledgeLoad(cfg, old(State()), old(recovery.value), version, checkpoint, x,
                                       old(store.calls));
              State() == r.s && reply == r.reply && dispatch == r.dispatch && barrier == r.barrier
    {
      var attempt := recovery.value.attempt;
      var durable := x.slot in recovery.value.durableLoaded;
      reply := Reply(NoError, Stored, version, false, false);
      if !durable {
        var w := store.Apply(Request(version, LoadedBy(cfg.slotHash(x.slot), attempt),
                                     RecoveryLoaded(attempt, checkpoint.id, x), NoChange));
        if w.error != Stored {
          return StoreFailure(w.error), NoDispatch, false;
        }
        reply := FromWritten(w);
        recovery := Some(recovery.value.(durableLoaded := recovery.value.durableLoaded + {x.slot}));
      }
      assert recovery.value.durableLoaded == old(recovery.value.durableLoaded) + {x.slot};
      if recovery.value.stage == ApplyingSnapshot {
        return reply.(replay := true), RestoredSnapshot, true;
      }
      reply := reply.(replay := durable || x.slot in recovery.value.loaded);
      recovery := Some(recovery.value.(loaded := recovery.value.loaded + {x.slot}));
      if |recovery.value.loaded| != |checkpoint.slots| {
        return reply, NoDispatch, false;
      }
      reply, dispatch, barrier := RestoreOnce(checkpoint, reply);
    }

    /** The first barrier is complete: restore the snapshot, or find it restored. */
    method RestoreOnce(checkpoint: Checkpoint, acknowledged: Reply)
      returns (reply: Reply, dispatch: Dispatch, barrier: bool)
      requires recovery.Some?
      modifies this`recovery, store
      ensures var r := FireRestore(cfg, old(State()), old(recovery.value), checkpoint, acknowledged, old(store.calls));
              State() == r.s && reply == r.reply && dispatch == r.dispatch && barrier == r.barrier
    {
      hide EncodeCore, DecodeCanonical, RestoreSnapshot, JournalIndex, HistoricalRevision, SlotRecords;
      var attempt := recovery.value.attempt;
      var ok, journal := store.LoadJournal();
      if !ok {
        return CALL_FAILED, NoDispatch, false;
      }
      var i := JournalIndex(journal, RestoreOf(attempt));
      if i < |journal| {
        if !journal[i].payload.RestoreCheckpoint?
           || journal[i].restoredFrom != Some(RestoredFrom(checkpoint.id, checkpoint.source))
        {
          return INTEGRITY, NoDispatch, false;
        }
        reply := acknowledged.(version := journal[i].resulting, replay := true);
      } else {
        var revision: Revision;
        ok, revision := store.LoadRevision();
        if !ok {
          return CALL_FAILED, NoDispatch, false;
        }
        var core := DecodeCanonical(cfg, SlotRecords(checkpoint.slots), true, checkpoint.core, journal,
                                    checkpoint.source,
                                    HistoricalRevision(journal, checkpoint.source));
        if core.None? {
          return INTEGRITY, NoDispatch, false;
        }
        var restored := EncodeCoreState(core.value.(version := revision + 1));
        if restored.None? {
          return StoreFailure(InvalidArgument), NoDispatch, false;
        }
        RefusedRestore(store.state, attempt, checkpoint.id, restored.value);
        var w := store.Restore(Request(revision, RestoreOf(attempt), RestoreCheckpoint(attempt, checkpoint.id),
                                       RestoredState(restored.value)), checkpoint.id);
        if w.error != Stored {
          return StoreFailure(w.error), NoDispatch, false;
        }
        reply := FromWritten(w);
      }
      recovery := Some(recovery.value.(stage := ApplyingSnapshot,
                                       reason := NoReason,
                                       restore := Some(reply.version),
                                       applied := {}));
      return reply, RestoredSnapshot, true;
    }

    method RecordRecoverySnapshotApplied(c: AppliedReport) returns (reply: Reply, completed: bool)
      modifies this`recovery, store
      ensures var r := RecordAppliedOp(cfg, old(State()), c, old(store.calls));
              State() == r.s && reply == r.reply && completed == r.completed
    {
      var failure := ReconstructRecovery();
      if failure.Some? {
        return failure.value, false;
      }
      if recovery.None? {
        reply, completed := FindCompletion(c);
        return;
      }
      if recovery.value.stage != ApplyingSnapshot || recovery.value.attempt != c.attempt
         || recovery.value.checkpoint != Some(c.checkpoint) || recovery.value.restore != Some(c.restore)
         || c.actor.campaign != cfg.campaign
      {
        return Refuse(RecoveryMismatch), false;
      }
      var error, loaded := LoadAggregate();
      if error != Stored {
        return StoreFailure(error), false;
      }
      var verdict := Evaluate(loaded, c.presence);
      if verdict != Eligible {
        return Refuse(RosterIncomplete).(version := loaded.version), false;
      }
      var checkpoint: Option<Checkpoint>;
      error, checkpoint := store.LoadCheckpoint(c.checkpoint);
      if error != Stored {
        return StoreFailure(error), false;
      }
      var i := MemberSlotIndex(checkpoint.value.slots, c.actor);
      if i == |checkpoint.value.slots| {
        return Refuse(NotCampaignMember), false;
      }
      reply, completed := AcknowledgeApplied(loaded.version, checkpoint.value, checkpoint.value.slots[i], c);
    }

    /** A late acknowledgement of an attempt that has completed already. */
    method FindCompletion(c: AppliedReport) returns (reply: Reply, completed: bool)
      modifies store`calls
      ensures var r := AlreadyCompleted(old(State()), c, old(store.calls));
              State() == r.s && reply == r.reply && completed == r.completed
    {
      var error, checkpoint := store.LoadCheckpoint(c.checkpoint);
      if error != Stored {
        return StoreFailure(error), false;
      }
      if MemberSlotIndex(checkpoint.value.slots, c.actor) == |checkpoint.value.slots| {
        return Refuse(NotCampaignMember), false;
      }
      var ok, journal := store.LoadJournal();
      if !ok {
        return CALL_FAILED, false;
      }
      var i := CompletionIndex(journal, c);
      if i == |journal| {
        return Refuse(RecoveryNotActive), false;
      }
      return Reply(NoError, Stored, journal[i].resulting, false, true), true;
    }

    method AcknowledgeApplied(version: nat, checkpoint: Checkpoint, x: CheckpointSlot, c: AppliedReport)
      returns (reply: Reply, completed: bool)
      requires recovery.Some?
      modifies this`recovery, store
      ensures var r := AcknowledgeSnapshot(cfg, old(State()), old(recovery.value), version, checkpoint, x, c,
                                           old(store.calls));
              State() == r.s && reply == r.reply && completed == r.completed
    {
      hide ApplyMutation;
      var durable := x.slot in recovery.value.durableApplied;
      reply := Reply(NoError, Stored, version, false, false);
      if !durable {
        var q := Request(version, AppliedBy(cfg.slotHash(x.slot), recovery.value.attempt),
                         SnapshotApplied(recovery.value.attempt, checkpoint.id, c.restore, x.Record()), NoChange);
        RefusedMutation(store.state, q);
        var w := store.Apply(q);
        if w.error != Stored {
          return StoreFailure(w.error), false;
        }
        reply := FromWritten(w);
        recovery := Some(recovery.value.(durableApplied := recovery.value.durableApplied + {x.slot}));
      }
      assert recovery.value.durableApplied == old(recovery.value.durableApplied) + {x.slot};
      reply := reply.(replay := durable || x.slot in recovery.value.applied);
      recovery := Some(recovery.value.(applied := recovery.value.applied + {x.slot}));
      if |recovery.value.applied| != |checkpoint.slots| {
        return reply, false;
      }
      var q := Request(c.restore, CompleteOf(c.attempt), CompleteRecovery(c.attempt, c.checkpoint, c.restore),
                       NoChange);
      RefusedMutation(store.state, q);
      var w := store.Apply(q);
      reply := FromWritten(w);
      completed := w.error == Stored;
      if completed {
        recovery := None;
      }
    }
  }
}
