/** The recovery operations keep the journal's grammar and both barriers. */
module RecoverySafety {
  import opened Basics
  import opened CampaignState
  import opened FullRoster
  import opened CampaignCoreCodec
  import opened CampaignStore
  import opened CampaignHistory
  import opened RuntimeModel
  import opened OperationShapes
  import opened RuntimeInvariants
  import opened RecoveryRebuild
  import opened RuntimeSafety

  /*
   * Opening an attempt
   */

  function BeginRequest(revision: nat, c: LossReport): Request {
    Request(revision, BeginAt(revision), BeginRecovery(c.member.Record(), c.loadRequested), RevisionOnly)
  }

  lemma BeginAccepted(cfg: Config, h: History, c: LossReport)
    requires h.open.None? && h.campaign.sealed && h.revision < MAX_REVISION
    requires c.member.Record() in Records(h.campaign.roster)
    ensures Next(cfg, h, Record(BeginAt(h.revision), h.revision, h.revision + 1,
                                BeginRecovery(c.member.Record(), c.loadRequested), RevisionOnly, None)) ==
            Some(h.(revision := h.revision + 1, open := Some(Attempt(h.revision + 1, false, {}, {}))))
  {
  }

  lemma BeginStands(cfg: Config, d: Durable, c: LossReport)
    requires Stands(cfg, d) && Past(cfg, d).open.None? && Past(cfg, d).campaign.sealed
    requires c.member.Record() in Records(Past(cfg, d).campaign.roster)
    ensures var h := Past(cfg, d);
            var w := ApplyMutation(d, BeginRequest(d.revision, c));
            && (w.error != Stored ==> w.d == d)
            && (w.error == Stored ==>
                  && Stands(cfg, w.d) && h.revision < MAX_REVISION && w.revision == h.revision + 1
                  && Past(cfg, w.d) ==
                     h.(revision := h.revision + 1, open := Some(Attempt(h.revision + 1, false, {}, {}))))
  {
    hide Replay, CoreBytes, ImageOf, Next;
    var h := Past(cfg, d);
    var w := ApplyMutation(d, BeginRequest(d.revision, c));
    JournalIsAccounted(cfg, d.journal);
    FreshMutation(d, BeginAt(d.revision));
    if w.error == Stored {
      BeginAccepted(cfg, h, c);
      AppendStands(cfg, d, Record(BeginAt(h.revision), h.revision, h.revision + 1,
                                  BeginRecovery(c.member.Record(), c.loadRequested), RevisionOnly, None), w.d);
    }
  }

  lemma OpenKeeps(cfg: Config, s: System, c: LossReport, calls: nat)
    requires InStep(cfg, s) && Past(cfg, s.d).open.None? && Past(cfg, s.d).campaign.sealed && s.v.recovery.None?
    requires c.member.Record() in Records(Past(cfg, s.d).campaign.roster)
    ensures InStep(cfg, OpenRecovery(s, c, Current(Past(cfg, s.d)), calls).s)
  {
    hide Stands, ApplyMutation, Replay;
    StandsAtRevision(cfg, s.d);
    BeginStands(cfg, s.d, c);
  }

  /** Going back to the lock empties both barriers and forgets nothing durable. */
  lemma RelockTracks(h: History, a: RecoveryActivity, loadRequested: bool)
    requires TracksRecovery(h, a)
    ensures TracksRecovery(h, Relocked(a, loadRequested))
    ensures Relocked(a, loadRequested).stage == RecoveryLock
    ensures Relocked(a, loadRequested).loaded == {} == Relocked(a, loadRequested).applied
  {
  }

  lemma MemberIsListed(roster: seq<SlotState>, r: SlotRecord)
    ensures MemberIndex(roster, r) < |roster| ==> r in Records(roster)
  {
    var i := MemberIndex(roster, r);
    if i < |roster| {
      assert Records(roster)[i] == r;
    }
  }

  lemma StartRecoveryKeeps(cfg: Config, s: System, c: LossReport, calls: nat)
    requires InStep(cfg, s) && Past(cfg, s.d).open.None? && s.v.recovery.None?
    ensures InStep(cfg, StartRecovery(cfg, s, c, calls).s)
  {
    hide LoadAggregate, Stands, OpenRecovery, Replay, EvaluateFullRoster, Tracks, Records, MemberIndex, StartRecovery;
    StartRecoveryCases(cfg, s, c, calls);
    StandsAtRevision(cfg, s.d);
    LoadIsCurrent(cfg, s.d);
    MemberIsListed(Past(cfg, s.d).campaign.roster, c.member.Record());
    if StartReaches(cfg, s, c, calls) {
      OpenKeeps(cfg, s, c, calls - 2);
    }
  }

  lemma BeginRecoveryKeeps(cfg: Config, s: System, c: LossReport, calls: nat)
    requires Consistent(cfg, s)
    ensures InStep(cfg, BeginRecoveryOp(cfg, s, c, calls).s)
  {
    hide ReconstructRecovery, Stands, StartRecovery, Replay, Apart, TracksRecovery, Relocked, TracksActive;
    ReconstructKeeps(cfg, s, calls);
    StandsAtRevision(cfg, s.d);
    var g := ReconstructRecovery(cfg, s, calls);
    if g.failure.None? {
      if g.v.recovery.Some? {
        RelockTracks(Past(cfg, s.d), g.v.recovery.value, c.loadRequested);
      } else {
        StartRecoveryKeeps(cfg, s.(v := g.v), c, g.left);
      }
    }
  }

  /*
   * Preparing
   */

  lemma StartTracks(cfg: Config, d: Durable, a: RecoveryActivity, c: Checkpoint)
    requires Stands(cfg, d) && TracksRecovery(Past(cfg, d), a) && a.stage != ApplyingSnapshot
    requires (if a.checkpoint.Some? then LoadCheckpoint(d, a.checkpoint.value) else LoadLastCommitted(d)) == Some(c)
    ensures TracksRecovery(Past(cfg, d), StartLoading(a, c))
  {
    hide Replay, CoreBytes, ImageOf, CheckpointSlots;
  }

  lemma PrepareKeeps(cfg: Config, s: System, presence: seq<Presence>, calls: nat)
    requires Consistent(cfg, s)
    ensures InStep(cfg, PrepareRecoveryOp(cfg, s, presence, calls).s)
  {
    hide ReconstructRecovery, LoadAggregate, Stands, Replay, Apart, EvaluateFullRoster, TracksRecovery, StartLoading,
      LoadCheckpoint, LoadLastCommitted, TracksActive, PrepareRecoveryOp;
    PrepareCases(cfg, s, presence, calls);
    ReconstructKeeps(cfg, s, calls);
    StandsAtRevision(cfg, s.d);
    var h := Past(cfg, s.d);
    var g := ReconstructRecovery(cfg, s, calls);
    if g.v.recovery.Some? {
      var a := g.v.recovery.value;
      forall reason ensures TracksRecovery(h, a.(reason := reason)) {
        ReasonIsFree(h, a, reason);
      }
      if Wanted(s, a).Some? && a.stage != ApplyingSnapshot {
        StartTracks(cfg, s.d, a, Wanted(s, a).value);
      }
    }
  }

  lemma ReasonIsFree(h: History, a: RecoveryActivity, reason: Reason)
    requires TracksRecovery(h, a)
    ensures TracksRecovery(h, a.(reason := reason))
  {
  }

  /*
   * Barrier sizes
   */

  lemma SlotsDiffer(a: Aggregate, i: nat, j: nat)
    requires ValidRoster(a.roster) && i < j < |a.roster|
    ensures a.roster[i].slot != a.roster[j].slot
  {
    assert !Clash(a.roster[i], a.roster[j]);
  }

  lemma {:induction false} PrefixSlotCount(a: Aggregate, n: nat)
    requires ValidRoster(a.roster) && n <= |a.roster|
    ensures |set i | 0 <= i < n :: a.roster[i].slot| == n
  {
    hide ValidRoster;
    if n > 0 {
      PrefixSlotCount(a, n - 1);
      var before := set i | 0 <= i < n - 1 :: a.roster[i].slot;
      forall i | 0 <= i < n - 1 ensures a.roster[i].slot != a.roster[n - 1].slot {
        SlotsDiffer(a, i, n - 1);
      }
      assert (set i | 0 <= i < n :: a.roster[i].slot) == before + {a.roster[n - 1].slot};
    }
  }

  lemma SubsetSize(a: set<Id>, b: set<Id>)
    requires a <= b
    ensures |a| <= |b| && (|a| == |b| ==> a == b)
  {
    assert |b| == |a| + |b - a|;
  }

  /** Comparing sizes is comparing sets: a barrier as large as the roster is full. */
  lemma FullBarrier(a: Aggregate, acked: set<Id>)
    requires ValidRoster(a.roster) && acked <= SlotIds(a)
    ensures |acked| == |a.roster| <==> acked == SlotIds(a)
  {
    PrefixSlotCount(a, |a.roster|);
    SubsetSize(acked, SlotIds(a));
  }

  /*
   * Acknowledgements
   */

  /** The checkpoint an attempt works with, as the store and the journal have it. */
  lemma AttemptCheckpoint(cfg: Config, d: Durable, a: RecoveryActivity)
    requires Stands(cfg, d) && TracksRecovery(Past(cfg, d), a) && a.checkpoint.Some?
    ensures var h := Past(cfg, d);
            var id := a.checkpoint.value;
            && id in d.checkpoints && id in h.saved && h.lastCommitted == Some(id)
            && d.checkpoints[id] == CheckpointOf(id, h.saved[id])
            && SoundSaved(cfg, h, id, h.saved[id])
            && SlotIds(h.saved[id].campaign) == SlotIds(h.campaign)
            && Records(h.saved[id].campaign.roster) == Records(h.campaign.roster) == d.slots
  {
    hide Replay, CoreBytes, ImageOf, CheckpointSlots, SoundCampaign;
    ReplayIsSound(cfg, d.journal);
    CheckpointHasRosterSlots(cfg, Past(cfg, d), a.checkpoint.value);
  }

  /** Slots with the same hash are the same slot. */
  lemma HashNamesSlot(cfg: Config, a: Aggregate, x: Id, y: Id)
    requires a.sealed && Apart(cfg, a) && x in SlotIds(a) && y in SlotIds(a) && cfg.slotHash(x) == cfg.slotHash(y)
    ensures x == y
  {
    var i :| 0 <= i < |a.roster| && a.roster[i].slot == x;
    var j :| 0 <= j < |a.roster| && a.roster[j].slot == y;
  }

  lemma LoadAckIsFresh(cfg: Config, d: Durable, a: RecoveryActivity, x: Id)
    requires Stands(cfg, d) && Apart(cfg, Past(cfg, d).campaign) && TracksRecovery(Past(cfg, d), a)
    requires x in SlotIds(Past(cfg, d).campaign) && x !in a.durableLoaded
    ensures JournalIndex(d.journal, LoadedBy(cfg.slotHash(x), a.attempt)) == |d.journal|
  {
    hide Replay, Apart, SoundCampaign, SoundSaved;
    var h := Past(cfg, d);
    ReplayIsSound(cfg, d.journal);
    JournalIsAccounted(cfg, d.journal);
    forall r | r in d.journal ensures r.mutation != LoadedBy(cfg.slotHash(x), a.attempt) {
      assert Accounted(cfg, h, r);
      if r.mutation == LoadedBy(cfg.slotHash(x), a.attempt) {
        var y :| y in h.open.value.loaded && cfg.slotHash(y) == cfg.slotHash(x);
        HashNamesSlot(cfg, h.campaign, x, y);
      }
    }
    FreshMutation(d, LoadedBy(cfg.slotHash(x), a.attempt));
  }

  lemma ApplyAckIsFresh(cfg: Config, d: Durable, a: RecoveryActivity, x: Id)
    requires Stands(cfg, d) && Apart(cfg, Past(cfg, d).campaign) && TracksRecovery(Past(cfg, d), a)
    requires x in SlotIds(Past(cfg, d).campaign) && x !in a.durableApplied
    ensures JournalIndex(d.journal, AppliedBy(cfg.slotHash(x), a.attempt)) == |d.journal|
  {
    hide Replay, Apart, SoundCampaign, SoundSaved;
    var h := Past(cfg, d);
    ReplayIsSound(cfg, d.journal);
    JournalIsAccounted(cfg, d.journal);
    forall r | r in d.journal ensures r.mutation != AppliedBy(cfg.slotHash(x), a.attempt) {
      assert Accounted(cfg, h, r);
      if r.mutation == AppliedBy(cfg.slotHash(x), a.attempt) {
        var y :| y in h.open.value.applied && cfg.slotHash(y) == cfg.slotHash(x);
        HashNamesSlot(cfg, h.campaign, x, y);
      }
    }
    FreshMutation(d, AppliedBy(cfg.slotHash(x), a.attempt));
  }

  function AckRequest(cfg: Config, revision: nat, k: Ack, c: Id, x: CheckpointSlot): Request {
    Request(revision, AckMutation(cfg, k, x.slot), AckPayload(k, c, x), NoChange)
  }

  function AckRecord(cfg: Config, revision: nat, k: Ack, c: Id, x: CheckpointSlot): Record {
    Record(AckMutation(cfg, k, x.slot), revision, revision, AckPayload(k, c, x), NoChange, None)
  }

  lemma LoadAckAccepted(cfg: Config, h: History, a: RecoveryActivity, x: CheckpointSlot)
    requires Sound(cfg, h) && TracksRecovery(h, a) && a.checkpoint.Some?
    requires x in CheckpointSlots(h.saved[a.checkpoint.value]) && x.slot !in a.durableLoaded
    requires x.slot in SlotIds(h.campaign)
    ensures Next(cfg, h, AckRecord(cfg, h.revision, LoadAck(a.attempt), a.checkpoint.value, x)) ==
            Some(h.(open := Some(h.open.value.(loaded := h.open.value.loaded + {x.slot}))))
  {
    hide SoundCampaign, SoundSaved, CheckpointSlots;
  }

  lemma ApplyAckAccepted(cfg: Config, h: History, a: RecoveryActivity, i: nat)
    requires Sound(cfg, h) && TracksRecovery(h, a) && a.checkpoint.Some? && a.stage == ApplyingSnapshot
    requires i < |h.saved[a.checkpoint.value].campaign.roster|
    requires h.saved[a.checkpoint.value].campaign.roster[i].slot !in a.durableApplied
    ensures var x := CheckpointSlots(h.saved[a.checkpoint.value])[i];
            Next(cfg, h, AckRecord(cfg, h.revision, ApplyAck(a.attempt, h.revision), a.checkpoint.value, x)) ==
            Some(h.(open := Some(h.open.value.(applied := h.open.value.applied + {x.slot}))))
  {
    hide SoundCampaign, SoundSaved;
    var roster := h.saved[a.checkpoint.value].campaign.roster;
    assert CheckpointSlots(h.saved[a.checkpoint.value])[i].Record() == Records(roster)[i];
  }

  /** An accepted no-op appends its record and nothing else. */
  lemma NoOpWrites(d: Durable, q: Request)
    requires q.content.NoChange? && q.expected == d.revision && JournalIndex(d.journal, q.mutation) == |d.journal|
    requires Storable(q.mutation)
    ensures ApplyMutation(d, q) ==
            Written(d.(journal := d.journal + [Record(q.mutation, q.expected, d.revision, q.payload, q.content, None)]),
                    Stored, d.revision, false, false)
  {
  }

  lemma SlotsOfAttempt(cfg: Config, h: History, a: RecoveryActivity, i: nat)
    requires Sound(cfg, h) && TracksRecovery(h, a) && a.checkpoint.Some?
    requires i < |h.saved[a.checkpoint.value].campaign.roster|
    ensures var x := CheckpointSlots(h.saved[a.checkpoint.value])[i];
            x in CheckpointSlots(h.saved[a.checkpoint.value]) && x.slot in SlotIds(h.campaign)
  {
    hide SoundCampaign;
    var saved := h.saved[a.checkpoint.value];
    assert SoundSaved(cfg, h, a.checkpoint.value, saved);
    SameRecordsSameSlots(saved.campaign, h.campaign);
    assert saved.campaign.roster[i].slot in SlotIds(saved.campaign);
  }

  lemma LoadAckStands(cfg: Config, d: Durable, a: RecoveryActivity, i: nat)
    requires Stands(cfg, d) && Apart(cfg, Past(cfg, d).campaign) && TracksRecovery(Past(cfg, d), a)
             && a.checkpoint.Some?
    requires i < |Past(cfg, d).saved[a.checkpoint.value].campaign.roster|
    requires CheckpointSlots(Past(cfg, d).saved[a.checkpoint.value])[i].slot !in a.durableLoaded
    ensures var h := Past(cfg, d);
            var x := CheckpointSlots(h.saved[a.checkpoint.value])[i];
            var w := ApplyMutation(d, AckRequest(cfg, d.revision, LoadAck(a.attempt), a.checkpoint.value, x));
            && w.error == Stored && w.revision == d.revision && Stands(cfg, w.d)
            && Past(cfg, w.d) == h.(open := Some(h.open.value.(loaded := h.open.value.loaded + {x.slot})))
  {
    hide Replay, CoreBytes, ImageOf, Next, Sound, CheckpointSlots, Apart, TracksRecovery, ApplyMutation;
    var h := Past(cfg, d);
    ReplayIsSound(cfg, d.journal);
    AttemptCheckpoint(cfg, d, a);
    SlotsOfAttempt(cfg, h, a, i);
    var x := CheckpointSlots(h.saved[a.checkpoint.value])[i];
    LoadAckIsFresh(cfg, d, a, x.slot);
    LoadAckAccepted(cfg, h, a, x);
    var q := AckRequest(cfg, d.revision, LoadAck(a.attempt), a.checkpoint.value, x);
    NoOpWrites(d, q);
    AppendStands(cfg, d, AckRecord(cfg, h.revision, LoadAck(a.attempt), a.checkpoint.value, x), ApplyMutation(d, q).d);
  }

  lemma ApplyAckStands(cfg: Config, d: Durable, a: RecoveryActivity, i: nat)
    requires Stands(cfg, d) && Apart(cfg, Past(cfg, d).campaign) && TracksRecovery(Past(cfg, d), a)
             && a.checkpoint.Some?
    requires a.stage == ApplyingSnapshot
    requires i < |Past(cfg, d).saved[a.checkpoint.value].campaign.roster|
    requires CheckpointSlots(Past(cfg, d).saved[a.checkpoint.value])[i].slot !in a.durableApplied
    ensures var h := Past(cfg, d);
            var x := CheckpointSlots(h.saved[a.checkpoint.value])[i];
            var w := ApplyMutation(d,
                                   AckRequest(cfg, d.revision, ApplyAck(a.attempt, d.revision), a.checkpoint.value, x));
            && w.error == Stored && w.revision == d.revision && Stands(cfg, w.d)
            && Past(cfg, w.d) == h.(open := Some(h.open.value.(applied := h.open.value.applied + {x.slot})))
  {
    hide Replay, CoreBytes, ImageOf, Next, Sound, Apart, TracksRecovery, ApplyMutation;
    var h := Past(cfg, d);
    ReplayIsSound(cfg, d.journal);
    AttemptCheckpoint(cfg, d, a);
    SlotsOfAttempt(cfg, h, a, i);
    var x := CheckpointSlots(h.saved[a.checkpoint.value])[i];
    ApplyAckIsFresh(cfg, d, a, x.slot);
    ApplyAckAccepted(cfg, h, a, i);
    var q := AckRequest(cfg, d.revision, ApplyAck(a.attempt, d.revision), a.checkpoint.value, x);
    NoOpWrites(d, q);
    AppendStands(cfg, d, AckRecord(cfg, h.revision, ApplyAck(a.attempt, h.revision), a.checkpoint.value, x),
                 ApplyMutation(d, q).d);
  }

  /*
   * The first barrier
   */

  /** A restored attempt has its restore in the journal. */
  lemma {:induction false} RestoreIsJournaled(cfg: Config, journal: seq<Record>)
    requires Replay(cfg, journal).Some?
    requires var h := Replay(cfg, journal).value; h.open.Some? && h.open.value.restored
    ensures exists r :: r in journal && r.mutation == RestoreOf(Replay(cfg, journal).value.open.value.entry)
  {
    hide Next, Created;
    var n := |journal| - 1;
    var entry := Replay(cfg, journal).value.open.value.entry;
    if n == 0 {
      CreatedIsIdle(cfg, journal[0]);
    } else {
      var before := Replay(cfg, journal[..n]).value;
      RestoredBy(cfg, before, journal[n]);
      if journal[n].mutation == RestoreOf(entry) {
        assert journal[n] in journal;
      } else {
        RestoreIsJournaled(cfg, journal[..n]);
        var r :| r in journal[..n] && r.mutation == RestoreOf(entry);
        assert r in journal;
      }
    }
  }

  lemma CreatedIsIdle(cfg: Config, r: Record)
    requires Created(cfg, r).Some?
    ensures Created(cfg, r).value.open.None?
  {
  }

  lemma RestoredBy(cfg: Config, h: History, r: Record)
    requires Next(cfg, h, r).Some?
    requires var next := Next(cfg, h, r).value; next.open.Some? && next.open.value.restored
    ensures var entry := Next(cfg, h, r).value.open.value.entry;
            r.mutation == RestoreOf(entry) || (h.open.Some? && h.open.value.restored && h.open.value.entry == entry)
  {
    hide CoreBytes, IntentBytes, Apply, CheckpointSlots, Records, SlotIds;
  }

  /** The restore decodes the checkpoint's own core state and rebases it. */
  lemma RestoredCoreIsRebased(cfg: Config, d: Durable, a: RecoveryActivity)
    requires Stands(cfg, d) && TracksRecovery(Past(cfg, d), a) && a.checkpoint.Some? && d.revision < MAX_REVISION
    ensures var saved := Past(cfg, d).saved[a.checkpoint.value].campaign;
            RestoredCore(cfg, d, d.checkpoints[a.checkpoint.value]) ==
            (Stored, CoreBytes(ImageOf(saved.(version := d.revision + 1))))
  {
    hide Replay, CoreBytes, ImageOf, EncodeCore, DecodeCore, ValidAggregate, TracksRecovery;
    AttemptCheckpoint(cfg, d, a);
    var s := Past(cfg, d).saved[a.checkpoint.value];
    SoundEncodes(cfg, s.campaign);
    InvIgnoresVersion(s.campaign, d.revision + 1);
    SoundEncodes(cfg, s.campaign.(version := d.revision + 1));
    assert SlotRecords(CheckpointSlots(s)) == Records(s.campaign.roster);
  }

  function RestoreRequest(revision: nat, attempt: nat, c: Id, core: Bytes): Request {
    Request(revision, RestoreOf(attempt), RestoreCheckpoint(attempt, c), RestoredState(core))
  }

  function RestoreRecord(h: History, attempt: nat, c: Id): Record
    requires c in h.saved && h.revision < MAX_REVISION
  {
    Record(RestoreOf(attempt), h.revision, h.revision + 1, RestoreCheckpoint(attempt, c),
           RestoredState(CoreBytes(ImageOf(h.saved[c].campaign.(version := h.revision + 1)))),
           Some(RestoredFrom(c, h.saved[c].campaign.version)))
  }

  lemma RestoreAccepted(cfg: Config, h: History, a: RecoveryActivity)
    requires Sound(cfg, h) && TracksRecovery(h, a) && a.checkpoint.Some? && h.revision < MAX_REVISION
    requires !h.open.value.restored && a.loaded == SlotIds(h.saved[a.checkpoint.value].campaign) == SlotIds(h.campaign)
    ensures var c := a.checkpoint.value;
            Next(cfg, h, RestoreRecord(h, a.attempt, c)) ==
            Some(h.(revision := h.revision + 1,
                    campaign := h.saved[c].campaign.(version := h.revision + 1),
                    open := Some(h.open.value.(restored := true))))
  {
    hide CoreBytes, ImageOf, SoundCampaign, SoundSaved, SlotIds;
  }

  /** With every slot loaded, the restore is written once, at the entry revision,
      and puts the checkpoint's campaign back under the next revision. */
  lemma RestoreStands(cfg: Config, d: Durable, a: RecoveryActivity, core: Bytes)
    requires Stands(cfg, d) && TracksRecovery(Past(cfg, d), a) && a.checkpoint.Some?
             && !Past(cfg, d).open.value.restored
    requires JournalIndex(d.journal, RestoreOf(a.attempt)) == |d.journal|
    requires a.loaded == SlotIds(Past(cfg, d).campaign)
    requires d.revision < MAX_REVISION ==> RestoredCore(cfg, d, d.checkpoints[a.checkpoint.value]) == (Stored, core)
    ensures var h := Past(cfg, d);
            var c := a.checkpoint.value;
            var w := RestoreSnapshot(d, RestoreRequest(d.revision, a.attempt, c, core), c);
            && (w.error != Stored ==> w.d == d)
            && (w.error == Stored ==>
                  && Stands(cfg, w.d) && w.revision == h.revision + 1 == a.attempt + 1 <= MAX_REVISION
                  && Past(cfg, w.d) ==
                     h.(revision := h.revision + 1,
                        campaign := h.saved[c].campaign.(version := h.revision + 1),
                        open := Some(h.open.value.(restored := true))))
  {
    hide Replay, CoreBytes, ImageOf, Next, Sound, SoundSaved, Records, SlotIds, CheckpointSlots, RestoredCore;
    var h := Past(cfg, d);
    var c := a.checkpoint.value;
    var q := RestoreRequest(d.revision, a.attempt, c, core);
    var w := RestoreSnapshot(d, q, c);
    ReplayIsSound(cfg, d.journal);
    AttemptCheckpoint(cfg, d, a);
    assert Replayed(d, q).None?;
    if w.error == Stored {
      RestoredCoreIsRebased(cfg, d, a);
      RestoreAccepted(cfg, h, a);
      EntryIsCurrent(cfg, h);
      RestoredProjects(cfg, h, c);
      AppendStands(cfg, d, RestoreRecord(h, a.attempt, c), w.d);
    }
  }

  lemma EntryIsCurrent(cfg: Config, h: History)
    requires Sound(cfg, h) && h.open.Some? && !h.open.value.restored
    ensures h.revision == h.open.value.entry
  {
  }

  lemma RestoredProjects(cfg: Config, h: History, c: Id)
    requires Sound(cfg, h) && c in h.saved
    ensures h.saved[c].campaign.sealed == h.campaign.sealed
    ensures Records(h.saved[c].campaign.roster) == Records(h.campaign.roster)
  {
    hide SoundCampaign;
    assert SoundSaved(cfg, h, c, h.saved[c]);
  }

  lemma SnapshotReadyTracks(h: History, a: RecoveryActivity)
    requires TracksRecovery(h, a) && h.open.value.restored
    ensures TracksRecovery(h,
                           a.(stage := ApplyingSnapshot, reason := NoReason, restore := Some(a.attempt + 1),
                              applied := {}))
  {
  }

  lemma RestoredTracks(h: History, next: History, a: RecoveryActivity)
    requires TracksRecovery(h, a) && a.checkpoint.Some?
    requires next.saved == h.saved && next.lastCommitted == h.lastCommitted
    requires next.open == Some(h.open.value.(restored := true)) && !h.open.value.restored && a.stage != RecoveryLock
    ensures TracksRecovery(next,
                           a.(stage := ApplyingSnapshot, reason := NoReason, restore := Some(a.attempt + 1),
                              applied := {}))
  {
  }

  lemma FireRestoreKeeps(cfg: Config, s: System, a: RecoveryActivity, reply: Reply, calls: nat)
    requires InStep(cfg, s) && s.v == Volatile(None, Some(a)) && a.checkpoint.Some? && a.stage == LoadingNativeSaves
    requires a.checkpoint.value in s.d.checkpoints && a.loaded == SlotIds(Past(cfg, s.d).campaign)
    ensures InStep(cfg, FireRestore(cfg, s, a, s.d.checkpoints[a.checkpoint.value], reply, calls).s)
  {
    hide Replay, Stands, RestoredCore, RestoreSnapshot, TracksRecovery;
    StandsAtRevision(cfg, s.d);
    var h := Past(cfg, s.d);
    RestoreFound(cfg, s.d, a);
    AttemptCheckpointId(cfg, s.d, a);
    if h.open.value.restored {
      SnapshotReadyTracks(h, a);
    } else if calls >= 3 {
      var k := s.d.checkpoints[a.checkpoint.value];
      var core := RestoredCore(cfg, s.d, k);
      CoreIsStored(cfg, s.d, a);
      RestoreStands(cfg, s.d, a, core.1);
      var w := RestoreSnapshot(s.d, RestoreRequest(s.d.revision, a.attempt, k.id, core.1), k.id);
      if w.error == Stored {
        StandsAtRevision(cfg, w.d);
        RestoredTracks(h, Past(cfg, w.d), a);
      }
    }
  }

  lemma CoreIsStored(cfg: Config, d: Durable, a: RecoveryActivity)
    requires Stands(cfg, d) && TracksRecovery(Past(cfg, d), a) && a.checkpoint.Some?
             && a.checkpoint.value in d.checkpoints
    ensures d.revision < MAX_REVISION ==> RestoredCore(cfg, d, d.checkpoints[a.checkpoint.value]).0 == Stored
  {
    hide Stands, TracksRecovery, RestoredCore;
    if d.revision < MAX_REVISION {
      RestoredCoreIsRebased(cfg, d, a);
    }
  }

  lemma AttemptCheckpointId(cfg: Config, d: Durable, a: RecoveryActivity)
    requires Stands(cfg, d) && TracksRecovery(Past(cfg, d), a) && a.checkpoint.Some?
    ensures a.checkpoint.value in d.checkpoints && d.checkpoints[a.checkpoint.value].id == a.checkpoint.value
    ensures Past(cfg, d).open.Some?
  {
    hide Replay, CoreBytes, ImageOf, CheckpointSlots;
  }

  /** The journal holds the attempt's restore exactly when it is restored, and
      then with the checkpoint and revision of the attempt. */
  lemma RestoreFound(cfg: Config, d: Durable, a: RecoveryActivity)
    requires Stands(cfg, d) && TracksRecovery(Past(cfg, d), a) && a.checkpoint.Some?
             && a.checkpoint.value in d.checkpoints
    ensures var i := JournalIndex(d.journal, RestoreOf(a.attempt));
            var k := d.checkpoints[a.checkpoint.value];
            && (i < |d.journal| <==> Past(cfg, d).open.value.restored)
            && (i < |d.journal| ==>
                  && d.journal[i].payload.RestoreCheckpoint? && d.journal[i].resulting == a.attempt + 1
                  && d.journal[i].restoredFrom == Some(RestoredFrom(k.id, k.source)))
  {
    hide Replay, CoreBytes, ImageOf, CheckpointSlots;
    JournalIsAccounted(cfg, d.journal);
    var i := JournalIndex(d.journal, RestoreOf(a.attempt));
    if i < |d.journal| {
      assert Accounted(cfg, Past(cfg, d), d.journal[i]);
    } else if Past(cfg, d).open.value.restored {
      RestoreIsJournaled(cfg, d.journal);
    }
  }

  lemma LoadedTracks(h: History, next: History, a: RecoveryActivity, x: Id)
    requires TracksRecovery(h, a) && a.checkpoint.Some? && a.stage != RecoveryLock
    requires next.saved == h.saved && next.lastCommitted == h.lastCommitted
    requires next.open == Some(h.open.value.(loaded := h.open.value.loaded + {x}))
    ensures var a1 := a.(durableLoaded := a.durableLoaded + {x});
            TracksRecovery(next, a1) && TracksRecovery(next, a1.(loaded := a.loaded + {x}))
  {
  }

  lemma AcknowledgeLoadKeeps(cfg: Config, s: System, a: RecoveryActivity, i: nat, calls: nat)
    requires Consistent(cfg, s) && s.v == Volatile(None, Some(a)) && a.checkpoint.Some? && a.stage != RecoveryLock
    requires a.checkpoint.value in s.d.checkpoints && i < |s.d.checkpoints[a.checkpoint.value].slots|
    ensures var k := s.d.checkpoints[a.checkpoint.value];
            InStep(cfg, AcknowledgeLoad(cfg, s, a, s.d.revision, k, k.slots[i], calls).s)
  {
    hide Replay, Stands, ApplyMutation, TracksRecovery, FireRestore, Apart, CheckpointSlots;
    StandsAtRevision(cfg, s.d);
    AttemptCheckpointId(cfg, s.d, a);
    AttemptCheckpoint(cfg, s.d, a);
    var h := Past(cfg, s.d);
    var k := s.d.checkpoints[a.checkpoint.value];
    var x := k.slots[i];
    var durable := x.slot in a.durableLoaded;
    if durable || calls >= 1 {
      if !durable {
        LoadAckStands(cfg, s.d, a, i);
      }
      var q := AckRequest(cfg, s.d.revision, LoadAck(a.attempt), k.id, x);
      var w := if durable then Written(s.d, Stored, s.d.revision, false, false) else ApplyMutation(s.d, q);
      DurableSlot(h, a, x.slot);
      StandsAtRevision(cfg, w.d);
      LoadedTracks(h, Past(cfg, w.d), a, x.slot);
      if a.stage == LoadingNativeSaves {
        var a2 := a.(durableLoaded := a.durableLoaded + {x.slot}, loaded := a.loaded + {x.slot});
        var s2 := Recovering(s.(d := w.d), a2);
        SameCheckpoint(cfg, s.d, w.d, a);
        LoadBarrier(cfg, w.d, a2);
        if |a2.loaded| == |k.slots| {
          FireRestoreKeeps(cfg, s2, a2, FromWritten(w).(replay := durable || x.slot in a.loaded),
                           if durable then calls else calls - 1);
        }
      }
    }
  }

  lemma DurableSlot(h: History, a: RecoveryActivity, x: Id)
    requires TracksRecovery(h, a)
    ensures h.open.Some?
    ensures x in a.durableLoaded ==> h == h.(open := Some(h.open.value.(loaded := h.open.value.loaded + {x})))
    ensures x in a.durableApplied ==> h == h.(open := Some(h.open.value.(applied := h.open.value.applied + {x})))
  {
    if x in a.durableLoaded {
      assert h.open.value.loaded + {x} == h.open.value.loaded;
    }
    if x in a.durableApplied {
      assert h.open.value.applied + {x} == h.open.value.applied;
    }
  }

  /** An acknowledgement leaves the attempt's checkpoint alone. */
  lemma SameCheckpoint(cfg: Config, d: Durable, next: Durable, a: RecoveryActivity)
    requires Stands(cfg, d) && Stands(cfg, next) && TracksRecovery(Past(cfg, d), a) && a.checkpoint.Some?
    requires Past(cfg, next).saved == Past(cfg, d).saved
    ensures a.checkpoint.value in d.checkpoints && a.checkpoint.value in next.checkpoints
    ensures next.checkpoints[a.checkpoint.value] == d.checkpoints[a.checkpoint.value]
  {
    hide Replay, CoreBytes, ImageOf, CheckpointSlots;
  }

  lemma LoadBarrier(cfg: Config, d: Durable, a: RecoveryActivity)
    requires Stands(cfg, d) && TracksRecovery(Past(cfg, d), a) && a.checkpoint.Some?
             && a.checkpoint.value in d.checkpoints
    ensures |a.loaded| == |d.checkpoints[a.checkpoint.value].slots| <==> a.loaded == SlotIds(Past(cfg, d).campaign)
    ensures |a.applied| == |d.checkpoints[a.checkpoint.value].slots| <==> a.applied == SlotIds(Past(cfg, d).campaign)
  {
    hide Replay, CoreBytes, ImageOf, CheckpointSlots, SlotIds;
    ReplayIsSound(cfg, d.journal);
    AttemptCheckpoint(cfg, d, a);
    var h := Past(cfg, d);
    FullBarrier(h.campaign, a.loaded);
    FullBarrier(h.campaign, a.applied);
    assert |Records(h.saved[a.checkpoint.value].campaign.roster)| == |Records(h.campaign.roster)|;
  }

  lemma CheckLoadKeeps(cfg: Config, s: System, a: RecoveryActivity, c: LoadedReport, calls: nat)
    requires Consistent(cfg, s) && s.v == Volatile(None, Some(a)) && a.checkpoint.Some?
    requires a.checkpoint.value in s.d.checkpoints
    ensures InStep(cfg, CheckLoad(cfg, s, a, s.d.revision, s.d.checkpoints[a.checkpoint.value], c, calls).s)
  {
    hide Replay, Stands, TracksRecovery, AcknowledgeLoad, Apart, ProofMatches;
    StandsAtRevision(cfg, s.d);
    ReasonIsFree(Past(cfg, s.d), a, ClientLoadFailed);
    var k := s.d.checkpoints[a.checkpoint.value];
    var i := MemberSlotIndex(k.slots, c.actor);
    if i < |k.slots| && a.stage != RecoveryLock {
      AcknowledgeLoadKeeps(cfg, s, a, i, calls);
    }
  }

  lemma RecoveringIsAlone(h: History, v: Volatile)
    requires Tracks(h, v) && v.recovery.Some?
    ensures v == Volatile(None, v.recovery)
  {
  }

  lemma RecordLoadedKeeps(cfg: Config, s: System, c: LoadedReport, calls: nat)
    requires Consistent(cfg, s)
    ensures InStep(cfg, RecordLoadedOp(cfg, s, c, calls).s)
  {
    hide ReconstructRecovery, LoadAggregate, Replay, Stands, CheckLoad, Apart, EvaluateFullRoster, Tracks,
      RecordLoadedOp;
    RecordLoadedCases(cfg, s, c, calls);
    ReconstructKeeps(cfg, s, calls);
    StandsAtRevision(cfg, s.d);
    LoadIsCurrent(cfg, s.d);
    var g := ReconstructRecovery(cfg, s, calls);
    if LoadReaches(cfg, s, c, g) {
      RecoveringIsAlone(Past(cfg, s.d), g.v);
      CheckLoadKeeps(cfg, s.(v := g.v), g.v.recovery.value, c, g.left - 3);
    }
  }

  /*
   * The second barrier
   */

  function CompleteRequest(c: AppliedReport): Request {
    Request(c.restore, CompleteOf(c.attempt), CompleteRecovery(c.attempt, c.checkpoint, c.restore), NoChange)
  }

  lemma CompletionIsFresh(cfg: Config, d: Durable, a: RecoveryActivity)
    requires Stands(cfg, d) && TracksRecovery(Past(cfg, d), a)
    ensures JournalIndex(d.journal, CompleteOf(a.attempt)) == |d.journal|
  {
    hide Replay;
    JournalIsAccounted(cfg, d.journal);
    FreshMutation(d, CompleteOf(a.attempt));
  }

  lemma CompleteAccepted(cfg: Config, h: History, a: RecoveryActivity)
    requires Sound(cfg, h) && TracksRecovery(h, a) && a.checkpoint.Some? && a.stage == ApplyingSnapshot
    requires a.applied == SlotIds(h.saved[a.checkpoint.value].campaign) == SlotIds(h.campaign)
    ensures Next(cfg, h, Record(CompleteOf(a.attempt), h.revision, h.revision,
                                CompleteRecovery(a.attempt, a.checkpoint.value, h.revision), NoChange, None)) ==
            Some(h.(open := None))
  {
    hide SoundCampaign, SoundSaved, SlotIds;
  }

  lemma RestoreRevisionIsCurrent(cfg: Config, h: History, a: RecoveryActivity)
    requires Sound(cfg, h) && TracksRecovery(h, a) && a.restore.Some?
    ensures a.restore.value == h.revision && h.open.value.restored
  {
  }

  lemma CompleteKeeps(cfg: Config, s: System, a: RecoveryActivity, c: AppliedReport, calls: nat)
    requires InStep(cfg, s) && s.v == Volatile(None, Some(a)) && a.stage == ApplyingSnapshot
    requires a.checkpoint == Some(c.checkpoint) && a.restore == Some(c.restore) && a.attempt == c.attempt
    requires a.applied == SlotIds(Past(cfg, s.d).campaign)
    ensures var r := Complete(s, a, c, calls);
            InStep(cfg, r.s) && (r.completed ==> Past(cfg, r.s.d) == Past(cfg, s.d).(open := None))
  {
    hide Replay, CoreBytes, ImageOf, Next, TracksRecovery, SoundSaved, SoundCampaign, ApplyMutation, SlotIds, Sound;
    var h := Past(cfg, s.d);
    ReplayIsSound(cfg, s.d.journal);
    AttemptCheckpoint(cfg, s.d, a);
    RestoreRevisionIsCurrent(cfg, h, a);
    CompletionIsFresh(cfg, s.d, a);
    CompleteAccepted(cfg, h, a);
    NoOpWrites(s.d, CompleteRequest(c));
    AppendStands(cfg, s.d, Record(CompleteOf(a.attempt), h.revision, h.revision,
                                  CompleteRecovery(a.attempt, c.checkpoint, h.revision), NoChange, None),
                 ApplyMutation(s.d, CompleteRequest(c)).d);
  }

  lemma AppliedTracks(h: History, next: History, a: RecoveryActivity, x: Id)
    requires TracksRecovery(h, a) && a.checkpoint.Some? && a.stage == ApplyingSnapshot
    requires next.saved == h.saved && next.lastCommitted == h.lastCommitted
    requires next.open == Some(h.open.value.(applied := h.open.value.applied + {x}))
    ensures TracksRecovery(next, a.(durableApplied := a.durableApplied + {x}, applied := a.applied + {x}))
  {
  }

  lemma AcknowledgeSnapshotKeeps(cfg: Config, s: System, a: RecoveryActivity, i: nat, c: AppliedReport, calls: nat)
    requires Consistent(cfg, s) && s.v == Volatile(None, Some(a)) && a.stage == ApplyingSnapshot
    requires a.checkpoint == Some(c.checkpoint) && a.restore == Some(c.restore) && a.attempt == c.attempt
    requires c.checkpoint in s.d.checkpoints && i < |s.d.checkpoints[c.checkpoint].slots|
    ensures var k := s.d.checkpoints[c.checkpoint];
            InStep(cfg, AcknowledgeSnapshot(cfg, s, a, s.d.revision, k, k.slots[i], c, calls).s)
  {
    hide Replay, Stands, ApplyMutation, TracksRecovery, Complete, Apart, CheckpointSlots, Sound;
    StandsAtRevision(cfg, s.d);
    ReplayIsSound(cfg, s.d.journal);
    AttemptCheckpointId(cfg, s.d, a);
    AttemptCheckpoint(cfg, s.d, a);
    var h := Past(cfg, s.d);
    RestoreRevisionIsCurrent(cfg, h, a);
    var k := s.d.checkpoints[c.checkpoint];
    var x := k.slots[i];
    var durable := x.slot in a.durableApplied;
    if durable || calls >= 1 {
      if !durable {
        ApplyAckStands(cfg, s.d, a, i);
      }
      var q := AckRequest(cfg, s.d.revision, ApplyAck(a.attempt, c.restore), k.id, x);
      var w := if durable then Written(s.d, Stored, s.d.revision, false, false) else ApplyMutation(s.d, q);
      DurableSlot(h, a, x.slot);
      StandsAtRevision(cfg, w.d);
      AppliedTracks(h, Past(cfg, w.d), a, x.slot);
      var a1 := a.(durableApplied := a.durableApplied + {x.slot}, applied := a.applied + {x.slot});
      SameCheckpoint(cfg, s.d, w.d, a);
      LoadBarrier(cfg, w.d, a1);
      if |a1.applied| == |k.slots| {
        CompleteKeeps(cfg, Recovering(s.(d := w.d), a1), a1, c, if durable then calls else calls - 1);
      }
    }
  }

  lemma RecordAppliedKeeps(cfg: Config, s: System, c: AppliedReport, calls: nat)
    requires Consistent(cfg, s)
    ensures InStep(cfg, RecordAppliedOp(cfg, s, c, calls).s)
  {
    hide ReconstructRecovery, LoadAggregate, Replay, Stands, AcknowledgeSnapshot, Apart, EvaluateFullRoster, Tracks,
      RecordAppliedOp, MemberSlotIndex;
    RecordAppliedCases(cfg, s, c, calls);
    ReconstructKeeps(cfg, s, calls);
    StandsAtRevision(cfg, s.d);
    LoadIsCurrent(cfg, s.d);
    var g := ReconstructRecovery(cfg, s, calls);
    if ApplyReaches(cfg, s, c, g) {
      RecoveringIsAlone(Past(cfg, s.d), g.v);
      var i := MemberSlotIndex(s.d.checkpoints[c.checkpoint].slots, c.actor);
      AcknowledgeSnapshotKeeps(cfg, s.(v := g.v), g.v.recovery.value, i, c, g.left - 3);
    }
  }
}
