/** Rebuilding an open recovery from the journal gives exactly what the journal
    says about it. */
module RecoveryRebuild {
  import opened Basics
  import opened CampaignState
  import opened CampaignCoreCodec
  import opened CampaignStore
  import opened CampaignHistory
  import opened RuntimeModel
  import opened RuntimeInvariants

  /** Once sealed, no two slots of the roster share a hash. */
  predicate Apart(cfg: Config, a: Aggregate) {
    a.sealed ==>
      forall i, j :: 0 <= i < j < |a.roster| ==> cfg.slotHash(a.roster[i].slot) != cfg.slotHash(a.roster[j].slot)
  }

  /** The part of the open attempt that a restart cannot lose: locked again, with
      both volatile barriers empty. */
  function DurablePart(h: History): RecoveryActivity
    requires h.open.Some?
    requires h.open.value.restored || h.open.value.loaded != {} ==>
               h.lastCommitted.Some? && h.lastCommitted.value in h.saved
  {
    var o := h.open.value;
    var base := Opened(o.entry).(durableLoaded := o.loaded, durableApplied := o.applied);
    if o.restored || o.loaded != {} then
      base.(checkpoint := h.lastCommitted,
            source := h.saved[h.lastCommitted.value].campaign.version,
            restore := if o.restored then Some(o.entry + 1) else None,
            reason := if o.restored then NoReason else RosterLoss)
    else base
  }

  /** What a scan has found of the open attempt. */
  function Scanned(h: History): RecoveryActivity
    requires h.open.Some?
    requires h.open.value.restored ==> h.lastCommitted.Some? && h.lastCommitted.value in h.saved
  {
    var o := h.open.value;
    if o.restored then
      Opened(o.entry).(checkpoint := h.lastCommitted,
                       source := h.saved[h.lastCommitted.value].campaign.version,
                       restore := Some(o.entry + 1),
                       reason := NoReason)
    else Opened(o.entry)
  }

  ghost predicate AcksMatch(cfg: Config, h: History, k: Ack, acks: seq<Record>, slots: set<Id>) {
    && (acks == [] <==> slots == {})
    && (slots != {} ==> h.lastCommitted.Some? && h.lastCommitted.value in h.saved)
    && (h.lastCommitted.Some? && h.lastCommitted.value in h.saved
        && h.saved[h.lastCommitted.value].campaign.version <= MAX_REVISION ==>
          AckedSlots(cfg, CheckpointOf(h.lastCommitted.value, h.saved[h.lastCommitted.value]), k, acks) == Some(slots))
  }

  ghost predicate ScanMatches(cfg: Config, h: History, s: Scan) {
    if h.open.None? then s == Scan(None, [], [])
    else
      var o := h.open.value;
      && (o.restored ==> h.lastCommitted.Some? && h.lastCommitted.value in h.saved)
      && s.Scan? && s.open == Some(Scanned(h))
      && AcksMatch(cfg, h, LoadAck(o.entry), s.loadedAcks, o.loaded)
      && AcksMatch(cfg, h, ApplyAck(o.entry, o.entry + 1), s.appliedAcks, o.applied)
  }

  lemma RosterFreezes(cfg: Config, h: History, r: Record)
    requires Sound(cfg, h) && Next(cfg, h, r).Some? && h.campaign.sealed
    ensures Next(cfg, h, r).value.campaign.sealed
    ensures Records(Next(cfg, h, r).value.campaign.roster) == Records(h.campaign.roster)
  {
    hide CoreBytes, IntentBytes, SoundCampaign;
    if r.payload.EditCampaign? {
      SealedIdentitiesFrozen(Current(h), r.payload.edit);
    } else if r.payload.RestoreCheckpoint? {
      assert SoundSaved(cfg, h, r.payload.checkpoint, h.saved[r.payload.checkpoint]);
    }
  }

  lemma ApartEarlier(cfg: Config, h: History, r: Record)
    requires Sound(cfg, h) && Next(cfg, h, r).Some? && Apart(cfg, Next(cfg, h, r).value.campaign)
    ensures Apart(cfg, h.campaign)
  {
    hide Next, Sound;
    if h.campaign.sealed {
      RosterFreezes(cfg, h, r);
      SameRecordsSameHashes(cfg, Next(cfg, h, r).value.campaign, h.campaign);
    }
  }

  lemma SameRecordsSameHashes(cfg: Config, a: Aggregate, b: Aggregate)
    requires a.sealed == b.sealed && Records(a.roster) == Records(b.roster) && Apart(cfg, a)
    ensures Apart(cfg, b)
  {
    assert |a.roster| == |b.roster|;
    forall i | 0 <= i < |a.roster| ensures a.roster[i].slot == b.roster[i].slot {
      assert Records(a.roster)[i] == Records(b.roster)[i];
    }
  }

  lemma AckIndexFinds(cfg: Config, saved: Saved, k: Ack, r: Record, i: nat)
    requires saved.campaign.sealed && Apart(cfg, saved.campaign) && i < |saved.campaign.roster|
    requires r.mutation == AckMutation(cfg, k, saved.campaign.roster[i].slot)
    ensures AckIndex(cfg, CheckpointSlots(saved), k, r) == i
  {
    var slots := CheckpointSlots(saved);
    var j := AckIndex(cfg, slots, k, r);
    assert slots[i].slot == saved.campaign.roster[i].slot;
    assert j <= i;
    assert slots[j].slot == saved.campaign.roster[j].slot;
    assert cfg.slotHash(slots[j].slot) == cfg.slotHash(slots[i].slot);
  }

  /** An exact acknowledgement of a new slot extends what the list proves. */
  lemma AckExtends(cfg: Config, h: History, k: Ack, acks: seq<Record>, slots: set<Id>, r: Record, i: nat)
    requires Sound(cfg, h) && AcksMatch(cfg, h, k, acks, slots)
    requires h.lastCommitted.Some? && h.lastCommitted.value in h.saved
    requires Apart(cfg, h.campaign)
    requires var s := h.saved[h.lastCommitted.value];
             && i < |s.campaign.roster| && s.campaign.roster[i].slot !in slots
             && r.mutation == AckMutation(cfg, k, s.campaign.roster[i].slot) && r.expected == r.resulting
             && r.payload == AckPayload(k, h.lastCommitted.value, CheckpointSlots(s)[i])
    ensures AcksMatch(cfg, h, k, acks + [r], slots + {h.saved[h.lastCommitted.value].campaign.roster[i].slot})
  {
    hide SoundCampaign;
    var id := h.lastCommitted.value;
    var s := h.saved[id];
    assert SoundSaved(cfg, h, id, s);
    SameRecordsSameHashes(cfg, h.campaign.(sealed := true), s.campaign);
    AckIndexFinds(cfg, s, k, r, i);
    assert (acks + [r])[..|acks|] == acks;
    SoundIsBounded(cfg, h);
  }

  lemma ScanStep(cfg: Config, h: History, s: Scan, r: Record)
    requires Sound(cfg, h) && Next(cfg, h, r).Some? && Apart(cfg, h.campaign)
    requires ScanMatches(cfg, h, s)
    ensures ScanMatches(cfg, Next(cfg, h, r).value, ScanRecord(s, r))
  {
    hide CoreBytes, IntentBytes, Apply, SoundCampaign, SoundSaved, AcksMatch, Apart;
    if r.payload.RecoveryLoaded? {
      ScanLoaded(cfg, h, s, r);
    } else if r.payload.SnapshotApplied? {
      ScanApplied(cfg, h, s, r);
    } else if h.open.Some? {
      ScanRestoreOrComplete(cfg, h, s, r);
    } else if r.payload.BeginRecovery? {
      ScanBegin(cfg, h, s, r);
    }
  }

  lemma ScanBegin(cfg: Config, h: History, s: Scan, r: Record)
    requires Sound(cfg, h) && Next(cfg, h, r).Some? && r.payload.BeginRecovery? && ScanMatches(cfg, h, s)
    ensures ScanMatches(cfg, Next(cfg, h, r).value, ScanRecord(s, r))
  {
  }

  lemma ScanRestoreOrComplete(cfg: Config, h: History, s: Scan, r: Record)
    requires Sound(cfg, h) && Next(cfg, h, r).Some? && h.open.Some? && ScanMatches(cfg, h, s)
    requires !r.payload.RecoveryLoaded? && !r.payload.SnapshotApplied?
    ensures ScanMatches(cfg, Next(cfg, h, r).value, ScanRecord(s, r))
  {
    hide CoreBytes, IntentBytes, Apply, SoundCampaign, SoundSaved, AcksMatch;
    var next := Next(cfg, h, r).value;
    assert next.saved == h.saved && next.lastCommitted == h.lastCommitted;
    if r.payload.RestoreCheckpoint? {
      var o := h.open.value;
      SameAcks(cfg, h, next, LoadAck(o.entry), s.loadedAcks, o.loaded);
      SameAcks(cfg, h, next, ApplyAck(o.entry, o.entry + 1), s.appliedAcks, o.applied);
    }
  }

  lemma SameAcks(cfg: Config, h: History, next: History, k: Ack, acks: seq<Record>, slots: set<Id>)
    requires AcksMatch(cfg, h, k, acks, slots) && next.saved == h.saved && next.lastCommitted == h.lastCommitted
    ensures AcksMatch(cfg, next, k, acks, slots)
  {
  }

  lemma ScanLoaded(cfg: Config, h: History, s: Scan, r: Record)
    requires Sound(cfg, h) && Next(cfg, h, r).Some? && r.payload.RecoveryLoaded? && Apart(cfg, h.campaign)
    requires ScanMatches(cfg, h, s)
    ensures ScanMatches(cfg, Next(cfg, h, r).value, ScanRecord(s, r))
  {
    hide SoundCampaign, SoundSaved, AcksMatch, Apart;
    var next := Next(cfg, h, r).value;
    var o := h.open.value;
    var saved := h.saved[r.payload.checkpoint];
    var i :| 0 <= i < |CheckpointSlots(saved)| && CheckpointSlots(saved)[i] == r.payload.proof;
    AckExtends(cfg, h, LoadAck(o.entry), s.loadedAcks, o.loaded, r, i);
    SameAcks(cfg, h, next, LoadAck(o.entry), s.loadedAcks + [r], next.open.value.loaded);
    SameAcks(cfg, h, next, ApplyAck(o.entry, o.entry + 1), s.appliedAcks, o.applied);
  }

  lemma ScanApplied(cfg: Config, h: History, s: Scan, r: Record)
    requires Sound(cfg, h) && Next(cfg, h, r).Some? && r.payload.SnapshotApplied? && Apart(cfg, h.campaign)
    requires ScanMatches(cfg, h, s)
    ensures ScanMatches(cfg, Next(cfg, h, r).value, ScanRecord(s, r))
  {
    hide SoundCampaign, SoundSaved, AcksMatch, Apart;
    var next := Next(cfg, h, r).value;
    var o := h.open.value;
    var saved := h.saved[r.payload.checkpoint];
    var i :| 0 <= i < |saved.campaign.roster| && Records(saved.campaign.roster)[i] == r.payload.member;
    assert CheckpointSlots(saved)[i].Record() == r.payload.member;
    AckExtends(cfg, h, ApplyAck(o.entry, o.entry + 1), s.appliedAcks, o.applied, r, i);
    SameAcks(cfg, h, next, ApplyAck(o.entry, o.entry + 1), s.appliedAcks + [r], next.open.value.applied);
    SameAcks(cfg, h, next, LoadAck(o.entry), s.loadedAcks, o.loaded);
  }

  /** The scan of an accepted journal never breaks and finds the open attempt. */
  lemma {:induction false} ScanFindsAttempt(cfg: Config, journal: seq<Record>)
    requires Replay(cfg, journal).Some? && Apart(cfg, Replay(cfg, journal).value.campaign)
    ensures ScanMatches(cfg, Replay(cfg, journal).value, ScanJournal(journal))
  {
    hide Next, ScanMatches, Sound, Apart, ScanRecord, Created;
    var n := |journal| - 1;
    if n == 0 {
      ScanFirst(cfg, journal);
    } else {
      var h := Replay(cfg, journal[..n]).value;
      ReplayIsSound(cfg, journal[..n]);
      ApartEarlier(cfg, h, journal[n]);
      ScanFindsAttempt(cfg, journal[..n]);
      ScanStep(cfg, h, ScanJournal(journal[..n]), journal[n]);
    }
  }

  lemma ScanFirst(cfg: Config, journal: seq<Record>)
    requires |journal| == 1 && Created(cfg, journal[0]).Some?
    ensures ScanMatches(cfg, Created(cfg, journal[0]).value, ScanJournal(journal))
  {
    assert journal[..0] == [];
    assert ScanJournal(journal) == ScanRecord(ScanJournal([]), journal[0]);
  }

  /** Restart transparency: a service that lost its volatile state rebuilds, with
      at most two store calls and never an integrity failure, exactly the durable
      part of the open attempt, or nothing when no attempt is open. */
  lemma RebuildIsExact(cfg: Config, s: System, calls: nat)
    requires Stands(cfg, s.d) && Apart(cfg, Past(cfg, s.d).campaign) && s.v.recovery.None?
    ensures var h := Past(cfg, s.d);
            var g := ReconstructRecovery(cfg, s, calls);
            && (calls >= 2 ==> g.failure.None?)
            && (g.failure.Some? ==> g.failure.value == CALL_FAILED && g.v == s.v)
            && (g.failure.None? ==>
                  && g.v.active == s.v.active
                  && (h.open.None? ==> g.v.recovery.None?)
                  && (h.open.Some? ==>
                        && (h.open.value.restored || h.open.value.loaded != {} ==>
                              h.lastCommitted.Some? && h.lastCommitted.value in h.saved)
                        && g.v.recovery == Some(DurablePart(h))))
  {
    hide Sound, ScanJournal, Apart, Replay;
    var h := Past(cfg, s.d);
    ReplayIsSound(cfg, s.d.journal);
    ScanFindsAttempt(cfg, s.d.journal);
    if h.open.Some? && calls >= 1 {
      RebuildMatches(cfg, s, h, ScanJournal(s.d.journal), calls - 1);
    }
  }

  lemma NoAcks(cfg: Config, c: Checkpoint, k: Ack)
    ensures AckedSlots(cfg, c, k, []) == Some({})
  {
  }

  lemma RebuildMatches(cfg: Config, s: System, h: History, scan: Scan, calls: nat)
    requires Sound(cfg, h) && Bounded(h) && s.d == Project(h, s.d.journal)
    requires h.open.Some? && ScanMatches(cfg, h, scan)
    ensures var g := Rebuild(cfg, s.d, s.v, scan, calls);
            && (h.open.value.restored || h.open.value.loaded != {} ==>
                  h.lastCommitted.Some? && h.lastCommitted.value in h.saved)
            && (g.failure.Some? ==> calls < 1 && g.failure.value == CALL_FAILED && g.v == s.v)
            && (g.failure.None? ==> g.v == s.v.(recovery := Some(DurablePart(h))))
  {
    hide SoundCampaign, SoundSaved, AckedSlots, CheckpointSlots;
    if h.lastCommitted.Some? {
      var id := h.lastCommitted.value;
      NoAcks(cfg, CheckpointOf(id, h.saved[id]), ApplyAck(h.open.value.entry, 0));
      assert s.d.checkpoints[id] == CheckpointOf(id, h.saved[id]);
    }
  }
}
