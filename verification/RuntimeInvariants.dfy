/** What every run of the service keeps. */
module RuntimeInvariants {
  import opened Basics
  import opened CampaignState
  import opened CampaignCoreCodec
  import opened CampaignStore
  import opened CampaignHistory
  import opened RuntimeModel

  /*
   * Loading
   */

  /** The version inside the stored core state is the revision of the last record
      that produced one. */
  lemma {:induction false} CoreRevisionIsCampaignVersion(cfg: Config, journal: seq<Record>)
    requires Replay(cfg, journal).Some?
    ensures CoreMutation(journal) >= 0
    ensures journal[CoreMutation(journal)].resulting == Replay(cfg, journal).value.campaign.version
  {
    var n := |journal| - 1;
    if n == 0 {
      assert CoreMutation(journal) == 0;
    } else {
      CoreRevisionIsCampaignVersion(cfg, journal[..n]);
      NextMovesVersion(cfg, Replay(cfg, journal[..n]).value, journal[n]);
      if !ProducesCore(journal[n]) {
        assert CoreMutation(journal) == CoreMutation(journal[..n]);
      }
    }
  }

  lemma NextMovesVersion(cfg: Config, h: History, r: Record)
    requires Next(cfg, h, r).Some?
    ensures Next(cfg, h, r).value.campaign.version == if ProducesCore(r) then r.resulting else h.campaign.version
  {
    if r.payload.EditCampaign? {
      VersionCountsChanges(Current(h), r.payload.edit);
    }
  }

  lemma SoundEncodes(cfg: Config, a: Aggregate)
    requires SoundCampaign(cfg, a) && ValidIdentity(cfg.campaign)
    ensures ValidAggregate(a) && EncodeCore(a) == Some(CoreBytes(ImageOf(a))) && EncodeIntent(a) == Some(IntentBytes(a))
    ensures DecodeCore(cfg.campaign, a.sealed, Records(a.roster), a.version, CoreBytes(ImageOf(a))) == Some(a)
    ensures a.sealed ==> a.roster != []
  {
    RosterFaultIff(a.roster, !a.sealed);
    DecodeEncodedAscending(a);
  }

  lemma SoundIsBounded(cfg: Config, h: History)
    requires Sound(cfg, h)
    ensures Bounded(h)
  {
    forall c | c in h.saved ensures h.saved[c].campaign.version <= MAX_REVISION {
      assert SoundSaved(cfg, h, c, h.saved[c]);
    }
  }

  /** The campaign identity is well formed, as the store demands. */
  ghost predicate Stands(cfg: Config, d: Durable) {
    && ValidIdentity(cfg.campaign)
    && Replay(cfg, d.journal).Some?
    && Bounded(Replay(cfg, d.journal).value)
    && d == Project(Replay(cfg, d.journal).value, d.journal)
  }

  function Past(cfg: Config, d: Durable): History
    requires Replay(cfg, d.journal).Some?
  {
    Replay(cfg, d.journal).value
  }

  lemma CampaignDecodes(cfg: Config, h: History)
    requires Sound(cfg, h) && ValidIdentity(cfg.campaign)
    ensures DecodeAt(cfg, Records(h.campaign.roster), h.campaign.sealed, CoreBytes(ImageOf(h.campaign)),
                     h.campaign.version) ==
            Some(h.campaign)
  {
    hide CoreBytes, ImageOf, Records, DecodeCore, Inv, EncodeCore;
    SoundEncodes(cfg, h.campaign);
  }

  /** The stored core state always decodes at the revision of the last record
      that produced one, so the lineage of older restores is never consulted,
      and the result is the replayed campaign at the current revision. */
  lemma LoadAlwaysSucceeds(cfg: Config, d: Durable)
    requires Stands(cfg, d)
    ensures CoreMutation(d.journal) >= 0
    ensures DecodeAt(cfg, d.slots, d.sealed, d.core, d.journal[CoreMutation(d.journal)].resulting).Some?
    ensures LoadAggregate(cfg, d) == Some(Current(Past(cfg, d)))
  {
    hide Replay, CoreBytes, ImageOf, Records, DecodeAt, DecodeAncestor, CoreMutation, Sound;
    ReplayIsSound(cfg, d.journal);
    CoreRevisionIsCampaignVersion(cfg, d.journal);
    CampaignDecodes(cfg, Past(cfg, d));
  }

  lemma LoadIsCurrent(cfg: Config, d: Durable)
    requires Stands(cfg, d)
    ensures LoadAggregate(cfg, d) == Some(Current(Past(cfg, d)))
  {
    LoadAlwaysSucceeds(cfg, d);
  }

  /*
   * Mutation identities in the journal
   */

  /** A mutation identity in the journal has had its effect. */
  predicate Accounted(cfg: Config, h: History, r: Record) {
    match r.mutation
    case ClientMutation(_) => true
    case CreateCandidateOf(c) => c in h.saved && r.expected < h.revision
    case AcknowledgeOf(c, s) =>
      && c in h.saved && s in h.saved[c].artifacts
      && r.payload == SaveSlot(c, s) && r.content.SlotSave? && r.content.slot.slot == s
      && r.content.slot.artifact == Some(h.saved[c].artifacts[s])
      && r.content.slot in CheckpointSlots(h.saved[c])
    case CommitOf(c) => c in h.saved && h.saved[c].committedAt.Some?
    case BeginAt(n) => n < h.revision
    case LoadedBy(hash, n) =>
      && n <= h.revision
      && (h.open.Some? && h.open.value.entry == n ==> exists s :: s in h.open.value.loaded && cfg.slotHash(s) == hash)
    case RestoreOf(n) =>
      && n <= h.revision
      && (h.open.Some? && h.open.value.entry == n ==>
            && h.open.value.restored && h.lastCommitted.Some? && h.lastCommitted.value in h.saved
            && r.payload == RestoreCheckpoint(n, h.lastCommitted.value) && r.resulting == n + 1
            && r.restoredFrom ==
                 Some(RestoredFrom(h.lastCommitted.value, h.saved[h.lastCommitted.value].campaign.version)))
    case AppliedBy(hash, n) =>
      && n <= h.revision
      && (h.open.Some? && h.open.value.entry == n ==> exists s :: s in h.open.value.applied && cfg.slotHash(s) == hash)
    case CompleteOf(n) => n <= h.revision && (h.open.Some? ==> h.open.value.entry != n)
  }

  lemma SavedStaysAccounted(cfg: Config, h: History, r: Record, c: Id)
    requires Next(cfg, h, r).Some? && c in h.saved
    ensures var next := Next(cfg, h, r).value;
            && c in next.saved && next.saved[c].campaign == h.saved[c].campaign
            && (forall s :: s in h.saved[c].artifacts ==>
                  s in next.saved[c].artifacts && next.saved[c].artifacts[s] == h.saved[c].artifacts[s])
            && (h.saved[c].committedAt.Some? ==> next.saved[c] == h.saved[c])
            && h.revision <= next.revision
  {
    hide CoreBytes, IntentBytes, Apply;
  }

  lemma StaysAccounted(cfg: Config, h: History, r: Record, old': Record)
    requires Sound(cfg, h) && Next(cfg, h, r).Some? && Accounted(cfg, h, old')
    ensures Accounted(cfg, Next(cfg, h, r).value, old')
  {
    hide CoreBytes, IntentBytes, Apply, Next, Accounted;
    match old'.mutation
    case ClientMutation(_) => HistoryGrows(cfg, h, r, old');
    case CreateCandidateOf(c) => HistoryGrows(cfg, h, r, old');
    case CommitOf(c) => HistoryGrows(cfg, h, r, old');
    case AcknowledgeOf(c, s) => AcknowledgementStays(cfg, h, r, old');
    case _ => AttemptStaysAccounted(cfg, h, r, old');
  }

  lemma HistoryGrows(cfg: Config, h: History, r: Record, old': Record)
    requires Next(cfg, h, r).Some? && Accounted(cfg, h, old')
    requires old'.mutation.ClientMutation? || old'.mutation.CreateCandidateOf? || old'.mutation.CommitOf?
    ensures Accounted(cfg, Next(cfg, h, r).value, old')
  {
    hide Next;
    if !old'.mutation.ClientMutation? {
      SavedStaysAccounted(cfg, h, r, old'.mutation.checkpoint);
    }
  }

  lemma AcknowledgementStays(cfg: Config, h: History, r: Record, old': Record)
    requires Next(cfg, h, r).Some? && Accounted(cfg, h, old') && old'.mutation.AcknowledgeOf?
    ensures Accounted(cfg, Next(cfg, h, r).value, old')
  {
    hide Next;
    var c := old'.mutation.checkpoint;
    SavedStaysAccounted(cfg, h, r, c);
    var next := Next(cfg, h, r).value;
    var i :| 0 <= i < |CheckpointSlots(h.saved[c])| && CheckpointSlots(h.saved[c])[i] == old'.content.slot;
    assert CheckpointSlots(next.saved[c])[i] == old'.content.slot;
  }

  /** An open attempt only moves forward, and a new one is younger than all before. */
  lemma AttemptMoves(cfg: Config, h: History, r: Record)
    requires Sound(cfg, h) && Next(cfg, h, r).Some?
    ensures var next := Next(cfg, h, r).value;
            && h.revision <= next.revision
            && (next.open.Some? && h.open.None? ==>
                  next.open.value == Attempt(h.revision + 1, false, {}, {}) && next.revision == h.revision + 1)
            && (next.open.Some? && h.open.Some? ==>
                  && next.open.value.entry == h.open.value.entry
                  && h.open.value.loaded <= next.open.value.loaded && h.open.value.applied <= next.open.value.applied
                  && (h.open.value.restored ==> next.open.value.restored))
            && (h.open.Some? ==> next.saved == h.saved && next.lastCommitted == h.lastCommitted)
  {
    hide CoreBytes, IntentBytes, Apply, SoundCampaign, SoundSaved;
  }

  lemma AttemptStaysAccounted(cfg: Config, h: History, r: Record, old': Record)
    requires Sound(cfg, h) && Next(cfg, h, r).Some? && Accounted(cfg, h, old')
    requires old'.mutation.BeginAt? || old'.mutation.LoadedBy? || old'.mutation.RestoreOf?
          || old'.mutation.AppliedBy? || old'.mutation.CompleteOf?
    ensures Accounted(cfg, Next(cfg, h, r).value, old')
  {
    hide Next, Sound;
    AttemptMoves(cfg, h, r);
  }

  lemma NewCheckpointIsAccounted(cfg: Config, h: History, r: Record)
    requires Next(cfg, h, r).Some?
    requires r.payload.EditCampaign? || r.payload.CreateCandidate? || r.payload.SaveSlot? || r.payload.CommitCheckpoint?
    ensures Accounted(cfg, Next(cfg, h, r).value, r)
  {
    hide CoreBytes, IntentBytes, Apply;
    if r.payload.SaveSlot? {
      var saved, s := Next(cfg, h, r).value.saved[r.payload.checkpoint], r.content.slot;
      var i :| 0 <= i < |saved.campaign.roster| && Records(saved.campaign.roster)[i] == s.Record();
      assert CheckpointSlots(saved)[i] == s;
    }
  }

  lemma NewIsAccounted(cfg: Config, h: History, r: Record)
    requires Sound(cfg, h) && Next(cfg, h, r).Some?
    ensures Accounted(cfg, Next(cfg, h, r).value, r)
  {
    hide CoreBytes, IntentBytes, Apply, SoundCampaign, SoundSaved;
    if r.payload.EditCampaign? || r.payload.CreateCandidate? || r.payload.SaveSlot? || r.payload.CommitCheckpoint? {
      NewCheckpointIsAccounted(cfg, h, r);
    } else if r.payload.RecoveryLoaded? {
      assert r.payload.proof.slot in Next(cfg, h, r).value.open.value.loaded;
    } else if r.payload.SnapshotApplied? {
      assert r.payload.member.slot in Next(cfg, h, r).value.open.value.applied;
    }
  }

  lemma {:induction false} JournalIsAccounted(cfg: Config, journal: seq<Record>)
    requires Replay(cfg, journal).Some?
    ensures forall r :: r in journal ==> Accounted(cfg, Replay(cfg, journal).value, r)
  {
    hide Next, Accounted, Sound, Created;
    var n := |journal| - 1;
    if n == 0 {
      FirstIsAccounted(cfg, journal[0]);
    } else {
      var front := journal[..n];
      var h := Replay(cfg, front).value;
      ReplayIsSound(cfg, front);
      JournalIsAccounted(cfg, front);
      forall r | r in journal ensures Accounted(cfg, Replay(cfg, journal).value, r) {
        if r in front {
          StaysAccounted(cfg, h, journal[n], r);
        } else {
          NewIsAccounted(cfg, h, journal[n]);
        }
      }
    }
  }

  lemma FirstIsAccounted(cfg: Config, r: Record)
    requires Created(cfg, r).Some?
    ensures Accounted(cfg, Created(cfg, r).value, r)
  {
  }
}
