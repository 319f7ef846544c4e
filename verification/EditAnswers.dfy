/** What the service answers to a campaign edit, in every state its runs reach. */
module EditAnswers {
  import opened Basics
  import opened CampaignState
  import opened CampaignCoreCodec
  import opened CampaignStore
  import opened CampaignHistory
  import opened RuntimeModel
  import opened RuntimeInvariants
  import opened RecoveryRebuild
  import opened RuntimeSafety
  import opened RuntimeRuns
  import opened OpenAttempt
  import RosterLoss

  lemma OpenHasChoice(cfg: Config, s: System)
    requires Valid(cfg, s) && Past(cfg, s.d).open.Some?
    ensures var h := Past(cfg, s.d);
            h.open.value.restored || h.open.value.loaded != {} ==>
              h.lastCommitted.Some? && h.lastCommitted.value in h.saved
  {
    hide Replay, SlotsApart, SoundCampaign, SoundSaved;
    ReplayIsSound(cfg, s.d.journal);
  }

  /** What a service knows once it has looked for an open attempt: what it knew before,
      or what the journal tells. */
  ghost function Looked(cfg: Config, s: System): Volatile
    requires Valid(cfg, s)
  {
    if s.v.recovery.Some? || Past(cfg, s.d).open.None? then s.v
    else
      OpenHasChoice(cfg, s);
      s.v.(recovery := Some(DurablePart(Past(cfg, s.d))))
  }

  lemma LooksKnown(cfg: Config, s: System, calls: nat)
    requires Valid(cfg, s) && s.v.recovery.Some?
    ensures ReconstructRecovery(cfg, s, calls) == Gate(s.v, None, calls)
    ensures Past(cfg, s.d).open.Some? && Looked(cfg, s) == s.v
  {
    hide Replay, InStep, SlotsApart, ReconstructRecovery;
    ReconstructKnown(cfg, s, calls);
    RecoveringIsSealed(cfg, s);
  }

  lemma LooksIdle(cfg: Config, s: System, calls: nat)
    requires Valid(cfg, s) && Past(cfg, s.d).open.None? && calls >= 1
    ensures ReconstructRecovery(cfg, s, calls) == Gate(s.v, None, calls - 1)
    ensures s.v.recovery.None? && Looked(cfg, s) == s.v
  {
    hide Replay, InStep, SlotsApart, ReconstructRecovery, Consistent;
    ValidIsConsistent(cfg, s);
    RosterLoss.GateWhenIdle(cfg, s, calls);
  }

  lemma LooksAnew(cfg: Config, s: System, calls: nat)
    requires Valid(cfg, s) && s.v.recovery.None? && Past(cfg, s.d).open.Some? && calls >= 2
    ensures var g := ReconstructRecovery(cfg, s, calls);
            g.failure.None? && g.v == Looked(cfg, s) && g.v.recovery.Some?
  {
    hide Replay, Stands, SlotsApart, ReconstructRecovery, Apart, Tracks;
    ValidIsConsistent(cfg, s);
    RebuildIsExact(cfg, s, calls);
  }

  lemma LookingCosts(cfg: Config, s: System, calls: nat)
    ensures ReconstructRecovery(cfg, s, calls).left <= calls <= ReconstructRecovery(cfg, s, calls).left + 2
            || ReconstructRecovery(cfg, s, calls).failure.Some?
  {
    hide ScanJournal, AckedSlots, LoadCheckpoint, LoadLastCommitted;
  }

  /** Two store calls are enough to look, and one if no attempt is open. */
  lemma LooksAlways(cfg: Config, s: System, calls: nat)
    requires Valid(cfg, s) && calls >= 2
    ensures var g := ReconstructRecovery(cfg, s, calls);
            && g.failure.None? && g.v == Looked(cfg, s) && calls - 2 <= g.left <= calls
            && (g.v.recovery.Some? <==> Past(cfg, s.d).open.Some?)
            && (Past(cfg, s.d).open.None? ==> g.left == calls - 1)
            && (s.v.recovery.Some? ==> g.left == calls)
  {
    hide Replay, InStep, SlotsApart, ReconstructRecovery, Looked, LoadAggregate;
    ServiceStands(cfg, s);
    LookingCosts(cfg, s, calls);
    if s.v.recovery.Some? {
      LooksKnown(cfg, s, calls);
    } else if Past(cfg, s.d).open.None? {
      LooksIdle(cfg, s, calls);
    } else {
      LooksAnew(cfg, s, calls);
    }
  }

  lemma ServiceStands(cfg: Config, s: System)
    requires Valid(cfg, s)
    ensures Stands(cfg, s.d) && Replay(cfg, s.d.journal).Some?
    ensures s.d.revision == Past(cfg, s.d).revision
    ensures LoadAggregate(cfg, s.d) == Some(Current(Past(cfg, s.d)))
  {
    hide SlotsApart, Tracks, Replay;
    StandsAtRevision(cfg, s.d);
    LoadIsCurrent(cfg, s.d);
  }

  /*
   * Edits
   */

  /** While a checkpoint is active or a recovery open, an edit is told so. */
  lemma FencedAnswer(cfg: Config, s: System, c: Command, calls: nat)
    requires Valid(cfg, s) && (s.v.active.Some? || (Past(cfg, s.d).open.Some? && calls >= 2))
    ensures var r := EditOp(cfg, s, c, calls);
            && r.s == s.(v := if s.v.active.Some? then s.v else Looked(cfg, s))
            && r.reply == Reply(if s.v.active.Some? then CheckpointInProgress else RecoveryInProgress, Stored, 0,
                                false, false)
  {
    hide ReconstructRecovery, Valid, Looked, Replay;
    if s.v.active.None? {
      LooksAlways(cfg, s, calls);
    }
  }

  /** The gate of an edit with nothing in its way. */
  lemma UnfencedGate(cfg: Config, s: System, calls: nat)
    requires Valid(cfg, s) && s.v.active.None? && Past(cfg, s.d).open.None? && calls >= 2
    ensures s.v == Volatile(None, None)
    ensures CheckMutationFence(cfg, s, calls) == Gate(s.v, None, calls - 1)
  {
    hide ReconstructRecovery, Stands, SlotsApart, Replay, Apart;
    LooksAlways(cfg, s, calls);
  }

  lemma PastFence(cfg: Config, s: System, c: Command, calls: nat)
    requires calls >= 4 && s.v == Volatile(None, None)
             && CheckMutationFence(cfg, s, calls) == Gate(s.v, None, calls - 1)
    requires JournalIndex(s.d.journal, ClientMutation(c.mutation)) == |s.d.journal|
    requires LoadAggregate(cfg, s.d).Some?
    ensures var a := LoadAggregate(cfg, s.d).value;
            EditOp(cfg, s, c, calls) ==
            if a.version != c.expected then EditResult(s, Reply(StaleRevision, Stale, a.version, false, false))
            else PersistOutcome(s, c, Apply(a, c.edit), calls - 4)
  {
    hide CheckMutationFence, LoadAggregate, PersistOutcome, Apply, JournalIndex;
    assert s.(v := s.v) == s;
  }

  /** An edit under a revision that is not the campaign's is told the right one. */
  lemma StaleAnswer(cfg: Config, s: System, c: Command, calls: nat)
    requires Valid(cfg, s) && s.v.active.None? && Past(cfg, s.d).open.None? && calls >= 4
    requires JournalIndex(s.d.journal, ClientMutation(c.mutation)) == |s.d.journal| && c.expected != s.d.revision
    ensures EditOp(cfg, s, c, calls) == EditResult(s, Reply(StaleRevision, Stale, s.d.revision, false, false))
  {
    hide CheckMutationFence, LoadAggregate, PersistOutcome, Apply, Valid, EditOp, JournalIndex, Replay;
    ServiceStands(cfg, s);
    UnfencedGate(cfg, s, calls);
    PastFence(cfg, s, c, calls);
  }

  /** A new edit of the current revision is refused as the domain refuses it, or for its
      name or the lack of revisions; otherwise it is journaled, once, and does exactly
      what the domain says. */
  lemma NewEditAnswer(cfg: Config, s: System, c: Command, calls: nat)
    requires Valid(cfg, s) && s.v.active.None? && Past(cfg, s.d).open.None? && calls >= 5
    requires JournalIndex(s.d.journal, ClientMutation(c.mutation)) == |s.d.journal| && c.expected == s.d.revision
    ensures var r := EditOp(cfg, s, c, calls);
            var h := Past(cfg, s.d);
            var o := Apply(Current(h), c.edit);
            if o.error != NoError then r == EditResult(s, Reply(o.error, Stored, 0, false, false))
            else if !ValidIdentity(c.mutation) || (o.changed && s.d.revision == MAX_REVISION) then
              r == EditResult(s, Reply(PersistenceFailure, InvalidArgument, 0, false, false))
            else
              && r.s.v == s.v && Journals(s.d, r.s.d, ClientMutation(c.mutation), EditCampaign(c.edit))
              && Stands(cfg, r.s.d)
              && if o.changed then
                   && r.reply == Reply(NoError, Stored, s.d.revision + 1, true, false)
                   && Past(cfg, r.s.d) == h.(revision := s.d.revision + 1, campaign := o.campaign)
                 else r.reply == Reply(NoError, Stored, s.d.revision, false, false) && Past(cfg, r.s.d) == h
  {
    hide CheckMutationFence, LoadAggregate, PersistOutcome, Apply, EditOp, JournalIndex, Replay, Stands, SlotsApart,
      Tracks, Journals;
    ServiceStands(cfg, s);
    UnfencedGate(cfg, s, calls);
    PastFence(cfg, s, c, calls);
    OutcomeAnswer(cfg, s, c, calls - 4);
  }

  /** One record more, with this mutation and payload. */
  predicate Journals(d: Durable, next: Durable, m: MutationId, p: Payload) {
    && |next.journal| == |d.journal| + 1 && next.journal[..|d.journal|] == d.journal
    && next.journal[|d.journal|].mutation == m && next.journal[|d.journal|].payload == p
  }

  lemma OutcomeAnswer(cfg: Config, s: System, c: Command, calls: nat)
    requires Stands(cfg, s.d) && Past(cfg, s.d).open.None? && calls >= 1
    requires JournalIndex(s.d.journal, ClientMutation(c.mutation)) == |s.d.journal| && c.expected == s.d.revision
    ensures var h := Past(cfg, s.d);
            var o := Apply(Current(h), c.edit);
            var r := PersistOutcome(s, c, o, calls);
            if o.error != NoError then r == EditResult(s, Reply(o.error, Stored, 0, false, false))
            else if !ValidIdentity(c.mutation) || (o.changed && s.d.revision == MAX_REVISION) then
              r == EditResult(s, Reply(PersistenceFailure, InvalidArgument, 0, false, false))
            else
              && r.s.v == s.v && Journals(s.d, r.s.d, ClientMutation(c.mutation), EditCampaign(c.edit))
              && Stands(cfg, r.s.d)
              && if o.changed then
                   && r.reply == Reply(NoError, Stored, s.d.revision + 1, true, false)
                   && Past(cfg, r.s.d) == h.(revision := s.d.revision + 1, campaign := o.campaign)
                 else r.reply == Reply(NoError, Stored, s.d.revision, false, false) && Past(cfg, r.s.d) == h
  {
    hide Apply, PersistNoOp, PersistEdit, Replay, Stands, JournalIndex, ValidIdentity, Journals, EncodeCore,
      EncodeIntent;
    StandsAtRevision(cfg, s.d);
    var o := Apply(Current(Past(cfg, s.d)), c.edit);
    SuccessfulEditsChange(Current(Past(cfg, s.d)), c.edit);
    if o.error == NoError {
      if o.changed {
        EditIsAccepted(cfg, s.d, c);
        ChangeIsWritten(cfg, s.d, c);
      } else {
        NoOpIsAccepted(cfg, s.d, c);
        NoOpIsWritten(s.d, c);
      }
    }
  }

  lemma NoOpIsWritten(d: Durable, c: Command)
    requires JournalIndex(d.journal, ClientMutation(c.mutation)) == |d.journal| && c.expected == d.revision
    ensures var w := PersistNoOp(d, c);
            if ValidIdentity(c.mutation)
            then && FromWritten(w) == Reply(NoError, Stored, d.revision, false, false)
                 && Journals(d, w.d, ClientMutation(c.mutation), EditCampaign(c.edit))
            else w.d == d && FromWritten(w) == Reply(PersistenceFailure, InvalidArgument, 0, false, false)
  {
    hide JournalIndex, ValidIdentity;
  }

  lemma ChangeIsWritten(cfg: Config, d: Durable, c: Command)
    requires Stands(cfg, d) && Past(cfg, d).open.None? && c.expected == d.revision
    requires JournalIndex(d.journal, ClientMutation(c.mutation)) == |d.journal|
    requires var o := Apply(Current(Past(cfg, d)), c.edit); o.error == NoError && o.changed
    ensures var w := PersistEdit(d, c, Apply(Current(Past(cfg, d)), c.edit).campaign);
            if ValidIdentity(c.mutation) && d.revision < MAX_REVISION
            then && FromWritten(w) == Reply(NoError, Stored, d.revision + 1, true, false)
                 && Journals(d, w.d, ClientMutation(c.mutation), EditCampaign(c.edit))
            else w.d == d && FromWritten(w) == Reply(PersistenceFailure, InvalidArgument, 0, false, false)
  {
    hide Apply, PersistEdit, Replay, JournalIndex, ValidIdentity, Inv, CoreBytes, ImageOf, IntentBytes, BySlot,
      SoundSaved, SoundAttempt, Stands, RosterEdit, EncodeCore, EncodeIntent, DecodeCore, ValidAggregate;
    StandsAtRevision(cfg, d);
    var h := Past(cfg, d);
    var a := Apply(Current(h), c.edit).campaign;
    ReplayIsSound(cfg, d.journal);
    EditedProjection(cfg, h, c.edit);
    SealedHere(cfg, d);
    EncodesAtLeast(cfg, h, a);
    EditIsWritten(d, c, a);
  }

  lemma SealedHere(cfg: Config, d: Durable)
    requires Stands(cfg, d)
    ensures d.sealed == Past(cfg, d).campaign.sealed && ValidIdentity(cfg.campaign)
  {
    hide Replay;
  }

  lemma EncodesAtLeast(cfg: Config, h: History, a: Aggregate)
    requires Sound(cfg, h) && Inv(a) && a.id == cfg.campaign && a.version == h.revision + 1
    requires ValidIdentity(cfg.campaign)
    ensures EncodeCore(a).Some? && EncodeIntent(a).Some?
  {
    hide CoreBytes, ImageOf, IntentBytes, Inv, SoundSaved, SoundAttempt;
    InvEncodes(cfg, a);
  }

  lemma InvEncodes(cfg: Config, a: Aggregate)
    requires Inv(a) && a.id == cfg.campaign && 1 <= a.version && ValidIdentity(cfg.campaign)
    ensures EncodeCore(a).Some? && EncodeIntent(a).Some?
  {
    hide CoreBytes, ImageOf, IntentBytes;
    RosterFaultIff(a.roster, !a.sealed);
  }

  lemma EditIsWritten(d: Durable, c: Command, a: Aggregate)
    requires JournalIndex(d.journal, ClientMutation(c.mutation)) == |d.journal| && c.expected == d.revision
    requires EncodeCore(a).Some? && EncodeIntent(a).Some?
    requires RosterEdit(c.edit) ==> !d.sealed
    requires c.edit.Start? ==> Records(a.roster) != []
    ensures var w := PersistEdit(d, c, a);
            if ValidIdentity(c.mutation) && d.revision < MAX_REVISION
            then && FromWritten(w) == Reply(NoError, Stored, d.revision + 1, true, false)
                 && Journals(d, w.d, ClientMutation(c.mutation), EditCampaign(c.edit))
            else w.d == d && FromWritten(w) == Reply(PersistenceFailure, InvalidArgument, 0, false, false)
  {
    hide EncodeCore, EncodeIntent, BySlot, JournalIndex, ValidIdentity;
  }
}
