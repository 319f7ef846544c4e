/** What the service answers about a recovery, in every state its runs reach, and what it
    sends. */
module RecoveryAnswers {
  import opened Basics
  import opened CampaignState
  import opened FullRoster
  import opened CampaignStore
  import opened CampaignHistory
  import opened RuntimeModel
  import opened OperationShapes
  import opened RuntimeInvariants
  import opened RecoveryRebuild
  import opened RuntimeSafety
  import opened RecoverySafety
  import opened RuntimeRuns
  import opened OpenAttempt
  import opened RecoveryProgress
  import opened EditAnswers
  import opened CheckpointAnswers
  import RosterLoss

  /** A refusal that sends nothing and ends nothing. */
  function Turned(s: System, error: CampaignError, version: nat): RecoveryResult {
    RecoveryResult(s, Reply(error, Stored, version, false, false), NoDispatch, false, false)
  }

  /** A store call failed: nothing is sent. */
  function CutShort(s: System): RecoveryResult {
    RecoveryResult(s, Reply(PersistenceFailure, Unavailable, 0, false, false), NoDispatch, false, false)
  }

  /** The store refused a write. */
  function Unwritten(s: System): RecoveryResult {
    RecoveryResult(s, Reply(PersistenceFailure, InvalidArgument, 0, false, false), NoDispatch, false, false)
  }

  /*
   * Roster losses and requested loads
   */

  function CauseOf(loadRequested: bool): Reason {
    if loadRequested then CampaignLoadRequested else RosterLoss
  }

  lemma ListedIff(a: Aggregate, r: SlotRecord)
    ensures MemberIndex(a.roster, r) <= |a.roster|
    ensures MemberIndex(a.roster, r) < |a.roster| <==> r in Records(a.roster)
  {
    var i := MemberIndex(a.roster, r);
    if i < |a.roster| {
      assert Records(a.roster)[i] == r;
    }
    if r in Records(a.roster) {
      var j :| 0 <= j < |a.roster| && Records(a.roster)[j] == r;
      assert a.roster[j].Record() == r;
    }
  }

  lemma StoredRoster(cfg: Config, d: Durable)
    requires Stands(cfg, d)
    ensures Records(Current(Past(cfg, d)).roster) == d.slots
  {
    hide Replay;
  }

  /** The report is about the campaign, running and sealed, and about a member of it; a
      loss leaves the roster incomplete and a requested load finds it complete. */
  ghost predicate Opens(cfg: Config, d: Durable, c: LossReport) {
    && c.member.campaign == cfg.campaign && c.running && d.sealed && c.member.Record() in d.slots
    && (c.loadRequested <==> FullPresence(cfg, d.slots, c.presence))
  }

  lemma StartsIff(cfg: Config, s: System, c: LossReport, calls: nat)
    requires Valid(cfg, s) && c.member.campaign == cfg.campaign && calls >= 2
    ensures var r := StartRecovery(cfg, s, c, calls);
            if Opens(cfg, s.d, c) then r == OpenRecovery(s, c, Current(Past(cfg, s.d)), calls - 2)
            else
              r == Turned(s, if !c.running then RecoveryNotActive else if !s.d.sealed then RosterNotSealed
                             else if c.member.Record() !in s.d.slots then NotCampaignMember
                             else if c.loadRequested then RosterIncomplete else InvalidRoster, 0)
  {
    hide LoadAggregate, EvaluateFullRoster, MemberIndex, OpenRecovery, Replay, Stands, Tracks, SlotsApart, FullPresence,
      Records;
    ServiceStands(cfg, s);
    GatheredIff(cfg, s, c.presence);
    StoredRoster(cfg, s.d);
    ListedIff(Current(Past(cfg, s.d)), c.member.Record());
  }

  lemma BeginGate(cfg: Config, s: System, c: LossReport, calls: nat)
    requires calls >= 1 && c.member.campaign == cfg.campaign && s.v.recovery.None?
    requires ReconstructRecovery(cfg, s, calls) == Gate(s.v, None, calls - 1)
    ensures BeginRecoveryOp(cfg, s, c, calls) == StartRecovery(cfg, s, c, calls - 1)
  {
    hide ReconstructRecovery, StartRecovery;
    assert s.(v := s.v) == s;
  }

  /** With no attempt open, a loss or a requested load gives up the active checkpoint and
      opens an attempt exactly as `Opens` says, if the store answers and has a revision
      left; the checkpoint is given up even if not. Otherwise nothing changes. */
  lemma BeginAnswer(cfg: Config, s: System, c: LossReport, calls: nat)
    requires Valid(cfg, s) && Past(cfg, s.d).open.None? && calls >= 3
    ensures var r := BeginRecoveryOp(cfg, s, c, calls);
            var h := Past(cfg, s.d);
            var given := s.(v := Volatile(None, None));
            if !Opens(cfg, s.d, c) then
              r == Turned(s, if c.member.campaign != cfg.campaign then RecoveryMismatch
                             else if !c.running then RecoveryNotActive
                             else if !s.d.sealed then RosterNotSealed
                             else if c.member.Record() !in s.d.slots then NotCampaignMember
                             else if c.loadRequested then RosterIncomplete else InvalidRoster, 0)
            else if calls < 4 then r == CutShort(given)
            else if s.d.revision == MAX_REVISION then r == Unwritten(given)
            else
              && r == RecoveryResult(r.s, Reply(NoError, Stored, s.d.revision + 1, true, false), NoDispatch, false,
                                     false)
              && r.s.v == Volatile(None, Some(RecoveryActivity(s.d.revision + 1, RecoveryLock, CauseOf(c.loadRequested),
                                                               None, 0, None, {}, {}, {}, {})))
              && Journals(s.d, r.s.d, BeginAt(s.d.revision), BeginRecovery(c.member.Record(), c.loadRequested))
              && Stands(cfg, r.s.d)
              && Past(cfg, r.s.d) == h.(revision := s.d.revision + 1,
                                        open := Some(Attempt(s.d.revision + 1, false, {}, {})))
  {
    hide ReconstructRecovery, StartRecovery, Replay, Stands, SlotsApart, FullPresence, BeginRecoveryOp, OpenRecovery,
      LoadAggregate, Tracks, Journals;
    if c.member.campaign != cfg.campaign {
      Mismatched(cfg, s, c, calls);
    } else {
      LooksIdle(cfg, s, calls);
      BeginGate(cfg, s, c, calls);
      StartsIff(cfg, s, c, calls - 1);
      if Opens(cfg, s.d, c) {
        ServiceStands(cfg, s);
        OpeningWrites(cfg, s, c, calls - 3);
      }
    }
  }

  lemma Mismatched(cfg: Config, s: System, c: LossReport, calls: nat)
    requires c.member.campaign != cfg.campaign
    ensures BeginRecoveryOp(cfg, s, c, calls) == Turned(s, RecoveryMismatch, 0)
  {
  }

  lemma OpeningWrites(cfg: Config, s: System, c: LossReport, calls: nat)
    requires Stands(cfg, s.d) && Past(cfg, s.d).open.None? && Opens(cfg, s.d, c) && s.v.recovery.None?
    ensures var r := OpenRecovery(s, c, Current(Past(cfg, s.d)), calls);
            var given := s.(v := Volatile(None, None));
            if calls < 1 then r == CutShort(given)
            else if s.d.revision == MAX_REVISION then r == Unwritten(given)
            else
              && r == RecoveryResult(r.s, Reply(NoError, Stored, s.d.revision + 1, true, false), NoDispatch, false,
                                     false)
              && r.s.v == Volatile(None, Some(RecoveryActivity(s.d.revision + 1, RecoveryLock, CauseOf(c.loadRequested),
                                                               None, 0, None, {}, {}, {}, {})))
              && Journals(s.d, r.s.d, BeginAt(s.d.revision), BeginRecovery(c.member.Record(), c.loadRequested))
              && Stands(cfg, r.s.d)
              && Past(cfg, r.s.d) == Past(cfg, s.d).(revision := s.d.revision + 1,
                                                     open := Some(Attempt(s.d.revision + 1, false, {}, {})))
  {
    hide Replay, Stands, FullPresence, ApplyMutation, JournalIndex;
    StandsAtRevision(cfg, s.d);
    SealedHere(cfg, s.d);
    StoredRoster(cfg, s.d);
    JournalIsAccounted(cfg, s.d.journal);
    FreshMutation(s.d, BeginAt(s.d.revision));
    BeginStands(cfg, s.d, c);
    RevisionWritten(s.d, BeginRequest(s.d.revision, c));
  }

  lemma RevisionWritten(d: Durable, q: Request)
    requires q.content.RevisionOnly? && q.expected == d.revision && JournalIndex(d.journal, q.mutation) == |d.journal|
    requires Storable(q.mutation)
    ensures var w := ApplyMutation(d, q);
            if d.revision == MAX_REVISION then w == Failed(d, InvalidArgument)
            else w.error == Stored && w.revision == d.revision + 1 && w.applied && !w.replay
                 && Journals(d, w.d, q.mutation, q.payload)
  {
    hide JournalIndex, Storable;
  }

  /** While an attempt is open, known or not, a loss or a requested load takes it back to
      its lock: both barriers are empty, and nothing is journaled. */
  lemma RelockAnswer(cfg: Config, s: System, c: LossReport, calls: nat)
    requires Valid(cfg, s) && Past(cfg, s.d).open.Some? && calls >= 3
    ensures var r := BeginRecoveryOp(cfg, s, c, calls);
            if c.member.campaign != cfg.campaign then r == Turned(s, RecoveryMismatch, 0)
            else
              && Looked(cfg, s).recovery.Some?
              && r == RecoveryResult(
                   System(s.d, Volatile(None, Some(Looked(cfg, s).recovery.value.(
                     stage := RecoveryLock, reason := CauseOf(c.loadRequested), loaded := {}, applied := {})))),
                   Reply(NoError, Stored, s.d.revision, false, true), NoDispatch, false, false)
  {
    hide ReconstructRecovery, Valid, Replay, Looked, StartRecovery, TracksRecovery;
    if c.member.campaign == cfg.campaign {
      LooksAlways(cfg, s, calls);
      LookedTracks(cfg, s);
      RelockEmpties(Past(cfg, s.d), Looked(cfg, s).recovery.value, c.loadRequested);
    }
  }

  lemma RelockEmpties(h: History, a: RecoveryActivity, loadRequested: bool)
    requires TracksRecovery(h, a)
    ensures Relocked(a, loadRequested) ==
            a.(stage := RecoveryLock, reason := CauseOf(loadRequested), loaded := {}, applied := {})
  {
  }

  /** What a service knows of an open attempt is what the journal has. */
  lemma LookedTracks(cfg: Config, s: System)
    requires Valid(cfg, s) && Past(cfg, s.d).open.Some?
    ensures Looked(cfg, s).recovery.Some? && Looked(cfg, s) == Volatile(None, Looked(cfg, s).recovery)
    ensures TracksRecovery(Past(cfg, s.d), Looked(cfg, s).recovery.value)
    ensures Consistent(cfg, s.(v := Looked(cfg, s))) && s.d.sealed
  {
    hide ReconstructRecovery, Replay, Stands, SlotsApart, Apart, Looked, TracksRecovery, LoadAggregate;
    ServiceStands(cfg, s);
    LooksAlways(cfg, s, 2);
    ValidIsConsistent(cfg, s);
    ReconstructKeeps(cfg, s, 2);
    RecoveringIsSealed(cfg, s);
    RecoveringIsAlone(Past(cfg, s.d), Looked(cfg, s));
  }

  /*
   * Preparing
   */

  /** The service with this of the attempt. */
  function With(s: System, a: RecoveryActivity): System { System(s.d, Volatile(None, Some(a))) }

  lemma PrepareGate(cfg: Config, s: System, presence: seq<Presence>, calls: nat)
    requires var g := ReconstructRecovery(cfg, s, calls);
             && g.failure.None? && g.left >= 3 && g.v == Volatile(None, g.v.recovery)
             && (g.v.recovery.Some? && g.v.recovery.value.stage == ApplyingSnapshot ==>
                   var a := g.v.recovery.value;
                   a.checkpoint.Some? && a.restore.Some? && a.checkpoint.value in s.d.checkpoints)
    requires LoadAggregate(cfg, s.d).Some?
    ensures var g := ReconstructRecovery(cfg, s, calls);
            var now := LoadAggregate(cfg, s.d).value;
            PrepareRecoveryOp(cfg, s, presence, calls) ==
            if g.v.recovery.None? then Turned(s.(v := g.v), RecoveryNotActive, 0)
            else
              var a := g.v.recovery.value;
              if EvaluateFullRoster(now, presence) != Eligible then
                Turned(With(s, a.(reason := RosterLoss)), RosterIncomplete, now.version)
              else if a.stage == ApplyingSnapshot then
                RecoveryResult(With(s, a.(reason := NoReason)), Reply(NoError, Stored, now.version, false, false),
                               RestoredSnapshot, false, false)
              else if Wanted(s, a).None? then
                Turned(With(s, a.(reason := NoCheckpoint)), NoCommittedCheckpoint, now.version)
              else if !Recoverable(cfg, Wanted(s, a).value, |now.roster|) then RecoveryReply(With(s, a), INTEGRITY)
              else
                RecoveryResult(With(s, StartLoading(a, Wanted(s, a).value)),
                               Reply(NoError, Stored, now.version, false, false), NativeLoad, false, false)
  {
    hide ReconstructRecovery, LoadAggregate, EvaluateFullRoster, StartLoading, LoadCheckpoint, LoadLastCommitted,
      Recoverable;
  }

  /** An attempt that starts to load the committed checkpoint. */
  function LoadingOf(a: RecoveryActivity, id: Id, source: nat): RecoveryActivity {
    a.(stage := LoadingNativeSaves, reason := NoReason, checkpoint := Some(id), source := source)
  }

  lemma WantedStarts(cfg: Config, s: System, a: RecoveryActivity)
    requires Stands(cfg, s.d) && TracksRecovery(Past(cfg, s.d), a) && a.stage != ApplyingSnapshot
    ensures var h := Past(cfg, s.d);
            if h.lastCommitted.None? then Wanted(s, a).None?
            else
              && h.lastCommitted.value in h.saved && Wanted(s, a).Some?
              && Recoverable(cfg, Wanted(s, a).value, |Current(h).roster|)
              && StartLoading(a, Wanted(s, a).value) ==
                 LoadingOf(a, h.lastCommitted.value, h.saved[h.lastCommitted.value].campaign.version)
  {
    hide Replay, Stands, ExactArtifact;
    StandsAtRevision(cfg, s.d);
    var h := Past(cfg, s.d);
    if h.lastCommitted.Some? {
      WantedIsCommitted(cfg, s, a);
      StoredRosterSize(cfg, s.d);
      SourceOfCommitted(cfg, s.d);
    } else {
      NothingCommitted(cfg, s.d);
    }
  }

  lemma NothingCommitted(cfg: Config, d: Durable)
    requires Stands(cfg, d)
    ensures d.lastCommitted == Past(cfg, d).lastCommitted
  {
    hide Replay;
  }

  lemma SourceOfCommitted(cfg: Config, d: Durable)
    requires Stands(cfg, d) && Past(cfg, d).lastCommitted.Some?
    ensures var id := Past(cfg, d).lastCommitted.value;
            id in Past(cfg, d).saved && id in d.checkpoints
            && d.checkpoints[id].source == Past(cfg, d).saved[id].campaign.version && d.checkpoints[id].id == id
  {
    hide Replay, CheckpointSlots, SoundCampaign, SoundSaved;
    ReplayIsSound(cfg, d.journal);
  }

  lemma ApplyingHasRestore(cfg: Config, d: Durable, a: RecoveryActivity)
    requires Stands(cfg, d) && TracksRecovery(Past(cfg, d), a) && a.stage == ApplyingSnapshot
    ensures a.checkpoint.Some? && a.restore == Some(a.attempt + 1) && a.checkpoint.value in d.checkpoints
    ensures a.attempt + 1 == d.revision && Past(cfg, d).lastCommitted == a.checkpoint
    ensures a.durableLoaded == SlotIds(Past(cfg, d).campaign)
  {
    hide Replay, CheckpointSlots, SoundCampaign, SoundSaved, SlotIds;
    ReplayIsSound(cfg, d.journal);
  }

  /** A preparation waits for everybody; it then sends the restored snapshot again, or
      has everybody load the committed checkpoint, if there is one. */
  lemma PrepareAnswer(cfg: Config, s: System, presence: seq<Presence>, calls: nat)
    requires Valid(cfg, s) && calls >= 5
    ensures var r := PrepareRecoveryOp(cfg, s, presence, calls);
            var h := Past(cfg, s.d);
            if h.open.None? then r == Turned(s, RecoveryNotActive, 0)
            else
              && Looked(cfg, s).recovery.Some?
              && var a := Looked(cfg, s).recovery.value;
                 if !FullPresence(cfg, s.d.slots, presence) then
                   r == Turned(With(s, a.(reason := RosterLoss)), RosterIncomplete, s.d.revision)
                 else if a.stage == ApplyingSnapshot then
                   r == RecoveryResult(With(s, a.(reason := NoReason)),
                                       Reply(NoError, Stored, s.d.revision, false, false), RestoredSnapshot, false,
                                         false)
                 else if h.lastCommitted.None? then
                   r == Turned(With(s, a.(reason := NoCheckpoint)), NoCommittedCheckpoint, s.d.revision)
                 else
                   && h.lastCommitted.value in h.saved
                   && r == RecoveryResult(With(s, LoadingOf(a, h.lastCommitted.value,
                                                            h.saved[h.lastCommitted.value].campaign.version)),
                                          Reply(NoError, Stored, s.d.revision, false, false), NativeLoad, false, false)
  {
    hide ReconstructRecovery, Replay, InStep, SlotsApart, Looked, LoadAggregate, EvaluateFullRoster, FullPresence,
      PrepareRecoveryOp, StartLoading, Recoverable, TracksRecovery, Wanted;
    ServiceStands(cfg, s);
    LooksAlways(cfg, s, calls);
    GatheredIff(cfg, s, presence);
    if Past(cfg, s.d).open.Some? {
      LookedTracks(cfg, s);
      var a := Looked(cfg, s).recovery.value;
      if a.stage == ApplyingSnapshot {
        ApplyingHasRestore(cfg, s.d, a);
      } else {
        WantedStarts(cfg, With(s, a), a);
        WantedAlike(s, With(s, a), a);
      }
    } else {
      LooksIdle(cfg, s, calls);
      NoRecoveryNorCheckpoint(cfg, s, calls);
    }
    if Past(cfg, s.d).open.Some? {
      PrepareGate(cfg, s, presence, calls);
    }
  }

  lemma WantedAlike(s: System, t: System, a: RecoveryActivity)
    requires s.d == t.d
    ensures Wanted(s, a) == Wanted(t, a)
  {
  }

  lemma NoRecoveryNorCheckpoint(cfg: Config, s: System, calls: nat)
    requires calls >= 1 && ReconstructRecovery(cfg, s, calls) == Gate(s.v, None, calls - 1) && s.v.recovery.None?
    ensures forall presence :: PrepareRecoveryOp(cfg, s, presence, calls) == Turned(s, RecoveryNotActive, 0)
    ensures forall c :: RecordLoadedOp(cfg, s, c, calls) == Turned(s, RecoveryNotActive, 0)
  {
    hide ReconstructRecovery;
    assert s.(v := s.v) == s;
  }
}
