/** What the recovery protocol promises, over every run. */
module RecoveryTheorems {
  import opened Basics
  import opened CampaignState
  import opened FullRoster
  import opened CampaignCoreCodec
  import opened CampaignStore
  import opened CampaignHistory
  import opened RuntimeModel
  import opened OperationShapes
  import opened RuntimeInvariants
  import opened RecoveryRebuild
  import opened RuntimeSafety
  import opened RuntimeRuns

  /*
   * Histories only move forward
   */

  /** What a later history keeps of an earlier one: every checkpoint's campaign and
      proofs, committed checkpoints entirely, and everything an attempt chose. */
  ghost predicate Follows(h: History, next: History) {
    && h.revision <= next.revision
    && (forall c :: c in h.saved ==>
          && c in next.saved && next.saved[c].campaign == h.saved[c].campaign
          && (forall s :: s in h.saved[c].artifacts ==>
                s in next.saved[c].artifacts && next.saved[c].artifacts[s] == h.saved[c].artifacts[s])
          && (h.saved[c].committedAt.Some? ==> next.saved[c] == h.saved[c]))
    && (next.open.Some? ==>
          || next.open.value.entry > h.revision
          || (h.open.Some? && h.open.value.entry == next.open.value.entry))
    && (SameAttempt(h, next) ==>
          && next.saved == h.saved && next.lastCommitted == h.lastCommitted
          && h.open.value.loaded <= next.open.value.loaded && h.open.value.applied <= next.open.value.applied
          && (h.open.value.restored ==> next.open.value.restored))
  }

  predicate SameAttempt(h: History, next: History) {
    h.open.Some? && next.open.Some? && h.open.value.entry == next.open.value.entry
  }

  lemma StepFollows(cfg: Config, h: History, r: Record)
    requires Sound(cfg, h) && Next(cfg, h, r).Some?
    ensures Follows(h, Next(cfg, h, r).value)
  {
    hide Next, Sound;
    AttemptMoves(cfg, h, r);
    forall c | c in h.saved
      ensures var next := Next(cfg, h, r).value;
              && c in next.saved && next.saved[c].campaign == h.saved[c].campaign
              && (forall s :: s in h.saved[c].artifacts ==>
                    s in next.saved[c].artifacts && next.saved[c].artifacts[s] == h.saved[c].artifacts[s])
              && (h.saved[c].committedAt.Some? ==> next.saved[c] == h.saved[c])
    {
      SavedStaysAccounted(cfg, h, r, c);
    }
  }

  lemma FollowsIsTransitive(cfg: Config, a: History, b: History, c: History)
    requires Sound(cfg, a) && Follows(a, b) && Follows(b, c)
    ensures Follows(a, c)
  {
    hide SoundCampaign, SoundSaved;
  }

  lemma {:induction false} ReplayFollows(cfg: Config, journal: seq<Record>, n: nat)
    requires 0 < n <= |journal| && Replay(cfg, journal).Some?
    ensures Replay(cfg, journal[..n]).Some?
    ensures Follows(Replay(cfg, journal[..n]).value, Replay(cfg, journal).value)
    decreases |journal|
  {
    hide Next, Follows, Sound, Created;
    if n == |journal| {
      assert journal[..n] == journal;
      FollowsItself(Replay(cfg, journal).value);
    } else {
      var front := journal[..|journal| - 1];
      assert front[..n] == journal[..n];
      ReplayFollows(cfg, front, n);
      ReplayIsSound(cfg, front);
      ReplayIsSound(cfg, journal[..n]);
      StepFollows(cfg, Replay(cfg, front).value, journal[|journal| - 1]);
      FollowsIsTransitive(cfg, Replay(cfg, journal[..n]).value, Replay(cfg, front).value, Replay(cfg, journal).value);
    }
  }

  lemma FollowsItself(h: History)
    ensures Follows(h, h)
  {
  }

  lemma {:induction false} RunExtends(cfg: Config, s: System, steps: seq<Step>)
    ensures Extends(s.d, Run(cfg, s, steps).d)
  {
    hide Exec;
    if steps != [] {
      var n := |steps| - 1;
      RunExtends(cfg, s, steps[..n]);
      ExecExtends(cfg, Run(cfg, s, steps[..n]), steps[n]);
    }
  }

  /** Over every run the history only moves forward. */
  lemma RunFollows(cfg: Config, s: System, steps: seq<Step>)
    requires Valid(cfg, s) && SlotsApart(cfg, Run(cfg, s, steps).d)
    ensures Valid(cfg, Run(cfg, s, steps))
    ensures Follows(Past(cfg, s.d), Past(cfg, Run(cfg, s, steps).d))
  {
    hide Run, Follows, SlotsApart, Replay;
    RunKeepsValid(cfg, s, steps);
    RunExtends(cfg, s, steps);
    var later := Run(cfg, s, steps).d;
    NeverEmpty(cfg, s.d.journal);
    ReplayFollows(cfg, later.journal, |s.d.journal|);
    assert later.journal[..|s.d.journal|] == s.d.journal;
  }

  lemma NeverEmpty(cfg: Config, journal: seq<Record>)
    requires Replay(cfg, journal).Some?
    ensures |journal| > 0
  {
  }

  /*
   * Restart transparency
   */

  /** What a restart makes of an activity: its lock, its durable acknowledgements,
      its restore, and its checkpoint once any of these is journaled. */
  function Forget(a: RecoveryActivity): RecoveryActivity {
    var journaled := a.durableLoaded != {} || a.restore.Some?;
    a.(stage := RecoveryLock,
       reason := if a.restore.Some? then NoReason else RosterLoss,
       checkpoint := if journaled then a.checkpoint else None,
       source := if journaled then a.source else 0,
       loaded := {},
       applied := {})
  }

  /** A service restarted at any moment rebuilds the durable part of the lost
      activity, and nothing when no attempt was open. */
  lemma RestartTransparency(cfg: Config, s: System, calls: nat)
    requires Valid(cfg, s) && calls >= 2
    ensures var g := ReconstructRecovery(cfg, Exec(cfg, s, Restart), calls);
            && g.failure.None? && g.v.active.None?
            && (s.v.recovery.Some? ==> g.v.recovery == Some(Forget(s.v.recovery.value)))
            && (g.v.recovery.Some? <==> Past(cfg, s.d).open.Some?)
            && (s.v.active.Some? ==> g.v.recovery.None?)
  {
    hide ReconstructRecovery, Replay, Stands, SlotsApart;
    ValidIsConsistent(cfg, s);
    StandsAtRevision(cfg, s.d);
    RebuildIsExact(cfg, Exec(cfg, s, Restart), calls);
  }

  /*
   * Restoring gives back the checkpoint
   */

  lemma CandidateCaptures(cfg: Config, s: System, c: Id, identity: Id, presence: seq<Presence>, calls: nat)
    requires Valid(cfg, s) && BeginCheckpointOp(cfg, s, c, identity, presence, calls).reply.error == NoError
    ensures var after := BeginCheckpointOp(cfg, s, c, identity, presence, calls).s;
            && LoadAggregate(cfg, s.d).Some? && Stands(cfg, after.d)
            && c in Past(cfg, after.d).saved
            && Past(cfg, after.d).saved[c] == Saved(LoadAggregate(cfg, s.d).value, map[], None)
            && after.v.active == Some(CheckpointActivity(c, s.d.revision, SaveIdentity(c)))
  {
    hide CheckMutationFence, LoadAggregate, Replay, Stands, PersistCandidate, Apart, SlotsApart, Tracks,
      BeginCheckpointOp, EvaluateFullRoster;
    ValidIsConsistent(cfg, s);
    BeginCheckpointCases(cfg, s, c, identity, presence, calls);
    FenceKeeps(cfg, s, calls);
    StandsAtRevision(cfg, s.d);
    LoadIsCurrent(cfg, s.d);
    var g := CheckMutationFence(cfg, s, calls);
    CandidateSucceeds(cfg, s.(v := g.v), c, g.left - 2);
  }

  lemma CandidateSucceeds(cfg: Config, s: System, c: Id, calls: nat)
    requires Stands(cfg, s.d)
    requires Past(cfg, s.d).open.None? && c != []
    ensures var h := Past(cfg, s.d);
            var r := PersistCandidate(s, c, SaveIdentity(c), Current(h), calls);
            r.reply.error == NoError ==>
              && Stands(cfg, r.s.d) && c in Past(cfg, r.s.d).saved
              && Past(cfg, r.s.d).saved[c] == Saved(Current(h), map[], None)
              && r.s.v.active == Some(CheckpointActivity(c, h.revision, SaveIdentity(c)))
  {
    hide Replay, Stands, CreateCheckpointCandidate, EncodeCore, CoreBytes, ImageOf;
    StandsAtRevision(cfg, s.d);
    CurrentEncodes(cfg, s.d);
    CandidateStands(cfg, s.d, c);
  }

  lemma CurrentEncodes(cfg: Config, d: Durable)
    requires Stands(cfg, d)
    ensures var a := Current(Past(cfg, d)); EncodeCore(a) == Some(CoreBytes(ImageOf(a)))
  {
    hide Replay;
    ReplayIsSound(cfg, d.journal);
    CurrentIsSound(cfg, Past(cfg, d));
    SoundEncodes(cfg, Current(Past(cfg, d)));
  }

  lemma RestoredCampaign(cfg: Config, h: History, a: RecoveryActivity)
    requires Sound(cfg, h) && TracksRecovery(h, a) && a.stage == ApplyingSnapshot
    ensures a.checkpoint.Some? && a.checkpoint.value in h.saved && a.restore == Some(h.revision)
    ensures Current(h) == h.saved[a.checkpoint.value].campaign.(version := h.revision)
  {
    hide SoundCampaign, SoundSaved;
  }

  /** While the snapshot is being applied, the store holds the checkpoint's campaign
      under the restore revision. */
  lemma RestoredIsSaved(cfg: Config, s: System, a: RecoveryActivity)
    requires Valid(cfg, s) && s.v.recovery == Some(a) && a.stage == ApplyingSnapshot
    ensures var h := Past(cfg, s.d);
            && a.checkpoint.Some? && a.checkpoint.value in h.saved && a.restore == Some(h.revision)
            && LoadAggregate(cfg, s.d) == Some(h.saved[a.checkpoint.value].campaign.(version := h.revision))
  {
    hide Replay, LoadAggregate, Sound, Stands, TracksRecovery;
    StandsAtRevision(cfg, s.d);
    ReplayIsSound(cfg, s.d.journal);
    LoadIsCurrent(cfg, s.d);
    RestoredCampaign(cfg, Past(cfg, s.d), a);
  }

  /** Rollback: take a checkpoint, let anything happen, and recover it. What the
      service then loads is the campaign of the checkpoint, with its phase, manager,
      roster, bindings and readiness, changed only in its version. */
  lemma RestoreMeansCheckpoint(cfg: Config, s: System, c: Id, identity: Id, presence: seq<Presence>, calls: nat,
                               steps: seq<Step>, a: RecoveryActivity)
    requires Valid(cfg, s) && BeginCheckpointOp(cfg, s, c, identity, presence, calls).reply.error == NoError
    requires var last := Run(cfg, BeginCheckpointOp(cfg, s, c, identity, presence, calls).s, steps);
             && SlotsApart(cfg, last.d) && last.v.recovery == Some(a)
             && a.stage == ApplyingSnapshot && a.checkpoint == Some(c)
    ensures var last := Run(cfg, BeginCheckpointOp(cfg, s, c, identity, presence, calls).s, steps);
            && LoadAggregate(cfg, s.d).Some? && a.restore.Some? && a.restore.value <= MAX_REVISION
            && LoadAggregate(cfg, last.d) == Some(LoadAggregate(cfg, s.d).value.(version := a.restore.value))
  {
    hide BeginCheckpointOp, LoadAggregate, Run, Replay, InStep, Exec, SlotsApart;
    var begun := BeginCheckpointOp(cfg, s, c, identity, presence, calls).s;
    CandidateCaptures(cfg, s, c, identity, presence, calls);
    BegunIsExec(cfg, s, c, identity, presence, calls);
    RunExtends(cfg, begun, steps);
    ApartEarlierInRun(cfg, begun, Run(cfg, begun, steps));
    ExecKeepsValid(cfg, s, DoBeginCheckpoint(c, identity, presence, calls));
    RunFollows(cfg, begun, steps);
    StandsAtRevision(cfg, begun.d);
    ValidStands(cfg, Run(cfg, begun, steps));
    RestoredIsSaved(cfg, Run(cfg, begun, steps), a);
  }

  lemma BegunIsExec(cfg: Config, s: System, c: Id, identity: Id, presence: seq<Presence>, calls: nat)
    ensures Exec(cfg, s, DoBeginCheckpoint(c, identity, presence, calls)) ==
            BeginCheckpointOp(cfg, s, c, identity, presence, calls).s
  {
  }

  lemma ApartEarlierInRun(cfg: Config, s: System, last: System)
    requires Extends(s.d, last.d) && SlotsApart(cfg, last.d)
    ensures SlotsApart(cfg, s.d)
  {
  }

  lemma ValidStands(cfg: Config, s: System)
    requires Valid(cfg, s)
    ensures Stands(cfg, s.d) && Replay(cfg, s.d.journal).Some?
  {
  }

  /*
   * Pinning
   */

  /** The checkpoint of an attempt never changes once the service has chosen one,
      nor does its source revision, not even across restarts. */
  lemma ChoiceIsPinned(cfg: Config, s: System, steps: seq<Step>, a: RecoveryActivity, b: RecoveryActivity)
    requires Valid(cfg, s) && SlotsApart(cfg, Run(cfg, s, steps).d)
    requires s.v.recovery == Some(a) && Run(cfg, s, steps).v.recovery == Some(b)
    requires a.attempt == b.attempt && a.checkpoint.Some? && b.checkpoint.Some?
    ensures b.checkpoint == a.checkpoint && b.source == a.source
    ensures a.durableLoaded <= b.durableLoaded && a.durableApplied <= b.durableApplied
    ensures a.restore.Some? ==> b.restore == a.restore
  {
    hide Run, Replay, SlotsApart, Stands;
    RunFollows(cfg, s, steps);
  }
}
