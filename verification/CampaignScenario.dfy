/** From the creation of a campaign to a client that can never be released again. */
module CampaignScenario {
  import opened Basics
  import opened CampaignState
  import opened CampaignCoreCodec
  import opened CampaignStore
  import opened CampaignHistory
  import opened RuntimeModel
  import opened OperationShapes
  import opened RuntimeInvariants
  import opened RecoveryRebuild
  import opened RuntimeSafety
  import opened RuntimeRuns
  import opened RecoveryTheorems
  import opened RecoveryProgress
  import opened CheckpointProgress
  import FullRoster
  import LostCompletion
  import OpenAttempt
  import opened RecoveryComposition
  import opened RecoveryFollow
  import opened RecoveryRelease
  import RosterLoss
  import SlotNames
  import RC = RecoveryClient

  /*
   * The campaign is created
   */

  predicate Plays(roster: seq<SlotRecord>, player: Id) {
    exists i :: 0 <= i < |roster| && roster[i].player == player
  }

  function Sorted(roster: seq<SlotRecord>): seq<SlotState> { Sort(States(roster)) }

  lemma CreatedPast(cfg: Config, mutation: Id, roster: seq<SlotRecord>)
    requires CreateLobby(cfg, mutation, roster).Some? && ValidIdentity(cfg.campaign)
    ensures var s := CreateLobby(cfg, mutation, roster).value;
            && Valid(cfg, s) && s.v == Volatile(None, None) && s.d.revision == 1 && ValidRoster(Sorted(roster))
            && |s.d.journal| == 1 && s.d.journal[0].mutation == ClientMutation(mutation)
            && Past(cfg, s.d) ==
               History(1, Aggregate(cfg.campaign, 1, Lobby, false, None, Sorted(roster)), map[], None, None)
  {
    hide ValidRoster, Ascending, ValidAggregate, CoreBytes, ImageOf, IntentBytes, Sort, States, Records, Unready, Valid;
    CreatedIsValid(cfg, mutation, roster);
    var s := CreateLobby(cfg, mutation, roster).value;
    var sorted := Sort(States(roster));
    RosterFaultIff(sorted, true);
    SortedRoster(roster);
    assert Replay(cfg, s.d.journal) == Created(cfg, s.d.journal[0]);
  }

  lemma InSorted(roster: seq<SlotRecord>, x: SlotState)
    ensures x in Sorted(roster) <==> x in States(roster)
  {
    assert x in Sorted(roster) <==> x in multiset(Sorted(roster));
    assert x in States(roster) <==> x in multiset(States(roster));
  }

  /*
   * It is started
   */

  lemma StartSucceeds(cfg: Config, roster: seq<SlotRecord>, manager: Id)
    requires ValidRoster(Sorted(roster)) && Plays(roster, manager)
    ensures var a := Aggregate(cfg.campaign, 1, Lobby, false, None, Sorted(roster));
            Apply(a, Start(manager)) ==
            Outcome(a.(sealed := true, manager := Some(manager), phase := CharacterCreation, version := 2), NoError,
                    true)
  {
    hide ValidRoster, RosterFault, Sort, ValidIdentity;
    var i :| 0 <= i < |roster| && roster[i].player == manager;
    assert States(roster)[i] == ToSlotState(roster[i]);
    InSorted(roster, ToSlotState(roster[i]));
    RosterFaultIff(Sorted(roster), false);
    ValidPlayers(Sorted(roster), manager);
  }

  lemma ValidPlayers(roster: seq<SlotState>, player: Id)
    requires ValidRoster(roster) && IsMember(roster, player)
    ensures ValidIdentity(player)
  {
  }

  lemma StartIsStored(d: Durable, c: Command, a: Aggregate)
    requires c.edit.Start? && c.expected == d.revision < MAX_REVISION && !d.sealed && a.roster != []
    requires JournalIndex(d.journal, ClientMutation(c.mutation)) == |d.journal| && ValidIdentity(c.mutation)
    requires EncodeCore(a).Some? && EncodeIntent(a).Some?
    ensures PersistEdit(d, c, a).error == Stored && PersistEdit(d, c, a).d.slots == BySlot(Records(a.roster))
  {
    hide EncodeCore, EncodeIntent, JournalIndex, BySlot, ValidIdentity;
  }

  /** Two slots of a roster never share a hash. */
  predicate RosterApart(cfg: Config, roster: seq<SlotRecord>) {
    forall i, j :: 0 <= i < j < |roster| ==> cfg.slotHash(roster[i].slot) != cfg.slotHash(roster[j].slot)
  }

  lemma SortedKeepsApart(cfg: Config, roster: seq<SlotRecord>)
    requires RosterApart(cfg, roster) && ValidRoster(Sorted(roster))
    ensures RosterApart(cfg, Records(Sorted(roster)))
  {
    hide ValidSlotIdentity, Sort;
    var sorted := Sorted(roster);
    forall i, j | 0 <= i < j < |sorted| ensures cfg.slotHash(sorted[i].slot) != cfg.slotHash(sorted[j].slot) {
      assert !Clash(sorted[i], sorted[j]);
      InSorted(roster, sorted[i]);
      InSorted(roster, sorted[j]);
      var k :| 0 <= k < |roster| && States(roster)[k] == sorted[i];
      var l :| 0 <= l < |roster| && States(roster)[l] == sorted[j];
      assert k != l;
    }
  }

  lemma EditGoes(cfg: Config, s: System, c: Command)
    requires Consistent(cfg, s) && s.v == Volatile(None, None) && Past(cfg, s.d).open.None?
    requires c.expected == s.d.revision && JournalIndex(s.d.journal, ClientMutation(c.mutation)) == |s.d.journal|
    requires var o := Apply(Current(Past(cfg, s.d)), c.edit); o.error == NoError && o.changed
    ensures EditOp(cfg, s, c, PLENTY).s ==
            s.(d := PersistEdit(s.d, c, Apply(Current(Past(cfg, s.d)), c.edit).campaign).d)
  {
    hide Apply, PersistEdit, PersistNoOp, Replay, Stands, LoadAggregate, ReconstructRecovery, Apart, JournalIndex,
      EditOp;
    EditCases(cfg, s, c, PLENTY);
    RosterLoss.GateWhenIdle(cfg, s, PLENTY);
    StandsAtRevision(cfg, s.d);
    LoadIsCurrent(cfg, s.d);
    assert s.(v := s.v) == s;
  }

  /** The created campaign starts. */
  lemma StartStep(cfg: Config, mutation: Id, roster: seq<SlotRecord>, start: Id, manager: Id) returns (step: Step)
    requires CreateLobby(cfg, mutation, roster).Some? && ValidIdentity(cfg.campaign) && RosterApart(cfg, roster)
    requires ValidIdentity(start) && start != mutation && Plays(roster, manager)
    ensures step.DoEdit?
    ensures var next := Exec(cfg, CreateLobby(cfg, mutation, roster).value, step);
            && Valid(cfg, next) && next.v == Volatile(None, None) && next.d.revision == 2 && next.d.sealed
            && next.d.slots == Records(Sorted(roster)) && next.d.slots != []
            && Past(cfg, next.d).open.None? && Past(cfg, next.d).saved == map[]
  {
    hide CreateLobby, Valid, ValidRoster, Replay, Stands, Apply, PersistEdit, Sort, EditOp, Inv, CoreBytes, ImageOf,
      EncodeCore, EncodeIntent, ValidIdentity, RosterApart, BySlot, SlotsApart, Sound, SoundCampaign;
    var s := CreateLobby(cfg, mutation, roster).value;
    CreatedPast(cfg, mutation, roster);
    ValidStandsHere(cfg, s);
    var h := Past(cfg, s.d);
    var c := Command(1, start, Start(manager));
    step := DoEdit(c, PLENTY);
    StartSucceeds(cfg, roster, manager);
    ValidIsConsistent(cfg, s);
    ReplayIsSound(cfg, s.d.journal);
    FreshMutation(s.d, ClientMutation(start));
    var a := Apply(Current(h), c.edit).campaign;
    EditedProjection(cfg, h, c.edit);
    StartedEncodes(cfg, a);
    Unsealed(cfg, s.d);
    StartIsStored(s.d, c, a);
    EditIsAccepted(cfg, s.d, c);
    EditGoes(cfg, s, c);
    SortedKeepsApart(cfg, roster);
    StoredAgain(a);
    var next := Exec(cfg, s, step);
    StandsAtRevision(cfg, next.d);
    RosterLoss.SealedAlike(cfg, next.d);
    RosterKeepsApart(cfg, next.d);
    IdleTracks(cfg, next);
  }

  lemma StartedEncodes(cfg: Config, a: Aggregate)
    requires Inv(a) && a.id == cfg.campaign && a.version == 2 && ValidIdentity(cfg.campaign)
    ensures EncodeCore(a).Some? && EncodeIntent(a).Some?
  {
    hide CoreBytes, ImageOf, IntentBytes, Inv, DecodeCore;
    SoundEncodes(cfg, a);
  }

  lemma Unsealed(cfg: Config, d: Durable)
    requires Stands(cfg, d) && !Past(cfg, d).campaign.sealed
    ensures !d.sealed
  {
    hide Replay;
  }

  lemma StoredAgain(a: Aggregate)
    ensures |Records(a.roster)| == |a.roster|
  {
  }

  lemma RosterKeepsApart(cfg: Config, d: Durable)
    requires RosterApart(cfg, d.slots)
    ensures SlotsApart(cfg, d)
  {
  }

  lemma IdleTracks(cfg: Config, s: System)
    requires Stands(cfg, s.d) && s.v == Volatile(None, None) && SlotsApart(cfg, s.d)
    ensures Valid(cfg, s)
  {
    hide Stands, Replay, SlotsApart;
  }

  /*
   * Its first checkpoint is taken
   */

  lemma CandidateIsStored(d: Durable, q: Request, c: Id)
    requires q.content.CandidateState? && q.expected == d.revision < MAX_REVISION && c !in d.checkpoints
    requires d.sealed && d.slots != [] && Storable(q.mutation) && JournalIndex(d.journal, q.mutation) == |d.journal|
    ensures CreateCheckpointCandidate(d, q, c).error == Stored
    ensures CreateCheckpointCandidate(d, q, c).d.slots == d.slots
    ensures CreateCheckpointCandidate(d, q, c).d.revision == d.revision + 1
  {
    hide JournalIndex, Storable, EmptySlots;
  }

  lemma NewCandidateIsFresh(cfg: Config, d: Durable, c: Id)
    requires Stands(cfg, d) && c !in Past(cfg, d).saved
    ensures JournalIndex(d.journal, CreateCandidateOf(c)) == |d.journal| && c !in d.checkpoints
  {
    hide Replay;
    JournalIsAccounted(cfg, d.journal);
    forall r | r in d.journal ensures r.mutation != CreateCandidateOf(c) {
      assert Accounted(cfg, Past(cfg, d), r);
    }
    FreshMutation(d, CreateCandidateOf(c));
  }

  lemma CandidatePersists(cfg: Config, s: System, c: Id, calls: nat)
    requires Stands(cfg, s.d) && Past(cfg, s.d).open.None? && c !in Past(cfg, s.d).saved
             && Storable(CreateCandidateOf(c))
    requires s.d.sealed && s.d.slots != [] && s.d.revision < MAX_REVISION && calls >= 1 && s.v == Volatile(None, None)
    ensures var r := PersistCandidate(s, c, SaveIdentity(c), Current(Past(cfg, s.d)), calls);
            && r.reply.error == NoError && Stands(cfg, r.s.d) && r.s.d.slots == s.d.slots
            && r.s.d.revision == s.d.revision + 1
            && r.s.v == Volatile(Some(CheckpointActivity(c, s.d.revision, SaveIdentity(c))), None)
            && Past(cfg, r.s.d) ==
               Past(cfg, s.d).(
                 revision := s.d.revision + 1,
                 saved := Past(cfg, s.d).saved[c := Saved(Current(Past(cfg, s.d)), map[], None)])
  {
    hide Replay, Stands, CreateCheckpointCandidate, EncodeCore, CoreBytes, ImageOf, Storable, JournalIndex;
    StandsAtRevision(cfg, s.d);
    CurrentEncodes(cfg, s.d);
    NewCandidateIsFresh(cfg, s.d, c);
    assert c != [] by {
      StorableIsNamed(c);
    }
    CandidateIsStored(s.d, CandidateRequest(Current(Past(cfg, s.d)), c), c);
    CandidateStands(cfg, s.d, c);
  }

  lemma StorableIsNamed(c: Id)
    requires Storable(CreateCandidateOf(c))
    ensures c != []
  {
  }

  /** A checkpoint of an idle, sealed campaign begins, and has no proof yet. */
  lemma CandidateStep(cfg: Config, s: System, c: Id) returns (step: Step)
    requires Idle(cfg, s) && s.d.sealed && s.d.slots != [] && s.d.revision < MAX_REVISION
    requires c !in Past(cfg, s.d).saved && Storable(CreateCandidateOf(c))
    ensures step.DoBeginCheckpoint?
    ensures var next := Exec(cfg, s, step);
            && Valid(cfg, next) && next.v == Volatile(Some(CheckpointActivity(c, s.d.revision, SaveIdentity(c))), None)
            && next.d.slots == s.d.slots && next.d.revision == s.d.revision + 1 && next.d.sealed
            && c in next.d.checkpoints
  {
    hide Replay, Stands, SlotsApart, LoadAggregate, ReconstructRecovery, FullRoster.EvaluateFullRoster,
      PersistCandidate, BeginCheckpointOp, Storable;
    ValidStandsHere(cfg, s);
    ValidIsConsistent(cfg, s);
    StandsAtRevision(cfg, s.d);
    LoadIsCurrent(cfg, s.d);
    var presence := LostCompletion.Everybody(cfg, s.d.slots);
    LostCompletion.EverybodyIsFull(cfg, s.d.slots);
    FullIsEligible(cfg, s.d, presence);
    step := DoBeginCheckpoint(c, SaveIdentity(c), presence, PLENTY);
    BeginCheckpointCases(cfg, s, c, SaveIdentity(c), presence, PLENTY);
    RosterLoss.GateWhenIdle(cfg, s, PLENTY);
    assert s.(v := s.v) == s;
    StorableIsNamed(c);
    CandidatePersists(cfg, s, c, PLENTY - 3);
    OpenAttempt.StepKeeps(cfg, s, step);
    InCheckpoints(cfg, Exec(cfg, s, step).d, c);
  }

  lemma InCheckpoints(cfg: Config, d: Durable, c: Id)
    requires Stands(cfg, d) && c in Past(cfg, d).saved
    ensures c in d.checkpoints
  {
    hide Replay;
  }

  lemma {:induction false} MissingIsBounded(slots: seq<CheckpointSlot>)
    ensures Missing(slots) <= |slots|
  {
    if slots != [] {
      MissingIsBounded(slots[..|slots| - 1]);
    }
  }

  /*
   * And from there
   */

  function Beginning(cfg: Config, mutation: Id, roster: seq<SlotRecord>, me: Id): World
    requires CreateLobby(cfg, mutation, roster).Some?
  {
    World(CreateLobby(cfg, mutation, roster).value, {}, RC.FRESH, [], me, false)
  }

  /** Everything a campaign needs to get as far as a committed checkpoint. */
  predicate Playable(
    cfg: Config, mutation: Id, roster: seq<SlotRecord>, start: Id, manager: Id, c: Id, proof: Artifact)
  {
    && CreateLobby(cfg, mutation, roster).Some? && ValidIdentity(cfg.campaign) && RosterApart(cfg, roster)
    && ValidIdentity(start) && start != mutation && Plays(roster, manager)
    && Storable(CreateCandidateOf(c)) && (forall r :: r in roster ==> Storable(AcknowledgeOf(c, r.slot)))
    && ExactProof(cfg, proof, SaveIdentity(c))
  }

  lemma SortedFit(cfg: Config, mutation: Id, roster: seq<SlotRecord>, d: Durable, c: Id)
    requires d.slots == Records(Sorted(roster)) && forall r :: r in roster ==> Storable(AcknowledgeOf(c, r.slot))
    ensures NamesFit(d, c)
  {
    hide Storable, Sort;
    forall i | 0 <= i < |d.slots| ensures Storable(AcknowledgeOf(c, d.slots[i].slot)) {
      InSorted(roster, Sorted(roster)[i]);
      var k :| 0 <= k < |roster| && States(roster)[k] == Sorted(roster)[i];
      assert roster[k] in roster;
    }
  }

  lemma SortedListed(roster: seq<SlotRecord>, me: Id)
    requires Listed(roster, me)
    ensures Listed(Records(Sorted(roster)), me)
  {
    hide Sort;
    var i :| 0 <= i < |roster| && roster[i].slot == me;
    assert States(roster)[i] == ToSlotState(roster[i]);
    InSorted(roster, ToSlotState(roster[i]));
    var k :| 0 <= k < |Sorted(roster)| && Sorted(roster)[k] == ToSlotState(roster[i]);
    assert Records(Sorted(roster))[k].slot == me;
  }

  lemma SortedIsShort(roster: seq<SlotRecord>)
    requires ValidRoster(Sorted(roster))
    ensures |Records(Sorted(roster))| <= MAX_ROSTER
  {
  }

  /** Create, start, checkpoint, commit: four kinds of steps that settle a campaign. */
  lemma Settles(cfg: Config, mutation: Id, roster: seq<SlotRecord>, start: Id, manager: Id, c: Id, proof: Artifact)
    returns (steps: seq<Step>)
    requires Playable(cfg, mutation, roster, start, manager, c, proof)
    ensures forall i :: 0 <= i < |steps| ==> steps[i].DoEdit? || steps[i].DoBeginCheckpoint? || steps[i].DoRecordSave?
    ensures var last := Run(cfg, CreateLobby(cfg, mutation, roster).value, steps);
            && Idle(cfg, last) && last.d.sealed && last.d.lastCommitted == Some(c) && last.d.revision <= 14
            && last.d.slots == Records(Sorted(roster))
  {
    hide CreateLobby, Exec, Run, Valid, Storable, ExactProof, Sort, ValidRoster, NamesFit, Missing, Idle, RosterApart;
    var s := CreateLobby(cfg, mutation, roster).value;
    CreatedPast(cfg, mutation, roster);
    var first := StartStep(cfg, mutation, roster, start, manager);
    var s1 := Exec(cfg, s, first);
    IsIdle(cfg, s1);
    var second := CandidateStep(cfg, s1, c);
    var s2 := Exec(cfg, s1, second);
    SortedFit(cfg, mutation, roster, s2.d, c);
    SortedIsShort(roster);
    MissingIsBounded(s2.d.checkpoints[c].slots);
    StoredSlots(cfg, s2);
    var rest := CheckpointCanCommit(cfg, s2, proof);
    RunCons(cfg, s1, second, rest);
    RunCons(cfg, s, first, [second] + rest);
    steps := [first] + ([second] + rest);
    RunExtends(cfg, s2, rest);
  }

  lemma IsIdle(cfg: Config, s: System)
    requires Valid(cfg, s) && s.v == Volatile(None, None) && Past(cfg, s.d).open.None?
    ensures Idle(cfg, s)
  {
  }

  lemma StoredSlots(cfg: Config, s: System)
    requires Valid(cfg, s) && s.v.active.Some? && s.v.active.value.checkpoint in s.d.checkpoints
    ensures |s.d.checkpoints[s.v.active.value.checkpoint].slots| == |s.d.slots|
  {
    hide Replay, SlotsApart, Stands, TracksActive, ExactArtifact, Storable;
    ValidStandsHere(cfg, s);
    ActiveIsAlone(cfg, s);
    ActiveUncommitted(cfg, s.d, s.v.active.value);
  }

  /** Every campaign that gets as far as a committed checkpoint has an honest run, from
      its creation on, to a world whose open attempt the service could complete and
      whose client can never be released from it. */
  lemma StuckFromCreation(cfg: Config, mutation: Id, roster: seq<SlotRecord>, start: Id, manager: Id, c: Id,
                          proof: Artifact, me: Id) returns (moves: seq<Move>, m: nat)
    requires Playable(cfg, mutation, roster, start, manager, c, proof) && Listed(roster, me)
    ensures var w := Beginning(cfg, mutation, roster, me);
            var last := Result(cfg, w, moves);
            && HonestRun(cfg, w, moves) && Blocked(cfg, last, m)
            && Valid(cfg, last.server) && Room(cfg, last.server.d) && Past(cfg, last.server.d).lastCommitted.Some?
  {
    var first := SettledFromCreation(cfg, mutation, roster, start, manager, c, proof, me);
    hide Playable, CreateLobby, Result, HonestRun, LostCompletion.Settled, Listed, Blocked, Room, Valid;
    var w := Beginning(cfg, mutation, roster, me);
    var rest, n := LostCompletion.LostCompletionBlocks(cfg, Result(cfg, w, first));
    HonestAppend(cfg, w, first, rest);
    moves, m := first + rest, n;
  }

  lemma SettledFromCreation(cfg: Config, mutation: Id, roster: seq<SlotRecord>, start: Id, manager: Id, c: Id,
                            proof: Artifact, me: Id) returns (moves: seq<Move>)
    requires Playable(cfg, mutation, roster, start, manager, c, proof) && Listed(roster, me)
    ensures var w := Beginning(cfg, mutation, roster, me);
            HonestRun(cfg, w, moves) && LostCompletion.Settled(cfg, Result(cfg, w, moves))
  {
    assert CreateLobby(cfg, mutation, roster).Some? && ValidIdentity(cfg.campaign);
    var w := Beginning(cfg, mutation, roster, me);
    var steps := Settles(cfg, mutation, roster, start, manager, c, proof);
    hide Playable, CreateLobby, Run, HonestInv, Result, HonestRun, Idle, Sort, Valid, HonestReport, Listed,
      LostCompletion.Settled, Sends;
    HonestWorldsBegin(cfg, mutation, roster, me);
    IdleIsValid(cfg, Run(cfg, w.server, steps));
    NothingReported(w.deeds, steps, me);
    ServerAlone(cfg, w, steps);
    KeptByServer(cfg, w, steps);
    SortedListed(roster, me);
    moves := ServerMoves(steps);
    IsSettled(cfg, Result(cfg, w, moves));
  }

  lemma NothingReported(deeds: seq<Deed>, steps: seq<Step>, me: Id)
    requires forall i :: 0 <= i < |steps| ==> steps[i].DoEdit? || steps[i].DoBeginCheckpoint? || steps[i].DoRecordSave?
    ensures forall i :: 0 <= i < |steps| ==> HonestReport(deeds, steps[i], me)
  {
  }

  lemma IsSettled(cfg: Config, w: World)
    requires HonestInv(cfg, w) && Idle(cfg, w.server) && w.server.d.sealed && w.server.d.lastCommitted.Some?
    requires Listed(w.server.d.slots, w.me) && w.client == RC.FRESH && w.server.d.revision <= 14
    ensures LostCompletion.Settled(cfg, w)
  {
    hide HonestInv, Idle, Listed;
  }

  /*
   * A recovery before the first checkpoint
   */

  lemma NoCheckpointYet(cfg: Config, d: Durable)
    requires Stands(cfg, d) && Past(cfg, d).saved == map[]
    ensures Past(cfg, d).lastCommitted.None?
  {
    hide Replay;
    ReplayIsSound(cfg, d.journal);
  }

  /** Every campaign that starts and loses a member before its first checkpoint is
      committed is stuck, and stays so whatever follows. */
  lemma StuckBeforeCheckpoint(cfg: Config, mutation: Id, roster: seq<SlotRecord>, start: Id, manager: Id)
    returns (steps: seq<Step>)
    requires CreateLobby(cfg, mutation, roster).Some? && ValidIdentity(cfg.campaign) && RosterApart(cfg, roster)
    requires ValidIdentity(start) && start != mutation && Plays(roster, manager)
    ensures var stuck := Run(cfg, CreateLobby(cfg, mutation, roster).value, steps);
            && |steps| == 2 && steps[0].DoEdit? && steps[1].DoBeginRecovery?
            && Valid(cfg, stuck) && Stuck(Past(cfg, stuck.d))
            && forall more :: StuckAfter(cfg, stuck, more)
  {
    hide CreateLobby, Exec, Run, Valid, ValidIdentity, Stands, Replay, RosterApart;
    var s := CreateLobby(cfg, mutation, roster).value;
    var first := StartStep(cfg, mutation, roster, start, manager);
    var s1 := Exec(cfg, s, first);
    IsIdle(cfg, s1);
    ValidStandsHere(cfg, s1);
    NoCheckpointYet(cfg, s1.d);
    var second := LostCompletion.LossStep(cfg, s1);
    var s2 := Exec(cfg, s1, second);
    ValidStandsHere(cfg, s2);
    steps := [first, second];
    RunCons(cfg, s, first, [second]);
    RunCons(cfg, s1, second, []);
    NoSteps(cfg, s2);
    assert [first] + [second] == steps && [second] + [] == [second];
    forall more ensures StuckAfter(cfg, s2, more) {
      StuckForever(cfg, s2, more);
    }
  }

  ghost predicate StuckAfter(cfg: Config, s: System, more: seq<Step>) {
    Valid(cfg, Run(cfg, s, more)) && Stuck(Past(cfg, Run(cfg, s, more).d))
  }

  /*
   * A checkpoint whose acknowledgements are too long
   */

  /** In an idle campaign with slots named by the server a checkpoint of 106 to 110 bytes
      begins, and no run can commit it: the store refuses every acknowledgement. */
  lemma LongCheckpointNeverCommits(cfg: Config, s: System, c: Id) returns (step: Step)
    requires Idle(cfg, s) && s.d.sealed && s.d.slots != [] && SlotNames.ServerRoster(s.d.slots)
    requires s.d.revision < MAX_REVISION && c !in Past(cfg, s.d).saved && ValidIdentity(c) && 105 < |c| <= 110
    ensures step.DoBeginCheckpoint?
    ensures var next := Exec(cfg, s, step);
            && Valid(cfg, next) && next.v.active.Some? && next.v.active.value.checkpoint == c && !NamesFit(next.d, c)
            && forall steps :: !Commits(cfg, next, steps, c)
  {
    hide Exec, Run, Valid, Idle, Replay, NamesFit, SlotNames.ServerRoster, ValidIdentity;
    FitsAsCandidate(c);
    step := CandidateStep(cfg, s, c);
    var next := Exec(cfg, s, step);
    SlotNames.ServerNamesFitIff(next.d, c);
    forall steps ensures !Commits(cfg, next, steps, c) {
      if Commits(cfg, next, steps, c) {
        CommittedOwes(cfg, next, steps);
      }
    }
  }

  lemma FitsAsCandidate(c: Id)
    requires ValidIdentity(c) && |c| <= 110
    ensures Storable(CreateCandidateOf(c))
  {
  }

  /*
   * Such a campaign exists
   */

  const LONE := SlotRecord(SlotNames.SlotName(1), [0x70], [0x62])

  const PROOF := Artifact(SaveIdentity([0x6B]), SHA_256, 1, seq(32, _ => 0), 1, [0])

  /** Any parser of native saves that accepts this one proof. */
  predicate Simple(cfg: Config) {
    ValidIdentity(cfg.campaign) && cfg.parses(PROOF.identity, PROOF.fingerprint, PROOF.metadata)
  }

  lemma LoneRoster(cfg: Config)
    requires Simple(cfg)
    ensures CreateLobby(cfg, [0x6D], [LONE]).Some?
  {
    hide CoreBytes, IntentBytes, ImageOf;
    assert States([LONE]) == [ToSlotState(LONE)];
    assert Sort([ToSlotState(LONE)]) == [ToSlotState(LONE)];
    RosterFaultIff([ToSlotState(LONE)], true);
  }

  /** Whatever the configuration, some honest run of a campaign of one player blocks it. */
  lemma LonePlayerCanBeStuck(cfg: Config) returns (moves: seq<Move>, m: nat)
    requires Simple(cfg)
    ensures CreateLobby(cfg, [0x6D], [LONE]).Some?
    ensures var w := Beginning(cfg, [0x6D], [LONE], LONE.slot);
            var last := Result(cfg, w, moves);
            && HonestRun(cfg, w, moves) && Blocked(cfg, last, m)
            && Valid(cfg, last.server) && Room(cfg, last.server.d) && Past(cfg, last.server.d).lastCommitted.Some?
  {
    hide CreateLobby, Result, HonestRun, Blocked, Room, Valid;
    LoneRoster(cfg);
    assert [LONE][0].player == [0x70] && [LONE][0].slot == LONE.slot;
    assert |PROOF.fingerprint| == 32;
    assert Playable(cfg, [0x6D], [LONE], [0x6E], [0x70], [0x6B], PROOF);
    moves, m := StuckFromCreation(cfg, [0x6D], [LONE], [0x6E], [0x70], [0x6B], PROOF, LONE.slot);
  }

  /** 106 times the letter a. */
  const LONG: Id := seq(106, _ => 0x61)

  lemma LoneSlots()
    ensures Records(Sorted([LONE])) == [LONE] && SlotNames.ServerRoster([LONE]) && ValidIdentity(LONG)
  {
    assert States([LONE]) == [ToSlotState(LONE)];
    assert Sort([ToSlotState(LONE)]) == [ToSlotState(LONE)];
    assert SlotNames.ServerNamed(LONE.slot);
  }

  /** Such a checkpoint begins in a campaign of one player. */
  lemma LonePlayerLongCheckpoint(cfg: Config) returns (start: Step, begin: Step)
    requires Simple(cfg)
    ensures CreateLobby(cfg, [0x6D], [LONE]).Some? && start.DoEdit? && begin.DoBeginCheckpoint?
    ensures var begun := Exec(cfg, Exec(cfg, CreateLobby(cfg, [0x6D], [LONE]).value, start), begin);
            && begun.v.active.Some? && begun.v.active.value.checkpoint == LONG && !NamesFit(begun.d, LONG)
            && forall steps :: !Commits(cfg, begun, steps, LONG)
  {
    hide CreateLobby, Exec, Run, Valid, NamesFit, Sort, SlotNames.ServerRoster, Replay;
    LoneRoster(cfg);
    LoneSlots();
    assert [LONE][0].player == [0x70];
    start := StartStep(cfg, [0x6D], [LONE], [0x6E], [0x70]);
    var started := Exec(cfg, CreateLobby(cfg, [0x6D], [LONE]).value, start);
    IsIdle(cfg, started);
    begin := LongCheckpointNeverCommits(cfg, started, LONG);
  }
}
