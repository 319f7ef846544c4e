/** Asking for the campaign to be loaded: what loading says of a campaign, and when a
    member's request opens a recovery. */
module LoadRequests {
  import opened Basics
  import opened CampaignState
  import opened FullRoster
  import opened CampaignAdmission
  import opened CampaignStore
  import opened CampaignHistory
  import opened RuntimeModel
  import opened RuntimeInvariants
  import opened RuntimeSafety
  import opened RuntimeRuns
  import opened RecoveryProgress
  import opened EditAnswers
  import opened CheckpointAnswers
  import opened RecoveryAnswers
  import opened RosterLoss

  /** Loading tells of an open attempt whether it is locked, of an active checkpoint that
      there is one, and otherwise whether everybody is present. */
  lemma LoadCampaignAnswer(cfg: Config, s: System, presence: seq<Presence>, calls: nat)
    requires Valid(cfg, s) && calls >= 4
    ensures LoadCampaignOp(cfg, s, presence, calls) ==
            Loaded(s.(v := Looked(cfg, s)),
                   Some(if Past(cfg, s.d).open.Some? && Looked(cfg, s).recovery.Some? then
                          if Looked(cfg, s).recovery.value.stage == RecoveryLock then Locked else Restoring
                        else if s.v.active.Some? then Checkpointing
                        else if Gathered(cfg, s.d, presence) then Running
                        else Waiting))
  {
    hide ReconstructRecovery, InStep, SlotsApart, LoadAggregate, EvaluateFullRoster, Replay, FullPresence, Looked;
    ServiceStands(cfg, s);
    LooksAlways(cfg, s, calls - 2);
    GatheredIff(cfg, s, presence);
    if Past(cfg, s.d).open.Some? {
      LookedTracks(cfg, s);
    } else {
      LooksIdle(cfg, s, calls - 2);
    }
  }

  /** A member's request to load the campaign: the campaign is loaded with everybody that
      is connected, and if that succeeds a recovery is asked for. Of the two commands'
      store calls, `loads` and `begins` succeed before one fails. */
  function LoadRequestOp(cfg: Config, t: Table, s: System, connection: nat, loads: nat, begins: nat): System {
    var i := ConnectionIndex(t, connection);
    if i == |t| || t[i].admitted.None? || t[i].admitted.value.campaign != cfg.campaign then s
    else
      var presence := BuildPresence(t, cfg.campaign);
      var loaded := LoadCampaignOp(cfg, s, presence, loads);
      if loaded.state.None? then loaded.s
      else
        var running := loaded.state == Some(Running) || loaded.state == Some(Checkpointing);
        BeginRecoveryOp(cfg, loaded.s, LossReport(t[i].admitted.value, presence, running, true), begins).s
  }

  lemma AskerIsStored(cfg: Config, t: Table, s: System, i: nat)
    requires Valid(cfg, s) && TableInv(t) && i < |t| && t[i].admitted.Some?
    requires t[i].admitted.value.campaign == cfg.campaign && Gathered(cfg, s.d, BuildPresence(t, cfg.campaign))
    ensures t[i].admitted.value.Record() in s.d.slots
  {
    hide InStep, SlotsApart, LoadAggregate, EvaluateFullRoster, Replay, FullPresence, TableInv, ValidRoster, Sound,
      BuildPresence, MemberIndex;
    ServiceStands(cfg, s);
    GatheredIff(cfg, s, BuildPresence(t, cfg.campaign));
    ReplayIsSound(cfg, s.d.journal);
    RulesOfCurrent(cfg, Past(cfg, s.d));
    AdmittedIsMember(cfg, t, Current(Past(cfg, s.d)), i);
    ListedIff(Current(Past(cfg, s.d)), t[i].admitted.value.Record());
    StoredRoster(cfg, s.d);
  }

  /** Whether a load request is heard: its campaign loads and is complete. */
  lemma HeardIff(cfg: Config, t: Table, s: System, i: nat, loads: nat)
    requires Valid(cfg, s) && Past(cfg, s.d).open.None?
    ensures var presence := BuildPresence(t, cfg.campaign);
            var loaded := LoadCampaignOp(cfg, s, presence, loads);
            && loaded.s == s && (loaded.state.Some? <==> loads >= 3)
            && (Gathered(cfg, s.d, presence) && loads >= 3 ==>
                  loaded.state == Some(Running) || loaded.state == Some(Checkpointing))
  {
    hide ReconstructRecovery, InStep, SlotsApart, LoadAggregate, EvaluateFullRoster, Replay, FullPresence, Consistent,
      BuildPresence;
    var presence := BuildPresence(t, cfg.campaign);
    ServiceStands(cfg, s);
    ValidIsConsistent(cfg, s);
    GatheredIff(cfg, s, presence);
    if loads >= 2 {
      GateWhenIdle(cfg, s, loads - 2);
      assert s.(v := s.v) == s;
    }
  }

  /** With no attempt open, an admitted member's request to load the campaign opens one
      exactly if the roster is complete, the store answers three calls of the load and four
      of the recovery and has a revision left. It then gives up an active checkpoint; the
      history gains that attempt and nothing else. Otherwise the store stays as it was. */
  lemma LoadRequestOpensIff(cfg: Config, t: Table, s: System, connection: nat, i: nat, loads: nat, begins: nat)
    requires Valid(cfg, s) && TableInv(t) && i == ConnectionIndex(t, connection) < |t| && Past(cfg, s.d).open.None?
    requires t[i].admitted.Some? && t[i].admitted.value.campaign == cfg.campaign
    ensures var next := LoadRequestOp(cfg, t, s, connection, loads, begins);
            var heard := Gathered(cfg, s.d, BuildPresence(t, cfg.campaign)) && loads >= 3 && begins >= 3;
            if heard && begins >= 4 && s.d.revision < MAX_REVISION then
              && next.v == Volatile(None, Some(RecoveryActivity(s.d.revision + 1, RecoveryLock, CampaignLoadRequested,
                                                                None, 0, None, {}, {}, {}, {})))
              && Stands(cfg, next.d)
              && Past(cfg, next.d) == Past(cfg, s.d).(revision := s.d.revision + 1,
                                                      open := Some(Attempt(s.d.revision + 1, false, {}, {})))
            else next == (if heard then s.(v := Volatile(None, None)) else s)
  {
    hide ReconstructRecovery, InStep, SlotsApart, LoadAggregate, EvaluateFullRoster, Replay, FullPresence, TableInv,
      BuildPresence, ConnectionIndex, BeginRecoveryOp, LoadCampaignOp, Journals;
    var presence := BuildPresence(t, cfg.campaign);
    HeardIff(cfg, t, s, i, loads);
    var loaded := LoadCampaignOp(cfg, s, presence, loads);
    if loads >= 3 {
      var running := loaded.state == Some(Running) || loaded.state == Some(Checkpointing);
      var c := LossReport(t[i].admitted.value, presence, running, true);
      if Gathered(cfg, s.d, presence) {
        AskerIsStored(cfg, t, s, i);
      }
      if begins >= 3 {
        BeginAnswer(cfg, s, c, begins);
      } else {
        TooFewBegins(cfg, s, c, begins);
      }
    }
  }

  lemma TooFewBegins(cfg: Config, s: System, c: LossReport, calls: nat)
    requires Valid(cfg, s) && Past(cfg, s.d).open.None? && calls < 3
    ensures BeginRecoveryOp(cfg, s, c, calls).s == s
  {
    hide ReconstructRecovery, InStep, SlotsApart, LoadAggregate, EvaluateFullRoster, Replay, Consistent, OpenRecovery;
    ValidIsConsistent(cfg, s);
    GateWhenIdle(cfg, s, calls);
    assert s.(v := s.v) == s;
  }
}
