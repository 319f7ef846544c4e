/** Losing a connection: what the admission service does to the runtime. */
module RosterLoss {
  import opened Basics
  import opened CampaignState
  import opened FullRoster
  import opened CampaignAdmission
  import opened CampaignStore
  import opened CampaignHistory
  import opened RuntimeModel
  import opened RuntimeInvariants
  import opened RecoveryRebuild
  import opened RuntimeSafety
  import RecoverySafety
  import opened RuntimeRuns
  import BarrierFreshness
  import OpenAttempt

  /** What a disconnect reports about the member it loses: the presences that are
      left, once its connection is gone from the table. */
  function ReportLoss(t: Table, connection: nat, m: Member, running: bool): LossReport {
    LossReport(m, BuildPresence(Departed(t, connection), m.campaign), running, false)
  }

  datatype RuntimeState = Waiting | Running | Checkpointing | Locked | Restoring

  /** What loading a campaign leaves of the service, and the state it reports, if it
      succeeds. */
  datatype Loaded = Loaded(s: System, state: Option<RuntimeState>)

  /** Two store calls for the aggregate, and those that rebuild an open recovery. */
  function LoadCampaignOp(cfg: Config, s: System, presence: seq<Presence>, calls: nat): Loaded {
    if calls < 2 || LoadAggregate(cfg, s.d).None? then Loaded(s, None)
    else
      var g := ReconstructRecovery(cfg, s, calls - 2);
      var s1 := s.(v := g.v);
      if g.failure.Some? then Loaded(s1, None)
      else if g.v.recovery.Some? then
        Loaded(s1, Some(if g.v.recovery.value.stage == RecoveryLock then Locked else Restoring))
      else if g.v.active.Some? then Loaded(s1, Some(Checkpointing))
      else Loaded(s1, Some(if Full(cfg, s.d, presence) then Running else Waiting))
  }

  /** The presences are exactly the stored roster. */
  predicate Full(cfg: Config, d: Durable, presence: seq<Presence>) {
    LoadAggregate(cfg, d).Some? && EvaluateFullRoster(LoadAggregate(cfg, d).value, presence) == Eligible
  }

  /** Dropping a connection: the campaign is loaded while the connection still counts,
      and the loss is reported as that of a running campaign if the load said so. Of
      the two commands' store calls, `loads` and `begins` succeed before one fails. */
  function DisconnectOp(cfg: Config, t: Table, s: System, connection: nat, loads: nat, begins: nat): System {
    var i := ConnectionIndex(t, connection);
    if i == |t| || t[i].admitted.None? || t[i].admitted.value.campaign != cfg.campaign then s
    else
      var loaded := LoadCampaignOp(cfg, s, BuildPresence(t, cfg.campaign), loads);
      var running := loaded.state == Some(Running) || loaded.state == Some(Checkpointing);
      BeginRecoveryOp(cfg, loaded.s, ReportLoss(t, connection, t[i].admitted.value, running), begins).s
  }

  lemma AdmittedIsMember(cfg: Config, t: Table, a: Aggregate, i: nat)
    requires TableInv(t) && ValidRoster(a.roster) && i < |t|
    requires t[i].admitted.Some? && t[i].admitted.value.campaign == a.id
    requires EvaluateFullRoster(a, BuildPresence(t, a.id)) == Eligible
    ensures a.sealed && MemberIndex(a.roster, t[i].admitted.value.Record()) < |a.roster|
  {
    hide EvaluateFullRoster, ValidRoster;
    var m := t[i].admitted.value;
    EligibleIff(a, BuildPresence(t, a.id));
    PresenceIsAdmitted(t, a.id);
    AdmittedMembers(t, a.id, m);
    assert m in multiset(Expected(a));
    var k :| 0 <= k < |Expected(a)| && Expected(a)[k] == m;
    assert a.roster[k].Record() == m.Record();
  }

  /** An accepted loss is journaled, gives up an active checkpoint and opens an attempt. */
  lemma LossOpens(cfg: Config, s: System, c: LossReport, calls: nat)
    requires Valid(cfg, s) && Past(cfg, s.d).open.None? && s.d.revision < MAX_REVISION && calls >= 4
    requires c.member.campaign == cfg.campaign && c.running && !c.loadRequested && s.d.sealed
    requires MemberIndex(Current(Past(cfg, s.d)).roster, c.member.Record()) < |Current(Past(cfg, s.d)).roster|
    requires EvaluateFullRoster(Current(Past(cfg, s.d)), c.presence) != Eligible
    ensures var r := BeginRecoveryOp(cfg, s, c, calls);
            && r.reply.error == NoError
            && r.s.v == Volatile(None, Some(Opened(s.d.revision + 1)))
            && Stands(cfg, r.s.d)
            && Past(cfg, r.s.d) == Past(cfg, s.d).(revision := s.d.revision + 1,
                                                   open := Some(Attempt(s.d.revision + 1, false, {}, {})))
  {
    hide ReconstructRecovery, LoadAggregate, Stands, ApplyMutation, Replay, Apart, EvaluateFullRoster, Tracks,
      SlotsApart, Sound, ValidRoster, MemberIndex, BeginRecoveryOp;
    ValidIsConsistent(cfg, s);
    StandsAtRevision(cfg, s.d);
    LoadIsCurrent(cfg, s.d);
    SealedAlike(cfg, s.d);
    NoGateWhenIdle(cfg, s, calls);
    RecoverySafety.MemberIsListed(Past(cfg, s.d).campaign.roster, c.member.Record());
    ReportIsAccepted(cfg, s, c, Current(Past(cfg, s.d)), calls);
    RecoverySafety.BeginStands(cfg, s.d, c);
    BeginSucceeds(cfg, s.d, c);
  }

  lemma SealedAlike(cfg: Config, d: Durable)
    requires Stands(cfg, d)
    ensures d.sealed == Past(cfg, d).campaign.sealed
  {
    hide Replay;
  }

  lemma ReportIsAccepted(cfg: Config, s: System, c: LossReport, a: Aggregate, calls: nat)
    requires var g := ReconstructRecovery(cfg, s, calls);
             g.failure.None? && g.v == s.v && g.v.recovery.None? && g.left >= 3
    requires LoadAggregate(cfg, s.d) == Some(a) && a.sealed && MemberIndex(a.roster, c.member.Record()) < |a.roster|
    requires c.member.campaign == cfg.campaign && c.running && !c.loadRequested
    requires EvaluateFullRoster(a, c.presence) != Eligible
    ensures exists left: nat :: left >= 1 && BeginRecoveryOp(cfg, s, c, calls) == OpenRecovery(s, c, a, left)
  {
    hide ReconstructRecovery, LoadAggregate, EvaluateFullRoster, MemberIndex, OpenRecovery;
    var g := ReconstructRecovery(cfg, s, calls);
    assert s.(v := g.v) == s;
    assert BeginRecoveryOp(cfg, s, c, calls) == OpenRecovery(s, c, a, g.left - 2);
  }

  /** What a loss that is not accepted leaves alone. */
  lemma LossRefused(cfg: Config, s: System, c: LossReport, calls: nat)
    requires Consistent(cfg, s) && Past(cfg, s.d).open.None?
    requires !c.running || calls < 4 || s.d.revision == MAX_REVISION
             || EvaluateFullRoster(Current(Past(cfg, s.d)), c.presence) == Eligible
             || MemberIndex(Current(Past(cfg, s.d)).roster, c.member.Record()) == |Current(Past(cfg, s.d)).roster|
    requires !c.loadRequested
    ensures BeginRecoveryOp(cfg, s, c, calls).s.d == s.d
  {
    hide ReconstructRecovery, LoadAggregate, Stands, ApplyMutation, Replay, Apart, EvaluateFullRoster, Tracks,
      MemberIndex;
    StandsAtRevision(cfg, s.d);
    LoadIsCurrent(cfg, s.d);
    GateWhenIdle(cfg, s, calls);
    if s.d.revision == MAX_REVISION {
      JournalIsAccounted(cfg, s.d.journal);
      FreshMutation(s.d, BeginAt(s.d.revision));
      NoRevisionLeft(s.d, RecoverySafety.BeginRequest(s.d.revision, c));
    }
  }

  lemma NoRevisionLeft(d: Durable, q: Request)
    requires q.content.RevisionOnly? && d.revision == MAX_REVISION && JournalIndex(d.journal, q.mutation) == |d.journal|
    ensures ApplyMutation(d, q).error != Stored
  {
    hide JournalIndex;
  }

  lemma GateWhenIdle(cfg: Config, s: System, calls: nat)
    requires Consistent(cfg, s) && Past(cfg, s.d).open.None?
    ensures var g := ReconstructRecovery(cfg, s, calls);
            && g.v == s.v && s.v.recovery.None? && (g.failure.None? <==> calls >= 1)
            && (g.failure.None? ==> g.left == calls - 1)
  {
    hide Apart, Replay, ScanJournal, Stands;
    StandsAtRevision(cfg, s.d);
    RebuildIsExact(cfg, s, calls);
    ScanFindsAttempt(cfg, s.d.journal);
  }

  lemma LoadKeeps(cfg: Config, s: System, presence: seq<Presence>, calls: nat)
    requires Consistent(cfg, s)
    ensures LoadCampaignOp(cfg, s, presence, calls).s.d == s.d
            && Consistent(cfg, LoadCampaignOp(cfg, s, presence, calls).s)
  {
    hide ReconstructRecovery, LoadAggregate, Full, Apart, Replay;
    if calls >= 2 {
      ReconstructKeeps(cfg, s, calls - 2);
    }
  }

  /** With no attempt open, loading says that the campaign runs exactly when its three
      store calls succeed and it has an active checkpoint or its full roster. */
  lemma RunsIff(cfg: Config, s: System, presence: seq<Presence>, calls: nat)
    requires Consistent(cfg, s) && Past(cfg, s.d).open.None?
    ensures var r := LoadCampaignOp(cfg, s, presence, calls);
            && r.s == s
            && (r.state == Some(Running) || r.state == Some(Checkpointing) <==>
                calls >= 3 && (s.v.active.Some? || Full(cfg, s.d, presence)))
  {
    hide ReconstructRecovery, LoadAggregate, EvaluateFullRoster, Apart, Replay, Stands;
    LoadIsCurrent(cfg, s.d);
    if calls >= 2 {
      GateWhenIdle(cfg, s, calls - 2);
      assert s.(v := s.v) == s;
    }
  }

  /** Losing a member's connection is journaled exactly when no attempt is open, the
      store answers long enough for both commands and has a revision left, the campaign
      was running, and its roster, which has the member, is not full without it.
      Otherwise the store stays as it was. */
  lemma DisconnectJournalsIff(cfg: Config, t: Table, s: System, connection: nat, i: nat, loads: nat, begins: nat)
    requires Valid(cfg, s) && i == ConnectionIndex(t, connection) < |t|
    requires t[i].admitted.Some? && t[i].admitted.value.campaign == cfg.campaign
    ensures var next := DisconnectOp(cfg, t, s, connection, loads, begins);
            var roster := Current(Past(cfg, s.d)).roster;
            var journaled :=
              && Past(cfg, s.d).open.None? && loads >= 3 && begins >= 4 && s.d.revision < MAX_REVISION
              && (s.v.active.Some? || Full(cfg, s.d, BuildPresence(t, cfg.campaign)))
              && MemberIndex(roster, t[i].admitted.value.Record()) < |roster|
              && !Full(cfg, s.d, BuildPresence(Departed(t, connection), cfg.campaign));
            if journaled
            then && next.v == Volatile(None, Some(Opened(s.d.revision + 1))) && Stands(cfg, next.d)
                 && Past(cfg, next.d) == Past(cfg, s.d).(revision := s.d.revision + 1,
                                                         open := Some(Attempt(s.d.revision + 1, false, {}, {})))
            else next.d == s.d
  {
    hide LoadAggregate, Stands, Replay, EvaluateFullRoster, Tracks, SlotsApart, BuildPresence, Departed, MemberIndex,
      BeginRecoveryOp, LoadCampaignOp, ConnectionIndex, Apart;
    ValidIsConsistent(cfg, s);
    StandsAtRevision(cfg, s.d);
    LoadIsCurrent(cfg, s.d);
    var presence := BuildPresence(t, cfg.campaign);
    var loaded := LoadCampaignOp(cfg, s, presence, loads);
    LoadKeeps(cfg, s, presence, loads);
    var running := loaded.state == Some(Running) || loaded.state == Some(Checkpointing);
    var c := ReportLoss(t, connection, t[i].admitted.value, running);
    if Past(cfg, s.d).open.Some? {
      OpenAttempt.LossKeepsStore(cfg, loaded.s, c, begins);
    } else {
      RunsIff(cfg, s, presence, loads);
      if running {
        RunningIsSealed(cfg, s, presence);
      }
      if running && begins >= 4 && s.d.revision < MAX_REVISION && !Full(cfg, s.d, c.presence)
         && MemberIndex(Current(Past(cfg, s.d)).roster, c.member.Record()) < |Current(Past(cfg, s.d)).roster| {
        LossOpens(cfg, s, c, begins);
      } else {
        IndexInRoster(Current(Past(cfg, s.d)), c.member);
        LossRefused(cfg, s, c, begins);
      }
    }
  }

  lemma IndexInRoster(a: Aggregate, m: Member)
    ensures MemberIndex(a.roster, m.Record()) <= |a.roster|
  {
  }

  lemma RunningIsSealed(cfg: Config, s: System, presence: seq<Presence>)
    requires Valid(cfg, s) && (s.v.active.Some? || Full(cfg, s.d, presence))
    ensures s.d.sealed
  {
    hide Replay, SlotsApart, LoadAggregate, EvaluateFullRoster;
    ReplayIsSound(cfg, s.d.journal);
    LoadIsCurrent(cfg, s.d);
    SealedAlike(cfg, s.d);
    EligibleIff(Current(Past(cfg, s.d)), presence);
  }

  /** So a member dropping out of a full roster locks the campaign unless the store
      fails or has no revision left: the loss is then missed. */
  lemma DisconnectLocks(cfg: Config, t: Table, s: System, connection: nat, i: nat, loads: nat, begins: nat)
    requires Valid(cfg, s) && TableInv(t) && i == ConnectionIndex(t, connection) < |t|
    requires t[i].admitted.Some? && t[i].admitted.value.campaign == cfg.campaign
    requires Full(cfg, s.d, BuildPresence(t, cfg.campaign)) && Past(cfg, s.d).open.None?
    ensures var next := DisconnectOp(cfg, t, s, connection, loads, begins);
            if loads >= 3 && begins >= 4 && s.d.revision < MAX_REVISION
            then && next.v == Volatile(None, Some(Opened(s.d.revision + 1))) && Stands(cfg, next.d)
                 && Past(cfg, next.d).open == Some(Attempt(s.d.revision + 1, false, {}, {}))
            else next.d == s.d
  {
    hide LoadAggregate, Replay, EvaluateFullRoster, SlotsApart, BuildPresence, Departed, MemberIndex, Stands, Tracks,
      DisconnectOp, TableInv, ValidRoster, Sound, ConnectionIndex;
    DisconnectJournalsIff(cfg, t, s, connection, i, loads, begins);
    StandsAtRevision(cfg, s.d);
    LoadIsCurrent(cfg, s.d);
    ReplayIsSound(cfg, s.d.journal);
    var a := Current(Past(cfg, s.d));
    RulesOfCurrent(cfg, Past(cfg, s.d));
    FoundConnection(t, connection);
    LossIsObserved(t, a, connection, i);
    AdmittedIsMember(cfg, t, a, i);
  }

  lemma FoundConnection(t: Table, connection: nat)
    ensures ConnectionIndex(t, connection) < |t| ==> t[ConnectionIndex(t, connection)].connection == connection
  {
  }

  lemma RulesOfCurrent(cfg: Config, h: History)
    requires Sound(cfg, h)
    ensures ValidRoster(Current(h).roster) && Current(h).id == cfg.campaign
  {
  }

  lemma NoGateWhenIdle(cfg: Config, s: System, calls: nat)
    requires Consistent(cfg, s) && Past(cfg, s.d).open.None? && calls >= 2
    ensures var g := ReconstructRecovery(cfg, s, calls);
            g.failure.None? && g.v == s.v && g.v.recovery.None? && g.left >= calls - 1
  {
    hide Apart, Replay, ScanJournal, Stands;
    StandsAtRevision(cfg, s.d);
    RebuildIsExact(cfg, s, calls);
    ScanFindsAttempt(cfg, s.d.journal);
  }

  lemma BeginSucceeds(cfg: Config, d: Durable, c: LossReport)
    requires Stands(cfg, d) && d.revision < MAX_REVISION
    ensures ApplyMutation(d, RecoverySafety.BeginRequest(d.revision, c)).error == Stored
  {
    hide Replay, Stands;
    StandsAtRevision(cfg, d);
    JournalIsAccounted(cfg, d.journal);
    FreshMutation(d, BeginAt(d.revision));
  }

  /** While an attempt is open, known or not, a disconnect takes it back to its lock
      and empties both barriers, so nobody's earlier proof counts. */
  lemma DisconnectRelocks(cfg: Config, t: Table, s: System, connection: nat, m: Member, running: bool, calls: nat)
    requires Valid(cfg, s) && m.campaign == cfg.campaign && Past(cfg, s.d).open.Some? && calls >= 3
    ensures var r := BeginRecoveryOp(cfg, s, ReportLoss(t, connection, m, running), calls);
            && r.reply.error == NoError && r.s.d == s.d
            && r.s.v.recovery.Some? && r.s.v.recovery.value.stage == RecoveryLock
            && r.s.v.recovery.value.loaded == {} == r.s.v.recovery.value.applied
            && r.s.v.recovery.value.attempt == Past(cfg, s.d).open.value.entry
  {
    hide ReconstructRecovery, Stands, Replay, Apart, SlotsApart, StartRecovery, BuildPresence, Departed;
    ValidIsConsistent(cfg, s);
    StandsAtRevision(cfg, s.d);
    ReconstructKeeps(cfg, s, calls);
    BarrierFreshness.LockedIsEmpty(cfg, s, calls);
    KnownOrRebuilt(cfg, s, calls);
  }

  lemma KnownOrRebuilt(cfg: Config, s: System, calls: nat)
    requires Consistent(cfg, s) && Past(cfg, s.d).open.Some? && calls >= 3
    ensures var g := ReconstructRecovery(cfg, s, calls); g.failure.None? && g.v.recovery.Some? && g.left >= 1
  {
    hide Apart, Replay, ScanJournal, Stands, AckedSlots;
    StandsAtRevision(cfg, s.d);
    if s.v.recovery.None? {
      RebuildIsExact(cfg, s, calls);
    }
  }
}
