/** Exactly which messages each step of the service sends to a member's client, and what
    asking again gets it. */
module RecoveryMessages {
  import opened Basics
  import opened CampaignState
  import opened CampaignStore
  import opened CampaignHistory
  import opened RuntimeModel
  import opened RuntimeInvariants
  import opened RuntimeSafety
  import opened RuntimeRuns
  import opened RecoveryProgress
  import opened EditAnswers
  import opened RecoveryAnswers
  import opened BarrierAnswers
  import RecoveryComposition
  import RecoveryFollow
  import RecoveryRelease
  import RC = RecoveryClient

  lemma OpenEntry(cfg: Config, s: System)
    requires Valid(cfg, s) && Past(cfg, s.d).open.Some?
    ensures Looked(cfg, s).recovery.Some?
    ensures var a, h := Looked(cfg, s).recovery.value, Past(cfg, s.d);
            && a.attempt == h.open.value.entry
            && (a.checkpoint.Some? ==> a.checkpoint == h.lastCommitted)
            && (a.stage == ApplyingSnapshot ==> a.checkpoint.Some? && a.restore == Some(a.attempt + 1))
  {
    hide Replay, InStep, SlotsApart, Looked;
    LookedTracks(cfg, s);
  }

  /** The messages of a service with this of the attempt. */
  lemma DispatchedWith(s: System, a: RecoveryActivity)
    ensures RecoveryComposition.Dispatched(With(s, a), NoDispatch) == {}
    ensures a.checkpoint.Some? ==>
              RecoveryComposition.Dispatched(With(s, a), NativeLoad) ==
              {RC.LoadRequest(a.attempt, a.checkpoint.value, a.source)}
    ensures a.checkpoint.Some? && a.restore.Some? ==>
              RecoveryComposition.Dispatched(With(s, a), RestoredSnapshot) ==
              {RC.Snapshot(a.attempt, a.checkpoint.value, a.restore.value)}
  {
  }

  lemma SentOf(cfg: Config, s: System, me: Id)
    ensures forall presence, calls ::
              RecoveryComposition.Sends(cfg, s, DoPrepare(presence, calls), me) ==
              RecoveryComposition.Dispatched(PrepareRecoveryOp(cfg, s, presence, calls).s,
                                             PrepareRecoveryOp(cfg, s, presence, calls).dispatch)
    ensures forall c, calls ::
              RecoveryComposition.Sends(cfg, s, DoRecordLoaded(c, calls), me) ==
              RecoveryComposition.Dispatched(RecordLoadedOp(cfg, s, c, calls).s,
                                             RecordLoadedOp(cfg, s, c, calls).dispatch)
  {
    hide PrepareRecoveryOp, RecordLoadedOp, RecoveryComposition.Dispatched;
  }

  lemma NothingDispatched(s: System)
    ensures RecoveryComposition.Dispatched(s, NoDispatch) == {}
  {
  }

  /** A preparation with everybody present sends the restored snapshot while it is being
      applied, and otherwise the request to load the committed checkpoint, if there is one;
      nothing else. */
  lemma SentOnPrepare(cfg: Config, s: System, presence: seq<Presence>, calls: nat, me: Id)
    requires Valid(cfg, s) && calls >= 5
    ensures var h := Past(cfg, s.d);
            var sent := RecoveryComposition.Sends(cfg, s, DoPrepare(presence, calls), me);
            if h.open.None? || !FullPresence(cfg, s.d.slots, presence) || h.lastCommitted.None? then sent == {}
            else
              var m, id := h.open.value.entry, h.lastCommitted.value;
              && id in h.saved && Looked(cfg, s).recovery.Some?
              && sent == if Looked(cfg, s).recovery.value.stage == ApplyingSnapshot then {RC.Snapshot(m, id, m + 1)}
                         else {RC.LoadRequest(m, id, h.saved[id].campaign.version)}
  {
    hide Replay, InStep, SlotsApart, Looked, FullPresence, PrepareRecoveryOp, RecoveryComposition.Sends,
      RecoveryComposition.Dispatched, LoadAggregate, Stands;
    ServiceStands(cfg, s);
    SentOf(cfg, s, me);
    PrepareAnswer(cfg, s, presence, calls);
    NothingDispatched(PrepareRecoveryOp(cfg, s, presence, calls).s);
    var h := Past(cfg, s.d);
    if h.open.Some? {
      OpenEntry(cfg, s);
      var a := Looked(cfg, s).recovery.value;
      if h.lastCommitted.Some? {
        SourceOfCommitted(cfg, s.d);
        DispatchedWith(s, LoadingOf(a, h.lastCommitted.value, h.saved[h.lastCommitted.value].campaign.version));
      }
      DispatchedWith(s, a.(reason := NoReason));
    }
  }

  /** After the restore, a load reported again has exactly the restored snapshot sent, and
      leaves the store and the activity as they are. */
  lemma SentOnLateLoad(cfg: Config, s: System, c: LoadedReport, calls: nat, me: Id)
    requires Valid(cfg, s) && s.v.recovery.Some? && s.v.recovery.value.stage == ApplyingSnapshot && calls >= 3
    requires LoadPasses(cfg, s, s.v.recovery.value, c)
    ensures RecoveryComposition.Sends(cfg, s, DoRecordLoaded(c, calls), me) ==
            {RC.Snapshot(c.attempt, c.checkpoint, c.attempt + 1)}
    ensures Exec(cfg, s, DoRecordLoaded(c, calls)) == s
  {
    hide Replay, InStep, SlotsApart, FullPresence, RecordLoadedOp, Known, Looked;
    ServiceStands(cfg, s);
    LooksKnown(cfg, s, calls);
    LateLoadAnswer(cfg, s, s.v.recovery.value, c, calls);
    OpenEntry(cfg, s);
  }

  lemma FiringSends(cfg: Config, s: System, a: RecoveryActivity, id: Id, replied: Reply, r: RecoveryResult)
    requires Replay(cfg, s.d.journal).Some? && Fires(cfg, s, a, id, replied, r) && a.checkpoint == Some(id)
    ensures RecoveryComposition.Dispatched(r.s, r.dispatch) ==
            if Past(cfg, s.d).open.value.restored
               || s.d.revision != MAX_REVISION then {RC.Snapshot(a.attempt, id, a.attempt + 1)}
            else {}
  {
    hide Replay, Stands, BarrierAnswers.Restored;
  }

  lemma LoadSends(cfg: Config, s: System, a: RecoveryActivity, c: LoadedReport, calls: nat)
    requires Valid(cfg, s) && s.v.recovery == Some(a) && LoadPasses(cfg, s, a, c)
    requires a.stage == LoadingNativeSaves && calls >= 7
    ensures var r := RecordLoadedOp(cfg, s, c, calls);
            var h := Past(cfg, s.d);
            && h.open.Some?
            && RecoveryComposition.Dispatched(r.s, r.dispatch) ==
               if a.loaded + {c.actor.slot} == SlotIds(h.campaign)
                  && (h.open.value.restored || s.d.revision != MAX_REVISION)
               then {RC.Snapshot(c.attempt, c.checkpoint, c.attempt + 1)} else {}
  {
    hide Replay, InStep, SlotsApart, FullPresence, RecordLoadedOp, Known, SlotIds, Fires, LoadAggregate, Project,
      RecoveryComposition.Dispatched;
    ServiceStands(cfg, s);
    LoadAnswer(cfg, s, a, c, calls);
    var h := Past(cfg, s.d);
    var slot := c.actor.slot;
    var r := RecordLoadedOp(cfg, s, c, calls);
    var replied := Reply(NoError, Stored, s.d.revision, false, slot in a.durableLoaded);
    var d :| && Stands(cfg, d) && Past(cfg, d) == WithLoad(h, slot)
             && if a.loaded + {slot} == SlotIds(h.campaign)
                then Fires(cfg, With(s.(d := d), CountsLoad(a, slot)), CountsLoad(a, slot), c.checkpoint, replied, r)
                else r == RecoveryResult(With(s.(d := d), CountsLoad(a, slot)), replied, NoDispatch, false, false);
    StandsAtRevision(cfg, d);
    NothingDispatched(r.s);
    if a.loaded + {slot} == SlotIds(h.campaign) {
      FiringSends(cfg, With(s.(d := d), CountsLoad(a, slot)), CountsLoad(a, slot), c.checkpoint, replied, r);
    }
  }

  /** The load that completes the roster has the restored snapshot sent, if there was a
      revision left to restore it at; every other load sends nothing. */
  lemma SentOnLoad(cfg: Config, s: System, c: LoadedReport, calls: nat, me: Id)
    requires Valid(cfg, s) && calls >= 7
    requires s.v.recovery.Some? ==> s.v.recovery.value.stage != ApplyingSnapshot
                                    || !LoadPasses(cfg, s, s.v.recovery.value, c)
    ensures var h := Past(cfg, s.d);
            RecoveryComposition.Sends(cfg, s, DoRecordLoaded(c, calls), me) ==
            if && s.v.recovery.Some? && LoadPasses(cfg, s, s.v.recovery.value, c) && h.open.Some?
               && s.v.recovery.value.loaded + {c.actor.slot} == SlotIds(h.campaign)
               && (h.open.value.restored || s.d.revision != MAX_REVISION)
            then {RC.Snapshot(c.attempt, c.checkpoint, c.attempt + 1)} else {}
  {
    hide Replay, InStep, SlotsApart, FullPresence, RecordLoadedOp, Known, Looked, SlotIds, LoadAggregate,
      RecoveryComposition.Dispatched, RecoveryComposition.Sends;
    ServiceStands(cfg, s);
    SentOf(cfg, s, me);
    NothingDispatched(RecordLoadedOp(cfg, s, c, calls).s);
    if s.v.recovery.Some? && LoadPasses(cfg, s, s.v.recovery.value, c) {
      LoadSends(cfg, s, s.v.recovery.value, c, calls);
    } else {
      LoadRefused(cfg, s, c, calls);
      if Past(cfg, s.d).open.Some? {
        NotPassing(cfg, s, c);
      }
    }
  }

  /** A load reported before the service has looked for its attempt does not pass. */
  lemma NotPassing(cfg: Config, s: System, c: LoadedReport)
    requires Valid(cfg, s) && Past(cfg, s.d).open.Some?
    requires s.v.recovery.Some? ==> !LoadPasses(cfg, s, s.v.recovery.value, c)
    ensures Looked(cfg, s).recovery.Some? && !LoadPasses(cfg, s, Looked(cfg, s).recovery.value, c)
  {
    hide Replay, InStep, SlotsApart, FullPresence, Known;
  }

  /** The receipt that completes the roster has the completion sent to everybody; a later
      one for the completed attempt, to its own member; every other receipt sends nothing. */
  lemma SentOnReceipt(cfg: Config, s: System, c: AppliedReport, calls: nat, me: Id)
    requires Valid(cfg, s) && calls >= 5
    ensures var h := Past(cfg, s.d);
            RecoveryComposition.Sends(cfg, s, DoRecordApplied(c, calls), me) ==
            if (if h.open.Some?
                then && s.v.recovery.Some? && ReceiptPasses(cfg, s, s.v.recovery.value, c)
                     && s.v.recovery.value.applied + {c.actor.slot} == SlotIds(h.campaign)
                else && c.checkpoint in h.saved && c.actor.Record() in s.d.slots && c.actor.slot == me
                     && RecoveryComposition.Ended(s.d.journal, c.attempt, c.checkpoint, c.restore))
            then {RC.Complete(c.attempt, c.checkpoint, c.restore)} else {}
  {
    hide Replay, InStep, SlotsApart, FullPresence, RecordAppliedOp, Looked, SlotIds, ReconstructRecovery,
      RecoveryComposition.Ended, LoadAggregate;
    ServiceStands(cfg, s);
    LooksAlways(cfg, s, calls);
    if Past(cfg, s.d).open.None? {
      LateReceiptAnswer(cfg, s, c, calls);
    } else {
      ReceiptSends(cfg, s, c, calls);
    }
  }

  lemma ReceiptSends(cfg: Config, s: System, c: AppliedReport, calls: nat)
    requires Valid(cfg, s) && calls >= 5 && Past(cfg, s.d).open.Some?
    ensures RecordAppliedOp(cfg, s, c, calls).completed <==>
            && s.v.recovery.Some? && ReceiptPasses(cfg, s, s.v.recovery.value, c)
            && s.v.recovery.value.applied + {c.actor.slot} == SlotIds(Past(cfg, s.d).campaign)
  {
    hide Replay, InStep, SlotsApart, FullPresence, RecordAppliedOp, SlotIds;
    if s.v.recovery.Some? && ReceiptPasses(cfg, s, s.v.recovery.value, c) {
      ReceiptAnswer(cfg, s, s.v.recovery.value, c, calls);
    } else {
      ReceiptRefused(cfg, s, c, calls);
    }
  }

  /*
   * A lost snapshot
   */

  lemma ProofOf(cfg: Config, s: System, i: nat, id: Id) returns (proof: Artifact)
    requires Valid(cfg, s) && Past(cfg, s.d).lastCommitted == Some(id) && i < |s.d.slots|
    ensures Known(Past(cfg, s.d), id, MemberAt(cfg, s.d.slots, i), proof)
  {
    hide Replay, SlotsApart, ExactArtifact, SlotRecords, SlotsDistinct;
    CommittedStands(cfg, s.d, id);
    proof := s.d.checkpoints[id].slots[i].artifact.value;
    assert s.d.checkpoints[id].slots[i].Record() == SlotRecords(s.d.checkpoints[id].slots)[i];
    IsExact(cfg, s.d, id, i);
    CommittedProof(cfg, s.d, id, i, MemberAt(cfg, s.d.slots, i), proof);
  }

  lemma IsExact(cfg: Config, d: Durable, id: Id, i: nat)
    requires Committed(cfg, d, id) && i < |d.checkpoints[id].slots|
    ensures d.checkpoints[id].slots[i].artifact.Some?
    ensures ProofMatches(cfg, d.checkpoints[id].slots[i], d.checkpoints[id].slots[i].artifact.value)
  {
    hide ExactArtifact, SlotRecords, SlotsDistinct;
  }

  /** The report of a member's load, repeated while the snapshot is applied, passes. */
  lemma RepeatedLoad(cfg: Config, s: System, i: nat, presence: seq<Presence>) returns (c: LoadedReport)
    requires Valid(cfg, s) && s.v.recovery.Some? && s.v.recovery.value.stage == ApplyingSnapshot
    requires i < |s.d.slots| && FullPresence(cfg, s.d.slots, presence)
    ensures LoadPasses(cfg, s, s.v.recovery.value, c) && c.actor.slot == s.d.slots[i].slot
  {
    hide InStep, SlotsApart, FullPresence, Looked, Known, Replay;
    ServiceStands(cfg, s);
    LooksKnown(cfg, s, 0);
    LookedTracks(cfg, s);
    var a := s.v.recovery.value;
    ApplyingHasRestore(cfg, s.d, a);
    var proof := ProofOf(cfg, s, i, a.checkpoint.value);
    c := LoadedReport(a.attempt, a.checkpoint.value, MemberAt(cfg, s.d.slots, i), true, proof, presence);
  }

  lemma AsksForSnapshot(cfg: Config, w: RecoveryComposition.World, presence: seq<Presence>, m: nat,
                        id: Id)
    returns (step: Step)
    requires RecoveryRelease.HonestInv(cfg, w) && Valid(cfg, w.server) && w.server.v.recovery.Some?
    requires w.server.v.recovery.value.stage == ApplyingSnapshot && w.server.v.recovery.value.attempt == m
    requires w.server.v.recovery.value.checkpoint == Some(id)
    requires RecoveryComposition.LoadedSave(m, id) in w.deeds
    requires RecoveryRelease.Listed(w.server.d.slots, w.me) && FullPresence(cfg, w.server.d.slots, presence)
    ensures RecoveryRelease.HonestMove(w, RecoveryComposition.Server(step))
    ensures RecoveryComposition.Advance(cfg, w, RecoveryComposition.Server(step)) ==
            w.(sent := w.sent + {RC.Snapshot(m, id, m + 1)})
  {
    hide RecoveryRelease.HonestInv, Valid, FullPresence, Exec, Known, RecoveryComposition.Sends;
    var i :| 0 <= i < |w.server.d.slots| && w.server.d.slots[i].slot == w.me;
    var c := RepeatedLoad(cfg, w.server, i, presence);
    SentOnLateLoad(cfg, w.server, c, PLENTY, w.me);
    step := DoRecordLoaded(c, PLENTY);
  }

  /** While the snapshot is applied and everybody is present, a client that has loaded the
      attempt's save and whose snapshot was lost gets it by its member's repeated report,
      and applies it. */
  lemma AskingAgainApplies(cfg: Config, w: RecoveryComposition.World, presence: seq<Presence>, m: nat,
                           id: Id)
    returns (moves: seq<RecoveryComposition.Move>)
    requires RecoveryRelease.HonestInv(cfg, w) && w.server.v.recovery.Some?
    requires w.server.v.recovery.value.stage == ApplyingSnapshot && w.server.v.recovery.value.attempt == m
    requires w.server.v.recovery.value.checkpoint == Some(id)
    requires RecoveryFollow.HasLoaded(w.client, m, id) && RecoveryComposition.LoadedSave(m, id) in w.deeds
    requires RecoveryRelease.Listed(w.server.d.slots, w.me) && FullPresence(cfg, w.server.d.slots, presence)
    ensures RecoveryRelease.HonestRun(cfg, w, moves)
    ensures var last := RecoveryComposition.Result(cfg, w, moves);
            last.server == w.server && RecoveryFollow.HasApplied(last.client, m, id)
  {
    RecoveryFollow.ServerIsValid(cfg, w);
    var step := AsksForSnapshot(cfg, w, presence, m, id);
    hide RecoveryRelease.HonestInv, Valid, FullPresence, Exec, RecoveryFollow.HasLoaded, RecoveryFollow.HasApplied,
      RecoveryRelease.HonestRun, RecoveryRelease.HonestMove, RecoveryComposition.Result, Replay, SlotsApart,
      RecoveryComposition.Advance, RecoveryRelease.Listed;
    RecoveryRelease.ValidIsApart(cfg, w.server);
    RecoveryFollow.OneMove(cfg, w, RecoveryComposition.Server(step));
    RecoveryRelease.HonestMoveKeeps(cfg, w, RecoveryComposition.Server(step));
    var next := w.(sent := w.sent + {RC.Snapshot(m, id, m + 1)});
    var rest := RecoveryFollow.ReachApplied(cfg, next, m, id);
    RecoveryFollow.HonestAppend(cfg, w, [RecoveryComposition.Server(step)], rest);
    moves := [RecoveryComposition.Server(step)] + rest;
  }
}
