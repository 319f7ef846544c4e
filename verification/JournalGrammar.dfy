/** The shape of a recovery attempt in the journal: it begins, every slot loads
    once, it restores once, every slot applies once, it completes. Nothing else
    is journaled in between. */
module JournalGrammar {
  import opened Basics
  import opened CampaignState
  import opened CampaignStore
  import opened CampaignHistory
  import opened RuntimeModel

  /** The slot a record acknowledges. */
  function AckedSlot(r: Record): Id {
    match r.payload
    case RecoveryLoaded(_, _, proof) => proof.slot
    case SnapshotApplied(_, _, _, member) => member.slot
    case _ => []
  }

  /** An acknowledgement, of the given kind, for an attempt and its checkpoint. */
  predicate Acknowledges(r: Record, loads: bool, attempt: nat, checkpoint: Option<Id>) {
    && r.expected == r.resulting
    && match r.payload
       case RecoveryLoaded(n, c, _) => loads && n == attempt && Some(c) == checkpoint
       case SnapshotApplied(n, c, restore, _) =>
         !loads && n == attempt && Some(c) == checkpoint && restore == attempt + 1
       case _ => false
  }

  /** The records in a stretch of the journal acknowledge each of the slots once. */
  ghost predicate EachOnce(journal: seq<Record>, from: nat, to: nat, loads: bool, attempt: nat, checkpoint: Option<Id>,
                           slots: set<Id>)
  {
    && from <= to <= |journal|
    && (forall i :: from <= i < to ==>
          Acknowledges(journal[i], loads, attempt, checkpoint) && AckedSlot(journal[i]) in slots)
    && (forall i, k :: from <= i < k < to ==> AckedSlot(journal[i]) != AckedSlot(journal[k]))
    && (forall x :: x in slots ==> exists i :: from <= i < to && AckedSlot(journal[i]) == x)
  }

  predicate BeginsAt(journal: seq<Record>, b: nat, attempt: nat) {
    b < |journal| && journal[b].payload.BeginRecovery? && journal[b].resulting == attempt
  }

  predicate RestoresAt(journal: seq<Record>, m: nat, attempt: nat, checkpoint: Option<Id>) {
    && m < |journal| && checkpoint.Some?
    && journal[m].payload == RestoreCheckpoint(attempt, checkpoint.value) && journal[m].resulting == attempt + 1
  }

  /** The journal of an open attempt: it began at `b` and, if restored, at `m`. */
  ghost predicate Unfolds(h: History, journal: seq<Record>, b: nat, m: nat) {
    && h.open.Some?
    && var o := h.open.value;
       && BeginsAt(journal, b, o.entry) && b < m <= |journal|
       && if o.restored then
            && EachOnce(journal, b + 1, m, true, o.entry, h.lastCommitted, SlotIds(h.campaign))
            && RestoresAt(journal, m, o.entry, h.lastCommitted)
            && EachOnce(journal, m + 1, |journal|, false, o.entry, h.lastCommitted, o.applied)
          else
            m == |journal| && EachOnce(journal, b + 1, m, true, o.entry, h.lastCommitted, o.loaded)
  }

  lemma EachOnceLonger(journal: seq<Record>, r: Record, from: nat, to: nat, loads: bool, attempt: nat,
                       checkpoint: Option<Id>, slots: set<Id>)
    requires EachOnce(journal, from, to, loads, attempt, checkpoint, slots)
    ensures EachOnce(journal + [r], from, to, loads, attempt, checkpoint, slots)
  {
    var longer := journal + [r];
    assert forall i :: 0 <= i < |journal| ==> longer[i] == journal[i];
    forall x | x in slots ensures exists i :: from <= i < to && AckedSlot(longer[i]) == x {
      var i :| from <= i < to && AckedSlot(journal[i]) == x;
      assert AckedSlot(longer[i]) == x;
    }
  }

  lemma EachOnceMore(journal: seq<Record>, r: Record, from: nat, loads: bool, attempt: nat, checkpoint: Option<Id>,
                     slots: set<Id>)
    requires EachOnce(journal, from, |journal|, loads, attempt, checkpoint, slots)
    requires Acknowledges(r, loads, attempt, checkpoint) && AckedSlot(r) !in slots
    ensures EachOnce(journal + [r], from, |journal| + 1, loads, attempt, checkpoint, slots + {AckedSlot(r)})
  {
    var longer := journal + [r];
    assert forall i :: 0 <= i < |journal| ==> longer[i] == journal[i];
    assert longer[|journal|] == r;
    forall x | x in slots + {AckedSlot(r)} ensures exists i :: from <= i < |longer| && AckedSlot(longer[i]) == x {
      if x in slots {
        var i :| from <= i < |journal| && AckedSlot(journal[i]) == x;
        assert AckedSlot(longer[i]) == x;
      } else {
        assert AckedSlot(longer[|journal|]) == x;
      }
    }
  }

  lemma NothingYet(journal: seq<Record>, from: nat, loads: bool, attempt: nat, checkpoint: Option<Id>)
    requires from == |journal|
    ensures EachOnce(journal, from, from, loads, attempt, checkpoint, {})
  {
  }

  /** How one more record changes an open attempt. */
  lemma OpenStep(cfg: Config, h: History, r: Record)
    requires Sound(cfg, h) && Next(cfg, h, r).Some? && h.open.Some?
    ensures var next := Next(cfg, h, r).value;
            var o := h.open.value;
            && next.lastCommitted == h.lastCommitted
            && (next.open.Some? ==>
                  && next.open.value.entry == o.entry && SlotIds(next.campaign) == SlotIds(h.campaign)
                  && (o.restored ==> next.open.value.restored)
                  && (r.payload.RecoveryLoaded? ==>
                        && !next.open.value.restored && Acknowledges(r, true, o.entry, h.lastCommitted)
                        && AckedSlot(r) !in o.loaded && next.open.value.loaded == o.loaded + {AckedSlot(r)})
                  && (r.payload.SnapshotApplied? ==>
                        && o.restored && Acknowledges(r, false, o.entry, h.lastCommitted)
                        && AckedSlot(r) !in o.applied && next.open.value.applied == o.applied + {AckedSlot(r)})
                  && (!r.payload.RecoveryLoaded? && !r.payload.SnapshotApplied? ==>
                        && !o.restored && next.open.value.restored && o.loaded == SlotIds(h.campaign) && o.applied == {}
                        && next.open.value.applied == {}
                        && h.lastCommitted.Some? && r.payload == RestoreCheckpoint(o.entry, h.lastCommitted.value)
                        && r.resulting == o.entry + 1))
  {
    hide CampaignCoreCodec.CoreBytes, CampaignCoreCodec.IntentBytes, Apply, SoundCampaign, CheckpointSlots;
    if r.payload.RestoreCheckpoint? {
      CheckpointHasRosterSlots(cfg, h, r.payload.checkpoint);
    }
  }

  lemma OpensWithBegin(cfg: Config, h: History, r: Record)
    requires Next(cfg, h, r).Some? && h.open.None? && Next(cfg, h, r).value.open.Some?
    ensures r.payload.BeginRecovery? && Next(cfg, h, r).value.open.value == Attempt(r.resulting, false, {}, {})
  {
    hide CampaignCoreCodec.CoreBytes, CampaignCoreCodec.IntentBytes, Apply;
  }

  /** The journal of an open attempt has the prescribed shape, up to now. */
  lemma {:induction false} OpenAttemptUnfolds(cfg: Config, journal: seq<Record>) returns (b: nat, m: nat)
    requires Replay(cfg, journal).Some? && Replay(cfg, journal).value.open.Some?
    ensures Unfolds(Replay(cfg, journal).value, journal, b, m)
  {
    hide Next, Sound, Created, EachOnce, Acknowledges, AckedSlot, SlotIds;
    b, m := 0, 0;
    var n := |journal| - 1;
    if n == 0 {
      CreatedHasNoAttempt(cfg, journal[0]);
    } else {
      var front, r := journal[..n], journal[n];
      assert journal == front + [r];
      var h, next := Replay(cfg, front).value, Replay(cfg, journal).value;
      ReplayIsSound(cfg, front);
      if h.open.None? {
        OpensWithBegin(cfg, h, r);
        b, m := n, n + 1;
        NothingYet(journal, n + 1, true, r.resulting, next.lastCommitted);
      } else {
        b, m := OpenAttemptUnfolds(cfg, front);
        OpenStep(cfg, h, r);
        m := UnfoldStep(cfg, h, next, front, r, b, m);
      }
    }
  }

  lemma CreatedHasNoAttempt(cfg: Config, r: Record)
    requires Created(cfg, r).Some?
    ensures Created(cfg, r).value.open.None?
  {
  }

  lemma UnfoldStep(cfg: Config, h: History, next: History, front: seq<Record>, r: Record, b: nat, m: nat)
    returns (m': nat)
    requires Sound(cfg, h) && Next(cfg, h, r) == Some(next) && h.open.Some? && next.open.Some?
    requires Unfolds(h, front, b, m)
    ensures Unfolds(next, front + [r], b, m')
  {
    hide Next, Sound, EachOnce, Acknowledges, AckedSlot, SlotIds;
    OpenStep(cfg, h, r);
    var o := h.open.value;
    var journal := front + [r];
    m' := m;
    assert journal[b] == front[b];
    if r.payload.RecoveryLoaded? {
      EachOnceMore(front, r, b + 1, true, o.entry, h.lastCommitted, o.loaded);
      m' := m + 1;
    } else if r.payload.SnapshotApplied? {
      assert journal[m] == front[m];
      EachOnceLonger(front, r, b + 1, m, true, o.entry, h.lastCommitted, SlotIds(h.campaign));
      EachOnceMore(front, r, m + 1, false, o.entry, h.lastCommitted, o.applied);
    } else {
      EachOnceLonger(front, r, b + 1, m, true, o.entry, h.lastCommitted, o.loaded);
      assert journal[m] == r;
      NothingYet(journal, m + 1, false, o.entry, h.lastCommitted);
    }
  }

  lemma CompletionNeedsAll(cfg: Config, h: History, r: Record)
    requires Sound(cfg, h) && Next(cfg, h, r).Some? && r.payload.CompleteRecovery?
    ensures h.open.Some? && h.open.value.restored && h.open.value.applied == SlotIds(h.campaign)
    ensures h.open.value.entry == r.payload.attempt && h.lastCommitted == Some(r.payload.checkpoint)
    ensures r.payload.restore == r.payload.attempt + 1 == r.resulting
  {
    hide SoundCampaign;
    CheckpointHasRosterSlots(cfg, h, r.payload.checkpoint);
  }

  /** A completion in the journal proves the whole attempt: it began, every roster
      slot loaded once, the checkpoint was restored once, every slot applied it
      once, and nothing else happened in between. */
  lemma CompletedAttempt(cfg: Config, journal: seq<Record>, k: nat) returns (b: nat, m: nat, slots: set<Id>)
    requires Replay(cfg, journal).Some? && 0 < k < |journal| && journal[k].payload.CompleteRecovery?
    ensures var p := journal[k].payload;
            && b < m < k && BeginsAt(journal, b, p.attempt)
            && EachOnce(journal, b + 1, m, true, p.attempt, Some(p.checkpoint), slots)
            && RestoresAt(journal, m, p.attempt, Some(p.checkpoint))
            && EachOnce(journal, m + 1, k, false, p.attempt, Some(p.checkpoint), slots)
            && p.restore == p.attempt + 1
            && Replay(cfg, journal[..k]).Some? && slots == SlotIds(Replay(cfg, journal[..k]).value.campaign)
  {
    hide Next, Sound, EachOnce, Acknowledges, AckedSlot, SlotIds, Created;
    ReplayPrefix(cfg, journal, k + 1);
    ReplayPrefix(cfg, journal, k);
    var front := journal[..k];
    assert journal[..k + 1][..k] == front && journal[..k + 1][k] == journal[k];
    var h := Replay(cfg, front).value;
    ReplayIsSound(cfg, front);
    CompletionNeedsAll(cfg, h, journal[k]);
    b, m := OpenAttemptUnfolds(cfg, front);
    slots := SlotIds(h.campaign);
    var p := journal[k].payload;
    EachOnceWithin(front, journal, b + 1, m, true, p.attempt, Some(p.checkpoint), slots);
    EachOnceWithin(front, journal, m + 1, k, false, p.attempt, Some(p.checkpoint), slots);
  }

  lemma EachOnceWithin(front: seq<Record>, journal: seq<Record>, from: nat, to: nat, loads: bool, attempt: nat,
                       checkpoint: Option<Id>, slots: set<Id>)
    requires front <= journal && EachOnce(front, from, to, loads, attempt, checkpoint, slots)
    ensures EachOnce(journal, from, to, loads, attempt, checkpoint, slots)
  {
    assert forall i :: 0 <= i < |front| ==> journal[i] == front[i];
    forall x | x in slots ensures exists i :: from <= i < to && AckedSlot(journal[i]) == x {
      var i :| from <= i < to && AckedSlot(front[i]) == x;
      assert AckedSlot(journal[i]) == x;
    }
  }

  lemma {:induction false} ReplayPrefix(cfg: Config, journal: seq<Record>, n: nat)
    requires Replay(cfg, journal).Some? && 0 < n <= |journal|
    ensures Replay(cfg, journal[..n]).Some?
    decreases |journal|
  {
    hide Next, Created;
    if n == |journal| {
      assert journal[..n] == journal;
    } else {
      var front := journal[..|journal| - 1];
      ReplayPrefix(cfg, front, n);
      assert front[..n] == journal[..n];
    }
  }
}
