/** Operations whose store fails before they are done: what they leave behind is
    finished by repeating them. */
module FailingCalls {
  import opened Basics
  import opened CampaignState
  import opened FullRoster
  import opened CampaignStore
  import opened CampaignHistory
  import opened RuntimeModel
  import opened RuntimeInvariants
  import opened RecoveryRebuild
  import opened RuntimeSafety
  import opened RecoverySafety
  import opened RuntimeRuns
  import opened CheckpointProgress
  import opened RecoveryProgress
  import opened EditAnswers
  import opened CheckpointAnswers
  import opened RecoveryAnswers
  import opened BarrierAnswers
  import RetryTransparency

  /** As many store calls as any operation makes. */
  const ALL_CALLS := 9

  /*
   * Looking for the open attempt
   */

  lemma LookCut(cfg: Config, s: System, calls: nat)
    requires Valid(cfg, s)
    ensures var g := ReconstructRecovery(cfg, s, calls);
            g == Gate(s.v, Some(CALL_FAILED), 0) || (g.failure.None? && g.v == Looked(cfg, s) && g.left <= calls)
  {
    hide Valid, ScanJournal, AckedSlots, LoadCheckpoint, LoadLastCommitted, Replay, Looked;
    LooksAlways(cfg, s, 2);
    if calls >= 2 {
      LooksAlways(cfg, s, calls);
    }
  }

  /** Having looked, looking again finds the same. */
  lemma LookAgain(cfg: Config, s: System, calls: nat)
    requires Valid(cfg, s) && calls >= 2
    ensures var s1 := s.(v := Looked(cfg, s));
            var g := ReconstructRecovery(cfg, s1, calls);
            && Exec(cfg, s, DoObserve(calls)) == s1 && Valid(cfg, s1) && Looked(cfg, s1) == s1.v
            && g.failure.None? && g.v == s1.v && calls - 2 <= g.left
  {
    hide Valid, Replay, ReconstructRecovery, Looked;
    var s1 := s.(v := Looked(cfg, s));
    ObservedIsValid(cfg, s);
    LooksAlways(cfg, s, calls);
    LooksAlways(cfg, s1, calls);
    if s1.v.recovery.Some? {
      LooksKnown(cfg, s1, calls);
    } else {
      IdleStays(cfg, s);
    }
  }

  lemma ObservedIsValid(cfg: Config, s: System)
    requires Valid(cfg, s)
    ensures Valid(cfg, s.(v := Looked(cfg, s)))
  {
    hide Valid, ReconstructRecovery, Replay;
    LooksAlways(cfg, s, 2);
    ValidApart(cfg, s, DoObserve(2));
    ExecKeepsValid(cfg, s, DoObserve(2));
  }

  lemma ValidApart(cfg: Config, s: System, step: Step)
    requires Valid(cfg, s) && Exec(cfg, s, step).d == s.d
    ensures SlotsApart(cfg, Exec(cfg, s, step).d)
  {
    hide InStep, SlotsApart, Exec;
  }

  lemma IdleStays(cfg: Config, s: System)
    requires Valid(cfg, s) && Looked(cfg, s).recovery.None?
    ensures Looked(cfg, s) == s.v
  {
    hide Valid, ReconstructRecovery, Replay, Looked;
    LooksAlways(cfg, s, 2);
    LooksIdle(cfg, s, 2);
  }

  /*
   * Edits and beginning a checkpoint leave everything as it was
   */

  /** An edit does all of it or, when a store call fails, nothing. */
  lemma EditAllOrNothing(cfg: Config, s: System, c: Command, calls: nat, enough: nat)
    requires Valid(cfg, s) && enough >= ALL_CALLS
    ensures EditOp(cfg, s, c, calls) in {EditOp(cfg, s, c, enough), EditResult(s, CALL_FAILED)}
  {
    hide Valid, ReconstructRecovery, Replay, Looked, FindReplay, LoadAggregate, Apply, PersistNoOp, PersistEdit;
    LookCut(cfg, s, calls);
    LooksAlways(cfg, s, enough);
    assert s.(v := s.v) == s;
    if Looked(cfg, s).recovery.None? {
      IdleStays(cfg, s);
    }
  }

  /** So does the beginning of a checkpoint. */
  lemma CheckpointAllOrNothing(cfg: Config, s: System, c: Id, identity: Id, presence: seq<Presence>, calls: nat,
                               enough: nat)
    requires Valid(cfg, s) && enough >= ALL_CALLS
    ensures BeginCheckpointOp(cfg, s, c, identity, presence, calls) in
            {BeginCheckpointOp(cfg, s, c, identity, presence, enough), CheckpointResult(s, CALL_FAILED, false)}
  {
    hide Valid, ReconstructRecovery, Replay, Looked, LoadAggregate, EvaluateFullRoster, CreateCheckpointCandidate;
    LookCut(cfg, s, calls);
    LooksAlways(cfg, s, enough);
    assert s.(v := s.v) == s;
    if Looked(cfg, s).recovery.None? {
      IdleStays(cfg, s);
    }
  }

  /** And the report that a save failed. */
  lemma FailureAllOrNothing(cfg: Config, s: System, checkpoint: Id, identity: Id, actor: Member, calls: nat,
                            enough: nat)
    requires Valid(cfg, s) && enough >= ALL_CALLS
    ensures FailCheckpointOp(cfg, s, checkpoint, identity, actor, calls) in
            {FailCheckpointOp(cfg, s, checkpoint, identity, actor, enough), CheckpointResult(s, CALL_FAILED, false)}
  {
    hide Valid, ReconstructRecovery, Replay, Looked, ReportMatches, MemberSlotIndex;
    LookCut(cfg, s, calls);
    LooksAlways(cfg, s, enough);
    assert s.(v := s.v) == s;
    if Looked(cfg, s).recovery.None? {
      IdleStays(cfg, s);
    }
  }

  /*
   * Recovery
   */

  lemma RelockedAgain(a: RecoveryActivity, loadRequested: bool)
    ensures Relocked(Relocked(a, loadRequested), loadRequested) == Relocked(a, loadRequested)
  {
  }

  lemma OpenCut(s: System, c: LossReport, a: Aggregate, calls: nat, enough: nat)
    requires enough >= 1
    ensures OpenRecovery(s, c, a, calls) in
            {OpenRecovery(s, c, a, enough), CutShort(s.(v := s.v.(active := None)))}
    ensures OpenRecovery(s.(v := s.v.(active := None)), c, a, enough) == OpenRecovery(s, c, a, enough)
  {
    hide ApplyMutation;
  }

  lemma StartCut(cfg: Config, s: System, c: LossReport, calls: nat, enough: nat)
    requires enough >= 3
    ensures var idle := s.(v := s.v.(active := None));
            && StartRecovery(cfg, s, c, calls) in {StartRecovery(cfg, s, c, enough), CutShort(s), CutShort(idle)}
            && (StartRecovery(cfg, s, c, calls) == CutShort(idle) ==>
                  StartRecovery(cfg, idle, c, enough) == StartRecovery(cfg, s, c, enough))
  {
    hide LoadAggregate, EvaluateFullRoster, OpenRecovery, MemberIndex;
    var loaded := LoadAggregate(cfg, s.d);
    if loaded.Some? {
      OpenCut(s, c, loaded.value, if calls >= 2 then calls - 2 else 0, enough - 2);
    }
  }

  /** The loss or load request ended what it ended, and doing it again does the rest. */
  lemma BeginsAgain(cfg: Config, s: System, c: LossReport, calls: nat, enough: nat)
    requires Valid(cfg, s) && enough >= ALL_CALLS
    ensures var r, f := BeginRecoveryOp(cfg, s, c, calls), BeginRecoveryOp(cfg, s, c, enough);
            r == f || (r == CutShort(r.s) && BeginRecoveryOp(cfg, r.s, c, enough) == f)
  {
    hide Valid, ReconstructRecovery, Replay, Looked, StartRecovery, Relocked;
    LookCut(cfg, s, calls);
    LooksAlways(cfg, s, enough);
    assert s.(v := s.v) == s;
    var g := ReconstructRecovery(cfg, s, calls);
    if Looked(cfg, s).recovery.None? {
      IdleStays(cfg, s);
      StartCut(cfg, s, c, g.left, enough - 1);
      StartCut(cfg, s, c, enough - 1, enough - 1);
      LookIdleAgain(cfg, s, enough);
    } else {
      var a := Looked(cfg, s).recovery.value;
      RelockedAgain(a, c.loadRequested);
      KnownAgain(cfg, s.(v := Looked(cfg, s)), Relocked(a, c.loadRequested), enough);
    }
  }

  /** Without an active checkpoint an idle service finds as little to recover. */
  lemma LookIdleAgain(cfg: Config, s: System, calls: nat)
    requires Valid(cfg, s) && Looked(cfg, s).recovery.None? && calls >= 2
    ensures var idle := s.(v := s.v.(active := None));
            ReconstructRecovery(cfg, idle, calls) == Gate(idle.v, None, calls - 1)
  {
    hide Valid, ReconstructRecovery, Replay, Looked;
    LooksAlways(cfg, s, calls);
    ValidApart(cfg, s, DoAbandon);
    ExecKeepsValid(cfg, s, DoAbandon);
    LooksIdle(cfg, s.(v := s.v.(active := None)), calls);
  }

  lemma KnownAgain(cfg: Config, s: System, a: RecoveryActivity, calls: nat)
    ensures ReconstructRecovery(cfg, Recovering(s, a), calls) == Gate(Recovering(s, a).v, None, calls)
  {
    hide ScanJournal, Rebuild;
  }

  /** Preparing only looks, so it can be done again. */
  lemma PreparesAgain(cfg: Config, s: System, presence: seq<Presence>, calls: nat, enough: nat)
    requires Valid(cfg, s) && enough >= ALL_CALLS
    ensures var r, f := PrepareRecoveryOp(cfg, s, presence, calls), PrepareRecoveryOp(cfg, s, presence, enough);
            r == f || (r == CutShort(r.s) && PrepareRecoveryOp(cfg, r.s, presence, enough) == f)
  {
    hide Valid, ReconstructRecovery, Replay, Looked, LoadAggregate, EvaluateFullRoster, Recoverable, StartLoading,
      LoadCheckpoint, LoadLastCommitted;
    LookCut(cfg, s, calls);
    LooksAlways(cfg, s, enough);
    LookAgain(cfg, s, enough);
    assert s.(v := s.v) == s;
  }

  /*
   * Loads
   */

  lemma FireCut(cfg: Config, s: System, a: RecoveryActivity, c: Checkpoint, reply: Reply, calls: nat)
    ensures FireRestore(cfg, s, a, c, reply, calls) in {FireRestore(cfg, s, a, c, reply, 3), CutShort(s)}
    ensures calls >= 3 ==> FireRestore(cfg, s, a, c, reply, calls) == FireRestore(cfg, s, a, c, reply, 3)
    ensures forall b :: FireRestore(cfg, s, a, c, reply.(replay := b), 3) == FireRestore(cfg, s, a, c, reply, 3)
    ensures forall n :: FireRestore(cfg, s, a, c, reply.(version := n), 3) == FireRestore(cfg, s, a, c, reply, 3)
  {
    hide JournalIndex, RestoredCore, RestoreSnapshot;
  }

  lemma AcknowledgeCut(cfg: Config, s: System, a: RecoveryActivity, version: nat, k: Checkpoint, x: CheckpointSlot,
                       calls: nat, enough: nat)
    requires enough >= 4 && s.v == Volatile(None, Some(a))
    ensures var d := LoadWritten(cfg, s, a, k, x).d;
            var s1 := With(s.(d := d), CountsLoad(a, x.slot));
            var replied := FromWritten(LoadWritten(cfg, s, a, k, x));
            var r := AcknowledgeLoad(cfg, s, a, s.d.revision, k, x, calls);
            var f := AcknowledgeLoad(cfg, s, a, s.d.revision, k, x, enough);
            || r == f || r == CutShort(s)
            || (r == CutShort(s1) && a.stage != ApplyingSnapshot && |s1.v.recovery.value.loaded| == |k.slots|
                && f == FireRestore(cfg, s1, s1.v.recovery.value, k, replied, 3))
    ensures calls >= 4 ==>
              AcknowledgeLoad(cfg, s, a, s.d.revision, k, x, calls) ==
              AcknowledgeLoad(cfg, s, a, s.d.revision, k, x, enough)
  {
    hide ApplyMutation, FireRestore;
    var durable := x.slot in a.durableLoaded;
    var w := LoadWritten(cfg, s, a, k, x);
    var a1 := CountsLoad(a, x.slot);
    var s1 := With(s.(d := w.d), a1);
    var b := durable || x.slot in a.loaded;
    var reply := FromWritten(w).(replay := b);
    FireCut(cfg, s1, a1, k, FromWritten(w), 3);
    FireCut(cfg, s1, a1, k, reply, if durable then calls else if calls >= 1 then calls - 1 else 0);
    FireCut(cfg, s1, a1, k, reply, if durable then enough else enough - 1);
    assert Recovering(s.(d := w.d), a1) == s1;
  }

  /** A load report that is counted, in terms of what the store holds. */
  predicate LoadCounts(cfg: Config, s: System, a: RecoveryActivity, c: LoadedReport) {
    && Meant(cfg, a, c.attempt, c.checkpoint, c.actor) && c.checkpoint in s.d.checkpoints
    && LoadAggregate(cfg, s.d).Some?
    && EvaluateFullRoster(LoadAggregate(cfg, s.d).value, c.presence) == Eligible
    && c.succeeded && a.stage != RecoveryLock
    && var slots := s.d.checkpoints[c.checkpoint].slots;
       var i := MemberSlotIndex(slots, c.actor);
       i < |slots| && ProofMatches(cfg, slots[i], c.proof)
  }

  lemma LoadCases(cfg: Config, s: System, a: RecoveryActivity, c: LoadedReport, calls: nat, enough: nat)
    requires s.v == Volatile(None, Some(a)) && enough >= 3
    ensures var r, f := RecordLoadedOp(cfg, s, c, calls), RecordLoadedOp(cfg, s, c, enough);
            if LoadCounts(cfg, s, a, c) then
              var k := s.d.checkpoints[c.checkpoint];
              var x := k.slots[MemberSlotIndex(k.slots, c.actor)];
              var version := LoadAggregate(cfg, s.d).value.version;
              && f == AcknowledgeLoad(cfg, s, a, version, k, x, enough - 3)
              && r == if calls < 3 then CutShort(s) else AcknowledgeLoad(cfg, s, a, version, k, x, calls - 3)
            else r in {f, CutShort(s)} && (calls >= 3 ==> r == f)
  {
    hide ScanJournal, Rebuild, LoadAggregate, EvaluateFullRoster, MemberSlotIndex, ProofMatches, AcknowledgeLoad;
    if c.checkpoint in s.d.checkpoints {
      SlotIndexInRange(s.d.checkpoints[c.checkpoint].slots, c.actor);
    }
  }

  lemma CountedAgain(cfg: Config, s: System, a: RecoveryActivity, c: LoadedReport)
    requires Valid(cfg, s) && s.v == Volatile(None, Some(a)) && a.stage == LoadingNativeSaves
    requires LoadCounts(cfg, s, a, c)
    ensures var k := s.d.checkpoints[c.checkpoint];
            var i := MemberSlotIndex(k.slots, c.actor);
            var w := LoadWritten(cfg, s, a, k, k.slots[i]);
            var a1 := CountsLoad(a, k.slots[i].slot);
            && FromWritten(w) == Reply(NoError, Stored, s.d.revision, false, false) && w.d.revision == s.d.revision
            && c.checkpoint in w.d.checkpoints && w.d.checkpoints[c.checkpoint] == k
            && LoadAggregate(cfg, w.d) == LoadAggregate(cfg, s.d)
            && LoadAggregate(cfg, s.d).value.version == s.d.revision
            && LoadCounts(cfg, With(s.(d := w.d), a1), a1, c)
  {
    hide Replay, Stands, ApplyMutation, TracksRecovery, Apart, EvaluateFullRoster, MemberSlotIndex, ProofMatches,
      LoadAggregate, SlotsApart, LoadWritten;
    ValidIsConsistent(cfg, s);
    TrackedChoice(cfg, s.d, a);
    StandsAtRevision(cfg, s.d);
    var k := s.d.checkpoints[c.checkpoint];
    var i := MemberSlotIndex(k.slots, c.actor);
    SlotCount(cfg, s.d, a);
    LoadWrites(cfg, s, a, i);
    var w := LoadWritten(cfg, s, a, k, k.slots[i]);
    StandsAtRevision(cfg, w.d);
    LoadIsCurrent(cfg, s.d);
    LoadIsCurrent(cfg, w.d);
  }

  lemma SlotCount(cfg: Config, d: Durable, a: RecoveryActivity)
    requires Stands(cfg, d) && TracksRecovery(Past(cfg, d), a) && a.checkpoint.Some?
    requires a.checkpoint.value in d.checkpoints
    ensures |d.checkpoints[a.checkpoint.value].slots| == |d.slots|
  {
    hide Replay, SlotRecords;
    TrackedChoice(cfg, d, a);
    assert |SlotRecords(d.checkpoints[a.checkpoint.value].slots)| == |d.checkpoints[a.checkpoint.value].slots|;
  }

  /** A load counted before the restore failed fires the same restore when it is reported
      again. */
  lemma FiresAgain(cfg: Config, s: System, a: RecoveryActivity, c: LoadedReport, enough: nat)
    requires Valid(cfg, s) && s.v == Volatile(None, Some(a)) && a.stage == LoadingNativeSaves
    requires LoadCounts(cfg, s, a, c)
    requires enough >= 7
    ensures var k := s.d.checkpoints[c.checkpoint];
            var x := k.slots[MemberSlotIndex(k.slots, c.actor)];
            var w := LoadWritten(cfg, s, a, k, x);
            var a1 := CountsLoad(a, x.slot);
            var s1 := With(s.(d := w.d), a1);
            |a1.loaded| == |k.slots| ==>
              RecordLoadedOp(cfg, s1, c, enough) == FireRestore(cfg, s1, a1, k, FromWritten(w), 3)
  {
    hide Valid, ApplyMutation, FireRestore, RecordLoadedOp, LoadAggregate, EvaluateFullRoster, MemberSlotIndex,
      ProofMatches, LoadWritten;
    CountedAgain(cfg, s, a, c);
    var k := s.d.checkpoints[c.checkpoint];
    var x := k.slots[MemberSlotIndex(k.slots, c.actor)];
    var w := LoadWritten(cfg, s, a, k, x);
    var a1 := CountsLoad(a, x.slot);
    var s1 := With(s.(d := w.d), a1);
    LoadCases(cfg, s1, a1, c, enough, enough);
    if |a1.loaded| == |k.slots| {
      KnownLoad(cfg, s1, a1, k, x, enough - 3);
      FireCut(cfg, s1, a1, k, FromWritten(w), 3);
    }
  }

  lemma KnownLoad(cfg: Config, s: System, a: RecoveryActivity, k: Checkpoint, x: CheckpointSlot, calls: nat)
    requires s.v == Volatile(None, Some(a)) && a.stage == LoadingNativeSaves && calls >= 4
    requires x.slot in a.durableLoaded && x.slot in a.loaded && |a.loaded| == |k.slots|
    ensures AcknowledgeLoad(cfg, s, a, s.d.revision, k, x, calls) ==
            FireRestore(cfg, s, a, k, Reply(NoError, Stored, s.d.revision, false, true), 3)
  {
    hide FireRestore;
    assert a.durableLoaded + {x.slot} == a.durableLoaded && a.loaded + {x.slot} == a.loaded;
    assert a.(durableLoaded := a.durableLoaded).(loaded := a.loaded) == a;
    assert Recovering(s.(d := s.d), a) == s;
    FireCut(cfg, s, a, k, Reply(NoError, Stored, s.d.revision, false, true), calls);
  }

  /** In the second barrier a load is not counted, only answered. */
  lemma LateLoadCut(cfg: Config, s: System, a: RecoveryActivity, version: nat, k: Checkpoint, x: CheckpointSlot,
                    calls: nat, enough: nat)
    requires s.v == Volatile(None, Some(a)) && a.stage == ApplyingSnapshot && enough >= 1
    ensures AcknowledgeLoad(cfg, s, a, version, k, x, calls) in
            {AcknowledgeLoad(cfg, s, a, version, k, x, enough), CutShort(s)}
    ensures calls >= 1 ==>
              AcknowledgeLoad(cfg, s, a, version, k, x, calls) == AcknowledgeLoad(cfg, s, a, version, k, x, enough)
  {
    hide ApplyMutation;
  }

  lemma KnownLoadsAgain(cfg: Config, s: System, a: RecoveryActivity, c: LoadedReport, calls: nat, enough: nat,
                        more: nat)
    requires Valid(cfg, s) && s.v == Volatile(None, Some(a)) && enough >= 7 && more >= 7
    ensures var r, f := RecordLoadedOp(cfg, s, c, calls), RecordLoadedOp(cfg, s, c, enough);
            r == f || (r == CutShort(r.s) && RecordLoadedOp(cfg, r.s, c, more) == f)
    ensures RecordLoadedOp(cfg, s, c, more) == RecordLoadedOp(cfg, s, c, enough)
  {
    hide Valid, AcknowledgeLoad, FireRestore, RecordLoadedOp, LoadAggregate, EvaluateFullRoster, MemberSlotIndex,
      ProofMatches, LoadWritten;
    LoadCases(cfg, s, a, c, calls, enough);
    LoadCases(cfg, s, a, c, more, enough);
    if LoadCounts(cfg, s, a, c) {
      var k := s.d.checkpoints[c.checkpoint];
      var x := k.slots[MemberSlotIndex(k.slots, c.actor)];
      var version := LoadAggregate(cfg, s.d).value.version;
      if a.stage == ApplyingSnapshot {
        LateLoadCut(cfg, s, a, version, k, x, if calls < 3 then 0 else calls - 3, enough - 3);
        LateLoadCut(cfg, s, a, version, k, x, more - 3, enough - 3);
      } else {
        CountedAgain(cfg, s, a, c);
        AcknowledgeCut(cfg, s, a, version, k, x, if calls < 3 then 0 else calls - 3, enough - 3);
        AcknowledgeCut(cfg, s, a, version, k, x, more - 3, enough - 3);
        FiresAgain(cfg, s, a, c, more);
      }
    }
  }

  /** A load report cut short may have counted its member already; repeating it does what
      was left, down to the answer. */
  lemma LoadsAgain(cfg: Config, s: System, c: LoadedReport, calls: nat, enough: nat)
    requires Valid(cfg, s) && enough >= ALL_CALLS
    ensures var r, f := RecordLoadedOp(cfg, s, c, calls), RecordLoadedOp(cfg, s, c, enough);
            r == f || (r == CutShort(r.s) && RecordLoadedOp(cfg, r.s, c, enough) == f)
  {
    hide Valid, ReconstructRecovery, RecordLoadedOp, Looked, LoadAggregate, Replay;
    LookCut(cfg, s, calls);
    LooksAlways(cfg, s, enough);
    LookAgain(cfg, s, enough);
    LoadGateOnly(cfg, s, c, calls);
    LoadGateOnly(cfg, s, c, enough);
    if Looked(cfg, s).recovery.Some? {
      var s1 := s.(v := Looked(cfg, s));
      AloneWhenLooked(cfg, s);
      KnownLoadsAgain(cfg, s1, s1.v.recovery.value, c, ReconstructRecovery(cfg, s, calls).left,
                      ReconstructRecovery(cfg, s, enough).left, enough);
    }
  }

  lemma AloneWhenLooked(cfg: Config, s: System)
    requires Valid(cfg, s) && Looked(cfg, s).recovery.Some?
    ensures Looked(cfg, s) == Volatile(None, Looked(cfg, s).recovery)
  {
    hide SlotsApart, Looked, Stands, Replay;
    LookAgain(cfg, s, 2);
  }

  /** A load report depends on how the service looked only through what it found and the
      calls that are left. */
  lemma LoadGateOnly(cfg: Config, s: System, c: LoadedReport, calls: nat)
    ensures var g := ReconstructRecovery(cfg, s, calls);
            RecordLoadedOp(cfg, s, c, calls) ==
            if g.failure.Some? then RecoveryReply(s.(v := g.v), g.failure.value)
            else if g.v.recovery.None? then Turned(s.(v := g.v), RecoveryNotActive, 0)
            else RecordLoadedOp(cfg, s.(v := g.v), c, g.left)
  {
    hide ScanJournal, Rebuild, LoadAggregate, EvaluateFullRoster, CheckLoad;
  }

  /*
   * Receipts
   */

  lemma CompleteCut(s: System, a: RecoveryActivity, c: AppliedReport, calls: nat)
    ensures Complete(s, a, c, calls) == if calls < 1 then CutShort(s) else Complete(s, a, c, 1)
  {
    hide ApplyMutation;
  }

  lemma ReceiptCut(cfg: Config, s: System, a: RecoveryActivity, k: Checkpoint, x: CheckpointSlot, c: AppliedReport,
                   calls: nat, enough: nat)
    requires enough >= 2 && s.v == Volatile(None, Some(a)) && c.restore == s.d.revision
    ensures var d := ReceiptWritten(cfg, s, a, k, x).d;
            var s1 := With(s.(d := d), CountsReceipt(a, x.slot));
            var r := AcknowledgeSnapshot(cfg, s, a, s.d.revision, k, x, c, calls);
            var f := AcknowledgeSnapshot(cfg, s, a, s.d.revision, k, x, c, enough);
            || r == f || r == CutShort(s)
            || (r == CutShort(s1) && |s1.v.recovery.value.applied| == |k.slots|
                && f == Complete(s1, s1.v.recovery.value, c, 1))
    ensures calls >= 2 ==>
              AcknowledgeSnapshot(cfg, s, a, s.d.revision, k, x, c, calls) ==
              AcknowledgeSnapshot(cfg, s, a, s.d.revision, k, x, c, enough)
  {
    hide ApplyMutation, Complete;
    var durable := x.slot in a.durableApplied;
    var w := ReceiptWritten(cfg, s, a, k, x);
    var a1 := CountsReceipt(a, x.slot);
    var s1 := With(s.(d := w.d), a1);
    CompleteCut(s1, a1, c, if durable then calls else if calls >= 1 then calls - 1 else 0);
    CompleteCut(s1, a1, c, if durable then enough else enough - 1);
    assert Recovering(s.(d := w.d), a1) == s1;
  }

  /** A receipt that is counted, in terms of what the store holds. */
  predicate ReceiptCounts(cfg: Config, s: System, a: RecoveryActivity, c: AppliedReport) {
    && a.stage == ApplyingSnapshot && Meant(cfg, a, c.attempt, c.checkpoint, c.actor) && a.restore == Some(c.restore)
    && c.checkpoint in s.d.checkpoints && LoadAggregate(cfg, s.d).Some?
    && EvaluateFullRoster(LoadAggregate(cfg, s.d).value, c.presence) == Eligible
    && MemberSlotIndex(s.d.checkpoints[c.checkpoint].slots, c.actor) < |s.d.checkpoints[c.checkpoint].slots|
  }

  lemma ReceiptCases(cfg: Config, s: System, a: RecoveryActivity, c: AppliedReport, calls: nat, enough: nat)
    requires s.v == Volatile(None, Some(a)) && enough >= 3
    ensures var r, f := RecordAppliedOp(cfg, s, c, calls), RecordAppliedOp(cfg, s, c, enough);
            if ReceiptCounts(cfg, s, a, c) then
              var k := s.d.checkpoints[c.checkpoint];
              var x := k.slots[MemberSlotIndex(k.slots, c.actor)];
              var version := LoadAggregate(cfg, s.d).value.version;
              && f == AcknowledgeSnapshot(cfg, s, a, version, k, x, c, enough - 3)
              && r == if calls < 3 then CutShort(s) else AcknowledgeSnapshot(cfg, s, a, version, k, x, c, calls - 3)
            else r in {f, CutShort(s)} && (calls >= 3 ==> r == f)
  {
    hide ScanJournal, Rebuild, LoadAggregate, EvaluateFullRoster, MemberSlotIndex, AcknowledgeSnapshot;
    if c.checkpoint in s.d.checkpoints {
      SlotIndexInRange(s.d.checkpoints[c.checkpoint].slots, c.actor);
    }
  }

  lemma ReceivedAgain(cfg: Config, s: System, a: RecoveryActivity, c: AppliedReport)
    requires Valid(cfg, s) && s.v == Volatile(None, Some(a)) && ReceiptCounts(cfg, s, a, c)
    ensures c.restore == s.d.revision
    ensures var k := s.d.checkpoints[c.checkpoint];
            var i := MemberSlotIndex(k.slots, c.actor);
            var w := ReceiptWritten(cfg, s, a, k, k.slots[i]);
            var a1 := CountsReceipt(a, k.slots[i].slot);
            && w.d.revision == s.d.revision && c.checkpoint in w.d.checkpoints && w.d.checkpoints[c.checkpoint] == k
            && LoadAggregate(cfg, w.d) == LoadAggregate(cfg, s.d)
            && LoadAggregate(cfg, s.d).value.version == s.d.revision
            && ReceiptCounts(cfg, With(s.(d := w.d), a1), a1, c)
  {
    hide Replay, Stands, ApplyMutation, TracksRecovery, Apart, EvaluateFullRoster, MemberSlotIndex, LoadAggregate,
      SlotsApart, ReceiptWritten, Sound;
    ValidIsConsistent(cfg, s);
    TrackedChoice(cfg, s.d, a);
    StandsAtRevision(cfg, s.d);
    ReplayIsSound(cfg, s.d.journal);
    RestoreRevisionIsCurrent(cfg, Past(cfg, s.d), a);
    var k := s.d.checkpoints[c.checkpoint];
    var i := MemberSlotIndex(k.slots, c.actor);
    SlotCount(cfg, s.d, a);
    ReceiptWrites(cfg, s, a, i);
    var w := ReceiptWritten(cfg, s, a, k, k.slots[i]);
    StandsAtRevision(cfg, w.d);
    LoadIsCurrent(cfg, s.d);
    LoadIsCurrent(cfg, w.d);
  }

  lemma KnownReceipt(cfg: Config, s: System, a: RecoveryActivity, k: Checkpoint, x: CheckpointSlot, c: AppliedReport,
                     calls: nat)
    requires s.v == Volatile(None, Some(a)) && calls >= 2
    requires x.slot in a.durableApplied && x.slot in a.applied && |a.applied| == |k.slots|
    ensures AcknowledgeSnapshot(cfg, s, a, s.d.revision, k, x, c, calls) == Complete(s, a, c, 1)
  {
    hide Complete;
    assert a.durableApplied + {x.slot} == a.durableApplied && a.applied + {x.slot} == a.applied;
    assert a.(durableApplied := a.durableApplied, applied := a.applied) == a;
    assert Recovering(s.(d := s.d), a) == s;
    CompleteCut(s, a, c, calls);
  }

  /** A receipt counted before the completion failed completes the attempt when it is
      reported again. */
  lemma CompletesAgain(cfg: Config, s: System, a: RecoveryActivity, c: AppliedReport, enough: nat)
    requires Valid(cfg, s) && s.v == Volatile(None, Some(a)) && ReceiptCounts(cfg, s, a, c) && enough >= 5
    ensures var k := s.d.checkpoints[c.checkpoint];
            var x := k.slots[MemberSlotIndex(k.slots, c.actor)];
            var a1 := CountsReceipt(a, x.slot);
            var s1 := With(s.(d := ReceiptWritten(cfg, s, a, k, x).d), a1);
            |a1.applied| == |k.slots| ==> RecordAppliedOp(cfg, s1, c, enough) == Complete(s1, a1, c, 1)
  {
    hide Valid, ApplyMutation, Complete, RecordAppliedOp, LoadAggregate, EvaluateFullRoster, MemberSlotIndex,
      ReceiptWritten, AcknowledgeSnapshot;
    ReceivedAgain(cfg, s, a, c);
    var k := s.d.checkpoints[c.checkpoint];
    var x := k.slots[MemberSlotIndex(k.slots, c.actor)];
    var a1 := CountsReceipt(a, x.slot);
    var s1 := With(s.(d := ReceiptWritten(cfg, s, a, k, x).d), a1);
    ReceiptCases(cfg, s1, a1, c, enough, enough);
    if |a1.applied| == |k.slots| {
      KnownReceipt(cfg, s1, a1, k, x, c, enough - 3);
    }
  }

  lemma KnownReceiptsAgain(cfg: Config, s: System, a: RecoveryActivity, c: AppliedReport, calls: nat, enough: nat,
                           more: nat)
    requires Valid(cfg, s) && s.v == Volatile(None, Some(a)) && enough >= 5 && more >= 5
    ensures var r, f := RecordAppliedOp(cfg, s, c, calls), RecordAppliedOp(cfg, s, c, enough);
            r == f || (r == CutShort(r.s) && RecordAppliedOp(cfg, r.s, c, more) == f)
    ensures RecordAppliedOp(cfg, s, c, more) == RecordAppliedOp(cfg, s, c, enough)
  {
    hide Valid, AcknowledgeSnapshot, Complete, RecordAppliedOp, LoadAggregate, EvaluateFullRoster, MemberSlotIndex,
      ReceiptWritten;
    ReceiptCases(cfg, s, a, c, calls, enough);
    ReceiptCases(cfg, s, a, c, more, enough);
    if ReceiptCounts(cfg, s, a, c) {
      ReceivedAgain(cfg, s, a, c);
      var k := s.d.checkpoints[c.checkpoint];
      var x := k.slots[MemberSlotIndex(k.slots, c.actor)];
      ReceiptCut(cfg, s, a, k, x, c, if calls < 3 then 0 else calls - 3, enough - 3);
      ReceiptCut(cfg, s, a, k, x, c, more - 3, enough - 3);
      CompletesAgain(cfg, s, a, c, more);
    }
  }

  /** A receipt depends on how the service looked only through what it found and the calls
      that are left. */
  lemma ReceiptGateOnly(cfg: Config, s: System, c: AppliedReport, calls: nat)
    ensures var g := ReconstructRecovery(cfg, s, calls);
            RecordAppliedOp(cfg, s, c, calls) ==
            if g.failure.Some? then RecoveryReply(s.(v := g.v), g.failure.value)
            else if g.v.recovery.None? then AlreadyCompleted(s.(v := g.v), c, g.left)
            else RecordAppliedOp(cfg, s.(v := g.v), c, g.left)
  {
    hide ScanJournal, Rebuild, LoadAggregate, EvaluateFullRoster, AcknowledgeSnapshot, AlreadyCompleted,
      MemberSlotIndex;
    if c.checkpoint in s.d.checkpoints {
      SlotIndexInRange(s.d.checkpoints[c.checkpoint].slots, c.actor);
    }
  }

  lemma AlreadyCut(s: System, c: AppliedReport, calls: nat, enough: nat)
    requires enough >= 2
    ensures AlreadyCompleted(s, c, calls) in {AlreadyCompleted(s, c, enough), CutShort(s)}
  {
    hide MemberSlotIndex, CompletionIndex;
  }

  /** A receipt cut short may have been counted already; repeating it does what was left,
      down to the answer. */
  lemma ReceiptsAgain(cfg: Config, s: System, c: AppliedReport, calls: nat, enough: nat)
    requires Valid(cfg, s) && enough >= ALL_CALLS
    ensures var r, f := RecordAppliedOp(cfg, s, c, calls), RecordAppliedOp(cfg, s, c, enough);
            r == f || (r == CutShort(r.s) && RecordAppliedOp(cfg, r.s, c, enough) == f)
  {
    hide Valid, ReconstructRecovery, RecordAppliedOp, Looked, LoadAggregate, Replay, AlreadyCompleted;
    LookCut(cfg, s, calls);
    LooksAlways(cfg, s, enough);
    LookAgain(cfg, s, enough);
    ReceiptGateOnly(cfg, s, c, calls);
    ReceiptGateOnly(cfg, s, c, enough);
    var g, f := ReconstructRecovery(cfg, s, calls), ReconstructRecovery(cfg, s, enough);
    if Looked(cfg, s).recovery.Some? {
      var s1 := s.(v := Looked(cfg, s));
      AloneWhenLooked(cfg, s);
      KnownReceiptsAgain(cfg, s1, s1.v.recovery.value, c, g.left, f.left, enough);
    } else {
      IdleStays(cfg, s);
      assert s.(v := s.v) == s;
      AlreadyCut(s, c, g.left, f.left);
    }
  }

  /*
   * Proofs of native saves
   */

  lemma CommitCut(cfg: Config, s: System, x: CheckpointActivity, reply: Reply, calls: nat)
    ensures CommitIfComplete(cfg, s, x, reply, calls) in
            {CommitIfComplete(cfg, s, x, reply, 3), CheckpointResult(s, CALL_FAILED, false)}
    ensures calls >= 3 ==> CommitIfComplete(cfg, s, x, reply, calls) == CommitIfComplete(cfg, s, x, reply, 3)
  {
    hide CommitCandidate, ExactArtifact;
  }

  /** The same result, but for whether it was said to be new. */
  predicate SameButNew(a: CheckpointResult, b: CheckpointResult) {
    a.(reply := a.reply.(applied := b.reply.applied, replay := b.reply.replay)) == b
  }

  lemma CommitAnyway(cfg: Config, s: System, x: CheckpointActivity, a: Reply, b: Reply)
    requires a.(applied := b.applied, replay := b.replay) == b
    ensures SameButNew(CommitIfComplete(cfg, s, x, a, 3), CommitIfComplete(cfg, s, x, b, 3))
  {
    hide CommitCandidate, ExactArtifact;
  }

  lemma SlotCut(cfg: Config, s: System, x: CheckpointActivity, slot: CheckpointSlot, calls: nat, enough: nat)
    requires enough >= 6
    ensures var i := JournalIndex(s.d.journal, AcknowledgeOf(x.checkpoint, slot.slot));
            var expected := if i < |s.d.journal| then s.d.journal[i].expected else s.d.revision;
            var w := RecordSlotSave(s.d, SaveRequest(expected, x.checkpoint, slot), x.checkpoint);
            var r, f := RecordSlot(cfg, s, x, slot, calls), RecordSlot(cfg, s, x, slot, enough);
            || r == f || r == CheckpointResult(s, CALL_FAILED, false)
            || (r == CheckpointResult(s.(d := w.d), CALL_FAILED, false) && w.error == Stored
                && ExactArtifact(cfg, slot, x.identity)
                && f == CommitIfComplete(cfg, s.(d := w.d), x, FromWritten(w), 3))
  {
    hide RecordSlotSave, CommitIfComplete, ExactArtifact, JournalIndex;
    var i := JournalIndex(s.d.journal, AcknowledgeOf(x.checkpoint, slot.slot));
    var known := i < |s.d.journal|;
    var expected := if known then s.d.journal[i].expected else s.d.revision;
    var w := RecordSlotSave(s.d, SaveRequest(expected, x.checkpoint, slot), x.checkpoint);
    var used := if known then 2 else 3;
    CommitCut(cfg, s.(d := w.d), x, FromWritten(w), if calls < used then 0 else calls - used);
    CommitCut(cfg, s.(d := w.d), x, FromWritten(w), enough - used);
  }

  lemma SavedSlotAgain(slots: seq<CheckpointSlot>, m: Member, proof: Artifact)
    requires var i := MemberSlotIndex(slots, m);
             i < |slots| && CheckpointSlotIndex(slots, slots[i].slot) < |slots|
             && slots[CheckpointSlotIndex(slots, slots[i].slot)].Record() == slots[i].Record()
    ensures var i := MemberSlotIndex(slots, m);
            var saved := slots[i].(artifact := Some(proof));
            var next := slots[CheckpointSlotIndex(slots, slots[i].slot) := saved];
            MemberSlotIndex(next, m) == i && next[i].(artifact := Some(proof)) == saved
  {
    var i := MemberSlotIndex(slots, m);
    var j := CheckpointSlotIndex(slots, slots[i].slot);
    assert j <= i && i <= j;
    var saved := slots[i].(artifact := Some(proof));
    var next := slots[j := saved];
    assert forall n :: 0 <= n < i ==> next[n] == slots[n];
    IndexIs(next, m, i);
  }

  lemma IndexIs(slots: seq<CheckpointSlot>, m: Member, i: nat)
    requires i < |slots| && slots[i].Record() == m.Record()
    requires forall n :: 0 <= n < i ==> slots[n].Record() != m.Record()
    ensures MemberSlotIndex(slots, m) == i
  {
  }

  /** A proof that was stored is stored again as it was. */
  lemma StoresAgain(d: Durable, id: Id, slot: CheckpointSlot)
    requires JournalIndex(d.journal, AcknowledgeOf(id, slot.slot)) == |d.journal|
    requires RecordSlotSave(d, SaveRequest(d.revision, id, slot), id).error == Stored
    ensures var w := RecordSlotSave(d, SaveRequest(d.revision, id, slot), id);
            w.d != d ==>
              && w.d.journal == d.journal + [w.d.journal[|d.journal|]] && w.revision == d.revision + 1
              && JournalIndex(w.d.journal, AcknowledgeOf(id, slot.slot)) == |d.journal|
              && w.d.journal[|d.journal|].expected == d.revision
              && RecordSlotSave(w.d, SaveRequest(d.revision, id, slot), id) ==
                 Written(w.d, Stored, d.revision + 1, false, true)
  {
    hide JournalIndex, CheckpointSlotIndex, Storable;
    var w := RecordSlotSave(d, SaveRequest(d.revision, id, slot), id);
    if w.d != d {
      RetryTransparency.AppendedIndex(d.journal, w.d.journal[|d.journal|]);
    }
  }

  /** A save report that reaches its slot of the active checkpoint. */
  predicate SaveCounts(cfg: Config, s: System, c: SaveReport) {
    && s.v.active.Some? && ReportMatches(cfg, s.v.active.value, c.checkpoint, c.proof.identity, c.actor)
    && c.checkpoint in s.d.checkpoints
    && MemberSlotIndex(s.d.checkpoints[c.checkpoint].slots, c.actor) < |s.d.checkpoints[c.checkpoint].slots|
  }

  function ReportedSlot(d: Durable, c: SaveReport): CheckpointSlot
    requires c.checkpoint in d.checkpoints
    requires MemberSlotIndex(d.checkpoints[c.checkpoint].slots, c.actor) < |d.checkpoints[c.checkpoint].slots|
  {
    var slots := d.checkpoints[c.checkpoint].slots;
    slots[MemberSlotIndex(slots, c.actor)].(artifact := Some(c.proof))
  }

  lemma SaveGates(cfg: Config, s: System, c: SaveReport, calls: nat, enough: nat)
    requires s.v.recovery.None? && enough >= 2 && ReconstructRecovery(cfg, s, enough) == Gate(s.v, None, enough - 1)
    requires calls >= 1 ==> ReconstructRecovery(cfg, s, calls) == Gate(s.v, None, calls - 1)
    ensures var r, f := RecordSaveOp(cfg, s, c, calls), RecordSaveOp(cfg, s, c, enough);
            if SaveCounts(cfg, s, c) then
              var slot := ReportedSlot(s.d, c);
              && f == RecordSlot(cfg, s, s.v.active.value, slot, enough - 2)
              && r == if calls < 2 then CheckpointResult(s, CALL_FAILED, false)
                      else RecordSlot(cfg, s, s.v.active.value, slot, calls - 2)
            else r in {f, CheckpointResult(s, CALL_FAILED, false)}
  {
    hide ScanJournal, Rebuild, RecordSlot, MemberSlotIndex;
    if c.checkpoint in s.d.checkpoints {
      SlotIndexInRange(s.d.checkpoints[c.checkpoint].slots, c.actor);
    }
    assert s.(v := s.v) == s;
  }

  lemma StoredSlot(d: Durable, id: Id, slot: CheckpointSlot)
    requires JournalIndex(d.journal, AcknowledgeOf(id, slot.slot)) == |d.journal|
    ensures var w := RecordSlotSave(d, SaveRequest(d.revision, id, slot), id);
            w.error == Stored && w.d != d ==>
              && id in d.checkpoints && id in w.d.checkpoints
              && var slots := d.checkpoints[id].slots;
                 var j := CheckpointSlotIndex(slots, slot.slot);
                 && j < |slots| && slots[j].Record() == slot.Record()
                 && w.d.checkpoints[id].slots == slots[j := slot]
  {
    hide JournalIndex, CheckpointSlotIndex, Storable;
    if id in d.checkpoints {
      StoreIndexInRange(d.checkpoints[id].slots, slot.slot);
    }
  }

  lemma StoreIndexInRange(slots: seq<CheckpointSlot>, slot: Id)
    ensures CheckpointSlotIndex(slots, slot) <= |slots|
  {
  }

  lemma KnownSaveUnwritten(d: Durable, q: Request, id: Id)
    requires q.content.SlotSave? && JournalIndex(d.journal, q.mutation) < |d.journal|
    ensures RecordSlotSave(d, q, id).d == d
  {
    hide JournalIndex, CheckpointSlotIndex, Storable;
  }

  lemma ReportedAgain(d: Durable, next: Durable, c: SaveReport)
    requires c.checkpoint in d.checkpoints && c.checkpoint in next.checkpoints
    requires MemberSlotIndex(d.checkpoints[c.checkpoint].slots, c.actor) < |d.checkpoints[c.checkpoint].slots|
    requires var slots := d.checkpoints[c.checkpoint].slots;
             var slot := ReportedSlot(d, c);
             var j := CheckpointSlotIndex(slots, slot.slot);
             && j < |slots| && slots[j].Record() == slot.Record()
             && next.checkpoints[c.checkpoint].slots == slots[j := slot]
    ensures MemberSlotIndex(next.checkpoints[c.checkpoint].slots, c.actor) < |next.checkpoints[c.checkpoint].slots|
    ensures ReportedSlot(next, c) == ReportedSlot(d, c)
  {
    hide MemberSlotIndex, CheckpointSlotIndex;
    SavedSlotAgain(d.checkpoints[c.checkpoint].slots, c.actor, c.proof);
  }

  /** The service after a proof was stored and before the commit still finds no attempt. */
  lemma SavedIsValid(cfg: Config, s: System, c: SaveReport, calls: nat, d: Durable)
    requires Valid(cfg, s) && s.v.active.Some? && RecordSaveOp(cfg, s, c, calls).s == s.(d := d)
    requires d.slots == s.d.slots && d.sealed == s.d.sealed
    ensures Valid(cfg, s.(d := d)) && Looked(cfg, s.(d := d)) == s.v && s.v.recovery.None?
    ensures forall more :: more >= 1 ==> ReconstructRecovery(cfg, s.(d := d), more) == Gate(s.v, None, more - 1)
  {
    hide InStep, SlotsApart, RecordSaveOp, ReconstructRecovery, Looked, Replay;
    ValidIsConsistent(cfg, s);
    ExecKeepsStep(cfg, s, DoRecordSave(c, calls));
    SameSlotsApart(cfg, s.d, d);
    ActiveIsIdle(cfg, s.(d := d));
    LooksIdle(cfg, s.(d := d), 1);
    forall more | more >= 1 ensures ReconstructRecovery(cfg, s.(d := d), more) == Gate(s.v, None, more - 1) {
      LooksIdle(cfg, s.(d := d), more);
    }
  }

  lemma SameSlotsApart(cfg: Config, d: Durable, next: Durable)
    requires SlotsApart(cfg, d) && next.slots == d.slots && next.sealed == d.sealed
    ensures SlotsApart(cfg, next)
  {
  }

  lemma ActiveIsIdle(cfg: Config, s: System)
    requires Valid(cfg, s) && s.v.active.Some?
    ensures Past(cfg, s.d).open.None?
  {
    hide Replay, SlotsApart, Stands;
  }

  lemma SaveKeepsSlots(d: Durable, q: Request, id: Id)
    requires q.content.SlotSave?
    ensures RecordSlotSave(d, q, id).d.slots == d.slots && RecordSlotSave(d, q, id).d.sealed == d.sealed
  {
    hide JournalIndex, CheckpointSlotIndex, Storable;
  }

  lemma SavesOnceMore(cfg: Config, s: System, c: SaveReport, calls: nat, enough: nat)
    requires Valid(cfg, s) && SaveCounts(cfg, s, c) && enough >= ALL_CALLS
    requires ExactArtifact(cfg, ReportedSlot(s.d, c), s.v.active.value.identity)
    requires var slot := ReportedSlot(s.d, c);
             && JournalIndex(s.d.journal, AcknowledgeOf(c.checkpoint, slot.slot)) == |s.d.journal|
             && var w := RecordSlotSave(s.d, SaveRequest(s.d.revision, c.checkpoint, slot), c.checkpoint);
                w.error == Stored && w.d != s.d && RecordSaveOp(cfg, s, c, calls).s == s.(d := w.d)
    ensures var x := s.v.active.value;
            var w := RecordSlotSave(s.d, SaveRequest(s.d.revision, c.checkpoint, ReportedSlot(s.d, c)), c.checkpoint);
            SameButNew(RecordSaveOp(cfg, s.(d := w.d), c, enough),
                       CommitIfComplete(cfg, s.(d := w.d), x, FromWritten(w), 3))
  {
    hide Valid, ReconstructRecovery, RecordSaveOp, RecordSlot, RecordSlotSave, CommitIfComplete, JournalIndex,
      MemberSlotIndex, CheckpointSlotIndex, Looked, Replay, SameButNew, ReportedSlot;
    var x := s.v.active.value;
    var slot := ReportedSlot(s.d, c);
    assert slot.artifact == Some(c.proof) && c.checkpoint == x.checkpoint by { ReportedIs(s, c); }
    var w := RecordSlotSave(s.d, SaveRequest(s.d.revision, c.checkpoint, slot), c.checkpoint);
    SaveKeepsSlots(s.d, SaveRequest(s.d.revision, c.checkpoint, slot), c.checkpoint);
    var s1 := s.(d := w.d);
    SavedIsValid(cfg, s, c, calls, w.d);
    StoredSlot(s.d, c.checkpoint, slot);
    ReportedAgain(s.d, w.d, c);
    StoresAgain(s.d, c.checkpoint, slot);
    SaveGates(cfg, s1, c, enough, enough);
    KnownSlotAnswer(cfg, s1, x, slot, enough - 2);
    var w1 := RecordSlotSave(w.d, SaveRequest(s.d.revision, c.checkpoint, slot), c.checkpoint);
    assert s1.(d := w1.d) == s1;
    CommitCut(cfg, s1, x, FromWritten(w1), enough - 4);
    CommitAnyway(cfg, s1, x, FromWritten(w1), FromWritten(w));
  }

  lemma ReportedIs(s: System, c: SaveReport)
    requires c.checkpoint in s.d.checkpoints
    requires MemberSlotIndex(s.d.checkpoints[c.checkpoint].slots, c.actor) < |s.d.checkpoints[c.checkpoint].slots|
    ensures ReportedSlot(s.d, c).artifact == Some(c.proof)
  {
    hide MemberSlotIndex;
  }

  /** A save report cut short may have stored its proof already; repeating it does what was
      left, with the answer that a repeated proof gets. */
  lemma SavesAgain(cfg: Config, s: System, c: SaveReport, calls: nat, enough: nat)
    requires Valid(cfg, s) && enough >= ALL_CALLS
    ensures var r, f := RecordSaveOp(cfg, s, c, calls), RecordSaveOp(cfg, s, c, enough);
            || r == f
            || (r == CheckpointResult(r.s, CALL_FAILED, false)
                && SameButNew(RecordSaveOp(cfg, r.s, c, enough), f))
  {
    hide Valid, ReconstructRecovery, RecordSaveOp, Looked, Replay, SaveCounts, RecordSlot, RecordSlotSave,
      CommitIfComplete, ExactArtifact, JournalIndex, ReportedSlot;
    LookCut(cfg, s, calls);
    LooksAlways(cfg, s, enough);
    SaveGateOnly(cfg, s, c, calls);
    SaveGateOnly(cfg, s, c, enough);
    if Looked(cfg, s).recovery.None? {
      IdleStays(cfg, s);
      if calls >= 1 {
        LooksIdle(cfg, s, calls);
      }
      SaveGates(cfg, s, c, calls, enough);
      if SaveCounts(cfg, s, c) {
        SaveCut(cfg, s, c, calls, enough);
      }
    }
  }

  lemma SaveGateOnly(cfg: Config, s: System, c: SaveReport, calls: nat)
    ensures var g := ReconstructRecovery(cfg, s, calls);
            && (g.failure.Some? ==>
                  RecordSaveOp(cfg, s, c, calls) == CheckpointResult(s.(v := g.v), g.failure.value, false))
            && (g.failure.None? && g.v.recovery.Some? ==>
                  RecordSaveOp(cfg, s, c, calls) ==
                  CheckpointResult(s.(v := g.v), Refuse(RecoveryInProgress), false))
  {
    hide ReconstructRecovery, RecordSlot, MemberSlotIndex;
  }

  lemma SaveCut(cfg: Config, s: System, c: SaveReport, calls: nat, enough: nat)
    requires Valid(cfg, s) && SaveCounts(cfg, s, c) && enough >= ALL_CALLS
    requires RecordSaveOp(cfg, s, c, enough) ==
             RecordSlot(cfg, s, s.v.active.value, ReportedSlot(s.d, c), enough - 2)
    requires RecordSaveOp(cfg, s, c, calls) ==
             if calls < 2 then CheckpointResult(s, CALL_FAILED, false)
             else RecordSlot(cfg, s, s.v.active.value, ReportedSlot(s.d, c), calls - 2)
    ensures var r, f := RecordSaveOp(cfg, s, c, calls), RecordSaveOp(cfg, s, c, enough);
            || r == f
            || (r == CheckpointResult(r.s, CALL_FAILED, false)
                && SameButNew(RecordSaveOp(cfg, r.s, c, enough), f))
  {
    hide Valid, RecordSaveOp, RecordSlot, RecordSlotSave, CommitIfComplete, ExactArtifact, JournalIndex, ReportedSlot;
    if calls >= 2 {
      var slot := ReportedSlot(s.d, c);
      var mutation := AcknowledgeOf(c.checkpoint, slot.slot);
      var i := JournalIndex(s.d.journal, mutation);
      var expected := if i < |s.d.journal| then s.d.journal[i].expected else s.d.revision;
      var q := SaveRequest(expected, c.checkpoint, slot);
      var w := RecordSlotSave(s.d, q, c.checkpoint);
      SlotCut(cfg, s, s.v.active.value, slot, calls - 2, enough - 2);
      IndexAtMost(s.d.journal, mutation);
      if i < |s.d.journal| {
        KnownSaveUnwritten(s.d, q, c.checkpoint);
      }
      if w.d != s.d && RecordSaveOp(cfg, s, c, calls) == CheckpointResult(s.(d := w.d), CALL_FAILED, false)
         && w.error == Stored && ExactArtifact(cfg, slot, s.v.active.value.identity)
      {
        SavesOnceMore(cfg, s, c, calls, enough);
      }
    }
  }

  lemma IndexAtMost(journal: seq<Record>, m: MutationId)
    ensures JournalIndex(journal, m) <= |journal|
  {
  }

  /*
   * All steps
   */

  /** The same step while every store call succeeds. */
  function Whole(step: Step): Step {
    match step
    case DoEdit(c, _) => DoEdit(c, ALL_CALLS)
    case DoBeginCheckpoint(c, identity, presence, _) => DoBeginCheckpoint(c, identity, presence, ALL_CALLS)
    case DoRecordSave(c, _) => DoRecordSave(c, ALL_CALLS)
    case DoFailCheckpoint(c, identity, actor, _) => DoFailCheckpoint(c, identity, actor, ALL_CALLS)
    case DoBeginRecovery(c, _) => DoBeginRecovery(c, ALL_CALLS)
    case DoPrepare(presence, _) => DoPrepare(presence, ALL_CALLS)
    case DoRecordLoaded(c, _) => DoRecordLoaded(c, ALL_CALLS)
    case DoRecordApplied(c, _) => DoRecordApplied(c, ALL_CALLS)
    case DoObserve(_) => DoObserve(ALL_CALLS)
    case DoAbandon => DoAbandon
    case Restart => Restart
  }

  /** Wherever the store fails in the middle of a step, the step has done all of it, or doing
      it again brings the service, the store and the activity alike, to where doing it at
      once would have. */
  lemma StepsResume(cfg: Config, s: System, step: Step)
    requires Valid(cfg, s)
    ensures Exec(cfg, s, step) == Exec(cfg, s, Whole(step))
            || Exec(cfg, Exec(cfg, s, step), Whole(step)) == Exec(cfg, s, Whole(step))
  {
    hide Valid, EditOp, BeginCheckpointOp, RecordSaveOp, FailCheckpointOp, BeginRecoveryOp, PrepareRecoveryOp,
      RecordLoadedOp, RecordAppliedOp, ReconstructRecovery, Replay, Looked;
    match step
    case DoEdit(c, calls) => EditAllOrNothing(cfg, s, c, calls, ALL_CALLS);
    case DoBeginCheckpoint(c, identity, presence, calls) =>
      CheckpointAllOrNothing(cfg, s, c, identity, presence, calls, ALL_CALLS);
    case DoRecordSave(c, calls) => SavesAgain(cfg, s, c, calls, ALL_CALLS);
    case DoFailCheckpoint(c, identity, actor, calls) =>
      FailureAllOrNothing(cfg, s, c, identity, actor, calls, ALL_CALLS);
    case DoAbandon =>
    case DoBeginRecovery(c, calls) => BeginsAgain(cfg, s, c, calls, ALL_CALLS);
    case DoPrepare(presence, calls) => PreparesAgain(cfg, s, presence, calls, ALL_CALLS);
    case DoRecordLoaded(c, calls) => LoadsAgain(cfg, s, c, calls, ALL_CALLS);
    case DoRecordApplied(c, calls) => ReceiptsAgain(cfg, s, c, calls, ALL_CALLS);
    case DoObserve(calls) =>
      LookCut(cfg, s, calls);
      LookAgain(cfg, s, ALL_CALLS);
      assert s.(v := s.v) == s;
    case Restart =>
  }
}
