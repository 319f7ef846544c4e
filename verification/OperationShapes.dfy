/** What each operation of the service comes down to when its checks pass, and that it
    writes nothing otherwise; no assumption is made about the state. */
module OperationShapes {
  import opened Basics
  import opened CampaignState
  import opened FullRoster
  import opened CampaignStore
  import opened CampaignHistory
  import opened RuntimeModel

  lemma FenceRefuses(cfg: Config, s: System, calls: nat)
    ensures var g := CheckMutationFence(cfg, s, calls); g.failure.Some? ==> g.failure.value.error != NoError
  {
    hide ScanJournal, AckedSlots;
  }

  /** An edit that gets as far as its domain operation. */
  predicate EditReaches(cfg: Config, s: System, c: Command, g: Gate) {
    && g.failure.None? && g.left >= 3 && FindReplay(s.d.journal, c).None?
    && LoadAggregate(cfg, s.d).Some? && LoadAggregate(cfg, s.d).value.version == c.expected
  }

  lemma EditCases(cfg: Config, s: System, c: Command, calls: nat)
    ensures var g := CheckMutationFence(cfg, s, calls);
            EditOp(cfg, s, c, calls).s ==
            if EditReaches(cfg, s, c, g) then
              PersistOutcome(s.(v := g.v), c, Apply(LoadAggregate(cfg, s.d).value, c.edit), g.left - 3).s
            else s.(v := g.v)
  {
    hide CheckMutationFence, LoadAggregate, FindReplay, PersistOutcome, Apply;
  }

  /** A checkpoint request that gets as far as its candidate. */
  predicate BeginReaches(cfg: Config, s: System, c: Id, identity: Id, presence: seq<Presence>, g: Gate) {
    && s.v.active.None? && g.failure.None? && g.left >= 2 && c != [] && identity == SaveIdentity(c)
    && LoadAggregate(cfg, s.d).Some? && EvaluateFullRoster(LoadAggregate(cfg, s.d).value, presence) == Eligible
  }

  lemma BeginCheckpointCases(cfg: Config, s: System, c: Id, identity: Id, presence: seq<Presence>, calls: nat)
    ensures var g := CheckMutationFence(cfg, s, calls);
            var r := BeginCheckpointOp(cfg, s, c, identity, presence, calls);
            if BeginReaches(cfg, s, c, identity, presence, g) then
              r == PersistCandidate(s.(v := g.v), c, identity, LoadAggregate(cfg, s.d).value, g.left - 2)
            else r.reply.error != NoError && (r.s == s || r.s == s.(v := g.v))
  {
    hide CheckMutationFence, LoadAggregate, EvaluateFullRoster, PersistCandidate;
    FenceRefuses(cfg, s, calls);
  }

  /** A loss report that gets as far as opening an attempt. */
  predicate StartReaches(cfg: Config, s: System, c: LossReport, calls: nat) {
    && calls >= 2 && LoadAggregate(cfg, s.d).Some?
    && var a := LoadAggregate(cfg, s.d).value;
       a.sealed && MemberIndex(a.roster, c.member.Record()) < |a.roster|
  }

  lemma StartRecoveryCases(cfg: Config, s: System, c: LossReport, calls: nat)
    ensures var r := StartRecovery(cfg, s, c, calls);
            || r.s == s
            || (StartReaches(cfg, s, c, calls) && r == OpenRecovery(s, c, LoadAggregate(cfg, s.d).value, calls - 2))
  {
    hide LoadAggregate, EvaluateFullRoster, OpenRecovery;
    if LoadAggregate(cfg, s.d).Some? {
      IndexInRange(LoadAggregate(cfg, s.d).value.roster, c.member.Record());
    }
    hide MemberIndex;
  }

  lemma IndexInRange(roster: seq<SlotState>, r: SlotRecord)
    ensures MemberIndex(roster, r) <= |roster|
  {
  }

  /** The checkpoint a prepared attempt goes for. */
  function Wanted(s: System, a: RecoveryActivity): Option<Checkpoint> {
    if a.checkpoint.Some? then LoadCheckpoint(s.d, a.checkpoint.value) else LoadLastCommitted(s.d)
  }

  lemma PrepareCases(cfg: Config, s: System, presence: seq<Presence>, calls: nat)
    ensures var g := ReconstructRecovery(cfg, s, calls);
            var r := PrepareRecoveryOp(cfg, s, presence, calls).s;
            || r == s.(v := g.v)
            || (g.v.recovery.Some?
                && var a := g.v.recovery.value;
                   || (exists reason :: r == Recovering(s.(v := g.v), a.(reason := reason)))
                   || (a.stage != ApplyingSnapshot && Wanted(s, a).Some?
                       && r == Recovering(s.(v := g.v), StartLoading(a, Wanted(s, a).value))))
  {
    hide ReconstructRecovery, LoadAggregate, EvaluateFullRoster, StartLoading, LoadCheckpoint, LoadLastCommitted,
      Recoverable, Recovering;
  }

  /** A load report that gets as far as its checkpoint slot. */
  predicate LoadReaches(cfg: Config, s: System, c: LoadedReport, g: Gate) {
    && g.failure.None? && g.v.recovery.Some? && g.left >= 3 && c.checkpoint in s.d.checkpoints
    && g.v.recovery.value.attempt == c.attempt && g.v.recovery.value.checkpoint == Some(c.checkpoint)
    && c.actor.campaign == cfg.campaign && LoadAggregate(cfg, s.d).Some?
    && EvaluateFullRoster(LoadAggregate(cfg, s.d).value, c.presence) == Eligible
  }

  lemma RecordLoadedCases(cfg: Config, s: System, c: LoadedReport, calls: nat)
    ensures var g := ReconstructRecovery(cfg, s, calls);
            var r := RecordLoadedOp(cfg, s, c, calls);
            if LoadReaches(cfg, s, c, g) then
              r == CheckLoad(cfg, s.(v := g.v), g.v.recovery.value, LoadAggregate(cfg, s.d).value.version,
                             s.d.checkpoints[c.checkpoint], c, g.left - 3)
            else r.s == s.(v := g.v)
  {
    hide ReconstructRecovery, LoadAggregate, EvaluateFullRoster, CheckLoad;
  }

  /** A snapshot report that gets as far as its checkpoint slots. */
  predicate ApplyReaches(cfg: Config, s: System, c: AppliedReport, g: Gate) {
    && g.failure.None? && g.v.recovery.Some? && g.left >= 3 && c.checkpoint in s.d.checkpoints
    && g.v.recovery.value.stage == ApplyingSnapshot && g.v.recovery.value.attempt == c.attempt
    && g.v.recovery.value.checkpoint == Some(c.checkpoint) && g.v.recovery.value.restore == Some(c.restore)
    && c.actor.campaign == cfg.campaign && LoadAggregate(cfg, s.d).Some?
    && EvaluateFullRoster(LoadAggregate(cfg, s.d).value, c.presence) == Eligible
    && MemberSlotIndex(s.d.checkpoints[c.checkpoint].slots, c.actor) < |s.d.checkpoints[c.checkpoint].slots|
  }

  lemma RecordAppliedCases(cfg: Config, s: System, c: AppliedReport, calls: nat)
    ensures var g := ReconstructRecovery(cfg, s, calls);
            var r := RecordAppliedOp(cfg, s, c, calls);
            if ApplyReaches(cfg, s, c, g) then
              var k := s.d.checkpoints[c.checkpoint];
              r == AcknowledgeSnapshot(cfg, s.(v := g.v), g.v.recovery.value, LoadAggregate(cfg, s.d).value.version, k,
                                       k.slots[MemberSlotIndex(k.slots, c.actor)], c, g.left - 3)
            else r.s == s.(v := g.v) && (r.completed ==> g.failure.None? && g.v.recovery.None?)
  {
    hide ReconstructRecovery, LoadAggregate, EvaluateFullRoster, AcknowledgeSnapshot, CompletionIndex, MemberSlotIndex;
    IndexBound(s, c);
  }

  lemma IndexBound(s: System, c: AppliedReport)
    ensures c.checkpoint in s.d.checkpoints ==>
              MemberSlotIndex(s.d.checkpoints[c.checkpoint].slots, c.actor) <= |s.d.checkpoints[c.checkpoint].slots|
  {
  }
}
