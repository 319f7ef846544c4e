/** Commands may be resent at will: a resend of an answered command returns the
    first answer and leaves no trace; the same identity with other content is a
    conflict. */
module RetryTransparency {
  import opened Basics
  import opened CampaignState
  import CampaignCoreCodec
  import opened CampaignStore
  import opened CampaignHistory
  import opened RuntimeModel
  import opened OperationShapes
  import opened RuntimeInvariants
  import opened RecoveryRebuild
  import opened RuntimeSafety
  import opened RuntimeRuns

  /** The journal answers a command at a revision. */
  predicate Answered(journal: seq<Record>, c: Command, revision: nat) {
    var i := JournalIndex(journal, ClientMutation(c.mutation));
    i < |journal| && journal[i].expected == c.expected && journal[i].payload == EditCampaign(c.edit)
    && journal[i].resulting == revision
  }

  /** No checkpoint is active and no recovery open. */
  ghost predicate Unfenced(cfg: Config, s: System) {
    s.v.active.None? && Replay(cfg, s.d.journal).Some? && Past(cfg, s.d).open.None?
  }

  lemma IndexIsStable(journal: seq<Record>, longer: seq<Record>, m: MutationId)
    requires journal <= longer && JournalIndex(journal, m) < |journal|
    ensures JournalIndex(longer, m) == JournalIndex(journal, m)
  {
    var i, j := JournalIndex(journal, m), JournalIndex(longer, m);
    assert longer[i] == journal[i];
    assert j < |journal| ==> longer[j] == journal[j];
  }

  lemma AnsweredForever(journal: seq<Record>, longer: seq<Record>, c: Command, revision: nat)
    requires journal <= longer && Answered(journal, c, revision)
    ensures Answered(longer, c, revision)
  {
    IndexIsStable(journal, longer, ClientMutation(c.mutation));
    var i := JournalIndex(journal, ClientMutation(c.mutation));
    assert longer[i] == journal[i];
  }

  lemma AppendedIndex(journal: seq<Record>, r: Record)
    requires JournalIndex(journal, r.mutation) == |journal|
    ensures JournalIndex(journal + [r], r.mutation) == |journal|
  {
    var longer := journal + [r];
    assert longer[|journal|] == r;
    assert forall j :: 0 <= j < |journal| ==> longer[j] == journal[j];
  }

  /** A command that succeeds is answered by the journal, at the revision it
      was told. */
  lemma SuccessIsAnswered(cfg: Config, s: System, c: Command, calls: nat)
    requires EditOp(cfg, s, c, calls).reply.error == NoError
    ensures Answered(EditOp(cfg, s, c, calls).s.d.journal, c, EditOp(cfg, s, c, calls).reply.version)
  {
    hide CheckMutationFence, LoadAggregate, Apply, PersistNoOp, PersistEdit;
    FenceRefuses(cfg, s, calls);
    if FindReplay(s.d.journal, c).None? {
      var loaded := LoadAggregate(cfg, s.d).value;
      NoOpAnswers(s.d, c);
      EditAnswers(s.d, c, Apply(loaded, c.edit).campaign);
    }
  }

  lemma NoOpAnswers(d: Durable, c: Command)
    requires JournalIndex(d.journal, ClientMutation(c.mutation)) == |d.journal|
    ensures var w := PersistNoOp(d, c); w.error == Stored ==> Answered(w.d.journal, c, w.revision)
  {
    hide JournalIndex;
    AppendedIndex(d.journal,
                  Record(ClientMutation(c.mutation), c.expected, d.revision, EditCampaign(c.edit), NoChange, None));
  }

  lemma EditAnswers(d: Durable, c: Command, a: Aggregate)
    requires JournalIndex(d.journal, ClientMutation(c.mutation)) == |d.journal|
    ensures var w := PersistEdit(d, c, a); w.error == Stored ==> Answered(w.d.journal, c, w.revision)
  {
    hide JournalIndex, CampaignCoreCodec.EncodeCore, CampaignCoreCodec.EncodeIntent, BySlot;
    var core, intent := CampaignCoreCodec.EncodeCore(a), CampaignCoreCodec.EncodeIntent(a);
    if core.Some? && intent.Some? {
      var content := CoreState(core.value, intent.value, c.edit.Start?,
                               if RosterEdit(c.edit) then Some(Records(a.roster)) else None);
      AppendedIndex(d.journal,
                    Record(ClientMutation(c.mutation), c.expected, d.revision + 1, EditCampaign(c.edit), content,
                           None));
    }
  }

  /** With no fence up, an answered command gets its first answer again and nothing
      at all changes, whatever revision the campaign has reached since. */
  lemma ResendIsInvisible(cfg: Config, s: System, c: Command, revision: nat, calls: nat)
    requires Valid(cfg, s) && Unfenced(cfg, s) && Answered(s.d.journal, c, revision) && calls >= 2
    ensures EditOp(cfg, s, c, calls) == EditResult(s, Reply(NoError, Stored, revision, false, true))
  {
    hide ReconstructRecovery, LoadAggregate, PersistOutcome, Stands, Apart, Tracks, SlotsApart, Replay;
    ValidIsConsistent(cfg, s);
    UnfencedGate(cfg, s, calls);
  }

  lemma UnfencedGate(cfg: Config, s: System, calls: nat)
    requires Consistent(cfg, s) && Unfenced(cfg, s) && calls >= 2
    ensures var g := ReconstructRecovery(cfg, s, calls); g.failure.None? && g.v == s.v && g.left == calls - 1
    ensures s.v.recovery.None?
  {
    hide Apart, Replay, AckedSlots, ScanJournal;
    IdleHasNoRecovery(cfg, s);
    RebuildIsExact(cfg, s, calls);
    IdleScan(cfg, s);
  }

  lemma IdleHasNoRecovery(cfg: Config, s: System)
    requires Consistent(cfg, s) && Unfenced(cfg, s)
    ensures s.v.recovery.None?
  {
    hide Stands, Apart, Replay;
  }

  lemma IdleScan(cfg: Config, s: System)
    requires Consistent(cfg, s) && Unfenced(cfg, s)
    ensures ScanJournal(s.d.journal) == Scan(None, [], [])
  {
    hide ScanJournal, Apart, Replay;
    ScanFindsAttempt(cfg, s.d.journal);
  }

  /** The same mutation identity with another expected revision or another command
      is always a conflict, and changes nothing. */
  lemma ReuseIsConflict(cfg: Config, s: System, c: Command, revision: nat, other: Command, calls: nat)
    requires Valid(cfg, s) && Unfenced(cfg, s) && Answered(s.d.journal, c, revision) && calls >= 2
    requires other.mutation == c.mutation && (other.expected != c.expected || other.edit != c.edit)
    ensures EditOp(cfg, s, other, calls) ==
            EditResult(s, Reply(PersistenceFailure, IdempotencyConflict, revision, false, false))
  {
    hide ReconstructRecovery, LoadAggregate, PersistOutcome, Stands, Apart, Tracks, SlotsApart, Replay;
    ValidIsConsistent(cfg, s);
    UnfencedGate(cfg, s, calls);
  }

  /*
   * Whole runs
   */

  /** A step that resends, with no fence up, a command an earlier step of the run
      carried out successfully. */
  ghost predicate IsResend(cfg: Config, s: System, steps: seq<Step>, n: nat) {
    && n < |steps| && steps[n].DoEdit? && steps[n].calls >= 2
    && Unfenced(cfg, Run(cfg, s, steps[..n]))
    && exists j :: 0 <= j < n && SucceededWith(cfg, s, steps, j, steps[n].command)
  }

  ghost predicate SucceededWith(cfg: Config, s: System, steps: seq<Step>, j: nat, c: Command) {
    && j < |steps| && steps[j].DoEdit? && steps[j].command == c
    && EditOp(cfg, Run(cfg, s, steps[..j]), c, steps[j].calls).reply.error == NoError
  }

  /** A run with the marked resends left out. */
  function Without(steps: seq<Step>, resent: seq<bool>): seq<Step>
    requires |steps| == |resent|
  {
    if steps == [] then []
    else
      var n := |steps| - 1;
      Without(steps[..n], resent[..n]) + if resent[n] then [] else [steps[n]]
  }

  lemma RunPrefixExtends(cfg: Config, s: System, steps: seq<Step>, j: nat)
    requires j <= |steps|
    ensures Extends(Run(cfg, s, steps[..j]).d, Run(cfg, s, steps).d)
    decreases |steps|
  {
    hide Exec;
    if j < |steps| {
      var n := |steps| - 1;
      RunPrefixExtends(cfg, s, steps[..n], j);
      assert steps[..n][..j] == steps[..j];
      ExecExtends(cfg, Run(cfg, s, steps[..n]), steps[n]);
    } else {
      assert steps[..j] == steps;
    }
  }

  lemma EarlierSuccessIsAnswered(cfg: Config, s: System, steps: seq<Step>, j: nat, c: Command)
    requires SucceededWith(cfg, s, steps, j, c)
    ensures exists revision: nat :: Answered(Run(cfg, s, steps).d.journal, c, revision)
  {
    hide EditOp, Answered;
    var before := Run(cfg, s, steps[..j]);
    SuccessIsAnswered(cfg, before, c, steps[j].calls);
    assert steps[..j + 1][..j] == steps[..j] && steps[..j + 1][j] == steps[j];
    RunPrefixExtends(cfg, s, steps, j + 1);
    AnsweredForever(Run(cfg, s, steps[..j + 1]).d.journal, Run(cfg, s, steps).d.journal, c,
                    EditOp(cfg, before, c, steps[j].calls).reply.version);
  }

  lemma ResendIsStutter(cfg: Config, s: System, steps: seq<Step>)
    requires steps != [] && Valid(cfg, Run(cfg, s, steps[..|steps| - 1])) && IsResend(cfg, s, steps, |steps| - 1)
    ensures Run(cfg, s, steps) == Run(cfg, s, steps[..|steps| - 1])
  {
    hide EditOp, Answered, Valid, Unfenced;
    var n := |steps| - 1;
    var c := steps[n].command;
    var j :| 0 <= j < n && SucceededWith(cfg, s, steps, j, c);
    assert steps[..n][..j] == steps[..j];
    EarlierSuccessIsAnswered(cfg, s, steps[..n], j, c);
    var revision: nat :| Answered(Run(cfg, s, steps[..n]).d.journal, c, revision);
    ResendIsInvisible(cfg, Run(cfg, s, steps[..n]), c, revision, steps[n].calls);
  }

  /** Retry transparency: leaving out any resends of commands that had succeeded
      leads to exactly the same state. */
  lemma {:induction false} RetriesLeaveNoTrace(cfg: Config, s: System, steps: seq<Step>, resent: seq<bool>)
    requires Valid(cfg, s) && SlotsApart(cfg, Run(cfg, s, steps).d) && |resent| == |steps|
    requires forall n :: 0 <= n < |steps| && resent[n] ==> IsResend(cfg, s, steps, n)
    ensures Run(cfg, s, Without(steps, resent)) == Run(cfg, s, steps)
  {
    hide Exec, Valid, SlotsApart, IsResend;
    if steps != [] {
      var n := |steps| - 1;
      var before := steps[..n];
      ApartBefore(cfg, Run(cfg, s, before), steps[n]);
      forall k | 0 <= k < n && resent[..n][k] ensures IsResend(cfg, s, before, k) {
        EarlierResend(cfg, s, steps, k);
      }
      RetriesLeaveNoTrace(cfg, s, before, resent[..n]);
      if resent[n] {
        RunKeepsValid(cfg, s, before);
        ResendIsStutter(cfg, s, steps);
        assert Without(before, resent[..n]) + [] == Without(before, resent[..n]);
      } else {
        var w := Without(steps, resent);
        assert w[..|w| - 1] == Without(before, resent[..n]);
      }
    }
  }

  lemma EarlierResend(cfg: Config, s: System, steps: seq<Step>, k: nat)
    requires k < |steps| - 1 && IsResend(cfg, s, steps, k)
    ensures IsResend(cfg, s, steps[..|steps| - 1], k)
  {
    hide EditOp, Unfenced, Run;
    var before := steps[..|steps| - 1];
    var j :| 0 <= j < k && SucceededWith(cfg, s, steps, j, steps[k].command);
    assert before[..j] == steps[..j] && before[..k] == steps[..k];
    assert SucceededWith(cfg, s, before, j, before[k].command);
  }
}
