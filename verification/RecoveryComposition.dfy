/** The server, a client and a network that may lose, repeat and reorder messages.
    Reports to the server are not trusted at all; messages to the client are any the
    server has sent and the network has not lost. */
module RecoveryComposition {
  import opened Basics
  import opened CampaignState
  import CampaignCoreCodec
  import opened CampaignStore
  import opened CampaignHistory
  import opened RuntimeModel
  import opened RuntimeInvariants
  import opened RuntimeSafety
  import RecoverySafety
  import opened RuntimeRuns
  import opened JournalGrammar
  import RC = RecoveryClient

  /** What a client's game has really done, in order. */
  datatype Deed = LoadedSave(attempt: nat, checkpoint: Id) | AppliedSnapshot(attempt: nat, checkpoint: Id, restore: nat)

  /** The server, the network towards one client, that client, what its game has done,
      the slot of its member, and whether the game is locked. */
  datatype World = World(
    server: System, sent: set<RC.Message>, client: RC.Client, deeds: seq<Deed>, me: Id, locked: bool)

  /** The server runs, the client does something, or a message is lost for good. */
  datatype Move = Server(step: Step) | ClientEvent(event: RC.Event) | Lose(message: RC.Message)

  /** The messages a server step sends to the client of a member. A message stays in the
      network, to be received any number of times and in any order, until it is lost. */
  function Sends(cfg: Config, s: System, step: Step, me: Id): set<RC.Message> {
    match step
    case DoPrepare(presence, calls) =>
      var r := PrepareRecoveryOp(cfg, s, presence, calls);
      Dispatched(r.s, r.dispatch)
    case DoRecordLoaded(c, calls) =>
      var r := RecordLoadedOp(cfg, s, c, calls);
      Dispatched(r.s, r.dispatch)
    case DoRecordApplied(c, calls) =>
      if RecordAppliedOp(cfg, s, c, calls).completed && Told(cfg, s, c, calls, me)
      then {RC.Complete(c.attempt, c.checkpoint, c.restore)} else {}
    case _ => {}
  }

  /** The receipt that completes an attempt is answered to every member; a later one, to
      which the journal gives the answer, only to the member it is from. */
  predicate Told(cfg: Config, s: System, c: AppliedReport, calls: nat, me: Id) {
    ReconstructRecovery(cfg, s, calls).v.recovery.Some? || c.actor.slot == me
  }

  function Dispatched(s: System, dispatch: Dispatch): set<RC.Message> {
    if s.v.recovery.None? || s.v.recovery.value.checkpoint.None? then {}
    else
      var a := s.v.recovery.value;
      if dispatch == NativeLoad then {RC.LoadRequest(a.attempt, a.checkpoint.value, a.source)}
      else if dispatch == RestoredSnapshot && a.restore.Some? then
        {RC.Snapshot(a.attempt, a.checkpoint.value, a.restore.value)}
      else {}
  }

  /** The deed a client event records. */
  function Does(c: RC.Client, next: RC.Client): seq<Deed> {
    if next.correlation.attempt.None? then []
    else if c.stage == RC.LoadingNativeSave && next.stage == RC.NativeSaveLoaded then
      [LoadedSave(next.correlation.attempt.value, next.correlation.checkpoint)]
    else if c.stage == RC.NativeSaveLoaded && next.stage == RC.SnapshotApplied then
      [AppliedSnapshot(next.correlation.attempt.value, next.correlation.checkpoint, next.correlation.restore)]
    else []
  }

  /** A message is received only if it was sent. */
  predicate Possible(w: World, m: Move) {
    m.ClientEvent? && m.event.Receive? ==> m.event.message in w.sent
  }

  function Advance(cfg: Config, w: World, m: Move): (next: World)
    ensures next.me == w.me
  {
    match m
    case Server(step) => w.(server := Exec(cfg, w.server, step), sent := w.sent + Sends(cfg, w.server, step, w.me))
    case ClientEvent(e) =>
      var next := RC.React(w.client, e, cfg.campaign).0;
      w.(client := next, deeds := w.deeds + Does(w.client, next),
         locked := RC.GameLocked(w.client, e, cfg.campaign, w.locked))
    case Lose(m) => w.(sent := w.sent - {m})
  }

  ghost predicate PossibleRun(cfg: Config, w: World, moves: seq<Move>)
    decreases |moves|
  {
    moves == [] ||
    (PossibleRun(cfg, w, moves[..|moves| - 1]) && Possible(Result(cfg, w, moves[..|moves| - 1]), moves[|moves| - 1]))
  }

  function Result(cfg: Config, w: World, moves: seq<Move>): (last: World)
    ensures last.me == w.me
    decreases |moves|
  {
    if moves == [] then w else Advance(cfg, Result(cfg, w, moves[..|moves| - 1]), moves[|moves| - 1])
  }

  /*
   * What a message proves about the journal
   */

  predicate Restored(journal: seq<Record>, attempt: nat, checkpoint: Id, restore: nat) {
    exists r :: r in journal && r.payload == RestoreCheckpoint(attempt, checkpoint) && r.resulting == restore
  }

  predicate Ended(journal: seq<Record>, attempt: nat, checkpoint: Id, restore: nat) {
    exists k :: 0 <= k < |journal| && journal[k].payload == CompleteRecovery(attempt, checkpoint, restore)
  }

  predicate Backed(journal: seq<Record>, m: RC.Message) {
    match m
    case LoadRequest(_, _, _) => true
    case Snapshot(attempt, checkpoint, restore) => Restored(journal, attempt, checkpoint, restore)
    case Complete(attempt, checkpoint, restore) => Ended(journal, attempt, checkpoint, restore)
  }

  lemma BackedForever(journal: seq<Record>, longer: seq<Record>, m: RC.Message)
    requires journal <= longer && Backed(journal, m)
    ensures Backed(longer, m)
  {
    match m
    case LoadRequest(_, _, _) =>
    case Snapshot(attempt, checkpoint, restore) =>
      var r :| r in journal && r.payload == RestoreCheckpoint(attempt, checkpoint) && r.resulting == restore;
      var i :| 0 <= i < |journal| && journal[i] == r;
      assert longer[i] == r;
    case Complete(attempt, checkpoint, restore) =>
      var k :| 0 <= k < |journal| && journal[k].payload == CompleteRecovery(attempt, checkpoint, restore);
      assert longer[k] == journal[k];
  }

  lemma CompletionIsJournaled(cfg: Config, s: System, c: AppliedReport, calls: nat)
    requires RecordAppliedOp(cfg, s, c, calls).completed
    ensures Ended(RecordAppliedOp(cfg, s, c, calls).s.d.journal, c.attempt, c.checkpoint, c.restore)
  {
    hide ReconstructRecovery, LoadAggregate, FullRoster.EvaluateFullRoster, AcknowledgeSnapshot, AlreadyCompleted;
    var g := ReconstructRecovery(cfg, s, calls);
    var s1 := s.(v := g.v);
    if g.v.recovery.None? {
      CompletionFound(s1, c, g.left);
    } else {
      var k := s.d.checkpoints[c.checkpoint];
      var x := k.slots[MemberSlotIndex(k.slots, c.actor)];
      CompletionWritten(cfg, s1, g.v.recovery.value, LoadAggregate(cfg, s.d).value.version, k, x, c, g.left - 3);
    }
  }

  lemma CompletionFound(s: System, c: AppliedReport, calls: nat)
    ensures AlreadyCompleted(s, c, calls).completed ==>
              Ended(AlreadyCompleted(s, c, calls).s.d.journal, c.attempt, c.checkpoint, c.restore)
  {
    var i := CompletionIndex(s.d.journal, c);
    if AlreadyCompleted(s, c, calls).completed {
      assert s.d.journal[i].payload == CompleteRecovery(c.attempt, c.checkpoint, c.restore);
    }
  }

  lemma CompletionWritten(cfg: Config, s: System, a: RecoveryActivity, version: nat, k: Checkpoint, x: CheckpointSlot,
                          c: AppliedReport, calls: nat)
    ensures var r := AcknowledgeSnapshot(cfg, s, a, version, k, x, c, calls);
            r.completed ==> Ended(r.s.d.journal, c.attempt, c.checkpoint, c.restore)
  {
    hide ApplyMutation, Ended;
    var q := RecoverySafety.AckRequest(cfg, version, ApplyAck(a.attempt, c.restore), k.id, x);
    var w := if x.slot in a.durableApplied then Written(s.d, Stored, version, false, false) else ApplyMutation(s.d, q);
    CompleteWrites(w.d, c);
  }

  lemma CompleteWrites(d: Durable, c: AppliedReport)
    ensures var w := ApplyMutation(d, RecoverySafety.CompleteRequest(c));
            w.error == Stored ==> Ended(w.d.journal, c.attempt, c.checkpoint, c.restore)
  {
    var q := RecoverySafety.CompleteRequest(c);
    var i := JournalIndex(d.journal, q.mutation);
    var w := ApplyMutation(d, q);
    if w.error == Stored {
      if i < |d.journal| {
        assert w.d.journal[i].payload == q.payload;
      } else {
        assert w.d.journal[|d.journal|].payload == q.payload;
      }
    }
  }

  lemma DispatchIsJournaled(cfg: Config, s: System, dispatch: Dispatch, m: RC.Message)
    requires Valid(cfg, s) && m in Dispatched(s, dispatch)
    ensures Backed(s.d.journal, m)
  {
    hide Replay, SlotsApart, JournalIndex;
    if m.Snapshot? {
      var a := s.v.recovery.value;
      RecoverySafety.AttemptCheckpointId(cfg, s.d, a);
      RecoverySafety.RestoreFound(cfg, s.d, a);
      RestoreRecordNames(cfg, s.d, a);
    }
  }

  lemma RestoreRecordNames(cfg: Config, d: Durable, a: RecoveryActivity)
    requires Stands(cfg, d) && TracksRecovery(Past(cfg, d), a) && a.checkpoint.Some? && a.restore.Some?
    ensures Restored(d.journal, a.attempt, a.checkpoint.value, a.restore.value)
  {
    hide Replay, CampaignCoreCodec.CoreBytes, CheckpointSlots;
    JournalIsAccounted(cfg, d.journal);
    RecoverySafety.RestoreIsJournaled(cfg, d.journal);
    var r :| r in d.journal && r.mutation == RestoreOf(a.attempt);
    assert Accounted(cfg, Past(cfg, d), r);
  }

  /*
   * The invariant of the world
   */

  /** What the client holds it has received and done, and its game is locked exactly
      while it is neither idle nor completed. */
  ghost predicate Honest(w: World) {
    var c := w.client;
    && RC.Sane(c)
    && (w.locked <==> !RC.AtRest(c))
    && (c.stage in {RC.NativeSaveLoaded, RC.SnapshotApplied, RC.Completed} ==>
          LoadedSave(c.correlation.attempt.value, c.correlation.checkpoint) in w.deeds)
    && (c.stage in {RC.SnapshotApplied, RC.Completed} ==>
          AppliedSnapshot(c.correlation.attempt.value, c.correlation.checkpoint, c.correlation.restore) in w.deeds)
    && (c.stage == RC.Completed ==>
          Ended(w.server.d.journal, c.correlation.attempt.value, c.correlation.checkpoint, c.correlation.restore))
  }

  ghost predicate WorldInv(cfg: Config, w: World) {
    && Valid(cfg, w.server)
    && (forall m :: m in w.sent ==> Backed(w.server.d.journal, m))
    && Honest(w)
  }

  /** A created campaign, an empty network and a client that knows nothing. */
  lemma WorldsBeginSound(cfg: Config, mutation: Id, roster: seq<SlotRecord>, me: Id)
    requires CreateLobby(cfg, mutation, roster).Some? && ValidIdentity(cfg.campaign)
    ensures WorldInv(cfg, World(CreateLobby(cfg, mutation, roster).value, {}, RC.FRESH, [], me, false))
  {
    hide CreateLobby, Valid;
    CreatedIsValid(cfg, mutation, roster);
  }

  lemma ServerMoveKeeps(cfg: Config, w: World, step: Step)
    requires WorldInv(cfg, w) && SlotsApart(cfg, Exec(cfg, w.server, step).d)
    ensures WorldInv(cfg, Advance(cfg, w, Server(step)))
  {
    hide Exec, Sends, Valid, SlotsApart, Backed, RC.Sane;
    var next := Exec(cfg, w.server, step);
    ExecKeepsValid(cfg, w.server, step);
    ExecExtends(cfg, w.server, step);
    forall m | m in w.sent + Sends(cfg, w.server, step, w.me) ensures Backed(next.d.journal, m) {
      if m in w.sent {
        BackedForever(w.server.d.journal, next.d.journal, m);
      } else {
        SendsAreBacked(cfg, w.server, step, w.me, m);
      }
    }
    if w.client.stage == RC.Completed && w.client.correlation.attempt.Some? {
      EndedForever(w.server.d.journal, next.d.journal, w.client.correlation.attempt.value,
                   w.client.correlation.checkpoint,
                   w.client.correlation.restore);
    }
    SaneHasAttempt(w.client);
  }

  lemma SaneHasAttempt(c: RC.Client)
    requires RC.Sane(c)
    ensures c.stage in {RC.NativeSaveLoaded, RC.SnapshotApplied, RC.Completed} ==> c.correlation.attempt.Some?
  {
  }

  lemma EndedForever(journal: seq<Record>, longer: seq<Record>, attempt: nat, checkpoint: Id, restore: nat)
    requires journal <= longer && Ended(journal, attempt, checkpoint, restore)
    ensures Ended(longer, attempt, checkpoint, restore)
  {
    BackedForever(journal, longer, RC.Complete(attempt, checkpoint, restore));
  }

  lemma SendsAreBacked(cfg: Config, s: System, step: Step, me: Id, m: RC.Message)
    requires Valid(cfg, Exec(cfg, s, step)) && m in Sends(cfg, s, step, me)
    ensures Backed(Exec(cfg, s, step).d.journal, m)
  {
    hide PrepareRecoveryOp, RecordLoadedOp, RecordAppliedOp, Valid, Dispatched, Ended, Told;
    match step
    case DoPrepare(presence, calls) =>
      DispatchIsJournaled(cfg, Exec(cfg, s, step), PrepareRecoveryOp(cfg, s, presence, calls).dispatch, m);
    case DoRecordLoaded(c, calls) =>
      DispatchIsJournaled(cfg, Exec(cfg, s, step), RecordLoadedOp(cfg, s, c, calls).dispatch, m);
    case DoRecordApplied(c, calls) =>
      CompletionIsJournaled(cfg, s, c, calls);
    case _ =>
  }

  lemma ClientMoveKeeps(cfg: Config, w: World, e: RC.Event)
    requires WorldInv(cfg, w) && Possible(w, ClientEvent(e))
    ensures WorldInv(cfg, Advance(cfg, w, ClientEvent(e)))
  {
    hide Valid, Honest, Backed, Does;
    if e.Receive? {
      assert Backed(w.server.d.journal, e.message);
    }
    ReactionIsHonest(w, e, cfg.campaign);
  }

  /** The client does what it records, and completes only what the journal ended. */
  lemma ReactionIsHonest(w: World, e: RC.Event, campaign: Id)
    requires Honest(w) && (e.Receive? ==> Backed(w.server.d.journal, e.message))
    ensures var next := RC.React(w.client, e, campaign).0;
            Honest(w.(client := next, deeds := w.deeds + Does(w.client, next),
                      locked := RC.GameLocked(w.client, e, campaign, w.locked)))
  {
    hide Ended, Restored;
    RC.ReactKeepsSane(w.client, e, campaign);
  }

  lemma LossKeeps(cfg: Config, w: World, m: RC.Message)
    requires WorldInv(cfg, w)
    ensures WorldInv(cfg, Advance(cfg, w, Lose(m)))
  {
    hide Valid, Backed, Honest;
    LossIsHarmless(w, m);
  }

  lemma LossIsHarmless(w: World, m: RC.Message)
    requires Honest(w)
    ensures Honest(w.(sent := w.sent - {m}))
  {
  }

  ghost predicate MoveApart(cfg: Config, w: World) { SlotsApart(cfg, w.server.d) }

  lemma {:induction false} EveryWorldIsSound(cfg: Config, w: World, moves: seq<Move>)
    requires WorldInv(cfg, w) && PossibleRun(cfg, w, moves) && MoveApart(cfg, Result(cfg, w, moves))
    ensures WorldInv(cfg, Result(cfg, w, moves))
  {
    hide Advance, WorldInv, Possible, SlotsApart;
    if moves != [] {
      var n := |moves| - 1;
      var before := Result(cfg, w, moves[..n]);
      ApartBeforeMove(cfg, before, moves[n]);
      EveryWorldIsSound(cfg, w, moves[..n]);
      MoveKeeps(cfg, before, moves[n]);
    }
  }

  lemma ApartBeforeMove(cfg: Config, w: World, m: Move)
    ensures MoveApart(cfg, Advance(cfg, w, m)) ==> MoveApart(cfg, w)
  {
    hide Exec, SlotsApart;
    if m.Server? {
      ApartBefore(cfg, w.server, m.step);
    }
  }

  lemma MoveKeeps(cfg: Config, w: World, m: Move)
    requires WorldInv(cfg, w) && Possible(w, m) && MoveApart(cfg, Advance(cfg, w, m))
    ensures WorldInv(cfg, Advance(cfg, w, m))
  {
    hide WorldInv, SlotsApart, Exec, Sends;
    match m
    case Server(step) => ServerMoveKeeps(cfg, w, step);
    case ClientEvent(e) => ClientMoveKeeps(cfg, w, e);
    case Lose(m) => LossKeeps(cfg, w, m);
  }

  /** A released player, whose game is unlocked although its client has entered an attempt:
      whatever the network did, the game loaded exactly this attempt's checkpoint and
      applied exactly this restore, and the server's journal holds the completion and
      hence, once for every member of the roster, a load before the one restore and an
      application after it. */
  lemma ReleaseMeansEveryone(cfg: Config, w: World, moves: seq<Move>)
    returns (k: nat, b: nat, m: nat, members: set<Id>)
    requires WorldInv(cfg, w) && PossibleRun(cfg, w, moves) && MoveApart(cfg, Result(cfg, w, moves))
    requires !Result(cfg, w, moves).locked && Result(cfg, w, moves).client.correlation.attempt.Some?
    ensures var last := Result(cfg, w, moves);
            var journal, x := last.server.d.journal, last.client.correlation;
            && LoadedSave(x.attempt.value, x.checkpoint) in last.deeds
            && AppliedSnapshot(x.attempt.value, x.checkpoint, x.restore) in last.deeds
            && k < |journal| && journal[k].payload == CompleteRecovery(x.attempt.value, x.checkpoint, x.restore)
            && b < m < k && BeginsAt(journal, b, x.attempt.value)
            && EachOnce(journal, b + 1, m, true, x.attempt.value, Some(x.checkpoint), members)
            && RestoresAt(journal, m, x.attempt.value, Some(x.checkpoint)) && journal[m].resulting == x.restore
            && EachOnce(journal, m + 1, k, false, x.attempt.value, Some(x.checkpoint), members)
            && Replay(cfg, journal[..k]).Some? && members == SlotIds(Replay(cfg, journal[..k]).value.campaign)
  {
    hide Result, PossibleRun, Replay, EachOnce, SlotIds, Valid;
    EveryWorldIsSound(cfg, w, moves);
    var last := Result(cfg, w, moves);
    var journal, x := last.server.d.journal, last.client.correlation;
    SaneHasAttempt(last.client);
    k :| 0 <= k < |journal| && journal[k].payload == CompleteRecovery(x.attempt.value, x.checkpoint, x.restore);
    ValidReplays(cfg, last.server);
    FirstRecordCreates(cfg, journal);
    b, m, members := CompletedAttempt(cfg, journal, k);
  }

  lemma ValidReplays(cfg: Config, s: System)
    requires Valid(cfg, s)
    ensures Replay(cfg, s.d.journal).Some?
  {
  }

  lemma FirstRecordCreates(cfg: Config, journal: seq<Record>)
    requires Replay(cfg, journal).Some?
    ensures journal != [] && journal[0].payload.CreateCampaign?
  {
    hide Next;
    ReplayPrefix(cfg, journal, 1);
    assert journal[..1][0] == journal[0];
  }
}
