/** A client that can follow the open attempt is released by some honest run. */
module RecoveryFollow {
  import opened Basics
  import CampaignState
  import opened CampaignStore
  import opened CampaignHistory
  import opened RuntimeModel
  import opened RuntimeInvariants
  import opened RuntimeSafety
  import opened RuntimeRuns
  import opened RecoveryTheorems
  import opened RecoveryProgress
  import opened RecoveryComposition
  import opened RecoveryRelease
  import RosterLoss
  import RC = RecoveryClient
  import CR = RecoveryClientRuns

  /*
   * Putting runs together
   */

  lemma {:induction false} HonestAppend(cfg: Config, w: World, a: seq<Move>, b: seq<Move>)
    requires HonestRun(cfg, w, a) && HonestRun(cfg, Result(cfg, w, a), b)
    ensures HonestRun(cfg, w, a + b) && Result(cfg, w, a + b) == Result(cfg, Result(cfg, w, a), b)
    decreases |b|
  {
    hide Advance, HonestMove;
    if b == [] {
      assert a + b == a;
    } else {
      var n := |b| - 1;
      assert (a + b)[..|a + b| - 1] == a + b[..n] && (a + b)[|a + b| - 1] == b[n];
      HonestAppend(cfg, w, a, b[..n]);
    }
  }

  lemma OneMove(cfg: Config, w: World, m: Move)
    requires HonestMove(w, m)
    ensures HonestRun(cfg, w, [m]) && Result(cfg, w, [m]) == Advance(cfg, w, m)
  {
    hide Advance, HonestMove;
    assert [m][..0] == [];
    assert Result(cfg, w, [m][..0]) == w && HonestRun(cfg, w, [m][..0]);
  }

  function ServerMoves(steps: seq<Step>): (moves: seq<Move>)
    ensures |moves| == |steps|
    ensures forall i :: 0 <= i < |steps| ==> moves[i] == Server(steps[i])
  {
    seq(|steps|, i requires 0 <= i < |steps| => Server(steps[i]))
  }

  /** Only the server moves: the client does not notice, and every message is sent. */
  lemma {:induction false} ServerAlone(cfg: Config, w: World, steps: seq<Step>)
    requires forall i :: 0 <= i < |steps| ==> HonestReport(w.deeds, steps[i], w.me)
    ensures var moves := ServerMoves(steps);
            var last := Result(cfg, w, moves);
            && HonestRun(cfg, w, moves)
            && last.server == Run(cfg, w.server, steps) && last.client == w.client && last.deeds == w.deeds
            && w.sent <= last.sent
            && (steps != [] ==>
                  Sends(cfg, Run(cfg, w.server, steps[..|steps| - 1]), steps[|steps| - 1], w.me) <= last.sent)
  {
    hide Exec, Sends, HonestReport;
    if steps != [] {
      var n := |steps| - 1;
      ServerAlone(cfg, w, steps[..n]);
      assert ServerMoves(steps)[..n] == ServerMoves(steps[..n]);
      assert ServerMoves(steps)[n] == Server(steps[n]);
    }
  }

  /** A client's move leaves the server and the network alone. */
  lemma ClientGoes(cfg: Config, w: World, e: RC.Event) returns (next: World)
    requires HonestInv(cfg, w) && (e.Receive? ==> e.message in w.sent)
    ensures next == Advance(cfg, w, ClientEvent(e)) && HonestInv(cfg, next)
    ensures HonestRun(cfg, w, [ClientEvent(e)]) && Result(cfg, w, [ClientEvent(e)]) == next
    ensures next.server == w.server && next.sent == w.sent && next.client == RC.React(w.client, e, cfg.campaign).0
  {
    hide Valid, RC.React, FitsMessage, FitsClient, FitsDeed, FitsReceipt, Backed, Honest;
    next := Advance(cfg, w, ClientEvent(e));
    ValidIsApart(cfg, w.server);
    HonestMoveKeeps(cfg, w, ClientEvent(e));
    OneMove(cfg, w, ClientEvent(e));
  }

  lemma ClientFits(cfg: Config, w: World)
    requires HonestInv(cfg, w)
    ensures Stands(cfg, w.server.d) && FitsClient(cfg, Past(cfg, w.server.d), w.client) && cfg.campaign != []
    ensures forall m :: m in w.sent ==> FitsMessage(Past(cfg, w.server.d), m)
    ensures Honest(w)
  {
    hide Replay, FitsMessage, FitsClient, FitsDeed, FitsReceipt, Backed, Tracks, SlotsApart;
  }

  /*
   * Finishing another attempt
   */

  /** The client events left before a busy client has finished its attempt. */
  function Left(c: RC.Client): nat {
    match c.stage
    case Failed => 4
    case LoadingNativeSave => 3
    case NativeSaveLoaded => 2
    case SnapshotApplied => 1
    case _ => 0
  }

  /** What a busy client that can escape does next. */
  function NextEscape(c: RC.Client): RC.Event
    requires c.correlation.attempt.Some?
  {
    var n, id := c.correlation.attempt.value, c.correlation.checkpoint;
    match c.stage
    case Failed => RC.Receive(RC.LoadRequest(n, id, c.correlation.source), true)
    case LoadingNativeSave => RC.LoadEnds(true)
    case NativeSaveLoaded => RC.Receive(RC.Snapshot(n, id, n + 1), true)
    case _ => RC.Receive(RC.Complete(n, id, n + 1), true)
  }

  lemma EscapeStep(cfg: Config, h: History, sent: set<RC.Message>, c: RC.Client)
    requires FitsClient(cfg, h, c) && !CR.Free(c, cfg.campaign) && Escapes(sent, c) && cfg.campaign != []
    ensures NextEscape(c).Receive? ==> NextEscape(c).message in sent
    ensures var next := RC.React(c, NextEscape(c), cfg.campaign).0;
            && Left(next) < Left(c)
            && (CR.Free(next, cfg.campaign) || Escapes(sent, next))
  {
    hide FitsAttempt, IsOpen;
  }

  /** A client that can finish its attempt does, and is free again. */
  lemma {:induction false} Finish(cfg: Config, w: World) returns (moves: seq<Move>)
    requires HonestInv(cfg, w) && (CR.Free(w.client, cfg.campaign) || Escapes(w.sent, w.client))
    ensures HonestRun(cfg, w, moves)
    ensures var last := Result(cfg, w, moves);
            HonestInv(cfg, last) && last.server == w.server && last.sent == w.sent
              && CR.Free(last.client, cfg.campaign)
    decreases Left(w.client)
  {
    hide HonestInv, Advance, CR.Free, Escapes, FitsClient, FitsMessage, Left, NextEscape, RC.React, Honest;
    moves := [];
    if !CR.Free(w.client, cfg.campaign) {
      ClientFits(cfg, w);
      BusyHasAttempt(cfg, Past(cfg, w.server.d), w.client);
      EscapeStep(cfg, Past(cfg, w.server.d), w.sent, w.client);
      var e := NextEscape(w.client);
      var next := ClientGoes(cfg, w, e);
      var rest := Finish(cfg, next);
      moves := [ClientEvent(e)] + rest;
      HonestAppend(cfg, w, [ClientEvent(e)], rest);
    }
  }

  /*
   * Following the open attempt
   */

  /** What a client does next to have loaded the save of the open attempt. */
  function NextLoad(c: RC.Client, m: nat, id: Id, source: nat): RC.Event {
    if c.stage == RC.LoadingNativeSave then RC.LoadEnds(true) else RC.Receive(RC.LoadRequest(m, id, source), true)
  }

  function ToLoad(c: RC.Client): nat {
    match c.stage
    case LoadingNativeSave => 1
    case NativeSaveLoaded => 0
    case SnapshotApplied => 0
    case _ => 2
  }

  predicate HasLoaded(c: RC.Client, m: nat, id: Id) {
    CR.In(c, m) && c.correlation.checkpoint == id && (c.stage == RC.NativeSaveLoaded || c.stage == RC.SnapshotApplied)
  }

  lemma LoadStepOfClient(cfg: Config, h: History, c: RC.Client, m: nat, id: Id, source: nat)
    requires FitsClient(cfg, h, c) && cfg.campaign != [] && IsOpen(h, m)
    requires FitsMessage(h, RC.LoadRequest(m, id, source))
    requires CR.Free(c, cfg.campaign) || CR.In(c, m)
    ensures ToLoad(c) == 0 ==> HasLoaded(c, m, id)
    ensures var next := RC.React(c, NextLoad(c, m, id, source), cfg.campaign).0;
            ToLoad(c) > 0 ==> ToLoad(next) < ToLoad(c) && CR.In(next, m)
  {
  }

  lemma {:induction false} ReachLoaded(cfg: Config, w: World, m: nat, id: Id, source: nat)
    returns (moves: seq<Move>)
    requires HonestInv(cfg, w) && Goes(cfg, w.server.d, m, id) && RC.LoadRequest(m, id, source) in w.sent
    requires CR.Free(w.client, cfg.campaign) || CR.In(w.client, m)
    ensures HonestRun(cfg, w, moves)
    ensures var last := Result(cfg, w, moves);
            && HonestInv(cfg, last) && last.server == w.server && last.sent == w.sent
            && HasLoaded(last.client, m, id) && LoadedSave(m, id) in last.deeds
    decreases ToLoad(w.client)
  {
    hide HonestInv, Advance, CR.Free, FitsClient, FitsMessage, RC.React, RC.Sane, Replay, Stands;
    ClientFits(cfg, w);
    LoadStepOfClient(cfg, Past(cfg, w.server.d), w.client, m, id, source);
    moves := [];
    if ToLoad(w.client) > 0 {
      var e := NextLoad(w.client, m, id, source);
      var next := ClientGoes(cfg, w, e);
      var rest := ReachLoaded(cfg, next, m, id, source);
      moves := [ClientEvent(e)] + rest;
      HonestAppend(cfg, w, [ClientEvent(e)], rest);
    }
  }

  predicate HasApplied(c: RC.Client, m: nat, id: Id) {
    CR.In(c, m) && c.correlation.checkpoint == id && c.stage == RC.SnapshotApplied && c.correlation.restore == m + 1
  }

  lemma ApplyStepOfClient(cfg: Config, h: History, c: RC.Client, m: nat, id: Id)
    requires FitsClient(cfg, h, c) && cfg.campaign != [] && HasLoaded(c, m, id)
    ensures c.stage == RC.SnapshotApplied ==> HasApplied(c, m, id)
    ensures c.stage == RC.NativeSaveLoaded ==>
              HasApplied(RC.React(c, RC.Receive(RC.Snapshot(m, id, m + 1), true), cfg.campaign).0, m, id)
  {
    hide FitsAttempt, IsOpen;
  }

  lemma ReachApplied(cfg: Config, w: World, m: nat, id: Id) returns (moves: seq<Move>)
    requires HonestInv(cfg, w) && HasLoaded(w.client, m, id) && RC.Snapshot(m, id, m + 1) in w.sent
    ensures HonestRun(cfg, w, moves)
    ensures var last := Result(cfg, w, moves);
            && HonestInv(cfg, last) && last.server == w.server && last.sent == w.sent
            && HasApplied(last.client, m, id) && AppliedSnapshot(m, id, m + 1) in last.deeds
  {
    hide HonestInv, Advance, FitsClient, FitsMessage, RC.React, RC.Sane;
    ClientFits(cfg, w);
    ApplyStepOfClient(cfg, Past(cfg, w.server.d), w.client, m, id);
    moves := [];
    if w.client.stage == RC.NativeSaveLoaded {
      var e := RC.Receive(RC.Snapshot(m, id, m + 1), true);
      var next := ClientGoes(cfg, w, e);
      moves := [ClientEvent(e)];
      ClientFits(cfg, next);
    }
  }

  /** A player released from an attempt: the game is unlocked again. */
  predicate Released(w: World, m: nat) { CR.In(w.client, m) && !w.locked }

  predicate HasCompleted(c: RC.Client, m: nat) { CR.In(c, m) && c.stage == RC.Completed }

  lemma CompletedIsReleased(cfg: Config, w: World, m: nat)
    requires HonestInv(cfg, w)
    ensures Released(w, m) <==> HasCompleted(w.client, m)
  {
    ClientFits(cfg, w);
    hide HonestInv, Ended, FitsClient, FitsMessage;
  }

  lemma CompleteStepOfClient(cfg: Config, h: History, c: RC.Client, m: nat, id: Id)
    requires FitsClient(cfg, h, c) && HasApplied(c, m, id)
    ensures HasCompleted(RC.React(c, RC.Receive(RC.Complete(m, id, m + 1), true), cfg.campaign).0, m)
  {
    hide FitsAttempt, IsOpen;
  }

  /*
   * The whole attempt
   */

  lemma PrepareSends(cfg: Config, s: System, step: Step, me: Id, m: nat, id: Id) returns (source: nat)
    requires step.DoPrepare? && PrepareRecoveryOp(cfg, s, step.presence, step.calls).dispatch == NativeLoad
    requires Loading(cfg, Exec(cfg, s, step), 0) && Goes(cfg, Exec(cfg, s, step).d, m, id)
    ensures RC.LoadRequest(m, id, source) in Sends(cfg, s, step, me)
  {
    hide PrepareRecoveryOp, Replay, Stands, SlotsApart;
    var next := Exec(cfg, s, step);
    source := next.v.recovery.value.source;
  }

  lemma LoadsSend(cfg: Config, s: System, steps: seq<Step>, me: Id, m: nat, id: Id)
    requires LastRestores(cfg, s, steps) && Applying(cfg, Run(cfg, s, steps), 0)
             && Goes(cfg, Run(cfg, s, steps).d, m, id)
    ensures RC.Snapshot(m, id, m + 1) in Sends(cfg, Run(cfg, s, steps[..|steps| - 1]), steps[|steps| - 1], me)
  {
    hide RecordLoadedOp, Replay, Stands, SlotsApart;
  }

  lemma ReceiptsSend(cfg: Config, s: System, slots: seq<CampaignState.SlotRecord>, steps: seq<Step>, me: Id, m: nat,
                     id: Id)
    requires LastCompletes(cfg, s, steps) && ReportsFrom(cfg, slots, 0, false, m, id, steps)
    ensures RC.Complete(m, id, m + 1) in Sends(cfg, Run(cfg, s, steps[..|steps| - 1]), steps[|steps| - 1], me)
  {
    hide RecordAppliedOp, Run;
    assert Reports(cfg, slots, |steps| - 1, false, m, id, steps[|steps| - 1]);
  }

  lemma KeptByServer(cfg: Config, w: World, steps: seq<Step>)
    requires HonestInv(cfg, w) && Valid(cfg, Run(cfg, w.server, steps))
    requires forall i :: 0 <= i < |steps| ==> HonestReport(w.deeds, steps[i], w.me)
    ensures HonestInv(cfg, Result(cfg, w, ServerMoves(steps)))
  {
    hide Run, HonestInv, HonestReport, Valid, Result;
    ServerAlone(cfg, w, steps);
    ValidIsApart(cfg, Run(cfg, w.server, steps));
    HonestRunKeeps(cfg, w, ServerMoves(steps));
  }

  /** Locked and prepared, with the client's save loaded. */
  lemma FirstPhase(cfg: Config, w: World, m: nat, id: Id, lock: Step, prepare: Step) returns (moves: seq<Move>)
    requires HonestInv(cfg, w) && (CR.Free(w.client, cfg.campaign) || CR.In(w.client, m))
    requires lock.DoBeginRecovery? && prepare.DoPrepare?
    requires var locked := Exec(cfg, w.server, lock);
             && PrepareRecoveryOp(cfg, locked, prepare.presence, prepare.calls).dispatch == NativeLoad
             && Loading(cfg, Exec(cfg, locked, prepare), 0) && Goes(cfg, Exec(cfg, locked, prepare).d, m, id)
    ensures HonestRun(cfg, w, moves)
    ensures var last := Result(cfg, w, moves);
            && HonestInv(cfg, last) && last.server == Exec(cfg, Exec(cfg, w.server, lock), prepare)
            && HasLoaded(last.client, m, id) && LoadedSave(m, id) in last.deeds
  {
    hide Exec, HonestInv, Result, HonestRun, Goes, CR.Free, PrepareRecoveryOp, Sends, Valid, Room;
    var steps := [lock, prepare];
    assert steps[..1] == [lock] && steps[1] == prepare;
    RunCons(cfg, w.server, lock, []);
    NoSteps(cfg, Exec(cfg, w.server, lock));
    assert [lock] + [] == [lock];
    assert Run(cfg, w.server, steps) == Exec(cfg, Exec(cfg, w.server, lock), prepare);
    ServerAlone(cfg, w, steps);
    KeptByServer(cfg, w, steps);
    var source := PrepareSends(cfg, Exec(cfg, w.server, lock), prepare, w.me, m, id);
    var rest := ReachLoaded(cfg, Result(cfg, w, ServerMoves(steps)), m, id, source);
    HonestAppend(cfg, w, ServerMoves(steps), rest);
    moves := ServerMoves(steps) + rest;
  }

  lemma ReportsAreHonest(cfg: Config, slots: seq<CampaignState.SlotRecord>, loads: bool, m: nat, id: Id,
                         steps: seq<Step>, deeds: seq<Deed>, me: Id)
    requires ReportsFrom(cfg, slots, 0, loads, m, id, steps)
    requires if loads then LoadedSave(m, id) in deeds else AppliedSnapshot(m, id, m + 1) in deeds
    ensures forall i :: 0 <= i < |steps| ==> HonestReport(deeds, steps[i], me)
  {
    forall i | 0 <= i < |steps| ensures HonestReport(deeds, steps[i], me) {
      assert Reports(cfg, slots, 0 + i, loads, m, id, steps[i]);
    }
  }

  /** All loads reported and the snapshot restored, and applied by the client. */
  lemma SecondPhase(cfg: Config, w: World, slots: seq<CampaignState.SlotRecord>, m: nat, id: Id,
                    loads: seq<Step>)
    returns (moves: seq<Move>)
    requires HonestInv(cfg, w) && HasLoaded(w.client, m, id) && LoadedSave(m, id) in w.deeds
    requires ReportsFrom(cfg, slots, 0, true, m, id, loads) && LastRestores(cfg, w.server, loads)
    requires Applying(cfg, Run(cfg, w.server, loads), 0) && Goes(cfg, Run(cfg, w.server, loads).d, m, id)
    ensures HonestRun(cfg, w, moves)
    ensures var last := Result(cfg, w, moves);
            && HonestInv(cfg, last) && last.server == Run(cfg, w.server, loads)
            && HasApplied(last.client, m, id) && AppliedSnapshot(m, id, m + 1) in last.deeds
  {
    hide Exec, Run, HonestInv, Result, HonestRun, Goes, Sends, Valid, HonestReport, HasLoaded, ReportsFrom,
      RecordLoadedOp;
    ReportsAreHonest(cfg, slots, true, m, id, loads, w.deeds, w.me);
    ServerAlone(cfg, w, loads);
    KeptByServer(cfg, w, loads);
    LoadsSend(cfg, w.server, loads, w.me, m, id);
    var rest := ReachApplied(cfg, Result(cfg, w, ServerMoves(loads)), m, id);
    HonestAppend(cfg, w, ServerMoves(loads), rest);
    moves := ServerMoves(loads) + rest;
  }

  /** All receipts reported and the attempt completed, and the client released. */
  lemma ThirdPhase(cfg: Config, w: World, slots: seq<CampaignState.SlotRecord>, m: nat, id: Id,
                   receipts: seq<Step>)
    returns (moves: seq<Move>)
    requires HonestInv(cfg, w) && HasApplied(w.client, m, id) && AppliedSnapshot(m, id, m + 1) in w.deeds
    requires ReportsFrom(cfg, slots, 0, false, m, id, receipts) && LastCompletes(cfg, w.server, receipts)
    requires Idle(cfg, Run(cfg, w.server, receipts))
    ensures HonestRun(cfg, w, moves)
    ensures var last := Result(cfg, w, moves);
            last.server == Run(cfg, w.server, receipts) && Released(last, m) && HonestInv(cfg, last)
  {
    hide Exec, Run, HonestInv, Result, HonestRun, Sends, Valid, HonestReport, HasApplied, ReportsFrom, RecordAppliedOp,
      HasCompleted, Released, FitsClient, FitsMessage, RC.React, Advance;
    ReportsAreHonest(cfg, slots, false, m, id, receipts, w.deeds, w.me);
    ServerAlone(cfg, w, receipts);
    KeptByServer(cfg, w, receipts);
    ReceiptsSend(cfg, w.server, slots, receipts, w.me, m, id);
    var done := Result(cfg, w, ServerMoves(receipts));
    var e := RC.Receive(RC.Complete(m, id, m + 1), true);
    ClientFits(cfg, done);
    CompleteStepOfClient(cfg, Past(cfg, done.server.d), done.client, m, id);
    var next := ClientGoes(cfg, done, e);
    CompletedIsReleased(cfg, next, m);
    HonestAppend(cfg, w, ServerMoves(receipts), [ClientEvent(e)]);
    moves := ServerMoves(receipts) + [ClientEvent(e)];
  }

  /** A client that is free, or in the open attempt already, can be released with it. */
  lemma Follow(cfg: Config, w: World, presence: seq<CampaignState.Presence>, m: nat, id: Id)
    returns (moves: seq<Move>)
    requires HonestInv(cfg, w) && Goes(cfg, w.server.d, m, id) && Room(cfg, w.server.d)
    requires FullPresence(cfg, w.server.d.slots, presence)
    requires CR.Free(w.client, cfg.campaign) || CR.In(w.client, m)
    ensures HonestRun(cfg, w, moves)
    ensures var last := Result(cfg, w, moves);
            HonestInv(cfg, last) && Released(last, m) && Idle(cfg, last.server)
  {
    ServerIsValid(cfg, w);
    hide Exec, Run, HonestInv, Result, HonestRun, Goes, Valid, Room, FullPresence, CR.Free, HasLoaded, HasApplied,
      Loading, Applying, Idle, ReportsFrom, LastRestores, LastCompletes, PrepareRecoveryOp;
    var slots := w.server.d.slots;
    var lock, prepare, loads, receipts := AttemptHasPlan(cfg, w.server, presence, m, id);
    var first := FirstPhase(cfg, w, m, id, lock, prepare);
    var w1 := Result(cfg, w, first);
    var second := SecondPhase(cfg, w1, slots, m, id, loads);
    var w2 := Result(cfg, w1, second);
    var third := ThirdPhase(cfg, w2, slots, m, id, receipts);
    HonestAppend(cfg, w, first, second);
    HonestAppend(cfg, w, first + second, third);
    moves := first + second + third;
  }

  lemma ServerIsValid(cfg: Config, w: World)
    requires HonestInv(cfg, w)
    ensures Valid(cfg, w.server) && Replay(cfg, w.server.d.journal).Some?
  {
    hide FitsMessage, FitsClient, FitsDeed, FitsReceipt, Backed, Honest, Replay, SlotsApart, Tracks;
  }

  /** With an attempt open that the service can complete and everybody present, some
      honest run releases the client from it exactly when the client is at rest, merely
      locked, in this attempt already, or in another one it can still finish with what
      the network holds. */
  lemma CanReleaseIff(cfg: Config, w: World, presence: seq<CampaignState.Presence>, m: nat, id: Id)
    requires HonestInv(cfg, w) && Goes(cfg, w.server.d, m, id) && Room(cfg, w.server.d)
    requires FullPresence(cfg, w.server.d.slots, presence) && Listed(w.server.d.slots, w.me)
    ensures (exists moves :: HonestRun(cfg, w, moves) && Released(Result(cfg, w, moves), m)) <==>
            CanFollow(cfg, w, m)
  {
    ServerIsValid(cfg, w);
    GoesIsOpen(cfg, w.server.d, m, id);
    hide HonestInv, Result, HonestRun, Goes, Valid, Room, FullPresence, CanFollow, Listed, Released, Replay;
    if CanFollow(cfg, w, m) {
      var moves := FollowersAreReleased(cfg, w, presence, m, id);
    } else {
      forall moves | HonestRun(cfg, w, moves) ensures !Released(Result(cfg, w, moves), m) {
        CaughtIsNotReleased(cfg, w, m, moves);
      }
    }
  }

  lemma FollowersAreReleased(cfg: Config, w: World, presence: seq<CampaignState.Presence>, m: nat, id: Id)
    returns (moves: seq<Move>)
    requires HonestInv(cfg, w) && Goes(cfg, w.server.d, m, id) && Room(cfg, w.server.d)
    requires FullPresence(cfg, w.server.d.slots, presence) && CanFollow(cfg, w, m)
    ensures HonestRun(cfg, w, moves) && Released(Result(cfg, w, moves), m)
  {
    hide HonestInv, Result, HonestRun, Goes, Room, FullPresence, CR.Free, Escapes, Released;
    var first: seq<Move> := [];
    if !CR.In(w.client, m) {
      first := Finish(cfg, w);
    } else {
      NoMoves(cfg, w);
    }
    var rest := Follow(cfg, Result(cfg, w, first), presence, m, id);
    HonestAppend(cfg, w, first, rest);
    moves := first + rest;
  }

  lemma CaughtIsNotReleased(cfg: Config, w: World, m: nat, moves: seq<Move>)
    requires HonestInv(cfg, w) && Replay(cfg, w.server.d.journal).Some? && IsOpen(Past(cfg, w.server.d), m)
    requires Listed(w.server.d.slots, w.me) && !CanFollow(cfg, w, m) && HonestRun(cfg, w, moves)
    ensures !Released(Result(cfg, w, moves), m)
  {
    hide HonestInv, Result, HonestRun, CanFollow, Listed, Replay;
    BlockedForGood(cfg, w, m, moves);
    BlockedIsNotIn(cfg, Result(cfg, w, moves), m);
  }

  lemma NoMoves(cfg: Config, w: World)
    ensures HonestRun(cfg, w, []) && Result(cfg, w, []) == w
  {
  }

  lemma GoesIsOpen(cfg: Config, d: Durable, m: nat, id: Id)
    requires Goes(cfg, d, m, id)
    ensures IsOpen(Past(cfg, d), m)
  {
    hide Replay;
  }

  lemma BlockedIsNotIn(cfg: Config, w: World, m: nat)
    requires Blocked(cfg, w, m)
    ensures !CR.In(w.client, m)
  {
    hide HonestInv;
    NoDeedsOfBlocked(cfg, w, m);
  }

  /*
   * Asking again
   */

  /** Where the journal holds a completion, and that its checkpoint is stored. */
  lemma CompletionStands(cfg: Config, d: Durable, n: nat, id: Id)
    requires Stands(cfg, d) && Ended(d.journal, n, id, n + 1)
    ensures id in Past(cfg, d).saved
    ensures exists k :: 0 <= k < |d.journal| && d.journal[k].payload == CompleteRecovery(n, id, n + 1)
                        && d.journal[k].mutation == CompleteOf(n) && d.journal[k].resulting == n + 1
  {
    hide Replay, Follows;
    var journal := d.journal;
    var k :| 0 <= k < |journal| && journal[k].payload == CompleteRecovery(n, id, n + 1);
    FirstRecordCreates(cfg, journal);
    ReplayFollows(cfg, journal, k + 1);
    ReplayFollows(cfg, journal, k);
    var front := journal[..k + 1];
    assert front[..k] == journal[..k] && front[k] == journal[k];
    ReplayStep(cfg, front);
    CompletesChosen(cfg, Replay(cfg, front[..k]).value, journal[k]);
    SavedStays(Replay(cfg, journal[..k]).value, Replay(cfg, journal).value, id);
  }

  lemma CompletesChosen(cfg: Config, h: History, r: Record)
    requires r.payload.CompleteRecovery? && Next(cfg, h, r).Some?
    ensures r.mutation == CompleteOf(r.payload.attempt) && r.resulting == r.payload.restore
    ensures r.payload.checkpoint in h.saved
  {
  }

  lemma SavedStays(h: History, next: History, id: Id)
    requires Follows(h, next) && id in h.saved
    ensures id in next.saved
  {
  }

  /** The stored checkpoint lists the stored roster. */
  lemma StoredCheckpoint(cfg: Config, d: Durable, id: Id)
    requires Stands(cfg, d) && id in Past(cfg, d).saved
    ensures id in d.checkpoints && SlotRecords(d.checkpoints[id].slots) == d.slots && SlotsDistinct(d.slots)
  {
    hide Replay, SlotsDistinct, CheckpointSlots, SlotRecords;
    ReplayIsSound(cfg, d.journal);
    SavedRosterIsCurrent(cfg, Past(cfg, d), id);
    RosterSlotsDistinct(Past(cfg, d).campaign);
    ProvenRecords(Past(cfg, d).saved[id]);
  }

  /** A receipt for a completed attempt, repeated while none is open, is answered. */
  lemma RepeatIsAnswered(cfg: Config, s: System, n: nat, id: Id, i: nat)
    requires Idle(cfg, s) && Ended(s.d.journal, n, id, n + 1) && i < |s.d.slots|
    ensures var c := AppliedReport(n, id, n + 1, MemberAt(cfg, s.d.slots, i), []);
            var r := RecordAppliedOp(cfg, s, c, PLENTY);
            r.completed && r.s == s && ReconstructRecovery(cfg, s, PLENTY).v.recovery.None?
  {
    hide Replay, Stands, ReconstructRecovery, MemberSlotIndex, CompletionIndex, SlotsApart, SlotRecords, SlotsDistinct;
    ServerStands(cfg, s);
    CompletionStands(cfg, s.d, n, id);
    StoredCheckpoint(cfg, s.d, id);
    MemberIsListed(cfg, s.d.checkpoints[id].slots, s.d.slots, i);
    ValidIsConsistent(cfg, s);
    RosterLoss.GateWhenIdle(cfg, s, PLENTY);
    var c := AppliedReport(n, id, n + 1, MemberAt(cfg, s.d.slots, i), []);
    CompletionIsFound(s.d.journal, c);
    assert s.(v := s.v) == s;
  }

  lemma ServerStands(cfg: Config, s: System)
    requires Valid(cfg, s)
    ensures Stands(cfg, s.d)
  {
  }

  lemma CompletionIsFound(journal: seq<Record>, c: AppliedReport)
    requires exists k :: 0 <= k < |journal|
               && journal[k].payload == CompleteRecovery(c.attempt, c.checkpoint, c.restore)
               && journal[k].mutation == CompleteOf(c.attempt) && journal[k].resulting == c.restore
    ensures CompletionIndex(journal, c) < |journal|
  {
  }

  lemma ReceiptIsBacked(w: World, n: nat, id: Id)
    requires Honest(w) && HasApplied(w.client, n, id)
    ensures AppliedSnapshot(n, id, n + 1) in w.deeds
  {
    hide Ended;
  }

  lemma AnsweredAlone(cfg: Config, w: World, c: AppliedReport, calls: nat)
    requires RecordAppliedOp(cfg, w.server, c, calls).completed && c.actor.slot == w.me
    requires RecordAppliedOp(cfg, w.server, c, calls).s == w.server
    ensures Advance(cfg, w, Server(DoRecordApplied(c, calls))) ==
            w.(sent := w.sent + {RC.Complete(c.attempt, c.checkpoint, c.restore)})
  {
    hide RecordAppliedOp, ReconstructRecovery;
  }

  /** The member's repeated receipt leaves the service alone and is answered to it. */
  lemma AsksAgain(cfg: Config, w: World, n: nat, id: Id) returns (step: Step)
    requires Idle(cfg, w.server) && Listed(w.server.d.slots, w.me) && Ended(w.server.d.journal, n, id, n + 1)
    requires AppliedSnapshot(n, id, n + 1) in w.deeds
    ensures HonestMove(w, Server(step))
    ensures Advance(cfg, w, Server(step)) == w.(sent := w.sent + {RC.Complete(n, id, n + 1)})
  {
    hide RecordAppliedOp, ReconstructRecovery, Advance, Ended, Idle, HonestMove;
    var i :| 0 <= i < |w.server.d.slots| && w.server.d.slots[i].slot == w.me;
    RepeatIsAnswered(cfg, w.server, n, id, i);
    var c := AppliedReport(n, id, n + 1, MemberAt(cfg, w.server.d.slots, i), []);
    AnsweredAlone(cfg, w, c, PLENTY);
    ReceiptIsHonest(w, c, PLENTY);
    step := DoRecordApplied(c, PLENTY);
  }

  lemma ReceiptIsHonest(w: World, c: AppliedReport, calls: nat)
    requires AppliedSnapshot(c.attempt, c.checkpoint, c.restore) in w.deeds
    ensures HonestMove(w, Server(DoRecordApplied(c, calls)))
  {
  }

  /** While no attempt is open, a client that applied a snapshot and missed the completion
      is released: its member repeats the receipt and is told again. */
  lemma AskingAgainReleases(cfg: Config, w: World, n: nat, id: Id) returns (moves: seq<Move>)
    requires HonestInv(cfg, w) && Idle(cfg, w.server) && Listed(w.server.d.slots, w.me)
    requires HasApplied(w.client, n, id) && Ended(w.server.d.journal, n, id, n + 1)
    ensures HonestRun(cfg, w, moves)
    ensures var last := Result(cfg, w, moves);
            last.server == w.server && Released(last, n) && HonestInv(cfg, last)
  {
    ClientFits(cfg, w);
    ReceiptIsBacked(w, n, id);
    ServerIsValid(cfg, w);
    var step := AsksAgain(cfg, w, n, id);
    hide HonestInv, HonestMove, Exec, Advance, Valid, Idle, FitsClient, FitsMessage, Ended, Honest, Released,
      HasCompleted, HasApplied, RC.React, SlotsApart, Listed, Replay, Stands;
    ValidIsApart(cfg, w.server);
    OneMove(cfg, w, Server(step));
    HonestMoveKeeps(cfg, w, Server(step));
    CompleteStepOfClient(cfg, Past(cfg, w.server.d), w.client, n, id);
    var e := RC.Receive(RC.Complete(n, id, n + 1), true);
    var next := ClientGoes(cfg, Advance(cfg, w, Server(step)), e);
    CompletedIsReleased(cfg, next, n);
    HonestAppend(cfg, w, [Server(step)], [ClientEvent(e)]);
    moves := [Server(step)] + [ClientEvent(e)];
  }

  /** But it is told for its own receipts only: whatever other members repeat while no
      attempt is open changes nothing in the client's world. */
  lemma {:induction false} RepeatsOfOthersChangeNothing(cfg: Config, w: World, repeats: seq<Step>)
    requires Idle(cfg, w.server)
    requires forall i :: 0 <= i < |repeats| ==> repeats[i].DoRecordApplied? && repeats[i].applied.actor.slot != w.me
    ensures HonestRun(cfg, w, ServerMoves(repeats)) && Result(cfg, w, ServerMoves(repeats)) == w
  {
    hide Idle, Advance;
    if repeats != [] {
      var n := |repeats| - 1;
      RepeatsOfOthersChangeNothing(cfg, w, repeats[..n]);
      assert ServerMoves(repeats)[..n] == ServerMoves(repeats[..n]);
      assert ServerMoves(repeats)[n] == Server(repeats[n]);
      RepeatOfOtherChangesNothing(cfg, w, repeats[n].applied, repeats[n].calls);
    }
  }

  lemma RepeatOfOtherChangesNothing(cfg: Config, w: World, c: AppliedReport, calls: nat)
    requires Idle(cfg, w.server) && c.actor.slot != w.me
    ensures Advance(cfg, w, Server(DoRecordApplied(c, calls))) == w
  {
    hide ReconstructRecovery, MemberSlotIndex, CompletionIndex, SlotsApart, Replay, Stands;
    ValidIsConsistent(cfg, w.server);
    RosterLoss.GateWhenIdle(cfg, w.server, calls);
    assert w.server.(v := w.server.v) == w.server;
    assert w.sent + {} == w.sent;
  }
}
