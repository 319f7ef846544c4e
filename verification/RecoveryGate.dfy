/** The lock on the player's game, and what the client does with each message. */
module RecoveryGate {
  import opened Basics
  import opened RecoveryClient
  import opened RecoveryClientRuns

  /** The client and the lock on its game, after a sequence of events. */
  function LockedAfter(c: Client, locked: bool, events: seq<Event>, campaign: Id): bool {
    if events == [] then locked
    else
      var n := |events| - 1;
      GameLocked(After(c, events[..n], campaign), events[n], campaign, LockedAfter(c, locked, events[..n], campaign))
  }

  lemma LockedNext(c: Client, locked: bool, events: seq<Event>, k: nat, campaign: Id)
    requires k < |events|
    ensures LockedAfter(c, locked, events[..k + 1], campaign) ==
            GameLocked(After(c, events[..k], campaign), events[k], campaign,
                       LockedAfter(c, locked, events[..k], campaign))
  {
    assert events[..k + 1][..k] == events[..k];
  }

  lemma LockFollowsStep(c: Client, locked: bool, e: Event, campaign: Id)
    requires Sane(c) && (locked <==> !AtRest(c))
    ensures GameLocked(c, e, campaign, locked) <==> !AtRest(React(c, e, campaign).0)
  {
  }

  /** Whatever happens, the game is locked exactly while its client is neither idle nor
      completed. */
  lemma {:induction false} LockFollowsStage(c: Client, locked: bool, events: seq<Event>, campaign: Id)
    requires Sane(c) && (locked <==> !AtRest(c))
    ensures LockedAfter(c, locked, events, campaign) <==> !AtRest(After(c, events, campaign))
  {
    hide React, GameLocked, AtRest, Sane;
    if events != [] {
      var n := |events| - 1;
      LockFollowsStage(c, locked, events[..n], campaign);
      AfterIsSane(c, events[..n], campaign);
      LockFollowsStep(After(c, events[..n], campaign), LockedAfter(c, locked, events[..n], campaign), events[n],
                      campaign);
    }
  }

  /** The completion of the attempt the client has applied, exactly. */
  predicate ExactCompletion(c: Client, e: Event) {
    && c.stage == SnapshotApplied && c.correlation.attempt.Some?
    && e.Receive? && e.message == Complete(c.correlation.attempt.value, c.correlation.checkpoint, c.correlation.restore)
  }

  /** A client that has applied its attempt is unlocked by the completion, and nothing
      else that can happen unlocks a client that has entered an attempt. */
  lemma UnlockedIff(c: Client, locked: bool, e: Event, campaign: Id)
    requires Sane(c) && (locked <==> !AtRest(c)) && c.correlation.attempt.Some? && locked
    requires c.correlation.campaign == campaign && campaign != [] && c.correlation.checkpoint != []
    ensures !GameLocked(c, e, campaign, locked) <==> ExactCompletion(c, e)
    ensures ExactCompletion(c, e) ==> React(c, e, campaign) == (c.(stage := Completed), Release)
  {
  }

  /** A client in an attempt of its campaign. */
  predicate Entered(c: Client, n: nat, campaign: Id) {
    In(c, n) && c.correlation.campaign == campaign && campaign != [] && c.correlation.checkpoint != []
  }

  lemma EnteredStays(c: Client, e: Event, n: nat, campaign: Id)
    requires Sane(c) && Entered(c, n, campaign) && c.stage != Completed
    ensures Entered(React(c, e, campaign).0, n, campaign)
  {
  }

  /** In the attempt, and locked. */
  predicate Held(c: Client, events: seq<Event>, j: nat, n: nat, campaign: Id)
    requires j <= |events|
  {
    LockedAfter(c, true, events[..j], campaign) && Entered(After(c, events[..j], campaign), n, campaign)
  }

  lemma HeldLonger(c: Client, events: seq<Event>, m: nat, n: nat, campaign: Id)
    requires Sane(c) && m < |events| && !AtRest(c) && Held(c, events, m, n, campaign)
    requires !ExactCompletion(After(c, events[..m], campaign), events[m])
    ensures Held(c, events, m + 1, n, campaign)
  {
    hide React, GameLocked, After, LockedAfter;
    var before := After(c, events[..m], campaign);
    AfterIsSane(c, events[..m], campaign);
    LockFollowsStage(c, true, events[..m], campaign);
    LockedNext(c, true, events, m, campaign);
    NextAfter(c, events, m, campaign);
    UnlockedIff(before, true, events[m], campaign);
    EnteredStays(before, events[m], n, campaign);
  }

  /** How long a client that has entered an attempt is held: to the first moment at which
      it takes that attempt's exact completion, if there is one. */
  lemma {:induction false} HeldUntil(c: Client, events: seq<Event>, m: nat, n: nat, campaign: Id) returns (k: nat)
    requires Sane(c) && Entered(c, n, campaign) && !AtRest(c) && m <= |events|
    ensures k <= m && forall j :: 0 <= j <= k ==> Held(c, events, j, n, campaign)
    ensures k < m ==> ExactCompletion(After(c, events[..k], campaign), events[k])
  {
    hide React, GameLocked, AtRest, Sane, Entered, ExactCompletion;
    if m == 0 {
      k := 0;
      assert events[..0] == [];
    } else {
      k := HeldUntil(c, events, m - 1, n, campaign);
      if k == m - 1 && !ExactCompletion(After(c, events[..k], campaign), events[k]) {
        HeldLonger(c, events, k, n, campaign);
        k := m;
      }
    }
  }

  /** Over any events, a client that has entered an attempt and finds its game unlocked has
      taken that attempt's exact completion, and was locked and in the attempt until then. */
  lemma UnlockedByCompletion(c: Client, events: seq<Event>, n: nat, campaign: Id) returns (k: nat)
    requires Sane(c) && Entered(c, n, campaign) && !AtRest(c) && !LockedAfter(c, true, events, campaign)
    ensures k < |events| && ExactCompletion(After(c, events[..k], campaign), events[k])
    ensures forall j :: 0 <= j <= k ==> Held(c, events, j, n, campaign)
    ensures !LockedAfter(c, true, events[..k + 1], campaign)
  {
    hide React, GameLocked, AtRest, Sane, Entered, ExactCompletion;
    k := HeldUntil(c, events, |events|, n, campaign);
    assert events[..|events|] == events;
    assert !Held(c, events, |events|, n, campaign);
    CompletionUnlocks(c, events, k, n, campaign);
  }

  lemma CompletionUnlocks(c: Client, events: seq<Event>, k: nat, n: nat, campaign: Id)
    requires Sane(c) && k < |events| && !AtRest(c) && Held(c, events, k, n, campaign)
    requires ExactCompletion(After(c, events[..k], campaign), events[k])
    ensures !LockedAfter(c, true, events[..k + 1], campaign)
  {
    hide React, GameLocked, After, LockedAfter;
    AfterIsSane(c, events[..k], campaign);
    LockFollowsStage(c, true, events[..k], campaign);
    LockedNext(c, true, events, k, campaign);
    UnlockedIff(After(c, events[..k], campaign), true, events[k], campaign);
  }

  /*
   * What the client does with each message
   */

  /** The load request of the attempt the client is in. */
  predicate SameLoad(c: Client, m: Message) {
    m.LoadRequest? && In(c, m.attempt) && c.correlation.checkpoint == m.checkpoint && c.correlation.source == m.source
  }

  /** The snapshot, or the completion, of the attempt the client is in. */
  predicate SameAttempt(c: Client, m: Message) { In(c, m.attempt) && c.correlation.checkpoint == m.checkpoint }

  /** A native load starts for a request to a free client, or to one whose load failed;
      the request is answered by sending the load again to one that has loaded already;
      while the load is running the request is ignored. */
  lemma LoadRequestActions(c: Client, m: Message, campaign: Id, good: bool)
    requires Sane(c) && m.LoadRequest? && IsValid(m) && campaign != []
    requires AtRest(c) || c.correlation.campaign == campaign
    ensures var r := Handle(c, m, campaign, good);
            && (r.1 == StartNativeLoad <==> Free(c, campaign) || (c.stage == Failed && SameLoad(c, m)))
            && (r.1 == ResendLoaded <==> c.stage in {NativeSaveLoaded, SnapshotApplied} && SameLoad(c, m))
            && (r.1 == Ignore <==> c.stage == LoadingNativeSave && SameLoad(c, m))
            && r.1 in {StartNativeLoad, ResendLoaded, Ignore, Reject}
            && (r.1 == StartNativeLoad ==>
                  && r.0.stage == (if good then LoadingNativeSave else Failed) && r.0.authoritative
                  && r.0.correlation == (if c.stage == Failed then c.correlation
                                         else Correlation(campaign, Some(m.attempt), m.checkpoint, m.source, 0)))
            && (r.1 != StartNativeLoad ==> r.0 == c.(authoritative := true))
  {
  }

  /** The snapshot of its attempt is applied by a client that has loaded; one that has
      applied it sends its receipt again; any other snapshot is turned down. */
  lemma SnapshotActions(c: Client, m: Message, campaign: Id, good: bool)
    requires Sane(c) && m.Snapshot? && IsValid(m) && campaign != [] && c.correlation.campaign == campaign
    ensures var r := Handle(c, m, campaign, good);
            && (r.1 == ApplySnapshot <==> c.stage == NativeSaveLoaded && SameAttempt(c, m))
            && (r.1 == ResendSnapshotApplied <==>
                c.stage == SnapshotApplied && SameAttempt(c, m) && c.correlation.restore == m.restore)
            && r.1 in {ApplySnapshot, ResendSnapshotApplied, Reject}
            && r.0 == (if r.1 != ApplySnapshot then c
                       else c.(stage := if good then SnapshotApplied else NativeSaveLoaded,
                               correlation := c.correlation.(restore := m.restore)))
  {
  }

  /** The completion of its attempt releases a client that has applied it, also when it is
      repeated; any other completion is turned down. */
  lemma CompletionActions(c: Client, m: Message, campaign: Id, good: bool)
    requires Sane(c) && m.Complete? && IsValid(m) && campaign != [] && c.correlation.campaign == campaign
    ensures var r := Handle(c, m, campaign, good);
            && (r.1 == Release <==> c.stage in {SnapshotApplied, Completed} && SameAttempt(c, m)
                                    && c.correlation.restore == m.restore)
            && r.1 in {Release, Reject}
            && r.0 == (if r.1 == Release then c.(stage := Completed) else c)
  {
  }

  /** The news that the campaign is active: a client that has applied its snapshot sends
      its receipt again, and one that was locked without the server's word is let go. */
  lemma ActiveActions(c: Client, campaign: Id)
    requires Sane(c) && campaign != []
    ensures var r := React(c, SeesActive, campaign);
            && (r.1 == ResendSnapshotApplied <==> c.stage == SnapshotApplied && c.correlation.campaign == campaign)
            && (r.1 == Release <==>
                c.stage == RecoveryLocked && c.correlation.campaign == campaign && !c.authoritative)
            && (r.1 == Reject <==> c.correlation.campaign != campaign)
            && r.0 == (if r.1 == Release then FRESH else c)
  {
  }

  /** A malformed message, or one for another campaign, changes nothing. */
  lemma ForeignMessage(c: Client, m: Message, campaign: Id, good: bool)
    requires !IsValid(m) || (c.correlation.campaign != campaign && (!AtRest(c) || !m.LoadRequest?))
    ensures Handle(c, m, campaign, good) == (c, Reject)
  {
  }

  /** Locks, and the end of a native load. */
  lemma OtherEvents(c: Client, campaign: Id, succeeded: bool)
    requires Sane(c) && campaign != []
    ensures var seen, lost := React(c, SeesRecovery, campaign), React(c, LosesTransport, campaign);
            var locks := AtRest(c) || c.correlation.campaign == campaign;
            && seen.1 == lost.1 == Ignore
            && seen.0 == (if AtRest(c) then Client(RecoveryLocked, Correlation(campaign, None, [], 0, 0), true)
                          else if locks then c.(authoritative := true) else c)
            && lost.0 == (if AtRest(c) then Client(RecoveryLocked, Correlation(campaign, None, [], 0, 0), false) else c)
            && React(c, LoadEnds(succeeded), campaign) ==
               (if c.stage != LoadingNativeSave then c
                else c.(stage := if succeeded then NativeSaveLoaded else Failed), Ignore)
  {
  }
}
