/** What a client's attempts look like over whole sequences of events. */
module RecoveryClientRuns {
  import opened Basics
  import opened RecoveryClient

  /** The client after a sequence of events. */
  function After(c: Client, events: seq<Event>, campaign: Id): Client {
    if events == [] then c
    else React(After(c, events[..|events| - 1], campaign), events[|events| - 1], campaign).0
  }

  predicate In(c: Client, n: nat) { c.correlation.attempt == Some(n) }

  /** The client takes an attempt it may start from scratch: it is at rest, or locked
      on this campaign without an attempt. */
  predicate Free(c: Client, campaign: Id) {
    AtRest(c) || (c.stage == RecoveryLocked && c.correlation.campaign == campaign)
  }

  predicate WellFormed(m: Message, campaign: Id) {
    m.LoadRequest? && campaign != [] && IsValid(m)
  }

  /** A free client receives a well-formed load request for an attempt. */
  predicate StartsOver(c: Client, e: Event, n: nat, campaign: Id) {
    Free(c, campaign) && e.Receive? && WellFormed(e.message, campaign) && e.message.attempt == n
  }

  /** A well-formed load request of another attempt is started exactly by a free
      client; any other client keeps its stage and its attempt. */
  lemma OtherAttemptIff(c: Client, m: Message, campaign: Id, good: bool)
    requires Sane(c) && WellFormed(m, campaign) && !In(c, m.attempt)
    ensures Handle(c, m, campaign, good).1 == StartNativeLoad <==> Free(c, campaign)
    ensures Free(c, campaign) ==>
              Handle(c, m, campaign, good).0 ==
              Client(if good then LoadingNativeSave else Failed,
                     Correlation(campaign, Some(m.attempt), m.checkpoint, m.source, 0),
                     true)
    ensures !Free(c, campaign) ==>
              var next := Handle(c, m, campaign, good);
              next.1 == Reject && next.0.stage == c.stage && next.0.correlation == c.correlation
  {
  }

  /** A client further in the same attempt: with the same checkpoint and source, and
      with the same restore once it was applied. */
  predicate Further(c: Client, next: Client) {
    && Progress(c.stage) <= Progress(next.stage)
    && next.correlation.(restore := 0) == c.correlation.(restore := 0)
    && (c.stage == SnapshotApplied || c.stage == Completed ==> next.correlation == c.correlation)
  }

  /** One event: an attempt is entered, or entered again, only by starting over, and
      otherwise progress in it does not go back. */
  lemma StepInAttempt(c: Client, e: Event, n: nat, campaign: Id)
    requires Sane(c)
    ensures var next := React(c, e, campaign).0;
            && Sane(next)
            && (StartsOver(c, e, n, campaign) ==> In(next, n) && Progress(next.stage) == 2)
            && (!StartsOver(c, e, n, campaign) && In(next, n) ==> In(c, n) && Further(c, next))
            && (In(c, n) && !In(next, n) ==> c.stage == Completed)
  {
    hide Progress, Sane, Further;
    StepIntoAttempt(c, e, n, campaign);
    ReactKeepsSane(c, e, campaign);
  }

  lemma StepIntoAttempt(c: Client, e: Event, n: nat, campaign: Id)
    requires Sane(c)
    ensures var next := React(c, e, campaign).0;
            && (StartsOver(c, e, n, campaign) ==> In(next, n) && Progress(next.stage) == 2)
            && (!StartsOver(c, e, n, campaign) && In(next, n) ==> In(c, n) && Further(c, next))
            && (In(c, n) && !In(next, n) ==> c.stage == Completed)
  {
  }

  lemma {:induction false} AfterIsSane(c: Client, events: seq<Event>, campaign: Id)
    requires Sane(c)
    ensures Sane(After(c, events, campaign))
  {
    hide React, Sane;
    if events != [] {
      AfterIsSane(c, events[..|events| - 1], campaign);
      ReactKeepsSane(After(c, events[..|events| - 1], campaign), events[|events| - 1], campaign);
    }
  }

  /** Between two moments the client starts an attempt over. */
  ghost predicate StartedOver(c: Client, events: seq<Event>, i: nat, j: nat, n: nat, campaign: Id)
    requires i <= j <= |events|
  {
    exists k :: i <= k < j && StartsOver(After(c, events[..k], campaign), events[k], n, campaign)
  }

  lemma NextAfter(c: Client, events: seq<Event>, k: nat, campaign: Id)
    requires k < |events|
    ensures After(c, events[..k + 1], campaign) == React(After(c, events[..k], campaign), events[k], campaign).0
  {
    assert events[..k + 1][..k] == events[..k];
  }

  /** Without starting over, a client that is in an attempt has been in it, never further
      than now, and with the same checkpoint and source. */
  lemma {:induction false} NoWayBack(c: Client, events: seq<Event>, i: nat, j: nat, n: nat, campaign: Id)
    requires Sane(c) && i <= j <= |events| && !StartedOver(c, events, i, j, n, campaign)
    requires In(After(c, events[..j], campaign), n)
    ensures In(After(c, events[..i], campaign), n)
    ensures Further(After(c, events[..i], campaign), After(c, events[..j], campaign))
    decreases j - i
  {
    hide React, StartsOver, Sane, Progress;
    if i < j {
      var before := After(c, events[..j - 1], campaign);
      AfterIsSane(c, events[..j - 1], campaign);
      NextAfter(c, events, j - 1, campaign);
      StepInAttempt(before, events[j - 1], n, campaign);
      NoWayBack(c, events, i, j - 1, n, campaign);
      FurtherStill(After(c, events[..i], campaign), before, After(c, events[..j], campaign));
    }
  }

  lemma FurtherStill(a: Client, b: Client, c: Client)
    requires Further(a, b) && Further(b, c)
    ensures Further(a, c)
  {
  }

  /** A client leaves an attempt only after completing it. */
  lemma LeavesCompleted(c: Client, events: seq<Event>, k: nat, n: nat, campaign: Id) returns (i: nat)
    requires Sane(c) && In(c, n) && k <= |events|
    requires Free(After(c, events[..k], campaign), campaign)
    ensures i <= k && In(After(c, events[..i], campaign), n) && After(c, events[..i], campaign).stage == Completed
  {
    hide React;
    AfterIsSane(c, events[..k], campaign);
    if In(After(c, events[..k], campaign), n) {
      i := k;
    } else {
      i := FirstLeft(c, events, k, n, campaign);
    }
  }

  lemma {:induction false} FirstLeft(c: Client, events: seq<Event>, k: nat, n: nat, campaign: Id) returns (i: nat)
    requires Sane(c) && In(c, n) && k <= |events| && !In(After(c, events[..k], campaign), n)
    ensures i < k && In(After(c, events[..i], campaign), n) && After(c, events[..i], campaign).stage == Completed
    decreases k
  {
    hide React, Sane;
    var before := After(c, events[..k - 1], campaign);
    AfterIsSane(c, events[..k - 1], campaign);
    NextAfter(c, events, k - 1, campaign);
    StepInAttempt(before, events[k - 1], n, campaign);
    if In(before, n) {
      i := k - 1;
    } else {
      i := FirstLeft(c, events, k - 1, n, campaign);
    }
  }

  /** The client is in an attempt at two moments and further in it at the first. */
  ghost predicate GoesBack(c: Client, events: seq<Event>, n: nat, campaign: Id) {
    exists i, j :: 0 <= i < j <= |events|
      && In(After(c, events[..i], campaign), n) && In(After(c, events[..j], campaign), n)
      && Progress(After(c, events[..j], campaign).stage) < Progress(After(c, events[..i], campaign).stage)
  }

  /** Over any events, a client goes back in an attempt it is in exactly when it takes,
      at some moment, a well-formed load request naming that attempt while it is
      completed, idle or merely locked. */
  lemma GoesBackIff(c: Client, events: seq<Event>, n: nat, campaign: Id)
    requires Sane(c) && In(c, n)
    ensures GoesBack(c, events, n, campaign) <==> StartedOver(c, events, 0, |events|, n, campaign)
  {
    hide React, StartsOver, Free, Progress, Sane, After;
    if GoesBack(c, events, n, campaign) {
      var i, j :| 0 <= i < j <= |events|
                  && In(After(c, events[..i], campaign), n) && In(After(c, events[..j], campaign), n)
                  && Progress(After(c, events[..j], campaign).stage) < Progress(After(c, events[..i], campaign).stage);
      if !StartedOver(c, events, i, j, n, campaign) {
        NoWayBack(c, events, i, j, n, campaign);
      }
    }
    if StartedOver(c, events, 0, |events|, n, campaign) {
      var k :| 0 <= k < |events| && StartsOver(After(c, events[..k], campaign), events[k], n, campaign);
      StarterIsFree(After(c, events[..k], campaign), events[k], n, campaign);
      var i := LeavesCompleted(c, events, k, n, campaign);
      AfterIsSane(c, events[..k], campaign);
      NextAfter(c, events, k, campaign);
      StepInAttempt(After(c, events[..k], campaign), events[k], n, campaign);
      CompletedIsFurthest();
      assert i < k + 1 <= |events|;
    }
  }

  lemma StarterIsFree(c: Client, e: Event, n: nat, campaign: Id)
    requires StartsOver(c, e, n, campaign)
    ensures Free(c, campaign)
  {
  }

  lemma CompletedIsFurthest()
    ensures Progress(Completed) == 5
  {
  }

  /** So a client that completed an attempt is below its completion again exactly when
      it starts over: also after a new lock has made it forget the attempt. */
  lemma BelowAgainIff(c: Client, events: seq<Event>, n: nat, campaign: Id)
    requires Sane(c) && In(c, n) && c.stage == Completed
    ensures (exists j :: 0 <= j <= |events| && In(After(c, events[..j], campaign), n)
                         && After(c, events[..j], campaign).stage != Completed) <==>
            StartedOver(c, events, 0, |events|, n, campaign)
  {
    hide React, StartsOver, Free, Sane;
    assert events[..0] == [];
    if StartedOver(c, events, 0, |events|, n, campaign) {
      var k :| 0 <= k < |events| && StartsOver(After(c, events[..k], campaign), events[k], n, campaign);
      AfterIsSane(c, events[..k], campaign);
      NextAfter(c, events, k, campaign);
      StepInAttempt(After(c, events[..k], campaign), events[k], n, campaign);
      assert 0 <= k + 1 <= |events|;
    }
    forall j | && 0 <= j <= |events| && In(After(c, events[..j], campaign), n)
               && After(c, events[..j], campaign).stage != Completed
      ensures StartedOver(c, events, 0, |events|, n, campaign)
    {
      if !StartedOver(c, events, 0, j, n, campaign) {
        NoWayBack(c, events, 0, j, n, campaign);
      }
    }
  }
}
