/** The client's recovery state machine as the object its service owns. */
module RecoveryClientState {
  import opened Basics
  import opened RecoveryClient

  class CampaignRecoveryState {
    var stage: ClientStage
    var correlation: Correlation
    var authoritativeLock: bool

    constructor ()
      ensures Value() == FRESH
    {
      stage, correlation, authoritativeLock := Idle, NOTHING, false;
    }

    ghost function Value(): Client
      reads this
    {
      Client(stage, correlation, authoritativeLock)
    }

    method LockInternal(campaign: Id, authoritative: bool) returns (accepted: bool)
      modifies this
      ensures accepted == CanLock(old(Value()), campaign)
      ensures Value() == Locked(old(Value()), campaign, authoritative)
    {
      if campaign == [] {
        return false;
      }
      if stage != Idle && stage != Completed && correlation.campaign != campaign {
        return false;
      }
      if stage == Idle || stage == Completed {
        correlation := NOTHING.(campaign := campaign);
        stage := RecoveryLocked;
        authoritativeLock := authoritative;
      } else if authoritative {
        authoritativeLock := true;
      }
      return true;
    }

    method Lock(campaign: Id) returns (accepted: bool)
      modifies this
      ensures accepted == CanLock(old(Value()), campaign) && Value() == Locked(old(Value()), campaign, true)
    {
      accepted := LockInternal(campaign, true);
    }

    method LockProvisional(campaign: Id) returns (accepted: bool)
      modifies this
      ensures accepted == CanLock(old(Value()), campaign) && Value() == Locked(old(Value()), campaign, false)
    {
      accepted := LockInternal(campaign, false);
    }

    method ObserveAuthoritativeActive(campaign: Id) returns (action: Action)
      modifies this
      ensures (Value(), action) == ObserveActive(old(Value()), campaign)
    {
      if campaign == [] || campaign != correlation.campaign {
        return Reject;
      }
      if stage == SnapshotApplied && correlation.attempt.Some? {
        return ResendSnapshotApplied;
      }
      if stage == RecoveryLocked && correlation.attempt.None? && !authoritativeLock {
        stage, correlation, authoritativeLock := Idle, NOTHING, false;
        return Release;
      }
      return Ignore;
    }

    method ObserveLoadRequest(x: Correlation) returns (action: Action)
      modifies this
      ensures (Value(), action) == RecoveryClient.ObserveLoadRequest(old(Value()), x)
    {
      if x.campaign == [] || x.attempt.None? || x.checkpoint == [] || x.source == 0 || x.restore != 0
         || x.campaign != correlation.campaign
      {
        return Reject;
      }
      if stage == RecoveryLocked {
        correlation, authoritativeLock, stage := x, true, LoadingNativeSave;
        return StartNativeLoad;
      }
      if x.attempt != correlation.attempt || x.checkpoint != correlation.checkpoint || x.source != correlation.source {
        return Reject;
      }
      if stage == Failed {
        stage := LoadingNativeSave;
        return StartNativeLoad;
      }
      if stage == LoadingNativeSave {
        return Ignore;
      }
      return if stage == NativeSaveLoaded || stage == SnapshotApplied then ResendLoaded else Reject;
    }

    method FinishNativeLoad(succeeded: bool) returns (accepted: bool)
      modifies this`stage
      ensures accepted == (old(stage) == LoadingNativeSave)
      ensures Value() == RecoveryClient.FinishNativeLoad(old(Value()), succeeded)
    {
      accepted := stage == LoadingNativeSave;
      if accepted {
        stage := if succeeded then NativeSaveLoaded else Failed;
      }
    }

    method ObserveSnapshot(x: Correlation) returns (action: Action)
      modifies this`correlation
      ensures (Value(), action) == RecoveryClient.ObserveSnapshot(old(Value()), x)
    {
      if !MatchesBase(Client(stage, correlation, authoritativeLock), x) || x.restore == 0 {
        return Reject;
      }
      if stage == NativeSaveLoaded {
        correlation := correlation.(restore := x.restore);
        return ApplySnapshot;
      }
      return if stage == SnapshotApplied && correlation.restore == x.restore then ResendSnapshotApplied else Reject;
    }

    method FinishSnapshotApply() returns (accepted: bool)
      modifies this`stage
      ensures accepted == (old(stage) == NativeSaveLoaded && correlation.restore != 0)
      ensures Value() == RecoveryClient.FinishSnapshotApply(old(Value()))
    {
      accepted := stage == NativeSaveLoaded && correlation.restore != 0;
      if accepted {
        stage := SnapshotApplied;
      }
    }

    method ObserveComplete(x: Correlation) returns (action: Action)
      modifies this`stage
      ensures (Value(), action) == RecoveryClient.ObserveComplete(old(Value()), x)
    {
      if stage == Completed && correlation == x {
        return Release;
      }
      if stage != SnapshotApplied || correlation != x {
        return Reject;
      }
      stage := Completed;
      return Release;
    }
  }
}
