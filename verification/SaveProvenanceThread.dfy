/** The shared table of quick-save requests and a thread's own view as the objects the
    program keeps. */
module SaveProvenanceThread {
  import opened Basics
  import opened SaveProvenance

  /** The table behind the lock. */
  class QuickRequests {
    var byPointer: map<Ptr, Token>
    var created: nat

    constructor ()
      ensures byPointer == map[] && created == 0
    {
      byPointer, created := map[], 0;
    }
  }

  class CampaignSaveProvenance {
    const shared: QuickRequests
    var armed: Option<Ptr>
    var quickActionDepth: nat
    var manualNewSlotDepth: nat
    var manualNewSlotConsumed: bool

    constructor (table: QuickRequests)
      ensures shared == table && Own() == IDLE
    {
      shared := table;
      armed, quickActionDepth, manualNewSlotDepth, manualNewSlotConsumed := None, 0, 0, false;
    }

    ghost function Own(): Local
      reads this
    {
      Local(armed, quickActionDepth, manualNewSlotDepth, manualNewSlotConsumed)
    }

    ghost predicate Shows(e: Effect)
      reads this, shared
    {
      shared.byPointer == e.requests && shared.created == e.created && Own() == e.local
    }

    ghost function Does(a: Action): Effect
      reads this, shared
    {
      EffectOf(shared.byPointer, shared.created, Own(), a)
    }

    method BeginQuickAction(active: bool)
      modifies this`quickActionDepth
      ensures Shows(old(Does(BeginQuick(active))))
    {
      if active {
        quickActionDepth := quickActionDepth + 1;
      }
    }

    method EndQuickAction(active: bool)
      modifies this`quickActionDepth
      ensures Shows(old(Does(EndQuick(active))))
    {
      if active && quickActionDepth != 0 {
        quickActionDepth := quickActionDepth - 1;
      }
    }

    method BeginManualNewSlot()
      modifies this`manualNewSlotDepth, this`manualNewSlotConsumed
      ensures Shows(old(Does(BeginManual)))
    {
      if manualNewSlotDepth == 0 {
        manualNewSlotConsumed := false;
      }
      manualNewSlotDepth := manualNewSlotDepth + 1;
    }

    method EndManualNewSlot()
      modifies this`manualNewSlotDepth, this`manualNewSlotConsumed
      ensures Shows(old(Does(EndManual)))
    {
      if manualNewSlotDepth != 0 {
        manualNewSlotDepth := manualNewSlotDepth - 1;
        if manualNewSlotDepth == 0 {
          manualNewSlotConsumed := false;
        }
      }
    }

    method ClearArmedQuickRequest()
      modifies this`armed, shared`byPointer
      ensures var (cleared, own, _) := ClearArmed(old(shared.byPointer), old(Own()));
              shared.byPointer == cleared && Own() == own
    {
      if armed.None? {
        return;
      }
      if armed.value in shared.byPointer && shared.byPointer[armed.value].state == Popped {
        shared.byPointer := shared.byPointer - {armed.value};
      }
      armed := None;
    }

    method ObserveQuickRequestPush(request: Option<Ptr>, code: u32, succeeded: bool)
      modifies this`armed, shared
      ensures Shows(old(Does(Push(request, code, succeeded))))
    {
      if request.None? {
        return;
      }
      var p := request.value;
      if !succeeded || code != QUICK_CODE {
        shared.byPointer := shared.byPointer - {p};
        if armed == Some(p) {
          armed := None;
        }
        return;
      }
      if p in shared.byPointer {
        shared.byPointer := shared.byPointer[p := shared.byPointer[p].(state := Queued)];
        if armed == Some(p) {
          armed := None;
        }
        return;
      }
      if quickActionDepth != 0 {
        shared.byPointer := shared.byPointer[p := Token(shared.created, Queued)];
        shared.created := shared.created + 1;
      }
    }

    method ObserveQuickRequestPop(request: Option<Ptr>, code: u32)
      modifies this`armed, shared`byPointer
      ensures Shows(old(Does(Pop(request, code))))
    {
      ClearArmedQuickRequest();
      if request.None? || request.value !in shared.byPointer {
        return;
      }
      var p := request.value;
      if code != QUICK_CODE {
        shared.byPointer := shared.byPointer - {p};
        return;
      }
      shared.byPointer := shared.byPointer[p := shared.byPointer[p].(state := Popped)];
      armed := Some(p);
    }

    method ConsumeProvenance() returns (verdict: Verdict)
      modifies this`armed, this`manualNewSlotConsumed, shared`byPointer
      ensures Shows(old(Does(Consume)))
      ensures verdict == old(Does(Consume)).verdict
    {
      if manualNewSlotDepth != 0 && !manualNewSlotConsumed {
        manualNewSlotConsumed := true;
        return Manual;
      }
      if armed.None? {
        return Nothing;
      }
      if armed.value !in shared.byPointer || shared.byPointer[armed.value].state != Popped {
        armed := None;
        return Nothing;
      }
      shared.byPointer := shared.byPointer - {armed.value};
      armed := None;
      return Quick;
    }

    method FinishQuickProcessBoundary()
      modifies this`armed, shared`byPointer
      ensures Shows(old(Does(FinishBoundary)))
    {
      ClearArmedQuickRequest();
    }
  }
}
