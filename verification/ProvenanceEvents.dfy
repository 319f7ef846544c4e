/** Which operations make which events, and when a thread is inside a quick action or a
    manual save, over whole runs. */
module ProvenanceEvents {
  import opened Basics
  import opened SaveProvenance

  /** The address an operation of a thread is about to give up on its own: the one it is
      armed with, if that request is still popped. */
  predicate Left(s: State, t: ThreadId, p: Ptr) { IsArmed(s, t, p) && IsPopped(s, p) }

  /** A successful push of the quick-save code. */
  predicate QuickPush(a: Action, p: Ptr) { a == Push(Some(p), QUICK_CODE, true) }

  /** A request is created exactly by a successful push of the quick-save code inside a quick
      action, for an address that is not tracked; it is queued under the next number. */
  lemma CreatedIff(s: State, n: Turn, p: Ptr, id: nat)
    requires n.action.Push? && n.action.request == Some(p)
    ensures Created(id) in At(s, n).events <==>
            QuickPush(n.action, p) && p !in s.requests && LocalOf(s, n.thread).quickDepth != 0 && id == s.created
    ensures Created(id) in At(s, n).events ==>
              Step(s, n).requests == s.requests[p := Token(id, Queued)] && Step(s, n).created == s.created + 1
  {
  }

  /** A tracked request is put back exactly by such a push of its address, inside a quick
      action or not. */
  lemma RequeuedIff(s: State, n: Turn, id: nat)
    ensures Requeued(id) in At(s, n).events <==>
            exists p :: p in s.requests && s.requests[p].id == id && QuickPush(n.action, p)
    ensures forall p :: p in s.requests && QuickPush(n.action, p) ==>
              Step(s, n).requests == s.requests[p := s.requests[p].(state := Queued)]
              && !IsArmed(Step(s, n), n.thread, p)
  {
    var e := At(s, n);
    if n.action.Push? && n.action.request.Some? && QuickPush(n.action, n.action.request.value) {
      var p := n.action.request.value;
      assert p in s.requests ==> e.events == [Requeued(s.requests[p].id)];
    }
  }

  /** A tracked request is taken exactly by a pop of its address under the quick-save code,
      unless the thread gives that very request up by popping; the thread is then armed. */
  lemma TakenIff(s: State, n: Turn, id: nat)
    ensures Taken(id) in At(s, n).events <==>
            exists p :: p in s.requests && s.requests[p].id == id && n.action == Pop(Some(p), QUICK_CODE)
                        && !Left(s, n.thread, p)
    ensures forall p :: p in s.requests && n.action == Pop(Some(p), QUICK_CODE) && !Left(s, n.thread, p) ==>
              IsArmed(Step(s, n), n.thread, p) && IsPopped(Step(s, n), p)
  {
    if n.action.Pop? && n.action.request.Some? {
      var p := n.action.request.value;
      var l := LocalOf(s, n.thread);
      var (cleared, _, events) := ClearArmed(s.requests, l);
      assert p in cleared <==> p in s.requests && !Left(s, n.thread, p);
      assert forall id :: Taken(id) !in events;
    }
  }

  /** A request is consumed, and the Quick verdict given, exactly when a thread asks that is
      armed with it while it is popped and has no Manual verdict to come. */
  lemma ConsumedIff(s: State, n: Turn, id: nat)
    ensures Consumed(id) in At(s, n).events <==>
            && n.action == Consume && !AsksManual(LocalOf(s, n.thread))
            && exists p :: p in s.requests && s.requests[p].id == id && Left(s, n.thread, p)
    ensures At(s, n).verdict == Quick <==> exists id :: Consumed(id) in At(s, n).events
    ensures At(s, n).verdict == Manual <==> n.action == Consume && AsksManual(LocalOf(s, n.thread))
  {
    var e := At(s, n);
    if e.verdict == Quick {
      assert Consumed(s.requests[LocalOf(s, n.thread).armed.value].id) in e.events;
    }
  }

  /** The operations that drop the request under an address: a push that is no quick push, a
      pop under another code, and giving it up at a pop or at the end of a save. */
  predicate Drops(s: State, n: Turn, p: Ptr) {
    || (n.action.Push? && n.action.request == Some(p) && !QuickPush(n.action, p))
    || (n.action.Pop? && n.action.request == Some(p) && n.action.code != QUICK_CODE)
    || ((n.action.Pop? || n.action.FinishBoundary?) && Left(s, n.thread, p))
  }

  lemma ClearedDrops(s: State, t: ThreadId, id: nat)
    ensures var r := ClearArmed(s.requests, LocalOf(s, t));
            && (Dropped(id) in r.2 <==> exists p :: p in s.requests && s.requests[p].id == id && Left(s, t, p))
            && (forall p :: p in r.0 <==> p in s.requests && !Left(s, t, p))
            && (forall p :: p in r.0 ==> r.0[p] == s.requests[p])
  {
    var l := LocalOf(s, t);
    if l.armed.Some? && l.armed.value in s.requests && s.requests[l.armed.value].state == Popped {
      assert Left(s, t, l.armed.value);
    }
  }

  /** A tracked request is dropped exactly by these operations. */
  lemma DroppedIff(s: State, n: Turn, id: nat)
    ensures Dropped(id) in At(s, n).events <==>
            exists p :: p in s.requests && s.requests[p].id == id && Drops(s, n, p)
  {
    hide ClearArmed;
    ClearedDrops(s, n.thread, id);
    var e := At(s, n);
    match n.action
    case Push(request, code, succeeded) => DroppedByPush(s, n, id);
    case Pop(request, code) => DroppedByPop(s, n, id);
    case _ =>
  }

  lemma DroppedByPush(s: State, n: Turn, id: nat)
    requires n.action.Push?
    ensures Dropped(id) in At(s, n).events <==>
            exists p :: p in s.requests && s.requests[p].id == id && Drops(s, n, p)
  {
    hide ClearArmed;
    if n.action.request.Some? {
      var p := n.action.request.value;
      assert Drops(s, n, p) <==> !QuickPush(n.action, p);
    }
  }

  lemma DroppedByPop(s: State, n: Turn, id: nat)
    requires n.action.Pop?
    ensures Dropped(id) in At(s, n).events <==>
            exists p :: p in s.requests && s.requests[p].id == id && Drops(s, n, p)
  {
    hide ClearArmed;
    ClearedDrops(s, n.thread, id);
    if n.action.request.Some? {
      var p := n.action.request.value;
      assert p in s.requests && n.action.code != QUICK_CODE ==> Drops(s, n, p);
    }
    assert forall p :: Left(s, n.thread, p) ==> Drops(s, n, p);
  }

  /*
   * Scopes
   */

  /** How many more quick actions, or manual saves, a thread has begun than ended. */
  function Balance(turns: seq<Turn>, t: ThreadId, quick: bool): int {
    if turns == [] then 0
    else
      var n := |turns| - 1;
      var a := turns[n].action;
      Balance(turns[..n], t, quick)
      + if turns[n].thread != t then 0
        else if a == (if quick then BeginQuick(true) else BeginManual) then 1
        else if a == (if quick then EndQuick(true) else EndManual) then -1
        else 0
  }

  function Depth(s: State, t: ThreadId, quick: bool): nat {
    if quick then LocalOf(s, t).quickDepth else LocalOf(s, t).manualDepth
  }

  lemma DepthStep(s: State, n: Turn, t: ThreadId, quick: bool)
    ensures Depth(Step(s, n), t, quick) ==
            if n.thread == t && n.action == (if quick then BeginQuick(true) else BeginManual)
            then Depth(s, t, quick) + 1
            else if n.thread == t && n.action == (if quick then EndQuick(true) else EndManual) && Depth(s, t, quick) > 0
            then Depth(s, t, quick) - 1
            else Depth(s, t, quick)
  {
  }

  /** The depth of a thread is the most it has begun more than ended since any moment. */
  lemma {:induction false} DepthIs(turns: seq<Turn>, t: ThreadId, quick: bool) returns (k: nat)
    ensures k <= |turns| && Depth(After(turns), t, quick) == Balance(turns[k..], t, quick)
    ensures forall j :: 0 <= j <= |turns| ==> Balance(turns[j..], t, quick) <= Depth(After(turns), t, quick)
  {
    hide EffectOf, Depth, Step;
    if turns == [] {
      k := 0;
      NothingYet(t, quick);
    } else {
      var n := |turns| - 1;
      k := DepthIs(turns[..n], t, quick);
      DepthStep(After(turns[..n]), turns[n], t, quick);
      forall j | 0 <= j <= n
        ensures Balance(turns[j..], t, quick) ==
                Balance(turns[..n][j..], t, quick) + Balance([turns[n]], t, quick)
      {
        BalanceSnoc(turns, j, t, quick);
      }
      assert turns[|turns|..] == [];
      OneTurn(turns[n], t, quick);
      if Balance([turns[n]], t, quick) == -1 && Depth(After(turns[..n]), t, quick) == 0 {
        k := |turns|;
      }
    }
  }

  lemma NothingYet(t: ThreadId, quick: bool)
    ensures Depth(After([]), t, quick) == 0
  {
  }

  lemma OneTurn(n: Turn, t: ThreadId, quick: bool)
    ensures Balance([n], t, quick) ==
            if n.thread != t then 0
            else if n.action == (if quick then BeginQuick(true) else BeginManual) then 1
            else if n.action == (if quick then EndQuick(true) else EndManual) then -1
            else 0
  {
    assert [n][..0] == [];
    assert Balance([n][..0], t, quick) == 0;
  }

  lemma BalanceSnoc(turns: seq<Turn>, j: nat, t: ThreadId, quick: bool)
    requires turns != [] && j < |turns|
    ensures Balance(turns[j..], t, quick) ==
            Balance(turns[..|turns| - 1][j..], t, quick) + Balance([turns[|turns| - 1]], t, quick)
  {
    var n := |turns| - 1;
    var rest := turns[j..];
    assert rest[..|rest| - 1] == turns[..n][j..] && rest[|rest| - 1] == turns[n];
    OneTurn(turns[n], t, quick);
  }

  /** A thread is inside a quick action, or a manual save, exactly when it has begun more of
      them than ended since some moment. */
  lemma InsideIff(turns: seq<Turn>, t: ThreadId, quick: bool)
    ensures Depth(After(turns), t, quick) > 0 <==>
            exists k :: 0 <= k <= |turns| && Balance(turns[k..], t, quick) > 0
  {
    hide Depth, Balance, After;
    var k := DepthIs(turns, t, quick);
  }
}
