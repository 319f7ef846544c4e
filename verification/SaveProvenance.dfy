/** Where a native save came from: the table of quick-save requests shared by all
    threads, and what each thread keeps for itself. Every operation is one critical
    section, so a run is any interleaving of operations of any threads. */
module SaveProvenance {
  import opened Basics

  const QUICK_CODE: u32 := 0xF000_0200

  /** The address of a native request; the null pointer is no address. */
  type Ptr = nat

  type ThreadId = nat

  datatype RequestState = Queued | Popped

  /** A tracked request. The numbers tell the requests apart that use one address in
      turn; the program needs only the address and the state. */
  datatype Token = Token(id: nat, state: RequestState)

  datatype Local = Local(armed: Option<Ptr>, quickDepth: nat, manualDepth: nat, manualConsumed: bool)

  datatype State = State(requests: map<Ptr, Token>, created: nat, locals: map<ThreadId, Local>)

  const IDLE := Local(None, 0, 0, false)

  const START := State(map[], 0, map[])

  datatype Action =
    | BeginQuick(active: bool)
    | EndQuick(active: bool)
    | BeginManual
    | EndManual
    | Push(request: Option<Ptr>, code: u32, succeeded: bool)
    | Pop(request: Option<Ptr>, code: u32)
    | Consume
    | FinishBoundary

  datatype Verdict = Nothing | Manual | Quick

  /** What happens to the request with a number. */
  datatype Event =
    | Created(id: nat)
    | Taken(id: nat)
    | Requeued(id: nat)
    | Dropped(id: nat)
    | Consumed(id: nat)

  datatype Effect = Effect(requests: map<Ptr, Token>, created: nat, local: Local, verdict: Verdict, events: seq<Event>)

  function LocalOf(s: State, t: ThreadId): Local { if t in s.locals then s.locals[t] else IDLE }

  /** Forgets the armed request, and drops it if it is still popped. */
  function ClearArmed(requests: map<Ptr, Token>, l: Local): (map<Ptr, Token>, Local, seq<Event>) {
    if l.armed.Some? && l.armed.value in requests && requests[l.armed.value].state == Popped
    then (requests - {l.armed.value}, l.(armed := None), [Dropped(requests[l.armed.value].id)])
    else (requests, l.(armed := None), [])
  }

  function Disarm(l: Local, p: Ptr): Local { if l.armed == Some(p) then l.(armed := None) else l }

  function PushEffect(requests: map<Ptr, Token>, created: nat, l: Local, p: Ptr, quick: bool): Effect {
    if !quick
    then Effect(requests - {p}, created, Disarm(l, p), Nothing,
                if p in requests then [Dropped(requests[p].id)] else [])
    else if p in requests
    then Effect(requests[p := requests[p].(state := Queued)], created, Disarm(l, p), Nothing,
                [Requeued(requests[p].id)])
    else if l.quickDepth != 0
    then Effect(requests[p := Token(created, Queued)], created + 1, l, Nothing, [Created(created)])
    else Effect(requests, created, l, Nothing, [])
  }

  function PopEffect(requests: map<Ptr, Token>, created: nat, l: Local, request: Option<Ptr>, code: u32): Effect {
    var (cleared, idle, events) := ClearArmed(requests, l);
    if request.None? || request.value !in cleared then Effect(cleared, created, idle, Nothing, events)
    else
      var p := request.value;
      if code != QUICK_CODE
      then Effect(cleared - {p}, created, idle, Nothing, events + [Dropped(cleared[p].id)])
      else Effect(cleared[p := cleared[p].(state := Popped)], created, idle.(armed := request), Nothing,
                  events + [Taken(cleared[p].id)])
  }

  function ConsumeEffect(requests: map<Ptr, Token>, created: nat, l: Local): Effect {
    if l.manualDepth != 0 && !l.manualConsumed
    then Effect(requests, created, l.(manualConsumed := true), Manual, [])
    else if l.armed.None? then Effect(requests, created, l, Nothing, [])
    else if l.armed.value !in requests || requests[l.armed.value].state != Popped
    then Effect(requests, created, l.(armed := None), Nothing, [])
    else Effect(requests - {l.armed.value}, created, l.(armed := None), Quick, [Consumed(requests[l.armed.value].id)])
  }

  /** The effect of one operation of a thread. */
  function EffectOf(requests: map<Ptr, Token>, created: nat, l: Local, a: Action): Effect {
    match a
    case BeginQuick(active) =>
      Effect(requests, created, if active then l.(quickDepth := l.quickDepth + 1) else l, Nothing, [])
    case EndQuick(active) =>
      Effect(requests, created,
             if active && l.quickDepth != 0 then l.(quickDepth := l.quickDepth - 1) else l, Nothing, [])
    case BeginManual =>
      Effect(requests, created,
             l.(manualDepth := l.manualDepth + 1, manualConsumed := l.manualDepth != 0 && l.manualConsumed),
             Nothing, [])
    case EndManual =>
      Effect(requests, created,
             if l.manualDepth == 0 then l
             else l.(manualDepth := l.manualDepth - 1, manualConsumed := l.manualDepth != 1 && l.manualConsumed),
             Nothing, [])
    case Push(request, code, succeeded) =>
      if request.None? then Effect(requests, created, l, Nothing, [])
      else PushEffect(requests, created, l, request.value, succeeded && code == QUICK_CODE)
    case Pop(request, code) => PopEffect(requests, created, l, request, code)
    case Consume => ConsumeEffect(requests, created, l)
    case FinishBoundary =>
      var (cleared, idle, events) := ClearArmed(requests, l);
      Effect(cleared, created, idle, Nothing, events)
  }

  datatype Turn = Turn(thread: ThreadId, action: Action)

  function At(s: State, n: Turn): Effect { EffectOf(s.requests, s.created, LocalOf(s, n.thread), n.action) }

  function Step(s: State, n: Turn): State {
    var e := At(s, n);
    State(e.requests, e.created, s.locals[n.thread := e.local])
  }

  /** The state after a run from the start. */
  function After(turns: seq<Turn>): State {
    if turns == [] then START else Step(After(turns[..|turns| - 1]), turns[|turns| - 1])
  }

  /** Everything that happened to requests in a run. */
  function Events(turns: seq<Turn>): seq<Event> {
    if turns == [] then []
    else Events(turns[..|turns| - 1]) + At(After(turns[..|turns| - 1]), turns[|turns| - 1]).events
  }

  function Verdicts(turns: seq<Turn>): seq<Verdict> {
    if turns == [] then []
    else Verdicts(turns[..|turns| - 1]) + [At(After(turns[..|turns| - 1]), turns[|turns| - 1]).verdict]
  }

  /*
   * The life of one request
   */

  datatype Life = Unborn | Alive(state: RequestState) | Lost | Used | Broken

  /** The only life a request may have: it is created queued, it is taken and requeued
      any number of times, and it ends once: dropped from any state, or consumed while
      it is taken. */
  function Live(life: Life, e: Event): Life {
    match e
    case Created(_) => if life == Unborn then Alive(Queued) else Broken
    case Taken(_) => if life.Alive? then Alive(Popped) else Broken
    case Requeued(_) => if life.Alive? then Alive(Queued) else Broken
    case Dropped(_) => if life.Alive? then Lost else Broken
    case Consumed(_) => if life == Alive(Popped) then Used else Broken
  }

  function LifeOf(id: nat, events: seq<Event>): Life {
    if events == [] then Unborn
    else
      var before := LifeOf(id, events[..|events| - 1]);
      if events[|events| - 1].id == id then Live(before, events[|events| - 1]) else before
  }

  lemma {:induction false} LifeSnoc(id: nat, events: seq<Event>, e: Event)
    ensures LifeOf(id, events + [e]) == if e.id == id then Live(LifeOf(id, events), e) else LifeOf(id, events)
  {
    assert (events + [e])[..|events|] == events;
  }

  ghost predicate IsLive(requests: map<Ptr, Token>, id: nat) { exists p :: p in requests && requests[p].id == id }

  predicate Ended(life: Life) { life == Lost || life == Used }

  /** The table holds exactly the requests that are alive, each under one address and
      in its state; every other one is not created yet, or ended for good. */
  ghost predicate Accounts(requests: map<Ptr, Token>, created: nat, events: seq<Event>) {
    && (forall p :: p in requests ==>
          requests[p].id < created && LifeOf(requests[p].id, events) == Alive(requests[p].state))
    && (forall p, q :: p in requests && q in requests && requests[p].id == requests[q].id ==> p == q)
    && (forall id: nat :: id < created ==> IsLive(requests, id) || Ended(LifeOf(id, events)))
    && (forall id: nat :: created <= id ==> LifeOf(id, events) == Unborn)
  }

  lemma DropKeeps(requests: map<Ptr, Token>, created: nat, events: seq<Event>, p: Ptr, e: Event)
    requires Accounts(requests, created, events) && p in requests && e.id == requests[p].id
    requires e.Dropped? || (e.Consumed? && requests[p].state == Popped)
    ensures Accounts(requests - {p}, created, events + [e])
  {
    forall id
      ensures LifeOf(id, events + [e]) == if id == e.id then Live(LifeOf(id, events), e) else LifeOf(id, events)
    {
      LifeSnoc(id, events, e);
    }
    forall id: nat | id < created ensures IsLive(requests - {p}, id) || Ended(LifeOf(id, events + [e])) {
      if id != e.id && IsLive(requests, id) {
        var q :| q in requests && requests[q].id == id;
        assert q in requests - {p};
      }
    }
  }

  lemma MoveKeeps(requests: map<Ptr, Token>, created: nat, events: seq<Event>, p: Ptr, e: Event)
    requires Accounts(requests, created, events) && p in requests && e.id == requests[p].id
    requires e.Taken? || e.Requeued?
    ensures Accounts(requests[p := requests[p].(state := if e.Taken? then Popped else Queued)], created, events + [e])
  {
    var next := requests[p := requests[p].(state := if e.Taken? then Popped else Queued)];
    forall id
      ensures LifeOf(id, events + [e]) == if id == e.id then Live(LifeOf(id, events), e) else LifeOf(id, events)
    {
      LifeSnoc(id, events, e);
    }
    forall id: nat | id < created ensures IsLive(next, id) || Ended(LifeOf(id, events + [e])) {
      if IsLive(requests, id) {
        var q :| q in requests && requests[q].id == id;
        assert q in next && next[q].id == id;
      }
    }
  }

  lemma CreateKeeps(requests: map<Ptr, Token>, created: nat, events: seq<Event>, p: Ptr)
    requires Accounts(requests, created, events) && p !in requests
    ensures Accounts(requests[p := Token(created, Queued)], created + 1, events + [Created(created)])
  {
    var e := Created(created);
    var next := requests[p := Token(created, Queued)];
    forall id
      ensures LifeOf(id, events + [e]) == if id == e.id then Live(LifeOf(id, events), e) else LifeOf(id, events)
    {
      LifeSnoc(id, events, e);
    }
    forall id: nat | id < created + 1 ensures IsLive(next, id) || Ended(LifeOf(id, events + [e])) {
      if id == created {
        assert p in next && next[p].id == id;
      } else if IsLive(requests, id) {
        var q :| q in requests && requests[q].id == id;
        assert q in next && next[q].id == id;
      }
    }
  }

  lemma ClearKeeps(requests: map<Ptr, Token>, created: nat, l: Local, events: seq<Event>)
    requires Accounts(requests, created, events)
    ensures var (cleared, _, more) := ClearArmed(requests, l); Accounts(cleared, created, events + more)
  {
    hide Accounts;
    if l.armed.Some? && l.armed.value in requests && requests[l.armed.value].state == Popped {
      DropKeeps(requests, created, events, l.armed.value, Dropped(requests[l.armed.value].id));
    } else {
      assert events + [] == events;
    }
  }

  lemma PushKeeps(requests: map<Ptr, Token>, created: nat, l: Local, p: Ptr, quick: bool, events: seq<Event>)
    requires Accounts(requests, created, events)
    ensures var e := PushEffect(requests, created, l, p, quick); Accounts(e.requests, e.created, events + e.events)
  {
    hide Accounts;
    assert events + [] == events;
    if p in requests {
      if quick {
        MoveKeeps(requests, created, events, p, Requeued(requests[p].id));
      } else {
        DropKeeps(requests, created, events, p, Dropped(requests[p].id));
      }
    } else if quick && l.quickDepth != 0 {
      CreateKeeps(requests, created, events, p);
    } else {
      assert requests - {p} == requests;
    }
  }

  lemma PopKeeps(requests: map<Ptr, Token>, created: nat, l: Local, request: Option<Ptr>, code: u32, events: seq<Event>)
    requires Accounts(requests, created, events)
    ensures var e := PopEffect(requests, created, l, request, code); Accounts(e.requests, e.created, events + e.events)
  {
    hide Accounts;
    var (cleared, _, more) := ClearArmed(requests, l);
    ClearKeeps(requests, created, l, events);
    if request.Some? && request.value in cleared {
      var p := request.value;
      if code == QUICK_CODE {
        MoveKeeps(cleared, created, events + more, p, Taken(cleared[p].id));
        assert events + (more + [Taken(cleared[p].id)]) == events + more + [Taken(cleared[p].id)];
      } else {
        DropKeeps(cleared, created, events + more, p, Dropped(cleared[p].id));
        assert events + (more + [Dropped(cleared[p].id)]) == events + more + [Dropped(cleared[p].id)];
      }
    }
  }

  lemma EffectKeeps(requests: map<Ptr, Token>, created: nat, l: Local, a: Action, events: seq<Event>)
    requires Accounts(requests, created, events)
    ensures var e := EffectOf(requests, created, l, a); Accounts(e.requests, e.created, events + e.events)
  {
    hide Accounts, PushEffect, PopEffect, ClearArmed;
    assert events + [] == events;
    match a
    case Push(request, code, succeeded) =>
      if request.Some? {
        PushKeeps(requests, created, l, request.value, succeeded && code == QUICK_CODE, events);
      }
    case Pop(request, code) => PopKeeps(requests, created, l, request, code, events);
    case Consume =>
      if !(l.manualDepth != 0 && !l.manualConsumed) && l.armed.Some? && l.armed.value in requests
         && requests[l.armed.value].state == Popped {
        DropKeeps(requests, created, events, l.armed.value, Consumed(requests[l.armed.value].id));
      }
    case FinishBoundary => ClearKeeps(requests, created, l, events);
    case _ =>
  }

  /** Over every interleaving, the life of every request is the allowed one, and the
      table shows exactly the requests that are still alive. */
  lemma {:induction false} EveryLifeIsProper(turns: seq<Turn>)
    ensures Accounts(After(turns).requests, After(turns).created, Events(turns))
  {
    if turns == [] {
      assert forall id: nat :: LifeOf(id, []) == Unborn;
    } else {
      hide Accounts, EffectOf;
      var n := |turns| - 1;
      var s := After(turns[..n]);
      EveryLifeIsProper(turns[..n]);
      EffectKeeps(s.requests, s.created, LocalOf(s, turns[n].thread), turns[n].action, Events(turns[..n]));
    }
  }

  /** What an ended life can still become. */
  lemma {:induction false} EndIsFinal(id: nat, events: seq<Event>, i: nat, j: nat)
    requires i <= j <= |events| && (Ended(LifeOf(id, events[..i])) || LifeOf(id, events[..i]) == Broken)
    ensures LifeOf(id, events[..j]) == LifeOf(id, events[..i]) || LifeOf(id, events[..j]) == Broken
    ensures (exists k :: i <= k < j && events[k].id == id) ==> LifeOf(id, events[..j]) == Broken
    decreases j - i
  {
    if i < j {
      EndIsFinal(id, events, i, j - 1);
      LifeSnoc(id, events[..j - 1], events[j - 1]);
      assert events[..j - 1] + [events[j - 1]] == events[..j];
    }
  }

  /** Once a request is consumed or dropped, nothing ever happens to it again; so no
      request gives two verdicts. It is consumed only while it is taken. */
  lemma ConsumedAtMostOnce(turns: seq<Turn>, i: nat, j: nat)
    requires i < j < |Events(turns)| && (Events(turns)[i].Consumed? || Events(turns)[i].Dropped?)
    ensures Events(turns)[j].id != Events(turns)[i].id
    ensures Events(turns)[i].Consumed? ==> LifeOf(Events(turns)[i].id, Events(turns)[..i]) == Alive(Popped)
  {
    var events := Events(turns);
    var id := events[i].id;
    EveryLifeIsProper(turns);
    assert LifeOf(id, events) != Broken by {
      var s := After(turns);
      if id < s.created && IsLive(s.requests, id) {
        var p :| p in s.requests && s.requests[p].id == id;
      }
    }
    assert events[..|events|] == events;
    LifeSnoc(id, events[..i], events[i]);
    assert events[..i] + [events[i]] == events[..i + 1];
    EndIsFinal(id, events, i + 1, |events|);
  }

  /*
   * Conservation
   */

  function Drops(events: seq<Event>): nat {
    if events == [] then 0 else Drops(events[..|events| - 1]) + if events[|events| - 1].Dropped? then 1 else 0
  }

  function Creations(events: seq<Event>): nat {
    if events == [] then 0 else Creations(events[..|events| - 1]) + if events[|events| - 1].Created? then 1 else 0
  }

  function Quicks(verdicts: seq<Verdict>): nat {
    if verdicts == [] then 0 else Quicks(verdicts[..|verdicts| - 1]) + if verdicts[|verdicts| - 1].Quick? then 1 else 0
  }

  lemma {:induction false} CountsAppend(a: seq<Event>, b: seq<Event>)
    requires |b| <= 2
    ensures Drops(a + b) == Drops(a) + Drops(b) && Creations(a + b) == Creations(a) + Creations(b)
    decreases |b|
  {
    if b == [] {
      assert a + b == a;
    } else {
      var n := |b| - 1;
      CountsAppend(a, b[..n]);
      assert (a + b)[..|a + b| - 1] == a + b[..n];
    }
  }

  lemma CountOne(e: Event)
    ensures Drops([]) == Creations([]) == 0
    ensures Drops([e]) == (if e.Dropped? then 1 else 0) && Creations([e]) == if e.Created? then 1 else 0
  {
    assert [e][..0] == [];
  }

  lemma OneFewer(requests: map<Ptr, Token>, p: Ptr)
    requires p in requests
    ensures |requests - {p}| == |requests| - 1
  {
    assert (requests - {p}).Keys == requests.Keys - {p};
  }

  lemma ClearConserves(requests: map<Ptr, Token>, l: Local)
    ensures var (cleared, _, events) := ClearArmed(requests, l);
            |events| <= 1 && |cleared| + Drops(events) == |requests| && Creations(events) == 0
  {
    if l.armed.Some? && l.armed.value in requests {
      OneFewer(requests, l.armed.value);
    }
  }

  /** What one operation adds to the table it also adds to the books. */
  ghost predicate Balances(requests: map<Ptr, Token>, created: nat, e: Effect) {
    && |e.events| <= 2 && e.created == created + Creations(e.events)
    && |requests| + Creations(e.events) == |e.requests| + Drops(e.events) + (if e.verdict.Quick? then 1 else 0)
  }

  lemma PushConserves(requests: map<Ptr, Token>, created: nat, l: Local, p: Ptr, quick: bool)
    ensures Balances(requests, created, PushEffect(requests, created, l, p, quick))
  {
    hide Drops, Creations;
    CountOne(Created(created));
    if p in requests {
      CountOne(Dropped(requests[p].id));
      CountOne(Requeued(requests[p].id));
      OneFewer(requests, p);
      assert requests[p := requests[p].(state := Queued)].Keys == requests.Keys;
    } else {
      assert requests - {p} == requests;
      assert requests[p := Token(created, Queued)].Keys == requests.Keys + {p};
    }
  }

  lemma PopConserves(requests: map<Ptr, Token>, created: nat, l: Local, request: Option<Ptr>, code: u32)
    ensures Balances(requests, created, PopEffect(requests, created, l, request, code))
  {
    var (cleared, _, more) := ClearArmed(requests, l);
    ClearConserves(requests, l);
    hide ClearArmed, Drops, Creations;
    if request.Some? && request.value in cleared {
      var p := request.value;
      CountOne(Dropped(cleared[p].id));
      CountOne(Taken(cleared[p].id));
      OneFewer(cleared, p);
      assert cleared[p := cleared[p].(state := Popped)].Keys == cleared.Keys;
      CountsAppend(more, [Dropped(cleared[p].id)]);
      CountsAppend(more, [Taken(cleared[p].id)]);
    }
  }

  lemma ConsumeConserves(requests: map<Ptr, Token>, created: nat, l: Local)
    ensures Balances(requests, created, ConsumeEffect(requests, created, l))
  {
    hide Drops, Creations;
    CountOne(Created(created));
    if l.armed.Some? && l.armed.value in requests {
      CountOne(Consumed(requests[l.armed.value].id));
      OneFewer(requests, l.armed.value);
    }
  }

  lemma EffectConserves(requests: map<Ptr, Token>, created: nat, l: Local, a: Action)
    ensures Balances(requests, created, EffectOf(requests, created, l, a))
  {
    hide PushEffect, PopEffect, ClearArmed, ConsumeEffect, Drops, Creations;
    CountOne(Created(created));
    match a
    case Push(request, code, succeeded) =>
      if request.Some? {
        hide Balances;
        PushConserves(requests, created, l, request.value, succeeded && code == QUICK_CODE);
      }
    case Pop(request, code) =>
      hide Balances;
      PopConserves(requests, created, l, request, code);
    case Consume =>
      hide Balances;
      ConsumeConserves(requests, created, l);
    case FinishBoundary => ClearConserves(requests, l);
    case _ =>
  }

  /** Over every interleaving: Quick verdicts, dropped requests and live requests
      together are exactly the requests created. */
  lemma {:induction false} RequestsAreConserved(turns: seq<Turn>)
    ensures Quicks(Verdicts(turns)) + Drops(Events(turns)) + |After(turns).requests| == Creations(Events(turns))
    ensures Creations(Events(turns)) == After(turns).created
  {
    if turns != [] {
      var n := |turns| - 1;
      var s := After(turns[..n]);
      var e := At(s, turns[n]);
      RequestsAreConserved(turns[..n]);
      EffectConserves(s.requests, s.created, LocalOf(s, turns[n].thread), turns[n].action);
      hide EffectOf;
      CountsAppend(Events(turns[..n]), e.events);
      assert Verdicts(turns)[..|Verdicts(turns)| - 1] == Verdicts(turns[..n]);
    }
  }

  /** A request begins its life only on a successful push of the quick-save code by a
      thread inside a quick action. */
  lemma CreatedInQuickAction(s: State, n: Turn, id: nat)
    requires Created(id) in At(s, n).events
    ensures n.action.Push? && n.action.request.Some? && n.action.code == QUICK_CODE && n.action.succeeded
    ensures LocalOf(s, n.thread).quickDepth != 0 && n.action.request.value !in s.requests
  {
    var (_, _, more) := ClearArmed(s.requests, LocalOf(s, n.thread));
    assert Created(id) !in more;
  }

  /*
   * Armed requests
   */

  /** Every popped request is armed on some thread. */
  ghost predicate PoppedAreArmed(s: State) {
    forall p :: p in s.requests && s.requests[p].state == Popped ==>
      exists t :: t in s.locals && s.locals[t].armed == Some(p)
  }

  /** A request is popped after an operation only if it is armed on the acting thread,
      or was popped before and armed elsewhere if at all; and an armed thread is armed
      with a popped request if it was before. */
  ghost predicate ArmsWell(requests: map<Ptr, Token>, l: Local, e: Effect) {
    && (forall p :: p in e.requests && e.requests[p].state == Popped && e.local.armed != Some(p) ==>
          p in requests && requests[p].state == Popped && l.armed != Some(p))
    && ((l.armed.Some? ==> l.armed.value in requests && requests[l.armed.value].state == Popped) ==>
          e.local.armed.Some? ==> e.local.armed.value in e.requests && e.requests[e.local.armed.value].state == Popped)
  }

  lemma PushArmsWell(requests: map<Ptr, Token>, created: nat, l: Local, p: Ptr, quick: bool)
    ensures ArmsWell(requests, l, PushEffect(requests, created, l, p, quick))
  {
  }

  lemma PopArmsWell(requests: map<Ptr, Token>, created: nat, l: Local, request: Option<Ptr>, code: u32)
    ensures ArmsWell(requests, l, PopEffect(requests, created, l, request, code))
  {
  }

  lemma EffectArmsWell(requests: map<Ptr, Token>, created: nat, l: Local, a: Action)
    ensures ArmsWell(requests, l, EffectOf(requests, created, l, a))
  {
    hide PushEffect, PopEffect;
    match a
    case Push(request, code, succeeded) =>
      if request.Some? {
        hide ArmsWell;
        PushArmsWell(requests, created, l, request.value, succeeded && code == QUICK_CODE);
      }
    case Pop(request, code) =>
      hide ArmsWell;
      PopArmsWell(requests, created, l, request, code);
    case _ =>
  }

  lemma StepKeepsArmed(s: State, n: Turn)
    requires PoppedAreArmed(s)
    ensures PoppedAreArmed(Step(s, n))
  {
    var next := Step(s, n);
    EffectArmsWell(s.requests, s.created, LocalOf(s, n.thread), n.action);
    hide EffectOf;
    forall p | p in next.requests && next.requests[p].state == Popped
      ensures exists t :: t in next.locals && next.locals[t].armed == Some(p)
    {
      if next.locals[n.thread].armed != Some(p) {
        var t :| t in s.locals && s.locals[t].armed == Some(p);
        assert next.locals[t] == s.locals[t];
      }
    }
  }

  /** Over every interleaving no popped request is forgotten: when no thread is armed,
      nothing but queued requests is left. */
  lemma {:induction false} NoPoppedLeftBehind(turns: seq<Turn>)
    ensures PoppedAreArmed(After(turns))
    ensures (forall t :: t in After(turns).locals ==> After(turns).locals[t].armed.None?) ==>
              forall p :: p in After(turns).requests ==> After(turns).requests[p].state == Queued
  {
    if turns != [] {
      hide Step, At;
      var n := |turns| - 1;
      NoPoppedLeftBehind(turns[..n]);
      StepKeepsArmed(After(turns[..n]), turns[n]);
    }
  }

  /** With one thread, the armed pointer is the only popped request. */
  lemma {:induction false} OnlyPoppedIsArmed(turns: seq<Turn>, t: ThreadId)
    requires forall i :: 0 <= i < |turns| ==> turns[i].thread == t
    ensures var s := After(turns);
            forall p :: p in s.requests && s.requests[p].state == Popped <==> LocalOf(s, t).armed == Some(p)
  {
    if turns != [] {
      var n := |turns| - 1;
      var s := After(turns[..n]);
      OnlyPoppedIsArmed(turns[..n], t);
      EffectArmsWell(s.requests, s.created, LocalOf(s, t), turns[n].action);
      hide EffectOf;
    }
  }

  /*
   * Armed threads under interleaving
   */

  predicate IsPopped(s: State, p: Ptr) { p in s.requests && s.requests[p].state == Popped }

  predicate IsArmed(s: State, t: ThreadId, p: Ptr) { LocalOf(s, t).armed == Some(p) }

  /** The next verdict of a thread is the Manual one. */
  predicate AsksManual(l: Local) { l.manualDepth != 0 && !l.manualConsumed }

  /** A thread takes a tracked request off the queue, and is armed with it. */
  predicate Takes(s: State, n: Turn, p: Ptr) {
    && n.action == Pop(Some(p), QUICK_CODE) && p in s.requests
    && !(IsArmed(s, n.thread, p) && IsPopped(s, p))
  }

  /** The turns that end a pop: pushing the request again, popping it as something else,
      and what an armed thread does next, which is to consume it, to pop, or to finish. */
  predicate GivesUp(s: State, n: Turn, p: Ptr) {
    match n.action
    case Push(request, _, _) => request == Some(p)
    case Pop(request, code) => IsArmed(s, n.thread, p) || (request == Some(p) && code != QUICK_CODE)
    case Consume => IsArmed(s, n.thread, p) && !AsksManual(LocalOf(s, n.thread))
    case FinishBoundary => IsArmed(s, n.thread, p)
    case _ => false
  }

  lemma PoppedStep(s: State, n: Turn, p: Ptr)
    ensures IsPopped(Step(s, n), p) <==> Takes(s, n, p) || (IsPopped(s, p) && !GivesUp(s, n, p))
  {
  }

  /** A thread is armed with a request only by taking it, and is disarmed by giving it
      up while it is popped. */
  lemma ArmedStep(s: State, n: Turn, t: ThreadId, p: Ptr)
    ensures IsArmed(Step(s, n), t, p) ==> IsArmed(s, t, p) || (n.thread == t && Takes(s, n, p))
    ensures n.thread == t && IsArmed(s, t, p) && IsPopped(s, p) && GivesUp(s, n, p) ==> !IsArmed(Step(s, n), t, p)
    ensures n.thread == t && Takes(s, n, p) ==> IsArmed(Step(s, n), t, p)
  {
  }

  predicate TakesAt(turns: seq<Turn>, k: nat, p: Ptr)
    requires k < |turns|
  {
    Takes(After(turns[..k]), turns[k], p)
  }

  predicate GivesUpAt(turns: seq<Turn>, k: nat, p: Ptr)
    requires k < |turns|
  {
    GivesUp(After(turns[..k]), turns[k], p)
  }

  lemma AfterNext(turns: seq<Turn>, k: nat)
    requires k < |turns|
    ensures After(turns[..k + 1]) == Step(After(turns[..k]), turns[k])
  {
    assert turns[..k + 1][..k] == turns[..k];
  }

  /** A taken request stays popped while nobody gives it up. */
  lemma {:induction false} StaysPopped(turns: seq<Turn>, k: nat, m: nat, p: Ptr)
    requires k < m <= |turns| && TakesAt(turns, k, p)
    requires forall j :: k < j < m ==> !GivesUpAt(turns, j, p)
    ensures IsPopped(After(turns[..m]), p)
    decreases m - k
  {
    hide Takes, GivesUp, Step;
    AfterNext(turns, m - 1);
    PoppedStep(After(turns[..m - 1]), turns[m - 1], p);
    if m > k + 1 {
      StaysPopped(turns, k, m - 1, p);
      assert !GivesUpAt(turns, m - 1, p);
    }
  }

  /** The turn a popped request was taken at. */
  lemma {:induction false} LastTaken(turns: seq<Turn>, m: nat, p: Ptr) returns (k: nat)
    requires m <= |turns| && IsPopped(After(turns[..m]), p)
    ensures k < m && TakesAt(turns, k, p) && forall j :: k < j < m ==> !GivesUpAt(turns, j, p)
    decreases m
  {
    hide Takes, GivesUp, Step;
    assert turns[..0] == [];
    AfterNext(turns, m - 1);
    PoppedStep(After(turns[..m - 1]), turns[m - 1], p);
    if TakesAt(turns, m - 1, p) {
      k := m - 1;
    } else {
      k := LastTaken(turns, m - 1, p);
    }
  }

  /** Over every interleaving: a request is popped exactly when some thread took it
      and no thread has given it up since. */
  lemma PoppedIff(turns: seq<Turn>, p: Ptr)
    ensures IsPopped(After(turns), p) <==>
            exists k :: 0 <= k < |turns| && TakesAt(turns, k, p)
              && forall j :: k < j < |turns| ==> !GivesUpAt(turns, j, p)
  {
    hide After, IsPopped, TakesAt, GivesUpAt;
    assert turns[..|turns|] == turns;
    if IsPopped(After(turns), p) {
      var k := LastTaken(turns, |turns|, p);
    }
    if k :| 0 <= k < |turns| && TakesAt(turns, k, p) && forall j :: k < j < |turns| ==> !GivesUpAt(turns, j, p) {
      StaysPopped(turns, k, |turns|, p);
    }
  }

  /** A thread took a request, has not taken it again since, and is still armed with it. */
  ghost predicate ArmedSince(turns: seq<Turn>, i: nat, t: ThreadId, p: Ptr) {
    && i < |turns| && turns[i].thread == t && TakesAt(turns, i, p) && IsArmed(After(turns), t, p)
    && forall j :: i < j < |turns| && turns[j].thread == t ==> !TakesAt(turns, j, p)
  }

  lemma {:induction false} ArmedThroughout(turns: seq<Turn>, i: nat, j: nat, t: ThreadId, p: Ptr)
    requires ArmedSince(turns, i, t, p) && i < j <= |turns|
    ensures IsArmed(After(turns[..j]), t, p)
    decreases |turns| - j
  {
    hide Takes, IsArmed, Step;
    if j == |turns| {
      assert turns[..j] == turns;
    } else {
      ArmedThroughout(turns, i, j + 1, t, p);
      AfterNext(turns, j);
      ArmedStep(After(turns[..j]), turns[j], t, p);
    }
  }

  /** Its own turns have not given the request up while it was popped. */
  lemma OwnTurnsKeep(turns: seq<Turn>, i: nat, j: nat, t: ThreadId, p: Ptr)
    requires ArmedSince(turns, i, t, p) && i < j < |turns| && turns[j].thread == t && IsPopped(After(turns[..j]), p)
    ensures !GivesUpAt(turns, j, p)
  {
    hide Takes, GivesUp, IsArmed, Step, IsPopped;
    ArmedThroughout(turns, i, j, t, p);
    ArmedThroughout(turns, i, j + 1, t, p);
    AfterNext(turns, j);
    ArmedStep(After(turns[..j]), turns[j], t, p);
  }

  /** A turn of another thread gives the request up. */
  predicate OtherGivesUp(turns: seq<Turn>, j: nat, t: ThreadId, p: Ptr)
    requires j < |turns|
  {
    turns[j].thread != t && GivesUpAt(turns, j, p)
  }

  /** The request was taken at this turn, by the thread itself or another one, and no
      other thread has given it up since. */
  ghost predicate LeftAlone(turns: seq<Turn>, k: nat, t: ThreadId, p: Ptr) {
    k < |turns| && TakesAt(turns, k, p) && forall j :: k < j < |turns| ==> !OtherGivesUp(turns, j, t, p)
  }

  lemma {:induction false} LeftAloneStays(turns: seq<Turn>, i: nat, k: nat, m: nat, t: ThreadId, p: Ptr)
    requires ArmedSince(turns, i, t, p) && LeftAlone(turns, k, t, p) && i <= k < m <= |turns|
    ensures IsPopped(After(turns[..m]), p)
    decreases m
  {
    hide Takes, GivesUp, Step, IsPopped, IsArmed;
    AfterNext(turns, m - 1);
    PoppedStep(After(turns[..m - 1]), turns[m - 1], p);
    if m > k + 1 {
      LeftAloneStays(turns, i, k, m - 1, t, p);
      assert !OtherGivesUp(turns, m - 1, t, p);
      if turns[m - 1].thread == t {
        OwnTurnsKeep(turns, i, m - 1, t, p);
      }
    }
  }

  /** A thread that is armed with a request since some turn still finds it popped, and
      gets the Quick verdict if it asks, exactly when the request has been taken, by the
      thread then or by another one since, and no other thread has given it up after
      that; if no other thread took it, exactly when no other thread has given it up. */
  lemma ArmedFindsPoppedIff(turns: seq<Turn>, i: nat, t: ThreadId, p: Ptr)
    requires ArmedSince(turns, i, t, p)
    ensures IsPopped(After(turns), p) <==> exists k :: i <= k < |turns| && LeftAlone(turns, k, t, p)
    ensures !AsksManual(LocalOf(After(turns), t)) ==>
              (At(After(turns), Turn(t, Consume)).verdict == Quick <==> IsPopped(After(turns), p))
    ensures (forall j :: i < j < |turns| ==> !TakesAt(turns, j, p)) ==>
              (IsPopped(After(turns), p) <==> forall j :: i < j < |turns| ==> !OtherGivesUp(turns, j, t, p))
  {
    hide After, LeftAlone, TakesAt, OtherGivesUp, IsPopped, At;
    PoppedSince(turns, i, t, p);
    if !AsksManual(LocalOf(After(turns), t)) {
      VerdictIff(After(turns), t, p);
    }
    if forall j :: i < j < |turns| ==> !TakesAt(turns, j, p) {
      OnlyOwnTake(turns, i, t, p);
    }
  }

  lemma VerdictIff(s: State, t: ThreadId, p: Ptr)
    requires IsArmed(s, t, p) && !AsksManual(LocalOf(s, t))
    ensures At(s, Turn(t, Consume)).verdict == Quick <==> IsPopped(s, p)
  {
  }

  lemma OnlyOwnTake(turns: seq<Turn>, i: nat, t: ThreadId, p: Ptr)
    requires ArmedSince(turns, i, t, p) && forall j :: i < j < |turns| ==> !TakesAt(turns, j, p)
    ensures (exists k :: i <= k < |turns| && LeftAlone(turns, k, t, p)) <==>
            forall j :: i < j < |turns| ==> !OtherGivesUp(turns, j, t, p)
  {
    hide After, TakesAt, OtherGivesUp, IsArmed;
    if forall j :: i < j < |turns| ==> !OtherGivesUp(turns, j, t, p) {
      assert LeftAlone(turns, i, t, p);
    }
  }

  lemma PoppedSince(turns: seq<Turn>, i: nat, t: ThreadId, p: Ptr)
    requires ArmedSince(turns, i, t, p)
    ensures IsPopped(After(turns), p) <==> exists k :: i <= k < |turns| && LeftAlone(turns, k, t, p)
  {
    hide After, IsPopped, TakesAt, GivesUpAt, IsArmed;
    assert turns[..|turns|] == turns;
    if IsPopped(After(turns), p) {
      var k := LastTaken(turns, |turns|, p);
      assert LeftAlone(turns, if k < i then i else k, t, p);
    }
    if k :| i <= k < |turns| && LeftAlone(turns, k, t, p) {
      LeftAloneStays(turns, i, k, |turns|, t, p);
    }
  }

  /** Two threads can be armed with one pointer, and only the first to ask gets the
      verdict: asking is the other thread's way of giving the request up. */
  lemma TwoThreadsOnePointer(p: Ptr)
    ensures var turns := [Turn(0, BeginQuick(true)), Turn(0, Push(Some(p), QUICK_CODE, true)),
                          Turn(0, Pop(Some(p), QUICK_CODE)), Turn(1, Pop(Some(p), QUICK_CODE))];
            var s := After(turns);
            && LocalOf(s, 0).armed == LocalOf(s, 1).armed == Some(p)
            && At(s, Turn(0, Consume)).verdict == Quick
            && At(Step(s, Turn(0, Consume)), Turn(1, Consume)).verdict == Nothing
  {
    var t0, t1 := Turn(0, BeginQuick(true)), Turn(0, Push(Some(p), QUICK_CODE, true));
    var t2, t3 := Turn(0, Pop(Some(p), QUICK_CODE)), Turn(1, Pop(Some(p), QUICK_CODE));
    assert [t0][..0] == [] && [t0, t1][..1] == [t0] && [t0, t1, t2][..2] == [t0, t1]
           && [t0, t1, t2, t3][..3] == [t0, t1, t2];
    assert After([t0]) == Step(START, t0);
    assert After([t0, t1]) == Step(After([t0]), t1);
    assert After([t0, t1, t2]) == Step(After([t0, t1]), t2);
  }

  /*
   * Manual scopes
   */

  function ManualsOf(t: ThreadId, turns: seq<Turn>): nat {
    if turns == [] then 0
    else
      var n := |turns| - 1;
      ManualsOf(t, turns[..n]) +
      if turns[n].thread == t && At(After(turns[..n]), turns[n]).verdict.Manual? then 1 else 0
  }

  lemma ManualEffect(s: State, n: Turn, t: ThreadId)
    ensures var before, after := LocalOf(s, t), LocalOf(Step(s, n), t);
            && (before.manualDepth == 0 && n == Turn(t, BeginManual) ==>
                  !after.manualConsumed && At(s, n).verdict == Nothing)
            && (before.manualDepth != 0 && after.manualDepth != 0 ==>
                  && (after.manualConsumed <==> before.manualConsumed || n == Turn(t, Consume))
                  && (n.thread == t ==>
                        (At(s, n).verdict.Manual? <==> n.action == Consume && !before.manualConsumed)))
  {
    if n.thread == t && n.action.Push? && n.action.request.Some? {
      assert At(s, n).local.manualConsumed == LocalOf(s, t).manualConsumed;
    }
  }

  /** While an outermost manual scope of a thread is open, the thread has had one
      Manual verdict if it asked, and none if it did not, however often scopes nest,
      it asks, and other threads interfere. */
  lemma {:induction false} OneManualPerScope(t: ThreadId, front: seq<Turn>, inner: seq<Turn>)
    requires LocalOf(After(front), t).manualDepth == 0
    requires inner != [] && inner[0] == Turn(t, BeginManual)
    requires forall k :: 0 < k <= |inner| ==> LocalOf(After(front + inner[..k]), t).manualDepth != 0
    ensures ManualsOf(t, front + inner) ==
            ManualsOf(t, front) + if Turn(t, Consume) in inner then 1 else 0
    ensures LocalOf(After(front + inner), t).manualConsumed <==> Turn(t, Consume) in inner
    decreases |inner|
  {
    hide Step, At, LocalOf;
    var n := |inner| - 1;
    var all := front + inner;
    assert all[..|all| - 1] == front + inner[..n] && all[|all| - 1] == inner[n];
    assert inner == inner[..n] + [inner[n]];
    assert inner[..|inner|] == inner;
    ManualEffect(After(front + inner[..n]), inner[n], t);
    if n == 0 {
      assert front + inner[..n] == front;
    } else {
      forall k | 0 < k <= n ensures LocalOf(After(front + inner[..n][..k]), t).manualDepth != 0 {
        assert inner[..n][..k] == inner[..k];
      }
      OneManualPerScope(t, front, inner[..n]);
      assert LocalOf(After(front + inner[..n]), t).manualDepth != 0;
    }
  }

  /** Outside every manual scope there is never a Manual verdict. */
  lemma ManualNeedsScope(s: State, n: Turn)
    ensures At(s, n).verdict.Manual? ==> n.action.Consume? && LocalOf(s, n.thread).manualDepth != 0
  {
  }
}
