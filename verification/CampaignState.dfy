/** The campaign aggregate and its domain operations. */
module CampaignState {
  import opened Basics

  const MAX_ROSTER := 10
  const MAX_IDENTITY := 128

  datatype Phase =
    | Lobby
    | CharacterCreation
    | Arrival
    | Gathering
    | ValenIntroduction
    | ClassSelection
    | ReadyCheck
    | Departure
    | OpenWorld

  datatype CampaignError =
    | NoError
    | InvalidIdentity
    | InvalidRoster
    | RosterLimitExceeded
    | DuplicateSlot
    | DuplicatePlayer
    | DuplicateCharacterBinding
    | SlotNotFound
    | RosterSealed
    | RosterNotSealed
    | InvalidPhase
    | InvalidSessionManager
    | UnauthorizedActor
    | NotCampaignMember
    | RosterIncomplete
    | CheckpointInProgress
    | CheckpointNotActive
    | CheckpointMismatch
    | InvalidCheckpointArtifact
    | RecoveryInProgress
    | RecoveryNotActive
    | RecoveryMismatch
    | NoCommittedCheckpoint
    | StaleRevision
    | PersistenceFailure
    | IntegrityFailure

  /** The durable identity of one roster slot. */
  datatype SlotRecord = SlotRecord(slot: Id, player: Id, binding: Id)

  datatype SlotState = SlotState(slot: Id, player: Id, binding: Id, ready: bool) {
    function Record(): SlotRecord { SlotRecord(slot, player, binding) }
  }

  datatype Aggregate = Aggregate(
    id: Id,
    version: u64,
    phase: Phase,
    sealed: bool,
    manager: Option<Id>,
    roster: seq<SlotState>)

  datatype Member = Member(campaign: Id, slot: Id, player: Id, binding: Id) {
    function Record(): SlotRecord { SlotRecord(slot, player, binding) }
  }

  datatype Presence = Presence(identity: Member, connected: bool, admitted: bool)

  /** What a domain operation reports, with the aggregate it leaves behind. */
  datatype Outcome = Outcome(campaign: Aggregate, error: CampaignError, changed: bool)

  function Records(roster: seq<SlotState>): (r: seq<SlotRecord>)
    ensures |r| == |roster|
    ensures forall i :: 0 <= i < |r| ==> r[i] == roster[i].Record()
  {
    seq(|roster|, i requires 0 <= i < |roster| => roster[i].Record())
  }

  function Unready(roster: seq<SlotState>): (r: seq<SlotState>)
    ensures |r| == |roster|
    ensures forall i :: 0 <= i < |r| ==> r[i] == roster[i].(ready := false)
  {
    seq(|roster|, i requires 0 <= i < |roster| => roster[i].(ready := false))
  }

  /*
   * Roster validation
   */

  predicate ValidIdentity(id: Id) {
    0 < |id| <= MAX_IDENTITY && forall i :: 0 <= i < |id| ==> 0x21 <= id[i] <= 0x7E
  }

  predicate ValidSlotIdentity(s: SlotState) {
    ValidIdentity(s.slot) && ValidIdentity(s.player) && ValidIdentity(s.binding)
  }

  predicate Clash(a: SlotState, b: SlotState) {
    a.slot == b.slot || a.player == b.player || a.binding == b.binding
  }

  /** At most ten slots, every identity well formed, nothing used twice. */
  predicate ValidRoster(roster: seq<SlotState>) {
    && |roster| <= MAX_ROSTER
    && (forall i :: 0 <= i < |roster| ==> ValidSlotIdentity(roster[i]))
    && (forall i, j :: 0 <= i < j < |roster| ==> !Clash(roster[i], roster[j]))
  }

  /** The verdict on element `n` once the elements before it have passed. */
  function SlotFault(roster: seq<SlotState>, n: nat): CampaignError
    requires n < |roster|
  {
    if !ValidSlotIdentity(roster[n]) then InvalidIdentity
    else if exists j :: 0 <= j < n && roster[j].slot == roster[n].slot then DuplicateSlot
    else if exists j :: 0 <= j < n && roster[j].player == roster[n].player then DuplicatePlayer
    else if exists j :: 0 <= j < n && roster[j].binding == roster[n].binding then DuplicateCharacterBinding
    else NoError
  }

  function PrefixFault(roster: seq<SlotState>, n: nat): CampaignError
    requires n <= |roster|
  {
    if n == 0 then NoError
    else
      var earlier := PrefixFault(roster, n - 1);
      if earlier != NoError then earlier else SlotFault(roster, n - 1)
  }

  function RosterFault(roster: seq<SlotState>, allowEmpty: bool): CampaignError {
    if roster == [] && !allowEmpty then InvalidRoster
    else if |roster| > MAX_ROSTER then RosterLimitExceeded
    else PrefixFault(roster, |roster|)
  }

  lemma {:induction false} PrefixFaultIff(roster: seq<SlotState>, n: nat)
    requires n <= |roster|
    ensures PrefixFault(roster, n) == NoError <==>
            && (forall i :: 0 <= i < n ==> ValidSlotIdentity(roster[i]))
            && (forall i, j :: 0 <= i < j < n ==> !Clash(roster[i], roster[j]))
  {
    if n > 0 {
      PrefixFaultIff(roster, n - 1);
    }
  }

  /** Validation passes exactly the rosters that meet the declarative rule. */
  lemma RosterFaultIff(roster: seq<SlotState>, allowEmpty: bool)
    ensures RosterFault(roster, allowEmpty) == NoError <==>
            ValidRoster(roster) && (roster != [] || allowEmpty)
  {
    PrefixFaultIff(roster, |roster|);
  }

  method ValidateRoster(roster: seq<SlotState>, allowEmpty: bool) returns (error: CampaignError)
    ensures error == RosterFault(roster, allowEmpty)
  {
    if roster == [] && !allowEmpty {
      return InvalidRoster;
    }
    if |roster| > MAX_ROSTER {
      return RosterLimitExceeded;
    }
    var slots: set<Id>, players: set<Id>, bindings: set<Id> := {}, {}, {};
    ghost var total := PrefixFault(roster, |roster|);
    for n := 0 to |roster|
      invariant slots == set j | 0 <= j < n :: roster[j].slot
      invariant players == set j | 0 <= j < n :: roster[j].player
      invariant bindings == set j | 0 <= j < n :: roster[j].binding
      invariant PrefixFault(roster, n) == NoError
    {
      error := if !ValidSlotIdentity(roster[n]) then InvalidIdentity
      else if roster[n].slot in slots then DuplicateSlot
      else if roster[n].player in players then DuplicatePlayer
      else if roster[n].binding in bindings then DuplicateCharacterBinding
      else NoError;
      assert error == SlotFault(roster, n) == PrefixFault(roster, n + 1);
      if error != NoError {
        FirstFaultDecides(roster, n + 1);
        return;
      }
      slots, players, bindings :=
        slots + {roster[n].slot}, players + {roster[n].player}, bindings + {roster[n].binding};
    }
    return NoError;
  }

  lemma {:induction false} FirstFaultDecides(roster: seq<SlotState>, n: nat)
    requires n <= |roster| && PrefixFault(roster, n) != NoError
    ensures PrefixFault(roster, |roster|) == PrefixFault(roster, n)
    decreases |roster| - n
  {
    if n < |roster| {
      FirstFaultDecides(roster, n + 1);
    }
  }

  /*
   * Sorting
   */

  /** Ascending slot identities, hence no slot twice. */
  predicate Ascending(roster: seq<SlotState>) {
    forall i, j :: 0 <= i < j < |roster| ==> Less(roster[i].slot, roster[j].slot)
  }

  predicate DistinctSlots(roster: seq<SlotState>) {
    forall i, j :: 0 <= i < j < |roster| ==> roster[i].slot != roster[j].slot
  }

  function Insert(x: SlotState, roster: seq<SlotState>): (r: seq<SlotState>)
    ensures multiset(r) == multiset(roster) + multiset{x}
    ensures |r| == |roster| + 1
  {
    if roster == [] || Less(x.slot, roster[0].slot) then [x] + roster
    else
      assert roster == [roster[0]] + roster[1..];
      [roster[0]] + Insert(x, roster[1..])
  }

  /** The order `std::sort` leaves when slots are distinct. */
  function Sort(roster: seq<SlotState>): (r: seq<SlotState>)
    ensures multiset(r) == multiset(roster)
    ensures |r| == |roster|
  {
    if roster == [] then []
    else
      assert roster == [roster[0]] + roster[1..];
      Insert(roster[0], Sort(roster[1..]))
  }

  lemma {:induction false} InsertAscending(x: SlotState, roster: seq<SlotState>)
    requires Ascending(roster)
    requires forall s :: s in roster ==> s.slot != x.slot
    ensures Ascending(Insert(x, roster))
  {
    if roster == [] {
    } else if Less(x.slot, roster[0].slot) {
      forall j | 0 < j < |roster| ensures Less(x.slot, roster[j].slot) {
        LessTransitive(x.slot, roster[0].slot, roster[j].slot);
      }
    } else {
      InsertAscending(x, roster[1..]);
      LessTotal(x.slot, roster[0].slot);
      var rest := Insert(x, roster[1..]);
      forall s | s in rest ensures Less(roster[0].slot, s.slot) {
        assert s in multiset(rest);
        assert s in roster[1..] || s == x;
      }
    }
  }

  lemma {:induction false} SortAscending(roster: seq<SlotState>)
    requires DistinctSlots(roster)
    ensures Ascending(Sort(roster))
  {
    if roster != [] {
      SortAscending(roster[1..]);
      forall s | s in Sort(roster[1..]) ensures s.slot != roster[0].slot {
        assert s in multiset(roster[1..]);
      }
      InsertAscending(roster[0], Sort(roster[1..]));
    }
  }

  lemma {:induction false} SortFixesAscending(roster: seq<SlotState>)
    requires Ascending(roster)
    ensures Sort(roster) == roster
  {
    if roster != [] {
      SortFixesAscending(roster[1..]);
      assert roster == [roster[0]] + roster[1..];
    }
  }

  lemma HeadIsLeast(a: seq<SlotState>, x: SlotState)
    requires Ascending(a) && x in multiset(a)
    ensures a != [] && (x == a[0] || Less(a[0].slot, x.slot))
  {
    var i :| 0 <= i < |a| && a[i] == x;
  }

  lemma TailMultiset(a: seq<SlotState>)
    requires a != []
    ensures multiset(a[1..]) == multiset(a) - multiset{a[0]}
  {
    assert a == [a[0]] + a[1..];
  }

  /** Two ascending rosters with the same members are the same list. */
  lemma {:induction false} AscendingUnique(a: seq<SlotState>, b: seq<SlotState>)
    requires Ascending(a) && Ascending(b) && multiset(a) == multiset(b)
    ensures a == b
  {
    assert |a| == |multiset(a)| == |multiset(b)| == |b|;
    if a != [] {
      assert a[0] in multiset(a) && b[0] in multiset(b);
      HeadIsLeast(a, b[0]);
      HeadIsLeast(b, a[0]);
      if a[0] != b[0] {
        LessTransitive(a[0].slot, b[0].slot, a[0].slot);
        LessIrreflexive(a[0].slot);
      }
      TailMultiset(a);
      TailMultiset(b);
      AscendingUnique(a[1..], b[1..]);
      assert a == [a[0]] + a[1..] && b == [b[0]] + b[1..];
    }
  }

  lemma ValidRosterIsPermutationInvariant(a: seq<SlotState>, b: seq<SlotState>)
    requires multiset(a) == multiset(b) && ValidRoster(a)
    ensures ValidRoster(b)
  {
    assert |b| == |multiset(b)| == |multiset(a)| == |a|;
    forall i | 0 <= i < |b| ensures ValidSlotIdentity(b[i]) {
      assert b[i] in multiset(a);
    }
    forall i, j | 0 <= i < j < |b| ensures !Clash(b[i], b[j]) {
      assert b[i] in multiset(a) && b[j] in multiset(a);
      if b[i] == b[j] {
        TwiceIsTwoPlaces(b, i, j);
        var k, l := TwoPlaces(a, b[i]);
        assert Clash(a[k], a[l]);
      } else {
        var k :| 0 <= k < |a| && a[k] == b[i];
        var l :| 0 <= l < |a| && a[l] == b[j];
        assert k != l;
      }
    }
  }

  lemma TwiceIsTwoPlaces(s: seq<SlotState>, i: nat, j: nat)
    requires i < j < |s| && s[i] == s[j]
    ensures multiset(s)[s[i]] >= 2
  {
    assert s == s[..i] + [s[i]] + s[i + 1..j] + [s[j]] + s[j + 1..];
  }

  lemma {:induction false} TwoPlaces(s: seq<SlotState>, x: SlotState) returns (k: nat, l: nat)
    requires multiset(s)[x] >= 2
    ensures k < l < |s| && s[k] == s[l] == x
  {
    assert x in multiset(s);
    k := First(s, y => y == x);
    var rest := s[k + 1..];
    assert s == s[..k] + [x] + rest;
    assert x !in s[..k];
    assert multiset(s) == multiset(s[..k]) + multiset{x} + multiset(rest);
    assert x in multiset(rest);
    var m :| 0 <= m < |rest| && rest[m] == x;
    l := k + 1 + m;
  }

  /*
   * The domain operations, as functions of the aggregate
   */

  function Fail(a: Aggregate, error: CampaignError): Outcome {
    Outcome(a, error, false)
  }

  function LobbyFault(a: Aggregate): CampaignError {
    if a.sealed then RosterSealed
    else if a.phase != Lobby then InvalidPhase
    else NoError
  }

  function SlotIndex(roster: seq<SlotState>, slot: Id): nat {
    First(roster, (s: SlotState) => s.slot == slot)
  }

  function PlayerIndex(roster: seq<SlotState>, player: Id): nat {
    First(roster, (s: SlotState) => s.player == player)
  }

  predicate IsMember(roster: seq<SlotState>, player: Id) {
    exists i :: 0 <= i < |roster| && roster[i].player == player
  }

  function MemberIndex(roster: seq<SlotState>, record: SlotRecord): nat {
    First(roster, (s: SlotState) => s.Record() == record)
  }

  /** Install a changed aggregate under the next version, or keep the old one. */
  function Advance(before: Aggregate, after: Aggregate): Outcome {
    if before.version == MAX_U64 then Fail(before, IntegrityFailure)
    else Outcome(after.(version := before.version + 1), NoError, true)
  }

  function ReplaceRoster(a: Aggregate, roster: seq<SlotState>): Outcome {
    if LobbyFault(a) != NoError then Fail(a, LobbyFault(a))
    else if RosterFault(roster, true) != NoError then Fail(a, RosterFault(roster, true))
    else
      var next := Unready(Sort(roster));
      if a.roster == next then Outcome(a, NoError, false)
      else Advance(a, a.(roster := next))
  }

  function Conflict(existing: SlotState, s: SlotState): CampaignError {
    if existing.slot == s.slot then DuplicateSlot
    else if existing.player == s.player then DuplicatePlayer
    else if existing.binding == s.binding then DuplicateCharacterBinding
    else NoError
  }

  function AddSlot(a: Aggregate, s: SlotState): Outcome {
    if LobbyFault(a) != NoError then Fail(a, LobbyFault(a))
    else if |a.roster| >= MAX_ROSTER then Fail(a, RosterLimitExceeded)
    else
      var i := First(a.roster, e => Conflict(e, s) != NoError);
      if i < |a.roster| then Fail(a, Conflict(a.roster[i], s))
      else ReplaceRoster(a, a.roster + [s.(ready := false)])
  }

  function RemoveSlot(a: Aggregate, slot: Id): Outcome {
    if LobbyFault(a) != NoError then Fail(a, LobbyFault(a))
    else
      var i := SlotIndex(a.roster, slot);
      if i == |a.roster| then Fail(a, SlotNotFound)
      else ReplaceRoster(a, a.roster[..i] + a.roster[i + 1..])
  }

  function ReplaceSlot(a: Aggregate, s: SlotState): Outcome {
    if LobbyFault(a) != NoError then Fail(a, LobbyFault(a))
    else
      var i := SlotIndex(a.roster, s.slot);
      if i == |a.roster| then Fail(a, SlotNotFound)
      else
        var j := First(a.roster, (e: SlotState) => e.slot != s.slot && Conflict(e, s) != NoError);
        if j < |a.roster| then Fail(a, Conflict(a.roster[j], s))
        else if a.roster[i] == s.(ready := false) then Outcome(a, NoError, false)
        else ReplaceRoster(a, a.roster[i := s.(ready := false)])
  }

  /** A failed version step here clears the manager instead of restoring it. */
  function CommitStart(a: Aggregate, byServer: bool, manager: Id): Outcome {
    if a.sealed then Fail(a, RosterSealed)
    else if a.phase != Lobby then Fail(a, InvalidPhase)
    else if !byServer then Fail(a, UnauthorizedActor)
    else if RosterFault(a.roster, false) != NoError then Fail(a, RosterFault(a.roster, false))
    else if !ValidIdentity(manager) || !IsMember(a.roster, manager) then Fail(a, InvalidSessionManager)
    else if a.version == MAX_U64 then Fail(a.(manager := None), IntegrityFailure)
    else Advance(a, a.(sealed := true, manager := Some(manager), phase := CharacterCreation))
  }

  /** Unlike the roster edits, a failed version step here is not rolled back. */
  function TransferManager(a: Aggregate, actor: Id, manager: Id): Outcome {
    if a.manager != Some(actor) then Fail(a, UnauthorizedActor)
    else if !IsMember(a.roster, manager) then Fail(a, InvalidSessionManager)
    else if a.manager == Some(manager) then Outcome(a, NoError, false)
    else
      var next := a.(manager := Some(manager));
      if a.version == MAX_U64 then Fail(next, IntegrityFailure) else Advance(a, next)
  }

  function SetReady(a: Aggregate, actor: Member, ready: bool): Outcome {
    if !a.sealed then Fail(a, RosterNotSealed)
    else if actor.campaign != a.id then Fail(a, NotCampaignMember)
    else
      var i := MemberIndex(a.roster, actor.Record());
      if i == |a.roster| then Fail(a, NotCampaignMember)
      else if a.roster[i].ready == ready then Outcome(a, NoError, false)
      else
        var next := a.(roster := a.roster[i := a.roster[i].(ready := ready)]);
        if a.version == MAX_U64 then Fail(next, IntegrityFailure) else Advance(a, next)
  }

  /** The commands that change an existing campaign. */
  datatype Edit =
    | Add(slot: SlotRecord)
    | Remove(id: Id)
    | Replace(slot: SlotRecord)
    | Start(manager: Id)
    | Transfer(actor: Id, manager: Id)
    | Ready(member: Member, ready: bool)

  function ToSlotState(r: SlotRecord): SlotState {
    SlotState(r.slot, r.player, r.binding, false)
  }

  function Apply(a: Aggregate, e: Edit): Outcome {
    match e
    case Add(s) => AddSlot(a, ToSlotState(s))
    case Remove(id) => RemoveSlot(a, id)
    case Replace(s) => ReplaceSlot(a, ToSlotState(s))
    case Start(m) => CommitStart(a, true, m)
    case Transfer(actor, m) => TransferManager(a, actor, m)
    case Ready(member, ready) => SetReady(a, member, ready)
  }

  /*
   * What every aggregate reachable through the operations satisfies
   */

  ghost predicate Inv(a: Aggregate) {
    && ValidRoster(a.roster)
    && Ascending(a.roster)
    && (a.sealed <==> a.phase != Lobby)
    && (a.sealed <==> a.manager.Some?)
    && (a.manager.Some? ==> IsMember(a.roster, a.manager.value))
    && (!a.sealed ==> forall i :: 0 <= i < |a.roster| ==> !a.roster[i].ready)
  }

  /** Who owns which slot. */
  function Identities(a: Aggregate): seq<SlotRecord> { Records(a.roster) }

  lemma UnreadySortKeepsRules(roster: seq<SlotState>)
    requires ValidRoster(roster)
    ensures ValidRoster(Unready(Sort(roster))) && Ascending(Unready(Sort(roster)))
  {
    SortAscending(roster);
    ValidRosterIsPermutationInvariant(roster, Sort(roster));
  }

  lemma ReplaceRosterKeepsInv(a: Aggregate, roster: seq<SlotState>)
    requires Inv(a)
    ensures Inv(ReplaceRoster(a, roster).campaign)
  {
    RosterFaultIff(roster, true);
    if ValidRoster(roster) {
      UnreadySortKeepsRules(roster);
    }
  }

  lemma SetReadyKeepsInv(a: Aggregate, actor: Member, ready: bool)
    requires Inv(a)
    ensures Inv(SetReady(a, actor, ready).campaign)
  {
    hide ValidRoster, Ascending, IsMember;
    var next := SetReady(a, actor, ready).campaign;
    var r := next.roster;
    assert |r| == |a.roster| && forall i :: 0 <= i < |r| ==> r[i].Record() == a.roster[i].Record();
    SameRecordsSameRules(a.roster, r);
    if a.manager.Some? {
      SameRecordsSameMembers(a.roster, r, a.manager.value);
    }
  }

  lemma SameRecordsSameRules(a: seq<SlotState>, b: seq<SlotState>)
    requires |a| == |b| && forall i :: 0 <= i < |b| ==> b[i].Record() == a[i].Record()
    requires ValidRoster(a) && Ascending(a)
    ensures ValidRoster(b) && Ascending(b)
  {
    forall i | 0 <= i < |b| ensures ValidSlotIdentity(b[i]) {
      assert ValidSlotIdentity(a[i]);
    }
    forall i, j | 0 <= i < j < |b| ensures !Clash(b[i], b[j]) && Less(b[i].slot, b[j].slot) {
      assert !Clash(a[i], a[j]) && Less(a[i].slot, a[j].slot);
    }
  }

  lemma SameRecordsSameMembers(a: seq<SlotState>, b: seq<SlotState>, player: Id)
    requires |a| == |b| && forall i :: 0 <= i < |b| ==> b[i].Record() == a[i].Record()
    requires IsMember(a, player)
    ensures IsMember(b, player)
  {
    var i :| 0 <= i < |a| && a[i].player == player;
    assert b[i].Record() == a[i].Record();
  }

  lemma CommitStartKeepsInv(a: Aggregate, byServer: bool, manager: Id)
    requires Inv(a)
    ensures Inv(CommitStart(a, byServer, manager).campaign)
  {
    hide ValidRoster, Ascending, IsMember, RosterFault;
  }

  lemma TransferKeepsInv(a: Aggregate, actor: Id, manager: Id)
    requires Inv(a)
    ensures Inv(TransferManager(a, actor, manager).campaign)
  {
    hide ValidRoster, Ascending, IsMember;
  }

  /** Every operation, accepted or not, keeps the aggregate's rules. */
  lemma ApplyKeepsInv(a: Aggregate, e: Edit)
    requires Inv(a)
    ensures Inv(Apply(a, e).campaign)
  {
    hide Inv, ReplaceRoster, CommitStart, TransferManager, SetReady;
    match e
    case Add(s) =>
      ReplaceRosterKeepsInv(a, a.roster + [ToSlotState(s).(ready := false)]);
    case Remove(id) =>
      var i := SlotIndex(a.roster, id);
      if i < |a.roster| {
        ReplaceRosterKeepsInv(a, a.roster[..i] + a.roster[i + 1..]);
      }
    case Replace(s) =>
      var i := SlotIndex(a.roster, s.slot);
      if i < |a.roster| {
        ReplaceRosterKeepsInv(a, a.roster[i := ToSlotState(s)]);
      }
    case Start(m) => CommitStartKeepsInv(a, true, m);
    case Transfer(actor, m) => TransferKeepsInv(a, actor, m);
    case Ready(member, ready) => SetReadyKeepsInv(a, member, ready);
  }

  function EditRun(a: Aggregate, edits: seq<Edit>): Aggregate
    decreases |edits|
  {
    if edits == [] then a else EditRun(Apply(a, edits[0]).campaign, edits[1..])
  }

  function Lobbied(id: Id, roster: seq<SlotState>): Aggregate {
    Aggregate(id, 1, Lobby, false, None, Unready(Sort(roster)))
  }

  /** Over every run from a created lobby the rules hold. */
  lemma {:induction false} RunKeepsInv(a: Aggregate, edits: seq<Edit>)
    requires Inv(a)
    ensures Inv(EditRun(a, edits))
    decreases |edits|
  {
    hide Apply, Inv;
    if edits != [] {
      ApplyKeepsInv(a, edits[0]);
      RunKeepsInv(Apply(a, edits[0]).campaign, edits[1..]);
    }
  }

  lemma LobbyRunKeepsInv(id: Id, roster: seq<SlotState>, edits: seq<Edit>)
    requires ValidRoster(roster)
    ensures Inv(EditRun(Lobbied(id, roster), edits))
  {
    UnreadySortKeepsRules(roster);
    RunKeepsInv(Lobbied(id, roster), edits);
  }

  lemma SealedIdentitiesFrozen(a: Aggregate, e: Edit)
    requires a.sealed
    ensures Apply(a, e).campaign.sealed && Identities(Apply(a, e).campaign) == Identities(a)
  {
    if e.Ready? {
      var r := Apply(a, e).campaign.roster;
      assert |r| == |a.roster| && forall i :: 0 <= i < |r| ==> r[i].Record() == a.roster[i].Record();
    }
  }

  /** After sealing, the slots and their owners never change again. */
  lemma {:induction false} SealedRunFrozen(a: Aggregate, edits: seq<Edit>)
    requires a.sealed
    ensures EditRun(a, edits).sealed && Identities(EditRun(a, edits)) == Identities(a)
    decreases |edits|
  {
    hide Apply;
    if edits != [] {
      SealedIdentitiesFrozen(a, edits[0]);
      SealedRunFrozen(Apply(a, edits[0]).campaign, edits[1..]);
    }
  }

  /** The version moves by one exactly when a change is reported, an unchanged
      success leaves the aggregate alone, and a change is visible. */
  predicate Counted(a: Aggregate, o: Outcome) {
    && o.campaign.version == a.version + (if o.changed then 1 else 0)
    && (o.changed ==> o.error == NoError)
    && (o.error == NoError && !o.changed ==> o.campaign == a)
    && (o.changed ==> o.campaign.(version := a.version) != a)
  }

  lemma ReplaceRosterCounts(a: Aggregate, roster: seq<SlotState>)
    ensures Counted(a, ReplaceRoster(a, roster))
  {
    hide RosterFault, Sort, Unready;
  }

  lemma SetReadyCounts(a: Aggregate, actor: Member, ready: bool)
    ensures Counted(a, SetReady(a, actor, ready))
  {
    var i := MemberIndex(a.roster, actor.Record());
    if i < |a.roster| && a.roster[i].ready != ready {
      assert a.roster[i := a.roster[i].(ready := ready)][i] != a.roster[i];
    }
  }

  lemma VersionCountsChanges(a: Aggregate, e: Edit)
    ensures Counted(a, Apply(a, e))
  {
    hide ReplaceRoster, SetReady, RosterFault, IsMember, ValidIdentity;
    match e
    case Add(s) => ReplaceRosterCounts(a, a.roster + [ToSlotState(s).(ready := false)]);
    case Remove(id) =>
      var i := SlotIndex(a.roster, id);
      if i < |a.roster| {
        ReplaceRosterCounts(a, a.roster[..i] + a.roster[i + 1..]);
      }
    case Replace(s) =>
      var i := SlotIndex(a.roster, s.slot);
      if i < |a.roster| {
        ReplaceRosterCounts(a, a.roster[i := ToSlotState(s)]);
      }
    case Ready(member, ready) => SetReadyCounts(a, member, ready);
    case _ =>
  }

  /** The operations that would have changed the aggregate but for its version. */
  predicate UnrolledBack(a: Aggregate, e: Edit) {
    && a.version == MAX_U64
    && match e
       case Start(m) =>
         && !a.sealed && a.phase == Lobby && a.manager.Some? && RosterFault(a.roster, false) == NoError
         && ValidIdentity(m) && IsMember(a.roster, m)
       case Transfer(actor, m) => a.manager == Some(actor) && m != actor && IsMember(a.roster, m)
       case Ready(member, ready) =>
         var i := MemberIndex(a.roster, member.Record());
         a.sealed && member.campaign == a.id && i < |a.roster| && a.roster[i].ready != ready
       case _ => false
  }

  lemma RejectedRosterStays(a: Aggregate, roster: seq<SlotState>)
    ensures ReplaceRoster(a, roster).error != NoError ==> ReplaceRoster(a, roster).campaign == a
  {
    hide RosterFault, Sort, Unready;
  }

  /** A rejection leaves the aggregate untouched, except at the last version: a
      manager transfer or a readiness change keeps its assignment, and a start
      loses a manager that an unsealed aggregate should not have had. */
  lemma RejectedUntouchedIff(a: Aggregate, e: Edit)
    requires Apply(a, e).error != NoError
    ensures Apply(a, e).campaign == a <==> !UnrolledBack(a, e)
  {
    hide ReplaceRoster, RosterFault, IsMember, ValidIdentity;
    match e
    case Add(s) => RejectedRosterStays(a, a.roster + [ToSlotState(s).(ready := false)]);
    case Remove(id) =>
      var i := SlotIndex(a.roster, id);
      if i < |a.roster| {
        RejectedRosterStays(a, a.roster[..i] + a.roster[i + 1..]);
      }
    case Replace(s) =>
      var i := SlotIndex(a.roster, s.slot);
      if i < |a.roster| {
        RejectedRosterStays(a, a.roster[i := ToSlotState(s)]);
      }
    case _ =>
  }

  /** Under the aggregate's rules only transfers and readiness changes at the last
      version are not rolled back. */
  lemma RejectedUntouchedUnderInv(a: Aggregate, e: Edit)
    requires Inv(a) && Apply(a, e).error != NoError && (a.version < MAX_U64 || (!e.Transfer? && !e.Ready?))
    ensures Apply(a, e).campaign == a
  {
    RejectedUntouchedIff(a, e);
  }

  /** A readiness change at the last version is refused yet stays. */
  lemma RejectedReadinessStays()
    ensures var s := SlotState([0x61], [0x62], [0x63], false);
            var a := Aggregate([0x64], MAX_U64, OpenWorld, true, Some([0x62]), [s]);
            var o := Apply(a, Ready(Member([0x64], [0x61], [0x62], [0x63]), true));
            o.error == IntegrityFailure && o.campaign.roster[0].ready
  {
  }
}
