/** The campaign aggregate as an object that its operations change in place, with
    the roll-backs of a version step that fails. */
module CampaignStateMachine {
  import opened Basics
  import opened CampaignState

  class CampaignAggregate {
    const id: Id
    var version: u64
    var phase: Phase
    var sealed: bool
    var manager: Option<Id>
    var roster: seq<SlotState>

    constructor (a: Aggregate)
      ensures Value() == a
    {
      id := a.id;
      version := a.version;
      phase := a.phase;
      sealed := a.sealed;
      manager := a.manager;
      roster := a.roster;
    }

    ghost function Value(): Aggregate
      reads this
    {
      Aggregate(id, version, phase, sealed, manager, roster)
    }

    method RequireMutableLobby() returns (error: CampaignError)
      ensures error == LobbyFault(Value())
    {
      error := if sealed then RosterSealed else if phase != Lobby then InvalidPhase else NoError;
    }

    method AdvanceVersion() returns (error: CampaignError, changed: bool)
      modifies this`version
      ensures old(version) == MAX_U64 ==> error == IntegrityFailure && !changed && version == old(version)
      ensures old(version) < MAX_U64 ==> error == NoError && changed && version == old(version) + 1
    {
      if version == MAX_U64 {
        return IntegrityFailure, false;
      }
      version := version + 1;
      return NoError, true;
    }

    method ReplaceRoster(slots: seq<SlotState>) returns (error: CampaignError, changed: bool)
      modifies this`roster, this`version
      ensures Outcome(Value(), error, changed) == CampaignState.ReplaceRoster(old(Value()), slots)
    {
      changed := false;
      error := RequireMutableLobby();
      if error != NoError {
        return;
      }
      error := ValidateRoster(slots, true);
      if error != NoError {
        return;
      }
      var next := Unready(Sort(slots));
      if roster == next {
        return;
      }
      var previous := roster;
      roster := next;
      error, changed := AdvanceVersion();
      if error != NoError {
        roster := previous;
      }
    }

    method AddSlot(s: SlotState) returns (error: CampaignError, changed: bool)
      modifies this`roster, this`version
      ensures Outcome(Value(), error, changed) == CampaignState.AddSlot(old(Value()), s)
    {
      changed := false;
      error := RequireMutableLobby();
      if error != NoError {
        return;
      }
      if |roster| >= MAX_ROSTER {
        return RosterLimitExceeded, false;
      }
      for n := 0 to |roster|
        invariant forall k :: 0 <= k < n ==> Conflict(roster[k], s) == NoError
      {
        var conflict := Conflict(roster[n], s);
        if conflict != NoError {
          return conflict, false;
        }
      }
      error, changed := ReplaceRoster(roster + [s.(ready := false)]);
    }

    method RemoveSlot(slot: Id) returns (error: CampaignError, changed: bool)
      modifies this`roster, this`version
      ensures Outcome(Value(), error, changed) == CampaignState.RemoveSlot(old(Value()), slot)
    {
      hide CampaignState.ReplaceRoster;
      changed := false;
      error := RequireMutableLobby();
      if error != NoError {
        return;
      }
      var i := SlotIndex(roster, slot);
      if i == |roster| {
        return SlotNotFound, false;
      }
      error, changed := ReplaceRoster(roster[..i] + roster[i + 1..]);
    }

    method ReplaceSlot(s: SlotState) returns (error: CampaignError, changed: bool)
      modifies this`roster, this`version
      ensures Outcome(Value(), error, changed) == CampaignState.ReplaceSlot(old(Value()), s)
    {
      hide CampaignState.ReplaceRoster;
      changed := false;
      error := RequireMutableLobby();
      if error != NoError {
        return;
      }
      var i := SlotIndex(roster, s.slot);
      if i == |roster| {
        return SlotNotFound, false;
      }
      for n := 0 to |roster|
        invariant forall k :: 0 <= k < n ==> roster[k].slot == s.slot || Conflict(roster[k], s) == NoError
      {
        if roster[n].slot != s.slot {
          var conflict := Conflict(roster[n], s);
          if conflict != NoError {
            return conflict, false;
          }
        }
      }
      if roster[i] == s.(ready := false) {
        return;
      }
      error, changed := ReplaceRoster(roster[i := s.(ready := false)]);
    }

    method CommitCampaignStart(byServer: bool, player: Id) returns (error: CampaignError, changed: bool)
      modifies this
      ensures Outcome(Value(), error, changed) == CommitStart(old(Value()), byServer, player)
    {
      changed := false;
      if sealed {
        return RosterSealed, false;
      }
      if phase != Lobby {
        return InvalidPhase, false;
      }
      if !byServer {
        return UnauthorizedActor, false;
      }
      error := ValidateRoster(roster, false);
      if error != NoError {
        return;
      }
      if !ValidIdentity(player) || !IsMember(roster, player) {
        return InvalidSessionManager, false;
      }
      sealed := true;
      manager := Some(player);
      phase := CharacterCreation;
      error, changed := AdvanceVersion();
      if error != NoError {
        sealed := false;
        manager := None;
        phase := Lobby;
      }
    }

    method TransferSessionManager(actor: Id, player: Id) returns (error: CampaignError, changed: bool)
      modifies this`manager, this`version
      ensures Outcome(Value(), error, changed) == TransferManager(old(Value()), actor, player)
    {
      changed := false;
      if manager.None? || manager.value != actor {
        return UnauthorizedActor, false;
      }
      if !IsMember(roster, player) {
        return InvalidSessionManager, false;
      }
      if manager.value == player {
        return NoError, false;
      }
      manager := Some(player);
      error, changed := AdvanceVersion();
    }

    method SetReady(actor: Member, ready: bool) returns (error: CampaignError, changed: bool)
      modifies this`roster, this`version
      ensures Outcome(Value(), error, changed) == CampaignState.SetReady(old(Value()), actor, ready)
    {
      changed := false;
      if !sealed {
        return RosterNotSealed, false;
      }
      if actor.campaign != id {
        return NotCampaignMember, false;
      }
      var i := MemberIndex(roster, actor.Record());
      if i == |roster| {
        return NotCampaignMember, false;
      }
      if roster[i].ready == ready {
        return NoError, false;
      }
      roster := roster[i := roster[i].(ready := ready)];
      error, changed := AdvanceVersion();
    }
  }
}
