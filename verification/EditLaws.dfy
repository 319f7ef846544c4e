/** What each campaign edit does, said of the set of owners and the set of ready members
    instead of the roster's list. */
module EditLaws {
  import opened Basics
  import opened CampaignState

  function RecordSet(roster: seq<SlotState>): set<SlotRecord> {
    set i | 0 <= i < |roster| :: roster[i].Record()
  }

  /** Who owns which slot. */
  function Owners(a: Aggregate): set<SlotRecord> { RecordSet(a.roster) }

  /** Which of them are ready. */
  function ReadyOwners(a: Aggregate): set<SlotRecord> {
    set i | 0 <= i < |a.roster| && a.roster[i].ready :: a.roster[i].Record()
  }

  predicate ValidOwner(r: SlotRecord) {
    ValidIdentity(r.slot) && ValidIdentity(r.player) && ValidIdentity(r.binding)
  }

  predicate Shares(r: SlotRecord, x: SlotRecord) {
    r.slot == x.slot || r.player == x.player || r.binding == x.binding
  }

  /** An owner of the slot, and a member who plays. */
  predicate Owned(a: Aggregate, slot: Id) { exists r :: r in Owners(a) && r.slot == slot }

  predicate Plays(a: Aggregate, player: Id) { exists r :: r in Owners(a) && r.player == player }

  /** Room for one more roster version. */
  predicate Versions(a: Aggregate) { a.version < MAX_U64 }

  /*
   * Rosters as sets
   */

  lemma SortKeepsOwners(roster: seq<SlotState>)
    ensures RecordSet(Unready(Sort(roster))) == RecordSet(roster)
  {
    var sorted := Unready(Sort(roster));
    forall r ensures r in RecordSet(sorted) <==> r in RecordSet(roster) {
      if r in RecordSet(sorted) {
        var i :| 0 <= i < |sorted| && sorted[i].Record() == r;
        assert Sort(roster)[i] in multiset(roster);
      }
      if r in RecordSet(roster) {
        var i :| 0 <= i < |roster| && roster[i].Record() == r;
        assert roster[i] in multiset(Sort(roster));
        var j :| 0 <= j < |Sort(roster)| && Sort(roster)[j] == roster[i];
        assert sorted[j].Record() == r;
      }
    }
  }

  lemma OwnedIff(a: Aggregate, slot: Id)
    ensures Owned(a, slot) <==> SlotIndex(a.roster, slot) < |a.roster|
  {
    var i := SlotIndex(a.roster, slot);
    if i < |a.roster| {
      assert a.roster[i].Record() in Owners(a);
    }
    if Owned(a, slot) {
      var r :| r in Owners(a) && r.slot == slot;
      var j :| 0 <= j < |a.roster| && a.roster[j].Record() == r;
      assert a.roster[j].slot == slot;
    }
  }

  lemma PlaysIff(a: Aggregate, player: Id)
    ensures Plays(a, player) <==> IsMember(a.roster, player)
  {
    if IsMember(a.roster, player) {
      var i :| 0 <= i < |a.roster| && a.roster[i].player == player;
      assert a.roster[i].Record() in Owners(a);
    }
    if Plays(a, player) {
      var r :| r in Owners(a) && r.player == player;
      var j :| 0 <= j < |a.roster| && a.roster[j].Record() == r;
      assert a.roster[j].player == player;
    }
  }

  /** A changed, valid roster of an open lobby is installed under the next version. */
  lemma Installed(a: Aggregate, roster: seq<SlotState>)
    requires Inv(a) && !a.sealed && ValidRoster(roster) && Owners(a) != RecordSet(roster)
    ensures var o := ReplaceRoster(a, roster);
            if Versions(a)
            then && o.error == NoError && o.changed && Owners(o.campaign) == RecordSet(roster)
                 && ReadyOwners(o.campaign) == {}
                 && o.campaign == a.(version := a.version + 1, roster := o.campaign.roster)
            else o == Outcome(a, IntegrityFailure, false)
  {
    hide ValidRoster, Ascending;
    RosterFaultIff(roster, true);
    SortKeepsOwners(roster);
  }

  /** Who shares anything with an owner is that owner. */
  lemma SameOwner(roster: seq<SlotState>, i: int, j: int)
    requires ValidRoster(roster) && 0 <= i < |roster| && 0 <= j < |roster| && Clash(roster[i], roster[j])
    ensures i == j
  {
  }

  lemma NobodyReady(a: Aggregate)
    requires Inv(a) && !a.sealed
    ensures ReadyOwners(a) == {}
  {
  }

  /*
   * Clashes
   */

  /** An owner, or one of another slot, shares something with a new one. */
  predicate Hits(x: SlotRecord, r: SlotRecord, elsewhere: bool) {
    Shares(x, r) && (elsewhere ==> x.slot != r.slot)
  }

  predicate ClashFree(a: Aggregate, r: SlotRecord, elsewhere: bool) {
    forall x :: x in Owners(a) ==> !Hits(x, r, elsewhere)
  }

  /** The error that names what two owners share. */
  predicate NamesClash(error: CampaignError, r: SlotRecord, x: SlotRecord) {
    if r.slot == x.slot then error == DuplicateSlot
    else if r.player == x.player then error == DuplicatePlayer
    else r.binding == x.binding && error == DuplicateCharacterBinding
  }

  /** The error names the clash with the first owner in slot order that clashes. */
  ghost predicate FirstClash(a: Aggregate, r: SlotRecord, elsewhere: bool, error: CampaignError) {
    exists x :: && x in Owners(a) && Hits(x, r, elsewhere) && NamesClash(error, x, r)
                && forall y :: y in Owners(a) && Hits(y, r, elsewhere) ==> y == x || Less(x.slot, y.slot)
  }

  lemma FirstHit(a: Aggregate, r: SlotRecord, elsewhere: bool, i: nat)
    requires Ascending(a.roster) && i <= |a.roster|
    requires forall j :: 0 <= j < i ==> !Hits(a.roster[j].Record(), r, elsewhere)
    requires i < |a.roster| ==> Hits(a.roster[i].Record(), r, elsewhere)
    ensures ClashFree(a, r, elsewhere) <==> i == |a.roster|
    ensures i < |a.roster| ==> FirstClash(a, r, elsewhere, Conflict(a.roster[i], ToSlotState(r)))
  {
    if i < |a.roster| {
      var x := a.roster[i].Record();
      assert x in Owners(a);
      forall y | y in Owners(a) && Hits(y, r, elsewhere) ensures y == x || Less(x.slot, y.slot) {
        var j :| 0 <= j < |a.roster| && a.roster[j].Record() == y;
      }
    } else {
      forall x | x in Owners(a) ensures !Hits(x, r, elsewhere) {
        var j :| 0 <= j < |a.roster| && a.roster[j].Record() == x;
      }
    }
  }

  /*
   * Adding
   */

  lemma WithNewOwner(a: Aggregate, r: SlotRecord)
    requires Inv(a) && |a.roster| < MAX_ROSTER && ClashFree(a, r, false)
    ensures var roster := a.roster + [ToSlotState(r)];
            && RecordSet(roster) == Owners(a) + {r}
            && (ValidRoster(roster) <==> ValidOwner(r))
  {
    var roster := a.roster + [ToSlotState(r)];
    assert roster[|a.roster|].Record() == r;
    forall x ensures x in RecordSet(roster) <==> x in Owners(a) + {r} {
      if x in Owners(a) {
        var i :| 0 <= i < |a.roster| && a.roster[i].Record() == x;
        assert roster[i].Record() == x;
      }
    }
    forall i | 0 <= i < |a.roster| ensures !Clash(roster[i], roster[|a.roster|]) {
      assert a.roster[i].Record() in Owners(a);
    }
    if ValidRoster(roster) {
      assert ValidSlotIdentity(roster[|a.roster|]);
    }
  }

  /** A slot is added exactly to an open lobby with room and versions left, if its owner
      is well formed and shares nothing with anybody. It is the only difference. */
  lemma AddIff(a: Aggregate, r: SlotRecord)
    requires Inv(a)
    ensures var o := Apply(a, Add(r));
            var added := !a.sealed && |a.roster| < MAX_ROSTER && Versions(a) && ValidOwner(r) && ClashFree(a, r, false);
            && (o.error == NoError <==> added)
            && (added ==>
                  && o.changed && Owners(o.campaign) == Owners(a) + {r} && ReadyOwners(o.campaign) == {}
                  && o.campaign == a.(version := a.version + 1, roster := o.campaign.roster))
  {
    hide ReplaceRoster, ValidRoster, ValidIdentity;
    if !a.sealed && |a.roster| < MAX_ROSTER {
      AddConflicts(a, r);
      if ClashFree(a, r, false) {
        WithNewOwner(a, r);
        assert r !in Owners(a);
        if ValidOwner(r) {
          Installed(a, a.roster + [ToSlotState(r)]);
        } else {
          RejectsFaulty(a, a.roster + [ToSlotState(r)]);
        }
      }
    }
  }

  lemma RejectsFaulty(a: Aggregate, roster: seq<SlotState>)
    requires !a.sealed && a.phase == Lobby && !ValidRoster(roster)
    ensures ReplaceRoster(a, roster) == Outcome(a, RosterFault(roster, true), false)
    ensures RosterFault(roster, true) != NoError
  {
    hide ValidRoster;
    RosterFaultIff(roster, true);
  }

  /** An addition that clashes is refused for the first owner in slot order it clashes
      with, and nothing else is looked at. */
  lemma AddConflicts(a: Aggregate, r: SlotRecord)
    requires Inv(a) && !a.sealed && |a.roster| < MAX_ROSTER
    ensures var o := Apply(a, Add(r));
            if ClashFree(a, r, false) then o == ReplaceRoster(a, a.roster + [ToSlotState(r)])
            else o.campaign == a && !o.changed && FirstClash(a, r, false, o.error)
  {
    hide ReplaceRoster, ValidRoster, FirstClash, ClashFree;
    var s := ToSlotState(r);
    var i := First(a.roster, e => Conflict(e, s) != NoError);
    FirstHit(a, r, false, i);
    assert s.(ready := false) == s;
  }

  /** Why an addition that clashes with nobody is refused. */
  lemma AddRefusals(a: Aggregate, r: SlotRecord)
    requires Inv(a)
    ensures var o := Apply(a, Add(r));
            && (a.sealed ==> o == Outcome(a, RosterSealed, false))
            && (!a.sealed && |a.roster| == MAX_ROSTER ==> o == Outcome(a, RosterLimitExceeded, false))
            && (!a.sealed && |a.roster| < MAX_ROSTER && ClashFree(a, r, false) ==>
                  && (!ValidOwner(r) ==> o == Outcome(a, InvalidIdentity, false))
                  && (ValidOwner(r) && !Versions(a) ==> o == Outcome(a, IntegrityFailure, false)))
  {
    hide ReplaceRoster, ValidRoster, ValidIdentity;
    if !a.sealed && |a.roster| < MAX_ROSTER && ClashFree(a, r, false) {
      AddConflicts(a, r);
      WithNewOwner(a, r);
      if ValidOwner(r) {
        Installed(a, a.roster + [ToSlotState(r)]);
      } else {
        RejectsFaulty(a, a.roster + [ToSlotState(r)]);
        NewOwnerFault(a, r);
      }
    }
  }

  lemma {:induction false} ValidPrefixHasNoFault(roster: seq<SlotState>, n: nat)
    requires n < |roster|
    requires forall i :: 0 <= i < n ==> ValidSlotIdentity(roster[i])
    requires forall i, j :: 0 <= i < j < n ==> !Clash(roster[i], roster[j])
    ensures PrefixFault(roster, n + 1) == SlotFault(roster, n)
  {
    PrefixFaultIff(roster, n);
  }

  lemma NewOwnerFault(a: Aggregate, r: SlotRecord)
    requires Inv(a) && |a.roster| < MAX_ROSTER && !ValidOwner(r)
    ensures RosterFault(a.roster + [ToSlotState(r)], true) == InvalidIdentity
  {
    hide ValidIdentity;
    var roster := a.roster + [ToSlotState(r)];
    assert forall i :: 0 <= i < |a.roster| ==> roster[i] == a.roster[i];
    ValidPrefixHasNoFault(roster, |a.roster|);
  }

  /*
   * Removing
   */

  lemma WithoutSlotIsValid(roster: seq<SlotState>, i: nat)
    requires ValidRoster(roster) && i < |roster|
    ensures ValidRoster(roster[..i] + roster[i + 1..])
  {
    var rest := roster[..i] + roster[i + 1..];
    assert forall k :: 0 <= k < |rest| ==> rest[k] == roster[if k < i then k else k + 1];
    forall k, l | 0 <= k < l < |rest| ensures !Clash(rest[k], rest[l]) {
      assert !Clash(roster[if k < i then k else k + 1], roster[if l < i then l else l + 1]);
    }
  }

  lemma LeftOwner(roster: seq<SlotState>, i: nat, x: SlotRecord)
    requires ValidRoster(roster) && i < |roster| && x in RecordSet(roster[..i] + roster[i + 1..])
    ensures x in RecordSet(roster) && x != roster[i].Record()
  {
    hide ValidRoster;
    var rest := roster[..i] + roster[i + 1..];
    var k :| 0 <= k < |rest| && rest[k].Record() == x;
    var j := if k < i then k else k + 1;
    assert rest[k] == roster[j];
    if x == roster[i].Record() {
      SameOwner(roster, i, j);
    }
  }

  lemma OtherOwner(roster: seq<SlotState>, i: nat, x: SlotRecord)
    requires i < |roster| && x in RecordSet(roster) && x != roster[i].Record()
    ensures x in RecordSet(roster[..i] + roster[i + 1..])
  {
    var rest := roster[..i] + roster[i + 1..];
    var j :| 0 <= j < |roster| && roster[j].Record() == x;
    assert rest[if j < i then j else j - 1].Record() == x;
  }

  lemma WithoutSlot(a: Aggregate, i: nat)
    requires Inv(a) && i < |a.roster|
    ensures var roster := a.roster[..i] + a.roster[i + 1..];
            && ValidRoster(roster) && RecordSet(roster) == Owners(a) - {a.roster[i].Record()}
  {
    var roster := a.roster[..i] + a.roster[i + 1..];
    WithoutSlotIsValid(a.roster, i);
    hide ValidRoster, Ascending, RecordSet;
    forall x ensures x in RecordSet(roster) <==> x in Owners(a) - {a.roster[i].Record()} {
      if x in RecordSet(roster) {
        LeftOwner(a.roster, i, x);
      }
      if x in Owners(a) && x != a.roster[i].Record() {
        OtherOwner(a.roster, i, x);
      }
    }
  }

  lemma OneOwner(a: Aggregate, i: nat, r: SlotRecord)
    requires Inv(a) && i < |a.roster| && r in Owners(a)
    ensures r.slot == a.roster[i].slot <==> r == a.roster[i].Record()
  {
    var j :| 0 <= j < |a.roster| && a.roster[j].Record() == r;
    if r.slot == a.roster[i].slot {
      SameOwner(a.roster, i, j);
    }
  }

  /** A slot is removed exactly from an open lobby with versions left in which somebody
      owns it. That owner is the only one gone. */
  lemma RemoveIff(a: Aggregate, slot: Id)
    requires Inv(a)
    ensures var o := Apply(a, Remove(slot));
            var removed := !a.sealed && Versions(a) && Owned(a, slot);
            && (o.error == NoError <==> removed)
            && (removed ==>
                  && o.changed && Owners(o.campaign) == (set r | r in Owners(a) && r.slot != slot)
                  && |o.campaign.roster| == |a.roster| - 1 && ReadyOwners(o.campaign) == {}
                  && o.campaign == a.(version := a.version + 1, roster := o.campaign.roster))
            && (!removed ==>
                  && o.campaign == a && !o.changed
                  && o.error == (if a.sealed then RosterSealed else if !Owned(a, slot) then SlotNotFound
                                 else IntegrityFailure))
  {
    hide ReplaceRoster, ValidRoster;
    OwnedIff(a, slot);
    var i := SlotIndex(a.roster, slot);
    if !a.sealed && i < |a.roster| {
      var roster := a.roster[..i] + a.roster[i + 1..];
      WithoutSlot(a, i);
      assert a.roster[i].Record() in Owners(a);
      Installed(a, roster);
      ReplacedSize(a, roster);
      forall r | r in Owners(a) ensures r.slot == slot <==> r == a.roster[i].Record() {
        OneOwner(a, i, r);
      }
    }
  }

  lemma ReplacedSize(a: Aggregate, roster: seq<SlotState>)
    ensures ReplaceRoster(a, roster).changed ==> |ReplaceRoster(a, roster).campaign.roster| == |roster|
  {
    hide RosterFault;
  }

  /*
   * Replacing
   */

  lemma WithOwner(a: Aggregate, i: nat, r: SlotRecord)
    requires Inv(a) && i < |a.roster| && a.roster[i].slot == r.slot
    requires ClashFree(a, r, true)
    ensures var roster := a.roster[i := ToSlotState(r)];
            && RecordSet(roster) == (set x | x in Owners(a) && x.slot != r.slot) + {r}
            && (ValidRoster(roster) <==> ValidOwner(r))
  {
    var roster := a.roster[i := ToSlotState(r)];
    assert roster[i].Record() == r;
    forall x ensures x in RecordSet(roster) <==> x in (set x | x in Owners(a) && x.slot != r.slot) + {r} {
      if x in RecordSet(roster) && x != r {
        var k :| 0 <= k < |roster| && roster[k].Record() == x;
        assert a.roster[k].Record() == x;
        if x.slot == r.slot {
          SameOwner(a.roster, i, k);
        }
      }
      if x in Owners(a) && x.slot != r.slot {
        var j :| 0 <= j < |a.roster| && a.roster[j].Record() == x;
        assert roster[j].Record() == x;
      }
    }
    forall k | 0 <= k < |roster| && k != i ensures !Clash(roster[k], roster[i]) && !Clash(roster[i], roster[k]) {
      assert !Clash(a.roster[if i < k then i else k], a.roster[if i < k then k else i]);
      assert a.roster[k].Record() in Owners(a);
    }
    if ValidRoster(roster) {
      assert ValidSlotIdentity(roster[i]);
    }
  }

  lemma ReplaceCases(a: Aggregate, r: SlotRecord)
    requires Inv(a) && !a.sealed && Owned(a, r.slot)
    ensures var o := Apply(a, Replace(r));
            if !ClashFree(a, r, true) then o.campaign == a && !o.changed && FirstClash(a, r, true, o.error)
            else if r in Owners(a) then o == Outcome(a, NoError, false)
            else o == ReplaceRoster(a, a.roster[SlotIndex(a.roster, r.slot) := ToSlotState(r)])
  {
    hide ReplaceRoster, ValidRoster, FirstClash, ClashFree;
    OwnedIff(a, r.slot);
    var s := ToSlotState(r);
    var i := SlotIndex(a.roster, r.slot);
    var j := First(a.roster, (e: SlotState) => e.slot != s.slot && Conflict(e, s) != NoError);
    FirstHit(a, r, true, j);
    if r in Owners(a) {
      OneOwner(a, i, r);
    } else {
      assert a.roster[i].Record() in Owners(a);
    }
  }

  /** A slot's owner is replaced exactly in an open lobby in which somebody owns the slot
      and no other owner shares anything with the new one, who is well formed, with
      versions left; or it is that owner already. Nobody else is exchanged. */
  lemma ReplaceIff(a: Aggregate, r: SlotRecord)
    requires Inv(a)
    ensures var o := Apply(a, Replace(r));
            var allowed := !a.sealed && Owned(a, r.slot) && ClashFree(a, r, true);
            && (o.error == NoError <==> allowed && (r in Owners(a) || (ValidOwner(r) && Versions(a))))
            && (o.error == NoError ==>
                  && Owners(o.campaign) == (set x | x in Owners(a) && x.slot != r.slot) + {r}
                  && ReadyOwners(o.campaign) == {} && o.changed == (r !in Owners(a))
                  && o.campaign == a.(version := o.campaign.version, roster := o.campaign.roster)
                  && o.campaign.version == a.version + (if o.changed then 1 else 0))
            && (a.sealed ==> o == Outcome(a, RosterSealed, false))
            && (!a.sealed && !Owned(a, r.slot) ==> o == Outcome(a, SlotNotFound, false))
            && (!a.sealed && Owned(a, r.slot) && !ClashFree(a, r, true) ==>
                  o.campaign == a && !o.changed && FirstClash(a, r, true, o.error))
            && (allowed && r !in Owners(a) && !ValidOwner(r) ==> o == Outcome(a, InvalidIdentity, false))
            && (allowed && r !in Owners(a) && ValidOwner(r) && !Versions(a) ==>
                  o == Outcome(a, IntegrityFailure, false))
  {
    hide ReplaceRoster, ValidRoster, ValidIdentity;
    OwnedIff(a, r.slot);
    if !a.sealed && Owned(a, r.slot) {
      ReplaceCases(a, r);
      var i := SlotIndex(a.roster, r.slot);
      NobodyReady(a);
      if ClashFree(a, r, true) {
        var roster := a.roster[i := ToSlotState(r)];
        WithOwner(a, i, r);
        if r in Owners(a) {
          forall x ensures x in Owners(a) <==> x in (set x | x in Owners(a) && x.slot != r.slot) + {r} {
            if x in Owners(a) {
              OneOwner(a, i, x);
              OneOwner(a, i, r);
            }
          }
        } else if ValidOwner(r) {
          Installed(a, roster);
        } else {
          RejectsFaulty(a, roster);
          ReplacedFault(a, i, r);
        }
      }
    }
  }

  lemma ReplacedFault(a: Aggregate, i: nat, r: SlotRecord)
    requires Inv(a) && i < |a.roster| && a.roster[i].slot == r.slot && !ValidOwner(r)
    requires ClashFree(a, r, true)
    ensures RosterFault(a.roster[i := ToSlotState(r)], true) == InvalidIdentity
  {
    hide ValidIdentity;
    var roster := a.roster[i := ToSlotState(r)];
    ValidPrefixHasNoFault(roster, i);
    FirstFaultDecides(roster, i + 1);
  }

  /*
   * Starting, and the session manager
   */

  /** A lobby starts exactly by naming one of its players, with versions left. It is
      sealed as it is, and that player manages it. */
  lemma StartIff(a: Aggregate, manager: Id)
    requires Inv(a)
    ensures var o := Apply(a, Start(manager));
            var started := !a.sealed && Plays(a, manager) && Versions(a);
            && (o.error == NoError <==> started)
            && (started ==>
                  o == Outcome(Aggregate(a.id, a.version + 1, CharacterCreation, true, Some(manager), a.roster),
                               NoError, true))
            && (!started ==>
                  && o.campaign == a && !o.changed
                  && o.error == (if a.sealed then RosterSealed else if Owners(a) == {} then InvalidRoster
                                 else if !Plays(a, manager) then InvalidSessionManager else IntegrityFailure))
  {
    hide RosterFault, ValidRoster, Ascending;
    PlaysIff(a, manager);
    RosterFaultIff(a.roster, false);
    EmptyFault(a);
    if Plays(a, manager) {
      PlayerIsValid(a, manager);
    }
  }

  lemma EmptyFault(a: Aggregate)
    ensures Owners(a) == {} <==> a.roster == []
    ensures a.roster == [] ==> RosterFault(a.roster, false) == InvalidRoster
  {
    if a.roster != [] {
      assert a.roster[0].Record() in Owners(a);
    }
  }

  lemma PlayerIsValid(a: Aggregate, player: Id)
    requires ValidRoster(a.roster) && IsMember(a.roster, player)
    ensures ValidIdentity(player)
  {
    hide ValidIdentity;
    var i :| 0 <= i < |a.roster| && a.roster[i].player == player;
    assert ValidSlotIdentity(a.roster[i]);
  }

  /** The session is handed over exactly by its manager to one of the players, with
      versions left unless it is the same one. Nothing else changes. */
  lemma TransferIff(a: Aggregate, actor: Id, manager: Id)
    requires Inv(a)
    ensures var o := Apply(a, Transfer(actor, manager));
            var allowed := a.manager == Some(actor) && Plays(a, manager);
            && (o.error == NoError <==> allowed && (manager == actor || Versions(a)))
            && (o.error == NoError ==>
                  && o.changed == (manager != actor)
                  && o.campaign == a.(manager := Some(manager), version := o.campaign.version)
                  && o.campaign.version == a.version + (if o.changed then 1 else 0))
            && (!allowed ==>
                  o == Outcome(a, if a.manager != Some(actor) then UnauthorizedActor else InvalidSessionManager, false))
            && (allowed && manager != actor && !Versions(a) ==>
                  o == Outcome(a.(manager := Some(manager)), IntegrityFailure, false))
  {
    hide IsMember;
    PlaysIff(a, manager);
  }

  /*
   * Readiness
   */

  predicate Belongs(a: Aggregate, m: Member) { m.campaign == a.id && m.Record() in Owners(a) }

  predicate IsReady(a: Aggregate, m: Member) { m.Record() in ReadyOwners(a) }

  lemma BelongsIff(a: Aggregate, m: Member)
    requires Inv(a)
    ensures var i := MemberIndex(a.roster, m.Record());
            && (m.Record() in Owners(a) <==> i < |a.roster|)
            && (i < |a.roster| ==> (IsReady(a, m) <==> a.roster[i].ready))
  {
    var i := MemberIndex(a.roster, m.Record());
    if m.Record() in Owners(a) {
      var j :| 0 <= j < |a.roster| && a.roster[j].Record() == m.Record();
    }
    if i < |a.roster| {
      assert a.roster[i].Record() in Owners(a);
      if IsReady(a, m) {
        var j :| 0 <= j < |a.roster| && a.roster[j].ready && a.roster[j].Record() == m.Record();
        SameOwner(a.roster, i, j);
      }
    }
  }

  lemma OneFlag(a: Aggregate, i: nat, ready: bool)
    requires Inv(a) && i < |a.roster|
    ensures var next := a.(roster := a.roster[i := a.roster[i].(ready := ready)]);
            && Owners(next) == Owners(a)
            && ReadyOwners(next) == if ready then ReadyOwners(a) + {a.roster[i].Record()}
                                    else ReadyOwners(a) - {a.roster[i].Record()}
  {
    hide ValidRoster, Ascending;
    var next := a.(roster := a.roster[i := a.roster[i].(ready := ready)]);
    assert forall k :: 0 <= k < |a.roster| ==> next.roster[k].Record() == a.roster[k].Record();
    var m := a.roster[i].Record();
    forall x ensures x in ReadyOwners(next) <==>
                     (if ready then x in ReadyOwners(a) + {m} else x in ReadyOwners(a) - {m})
    {
      if x in ReadyOwners(next) {
        var k :| 0 <= k < |next.roster| && next.roster[k].ready && next.roster[k].Record() == x;
        if x == m {
          SameOwner(a.roster, i, k);
        } else {
          assert a.roster[k].ready && a.roster[k].Record() == x;
        }
      }
      if x in ReadyOwners(a) && x != m {
        var k :| 0 <= k < |a.roster| && a.roster[k].ready && a.roster[k].Record() == x;
        assert next.roster[k].ready && next.roster[k].Record() == x;
      }
      if x == m && ready {
        assert next.roster[i].ready && next.roster[i].Record() == x;
      }
    }
  }

  /** A member of a sealed campaign changes its own readiness, and nothing else, with
      versions left unless it already has it. */
  lemma ReadyIff(a: Aggregate, m: Member, ready: bool)
    requires Inv(a)
    ensures var o := Apply(a, Ready(m, ready));
            var allowed := a.sealed && Belongs(a, m);
            var same := IsReady(a, m) == ready;
            && (o.error == NoError <==> allowed && (same || Versions(a)))
            && (o.error == NoError ==>
                  && Owners(o.campaign) == Owners(a) && o.changed == !same
                  && ReadyOwners(o.campaign) ==
                     (if ready then ReadyOwners(a) + {m.Record()} else ReadyOwners(a) - {m.Record()})
                  && o.campaign == a.(version := o.campaign.version, roster := o.campaign.roster)
                  && o.campaign.version == a.version + (if o.changed then 1 else 0))
            && (!allowed ==> o == Outcome(a, if a.sealed then NotCampaignMember else RosterNotSealed, false))
            && (allowed && !same && !Versions(a) ==> o.error == IntegrityFailure && !o.changed)
  {
    hide Inv;
    BelongsIff(a, m);
    var i := MemberIndex(a.roster, m.Record());
    if i < |a.roster| {
      OneFlag(a, i, ready);
    }
  }

  /*
   * These laws leave nothing open
   */

  lemma RecordInSet(roster: seq<SlotState>, other: seq<SlotState>, i: nat) returns (j: nat)
    requires RecordSet(roster) == RecordSet(other) && i < |roster|
    ensures j < |other| && other[j].Record() == roster[i].Record()
  {
    assert roster[i].Record() in RecordSet(other);
    j :| j < |other| && other[j].Record() == roster[i].Record();
  }

  lemma SameHead(a: seq<SlotState>, b: seq<SlotState>)
    requires Ascending(a) && Ascending(b) && RecordSet(a) == RecordSet(b) && a != []
    ensures b != [] && a[0].Record() == b[0].Record()
  {
    var j := RecordInSet(a, b, 0);
    var i := RecordInSet(b, a, 0);
    if a[0].slot != b[0].slot {
      assert Less(b[0].slot, b[j].slot) && Less(a[0].slot, a[i].slot);
      LessTransitive(a[0].slot, b[0].slot, a[0].slot);
      LessIrreflexive(a[0].slot);
    } else if j != 0 {
      assert Less(b[0].slot, b[j].slot);
      LessIrreflexive(b[0].slot);
    }
  }

  lemma TailSet(a: seq<SlotState>)
    requires Ascending(a) && a != []
    ensures Ascending(a[1..]) && RecordSet(a[1..]) == RecordSet(a) - {a[0].Record()}
  {
    forall x ensures x in RecordSet(a[1..]) <==> x in RecordSet(a) - {a[0].Record()} {
      if x in RecordSet(a[1..]) {
        var i :| 0 <= i < |a[1..]| && a[1..][i].Record() == x;
        assert a[i + 1].Record() == x && Less(a[0].slot, a[i + 1].slot);
        LessIrreflexive(a[0].slot);
      }
      if x in RecordSet(a) && x != a[0].Record() {
        var i :| 0 <= i < |a| && a[i].Record() == x;
        assert a[1..][i - 1].Record() == x;
      }
    }
  }

  /** Two rosters in slot order with the same owners list them alike. */
  lemma {:induction false} OwnersDecideOrder(a: seq<SlotState>, b: seq<SlotState>)
    requires Ascending(a) && Ascending(b) && RecordSet(a) == RecordSet(b)
    ensures Records(a) == Records(b)
    decreases |a|
  {
    if a != [] {
      SameHead(a, b);
      TailSet(a);
      TailSet(b);
      OwnersDecideOrder(a[1..], b[1..]);
      assert |a| == |b|;
      forall i | 0 <= i < |a| ensures a[i].Record() == b[i].Record() {
        if i > 0 {
          assert Records(a[1..])[i - 1] == Records(b[1..])[i - 1];
        }
      }
    } else {
      NoOwners(b);
    }
  }

  lemma NoOwners(roster: seq<SlotState>)
    ensures RecordSet(roster) == {} <==> roster == []
  {
    if roster != [] {
      assert roster[0].Record() in RecordSet(roster);
    }
  }

  /** The owners and who of them is ready decide the whole roster. */
  lemma OwnersDecide(a: Aggregate, b: Aggregate)
    requires Inv(a) && Inv(b) && Owners(a) == Owners(b) && ReadyOwners(a) == ReadyOwners(b)
    ensures a.roster == b.roster
  {
    OwnersDecideOrder(a.roster, b.roster);
    assert |a.roster| == |b.roster|;
    forall i | 0 <= i < |a.roster| ensures a.roster[i] == b.roster[i] {
      assert Records(a.roster)[i] == Records(b.roster)[i];
      var m := Member(a.id, a.roster[i].slot, a.roster[i].player, a.roster[i].binding);
      AtIndex(a, i, m);
      AtIndex(b, i, m);
    }
  }

  lemma AtIndex(a: Aggregate, i: nat, m: Member)
    requires Inv(a) && i < |a.roster| && a.roster[i].Record() == m.Record()
    ensures IsReady(a, m) <==> a.roster[i].ready
  {
    BelongsIff(a, m);
    var j := MemberIndex(a.roster, m.Record());
    assert a.roster[i].Record() in Owners(a);
    SameOwner(a.roster, i, j);
  }
}
