/** The connection table: who is connected as which player, and admitted as which
    exact campaign member. */
module CampaignAdmission {
  import opened Basics
  import opened CampaignState
  import opened FullRoster

  datatype AdmissionRecord = AdmissionRecord(
    connection: nat,
    player: Id,
    admitted: Option<Member>,
    previous: Option<Member>)

  type Table = seq<AdmissionRecord>

  datatype Registration = Accepted | InvalidPlayer | DuplicateActivePlayer

  /** A player id is 64 lower-case hexadecimal characters. */
  predicate ValidPlayer(player: Id) {
    |player| == 64 && forall i :: 0 <= i < 64 ==> 48 <= player[i] <= 57 || 97 <= player[i] <= 102
  }

  function ConnectionIndex(t: Table, connection: nat): nat {
    First(t, (r: AdmissionRecord) => r.connection == connection)
  }

  function Register(t: Table, connection: nat, player: Id): (Table, Registration) {
    if !ValidPlayer(player) then (t, InvalidPlayer)
    else if exists r :: r in t && r.connection != connection && r.player == player then (t, DuplicateActivePlayer)
    else
      var i := ConnectionIndex(t, connection);
      if i < |t| then (t, if t[i].player == player then Accepted else DuplicateActivePlayer)
      else (t + [AdmissionRecord(connection, player, None, None)], Accepted)
  }

  /** The table without a connection. */
  function Departed(t: Table, connection: nat): Table {
    if t == [] then []
    else
      var n := |t| - 1;
      Departed(t[..n], connection) + if t[n].connection == connection then [] else [t[n]]
  }

  /** Admitting a record as the member of its own player: what creating, joining
      and resuming a campaign end with. */
  function Admit(t: Table, i: nat, campaign: Id, slot: SlotRecord): Table
    requires i < |t|
  {
    t[i := t[i].(admitted := Some(Member(campaign, slot.slot, slot.player, slot.binding)))]
  }

  function Leave(t: Table, i: nat): Table
    requires i < |t|
  {
    if t[i].admitted.Some? then t[i := t[i].(admitted := None, previous := t[i].admitted)] else t
  }

  /** The admitted identities of a campaign, in table order. */
  function AdmittedTo(t: Table, campaign: Id): seq<Member> {
    if t == [] then []
    else
      var n := |t| - 1;
      AdmittedTo(t[..n], campaign) +
      if t[n].admitted.Some? && t[n].admitted.value.campaign == campaign then [t[n].admitted.value] else []
  }

  /** Every admitted identity is present, connected and admitted. */
  function BuildPresence(t: Table, campaign: Id): (p: seq<Presence>)
    ensures |p| == |AdmittedTo(t, campaign)|
  {
    var members := AdmittedTo(t, campaign);
    seq(|members|, i requires 0 <= i < |members| => Presence(members[i], true, true))
  }

  /*
   * The table's rules
   */

  /** Handles and players are unique, and whoever is admitted is admitted as the
      player of the connection. */
  ghost predicate TableInv(t: Table) {
    && (forall i, j :: 0 <= i < j < |t| ==> t[i].connection != t[j].connection && t[i].player != t[j].player)
    && (forall i :: 0 <= i < |t| ==> ValidPlayer(t[i].player))
    && (forall i :: 0 <= i < |t| && t[i].admitted.Some? ==> t[i].admitted.value.player == t[i].player)
    && (forall i :: 0 <= i < |t| && t[i].previous.Some? ==> t[i].previous.value.player == t[i].player)
  }

  lemma RegisterKeepsInv(t: Table, connection: nat, player: Id)
    requires TableInv(t)
    ensures TableInv(Register(t, connection, player).0)
  {
  }

  lemma {:induction false} DepartedMembers(t: Table, connection: nat)
    ensures forall r :: r in Departed(t, connection) <==> r in t && r.connection != connection
  {
    if t != [] {
      var n := |t| - 1;
      DepartedMembers(t[..n], connection);
      assert t == t[..n] + [t[n]];
    }
  }

  lemma TableInvSnoc(t: Table, r: AdmissionRecord)
    requires TableInv(t) && ValidPlayer(r.player)
    requires r.admitted.Some? ==> r.admitted.value.player == r.player
    requires r.previous.Some? ==> r.previous.value.player == r.player
    requires forall x :: x in t ==> x.connection != r.connection && x.player != r.player
    ensures TableInv(t + [r])
  {
  }

  lemma {:induction false} DepartedKeeps(t: Table, connection: nat)
    requires TableInv(t)
    ensures TableInv(Departed(t, connection))
  {
    if t != [] {
      var n := |t| - 1;
      DepartedKeeps(t[..n], connection);
      DepartedMembers(t[..n], connection);
      if t[n].connection != connection {
        TableInvSnoc(Departed(t[..n], connection), t[n]);
      } else {
        assert Departed(t[..n], connection) + [] == Departed(t[..n], connection);
      }
    }
  }

  lemma AdmitKeepsInv(t: Table, i: nat, campaign: Id, slot: SlotRecord)
    requires TableInv(t) && i < |t| && slot.player == t[i].player
    ensures TableInv(Admit(t, i, campaign, slot))
  {
  }

  lemma LeaveKeepsInv(t: Table, i: nat)
    requires TableInv(t) && i < |t|
    ensures TableInv(Leave(t, i))
  {
  }

  /*
   * Admissions
   */

  lemma {:induction false} AdmittedMembers(t: Table, campaign: Id, m: Member)
    ensures m in AdmittedTo(t, campaign) <==>
            m.campaign == campaign && exists i :: 0 <= i < |t| && t[i].admitted == Some(m)
  {
    if t != [] {
      var n := |t| - 1;
      AdmittedMembers(t[..n], campaign, m);
      assert t == t[..n] + [t[n]];
      if exists i :: 0 <= i < |t| && t[i].admitted == Some(m) {
        var i :| 0 <= i < |t| && t[i].admitted == Some(m);
        assert i < n ==> t[..n][i].admitted == Some(m);
      }
      if exists i :: 0 <= i < n && t[..n][i].admitted == Some(m) {
        var i :| 0 <= i < n && t[..n][i].admitted == Some(m);
        assert t[i].admitted == Some(m);
      }
    }
  }

  /** Nobody is admitted twice, not even under two identities. */
  lemma {:induction false} AdmittedOnce(t: Table, campaign: Id)
    requires TableInv(t)
    ensures NoDuplicates(AdmittedTo(t, campaign))
  {
    if t != [] {
      var n := |t| - 1;
      AdmittedOnce(t[..n], campaign);
      var front := AdmittedTo(t[..n], campaign);
      if t[n].admitted.Some? {
        var m := t[n].admitted.value;
        AdmittedMembers(t[..n], campaign, m);
        forall i | 0 <= i < n ensures t[..n][i].admitted != Some(m) {
          assert t[i].player != t[n].player;
        }
        NoDuplicatesSnoc(front, m);
      }
    }
  }

  lemma {:induction false} PresenceIsAdmitted(t: Table, campaign: Id)
    ensures Admitted(BuildPresence(t, campaign)) == AdmittedTo(t, campaign)
    ensures AllConnected(BuildPresence(t, campaign))
  {
    var members := AdmittedTo(t, campaign);
    PresentMembers(members, BuildPresence(t, campaign));
  }

  lemma {:induction false} PresentMembers(members: seq<Member>, p: seq<Presence>)
    requires |p| == |members| && forall i :: 0 <= i < |p| ==> p[i] == Presence(members[i], true, true)
    ensures Admitted(p) == members
  {
    if p != [] {
      var n := |p| - 1;
      PresentMembers(members[..n], p[..n]);
      assert members == members[..n] + [members[n]];
    }
  }

  lemma {:induction false} DepartureRemoves(t: Table, connection: nat, campaign: Id, i: nat)
    requires TableInv(t) && i < |t| && t[i].connection == connection
    requires t[i].admitted.Some? && t[i].admitted.value.campaign == campaign
    ensures |AdmittedTo(Departed(t, connection), campaign)| == |AdmittedTo(t, campaign)| - 1
  {
    var n := |t| - 1;
    assert t == t[..n] + [t[n]];
    if i == n {
      DepartedAbsent(t[..n], connection);
      assert t[..n] + [] == t[..n];
    } else {
      DepartureRemoves(t[..n], connection, campaign, i);
      assert t[n].connection != connection;
      AdmittedSnoc(Departed(t[..n], connection), t[n], campaign);
    }
  }

  lemma {:induction false} DepartedAbsent(t: Table, connection: nat)
    requires forall i :: 0 <= i < |t| ==> t[i].connection != connection
    ensures Departed(t, connection) == t
  {
    if t != [] {
      var n := |t| - 1;
      DepartedAbsent(t[..n], connection);
      assert t == t[..n] + [t[n]];
    }
  }

  lemma AdmittedSnoc(t: Table, r: AdmissionRecord, campaign: Id)
    ensures AdmittedTo(t + [r], campaign) ==
            AdmittedTo(t, campaign) +
            (if r.admitted.Some? && r.admitted.value.campaign == campaign then [r.admitted.value] else [])
  {
    assert (t + [r])[..|t|] == t;
  }

  /** When a member of a full roster disconnects, the loss is observed: with the
      presences left in the table the roster is no longer eligible. */
  lemma LossIsObserved(t: Table, a: Aggregate, connection: nat, i: nat)
    requires TableInv(t) && ValidRoster(a.roster) && i < |t| && t[i].connection == connection
    requires t[i].admitted.Some? && t[i].admitted.value.campaign == a.id
    requires EvaluateFullRoster(a, BuildPresence(t, a.id)) == Eligible
    ensures EvaluateFullRoster(a, BuildPresence(Departed(t, connection), a.id)) != Eligible
  {
    hide EvaluateFullRoster, ValidRoster;
    var before, after := AdmittedTo(t, a.id), AdmittedTo(Departed(t, connection), a.id);
    EligibleIff(a, BuildPresence(t, a.id));
    EligibleIff(a, BuildPresence(Departed(t, connection), a.id));
    PresenceIsAdmitted(t, a.id);
    PresenceIsAdmitted(Departed(t, connection), a.id);
    DepartureRemoves(t, connection, a.id, i);
    SameMultisetSameSize(before, Expected(a));
    if multiset(after) == multiset(Expected(a)) {
      SameMultisetSameSize(after, Expected(a));
    }
  }

  lemma SameMultisetSameSize(s: seq<Member>, t: seq<Member>)
    requires multiset(s) == multiset(t)
    ensures |s| == |t|
  {
    assert |s| == |multiset(s)| == |multiset(t)| == |t|;
  }

  /*
   * Recovery recipients
   */

  datatype RecipientError =
    | InvalidCheckpointRoster
    | MissingCurrentAdmission(member: Member)
    | DuplicateCurrentAdmission(member: Member)
    | UnexpectedCurrentAdmission

  datatype Recipient = Recipient(connection: nat, identity: Member)

  datatype Plan = NoPlan(error: RecipientError) | Recipients(list: seq<Recipient>)

  function ExpectedOf(campaign: Id, s: SlotRecord): Member { Member(campaign, s.slot, s.player, s.binding) }

  function ExpectedMembersOf(campaign: Id, slots: seq<SlotRecord>): (e: seq<Member>)
    ensures |e| == |slots|
    ensures forall i :: 0 <= i < |e| ==> e[i] == ExpectedOf(campaign, slots[i])
  {
    seq(|slots|, i requires 0 <= i < |slots| => ExpectedOf(campaign, slots[i]))
  }

  function MatchIndex(t: Table, m: Member): nat {
    First(t, (r: AdmissionRecord) => r.admitted == Some(m))
  }

  predicate MatchedTwice(t: Table, m: Member) {
    exists i, j :: 0 <= i < j < |t| && t[i].admitted == Some(m) && t[j].admitted == Some(m)
  }

  /** The recipients for the first `n` checkpoint slots, in slot order. */
  function SlotPlan(t: Table, campaign: Id, slots: seq<SlotRecord>, n: nat): Plan
    requires n <= |slots|
  {
    if n == 0 then Recipients([])
    else
      var before := SlotPlan(t, campaign, slots, n - 1);
      var m := ExpectedOf(campaign, slots[n - 1]);
      if before.NoPlan? then before
      else if MatchedTwice(t, m) then NoPlan(DuplicateCurrentAdmission(m))
      else if MatchIndex(t, m) == |t| then NoPlan(MissingCurrentAdmission(m))
      else Recipients(before.list + [Recipient(t[MatchIndex(t, m)].connection, m)])
  }

  function RecipientPlan(t: Table, campaign: Id, slots: seq<SlotRecord>): Plan {
    if campaign == [] || slots == [] || |slots| > MAX_ROSTER then NoPlan(InvalidCheckpointRoster)
    else if SlotPlan(t, campaign, slots, |slots|).NoPlan? then SlotPlan(t, campaign, slots, |slots|)
    else if |AdmittedTo(t, campaign)| != |slots| then NoPlan(UnexpectedCurrentAdmission)
    else SlotPlan(t, campaign, slots, |slots|)
  }

  lemma {:induction false} PlanFailureStays(t: Table, campaign: Id, slots: seq<SlotRecord>, n: nat)
    requires n <= |slots| && SlotPlan(t, campaign, slots, n).NoPlan?
    ensures SlotPlan(t, campaign, slots, |slots|) == SlotPlan(t, campaign, slots, n)
    decreases |slots| - n
  {
    if n < |slots| {
      PlanFailureStays(t, campaign, slots, n + 1);
    }
  }

  /** A member is never matched by two connections: that error cannot happen. */
  lemma NeverMatchedTwice(t: Table, m: Member)
    requires TableInv(t)
    ensures !MatchedTwice(t, m)
  {
  }

  /** A recipient is a connection that is admitted as the recipient's identity. */
  predicate IsAdmitted(t: Table, r: Recipient) {
    exists k :: 0 <= k < |t| && t[k].connection == r.connection && t[k].admitted == Some(r.identity)
  }

  /** The first `n` slots each go to the connection admitted as their member. */
  ghost predicate InSlotOrder(t: Table, campaign: Id, slots: seq<SlotRecord>, list: seq<Recipient>) {
    && |list| <= |slots|
    && forall i :: 0 <= i < |list| ==> list[i].identity == ExpectedOf(campaign, slots[i]) && IsAdmitted(t, list[i])
  }

  lemma MatchOf(t: Table, campaign: Id, m: Member)
    requires TableInv(t) && m.campaign == campaign
    ensures MatchIndex(t, m) < |t| <==> m in AdmittedTo(t, campaign)
    ensures MatchIndex(t, m) < |t| ==> IsAdmitted(t, Recipient(t[MatchIndex(t, m)].connection, m))
  {
    AdmittedMembers(t, campaign, m);
    var k := MatchIndex(t, m);
    assert k < |t| ==> t[k].admitted == Some(m);
  }

  lemma {:induction false} SlotPlanIff(t: Table, campaign: Id, slots: seq<SlotRecord>, n: nat)
    requires TableInv(t) && n <= |slots|
    ensures var p := SlotPlan(t, campaign, slots, n);
            && (p.Recipients? <==> forall i :: 0 <= i < n ==> ExpectedOf(campaign, slots[i]) in AdmittedTo(t, campaign))
            && (p.Recipients? ==> |p.list| == n && InSlotOrder(t, campaign, slots, p.list))
            && (p.NoPlan? ==> p.error.MissingCurrentAdmission?)
  {
    hide TableInv, MatchIndex, AdmittedTo, IsAdmitted, MatchedTwice;
    if n > 0 {
      var m := ExpectedOf(campaign, slots[n - 1]);
      SlotPlanIff(t, campaign, slots, n - 1);
      NeverMatchedTwice(t, m);
      MatchOf(t, campaign, m);
      MatchInRange(t, m);
    }
  }

  lemma MatchInRange(t: Table, m: Member)
    ensures MatchIndex(t, m) <= |t|
  {
  }

  /** Recipients are found exactly when the checkpoint has one to ten slots and the
      campaign's admitted connections are a one-to-one match with them; then every
      slot gets the connection admitted as its exact member, in slot order. */
  lemma RecipientsIff(t: Table, campaign: Id, slots: seq<SlotRecord>)
    requires TableInv(t) && campaign != [] && NoDuplicates(ExpectedMembersOf(campaign, slots))
    ensures var p := RecipientPlan(t, campaign, slots);
            && (p.Recipients? <==>
                  1 <= |slots| <= MAX_ROSTER
                  && multiset(AdmittedTo(t, campaign)) == multiset(ExpectedMembersOf(campaign, slots)))
            && (p.Recipients? ==> |p.list| == |slots| && InSlotOrder(t, campaign, slots, p.list))
            && (p.NoPlan? ==> !p.error.DuplicateCurrentAdmission?)
  {
    hide SlotPlan, TableInv, AdmittedTo, NoDuplicates, InSlotOrder;
    var e, a := ExpectedMembersOf(campaign, slots), AdmittedTo(t, campaign);
    SlotPlanIff(t, campaign, slots, |slots|);
    AdmittedOnce(t, campaign);
    OneToOne(e, a);
    assert (forall i :: 0 <= i < |slots| ==> ExpectedOf(campaign, slots[i]) in a) <==>
           (forall i :: 0 <= i < |e| ==> e[i] in a);
  }

  lemma OneToOne(e: seq<Member>, a: seq<Member>)
    requires NoDuplicates(e) && NoDuplicates(a)
    ensures (forall i :: 0 <= i < |e| ==> e[i] in a) && |a| == |e| <==> multiset(a) == multiset(e)
  {
    NoDuplicatesCounts(e);
    NoDuplicatesCounts(a);
    if (forall i :: 0 <= i < |e| ==> e[i] in a) && |a| == |e| {
      SubsetOfSameSize(set m | m in e, set m | m in a);
    }
    if multiset(a) == multiset(e) {
      SameMultisetSameSize(a, e);
      forall i | 0 <= i < |e| ensures e[i] in a {
        assert e[i] in multiset(a);
      }
    }
  }

  /** The table as the service keeps it. */
  class CampaignAdmissionService {
    var connections: Table

    constructor ()
      ensures connections == [] && TableInv(connections)
    {
      connections := [];
    }

    method RegisterConnection(connection: nat, player: Id) returns (result: Registration)
      requires TableInv(connections)
      modifies this
      ensures (connections, result) == Register(old(connections), connection, player) && TableInv(connections)
    {
      RegisterKeepsInv(connections, connection, player);
      if !ValidPlayer(player) {
        return InvalidPlayer;
      }
      for n := 0 to |connections|
        invariant forall k :: 0 <= k < n ==> connections[k].connection == connection || connections[k].player != player
      {
        if connections[n].connection != connection && connections[n].player == player {
          assert connections[n] in connections;
          return DuplicateActivePlayer;
        }
      }
      var existing := ConnectionIndex(connections, connection);
      if existing < |connections| {
        return if connections[existing].player == player then Accepted else DuplicateActivePlayer;
      }
      connections := connections + [AdmissionRecord(connection, player, None, None)];
      return Accepted;
    }

    /** Drops a connection; returns the member it was admitted as. */
    method RemoveConnection(connection: nat) returns (member: Option<Member>)
      requires TableInv(connections)
      modifies this
      ensures TableInv(connections) && connections == Departed(old(connections), connection)
      ensures var i := ConnectionIndex(old(connections), connection);
              member == if i < |old(connections)| then old(connections)[i].admitted else None
    {
      DepartedKeeps(connections, connection);
      var i := ConnectionIndex(connections, connection);
      if i == |connections| {
        DepartedAbsent(connections, connection);
        return None;
      }
      member := connections[i].admitted;
      var kept: Table := [];
      for n := 0 to |connections|
        invariant connections == old(connections)
        invariant kept == Departed(connections[..n], connection)
      {
        assert connections[..n + 1][..n] == connections[..n] && connections[..n + 1][n] == connections[n];
        if connections[n].connection != connection {
          kept := kept + [connections[n]];
        }
      }
      assert connections[..|connections|] == connections;
      connections := kept;
    }

    /** Admits a connection as the roster slot that belongs to its player. */
    method Resume(connection: nat, campaign: Id, roster: seq<SlotState>, binding: Id) returns (admitted: bool)
      requires TableInv(connections)
      modifies this
      ensures TableInv(connections)
      ensures var t, i := old(connections), ConnectionIndex(old(connections), connection);
              if i < |t| && (t[i].admitted.None? || t[i].admitted.value.campaign == campaign)
                 && PlayerIndex(roster, t[i].player) < |roster|
                 && roster[PlayerIndex(roster, t[i].player)].binding == binding
              then admitted && connections == Admit(t, i, campaign, roster[PlayerIndex(roster, t[i].player)].Record())
              else !admitted && connections == t
    {
      var i := ConnectionIndex(connections, connection);
      if i == |connections| {
        return false;
      }
      if connections[i].admitted.Some? && connections[i].admitted.value.campaign != campaign {
        return false;
      }
      var slot := PlayerIndex(roster, connections[i].player);
      if slot == |roster| || roster[slot].binding != binding {
        return false;
      }
      AdmitKeepsInv(connections, i, campaign, roster[slot].Record());
      connections := connections[i := connections[i].(admitted :=
        Some(Member(campaign, roster[slot].slot, roster[slot].player, roster[slot].binding)))];
      return true;
    }

    /** Creating and joining end by admitting the connection as the slot the
        command made, or found, for the connection's own player. */
    method AdmitOwnSlot(connection: nat, campaign: Id, slot: SlotRecord)
      requires TableInv(connections)
      requires ConnectionIndex(connections, connection) < |connections|
      requires slot.player == connections[ConnectionIndex(connections, connection)].player
      modifies this
      ensures TableInv(connections)
      ensures connections == Admit(old(connections), ConnectionIndex(old(connections), connection), campaign, slot)
    {
      var i := ConnectionIndex(connections, connection);
      AdmitKeepsInv(connections, i, campaign, slot);
      connections := connections[i := connections[i].(admitted :=
        Some(Member(campaign, slot.slot, slot.player, slot.binding)))];
    }

    /** Leaving, once the roster slot has been removed. */
    method LeaveCampaign(connection: nat)
      requires TableInv(connections)
      requires ConnectionIndex(connections, connection) < |connections|
      modifies this
      ensures TableInv(connections)
      ensures connections == Leave(old(connections), ConnectionIndex(old(connections), connection))
    {
      var i := ConnectionIndex(connections, connection);
      LeaveKeepsInv(connections, i);
      if connections[i].admitted.Some? {
        connections := connections[i := connections[i].(admitted := None, previous := connections[i].admitted)];
      }
    }

    method PrepareRecoveryRecipients(campaign: Id, slots: seq<SlotRecord>) returns (plan: Plan)
      ensures plan == RecipientPlan(connections, campaign, slots)
    {
      if campaign == [] || slots == [] || |slots| > MAX_ROSTER {
        return NoPlan(InvalidCheckpointRoster);
      }
      hide AdmittedTo;
      var currentAdmissions := CurrentAdmissions(campaign);
      var list: seq<Recipient> := [];
      for n := 0 to |slots|
        invariant SlotPlan(connections, campaign, slots, n) == Recipients(list)
      {
        var expected := ExpectedOf(campaign, slots[n]);
        var duplicate, at := FindMatch(expected);
        if duplicate {
          PlanFailureStays(connections, campaign, slots, n + 1);
          return NoPlan(DuplicateCurrentAdmission(expected));
        }
        if at.None? {
          PlanFailureStays(connections, campaign, slots, n + 1);
          return NoPlan(MissingCurrentAdmission(expected));
        }
        list := list + [Recipient(connections[at.value].connection, expected)];
      }
      if currentAdmissions != |slots| {
        return NoPlan(UnexpectedCurrentAdmission);
      }
      return Recipients(list);
    }

    method CurrentAdmissions(campaign: Id) returns (count: nat)
      ensures count == |AdmittedTo(connections, campaign)|
    {
      count := 0;
      for n := 0 to |connections|
        invariant count == |AdmittedTo(connections[..n], campaign)|
      {
        assert connections[..n + 1][..n] == connections[..n] && connections[..n + 1][n] == connections[n];
        if connections[n].admitted.Some? && connections[n].admitted.value.campaign == campaign {
          count := count + 1;
        }
      }
      assert connections[..|connections|] == connections;
    }

    /** Looks for the connection admitted as a member, and for a second one. */
    method FindMatch(expected: Member) returns (duplicate: bool, at: Option<nat>)
      ensures duplicate == MatchedTwice(connections, expected)
      ensures !duplicate ==>
                if at.Some? then at.value == MatchIndex(connections, expected) < |connections|
                else MatchIndex(connections, expected) == |connections|
    {
      at := None;
      for n := 0 to |connections|
        invariant at.Some? ==> at.value < n && connections[at.value].admitted == Some(expected)
        invariant forall k :: 0 <= k < n && connections[k].admitted == Some(expected) ==> at == Some(k)
      {
        if connections[n].admitted == Some(expected) {
          if at.Some? {
            return true, at;
          }
          at := Some(n);
        }
      }
      duplicate := false;
    }
  }
}
