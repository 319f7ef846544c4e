/** Which fault a roster, and a list of presences, is refused for. */
module RosterVerdicts {
  import opened Basics
  import opened CampaignState
  import opened FullRoster
  import opened EditLaws

  /*
   * Rosters
   */

  /** The first slot at which a roster stops being valid. */
  ghost predicate FirstBadSlot(roster: seq<SlotState>, n: nat) {
    n < |roster| && ValidRoster(roster[..n]) && !ValidRoster(roster[..n + 1])
  }

  lemma PrefixIsGood(roster: seq<SlotState>, n: nat)
    requires n <= |roster| && ValidRoster(roster[..n])
    ensures PrefixFault(roster, n) == NoError
  {
    PrefixFaultIff(roster, n);
    forall i | 0 <= i < n ensures ValidSlotIdentity(roster[i]) {
      assert roster[..n][i] == roster[i];
    }
    forall i, j | 0 <= i < j < n ensures !Clash(roster[i], roster[j]) {
      assert roster[..n][i] == roster[i] && roster[..n][j] == roster[j];
    }
  }

  /** A roster is refused for its first bad slot: for a malformed identity, or for sharing
      its slot, else its player, else its binding with an earlier one. */
  lemma RosterFaultIs(roster: seq<SlotState>, allowEmpty: bool, n: nat)
    requires |roster| <= MAX_ROSTER && FirstBadSlot(roster, n)
    ensures var earlier := RecordSet(roster[..n]);
            RosterFault(roster, allowEmpty) ==
            if !ValidSlotIdentity(roster[n]) then InvalidIdentity
            else if exists r :: r in earlier && r.slot == roster[n].slot then DuplicateSlot
            else if exists r :: r in earlier && r.player == roster[n].player then DuplicatePlayer
            else DuplicateCharacterBinding
  {
    PrefixIsGood(roster, n);
    EarlierOnes(roster, n);
    BadSlotFaults(roster, n);
    FirstFaultDecides(roster, n + 1);
  }

  lemma EarlierOnes(roster: seq<SlotState>, n: nat)
    requires n < |roster|
    ensures var earlier, x := RecordSet(roster[..n]), roster[n];
            && ((exists r :: r in earlier && r.slot == x.slot) <==> exists j :: 0 <= j < n && roster[j].slot == x.slot)
            && ((exists r :: r in earlier && r.player == x.player) <==>
                exists j :: 0 <= j < n && roster[j].player == x.player)
            && ((exists r :: r in earlier && r.binding == x.binding) <==>
                exists j :: 0 <= j < n && roster[j].binding == x.binding)
  {
    forall j | 0 <= j < n ensures roster[j].Record() in RecordSet(roster[..n]) {
      assert roster[..n][j].Record() == roster[j].Record();
    }
    forall r | r in RecordSet(roster[..n]) ensures exists j :: 0 <= j < n && roster[j].Record() == r {
      var j :| 0 <= j < |roster[..n]| && roster[..n][j].Record() == r;
      assert roster[j].Record() == r;
    }
  }

  lemma BadSlotFaults(roster: seq<SlotState>, n: nat)
    requires |roster| <= MAX_ROSTER && FirstBadSlot(roster, n)
    ensures SlotFault(roster, n) != NoError
  {
    if SlotFault(roster, n) == NoError {
      var longer := roster[..n + 1];
      assert longer[..n] == roster[..n];
      forall i | 0 <= i < |longer| ensures ValidSlotIdentity(longer[i]) {
        assert i < n ==> roster[..n][i] == longer[i];
      }
      forall i, j | 0 <= i < j < |longer| ensures !Clash(longer[i], longer[j]) {
        assert j < n ==> !Clash(roster[..n][i], roster[..n][j]);
      }
      assert false;
    }
  }

  /** Before any slot is looked at, an empty roster is refused unless it is allowed, and one
      of more than ten slots always. */
  lemma RosterSizeFault(roster: seq<SlotState>, allowEmpty: bool)
    ensures RosterFault(roster, allowEmpty) == InvalidRoster <==> roster == [] && !allowEmpty
    ensures RosterFault(roster, allowEmpty) == RosterLimitExceeded <==> |roster| > MAX_ROSTER
  {
    SizeIsNoSlotFault(roster, |roster|);
  }

  lemma {:induction false} SizeIsNoSlotFault(roster: seq<SlotState>, n: nat)
    requires n <= |roster|
    ensures PrefixFault(roster, n) != InvalidRoster && PrefixFault(roster, n) != RosterLimitExceeded
  {
    if n > 0 {
      SizeIsNoSlotFault(roster, n - 1);
    }
  }

  /*
   * Presences
   */

  /** Everybody admitted so far is connected and an exact member, and nobody twice. */
  ghost predicate Proper(a: Aggregate, presence: seq<Presence>) {
    && AllConnected(presence) && AllExpected(a, Admitted(presence)) && NoDuplicates(Admitted(presence))
  }

  /** The first presence at which a list stops being proper. */
  ghost predicate FirstImproper(a: Aggregate, presence: seq<Presence>, n: nat) {
    n < |presence| && Proper(a, presence[..n]) && !Proper(a, presence[..n + 1])
  }

  lemma OwnerOfSlot(a: Aggregate, slot: Id)
    requires ValidRoster(a.roster)
    ensures var i := SlotIndex(a.roster, slot);
            if i < |a.roster| then a.roster[i].slot == slot && a.roster[i].Record() in Owners(a)
              && forall r :: r in Owners(a) && r.slot == slot ==> r == a.roster[i].Record()
            else !Owned(a, slot)
  {
    var i := SlotIndex(a.roster, slot);
    if i < |a.roster| {
      assert a.roster[i].Record() in Owners(a);
      forall r | r in Owners(a) && r.slot == slot ensures r == a.roster[i].Record() {
        var j :| 0 <= j < |a.roster| && a.roster[j].Record() == r;
        SameOwner(a.roster, i, j);
      }
    } else {
      OwnedIff(a, slot);
    }
  }

  /** What is wrong with an admitted identity that is not an exact member. */
  lemma IdentityFaultIs(a: Aggregate, m: Member)
    requires ValidRoster(a.roster)
    ensures IdentityFault(a, m) ==
            if m.campaign != a.id then WrongCampaign
            else if Owned(a, m.slot) then
              if !(exists r :: r in Owners(a) && r.slot == m.slot && r.player == m.player) then WrongPlayer
              else if m.Record() !in Owners(a) then WrongCharacterBinding
              else Eligible
            else if Plays(a, m.player) then WrongSlot
            else ExtraMember
  {
    hide ValidRoster;
    OwnerOfSlot(a, m.slot);
    OwnedIff(a, m.slot);
    PlaysIff(a, m.player);
    var i := SlotIndex(a.roster, m.slot);
    if i < |a.roster| {
      assert a.roster[i].Record() in Owners(a);
    }
  }

  /** The verdict on a sealed campaign with a roster is that on the first improper presence:
      admitted without a connection, a wrong identity, or one that is there twice. */
  lemma ImproperVerdict(a: Aggregate, presence: seq<Presence>, n: nat)
    requires ValidRoster(a.roster) && a.sealed && a.roster != [] && FirstImproper(a, presence, n)
    ensures EvaluateFullRoster(a, presence) ==
            if !presence[n].connected then AdmittedWithoutTransport
            else if IdentityFault(a, presence[n].identity) != Eligible then IdentityFault(a, presence[n].identity)
            else DuplicateActiveIdentity
  {
    hide ValidRoster, IdentityFault, Admitted, AllConnected, AllExpected, NoDuplicates;
    PresencesFaultIff(a, presence[..n]);
    PresencesFaultIff(a, presence[..n + 1]);
    assert presence[..n + 1][..n] == presence[..n] && presence[..n + 1][n] == presence[n];
    FirstPresenceDecides(a, presence, n + 1);
  }

  /** Without an improper presence, the campaign is complete or members are missing. */
  lemma ProperVerdict(a: Aggregate, presence: seq<Presence>)
    requires ValidRoster(a.roster)
    ensures !a.sealed <==> EvaluateFullRoster(a, presence) == CampaignNotSealed
    ensures a.sealed && a.roster == [] <==> EvaluateFullRoster(a, presence) == EmptyRoster
    ensures a.sealed && a.roster != [] && Proper(a, presence) ==>
              EvaluateFullRoster(a, presence) ==
              if multiset(Admitted(presence)) == multiset(Expected(a)) then Eligible else MissingMember
  {
    hide ValidRoster, IdentityFault, Admitted;
    PresencesFaultIff(a, presence);
    EligibleIff(a, presence);
    NoSizeFault(a, presence);
  }

  lemma {:induction false} NoSizeFault(a: Aggregate, presence: seq<Presence>)
    ensures PresencesFault(a, presence) !in {CampaignNotSealed, EmptyRoster}
  {
    if presence != [] {
      NoSizeFault(a, presence[..|presence| - 1]);
    }
  }
}
