/** What the operations on the connection table do, said of the set of its records. */
module AdmissionLaws {
  import opened Basics
  import opened CampaignState
  import opened CampaignAdmission

  function RecordsOf(t: Table): set<AdmissionRecord> { set r | r in t }

  /** A player connects exactly with a well-formed identity, over a connection that is new
      or already theirs, and not over two at once. A new record knows nothing else. */
  lemma RegisterIff(t: Table, connection: nat, player: Id)
    requires TableInv(t)
    ensures var r := Register(t, connection, player);
            var known := exists x :: x in t && x.connection == connection && x.player == player;
            var taken := exists x :: x in t && (x.connection == connection || x.player == player);
            && (r.1 == Accepted <==> ValidPlayer(player) && (known || !taken))
            && (r.1 == InvalidPlayer <==> !ValidPlayer(player))
            && (if ValidPlayer(player) && !taken
                then RecordsOf(r.0) == RecordsOf(t) + {AdmissionRecord(connection, player, None, None)}
                else r.0 == t)
  {
    hide ValidPlayer;
    var i := ConnectionIndex(t, connection);
    if i < |t| {
      assert t[i] in t;
      forall x | x in t && x.connection == connection ensures x == t[i] {
        var j :| 0 <= j < |t| && t[j] == x;
        OneRecord(t, i, j);
      }
      forall x | x in t && x.player == t[i].player ensures x == t[i] {
        var j :| 0 <= j < |t| && t[j] == x;
        OneRecord(t, i, j);
      }
    }
  }

  lemma OneRecord(t: Table, i: int, j: int)
    requires TableInv(t) && 0 <= i < |t| && 0 <= j < |t|
    requires t[i].connection == t[j].connection || t[i].player == t[j].player
    ensures i == j
  {
  }

  /** A connection that departs takes its own record away and no other. */
  lemma DepartureIs(t: Table, connection: nat)
    ensures RecordsOf(Departed(t, connection)) == set r | r in t && r.connection != connection
  {
    DepartedMembers(t, connection);
  }

  lemma Exchanged(t: Table, i: nat, r: AdmissionRecord)
    requires TableInv(t) && i < |t| && r.connection == t[i].connection
    ensures RecordsOf(t[i := r]) == (set x | x in t && x.connection != r.connection) + {r}
  {
    var next := t[i := r];
    assert next[i] == r;
    forall x ensures x in RecordsOf(next) <==> x in (set y | y in t && y.connection != r.connection) + {r} {
      if x in RecordsOf(next) && x != r {
        var j :| 0 <= j < |next| && next[j] == x;
        assert t[j] == x;
        if x.connection == r.connection {
          OneRecord(t, i, j);
        }
      }
      if x in t && x.connection != r.connection {
        var j :| 0 <= j < |t| && t[j] == x;
        assert next[j] == x;
      }
    }
  }

  /** Admitting a connection makes it that member and leaves every other record alone. */
  lemma AdmissionIs(t: Table, i: nat, campaign: Id, slot: SlotRecord)
    requires TableInv(t) && i < |t|
    ensures RecordsOf(Admit(t, i, campaign, slot)) ==
            (set r | r in t && r.connection != t[i].connection)
            + {AdmissionRecord(t[i].connection, t[i].player,
                               Some(Member(campaign, slot.slot, slot.player, slot.binding)), t[i].previous)}
  {
    Exchanged(t, i, Admit(t, i, campaign, slot)[i]);
  }

  /** Leaving turns the admission into the previous one and leaves every other record alone;
      a connection without an admission stays as it is. */
  lemma LeavingIs(t: Table, i: nat)
    requires TableInv(t) && i < |t|
    ensures if t[i].admitted.None? then Leave(t, i) == t
            else RecordsOf(Leave(t, i)) ==
                 (set r | r in t && r.connection != t[i].connection)
                 + {AdmissionRecord(t[i].connection, t[i].player, None, t[i].admitted)}
  {
    if t[i].admitted.Some? {
      Exchanged(t, i, Leave(t, i)[i]);
    }
  }

  /** A plan that fails for a missing member names the first slot in order whose member is
      not admitted. */
  lemma {:induction false} MissingIs(t: Table, campaign: Id, slots: seq<SlotRecord>, n: nat)
    requires TableInv(t) && n < |slots|
    requires forall i :: 0 <= i < n ==> ExpectedOf(campaign, slots[i]) in AdmittedTo(t, campaign)
    requires ExpectedOf(campaign, slots[n]) !in AdmittedTo(t, campaign)
    ensures SlotPlan(t, campaign, slots, |slots|) == NoPlan(MissingCurrentAdmission(ExpectedOf(campaign, slots[n])))
  {
    hide TableInv, MatchIndex, AdmittedTo, IsAdmitted, MatchedTwice, InSlotOrder;
    var m := ExpectedOf(campaign, slots[n]);
    SlotPlanIff(t, campaign, slots, n);
    NeverMatchedTwice(t, m);
    MatchOf(t, campaign, m);
    MatchInRange(t, m);
    PlanFailureStays(t, campaign, slots, n + 1);
  }

  /** The plan's error, when there is none. */
  lemma PlanErrors(t: Table, campaign: Id, slots: seq<SlotRecord>)
    requires TableInv(t)
    ensures RecipientPlan(t, campaign, slots) == NoPlan(InvalidCheckpointRoster) <==>
            campaign == [] || slots == [] || |slots| > MAX_ROSTER
    ensures campaign != [] && 1 <= |slots| <= MAX_ROSTER && |AdmittedTo(t, campaign)| != |slots|
            && (forall i :: 0 <= i < |slots| ==> ExpectedOf(campaign, slots[i]) in AdmittedTo(t, campaign)) ==>
              RecipientPlan(t, campaign, slots) == NoPlan(UnexpectedCurrentAdmission)
  {
    hide SlotPlan, TableInv, AdmittedTo, InSlotOrder;
    SlotPlanIff(t, campaign, slots, |slots|);
  }
}
