/** The exact full-roster predicate that gates checkpoints and recovery. */
module FullRoster {
  import opened Basics
  import opened CampaignState

  datatype FullRosterFailure =
    | Eligible
    | CampaignNotSealed
    | EmptyRoster
    | MissingMember
    | ExtraMember
    | WrongCampaign
    | WrongSlot
    | WrongPlayer
    | WrongCharacterBinding
    | DuplicateActiveIdentity
    | AdmittedWithoutTransport

  /** The identities that are admitted, in order. */
  function Admitted(presence: seq<Presence>): seq<Member> {
    if presence == [] then []
    else
      var n := |presence| - 1;
      Admitted(presence[..n]) + if presence[n].admitted then [presence[n].identity] else []
  }

  /** Exactly one member per roster slot. */
  function Expected(a: Aggregate): (r: seq<Member>)
    ensures |r| == |a.roster|
  {
    seq(|a.roster|, i requires 0 <= i < |a.roster| =>
      Member(a.id, a.roster[i].slot, a.roster[i].player, a.roster[i].binding))
  }

  function IdentityFault(a: Aggregate, m: Member): FullRosterFailure {
    if m.campaign != a.id then WrongCampaign
    else
      var i := SlotIndex(a.roster, m.slot);
      if i < |a.roster| then
        if a.roster[i].player != m.player then WrongPlayer
        else if a.roster[i].binding != m.binding then WrongCharacterBinding
        else Eligible
      else if IsMember(a.roster, m.player) then WrongSlot
      else ExtraMember
  }

  predicate SharesIdentity(m: Member, n: Member) {
    m.slot == n.slot || m.player == n.player || m.binding == n.binding
  }

  /** The verdict on one presence, given the identities admitted before it. */
  function PresenceFault(a: Aggregate, earlier: seq<Member>, p: Presence): FullRosterFailure {
    if !p.admitted then Eligible
    else if !p.connected then AdmittedWithoutTransport
    else if IdentityFault(a, p.identity) != Eligible then IdentityFault(a, p.identity)
    else if exists m :: m in earlier && SharesIdentity(m, p.identity) then DuplicateActiveIdentity
    else Eligible
  }

  function PresencesFault(a: Aggregate, presence: seq<Presence>): FullRosterFailure {
    if presence == [] then Eligible
    else
      var n := |presence| - 1;
      var earlier := PresencesFault(a, presence[..n]);
      if earlier != Eligible then earlier
      else PresenceFault(a, Admitted(presence[..n]), presence[n])
  }

  function Slots(members: seq<Member>): set<Id> {
    set m | m in members :: m.slot
  }

  function EvaluateFullRoster(a: Aggregate, presence: seq<Presence>): FullRosterFailure {
    if !a.sealed then CampaignNotSealed
    else if a.roster == [] then EmptyRoster
    else if PresencesFault(a, presence) != Eligible then PresencesFault(a, presence)
    else if |Slots(Admitted(presence))| != |a.roster| then MissingMember
    else Eligible
  }

  method Evaluate(a: Aggregate, presence: seq<Presence>) returns (verdict: FullRosterFailure)
    ensures verdict == EvaluateFullRoster(a, presence)
  {
    if !a.sealed {
      return CampaignNotSealed;
    }
    if a.roster == [] {
      return EmptyRoster;
    }
    var slots: set<Id>, players: set<Id>, bindings: set<Id> := {}, {}, {};
    for n := 0 to |presence|
      invariant slots == Slots(Admitted(presence[..n]))
      invariant players == set m | m in Admitted(presence[..n]) :: m.player
      invariant bindings == set m | m in Admitted(presence[..n]) :: m.binding
      invariant PresencesFault(a, presence[..n]) == Eligible
    {
      assert presence[..n + 1][..n] == presence[..n];
      assert presence[..n + 1][n] == presence[n];
      var p := presence[n];
      if p.admitted {
        verdict := if !p.connected then AdmittedWithoutTransport
        else if IdentityFault(a, p.identity) != Eligible then IdentityFault(a, p.identity)
        else if p.identity.slot in slots || p.identity.player in players || p.identity.binding in bindings
          then DuplicateActiveIdentity
        else Eligible;
        assert verdict == PresenceFault(a, Admitted(presence[..n]), p);
        if verdict != Eligible {
          FirstPresenceDecides(a, presence, n + 1);
          return;
        }
        slots, players, bindings :=
          slots + {p.identity.slot}, players + {p.identity.player}, bindings + {p.identity.binding};
      }
    }
    assert presence[..|presence|] == presence;
    verdict := if |slots| != |a.roster| then MissingMember else Eligible;
  }

  lemma {:induction false} FirstPresenceDecides(a: Aggregate, presence: seq<Presence>, n: nat)
    requires n <= |presence| && PresencesFault(a, presence[..n]) != Eligible
    ensures PresencesFault(a, presence) == PresencesFault(a, presence[..n])
    decreases |presence| - n
  {
    if n < |presence| {
      assert presence[..n + 1][..n] == presence[..n];
      FirstPresenceDecides(a, presence, n + 1);
    } else {
      assert presence[..n] == presence;
    }
  }

  /*
   * Eligibility is a one-to-one match
   */

  predicate AllConnected(presence: seq<Presence>) {
    forall p :: p in presence && p.admitted ==> p.connected
  }

  predicate NoDuplicates(s: seq<Member>) {
    forall i, j :: 0 <= i < j < |s| ==> s[i] != s[j]
  }

  predicate AllExpected(a: Aggregate, s: seq<Member>) {
    forall m :: m in s ==> m in Expected(a)
  }

  lemma ExpectedMembers(a: Aggregate, m: Member)
    requires ValidRoster(a.roster)
    ensures IdentityFault(a, m) == Eligible <==> m in Expected(a)
    ensures NoDuplicates(Expected(a))
  {
    var e := Expected(a);
    if m in e {
      var i :| 0 <= i < |e| && e[i] == m;
      var j := SlotIndex(a.roster, m.slot);
      assert j <= i && a.roster[j].slot == a.roster[i].slot;
      assert j < i ==> !Clash(a.roster[j], a.roster[i]);
    }
    assert IdentityFault(a, m) == Eligible ==>
      var i := SlotIndex(a.roster, m.slot);
      i < |a.roster| && e[i] == m;
    forall i, j | 0 <= i < j < |e| ensures e[i] != e[j] {
      assert !Clash(a.roster[i], a.roster[j]);
    }
  }

  /** Two roster members that share a slot, a player or a binding are one. */
  lemma ExpectedClashIsEquality(a: Aggregate, m: Member, n: Member)
    requires ValidRoster(a.roster) && m in Expected(a) && n in Expected(a)
    ensures SharesIdentity(m, n) <==> m == n
  {
    var e := Expected(a);
    var i :| 0 <= i < |e| && e[i] == m;
    var j :| 0 <= j < |e| && e[j] == n;
    assert i < j ==> !Clash(a.roster[i], a.roster[j]);
    assert j < i ==> !Clash(a.roster[j], a.roster[i]);
  }

  lemma NoDuplicatesSnoc(s: seq<Member>, m: Member)
    ensures NoDuplicates(s + [m]) <==> NoDuplicates(s) && m !in s
  {
    var t := s + [m];
    assert forall i :: 0 <= i < |s| ==> t[i] == s[i];
    assert t[|s|] == m;
    if NoDuplicates(t) {
      assert forall i :: 0 <= i < |s| ==> t[i] != t[|s|];
    }
  }

  lemma {:induction false} PresencesFaultIff(a: Aggregate, presence: seq<Presence>)
    requires ValidRoster(a.roster)
    ensures PresencesFault(a, presence) == Eligible <==>
            && AllConnected(presence)
            && AllExpected(a, Admitted(presence))
            && NoDuplicates(Admitted(presence))
  {
    if presence != [] {
      var n := |presence| - 1;
      var p := presence[n];
      assert presence == presence[..n] + [p];
      var earlier := Admitted(presence[..n]);
      PresencesFaultIff(a, presence[..n]);
      ExpectedMembers(a, p.identity);
      NoDuplicatesSnoc(earlier, p.identity);
      assert AllConnected(presence) <==> AllConnected(presence[..n]) && (p.admitted ==> p.connected);
      forall m | m in earlier && m in Expected(a) && p.identity in Expected(a)
        ensures SharesIdentity(m, p.identity) <==> m == p.identity
      {
        ExpectedClashIsEquality(a, m, p.identity);
      }
      if p.admitted {
        assert Admitted(presence) == earlier + [p.identity];
        assert AllExpected(a, Admitted(presence)) <==> AllExpected(a, earlier) && p.identity in Expected(a);
      } else {
        assert Admitted(presence) == earlier;
      }
    }
  }

  lemma {:induction false} NoDuplicatesCounts(s: seq<Member>)
    requires NoDuplicates(s)
    ensures multiset(s) == multiset(set m | m in s) && |set m | m in s| == |s|
  {
    var all := set m | m in s;
    if s != [] {
      var n := |s| - 1;
      var front := set m | m in s[..n];
      assert s == s[..n] + [s[n]];
      NoDuplicatesCounts(s[..n]);
      assert all == front + {s[n]} && s[n] !in front;
    }
  }

  lemma SlotsCount(a: Aggregate, s: seq<Member>)
    requires ValidRoster(a.roster) && NoDuplicates(s)
    requires AllExpected(a, s)
    ensures |Slots(s)| == |s|
    decreases |s|
  {
    if s != [] {
      var n := |s| - 1;
      assert s == s[..n] + [s[n]];
      SlotsCount(a, s[..n]);
      assert Slots(s) == Slots(s[..n]) + {s[n].slot};
      forall m | m in s[..n] ensures m.slot != s[n].slot {
        if m.slot == s[n].slot {
          ExpectedClashIsEquality(a, m, s[n]);
        }
      }
    }
  }

  /** A campaign is eligible exactly when it is sealed and the admitted members,
      all connected, are its roster: each exact identity once and nobody else. */
  lemma EligibleIff(a: Aggregate, presence: seq<Presence>)
    requires ValidRoster(a.roster)
    ensures EvaluateFullRoster(a, presence) == Eligible <==>
            && a.sealed && a.roster != []
            && AllConnected(presence)
            && multiset(Admitted(presence)) == multiset(Expected(a))
  {
    var s, e := Admitted(presence), Expected(a);
    PresencesFaultIff(a, presence);
    if e != [] { ExpectedMembers(a, e[0]); }
    NoDuplicatesCounts(e);
    if multiset(s) == multiset(e) {
      forall m | m in s ensures m in e { assert m in multiset(e); }
      EqualMultisetsNoDuplicates(s, e);
      SlotsCount(a, s);
      assert |s| == |multiset(s)| == |multiset(e)| == |e|;
    }
    if PresencesFault(a, presence) == Eligible {
      SlotsCount(a, s);
      NoDuplicatesCounts(s);
      var S, E := set m | m in s, set m | m in e;
      assert S <= E;
      if |s| == |e| {
        SubsetOfSameSize(S, E);
      }
    }
  }

  lemma SubsetOfSameSize(a: set<Member>, b: set<Member>)
    requires a <= b && |a| == |b|
    ensures a == b
  {
    assert |b| == |a| + |b - a|;
  }

  lemma RepeatIsCounted(s: seq<Member>, i: nat, j: nat)
    requires i < j < |s|
    ensures s[i] == s[j] ==> multiset(s)[s[i]] >= 2
  {
    assert s == s[..i] + [s[i]] + s[i + 1..j] + [s[j]] + s[j + 1..];
  }

  lemma EqualMultisetsNoDuplicates(s: seq<Member>, e: seq<Member>)
    requires multiset(s) == multiset(e) && NoDuplicates(e)
    ensures NoDuplicates(s)
  {
    NoDuplicatesCounts(e);
    forall i, j | 0 <= i < j < |s| ensures s[i] != s[j] {
      RepeatIsCounted(s, i, j);
      assert multiset(set m | m in e)[s[i]] <= 1;
    }
  }

  lemma {:induction false} AdmittedConcat(s: seq<Presence>, t: seq<Presence>)
    ensures Admitted(s + t) == Admitted(s) + Admitted(t)
  {
    if t == [] {
      assert s + t == s;
    } else {
      var n := |t| - 1;
      assert (s + t)[..|s| + n] == s + t[..n];
      AdmittedConcat(s, t[..n]);
    }
  }

  function Without(s: seq<Presence>, k: nat): (r: seq<Presence>)
    requires k < |s|
    ensures |r| == |s| - 1 && multiset(r) == multiset(s) - multiset{s[k]}
  {
    assert s == s[..k] + [s[k]] + s[k + 1..];
    s[..k] + s[k + 1..]
  }

  lemma MiddleCounts(a: seq<Member>, x: seq<Member>, b: seq<Member>)
    ensures multiset(a + (x + b)) == multiset(a + b) + multiset(x)
  {
  }

  lemma AdmittedMiddle(front: seq<Presence>, x: Presence, back: seq<Presence>)
    ensures multiset(Admitted(front + ([x] + back))) == multiset(Admitted(front + back)) + multiset(Admitted([x]))
  {
    hide Admitted;
    AdmittedConcat(front, [x] + back);
    AdmittedConcat([x], back);
    AdmittedConcat(front, back);
    MiddleCounts(Admitted(front), Admitted([x]), Admitted(back));
  }

  lemma Around(s: seq<Presence>, k: nat)
    requires k < |s|
    ensures s == s[..k] + ([s[k]] + s[k + 1..]) && Without(s, k) == s[..k] + s[k + 1..]
  {
  }

  lemma AdmittedWithout(s: seq<Presence>, k: nat)
    requires k < |s|
    ensures multiset(Admitted(s)) == multiset(Admitted(Without(s, k))) + multiset(Admitted([s[k]]))
  {
    hide Admitted, Without;
    Around(s, k);
    AdmittedMiddle(s[..k], s[k], s[k + 1..]);
  }

  lemma NothingLeft(s: seq<Presence>)
    requires multiset(s) == multiset([])
    ensures s == []
  {
    assert |s| == |multiset(s)|;
  }

  lemma Locate(s: seq<Presence>, x: Presence) returns (k: nat)
    requires x in multiset(s)
    ensures k < |s| && s[k] == x
  {
    k :| k < |s| && s[k] == x;
  }

  lemma {:induction false} AdmittedIgnoresOrder(p: seq<Presence>, q: seq<Presence>)
    requires multiset(p) == multiset(q)
    ensures multiset(Admitted(p)) == multiset(Admitted(q))
    decreases |p|
  {
    hide Admitted;
    if p == [] {
      NothingLeft(q);
    } else {
      var k := Locate(q, p[0]);
      AdmittedWithout(p, 0);
      AdmittedWithout(q, k);
      AdmittedIgnoresOrder(Without(p, 0), Without(q, k));
    }
  }

  /** The verdict does not depend on the order in which presences are listed. */
  lemma EligibilityIgnoresOrder(a: Aggregate, p: seq<Presence>, q: seq<Presence>)
    requires ValidRoster(a.roster) && multiset(p) == multiset(q)
    ensures EvaluateFullRoster(a, p) == Eligible <==> EvaluateFullRoster(a, q) == Eligible
  {
    EligibleIff(a, p);
    EligibleIff(a, q);
    AdmittedIgnoresOrder(p, q);
    assert forall x :: x in p <==> x in multiset(p);
    assert forall x :: x in q <==> x in multiset(q);
  }
}
