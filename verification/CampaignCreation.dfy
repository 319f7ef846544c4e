/** Creating a campaign once: a creation is found again by its player and its
    mutation identity, over all campaigns of the store. */
module CampaignCreation {
  import opened Basics
  import opened CampaignState
  import opened CampaignStore
  import opened CommandPayload

  /** A `CreateCampaign` record in the journal of one campaign. */
  datatype Creation = Creation(campaign: Id, mutation: Id, expected: nat, resulting: nat, payload: Bytes)

  datatype Lookup = Inconsistent | Missing | Found(identity: Member)

  /** The member a creation made of a player, if its payload is sound. */
  function CreatedMember(e: Creation, player: Id): Lookup {
    var roster := DecodeCreate(e.payload);
    if e.expected != 0 || e.resulting != 1 || roster.None? then Inconsistent
    else
      var i := First(roster.value, (s: SlotRecord) => s.player == player);
      if i == |roster.value| then Missing
      else Found(Member(e.campaign, roster.value[i].slot, roster.value[i].player, roster.value[i].binding))
  }

  /** Looks through the creations with a mutation identity; two hits are an error. */
  function Find(entries: seq<Creation>, player: Id, mutation: Id): Lookup {
    if entries == [] then Missing
    else
      var n := |entries| - 1;
      var before := Find(entries[..n], player, mutation);
      if before.Inconsistent? || entries[n].mutation != mutation then before
      else
        var here := CreatedMember(entries[n], player);
        if here.Missing? then before
        else if here.Inconsistent? || before.Found? then Inconsistent
        else here
  }

  lemma {:induction false} InconsistentStays(entries: seq<Creation>, player: Id, mutation: Id, n: nat)
    requires n <= |entries| && Find(entries[..n], player, mutation).Inconsistent?
    ensures Find(entries, player, mutation).Inconsistent?
    decreases |entries| - n
  {
    if n < |entries| {
      assert entries[..n + 1][..n] == entries[..n];
      InconsistentStays(entries, player, mutation, n + 1);
    } else {
      assert entries[..n] == entries;
    }
  }

  method FindCampaignCreation(entries: seq<Creation>, player: Id, mutation: Id) returns (found: Lookup)
    ensures found == Find(entries, player, mutation)
  {
    found := Missing;
    for n := 0 to |entries|
      invariant found == Find(entries[..n], player, mutation) && !found.Inconsistent?
    {
      assert entries[..n + 1][..n] == entries[..n] && entries[..n + 1][n] == entries[n];
      if entries[n].mutation == mutation {
        var here := CreatedMember(entries[n], player);
        if here.Inconsistent? || (here.Found? && found.Found?) {
          InconsistentStays(entries, player, mutation, n + 1);
          return Inconsistent;
        }
        if here.Found? {
          found := here;
        }
      }
    }
    assert entries[..|entries|] == entries;
  }

  /*
   * The create command
   */

  datatype Answer =
    | Refused
    | Created(identity: Member)
    | Again(identity: Member)

  /** One create request: who asks, as whom it is admitted already, the identities
      generated for a new campaign, what loading the found campaign gives, and
      whether the store works. */
  datatype CreateRequest = CreateRequest(
    player: Id,
    admitted: Option<Member>,
    mutation: Id,
    leader: bool,
    campaign: Id,
    binding: Id,
    current: Option<Aggregate>,
    working: bool)

  const HOST_SLOT: Id := [0x73, 0x6C, 0x6F, 0x74, 0x2D, 0x30, 0x31]

  /** Whether the campaign found again still holds the identity it was created with. */
  predicate StillHeld(current: Option<Aggregate>, identity: Member) {
    && current.Some?
    && var i := PlayerIndex(current.value.roster, identity.player);
       && i < |current.value.roster| && current.value.roster[i].slot == identity.slot
       && current.value.roster[i].binding == identity.binding
  }

  function HostRoster(q: CreateRequest): seq<SlotRecord> { [SlotRecord(HOST_SLOT, q.player, q.binding)] }

  function Create(hash: Bytes, entries: seq<Creation>, q: CreateRequest): (seq<Creation>, Answer) {
    if !q.working then (entries, Refused)
    else
      match Find(entries, q.player, q.mutation)
      case Inconsistent => (entries, Refused)
      case Found(identity) =>
        if q.admitted.Some? && q.admitted.value.campaign != identity.campaign then (entries, Refused)
        else if StillHeld(q.current, identity) then (entries, Again(identity))
        else (entries, Refused)
      case Missing =>
        if q.admitted.Some? || !q.leader then (entries, Refused)
        else if RosterFault(States(HostRoster(q)), true) != NoError then (entries, Refused)
        else if exists e :: e in entries && e.campaign == q.campaign then (entries, Refused)
        else
          var e := Creation(q.campaign, q.mutation, 0, 1, PayloadBytes(hash, CreateCampaign(HostRoster(q))));
          (entries + [e], Created(Member(q.campaign, HOST_SLOT, q.player, q.binding)))
  }

  function CreateAll(hash: Bytes, entries: seq<Creation>, qs: seq<CreateRequest>): seq<Creation> {
    if qs == [] then entries else Create(hash, CreateAll(hash, entries, qs[..|qs| - 1]), qs[|qs| - 1]).0
  }

  /*
   * At most one campaign per player and mutation
   */

  /** Every creation is sound, campaigns are distinct, and no two creations with one
      mutation identity share a player. */
  ghost predicate CreatedOnce(entries: seq<Creation>) {
    && (forall e, player: Id :: e in entries ==> !CreatedMember(e, player).Inconsistent?)
    && (forall i, j :: 0 <= i < j < |entries| ==> entries[i].campaign != entries[j].campaign)
    && (forall i, j, player: Id :: 0 <= i < j < |entries| && entries[i].mutation == entries[j].mutation ==>
          CreatedMember(entries[i], player).Missing? || CreatedMember(entries[j], player).Missing?)
  }

  ghost predicate Makes(e: Creation, player: Id, mutation: Id, identity: Member) {
    e.mutation == mutation && CreatedMember(e, player) == Found(identity)
  }

  lemma MadeByOneMore(entries: seq<Creation>, player: Id, mutation: Id, identity: Member)
    requires entries != []
    ensures var n := |entries| - 1;
            (exists i :: 0 <= i < |entries| && Makes(entries[i], player, mutation, identity)) <==>
            (exists i :: 0 <= i < n && Makes(entries[..n][i], player, mutation, identity))
            || Makes(entries[n], player, mutation, identity)
  {
    hide Makes;
    var n := |entries| - 1;
    var front := entries[..n];
    if exists i :: 0 <= i < n && Makes(front[i], player, mutation, identity) {
      var i :| 0 <= i < n && Makes(front[i], player, mutation, identity);
      assert Makes(entries[i], player, mutation, identity);
    }
    if exists i :: 0 <= i < |entries| && Makes(entries[i], player, mutation, identity) {
      var i :| 0 <= i < |entries| && Makes(entries[i], player, mutation, identity);
      assert i < n ==> front[i] == entries[i];
    }
  }

  /** What the lookup finds is the one creation that made the player a member. */
  lemma {:induction false} FindIff(entries: seq<Creation>, player: Id, mutation: Id)
    requires CreatedOnce(entries)
    ensures !Find(entries, player, mutation).Inconsistent?
    ensures forall identity ::
              Find(entries, player, mutation) == Found(identity) <==>
              exists i :: 0 <= i < |entries| && Makes(entries[i], player, mutation, identity)
  {
    hide CreatedMember;
    if entries != [] {
      var n := |entries| - 1;
      var front := entries[..n];
      assert entries == front + [entries[n]];
      FindIff(front, player, mutation);
      var before := Find(front, player, mutation);
      if before.Found? {
        var i :| 0 <= i < n && Makes(front[i], player, mutation, before.identity);
        assert entries[i] == front[i];
      }
      forall identity
        ensures (exists i :: 0 <= i < |entries| && Makes(entries[i], player, mutation, identity)) <==>
                (exists i :: 0 <= i < n && Makes(front[i], player, mutation, identity))
                || Makes(entries[n], player, mutation, identity)
      {
        MadeByOneMore(entries, player, mutation, identity);
      }
    }
  }

  lemma NewCreation(hash: Bytes, q: CreateRequest, player: Id)
    requires RosterFault(States(HostRoster(q)), true) == NoError
    ensures CreatedMember(Creation(q.campaign, q.mutation, 0, 1, PayloadBytes(hash, CreateCampaign(HostRoster(q)))),
                          player) ==
            if player == q.player then Found(Member(q.campaign, HOST_SLOT, q.player, q.binding)) else Missing
  {
    hide PayloadBytes, DecodeCreate;
    RosterFaultIff(States(HostRoster(q)), true);
    CreationReadsBack(hash, HostRoster(q));
  }

  lemma CreateKeepsOnce(hash: Bytes, entries: seq<Creation>, q: CreateRequest)
    requires CreatedOnce(entries)
    ensures CreatedOnce(Create(hash, entries, q).0)
  {
    hide CreatedMember, PayloadBytes, Find;
    FindIff(entries, q.player, q.mutation);
    var next := Create(hash, entries, q).0;
    if next != entries {
      var e := next[|entries|];
      forall player: Id
        ensures CreatedMember(e, player) ==
                if player == q.player then Found(Member(q.campaign, HOST_SLOT, q.player, q.binding)) else Missing
      {
        NewCreation(hash, q, player);
      }
      forall i, player: Id | 0 <= i < |entries| && entries[i].mutation == e.mutation
        ensures CreatedMember(entries[i], player).Missing? || CreatedMember(e, player).Missing?
      {
        if player == q.player && CreatedMember(entries[i], player).Found? {
          assert Makes(entries[i], player, q.mutation, CreatedMember(entries[i], player).identity);
        }
        assert entries[i] in entries;
      }
    }
  }

  /** However often and by whomever campaigns are created, at most one campaign
      exists per player and mutation identity, so the lookup's error for several
      campaigns cannot occur. */
  lemma {:induction false} CreatedOnceAlways(hash: Bytes, qs: seq<CreateRequest>)
    ensures CreatedOnce(CreateAll(hash, [], qs))
    ensures forall player: Id, mutation: Id :: !Find(CreateAll(hash, [], qs), player, mutation).Inconsistent?
  {
    hide CreatedOnce, Create, Find;
    if qs == [] {
      NothingCreated();
    } else {
      CreatedOnceAlways(hash, qs[..|qs| - 1]);
      CreateKeepsOnce(hash, CreateAll(hash, [], qs[..|qs| - 1]), qs[|qs| - 1]);
    }
    forall player: Id, mutation: Id ensures !Find(CreateAll(hash, [], qs), player, mutation).Inconsistent? {
      FindIff(CreateAll(hash, [], qs), player, mutation);
    }
  }

  lemma NothingCreated()
    ensures CreatedOnce([])
  {
  }

  lemma {:induction false} CreateAllExtends(hash: Bytes, entries: seq<Creation>, qs: seq<CreateRequest>)
    ensures entries <= CreateAll(hash, entries, qs)
  {
    hide Find, PayloadBytes, RosterFault;
    if qs != [] {
      CreateAllExtends(hash, entries, qs[..|qs| - 1]);
    }
  }

  lemma {:induction false} CreateAllKeepsOnce(hash: Bytes, entries: seq<Creation>, qs: seq<CreateRequest>)
    requires CreatedOnce(entries)
    ensures CreatedOnce(CreateAll(hash, entries, qs))
  {
    hide CreatedOnce, Create;
    if qs != [] {
      CreateAllKeepsOnce(hash, entries, qs[..|qs| - 1]);
      CreateKeepsOnce(hash, CreateAll(hash, entries, qs[..|qs| - 1]), qs[|qs| - 1]);
    }
  }

  lemma Recreated(hash: Bytes, entries: seq<Creation>, q: CreateRequest)
    requires CreatedOnce(entries) && Create(hash, entries, q).1.Created?
    ensures var r := Create(hash, entries, q);
            |r.0| == |entries| + 1 && Makes(r.0[|entries|], q.player, q.mutation, r.1.identity)
  {
    hide CreatedMember, PayloadBytes, Find;
    NewCreation(hash, q, q.player);
  }

  /** A retried creation, at any later time and whatever was created in between, is
      answered with the same campaign, slot and binding or refused; it never makes
      a second campaign. */
  lemma RetriedCreate(hash: Bytes, entries: seq<Creation>, q: CreateRequest, between: seq<CreateRequest>,
                      retry: CreateRequest)
    requires CreatedOnce(entries) && Create(hash, entries, q).1.Created?
    requires retry.player == q.player && retry.mutation == q.mutation
    ensures var later := CreateAll(hash, Create(hash, entries, q).0, between);
            && Create(hash, later, retry).0 == later
            && Create(hash, later, retry).1 in {Refused, Again(Create(hash, entries, q).1.identity)}
  {
    hide Find, PayloadBytes, CreatedOnce, CreatedMember, RosterFault;
    var made := Create(hash, entries, q);
    Recreated(hash, entries, q);
    CreateKeepsOnce(hash, entries, q);
    CreateAllKeepsOnce(hash, made.0, between);
    CreateAllExtends(hash, made.0, between);
    var later := CreateAll(hash, made.0, between);
    FindIff(later, q.player, q.mutation);
    assert Makes(later[|entries|], q.player, q.mutation, made.1.identity);
  }

  /** A request is found again iff a creation under its mutation identity made its player a
      member; it is then answered with that member, unless the player has been admitted
      elsewhere or the campaign holds the slot for somebody else by now. */
  lemma AgainIff(hash: Bytes, entries: seq<Creation>, q: CreateRequest, identity: Member)
    requires CreatedOnce(entries)
    ensures Create(hash, entries, q).1 == Again(identity) <==>
              && q.working
              && (exists i :: 0 <= i < |entries| && Makes(entries[i], q.player, q.mutation, identity))
              && (q.admitted.Some? ==> q.admitted.value.campaign == identity.campaign)
              && StillHeld(q.current, identity)
    ensures !Create(hash, entries, q).1.Created? ==> Create(hash, entries, q).0 == entries
  {
    hide Find, PayloadBytes, CreatedOnce, Makes, RosterFault, StillHeld;
    FindIff(entries, q.player, q.mutation);
    assert Find(entries, q.player, q.mutation) == Found(identity) <==>
           exists i :: 0 <= i < |entries| && Makes(entries[i], q.player, q.mutation, identity);
  }

  /** A request creates a campaign iff it comes from a party leader admitted nowhere, no
      creation has made its player a member under its mutation identity, the identities are
      well formed and the campaign's is new. Exactly one creation is then added, which makes
      the player the owner of the first slot of that campaign, and nobody else a member. */
  lemma CreatedIff(hash: Bytes, entries: seq<Creation>, q: CreateRequest)
    requires CreatedOnce(entries)
    ensures var (next, answer) := Create(hash, entries, q);
            && (answer.Created? <==>
                && q.working && q.leader && q.admitted.None?
                && (forall identity, i :: 0 <= i < |entries| ==> !Makes(entries[i], q.player, q.mutation, identity))
                && ValidIdentity(q.player) && ValidIdentity(q.binding)
                && forall e :: e in entries ==> e.campaign != q.campaign)
            && (answer.Created? ==>
                  && answer.identity == Member(q.campaign, HOST_SLOT, q.player, q.binding)
                  && |next| == |entries| + 1 && entries <= next && next[|entries|].campaign == q.campaign
                  && forall player, mutation, identity ::
                       Makes(next[|entries|], player, mutation, identity) <==>
                       player == q.player && mutation == q.mutation && identity == answer.identity)
  {
    hide Find, PayloadBytes, CreatedOnce, RosterFault, StillHeld, CreatedMember;
    FindIff(entries, q.player, q.mutation);
    HostIsProper(q);
    var (next, answer) := Create(hash, entries, q);
    if answer.Created? {
      forall player ensures CreatedMember(next[|entries|], player) ==
                            if player == q.player then Found(answer.identity) else Missing {
        NewCreation(hash, q, player);
      }
    }
  }

  lemma HostIsProper(q: CreateRequest)
    ensures RosterFault(States(HostRoster(q)), true) == NoError <==> ValidIdentity(q.player) && ValidIdentity(q.binding)
  {
    RosterFaultIff(States(HostRoster(q)), true);
  }
}
