/** The string table the server replicates to its clients. */
module StringCache {
  import opened Basics

  const ID_SPACE: int := 0x1_0000_0000

  /** The two indexes: identity to string, and string to identity. */
  datatype Cache = Cache(strings: seq<Id>, ids: map<Id, nat>)

  const EMPTY := Cache([], map[])

  datatype Update = Update(start: nat, values: seq<Id>)

  /** An identity is the position of its string, cut to 32 bits. */
  function Add(c: Cache, s: Id): Cache {
    if s in c.ids then c else Cache(c.strings + [s], c.ids[s := |c.strings| % ID_SPACE])
  }

  function AddAll(c: Cache, values: seq<Id>): Cache {
    if values == [] then c else Add(AddAll(c, values[..|values| - 1]), values[|values| - 1])
  }

  /** The strings from a position on, and the position after them. */
  function Serialize(c: Cache, start: nat): (Update, nat) {
    if start < |c.strings| then (Update(start, c.strings[start..]), |c.strings|) else (Update(start, []), start)
  }

  predicate Distinct(s: seq<Id>) { forall i, j :: 0 <= i < j < |s| ==> s[i] != s[j] }

  /** The indexes are exact inverses and no string is listed twice. */
  ghost predicate Inverse(c: Cache) {
    && Distinct(c.strings)
    && (forall s :: s in c.ids <==> s in c.strings)
    && (forall i :: 0 <= i < |c.strings| ==> c.ids[c.strings[i]] == i)
  }

  /** Adding keeps the indexes inverse exactly as long as the identity of a new
      string still fits 32 bits. */
  lemma AddKeepsInverseIff(c: Cache, s: Id)
    requires Inverse(c)
    ensures Inverse(Add(c, s)) <==> s in c.strings || |c.strings| < ID_SPACE
  {
    var next := Add(c, s);
    if s !in c.ids {
      assert next.strings[|c.strings|] == s;
    }
  }

  /** Adding in bulk lists the old and the new strings and nothing else. */
  lemma {:induction false} AddAllKeeps(c: Cache, values: seq<Id>)
    requires Inverse(c) && |c.strings| + |values| <= ID_SPACE
    ensures var next := AddAll(c, values);
            && Inverse(next) && |next.strings| <= |c.strings| + |values|
            && (forall s :: s in next.strings <==> s in c.strings || s in values)
  {
    if values != [] {
      var n := |values| - 1;
      AddAllKeeps(c, values[..n]);
      AddKeepsInverseIff(AddAll(c, values[..n]), values[n]);
      assert values == values[..n] + [values[n]];
    }
  }

  lemma DistinctSnoc(s: seq<Id>, x: Id)
    ensures Distinct(s + [x]) <==> Distinct(s) && x !in s
  {
    var t := s + [x];
    assert forall i :: 0 <= i < |s| ==> t[i] == s[i];
    assert t[|s|] == x;
  }

  lemma AddNew(c: Cache, s: Id)
    requires Inverse(c) && s !in c.strings && |c.strings| < ID_SPACE
    ensures Add(c, s).strings == c.strings + [s] && Inverse(Add(c, s))
  {
    AddKeepsInverseIff(c, s);
  }

  lemma {:induction false} AddAllFresh(c: Cache, values: seq<Id>)
    requires Inverse(c) && Distinct(c.strings + values) && |c.strings| + |values| <= ID_SPACE
    ensures AddAll(c, values).strings == c.strings + values && Inverse(AddAll(c, values))
  {
    hide Inverse, Distinct, Add;
    if values == [] {
      assert c.strings + values == c.strings;
    } else {
      var n := |values| - 1;
      var before := c.strings + values[..n];
      assert c.strings + values == before + [values[n]];
      DistinctSnoc(before, values[n]);
      AddAllFresh(c, values[..n]);
      AddNew(AddAll(c, values[..n]), values[n]);
    }
  }

  /*
   * Replication
   */

  /** A server table, how far it has been sent to one client, the updates on their
      way, in order, and the client's replica. */
  datatype Link = Link(server: Cache, cursor: nat, inFlight: seq<Update>, replica: Cache)

  datatype LinkStep = ServerAdds(s: Id) | ServerSends | ClientReceives

  function Advance(l: Link, step: LinkStep): Link {
    match step
    case ServerAdds(s) => l.(server := Add(l.server, s))
    case ServerSends =>
      var (u, next) := Serialize(l.server, l.cursor);
      l.(cursor := next, inFlight := l.inFlight + [u])
    case ClientReceives =>
      if l.inFlight == [] then l
      else l.(replica := AddAll(l.replica, l.inFlight[0].values), inFlight := l.inFlight[1..])
  }

  function Run(l: Link, steps: seq<LinkStep>): Link {
    if steps == [] then l else Advance(Run(l, steps[..|steps| - 1]), steps[|steps| - 1])
  }

  const FRESH := Link(EMPTY, 0, [], EMPTY)

  /** The updates on their way continue the replica without a gap, up to the cursor. */
  ghost predicate Contiguous(updates: seq<Update>, from: nat, to: nat, table: seq<Id>)
    decreases |updates|
  {
    if updates == [] then from == to
    else
      var u := updates[0];
      && u.start == from && from + |u.values| <= to <= |table| && u.values == table[from..from + |u.values|]
      && Contiguous(updates[1..], from + |u.values|, to, table)
  }

  ghost predicate Linked(l: Link) {
    && Inverse(l.server) && Inverse(l.replica)
    && l.cursor <= |l.server.strings|
    && |l.replica.strings| <= l.cursor && l.replica.strings == l.server.strings[..|l.replica.strings|]
    && Contiguous(l.inFlight, |l.replica.strings|, l.cursor, l.server.strings)
  }

  lemma {:induction false} ContiguousGrows(updates: seq<Update>, from: nat, to: nat, table: seq<Id>, longer: seq<Id>)
    requires Contiguous(updates, from, to, table) && table <= longer && to <= |table|
    ensures Contiguous(updates, from, to, longer)
    decreases |updates|
  {
    if updates != [] {
      ContiguousGrows(updates[1..], from + |updates[0].values|, to, table, longer);
    }
  }

  lemma {:induction false} ContiguousSnoc(updates: seq<Update>, from: nat, to: nat, table: seq<Id>, u: Update)
    requires Contiguous(updates, from, to, table) && to + |u.values| <= |table|
    requires u.start == to && u.values == table[to..to + |u.values|]
    ensures Contiguous(updates + [u], from, to + |u.values|, table)
    decreases |updates|
  {
    if updates == [] {
      assert updates + [u] == [u];
      assert Contiguous([u][1..], to + |u.values|, to + |u.values|, table);
    } else {
      var first := updates[0];
      ContiguousSnoc(updates[1..], from + |first.values|, to, table, u);
      hide Contiguous;
      ContiguousCons(first, updates[1..] + [u], from, to + |u.values|, table);
      assert updates + [u] == [first] + (updates[1..] + [u]);
    }
  }

  lemma ContiguousCons(u: Update, rest: seq<Update>, from: nat, to: nat, table: seq<Id>)
    requires u.start == from && from + |u.values| <= to <= |table| && u.values == table[from..from + |u.values|]
    requires Contiguous(rest, from + |u.values|, to, table)
    ensures Contiguous([u] + rest, from, to, table)
  {
    assert ([u] + rest)[1..] == rest;
  }

  lemma SendKeepsLinked(l: Link)
    requires Linked(l)
    ensures Linked(Advance(l, ServerSends))
  {
    var (u, next) := Serialize(l.server, l.cursor);
    ContiguousSnoc(l.inFlight, |l.replica.strings|, l.cursor, l.server.strings, u);
  }

  lemma DistinctPrefix(c: Cache, n: nat)
    requires Inverse(c) && n <= |c.strings|
    ensures Distinct(c.strings[..n])
  {
  }

  lemma NextUpdateAdds(l: Link)
    requires Linked(l) && |l.server.strings| <= ID_SPACE && l.inFlight != []
    ensures var u := l.inFlight[0];
            var to := |l.replica.strings| + |u.values|;
            && u.start == |l.replica.strings| && to <= |l.server.strings| && |u.values| <= |l.server.strings|
            && l.server.strings[..to] == l.replica.strings + u.values
            && AddAll(l.replica, u.values).strings == l.replica.strings + u.values
            && Inverse(AddAll(l.replica, u.values))
  {
    hide Inverse, Distinct, AddAll;
    var u := l.inFlight[0];
    var to := |l.replica.strings| + |u.values|;
    assert l.server.strings[..to] == l.replica.strings + u.values;
    DistinctPrefix(l.server, to);
    AddAllFresh(l.replica, u.values);
  }

  lemma ReceiveKeepsLinked(l: Link)
    requires Linked(l) && |l.server.strings| <= ID_SPACE
    ensures Linked(Advance(l, ClientReceives))
    ensures l.inFlight != [] ==>
              && l.inFlight[0].start == |l.replica.strings|
              && Advance(l, ClientReceives).replica.strings == l.replica.strings + l.inFlight[0].values
  {
    hide Inverse, Distinct, AddAll;
    if l.inFlight != [] {
      NextUpdateAdds(l);
    }
  }

  lemma AddKeepsLinked(l: Link, s: Id)
    requires Linked(l) && |l.server.strings| < ID_SPACE
    ensures Linked(Advance(l, ServerAdds(s)))
  {
    AddKeepsInverseIff(l.server, s);
    ContiguousGrows(l.inFlight, |l.replica.strings|, l.cursor, l.server.strings, Add(l.server, s).strings);
  }

  lemma {:induction false} ServerOnlyGrows(l: Link, steps: seq<LinkStep>)
    ensures |l.server.strings| <= |Run(l, steps).server.strings|
  {
    if steps != [] {
      ServerOnlyGrows(l, steps[..|steps| - 1]);
    }
  }

  /** However additions, sends and deliveries interleave, a replica changed only by
      the server's updates is a prefix of the server's table with equal identities,
      as long as the table stays below the identity space. */
  lemma {:induction false} ReplicaIsPrefix(steps: seq<LinkStep>)
    requires |Run(FRESH, steps).server.strings| < ID_SPACE
    ensures var l := Run(FRESH, steps);
            && Linked(l)
            && l.replica.strings <= l.server.strings
            && (forall s :: s in l.replica.ids ==> s in l.server.ids && l.server.ids[s] == l.replica.ids[s])
  {
    RunKeepsLinked(steps);
    var l := Run(FRESH, steps);
    forall s | s in l.replica.ids ensures s in l.server.ids && l.server.ids[s] == l.replica.ids[s] {
      var i :| 0 <= i < |l.replica.strings| && l.replica.strings[i] == s;
      assert l.server.strings[i] == s;
    }
  }

  lemma {:induction false} RunKeepsLinked(steps: seq<LinkStep>)
    requires |Run(FRESH, steps).server.strings| < ID_SPACE
    ensures Linked(Run(FRESH, steps))
  {
    hide Linked;
    if steps == [] {
      FreshIsLinked();
    } else {
      var n := |steps| - 1;
      var before := Run(FRESH, steps[..n]);
      RunKeepsLinked(steps[..n]);
      match steps[n]
      case ServerAdds(s) => AddKeepsLinked(before, s);
      case ServerSends => SendKeepsLinked(before);
      case ClientReceives => ReceiveKeepsLinked(before);
    }
  }

  lemma FreshIsLinked()
    ensures Linked(FRESH)
  {
  }

  lemma NextUpdateIsNew(l: Link, k: nat)
    requires Linked(l) && |l.server.strings| < ID_SPACE && l.inFlight != [] && k < |l.inFlight[0].values|
    ensures var u := l.inFlight[0];
            && u.start == |l.replica.strings|
            && u.values[k] !in AddAll(l.replica, u.values[..k]).ids
            && |AddAll(l.replica, u.values[..k]).strings| == u.start + k
  {
    hide AddAll;
    var u := l.inFlight[0];
    var all := l.server.strings;
    assert all[..u.start + k] == l.replica.strings + u.values[..k];
    AddAllFresh(l.replica, u.values[..k]);
    assert all[u.start + k] == u.values[k];
  }

  /** Both checks of the receiver hold whenever it receives: the update starts where
      the replica ends, and every value is added under the identity it expects. */
  lemma ReceiverChecksHold(steps: seq<LinkStep>, k: nat)
    requires var l := Run(FRESH, steps);
             |l.server.strings| < ID_SPACE && l.inFlight != [] && k < |l.inFlight[0].values|
    ensures var l := Run(FRESH, steps);
            var u := l.inFlight[0];
            && u.start == |l.replica.strings|
            && u.values[k] !in AddAll(l.replica, u.values[..k]).ids
            && |AddAll(l.replica, u.values[..k]).strings| == u.start + k
  {
    hide Run, Linked, AddAll;
    RunKeepsLinked(steps);
    NextUpdateIsNew(Run(FRESH, steps), k);
  }

  /** Everything on its way, delivered. */
  function Deliver(l: Link): Link
    decreases |l.inFlight|
  {
    if l.inFlight == [] then l else Deliver(Advance(l, ClientReceives))
  }

  lemma {:induction false} DeliverArrives(l: Link)
    requires Linked(l) && |l.server.strings| <= ID_SPACE
    ensures Linked(Deliver(l)) && Deliver(l).inFlight == []
    ensures Deliver(l).server == l.server && Deliver(l).cursor == l.cursor
    decreases |l.inFlight|
  {
    hide Linked;
    if l.inFlight != [] {
      ReceiveKeepsLinked(l);
      DeliverArrives(Advance(l, ClientReceives));
    }
  }

  /** Whatever was added, sent and delivered before, one more send brings the replica to
      the whole table of the server once everything on its way has arrived. */
  lemma ReplicaCatchesUp(steps: seq<LinkStep>)
    requires |Run(FRESH, steps).server.strings| < ID_SPACE
    ensures var l := Run(FRESH, steps);
            Deliver(Advance(l, ServerSends)).replica == l.server
  {
    RunKeepsLinked(steps);
    var l := Run(FRESH, steps);
    SendKeepsLinked(l);
    DeliverArrives(Advance(l, ServerSends));
    var last := Deliver(Advance(l, ServerSends));
    assert last.cursor == |l.server.strings|;
    SameIds(last.replica, l.server);
  }

  lemma SameIds(a: Cache, b: Cache)
    requires Inverse(a) && Inverse(b) && a.strings == b.strings
    ensures a == b
  {
    forall s ensures s in a.ids <==> s in b.ids {
    }
    forall s | s in a.ids ensures a.ids[s] == b.ids[s] {
      var i :| 0 <= i < |a.strings| && a.strings[i] == s;
    }
  }
}
