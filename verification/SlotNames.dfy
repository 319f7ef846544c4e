/** The slot names the server hands out never share a hash. */
module SlotNames {
  import opened Basics
  import opened MutationIds
  import opened CampaignState
  import opened CampaignStore
  import opened CampaignHistory
  import opened RuntimeInvariants
  import opened RuntimeSafety
  import opened RuntimeRuns
  import CampaignCoreCodec
  import CheckpointProgress
  import JournalGrammar

  /** "slot-01" to "slot-10". */
  function SlotName(k: nat): Id
    requires 1 <= k <= 10
  {
    [0x73, 0x6C, 0x6F, 0x74, 0x2D, 48 + k / 10, 48 + k % 10]
  }

  /** Flipping the lowest bit of one operand moves an exclusive or by one. */
  lemma XorLowBit(x: nat, a: nat, b: nat, bits: nat)
    requires bits > 0 && a / 2 == b / 2 && a % 2 != b % 2
    ensures Xor(x, a, bits) - Xor(x, b, bits) in {-1, 1}
  {
  }

  /** Two states one apart are far apart after the multiplication. */
  lemma FarAfterMix(x: Hash, y: Hash)
    requires y == x + 1
    ensures (x * PRIME % TWO_64) / 256 != (y * PRIME % TWO_64) / 256
  {
    var g, h := x * PRIME % TWO_64, y * PRIME % TWO_64;
    var c := y * PRIME / TWO_64 - x * PRIME / TWO_64;
    assert h - g == PRIME - c * TWO_64;
    assert g == g / 256 * 256 + g % 256 && h == h / 256 * 256 + h % 256;
  }

  lemma UpperBitsStay(h: Hash, b: byte)
    ensures XorByte(h, b) / 256 == h / 256
  {
    hide Xor;
    Pow2Is256();
    assert 0 <= Xor(h % 256, b, 8) < 256;
  }

  lemma LowBitApart(h: Hash, a: byte, b: byte)
    requires a / 2 == b / 2 && a % 2 != b % 2
    ensures Mix(h, a) / 256 != Mix(h, b) / 256
  {
    hide Xor;
    XorLowBit(h % 256, a, b, 8);
    var x: int, y: int := XorByte(h, a), XorByte(h, b);
    assert x == y + 1 || y == x + 1;
    if y == x + 1 {
      FarAfterMix(x, y);
    } else {
      FarAfterMix(y, x);
    }
  }

  /** Whatever two bytes end two identities, they do not collide if the first of the
      two bytes differs in its lowest bit alone. */
  lemma TwoBytesApart(front: Bytes, a: byte, b: byte, c: byte, d: byte)
    requires a / 2 == b / 2 && a % 2 != b % 2
    ensures Fnv1a(front + [a, c]) != Fnv1a(front + [b, d])
  {
    var s, t := front + [a, c], front + [b, d];
    var n := |front|;
    assert s[..n + 1] == front + [a] && t[..n + 1] == front + [b];
    assert (front + [a])[..n] == front && (front + [b])[..n] == front;
    hide Mix, XorByte;
    var h := Fnv1a(front);
    assert Fnv1a(front + [a]) == Mix(h, a) && Fnv1a(front + [b]) == Mix(h, b);
    assert Fnv1a(s) == Mix(Mix(h, a), c) && Fnv1a(t) == Mix(Mix(h, b), d);
    LowBitApart(h, a, b);
    UpperBitsStay(Mix(h, a), c);
    UpperBitsStay(Mix(h, b), d);
    if Fnv1a(s) == Fnv1a(t) {
      SameMix(Mix(h, a), c, Mix(h, b), d);
    }
  }

  lemma SameMix(g: Hash, c: byte, h: Hash, d: byte)
    requires Mix(g, c) == Mix(h, d)
    ensures XorByte(g, c) == XorByte(h, d)
  {
    OddMultiplierCancels(XorByte(g, c), XorByte(h, d));
  }

  /** No two of the ten names collide. */
  lemma NamesNeverCollide(j: nat, k: nat)
    requires 1 <= j < k <= 10
    ensures Fnv1a(SlotName(j)) != Fnv1a(SlotName(k))
  {
    hide Fnv1a;
    var s, t := SlotName(j), SlotName(k);
    if k < 10 {
      assert s[..6] == t[..6] && s[7..] == t[7..];
      OneByteApart(s, t, 6);
    } else {
      var front: Bytes := [0x73, 0x6C, 0x6F, 0x74, 0x2D];
      assert s == front + [48, 48 + j] && t == front + [49, 48];
      TwoBytesApart(front, 48, 49, 48 + j, 48);
    }
  }

  /** A name the server gives. */
  predicate ServerNamed(s: Id) { exists k :: 1 <= k <= 10 && s == SlotName(k) }

  predicate ServerRoster(slots: seq<SlotRecord>) {
    forall i :: 0 <= i < |slots| ==> ServerNamed(slots[i].slot)
  }

  /** So the hypothesis of the recovery theorems holds of every campaign whose slots
      were named by the server. */
  lemma ServerNamesAreApart(cfg: Config, d: Durable)
    requires forall s: Id :: cfg.slotHash(s) == Fnv1a(s)
    requires ServerRoster(d.slots)
    requires forall i, j :: 0 <= i < j < |d.slots| ==> d.slots[i].slot != d.slots[j].slot
    ensures SlotsApart(cfg, d)
  {
    hide Fnv1a;
    forall i, j | 0 <= i < j < |d.slots| ensures cfg.slotHash(d.slots[i].slot) != cfg.slotHash(d.slots[j].slot) {
      var m :| 1 <= m <= 10 && d.slots[i].slot == SlotName(m);
      var n :| 1 <= n <= 10 && d.slots[j].slot == SlotName(n);
      if m < n {
        NamesNeverCollide(m, n);
      } else {
        NamesNeverCollide(n, m);
      }
    }
  }

  /*
   * The texts of a campaign's identities
   */

  predicate Named(m: MutationId) { Hashed(m) && (m.AcknowledgeOf? ==> ServerNamed(m.slot)) }

  /** Every slot hash in an accepted journal is the hash of some slot. */
  lemma RecordIsHashed(cfg: Config, journal: seq<Record>, k: nat)
    requires Replay(cfg, journal).Some? && k < |journal| && forall s: Id :: cfg.slotHash(s) < TWO_64
    ensures Hashed(journal[k].mutation)
  {
    hide Replay, Next;
    JournalGrammar.ReplayPrefix(cfg, journal, k + 1);
    var front := journal[..k + 1];
    assert front[k] == journal[k] && front[..k] == journal[..k];
    if k == 0 {
      FirstIsClients(cfg, front);
    } else {
      LastStep(cfg, front);
      NextIsHashed(cfg, Replay(cfg, front[..k]).value, journal[k]);
    }
  }

  lemma FirstIsClients(cfg: Config, journal: seq<Record>)
    requires |journal| == 1 && Replay(cfg, journal).Some?
    ensures journal[0].mutation.ClientMutation?
  {
  }

  lemma LastStep(cfg: Config, journal: seq<Record>)
    requires |journal| > 1 && Replay(cfg, journal).Some?
    ensures Replay(cfg, journal[..|journal| - 1]).Some?
    ensures Next(cfg, Replay(cfg, journal[..|journal| - 1]).value, journal[|journal| - 1]).Some?
  {
    hide Next;
  }

  lemma NextIsHashed(cfg: Config, h: History, r: Record)
    requires Next(cfg, h, r).Some? && forall s: Id :: cfg.slotHash(s) < TWO_64
    ensures Hashed(r.mutation)
  {
    hide CampaignCoreCodec.CoreBytes, CampaignCoreCodec.ImageOf, CampaignCoreCodec.IntentBytes, Apply;
  }

  lemma AcknowledgedIsListed(cfg: Config, d: Durable, r: Record)
    requires Stands(cfg, d) && r in d.journal && r.mutation.AcknowledgeOf?
    ensures exists i :: 0 <= i < |d.slots| && d.slots[i].slot == r.mutation.slot
  {
    hide Replay, SoundCampaign;
    JournalIsAccounted(cfg, d.journal);
    ReplayIsSound(cfg, d.journal);
    var h := Past(cfg, d);
    assert Accounted(cfg, h, r);
    var saved := h.saved[r.mutation.checkpoint];
    assert SoundSaved(cfg, h, r.mutation.checkpoint, saved);
    SameRecordsSameSlots(saved.campaign, h.campaign);
    var i :| 0 <= i < |h.campaign.roster| && h.campaign.roster[i].slot == r.mutation.slot;
    assert d.slots[i] == h.campaign.roster[i].Record();
  }

  /** In a campaign whose slots the server named, looking a reserved identity up by its
      text finds exactly the records of that identity. */
  lemma TextNamesRecord(cfg: Config, d: Durable, hash: Bytes, m: MutationId, r: Record)
    requires Stands(cfg, d) && ServerRoster(d.slots) && (forall s: Id :: cfg.slotHash(s) == Fnv1a(s)) && |hash| == 16
    requires !m.ClientMutation? && Named(m) && r in d.journal && !r.mutation.ClientMutation?
    ensures Text(hash, m) == Text(hash, r.mutation) <==> m == r.mutation
  {
    hide Replay, Stands, Fnv1a, Text;
    assert forall s: Id :: cfg.slotHash(s) < TWO_64;
    var k :| 0 <= k < |d.journal| && d.journal[k] == r;
    StandsAtRevision(cfg, d);
    RecordIsHashed(cfg, d.journal, k);
    if r.mutation.AcknowledgeOf? {
      AcknowledgedIsListed(cfg, d, r);
    }
    TextsEqualIff(hash, m, r.mutation);
    if m.AcknowledgeOf? && r.mutation.AcknowledgeOf? {
      assert |m.slot| == 7 == |r.mutation.slot|;
    }
  }

  /** And the store takes the texts of its acknowledgements exactly for checkpoints of
      at most 105 bytes. */
  lemma ServerNamesFitIff(d: Durable, c: Id)
    requires ServerRoster(d.slots) && d.slots != []
    ensures CheckpointProgress.NamesFit(d, c) <==> ValidIdentity(c) && |c| <= 105
  {
    if ValidIdentity(c) && |c| <= 105 {
      forall i | 0 <= i < |d.slots| ensures Storable(AcknowledgeOf(c, d.slots[i].slot)) {
        assert ServerNamed(d.slots[i].slot);
      }
    } else {
      assert ServerNamed(d.slots[0].slot);
      assert !Storable(AcknowledgeOf(c, d.slots[0].slot));
    }
  }
}
