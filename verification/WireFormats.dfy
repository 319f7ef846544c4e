/** The durable formats down to their bytes: a core state, a snapshot intent, a command
    and two reserved identities, and the published vectors of the hash. */
module WireFormats {
  import opened Basics
  import opened ByteCodec
  import opened CampaignState
  import opened CampaignCoreCodec
  import opened CampaignStore
  import opened CampaignHistory
  import opened CommandPayload
  import opened MutationIds
  import IdentityStore

  /** A campaign "c" at version 258, in its arrival, managed by "q", with two slots. */
  const SAMPLE := Aggregate([0x63], 258, Arrival, true, Some([0x71]),
                            [SlotState([0x73, 0x31], [0x70], [0x62], true),
                             SlotState([0x73, 0x32], [0x71], [0x64], false)])

  lemma SmallNumbers()
    ensures LittleEndian(1, 4) == [1, 0, 0, 0] && LittleEndian(2, 4) == [2, 0, 0, 0]
    ensures LittleEndian(8, 4) == [8, 0, 0, 0]
    ensures LittleEndian(258, 8) == [2, 1, 0, 0, 0, 0, 0, 0]
  {
    Width4(1);
    Width4(2);
    Width4(8);
    Width8(258);
  }

  lemma Width4(n: nat)
    ensures LittleEndian(n, 4) == [n % 256, n / 256 % 256, n / 256 / 256 % 256, n / 256 / 256 / 256 % 256]
  {
    var b, c, d := n / 256, n / 256 / 256, n / 256 / 256 / 256;
    assert LittleEndian(d, 1) == [d % 256] + LittleEndian(d / 256, 0);
    assert LittleEndian(c, 2) == [c % 256] + LittleEndian(d, 1);
    assert LittleEndian(b, 3) == [b % 256] + LittleEndian(c, 2);
  }

  lemma Width8(n: nat)
    requires n < 0x1_0000
    ensures LittleEndian(n, 8) == [n % 256, n / 256, 0, 0, 0, 0, 0, 0]
  {
    Width4(0);
    assert LittleEndian(0, 5) == [0] + LittleEndian(0, 4);
    assert LittleEndian(0, 6) == [0] + LittleEndian(0, 5);
    assert LittleEndian(n / 256, 7) == [n / 256 % 256] + LittleEndian(0, 6);
  }

  lemma TwoPrinted<T>(x: T, y: T, put: T -> Bytes)
    ensures Printed([x, y], put) == put(x) + put(y)
  {
    assert [x, y][1..] == [y] && [y][1..] == [];
    assert Printed([y], put) == put(y) + Printed([], put);
  }

  const READY: seq<Readiness> := [Readiness([0x73, 0x31], true), Readiness([0x73, 0x32], false)]

  lemma SampleReadiness()
    ensures ReadinessOf(SAMPLE.roster) == READY
    ensures EntryBytes(READY[0]) == [2, 0, 0, 0, 0x73, 0x31, 1]
    ensures EntryBytes(READY[1]) == [2, 0, 0, 0, 0x73, 0x32, 0]
  {
    SmallNumbers();
    hide LittleEndian;
  }

  lemma SampleManager()
    ensures ManagerBytes(SAMPLE.manager) == [1, 1, 0, 0, 0, 0x71]
  {
    SmallNumbers();
    hide LittleEndian;
  }

  /** The core state: "STRECR01", codec 1, version, phase, manager, then each slot with its
      readiness. */
  lemma CoreOnTheWire()
    ensures CoreBytes(ImageOf(SAMPLE)) ==
            ([0x53, 0x54, 0x52, 0x45, 0x43, 0x52, 0x30, 0x31] + [1, 0, 0, 0]) +
            ([2, 1, 0, 0, 0, 0, 0, 0] +
             ([2] + ([1, 1, 0, 0, 0, 0x71] +
                     ([2, 0, 0, 0] + ([2, 0, 0, 0, 0x73, 0x31, 1] + [2, 0, 0, 0, 0x73, 0x32, 0])))))
  {
    SmallNumbers();
    SampleReadiness();
    SampleManager();
    TwoPrinted(READY[0], READY[1], EntryBytes);
    hide EntryBytes, ManagerBytes, LittleEndian, ReadinessOf, Printed;
  }

  lemma SampleSlots()
    ensures SlotStateBytes(SAMPLE.roster[0]) == [2, 0, 0, 0, 0x73, 0x31, 1, 0, 0, 0, 0x70, 1, 0, 0, 0, 0x62, 1]
    ensures SlotStateBytes(SAMPLE.roster[1]) == [2, 0, 0, 0, 0x73, 0x32, 1, 0, 0, 0, 0x71, 1, 0, 0, 0, 0x64, 0]
  {
    SmallNumbers();
    hide LittleEndian;
  }

  /** The snapshot intent: "STRECI01", codec 1, campaign, version, phase, seal, manager,
      then each slot with its owner and its readiness. */
  lemma IntentOnTheWire()
    ensures IntentBytes(SAMPLE) ==
            [0x53, 0x54, 0x52, 0x45, 0x43, 0x49, 0x30, 0x31] + [1, 0, 0, 0] + [1, 0, 0, 0, 0x63] +
            [2, 1, 0, 0, 0, 0, 0, 0] + [2] + [1] + [1, 1, 0, 0, 0, 0x71] + [2, 0, 0, 0] +
            [2, 0, 0, 0, 0x73, 0x31, 1, 0, 0, 0, 0x70, 1, 0, 0, 0, 0x62, 1] +
            [2, 0, 0, 0, 0x73, 0x32, 1, 0, 0, 0, 0x71, 1, 0, 0, 0, 0x64, 0]
  {
    SmallNumbers();
    SampleSlots();
    SampleManager();
    TwoPrinted(SAMPLE.roster[0], SAMPLE.roster[1], SlotStateBytes);
    assert TextBytes(SAMPLE.id) == [1, 0, 0, 0, 0x63];
    hide SlotStateBytes, ManagerBytes, LittleEndian, TextBytes;
    assert CountedBytes(SAMPLE.roster, SlotStateBytes) ==
           [2, 0, 0, 0] + (SlotStateBytes(SAMPLE.roster[0]) + SlotStateBytes(SAMPLE.roster[1]));
  }

  lemma FirstByteMixed()
    ensures Xor(0x25, 0x61, 8) == 0x44
  {
    assert Xor(0, 0, 1) == 0;
    assert Xor(0, 1, 2) == 1;
    assert Xor(1, 3, 3) == 2;
    assert Xor(2, 6, 4) == 4;
    assert Xor(4, 12, 5) == 8;
    assert Xor(9, 24, 6) == 17;
    assert Xor(18, 48, 7) == 34;
  }

  /** The two vectors the hash's specification gives first: the empty text and "a". */
  lemma HashVectors()
    ensures Fnv1a([]) == 0xCBF29CE484222325
    ensures Fnv1a([0x61]) == 0xAF63DC4C8601EC8C
  {
    hide Xor;
    FirstByteMixed();
    assert XorByte(0xCBF29CE484222325, 0x61) == 0xCBF29CE484222344;
    assert [0x61][..0] == [];
    assert Fnv1a([0x61]) == Mix(Fnv1a([]), 0x61);
  }

  /** The name of a native save is "stre-" and its checkpoint; its fingerprint is SHA-256. */
  lemma SaveName(checkpoint: Id)
    ensures SaveIdentity(checkpoint) == Ascii("stre-") + checkpoint && SHA_256 == Ascii("SHA-256")
  {
  }

  lemma FiveFields(a: Part, b: Part, c: Part, d: Part, e: Part)
    ensures PartsBytes([a, b, c, d, e]) ==
            PartBytes(a) + (PartBytes(b) + (PartBytes(c) + (PartBytes(d) + PartBytes(e))))
  {
    var all := [a, b, c, d, e];
    assert all[1..] == [b, c, d, e] && all[1..][1..] == [c, d, e] && all[1..][1..][1..] == [d, e];
    assert [d, e][1..] == [e] && [e][1..] == [];
    assert PartsBytes([e]) == PartBytes(e) + PartsBytes([]);
    assert PartsBytes([d, e]) == PartBytes(d) + PartsBytes([e]);
    assert PartsBytes([c, d, e]) == PartBytes(c) + PartsBytes([d, e]);
    assert PartsBytes([b, c, d, e]) == PartBytes(b) + PartsBytes([c, d, e]);
  }

  lemma OneLetter(b: byte)
    ensures TextBytes([b]) == [1, 0, 0, 0, b]
  {
    SmallNumbers();
  }

  lemma CommandNames()
    ensures COMMAND_MAGIC == Ascii("STRECM01")
    ensures TextBytes(Ascii("SetReady")) == [8, 0, 0, 0] + Ascii("SetReady")
  {
    SmallNumbers();
    assert |Ascii("SetReady")| == 8;
  }

  /** A command: "STRECM01", its name, its fields. */
  lemma CommandOnTheWire(hash: Bytes)
    ensures PayloadBytes(hash, EditCampaign(Ready(Member([0x63], [0x73], [0x70], [0x62]), true))) ==
            Ascii("STRECM01") +
            (([8, 0, 0, 0] + Ascii("SetReady")) +
             ([1, 0, 0, 0, 0x63] + ([1, 0, 0, 0, 0x73] + ([1, 0, 0, 0, 0x70] + ([1, 0, 0, 0, 0x62] + [1])))))
  {
    FiveFields(Field([0x63]), Field([0x73]), Field([0x70]), Field([0x62]), Flag(true));
    CommandNames();
    OneLetter(0x63);
    OneLetter(0x73);
    OneLetter(0x70);
    OneLetter(0x62);
    hide LittleEndian, PartsBytes, Ascii, TextBytes;
  }

  /** The identity of a slot's load in the attempt entered at revision 7. */
  lemma IdentityOnTheWire(hash: Bytes)
    ensures Text(hash, LoadedBy(0xAB, 7)) ==
            Ascii("recovery-loaded-") + (Ascii("00000000000000ab") +
                                         (Ascii("-") + (Ascii("restore-") + hash + Ascii("-r") + [0x37])))
  {
    LeadingZeros();
    ZeroDigits();
    hide Hex, Ascii;
  }

  lemma ZeroDigits()
    ensures Ascii("00000000000000ab") == seq(14, _ => 48) + [97, 98]
  {
  }

  lemma {:induction false} Zeros(width: nat)
    ensures Hex(0, width) == seq(width, _ => 48)
  {
    if width > 0 {
      Zeros(width - 1);
    }
  }

  lemma LeadingZeros()
    ensures Hex(0xAB, 16) == seq(14, _ => 48) + [97, 98]
  {
    Zeros(14);
    assert Hex(0xA, 15) == Hex(0, 14) + [97];
  }

  const BINDING := IdentityStore.Entry([0x63], [0x73], [0x62])

  /** The bindings' file: a header line, and a line of three fields between tabs. */
  lemma BindingsOnTheWire()
    ensures IdentityStore.FileText([[0x63]], map[[0x63] := BINDING]) ==
            Ascii("stre-campaign-bindings-v1") + ([10] + ([0x63, 9, 0x73, 9, 0x62] + ([10] + [])))
  {
    var keys: seq<Id> := [[0x63]];
    assert keys[1..] == [];
    assert IdentityStore.HEADER == Ascii("stre-campaign-bindings-v1");
    assert IdentityStore.LineOf(BINDING) == [0x63, 9, 0x73, 9, 0x62];
    assert IdentityStore.Records(keys, map[[0x63] := BINDING]) ==
           IdentityStore.LineOf(BINDING) + ([10] + IdentityStore.Records([], map[[0x63] := BINDING]));
  }

  /** Two lower-case digits for every byte. */
  lemma HexOnTheWire()
    ensures IdentityStore.Hex([0x0F, 0xA9]) == Ascii("0fa9")
  {
    assert [0x0F, 0xA9][..1] == [0x0F] && [0x0F][..0] == [];
    assert IdentityStore.Hex([0x0F]) == IdentityStore.Hex([]) + [48, 102];
  }
}
