/** The binary codec of the opaque core-state payload and the snapshot intent. */
module CampaignCoreCodec {
  import opened Basics
  import opened ByteCodec
  import opened CampaignState

  const MAX_PAYLOAD := 64 * 1024
  const CODEC_VERSION := 1
  const CORE_MAGIC: Bytes := [0x53, 0x54, 0x52, 0x45, 0x43, 0x52, 0x30, 0x31]
  const INTENT_MAGIC: Bytes := [0x53, 0x54, 0x52, 0x45, 0x43, 0x49, 0x30, 0x31]

  /** One entry of the readiness list in a core-state payload. */
  datatype Readiness = Readiness(slot: Id, ready: bool)

  /** What a core-state payload says, before it is joined with the roster. */
  datatype CoreImage = CoreImage(
    version: u64,
    phase: Phase,
    manager: Option<Id>,
    readiness: seq<Readiness>)

  predicate ValidAggregate(a: Aggregate) {
    && a.id != [] && a.version != 0
    && RosterFault(a.roster, !a.sealed) == NoError
    && (a.sealed <==> a.phase != Lobby)
    && (a.sealed <==> a.manager.Some?)
    && (a.manager.Some? ==> IsMember(a.roster, a.manager.value))
  }

  /*
   * Fields
   */

  function PhaseByte(p: Phase): (b: byte)
    ensures PhaseOf(b) == Some(p)
  {
    match p
    case Lobby => 0
    case CharacterCreation => 1
    case Arrival => 2
    case Gathering => 3
    case ValenIntroduction => 4
    case ClassSelection => 5
    case ReadyCheck => 6
    case Departure => 7
    case OpenWorld => 8
  }

  function PhaseOf(b: int): (p: Option<Phase>) {
    if b == 0 then Some(Lobby)
    else if b == 1 then Some(CharacterCreation)
    else if b == 2 then Some(Arrival)
    else if b == 3 then Some(Gathering)
    else if b == 4 then Some(ValenIntroduction)
    else if b == 5 then Some(ClassSelection)
    else if b == 6 then Some(ReadyCheck)
    else if b == 7 then Some(Departure)
    else if b == 8 then Some(OpenWorld)
    else None
  }

  function GetMagic(input: Bytes, magic: Bytes): Read<()> {
    if magic <= input then Got((), input[|magic|..]) else Malformed
  }

  function HeaderBytes(magic: Bytes): Bytes { magic + LittleEndian(CODEC_VERSION, 4) }

  function GetHeader(input: Bytes, magic: Bytes): Read<()> {
    var (_, rest) :- GetMagic(input, magic);
    var (codec, rest) :- GetScalar(rest, 4);
    if codec == CODEC_VERSION then Got((), rest) else Malformed
  }

  function GetVersion(input: Bytes): Read<u64> {
    var (version, rest) :- GetScalar(input, 8);
    if version <= MAX_U64 then Got(version, rest) else Malformed
  }

  function GetPhase(input: Bytes): Read<Phase> {
    var (b, rest) :- GetScalar(input, 1);
    if PhaseOf(b).Some? then Got(PhaseOf(b).value, rest) else Malformed
  }

  function ManagerBytes(manager: Option<Id>): Bytes {
    BoolBytes(manager.Some?) + if manager.Some? then TextBytes(manager.value) else []
  }

  function GetManager(input: Bytes): Read<Option<Id>> {
    var (has, rest) :- GetBool(input);
    if !has then Got(None, rest)
    else
      var (manager, rest) :- GetText(rest, MAX_IDENTITY);
      Got(Some(manager), rest)
  }

  function EntryBytes(r: Readiness): Bytes { TextBytes(r.slot) + BoolBytes(r.ready) }

  function GetEntry(input: Bytes): Read<Readiness> {
    var (slot, rest) :- GetText(input, MAX_IDENTITY);
    var (ready, rest) :- GetBool(rest);
    Got(Readiness(slot, ready), rest)
  }

  function SlotStateBytes(s: SlotState): Bytes {
    TextBytes(s.slot) + (TextBytes(s.player) + (TextBytes(s.binding) + BoolBytes(s.ready)))
  }

  function GetSlotState(input: Bytes): Read<SlotState> {
    var (slot, rest) :- GetText(input, MAX_IDENTITY);
    var (player, rest) :- GetText(rest, MAX_IDENTITY);
    var (binding, rest) :- GetText(rest, MAX_IDENTITY);
    var (ready, rest) :- GetBool(rest);
    Got(SlotState(slot, player, binding, ready), rest)
  }

  /** A list is prefixed by its 32-bit length, at most the roster limit. */
  function CountedBytes<T>(items: seq<T>, put: T -> Bytes): Bytes {
    LittleEndian(|items|, 4) + Printed(items, put)
  }

  function GetCounted<T>(input: Bytes, get: Bytes -> Read<T>): Read<seq<T>> {
    var (count, rest) :- GetScalar(input, 4);
    if count > MAX_ROSTER then Malformed else GetItems(rest, count, get)
  }

  lemma CountedRoundTrip<T>(items: seq<T>, put: T -> Bytes, get: Bytes -> Read<T>, rest: Bytes)
    requires |items| <= MAX_ROSTER
    requires forall i, tail: Bytes :: 0 <= i < |items| ==> get(put(items[i]) + tail) == Got(items[i], tail)
    ensures GetCounted(CountedBytes(items, put) + rest, get) == Got(items, rest)
  {
    WidthLimits();
    ScalarRoundTrip(|items|, 4, Printed(items, put) + rest);
    assert CountedBytes(items, put) + rest == LittleEndian(|items|, 4) + (Printed(items, put) + rest);
    ItemsRoundTrip(items, put, get, rest);
  }

  lemma CountedExact<T>(input: Bytes, put: T -> Bytes, get: Bytes -> Read<T>)
    requires forall b: Bytes :: get(b).Got? ==> b == put(get(b).value) + get(b).rest
    ensures var r := GetCounted(input, get);
            r.Got? ==> |r.value| <= MAX_ROSTER && input == CountedBytes(r.value, put) + r.rest
  {
    var r := GetCounted(input, get);
    if r.Got? {
      ScalarExact(input, 4);
      var count := GetScalar(input, 4);
      ItemsExact(count.rest, count.value, put, get);
      assert LittleEndian(count.value, 4) + (Printed(r.value, put) + r.rest)
          == (LittleEndian(count.value, 4) + Printed(r.value, put)) + r.rest;
    }
  }

  lemma HeaderRoundTrip(magic: Bytes, rest: Bytes)
    ensures GetHeader(HeaderBytes(magic) + rest, magic) == Got((), rest)
  {
    WidthLimits();
    ScalarRoundTrip(CODEC_VERSION, 4, rest);
    assert HeaderBytes(magic) + rest == magic + (LittleEndian(CODEC_VERSION, 4) + rest);
  }

  lemma HeaderExact(input: Bytes, magic: Bytes)
    ensures var r := GetHeader(input, magic); r.Got? ==> input == HeaderBytes(magic) + r.rest
  {
    var r := GetHeader(input, magic);
    if r.Got? {
      ScalarExact(input[|magic|..], 4);
      assert input == magic + input[|magic|..];
    }
  }

  lemma VersionRoundTrip(version: u64, rest: Bytes)
    ensures GetVersion(LittleEndian(version, 8) + rest) == Got(version, rest)
  {
    WidthLimits();
    ScalarRoundTrip(version, 8, rest);
  }

  lemma VersionExact(input: Bytes)
    ensures var r := GetVersion(input); r.Got? ==> input == LittleEndian(r.value, 8) + r.rest
    ensures GetVersion(input).Got? <==> GetScalar(input, 8).Got?
  {
    WidthLimits();
    ScalarExact(input, 8);
  }

  lemma PhaseRoundTrip(p: Phase, rest: Bytes)
    ensures GetPhase([PhaseByte(p)] + rest) == Got(p, rest)
  {
    var input := [PhaseByte(p)] + rest;
    OneByte(input);
    assert input[1..] == rest;
  }

  lemma PhaseExact(input: Bytes)
    ensures var r := GetPhase(input); r.Got? ==> input == [PhaseByte(r.value)] + r.rest
  {
    if |input| >= 1 {
      OneByte(input);
    }
  }

  lemma ManagerRoundTrip(manager: Option<Id>, rest: Bytes)
    requires manager.Some? ==> |manager.value| <= MAX_IDENTITY
    ensures GetManager(ManagerBytes(manager) + rest) == Got(manager, rest)
  {
    var tail := if manager.Some? then TextBytes(manager.value) else [];
    assert ManagerBytes(manager) + rest == BoolBytes(manager.Some?) + (tail + rest);
    BoolRoundTrip(manager.Some?, tail + rest);
    if manager.Some? {
      TextRoundTrip(manager.value, rest, MAX_IDENTITY);
    } else {
      assert tail + rest == rest;
    }
  }

  lemma ManagerExact(input: Bytes)
    ensures var r := GetManager(input);
            r.Got? ==> input == ManagerBytes(r.value) + r.rest
  {
    BoolExact(input);
    var b := GetBool(input);
    if b.Got? && b.value {
      TextExact(b.rest, MAX_IDENTITY);
    }
  }

  lemma EntryRoundTrip(r: Readiness, rest: Bytes)
    requires |r.slot| <= MAX_IDENTITY
    ensures GetEntry(EntryBytes(r) + rest) == Got(r, rest)
  {
    assert EntryBytes(r) + rest == TextBytes(r.slot) + (BoolBytes(r.ready) + rest);
    TextRoundTrip(r.slot, BoolBytes(r.ready) + rest, MAX_IDENTITY);
    BoolRoundTrip(r.ready, rest);
  }

  lemma EntryExact(input: Bytes)
    ensures var r := GetEntry(input);
            r.Got? ==> input == EntryBytes(r.value) + r.rest
  {
    TextExact(input, MAX_IDENTITY);
    var text := GetText(input, MAX_IDENTITY);
    if text.Got? {
      BoolExact(text.rest);
    }
  }

  lemma Reassociate(a: Bytes, b: Bytes, c: Bytes, d: Bytes)
    ensures a + (b + (c + d)) == (a + (b + c)) + d
  {
  }

  lemma SlotStateRoundTrip(s: SlotState, rest: Bytes)
    requires ValidSlotIdentity(s)
    ensures GetSlotState(SlotStateBytes(s) + rest) == Got(s, rest)
  {
    hide GetText, GetBool, TextBytes, BoolBytes;
    var r3 := BoolBytes(s.ready) + rest;
    var r2 := TextBytes(s.binding) + r3;
    var r1 := TextBytes(s.player) + r2;
    BoolRoundTrip(s.ready, rest);
    TextRoundTrip(s.binding, r3, MAX_IDENTITY);
    TextRoundTrip(s.player, r2, MAX_IDENTITY);
    TextRoundTrip(s.slot, r1, MAX_IDENTITY);
    assert SlotStateBytes(s) + rest == TextBytes(s.slot) + r1;
  }

  lemma SlotStateExact(input: Bytes)
    ensures var r := GetSlotState(input);
            r.Got? ==> input == SlotStateBytes(r.value) + r.rest
  {
    var r := GetSlotState(input);
    if r.Got? {
      var s := GetText(input, MAX_IDENTITY);
      var p := GetText(s.rest, MAX_IDENTITY);
      var b := GetText(p.rest, MAX_IDENTITY);
      TextExact(input, MAX_IDENTITY);
      TextExact(s.rest, MAX_IDENTITY);
      TextExact(p.rest, MAX_IDENTITY);
      BoolExact(b.rest);
      var last := BoolBytes(r.value.ready) + r.rest;
      assert input == TextBytes(s.value) + (TextBytes(p.value) + (TextBytes(b.value) + last));
      Reassociate(TextBytes(p.value), TextBytes(b.value), BoolBytes(r.value.ready), r.rest);
    }
  }

  /*
   * The core-state payload
   */

  function CoreBody(i: CoreImage): Bytes {
    LittleEndian(i.version, 8) +
    ([PhaseByte(i.phase)] + (ManagerBytes(i.manager) + CountedBytes(i.readiness, EntryBytes)))
  }

  function CoreBytes(i: CoreImage): Bytes {
    HeaderBytes(CORE_MAGIC) + CoreBody(i)
  }

  /** The fields before the readiness list. */
  function GetCoreFields(input: Bytes): Read<(u64, Phase, Option<Id>)> {
    var (version, rest) :- GetVersion(input);
    var (phase, rest) :- GetPhase(rest);
    var (manager, rest) :- GetManager(rest);
    Got((version, phase, manager), rest)
  }

  function ParseBody(input: Bytes): Read<CoreImage> {
    var (fields, rest) :- GetCoreFields(input);
    var (readiness, rest) :- GetCounted(rest, GetEntry);
    Got(CoreImage(fields.0, fields.1, fields.2, readiness), rest)
  }

  function ParseCore(input: Bytes): Option<CoreImage> {
    var header := GetHeader(input, CORE_MAGIC);
    if header.Malformed? then None
    else
      var body := ParseBody(header.rest);
      if body.Got? && body.rest == [] then Some(body.value) else None
  }

  predicate Printable(i: CoreImage) {
    && (i.manager.Some? ==> |i.manager.value| <= MAX_IDENTITY)
    && |i.readiness| <= MAX_ROSTER
    && (forall k :: 0 <= k < |i.readiness| ==> |i.readiness[k].slot| <= MAX_IDENTITY)
  }

  lemma BodyRoundTrip(i: CoreImage)
    requires Printable(i)
    ensures ParseBody(CoreBody(i)) == Got(i, [])
  {
    var r3 := CountedBytes(i.readiness, EntryBytes);
    var r2 := ManagerBytes(i.manager) + r3;
    var r1 := [PhaseByte(i.phase)] + r2;
    VersionRoundTrip(i.version, r1);
    PhaseRoundTrip(i.phase, r2);
    ManagerRoundTrip(i.manager, r3);
    forall k, tail: Bytes | 0 <= k < |i.readiness|
      ensures GetEntry(EntryBytes(i.readiness[k]) + tail) == Got(i.readiness[k], tail)
    {
      EntryRoundTrip(i.readiness[k], tail);
    }
    CountedRoundTrip(i.readiness, EntryBytes, GetEntry, []);
    assert r3 + [] == r3;
  }

  /** Parsing reads back exactly the image that was printed. */
  lemma ParsePrinted(i: CoreImage)
    requires Printable(i)
    ensures ParseCore(CoreBytes(i)) == Some(i)
  {
    HeaderRoundTrip(CORE_MAGIC, CoreBody(i));
    BodyRoundTrip(i);
  }

  lemma BodyExact(input: Bytes)
    ensures var r := ParseBody(input);
            r.Got? && r.rest == [] ==> input == CoreBody(r.value)
  {
    var r := ParseBody(input);
    if r.Got? && r.rest == [] {
      VersionExact(input);
      var version := GetVersion(input);
      PhaseExact(version.rest);
      var phase := GetPhase(version.rest);
      ManagerExact(phase.rest);
      var manager := GetManager(phase.rest);
      forall b: Bytes | GetEntry(b).Got? ensures b == EntryBytes(GetEntry(b).value) + GetEntry(b).rest {
        EntryExact(b);
      }
      CountedExact(manager.rest, EntryBytes, GetEntry);
      WidthLimits();
      assert manager.rest == CountedBytes(r.value.readiness, EntryBytes);
    }
  }

  /** A payload that parses is the one and only printing of its image. */
  lemma ParseExact(input: Bytes)
    requires ParseCore(input).Some?
    ensures input == CoreBytes(ParseCore(input).value)
  {
    HeaderExact(input, CORE_MAGIC);
    BodyExact(GetHeader(input, CORE_MAGIC).rest);
  }

  function ReadinessOf(roster: seq<SlotState>): (rs: seq<Readiness>)
    ensures |rs| == |roster|
    ensures forall i :: 0 <= i < |rs| ==> rs[i] == Readiness(roster[i].slot, roster[i].ready)
  {
    seq(|roster|, i requires 0 <= i < |roster| => Readiness(roster[i].slot, roster[i].ready))
  }

  function ImageOf(a: Aggregate): CoreImage {
    CoreImage(a.version, a.phase, a.manager, ReadinessOf(a.roster))
  }

  function EncodeCore(a: Aggregate): Option<Bytes> {
    if ValidAggregate(a) then Some(CoreBytes(ImageOf(a))) else None
  }

  predicate DistinctReadiness(rs: seq<Readiness>) {
    forall i, j :: 0 <= i < j < |rs| ==> rs[i].slot != rs[j].slot
  }

  function EntryIndex(rs: seq<Readiness>, slot: Id): nat {
    First(rs, (r: Readiness) => r.slot == slot)
  }

  predicate AllFound(records: seq<SlotRecord>, rs: seq<Readiness>) {
    forall i :: 0 <= i < |records| ==> EntryIndex(rs, records[i].slot) < |rs|
  }

  /** Joins the durable roster with the readiness list. */
  function Join(records: seq<SlotRecord>, rs: seq<Readiness>): (roster: seq<SlotState>)
    requires AllFound(records, rs)
    ensures |roster| == |records|
  {
    seq(|records|, i requires 0 <= i < |records| =>
      SlotState(records[i].slot, records[i].player, records[i].binding,
                rs[EntryIndex(rs, records[i].slot)].ready))
  }

  function DecodeCore(id: Id, sealed: bool, records: seq<SlotRecord>, version: u64, payload: Bytes)
    : Option<Aggregate>
  {
    var image := ParseCore(payload);
    if image.None? || image.value.version != version then None
    else
      var rs := image.value.readiness;
      if |rs| != |records| || !DistinctReadiness(rs) || !AllFound(records, rs) then None
      else
        var a := Aggregate(id, version, image.value.phase, sealed, image.value.manager, Sort(Join(records, rs)));
        if ValidAggregate(a) then Some(a) else None
  }

  lemma ValidImagePrintable(a: Aggregate)
    requires ValidAggregate(a)
    ensures ValidRoster(a.roster) && Printable(ImageOf(a))
  {
    RosterFaultIff(a.roster, !a.sealed);
    if a.manager.Some? {
      var i :| 0 <= i < |a.roster| && a.roster[i].player == a.manager.value;
      assert ValidSlotIdentity(a.roster[i]);
    }
    forall i | 0 <= i < |a.roster| ensures |a.roster[i].slot| <= MAX_IDENTITY {
      assert ValidSlotIdentity(a.roster[i]);
    }
  }

  lemma JoinRestores(roster: seq<SlotState>)
    requires DistinctSlots(roster)
    ensures DistinctReadiness(ReadinessOf(roster)) && AllFound(Records(roster), ReadinessOf(roster))
    ensures Join(Records(roster), ReadinessOf(roster)) == roster
  {
    var rs := ReadinessOf(roster);
    forall i | 0 <= i < |roster| ensures EntryIndex(rs, roster[i].slot) == i {
    }
  }

  lemma MemberIsPermutationInvariant(a: seq<SlotState>, b: seq<SlotState>, player: Id)
    requires multiset(a) == multiset(b) && IsMember(a, player)
    ensures IsMember(b, player)
  {
    var i :| 0 <= i < |a| && a[i].player == player;
    assert a[i] in multiset(b);
    var j :| 0 <= j < |b| && b[j] == a[i];
  }

  lemma SortedStaysValid(a: Aggregate)
    requires ValidAggregate(a)
    ensures ValidAggregate(a.(roster := Sort(a.roster)))
  {
    RosterFaultIff(a.roster, !a.sealed);
    RosterFaultIff(Sort(a.roster), !a.sealed);
    ValidImagePrintable(a);
    ValidRosterIsPermutationInvariant(a.roster, Sort(a.roster));
    if a.manager.Some? {
      MemberIsPermutationInvariant(a.roster, Sort(a.roster), a.manager.value);
    }
  }

  /** Decoding an encoded aggregate returns it with its roster in slot order. */
  lemma DecodeEncoded(a: Aggregate)
    requires EncodeCore(a).Some?
    ensures DecodeCore(a.id, a.sealed, Records(a.roster), a.version, EncodeCore(a).value)
            == Some(a.(roster := Sort(a.roster)))
  {
    ValidImagePrintable(a);
    ParsePrinted(ImageOf(a));
    JoinRestores(a.roster);
    SortedStaysValid(a);
  }

  /** In slot order the round trip is the identity. */
  lemma DecodeEncodedAscending(a: Aggregate)
    requires EncodeCore(a).Some? && Ascending(a.roster)
    ensures DecodeCore(a.id, a.sealed, Records(a.roster), a.version, EncodeCore(a).value) == Some(a)
  {
    DecodeEncoded(a);
    SortFixesAscending(a.roster);
  }

  predicate AscendingReadiness(rs: seq<Readiness>) {
    forall i, j :: 0 <= i < j < |rs| ==> Less(rs[i].slot, rs[j].slot)
  }

  function Place(b: seq<Readiness>, r: Readiness): nat {
    First(b, x => x == r)
  }

  lemma PlacesIncrease(a: seq<Readiness>, b: seq<Readiness>, i: nat, j: nat)
    requires AscendingReadiness(a) && AscendingReadiness(b) && i < j < |a|
    requires a[i] in b && a[j] in b
    ensures Place(b, a[i]) < Place(b, a[j]) < |b|
  {
    var k, l := Place(b, a[i]), Place(b, a[j]);
    LessIrreflexive(a[i].slot);
    if l < k {
      LessTransitive(a[i].slot, a[j].slot, a[i].slot);
    }
  }

  lemma {:induction false} PlaceAtLeast(a: seq<Readiness>, b: seq<Readiness>, i: nat)
    requires AscendingReadiness(a) && AscendingReadiness(b) && i < |a|
    requires forall k :: 0 <= k < |a| ==> a[k] in b
    ensures i <= Place(b, a[i])
  {
    if i > 0 {
      PlaceAtLeast(a, b, i - 1);
      PlacesIncrease(a, b, i - 1, i);
    }
  }

  lemma {:induction false} PlaceAtMost(a: seq<Readiness>, b: seq<Readiness>, i: nat)
    requires AscendingReadiness(a) && AscendingReadiness(b) && i < |a| == |b|
    requires forall k :: 0 <= k < |a| ==> a[k] in b
    ensures Place(b, a[i]) <= i
    decreases |a| - i
  {
    if i + 1 < |a| {
      PlaceAtMost(a, b, i + 1);
      PlacesIncrease(a, b, i, i + 1);
    }
  }

  lemma SubsequenceOfSameLength(a: seq<Readiness>, b: seq<Readiness>)
    requires AscendingReadiness(a) && AscendingReadiness(b) && |a| == |b|
    requires forall k :: 0 <= k < |a| ==> a[k] in b
    ensures a == b
  {
    forall i | 0 <= i < |a| ensures a[i] == b[i] {
      PlaceAtLeast(a, b, i);
      PlaceAtMost(a, b, i);
    }
  }

  lemma AscendingImage(roster: seq<SlotState>)
    ensures AscendingReadiness(ReadinessOf(roster)) <==> Ascending(roster)
  {
    var rs := ReadinessOf(roster);
    if AscendingReadiness(rs) {
      forall i, j | 0 <= i < j < |roster| ensures Less(roster[i].slot, roster[j].slot) {
        assert Less(rs[i].slot, rs[j].slot);
      }
    }
  }

  lemma DecodedRoster(records: seq<SlotRecord>, rs: seq<Readiness>)
    requires AllFound(records, rs) && ValidRoster(Sort(Join(records, rs)))
    ensures var roster := Sort(Join(records, rs));
            Ascending(roster) && |roster| == |records| && forall r :: r in ReadinessOf(roster) ==> r in rs
  {
    var joined := Join(records, rs);
    var roster := Sort(joined);
    ValidRosterIsPermutationInvariant(roster, joined);
    SortAscending(joined);
    forall r | r in ReadinessOf(roster) ensures r in rs {
      var i :| 0 <= i < |roster| && ReadinessOf(roster)[i] == r;
      assert roster[i] in multiset(joined);
      var j :| 0 <= j < |joined| && joined[j] == roster[i];
      assert rs[EntryIndex(rs, records[j].slot)] == r;
    }
  }

  /** Re-encoding a decoded payload gives the same bytes exactly when the
      payload listed its slots in ascending order. */
  lemma EncodeDecodedIff(id: Id, sealed: bool, records: seq<SlotRecord>, version: u64, payload: Bytes)
    requires DecodeCore(id, sealed, records, version, payload).Some?
    ensures var a := DecodeCore(id, sealed, records, version, payload).value;
            EncodeCore(a) == Some(payload) <==> AscendingReadiness(ParseCore(payload).value.readiness)
  {
    var a := DecodeCore(id, sealed, records, version, payload).value;
    var image := ParseCore(payload).value;
    ParseExact(payload);
    ValidImagePrintable(a);
    ParsePrinted(ImageOf(a));
    DecodedRoster(records, image.readiness);
    AscendingImage(a.roster);
    if AscendingReadiness(image.readiness) {
      SubsequenceOfSameLength(ReadinessOf(a.roster), image.readiness);
    }
  }

  /*
   * The snapshot intent: the whole aggregate, identities included
   */

  function IntentBody(a: Aggregate): Bytes {
    TextBytes(a.id) + (LittleEndian(a.version, 8) + ([PhaseByte(a.phase)] + (BoolBytes(a.sealed) +
    (ManagerBytes(a.manager) + CountedBytes(a.roster, SlotStateBytes)))))
  }

  function IntentBytes(a: Aggregate): Bytes {
    HeaderBytes(INTENT_MAGIC) + IntentBody(a)
  }

  /** The fields before the roster, as an aggregate without one. */
  function GetIntentFields(input: Bytes): Read<Aggregate> {
    var (id, rest) :- GetText(input, MAX_IDENTITY);
    var (version, rest) :- GetVersion(rest);
    var (phase, rest) :- GetPhase(rest);
    var (sealed, rest) :- GetBool(rest);
    var (manager, rest) :- GetManager(rest);
    Got(Aggregate(id, version, phase, sealed, manager, []), rest)
  }

  function ParseIntentBody(input: Bytes): Read<Aggregate> {
    var (a, rest) :- GetIntentFields(input);
    var (roster, rest) :- GetCounted(rest, GetSlotState);
    Got(a.(roster := roster), rest)
  }

  function ParseIntent(input: Bytes): Option<Aggregate> {
    var header := GetHeader(input, INTENT_MAGIC);
    if header.Malformed? then None
    else
      var body := ParseIntentBody(header.rest);
      if body.Got? && body.rest == [] then Some(body.value) else None
  }

  function EncodeIntent(a: Aggregate): Option<Bytes> {
    if ValidAggregate(a) && |a.id| <= MAX_IDENTITY then Some(IntentBytes(a)) else None
  }

  function DecodeIntent(payload: Bytes): Option<Aggregate> {
    var parsed := ParseIntent(payload);
    if parsed.None? then None
    else
      var a := parsed.value.(roster := Sort(parsed.value.roster));
      if ValidAggregate(a) then Some(a) else None
  }

  lemma IntentBodyRoundTrip(a: Aggregate)
    requires EncodeIntent(a).Some?
    ensures ParseIntentBody(IntentBody(a)) == Got(a, [])
  {
    ValidImagePrintable(a);
    var r5 := CountedBytes(a.roster, SlotStateBytes);
    var r4 := ManagerBytes(a.manager) + r5;
    var r3 := BoolBytes(a.sealed) + r4;
    var r2 := [PhaseByte(a.phase)] + r3;
    var r1 := LittleEndian(a.version, 8) + r2;
    TextRoundTrip(a.id, r1, MAX_IDENTITY);
    VersionRoundTrip(a.version, r2);
    PhaseRoundTrip(a.phase, r3);
    BoolRoundTrip(a.sealed, r4);
    ManagerRoundTrip(a.manager, r5);
    forall k, tail: Bytes | 0 <= k < |a.roster|
      ensures GetSlotState(SlotStateBytes(a.roster[k]) + tail) == Got(a.roster[k], tail)
    {
      SlotStateRoundTrip(a.roster[k], tail);
    }
    CountedRoundTrip(a.roster, SlotStateBytes, GetSlotState, []);
    assert r5 + [] == r5;
  }

  lemma ParsePrintedIntent(a: Aggregate)
    requires EncodeIntent(a).Some?
    ensures ParseIntent(IntentBytes(a)) == Some(a)
  {
    HeaderRoundTrip(INTENT_MAGIC, IntentBody(a));
    IntentBodyRoundTrip(a);
  }

  lemma IntentBodyExact(input: Bytes)
    ensures var r := ParseIntentBody(input);
            r.Got? && r.rest == [] ==> input == IntentBody(r.value)
  {
    var r := ParseIntentBody(input);
    if r.Got? && r.rest == [] {
      TextExact(input, MAX_IDENTITY);
      var id := GetText(input, MAX_IDENTITY);
      VersionExact(id.rest);
      var version := GetVersion(id.rest);
      PhaseExact(version.rest);
      var phase := GetPhase(version.rest);
      BoolExact(phase.rest);
      var sealed := GetBool(phase.rest);
      ManagerExact(sealed.rest);
      var manager := GetManager(sealed.rest);
      forall b: Bytes | GetSlotState(b).Got?
        ensures b == SlotStateBytes(GetSlotState(b).value) + GetSlotState(b).rest
      {
        SlotStateExact(b);
      }
      CountedExact(manager.rest, SlotStateBytes, GetSlotState);
      assert manager.rest == CountedBytes(r.value.roster, SlotStateBytes);
    }
  }

  lemma ParseIntentExact(input: Bytes)
    requires ParseIntent(input).Some?
    ensures input == IntentBytes(ParseIntent(input).value)
  {
    HeaderExact(input, INTENT_MAGIC);
    IntentBodyExact(GetHeader(input, INTENT_MAGIC).rest);
  }

  /** A snapshot intent carries the whole aggregate, in slot order. */
  lemma DecodeEncodedIntent(a: Aggregate)
    requires EncodeIntent(a).Some?
    ensures DecodeIntent(EncodeIntent(a).value) == Some(a.(roster := Sort(a.roster)))
  {
    ParsePrintedIntent(a);
    SortedStaysValid(a);
  }

  /** The other way round, the bytes come back exactly when the intent listed
      its slots in ascending order. */
  lemma EncodeDecodedIntentIff(payload: Bytes)
    requires DecodeIntent(payload).Some?
    ensures var a := DecodeIntent(payload).value;
            EncodeIntent(a) == Some(payload) <==> Ascending(ParseIntent(payload).value.roster)
  {
    var a := DecodeIntent(payload).value;
    var parsed := ParseIntent(payload).value;
    ParseIntentExact(payload);
    ParsedIntentShort(payload);
    ParsePrintedIntent(a);
    ValidImagePrintable(a);
    ValidRosterIsPermutationInvariant(a.roster, parsed.roster);
    SortAscending(parsed.roster);
    if Ascending(parsed.roster) {
      SortFixesAscending(parsed.roster);
    }
  }

  lemma ParsedIntentShort(payload: Bytes)
    requires ParseIntent(payload).Some?
    ensures |ParseIntent(payload).value.id| <= MAX_IDENTITY
  {
    TextExact(GetHeader(payload, INTENT_MAGIC).rest, MAX_IDENTITY);
  }
}
