/** The bytes of a journaled command: a magic, the name of its kind, and its
    content in length-prefixed fields. */
module CommandPayload {
  import opened Basics
  import opened ByteCodec
  import opened CampaignState
  import opened CampaignStore

  const COMMAND_MAGIC: Bytes := [0x53, 0x54, 0x52, 0x45, 0x43, 0x4D, 0x30, 0x31]

  function Ascii(s: string): (b: Bytes)
    ensures |b| == |s|
    ensures forall i :: 0 <= i < |s| ==> b[i] == s[i] as int % 256
  {
    seq(|s|, i requires 0 <= i < |s| => s[i] as int % 256)
  }

  function EditKind(e: Edit): string {
    match e
    case Add(_) => "AddRosterSlot"
    case Remove(_) => "RemoveRosterSlot"
    case Replace(_) => "ReplaceRosterSlot"
    case Start(_) => "CommitCampaignStart"
    case Transfer(_, _) => "TransferSessionManager"
    case Ready(_, _) => "SetReady"
  }

  function Kind(p: Payload): string {
    match p
    case CreateCampaign(_) => "CreateCampaign"
    case EditCampaign(e) => EditKind(e)
    case CreateCandidate(_, _) => "CreateCheckpointCandidate"
    case SaveSlot(_, _) => "RecordCheckpointSlotSave"
    case CommitCheckpoint(_) => "CommitCheckpoint"
    case BeginRecovery(_, _) => "BeginRecovery"
    case RecoveryLoaded(_, _, _) => "RecoveryLoaded"
    case RestoreCheckpoint(_, _) => "RestoreCheckpoint"
    case SnapshotApplied(_, _, _, _) => "RecoverySnapshotApplied"
    case CompleteRecovery(_, _, _) => "CompleteRecovery"
  }

  /*
   * Numbers and attempts as text
   */

  /** `std::to_string` of an unsigned number. */
  function Decimal(n: nat): (d: Bytes)
    ensures |d| > 0
  {
    if n < 10 then [48 + n] else Decimal(n / 10) + [48 + n % 10]
  }

  function DecimalValue(d: Bytes): int {
    if d == [] then 0 else 10 * DecimalValue(d[..|d| - 1]) + d[|d| - 1] - 48
  }

  lemma {:induction false} DecimalReadsBack(n: nat)
    ensures DecimalValue(Decimal(n)) == n
  {
    var d := Decimal(n);
    if n >= 10 {
      DecimalReadsBack(n / 10);
      assert d[..|d| - 1] == Decimal(n / 10);
    } else {
      assert d[..|d| - 1] == [];
    }
  }

  lemma DecimalInjective(m: nat, n: nat)
    requires Decimal(m) == Decimal(n)
    ensures m == n
  {
    DecimalReadsBack(m);
    DecimalReadsBack(n);
  }

  /** A restore attempt is named by the campaign's hash and its entry revision. */
  function AttemptText(hash: Bytes, attempt: nat): Bytes {
    Ascii("restore-") + hash + Ascii("-r") + Decimal(attempt)
  }

  lemma AttemptTextInjective(hash: Bytes, m: nat, n: nat)
    requires AttemptText(hash, m) == AttemptText(hash, n)
    ensures m == n
  {
    var front := Ascii("restore-") + hash + Ascii("-r");
    assert AttemptText(hash, m)[|front|..] == Decimal(m);
    assert AttemptText(hash, n)[|front|..] == Decimal(n);
    DecimalInjective(m, n);
  }

  /*
   * Fields
   */

  datatype Part = Field(text: Bytes) | Word(value: u32) | Flag(on: bool)

  function PartBytes(p: Part): (b: Bytes)
    ensures |b| > 0
  {
    match p
    case Field(text) => TextBytes(text)
    case Word(value) => LittleEndian(value, 4)
    case Flag(b) => BoolBytes(b)
  }

  function PartsBytes(parts: seq<Part>): Bytes {
    if parts == [] then [] else PartBytes(parts[0]) + PartsBytes(parts[1..])
  }

  /** Two lists whose parts are of the same sorts, as far as both go. */
  predicate SameShape(p: seq<Part>, q: seq<Part>) {
    forall i :: 0 <= i < |p| && i < |q| ==>
      (p[i].Field? <==> q[i].Field?) && (p[i].Word? <==> q[i].Word?)
  }

  predicate Framable(p: seq<Part>) {
    forall i :: 0 <= i < |p| && p[i].Field? ==> |p[i].text| <= MAX_U32
  }

  /** One part can be read off the front of what follows it. */
  lemma FirstPart(p: Part, q: Part, pr: Bytes, qr: Bytes)
    requires PartBytes(p) + pr == PartBytes(q) + qr
    requires p.Field? ==> |p.text| <= MAX_U32
    requires q.Field? ==> |q.text| <= MAX_U32
    requires (p.Field? <==> q.Field?) && (p.Word? <==> q.Word?)
    ensures p == q && pr == qr
  {
    WidthLimits();
    match p
    case Field(text) =>
      TextRoundTrip(text, pr, MAX_U32);
      TextRoundTrip(q.text, qr, MAX_U32);
    case Word(value) =>
      ScalarRoundTrip(value, 4, pr);
      ScalarRoundTrip(q.value, 4, qr);
    case Flag(b) =>
      BoolRoundTrip(b, pr);
      BoolRoundTrip(q.on, qr);
  }

  /** Lists of parts of the same shape, of whatever length, are told apart by
      their bytes. */
  lemma {:induction false} PartsInjective(p: seq<Part>, q: seq<Part>)
    requires SameShape(p, q) && Framable(p) && Framable(q) && PartsBytes(p) == PartsBytes(q)
    ensures p == q
  {
    if p == [] || q == [] {
      assert p == [] ==> |PartsBytes(q)| == 0;
      assert q == [] ==> |PartsBytes(p)| == 0;
    } else {
      FirstPart(p[0], q[0], PartsBytes(p[1..]), PartsBytes(q[1..]));
      PartsInjective(p[1..], q[1..]);
      assert p == [p[0]] + p[1..] && q == [q[0]] + q[1..];
    }
  }

  /*
   * Payloads
   */

  function SlotParts(r: SlotRecord): seq<Part> { [Field(r.slot), Field(r.player), Field(r.binding)] }

  function RosterParts(roster: seq<SlotRecord>): seq<Part> {
    if roster == [] then [] else SlotParts(roster[0]) + RosterParts(roster[1..])
  }

  function EditParts(e: Edit): seq<Part> {
    match e
    case Add(s) => SlotParts(s)
    case Remove(id) => [Field(id)]
    case Replace(s) => SlotParts(s)
    case Start(m) => [Field(m)]
    case Transfer(actor, m) => [Field(actor), Field(m)]
    case Ready(m, ready) => [Field(m.campaign), Field(m.slot), Field(m.player), Field(m.binding), Flag(ready)]
  }

  function ArtifactParts(a: Artifact): seq<Part>
    requires a.fingerprintVersion <= MAX_U32 && a.metadataVersion <= MAX_U32
  {
    [Field(a.identity), Field(a.algorithm), Word(a.fingerprintVersion), Field(a.fingerprint),
     Word(a.metadataVersion), Field(a.metadata)]
  }

  predicate Renderable(p: Payload) {
    p.RecoveryLoaded? ==>
      p.proof.artifact.Some? && p.proof.artifact.value.fingerprintVersion <= MAX_U32
      && p.proof.artifact.value.metadataVersion <= MAX_U32
  }

  /** The fields of a payload after its kind; `hash` is the campaign's. */
  function Parts(hash: Bytes, p: Payload): seq<Part>
    requires Renderable(p)
  {
    match p
    case CreateCampaign(roster) => RosterParts(roster)
    case EditCampaign(e) => EditParts(e)
    case CreateCandidate(c, identity) => [Field(c), Field(identity)]
    case SaveSlot(c, s) => [Field(c), Field(s)]
    case CommitCheckpoint(c) => [Field(c)]
    case BeginRecovery(m, loadRequested) =>
      SlotParts(m) + [Field(Ascii(if loadRequested then "campaign-load" else "roster-loss"))]
    case RecoveryLoaded(n, c, x) =>
      [Field(AttemptText(hash, n)), Field(c)] + SlotParts(x.Record()) + ArtifactParts(x.artifact.value)
    case RestoreCheckpoint(n, c) => [Field(AttemptText(hash, n)), Field(c)]
    case SnapshotApplied(n, c, restore, m) =>
      [Field(AttemptText(hash, n)), Field(c), Field(Decimal(restore))] + SlotParts(m)
    case CompleteRecovery(n, c, restore) => [Field(AttemptText(hash, n)), Field(c), Field(Decimal(restore))]
  }

  function PayloadBytes(hash: Bytes, p: Payload): Bytes
    requires Renderable(p)
  {
    COMMAND_MAGIC + (TextBytes(Ascii(Kind(p))) + PartsBytes(Parts(hash, p)))
  }

  /** A number for each kind of command. */
  function Rank(p: Payload): nat {
    match p
    case CreateCampaign(_) => 0
    case EditCampaign(Add(_)) => 1
    case EditCampaign(Remove(_)) => 2
    case EditCampaign(Replace(_)) => 3
    case EditCampaign(Start(_)) => 4
    case EditCampaign(Transfer(_, _)) => 5
    case EditCampaign(Ready(_, _)) => 6
    case CreateCandidate(_, _) => 7
    case SaveSlot(_, _) => 8
    case CommitCheckpoint(_) => 9
    case BeginRecovery(_, _) => 10
    case RecoveryLoaded(_, _, _) => 11
    case RestoreCheckpoint(_, _) => 12
    case SnapshotApplied(_, _, _, _) => 13
    case CompleteRecovery(_, _, _) => 14
  }

  predicate SameKind(p: Payload, q: Payload) { Rank(p) == Rank(q) }

  /** The kind a name stands for: its length and three of its letters tell. */
  function RankOfName(length: nat, first: byte, third: byte, fourth: byte): nat {
    match length
    case 8 => 6
    case 13 => if first == 65 then 1 else 10
    case 14 => if first == 67 then 0 else 11
    case 16 => if first == 82 then 2 else if fourth == 109 then 9 else 14
    case 17 => if third == 112 then 3 else 12
    case 19 => 4
    case 22 => 5
    case 23 => 13
    case 24 => 8
    case _ => 7
  }

  lemma NameTellsRank(p: Payload)
    ensures var k := Ascii(Kind(p)); |k| >= 8 && RankOfName(|k|, k[0], k[2], k[3]) == Rank(p)
  {
  }

  lemma KindNames(p: Payload, q: Payload)
    requires Ascii(Kind(p)) == Ascii(Kind(q))
    ensures SameKind(p, q)
  {
    hide Ascii, Kind, Rank, RankOfName;
    NameTellsRank(p);
    NameTellsRank(q);
  }

  lemma SameEditSameShape(d: Edit, e: Edit)
    requires SameKind(EditCampaign(d), EditCampaign(e))
    ensures SameShape(EditParts(d), EditParts(e))
  {
  }

  lemma SameKindSameShape(hash: Bytes, p: Payload, q: Payload)
    requires Renderable(p) && Renderable(q) && SameKind(p, q)
    ensures SameShape(Parts(hash, p), Parts(hash, q))
  {
    hide Ascii, EditParts;
    if p.CreateCampaign? {
      RosterPartsAreFields(p.roster);
      RosterPartsAreFields(q.roster);
    } else if p.EditCampaign? {
      SameEditSameShape(p.edit, q.edit);
    }
  }

  lemma {:induction false} RosterPartsAreFields(roster: seq<SlotRecord>)
    ensures |RosterParts(roster)| == 3 * |roster|
    ensures forall i :: 0 <= i < |RosterParts(roster)| ==> RosterParts(roster)[i].Field?
  {
    if roster != [] {
      RosterPartsAreFields(roster[1..]);
    }
  }

  lemma {:induction false} RosterPartsInjective(a: seq<SlotRecord>, b: seq<SlotRecord>)
    requires RosterParts(a) == RosterParts(b)
    ensures a == b
  {
    RosterPartsAreFields(a);
    RosterPartsAreFields(b);
    if a != [] {
      var p, q := RosterParts(a), RosterParts(b);
      assert p[0] == q[0] && p[1] == q[1] && p[2] == q[2];
      assert p[3..] == RosterParts(a[1..]) && q[3..] == RosterParts(b[1..]);
      RosterPartsInjective(a[1..], b[1..]);
      assert a == [a[0]] + a[1..] && b == [b[0]] + b[1..];
    }
  }

  lemma CausesDiffer()
    ensures Ascii("campaign-load") != Ascii("roster-loss")
  {
    assert |Ascii("campaign-load")| == 13 && |Ascii("roster-loss")| == 11;
  }

  /** The parts of two payloads of one kind differ when the payloads do. */
  lemma PartsDetermine(hash: Bytes, p: Payload, q: Payload)
    requires Renderable(p) && Renderable(q) && SameKind(p, q) && Parts(hash, p) == Parts(hash, q)
    ensures p == q
  {
    hide Ascii, EditParts, RosterParts, Decimal, AttemptText;
    var a, b := Parts(hash, p), Parts(hash, q);
    match p
    case CreateCampaign(roster) => RosterPartsInjective(roster, q.roster);
    case EditCampaign(e) => EditPartsDetermine(e, q.edit);
    case BeginRecovery(m, loadRequested) =>
      CausesDiffer();
      assert a[0] == b[0] && a[1] == b[1] && a[2] == b[2] && a[3] == b[3];
    case CreateCandidate(_, _) =>
    case SaveSlot(_, _) =>
    case CommitCheckpoint(_) =>
    case _ => RecoveryPartsDetermine(hash, p, q);
  }

  lemma RecoveryPartsDetermine(hash: Bytes, p: Payload, q: Payload)
    requires p.RecoveryLoaded? || p.RestoreCheckpoint? || p.SnapshotApplied? || p.CompleteRecovery?
    requires Renderable(p) && Renderable(q) && SameKind(p, q) && Parts(hash, p) == Parts(hash, q)
    ensures p == q
  {
    hide Ascii, EditParts, RosterParts, Decimal, AttemptText;
    var a, b := Parts(hash, p), Parts(hash, q);
    match p
    case RecoveryLoaded(n, c, x) =>
      assert a[0] == b[0] && a[1] == b[1] && a[2] == b[2] && a[3] == b[3] && a[4] == b[4];
      assert a[5] == b[5] && a[6] == b[6] && a[7] == b[7] && a[8] == b[8] && a[9] == b[9] && a[10] == b[10];
      AttemptTextInjective(hash, n, q.attempt);
    case RestoreCheckpoint(n, c) =>
      AttemptTextInjective(hash, n, q.attempt);
    case SnapshotApplied(n, c, restore, m) =>
      assert a[0] == b[0] && a[1] == b[1] && a[2] == b[2] && a[3] == b[3] && a[4] == b[4] && a[5] == b[5];
      AttemptTextInjective(hash, n, q.attempt);
      DecimalInjective(restore, q.restore);
    case CompleteRecovery(n, c, restore) =>
      AttemptTextInjective(hash, n, q.attempt);
      DecimalInjective(restore, q.restore);
  }

  lemma EditPartsDetermine(d: Edit, e: Edit)
    requires SameKind(EditCampaign(d), EditCampaign(e)) && EditParts(d) == EditParts(e)
    ensures d == e
  {
    var a, b := EditParts(d), EditParts(e);
    assert a[0] == b[0];
    if d.Add? || d.Replace? {
      assert a[1] == b[1] && a[2] == b[2];
    } else if d.Ready? {
      assert a[1] == b[1] && a[2] == b[2] && a[3] == b[3] && a[4] == b[4];
    }
  }

  lemma KindIsFramable(p: Payload)
    ensures |Ascii(Kind(p))| <= 128
  {
  }

  /** Different commands never share their bytes: neither across kinds nor within
      one, however their fields are cut. */
  lemma PayloadInjective(hash: Bytes, p: Payload, q: Payload)
    requires Renderable(p) && Renderable(q) && Framable(Parts(hash, p)) && Framable(Parts(hash, q))
    requires PayloadBytes(hash, p) == PayloadBytes(hash, q)
    ensures p == q
  {
    hide Parts, PartsBytes, Kind, SameKind, TextBytes;
    var kp, kq := Field(Ascii(Kind(p))), Field(Ascii(Kind(q)));
    KindIsFramable(p);
    KindIsFramable(q);
    var rp, rq := PartsBytes(Parts(hash, p)), PartsBytes(Parts(hash, q));
    assert PayloadBytes(hash, p)[8..] == PartBytes(kp) + rp;
    assert PayloadBytes(hash, q)[8..] == PartBytes(kq) + rq;
    FirstPart(kp, kq, rp, rq);
    KindNames(p, q);
    SameKindSameShape(hash, p, q);
    PartsInjective(Parts(hash, p), Parts(hash, q));
    PartsDetermine(hash, p, q);
  }

  /*
   * Reading a creation back
   */

  function GetSlot(input: Bytes): Read<SlotRecord> {
    var (slot, rest) :- GetText(input, MAX_IDENTITY);
    var (player, rest) :- GetText(rest, MAX_IDENTITY);
    var (binding, rest) :- GetText(rest, MAX_IDENTITY);
    Got(SlotRecord(slot, player, binding), rest)
  }

  lemma GetSlotShrinks(input: Bytes)
    ensures GetSlot(input).Got? ==> |GetSlot(input).rest| < |input|
  {
  }

  /** Slots up to the end of the input, but no more than there is room for. */
  function GetSlots(input: Bytes, room: nat): Option<seq<SlotRecord>>
    decreases room
  {
    if input == [] then Some([])
    else if room == 0 || GetSlot(input).Malformed? then None
    else
      var more := GetSlots(GetSlot(input).rest, room - 1);
      if more.None? then None else Some([GetSlot(input).value] + more.value)
  }

  function DecodeCreate(payload: Bytes): Option<seq<SlotRecord>> {
    if !(COMMAND_MAGIC <= payload) then None
    else
      var kind := GetText(payload[8..], MAX_IDENTITY);
      if kind.Malformed? || kind.value != Ascii("CreateCampaign") then None
      else
        var roster := GetSlots(kind.rest, MAX_ROSTER);
        if roster.Some? && RosterFault(States(roster.value), true) == NoError then roster else None
  }

  function SlotBytes(r: SlotRecord): Bytes { TextBytes(r.slot) + (TextBytes(r.player) + TextBytes(r.binding)) }

  lemma SlotPartsBytes(r: SlotRecord, rest: seq<Part>)
    ensures PartsBytes(SlotParts(r) + rest) == SlotBytes(r) + PartsBytes(rest)
  {
    var a := SlotParts(r) + rest;
    assert a[1..][1..] == a[2..] && a[2..][1..] == a[3..] == rest;
    assert PartsBytes(a) == TextBytes(r.slot) + PartsBytes(a[1..]);
    assert PartsBytes(a[1..]) == TextBytes(r.player) + PartsBytes(a[2..]);
    assert PartsBytes(a[2..]) == TextBytes(r.binding) + PartsBytes(rest);
  }

  lemma SlotReadsBack(r: SlotRecord, rest: Bytes)
    requires ValidSlotIdentity(ToSlotState(r))
    ensures GetSlot(SlotBytes(r) + rest) == Got(r, rest)
  {
    var r2 := TextBytes(r.binding) + rest;
    var r1 := TextBytes(r.player) + r2;
    assert SlotBytes(r) + rest == TextBytes(r.slot) + r1;
    TextRoundTrip(r.binding, rest, MAX_IDENTITY);
    TextRoundTrip(r.player, r2, MAX_IDENTITY);
    TextRoundTrip(r.slot, r1, MAX_IDENTITY);
  }

  lemma NoPartsNoBytes()
    ensures PartsBytes(RosterParts([])) == []
  {
  }

  lemma {:induction false} SlotsReadBack(roster: seq<SlotRecord>, room: nat)
    requires |roster| <= room
    requires forall i :: 0 <= i < |roster| ==> ValidSlotIdentity(ToSlotState(roster[i]))
    ensures GetSlots(PartsBytes(RosterParts(roster)), room) == Some(roster)
    decreases room
  {
    hide GetSlot, SlotBytes, TextBytes, ValidSlotIdentity;
    if roster == [] {
      NoPartsNoBytes();
    } else {
      hide PartsBytes;
      var input := PartsBytes(RosterParts(roster));
      SlotPartsBytes(roster[0], RosterParts(roster[1..]));
      SlotReadsBack(roster[0], PartsBytes(RosterParts(roster[1..])));
      GetSlotShrinks(input);
      SlotsReadBack(roster[1..], room - 1);
      assert roster == [roster[0]] + roster[1..];
    }
  }

  /** The payload of a created campaign decodes to the roster it was created with. */
  lemma CreationReadsBack(hash: Bytes, roster: seq<SlotRecord>)
    requires ValidRoster(States(roster))
    ensures DecodeCreate(PayloadBytes(hash, CreateCampaign(roster))) == Some(roster)
  {
    hide TextBytes, PartsBytes, GetSlots, Ascii;
    var payload := PayloadBytes(hash, CreateCampaign(roster));
    var rest := PartsBytes(RosterParts(roster));
    assert payload[8..] == TextBytes(Ascii("CreateCampaign")) + rest;
    KindIsFramable(CreateCampaign(roster));
    TextRoundTrip(Ascii("CreateCampaign"), rest, MAX_IDENTITY);
    RosterFaultIff(States(roster), true);
    forall i | 0 <= i < |roster| ensures ValidSlotIdentity(ToSlotState(roster[i])) {
      assert ValidSlotIdentity(States(roster)[i]);
    }
    SlotsReadBack(roster, MAX_ROSTER);
  }

  lemma SlotExact(input: Bytes)
    requires GetSlot(input).Got?
    ensures input == SlotBytes(GetSlot(input).value) + GetSlot(input).rest
  {
    hide GetText, TextBytes;
    TextExact(input, MAX_IDENTITY);
    var slot := GetText(input, MAX_IDENTITY);
    TextExact(slot.rest, MAX_IDENTITY);
    var player := GetText(slot.rest, MAX_IDENTITY);
    TextExact(player.rest, MAX_IDENTITY);
    var binding := GetText(player.rest, MAX_IDENTITY);
    var s, p, b := TextBytes(slot.value), TextBytes(player.value), TextBytes(binding.value);
    assert input == s + (p + (b + binding.rest)) == (s + (p + b)) + binding.rest;
  }

  lemma {:induction false} SlotsExact(input: Bytes, room: nat)
    requires GetSlots(input, room).Some?
    ensures input == PartsBytes(RosterParts(GetSlots(input, room).value))
    decreases room
  {
    hide GetSlot, SlotBytes;
    if input == [] {
      NoPartsNoBytes();
    } else {
      hide PartsBytes;
      var one := GetSlot(input);
      var more := GetSlots(one.rest, room - 1).value;
      SlotExact(input);
      SlotsExact(one.rest, room - 1);
      assert ([one.value] + more)[1..] == more;
      SlotPartsBytes(one.value, RosterParts(more));
    }
  }

  /** A payload decodes to a roster iff it is the payload of a campaign created with it and
      the roster is a valid one. */
  lemma DecodedIff(hash: Bytes, payload: Bytes, roster: seq<SlotRecord>)
    ensures DecodeCreate(payload) == Some(roster) <==>
            ValidRoster(States(roster)) && payload == PayloadBytes(hash, CreateCampaign(roster))
  {
    hide TextBytes, PartsBytes, GetSlots, GetText, Ascii, RosterFault, ValidRoster;
    if DecodeCreate(payload) == Some(roster) {
      RosterFaultIff(States(roster), true);
      TextExact(payload[8..], MAX_IDENTITY);
      SlotsExact(GetText(payload[8..], MAX_IDENTITY).rest, MAX_ROSTER);
      assert payload == COMMAND_MAGIC + payload[8..];
    } else if ValidRoster(States(roster)) && payload == PayloadBytes(hash, CreateCampaign(roster)) {
      CreationReadsBack(hash, roster);
    }
  }

  /** Reads a creation payload from front to back. */
  method DecodeCreateCampaignPayload(payload: Bytes) returns (roster: Option<seq<SlotRecord>>)
    ensures roster == DecodeCreate(payload)
  {
    hide GetText, GetSlot, RosterFault;
    if |payload| < 8 || payload[..8] != COMMAND_MAGIC {
      assert !(COMMAND_MAGIC <= payload);
      return None;
    }
    assert COMMAND_MAGIC <= payload;
    var kind := GetText(payload[8..], MAX_IDENTITY);
    if kind.Malformed? || kind.value != Ascii("CreateCampaign") {
      return None;
    }
    var rest := kind.rest;
    var slots: seq<SlotRecord> := [];
    ghost var all := GetSlots(rest, MAX_ROSTER);
    assert all.Some? ==> [] + all.value == all.value;
    while rest != []
      invariant |slots| <= MAX_ROSTER
      invariant var more := GetSlots(rest, MAX_ROSTER - |slots|);
                all == if more.None? then None else Some(slots + more.value)
      decreases |rest|
    {
      if |slots| >= MAX_ROSTER {
        return None;
      }
      var slot := GetSlot(rest);
      if slot.Malformed? {
        return None;
      }
      GetSlotShrinks(rest);
      ghost var more := GetSlots(slot.rest, MAX_ROSTER - |slots| - 1);
      assert more.Some? ==> slots + ([slot.value] + more.value) == (slots + [slot.value]) + more.value;
      slots := slots + [slot.value];
      rest := slot.rest;
    }
    assert slots + [] == slots;
    var error := ValidateRoster(States(slots), true);
    return if error == NoError then Some(slots) else None;
  }
}
