/** The writer and reader the codec is run with, and the codec's entry points. */
module CodecBuffers {
  import opened Basics
  import opened ByteCodec
  import opened CampaignState
  import opened CampaignCoreCodec

  /** Appends to a payload and refuses to grow it past its limit. */
  class Writer {
    var output: Bytes

    constructor ()
      ensures output == []
    {
      output := [];
    }

    method Scalar(value: nat, width: nat) returns (ok: bool)
      requires value < Pow256(width)
      modifies this
      ensures ok <==> |old(output)| + width <= MAX_PAYLOAD
      ensures output == old(output) + if ok then LittleEndian(value, width) else []
    {
      if |output| + width > MAX_PAYLOAD {
        return false;
      }
      var rest := value;
      for index := 0 to width
        invariant old(output) + LittleEndian(value, width) == output + LittleEndian(rest, width - index)
      {
        assert LittleEndian(rest, width - index) == [rest % 256] + LittleEndian(rest / 256, width - index - 1);
        output := output + [rest % 256];
        rest := rest / 256;
      }
      return true;
    }

    method Bool(value: bool) returns (ok: bool)
      modifies this
      ensures ok <==> |old(output)| + 1 <= MAX_PAYLOAD
      ensures output == old(output) + if ok then BoolBytes(value) else []
    {
      WidthLimits();
      ok := Scalar(if value then 1 else 0, 1);
    }

    method Raw(data: Bytes) returns (ok: bool)
      modifies this
      ensures ok <==> |old(output)| + |data| <= MAX_PAYLOAD
      ensures output == old(output) + if ok then data else []
    {
      if |data| > MAX_PAYLOAD || |output| > MAX_PAYLOAD - |data| {
        return false;
      }
      output := output + data;
      return true;
    }

    /** A text that does not fit may leave its length behind. */
    method Text(s: Bytes) returns (ok: bool)
      modifies this
      ensures ok <==> |s| <= MAX_IDENTITY && |old(output)| + 4 + |s| <= MAX_PAYLOAD
      ensures ok ==> output == old(output) + TextBytes(s)
      ensures !ok ==> old(output) <= output
    {
      ok := |s| <= MAX_IDENTITY;
      if ok {
        WidthLimits();
        ok := Scalar(|s|, 4);
      }
      if ok {
        ok := Raw(s);
      }
    }
  }

  /** Reads a payload from front to back, never past its end. */
  class Reader {
    const input: Bytes
    var offset: nat

    ghost predicate Valid()
      reads this
    {
      offset <= |input|
    }

    ghost function Rest(): Bytes
      reads this
      requires Valid()
    {
      input[offset..]
    }

    constructor (payload: Bytes)
      ensures Valid() && input == payload && Rest() == payload
    {
      input := payload;
      offset := 0;
    }

    method Scalar(width: nat) returns (ok: bool, value: nat)
      requires Valid()
      modifies this
      ensures Valid()
      ensures ok == GetScalar(old(Rest()), width).Got?
      ensures ok ==> GetScalar(old(Rest()), width) == Got(value, Rest())
      ensures !ok ==> offset == old(offset)
    {
      if |input| - offset < width {
        return false, 0;
      }
      value := 0;
      var start := offset;
      for index := 0 to width
        invariant offset == start + index
        invariant value == Number(input[start..offset])
      {
        NumberSnoc(input[start..offset], input[offset]);
        assert input[start..offset] + [input[offset]] == input[start..offset + 1];
        value := value + input[offset] * Pow256(index);
        offset := offset + 1;
      }
      assert old(Rest())[..width] == input[start..offset] && old(Rest())[width..] == Rest();
      return true, value;
    }

    method Bool() returns (ok: bool, value: bool)
      requires Valid()
      modifies this
      ensures Valid() && old(offset) <= offset
      ensures ok == GetBool(old(Rest())).Got?
      ensures ok ==> GetBool(old(Rest())) == Got(value, Rest())
    {
      if offset < |input| {
        OneByte(Rest());
      }
      var read, n := Scalar(1);
      return read && n <= 1, n != 0;
    }

    method Magic(magic: Bytes) returns (ok: bool)
      requires Valid()
      modifies this
      ensures Valid()
      ensures ok == GetMagic(old(Rest()), magic).Got?
      ensures ok ==> GetMagic(old(Rest()), magic) == Got((), Rest())
    {
      if |input| - offset < |magic| || input[offset..offset + |magic|] != magic {
        return false;
      }
      assert magic <= Rest();
      offset := offset + |magic|;
      return true;
    }

    method Text() returns (ok: bool, value: Bytes)
      requires Valid()
      modifies this
      ensures Valid() && old(offset) <= offset
      ensures ok == GetText(old(Rest()), MAX_IDENTITY).Got?
      ensures ok ==> GetText(old(Rest()), MAX_IDENTITY) == Got(value, Rest())
    {
      var size: nat;
      ok, size := Scalar(4);
      if !ok || size > MAX_IDENTITY || |input| - offset < size {
        return false, [];
      }
      value := input[offset..offset + size];
      assert Rest()[..size] == value && Rest()[size..] == input[offset + size..];
      offset := offset + size;
    }

    method Done() returns (done: bool)
      requires Valid()
      ensures done <==> Rest() == []
    {
      return offset == |input|;
    }

    method Phase() returns (ok: bool, phase: Phase)
      requires Valid()
      modifies this
      ensures Valid()
      ensures ok == GetPhase(old(Rest())).Got?
      ensures ok ==> GetPhase(old(Rest())) == Got(phase, Rest())
    {
      var code: nat;
      ok, code := Scalar(1);
      if !ok || PhaseOf(code).None? {
        return false, Lobby;
      }
      return true, PhaseOf(code).value;
    }

    method Manager() returns (ok: bool, manager: Option<Id>)
      requires Valid()
      modifies this
      ensures Valid()
      ensures ok == GetManager(old(Rest())).Got?
      ensures ok ==> GetManager(old(Rest())) == Got(manager, Rest())
    {
      var has: bool;
      ok, has := Bool();
      manager := None;
      if ok && has {
        var id: Bytes;
        ok, id := Text();
        manager := Some(id);
      }
    }
  }

  method ValidateAggregate(a: Aggregate) returns (ok: bool)
    ensures ok == ValidAggregate(a)
  {
    if a.id == [] || a.version == 0 {
      return false;
    }
    var roster := ValidateRoster(a.roster, !a.sealed);
    if roster != NoError {
      return false;
    }
    if !a.sealed && (a.phase != Lobby || a.manager.Some?) {
      return false;
    }
    if a.sealed && (a.phase == Lobby || a.manager.None?) {
      return false;
    }
    return a.manager.None? || IsMember(a.roster, a.manager.value);
  }

  /*
   * Encoding
   */

  lemma {:induction false} PrintedBound<T>(items: seq<T>, put: T -> Bytes, most: nat)
    requires forall i :: 0 <= i < |items| ==> |put(items[i])| <= most
    ensures |Printed(items, put)| <= |items| * most
  {
    if items != [] {
      PrintedBound(items[1..], put, most);
      assert |items| * most == most + |items[1..]| * most;
    }
  }

  lemma {:induction false} PrintedAppend<T>(items: seq<T>, n: nat, put: T -> Bytes)
    requires n < |items|
    ensures Printed(items[n..], put) == put(items[n]) + Printed(items[n + 1..], put)
  {
    assert items[n..][1..] == items[n + 1..];
  }

  /** Encoding a valid aggregate never meets the payload limit. */
  lemma CoreFits(a: Aggregate)
    requires ValidAggregate(a)
    ensures |CoreBytes(ImageOf(a))| <= 1488
  {
    ValidImagePrintable(a);
    PrintedBound(ImageOf(a).readiness, EntryBytes, 133);
  }

  lemma IntentFits(a: Aggregate)
    requires EncodeIntent(a).Some?
    ensures |IntentBytes(a)| <= 4262
  {
    ValidImagePrintable(a);
    forall i | 0 <= i < |a.roster| ensures |SlotStateBytes(a.roster[i])| <= 397 {
      assert ValidSlotIdentity(a.roster[i]);
    }
    PrintedBound(a.roster, SlotStateBytes, 397);
  }

  lemma Appended(whole: Bytes, done: Bytes, item: Bytes, rest: Bytes)
    requires whole == done + (item + rest)
    ensures whole == (done + item) + rest
  {
  }

  method WriteManager(w: Writer, manager: Option<Id>, ghost rest: Bytes) returns (ok: bool)
    requires manager.Some? ==> |manager.value| <= MAX_IDENTITY
    requires |w.output| + |ManagerBytes(manager)| + |rest| <= MAX_PAYLOAD
    modifies w
    ensures ok && w.output == old(w.output) + ManagerBytes(manager)
  {
    ok := w.Bool(manager.Some?);
    if ok && manager.Some? {
      ok := w.Text(manager.value);
    }
  }

  method WriteReadiness(w: Writer, roster: seq<SlotState>) returns (ok: bool)
    requires forall i :: 0 <= i < |roster| ==> |roster[i].slot| <= MAX_IDENTITY
    requires |roster| <= MAX_ROSTER
    requires |w.output| + |CountedBytes(ReadinessOf(roster), EntryBytes)| <= MAX_PAYLOAD
    modifies w
    ensures ok && w.output == old(w.output) + CountedBytes(ReadinessOf(roster), EntryBytes)
  {
    ghost var rs := ReadinessOf(roster);
    ghost var whole := old(w.output) + CountedBytes(rs, EntryBytes);
    WidthLimits();
    ok := w.Scalar(|roster|, 4);
    assert rs[0..] == rs;
    for n := 0 to |roster|
      invariant ok
      invariant whole == w.output + Printed(rs[n..], EntryBytes)
    {
      PrintedAppend(rs, n, EntryBytes);
      ghost var done := w.output;
      ok := w.Text(roster[n].slot);
      if ok {
        ok := w.Bool(roster[n].ready);
      }
      assert w.output == done + EntryBytes(rs[n]);
      Appended(whole, done, EntryBytes(rs[n]), Printed(rs[n + 1..], EntryBytes));
    }
  }

  method WriteRoster(w: Writer, roster: seq<SlotState>) returns (ok: bool)
    requires forall i :: 0 <= i < |roster| ==> ValidSlotIdentity(roster[i])
    requires |roster| <= MAX_ROSTER
    requires |w.output| + |CountedBytes(roster, SlotStateBytes)| <= MAX_PAYLOAD
    modifies w
    ensures ok && w.output == old(w.output) + CountedBytes(roster, SlotStateBytes)
  {
    ghost var whole := old(w.output) + CountedBytes(roster, SlotStateBytes);
    WidthLimits();
    ok := w.Scalar(|roster|, 4);
    assert roster[0..] == roster;
    for n := 0 to |roster|
      invariant ok
      invariant whole == w.output + Printed(roster[n..], SlotStateBytes)
    {
      PrintedAppend(roster, n, SlotStateBytes);
      ghost var done := w.output;
      ok := WriteSlotState(w, roster[n]);
      Appended(whole, done, SlotStateBytes(roster[n]), Printed(roster[n + 1..], SlotStateBytes));
    }
  }

  method WriteSlotState(w: Writer, s: SlotState) returns (ok: bool)
    requires ValidSlotIdentity(s)
    requires |w.output| + |SlotStateBytes(s)| <= MAX_PAYLOAD
    modifies w
    ensures ok && w.output == old(w.output) + SlotStateBytes(s)
  {
    ok := w.Text(s.slot);
    if ok {
      ok := w.Text(s.player);
    }
    if ok {
      ok := w.Text(s.binding);
    }
    if ok {
      ok := w.Bool(s.ready);
    }
  }

  method WriteHeader(w: Writer, magic: Bytes) returns (ok: bool)
    requires |w.output| + |HeaderBytes(magic)| <= MAX_PAYLOAD
    modifies w
    ensures ok && w.output == old(w.output) + HeaderBytes(magic)
  {
    WidthLimits();
    ok := w.Raw(magic);
    if ok {
      ok := w.Scalar(CODEC_VERSION, 4);
    }
  }

  method WritePhase(w: Writer, phase: Phase) returns (ok: bool)
    requires |w.output| + 1 <= MAX_PAYLOAD
    modifies w
    ensures ok && w.output == old(w.output) + [PhaseByte(phase)]
  {
    WidthLimits();
    OneByteLittleEndian(PhaseByte(phase));
    ok := w.Scalar(PhaseByte(phase), 1);
  }

  lemma RightNested(o: Bytes, a: Bytes, b: Bytes, c: Bytes, d: Bytes)
    ensures o + a + b + c + d == o + (a + (b + (c + d)))
  {
  }

  method WriteCoreBody(w: Writer, a: Aggregate) returns (ok: bool)
    requires ValidAggregate(a) && |w.output| + |CoreBody(ImageOf(a))| <= MAX_PAYLOAD
    modifies w
    ensures ok && w.output == old(w.output) + CoreBody(ImageOf(a))
  {
    hide LittleEndian, Printed;
    ValidImagePrintable(a);
    WidthLimits();
    ghost var readiness := CountedBytes(ReadinessOf(a.roster), EntryBytes);
    ok := w.Scalar(a.version, 8);
    if ok {
      ok := WritePhase(w, a.phase);
    }
    if ok {
      ok := WriteManager(w, a.manager, readiness);
    }
    if ok {
      ShortSlots(a);
      ok := WriteReadiness(w, a.roster);
    }
    RightNested(old(w.output), LittleEndian(a.version, 8), [PhaseByte(a.phase)], ManagerBytes(a.manager), readiness);
  }

  lemma ShortSlots(a: Aggregate)
    requires ValidRoster(a.roster)
    ensures forall i :: 0 <= i < |a.roster| ==> |a.roster[i].slot| <= MAX_IDENTITY
  {
    forall i | 0 <= i < |a.roster| ensures |a.roster[i].slot| <= MAX_IDENTITY {
      assert ValidSlotIdentity(a.roster[i]);
    }
  }

  /** Fails exactly for aggregates that are not valid: a valid one always fits. */
  method EncodeCoreState(a: Aggregate) returns (payload: Option<Bytes>)
    ensures payload == EncodeCore(a)
  {
    var valid := ValidateAggregate(a);
    if !valid {
      return None;
    }
    CoreFits(a);
    var w := new Writer();
    var ok := WriteHeader(w, CORE_MAGIC);
    if ok {
      ok := WriteCoreBody(w, a);
    }
    assert w.output == CoreBytes(ImageOf(a));
    return if ok then Some(w.output) else None;
  }

  lemma OneByteLittleEndian(b: byte)
    ensures LittleEndian(b, 1) == [b]
  {
    assert LittleEndian(b, 1) == [b % 256] + LittleEndian(b / 256, 0);
  }

  /** Everything of the intent after the campaign identity. */
  method WriteIntentRest(w: Writer, a: Aggregate) returns (ok: bool)
    requires EncodeIntent(a).Some?
    requires w.output == HeaderBytes(INTENT_MAGIC) + TextBytes(a.id)
    modifies w
    ensures ok && w.output == IntentBytes(a)
  {
    hide LittleEndian, Printed, Number;
    IntentFits(a);
    ValidImagePrintable(a);
    WidthLimits();
    ghost var start := w.output;
    ghost var roster := CountedBytes(a.roster, SlotStateBytes);
    ghost var tail := BoolBytes(a.sealed) + (ManagerBytes(a.manager) + roster);
    ghost var rest := LittleEndian(a.version, 8) + ([PhaseByte(a.phase)] + tail);
    assert IntentBytes(a) == start + rest;
    ok := w.Scalar(a.version, 8);
    if ok {
      ok := WritePhase(w, a.phase);
    }
    ghost var middle := w.output;
    if ok {
      ok := w.Bool(a.sealed);
    }
    if ok {
      ok := WriteManager(w, a.manager, roster);
    }
    if ok {
      ok := WriteRoster(w, a.roster);
    }
    RightNested(middle, BoolBytes(a.sealed), ManagerBytes(a.manager), roster, []);
    RightNested(start, LittleEndian(a.version, 8), [PhaseByte(a.phase)], tail, []);
    assert roster + [] == roster && tail + [] == tail;
  }

  /** Fails for invalid aggregates and for campaign identities that are too long. */
  method EncodeSnapshotIntent(a: Aggregate) returns (payload: Option<Bytes>)
    ensures payload == EncodeIntent(a)
  {
    var valid := ValidateAggregate(a);
    if !valid {
      return None;
    }
    var w := new Writer();
    var ok := WriteHeader(w, INTENT_MAGIC);
    if ok {
      ok := w.Text(a.id);
    }
    if ok {
      ok := WriteIntentRest(w, a);
    }
    return if ok then Some(w.output) else None;
  }

  /*
   * Decoding
   */

  /** The reading of a list of which `done` has been read already. */
  function Continued<T>(done: seq<T>, more: Read<seq<T>>): Read<seq<T>> {
    if more.Malformed? then Malformed else Got(done + more.value, more.rest)
  }

  lemma ContinuedStep<T>(done: seq<T>, input: Bytes, count: nat, get: Bytes -> Read<T>)
    requires count > 0
    ensures var item := get(input);
            Continued(done, GetItems(input, count, get)) ==
            if item.Malformed? then Malformed
            else Continued(done + [item.value], GetItems(item.rest, count - 1, get))
  {
    var item := get(input);
    if item.Got? {
      var more := GetItems(item.rest, count - 1, get);
      if more.Got? {
        assert done + ([item.value] + more.value) == (done + [item.value]) + more.value;
      }
    }
  }

  ghost predicate Indexes(readiness: map<Id, bool>, done: seq<Readiness>) {
    && (forall k :: k in readiness <==> EntryIndex(done, k) < |done|)
    && (forall k :: k in readiness ==> readiness[k] == done[EntryIndex(done, k)].ready)
  }

  lemma IndexesSnoc(readiness: map<Id, bool>, done: seq<Readiness>, r: Readiness)
    requires Indexes(readiness, done) && r.slot !in readiness
    ensures Indexes(readiness[r.slot := r.ready], done + [r])
    ensures DistinctReadiness(done) ==> DistinctReadiness(done + [r])
  {
    var next := done + [r];
    forall k ensures EntryIndex(next, k) ==
      if EntryIndex(done, k) < |done| then EntryIndex(done, k) else if k == r.slot then |done| else |done| + 1
    {
      EntryIndexSnoc(done, r, k);
    }
  }

  lemma EntryIndexSnoc(done: seq<Readiness>, r: Readiness, k: Id)
    ensures EntryIndex(done + [r], k) ==
      if EntryIndex(done, k) < |done| then EntryIndex(done, k) else if k == r.slot then |done| else |done| + 1
  {
    var next := done + [r];
    var i, j := EntryIndex(done, k), EntryIndex(next, k);
    assert forall l :: 0 <= l < |done| ==> next[l] == done[l];
    assert next[|done|] == r;
    assert i < |done| ==> next[i].slot == k;
    assert j < |done| ==> done[j].slot == k;
  }

  lemma RepeatedEntry(readiness: map<Id, bool>, done: seq<Readiness>, r: Readiness, more: seq<Readiness>)
    requires Indexes(readiness, done) && r.slot in readiness
    ensures !DistinctReadiness(done + [r] + more)
  {
    var all := done + [r] + more;
    assert all[EntryIndex(done, r.slot)].slot == r.slot && all[|done|].slot == r.slot;
  }

  method ReadEntry(reader: Reader) returns (ok: bool, entry: Readiness)
    requires reader.Valid()
    modifies reader
    ensures reader.Valid()
    ensures ok == GetEntry(old(reader.Rest())).Got?
    ensures ok ==> GetEntry(old(reader.Rest())) == Got(entry, reader.Rest())
  {
    var slot: Bytes, ready: bool;
    entry := Readiness([], false);
    ok, slot := reader.Text();
    if ok {
      ok, ready := reader.Bool();
      entry := Readiness(slot, ready);
    }
  }

  /** Reads a readiness list, or reports that it is malformed or repeats a slot. */
  method ReadReadiness(reader: Reader, count: nat)
    returns (ok: bool, readiness: map<Id, bool>, ghost done: seq<Readiness>)
    requires reader.Valid()
    modifies reader
    ensures reader.Valid()
    ensures var all := GetItems(old(reader.Rest()), count, GetEntry);
            && (ok <==> all.Got? && DistinctReadiness(all.value))
            && (ok ==> all == Got(done, reader.Rest()) && Indexes(readiness, done))
  {
    hide GetEntry, Indexes, DistinctReadiness;
    ghost var all := GetItems(old(reader.Rest()), count, GetEntry);
    readiness, done := map[], [];
    assert all.Got? ==> [] + all.value == all.value;
    NothingIndexed();
    for n := 0 to count
      invariant reader.Valid()
      invariant all == Continued(done, GetItems(reader.Rest(), count - n, GetEntry))
      invariant Indexes(readiness, done) && DistinctReadiness(done)
    {
      ContinuedStep(done, reader.Rest(), count - n, GetEntry);
      var entry: Readiness;
      ok, entry := ReadEntry(reader);
      if !ok {
        return;
      }
      if entry.slot in readiness {
        ghost var more := GetItems(reader.Rest(), count - n - 1, GetEntry);
        if more.Got? {
          RepeatedEntry(readiness, done, entry, more.value);
        }
        return false, readiness, done;
      }
      IndexesSnoc(readiness, done, entry);
      readiness := readiness[entry.slot := entry.ready];
      done := done + [entry];
    }
    assert done + [] == done;
    ok := true;
  }

  lemma NothingIndexed()
    ensures Indexes(map[], []) && DistinctReadiness([])
  {
  }

  method ReadHeader(reader: Reader, magic: Bytes) returns (ok: bool)
    requires reader.Valid()
    modifies reader
    ensures reader.Valid()
    ensures ok == GetHeader(old(reader.Rest()), magic).Got?
    ensures ok ==> GetHeader(old(reader.Rest()), magic) == Got((), reader.Rest())
  {
    ok := reader.Magic(magic);
    if ok {
      var codec: nat;
      ok, codec := reader.Scalar(4);
      ok := ok && codec == CODEC_VERSION;
    }
  }

  method ReadVersion(reader: Reader) returns (ok: bool, version: nat)
    requires reader.Valid()
    modifies reader
    ensures reader.Valid()
    ensures ok == GetVersion(old(reader.Rest())).Got?
    ensures ok ==> GetVersion(old(reader.Rest())) == Got(version, reader.Rest())
  {
    VersionExact(reader.Rest());
    ok, version := reader.Scalar(8);
  }

  method JoinRoster(records: seq<SlotRecord>, readiness: map<Id, bool>, ghost rs: seq<Readiness>)
    returns (ok: bool, roster: seq<SlotState>)
    requires Indexes(readiness, rs)
    ensures ok == AllFound(records, rs)
    ensures ok ==> roster == Join(records, rs)
  {
    roster := [];
    for n := 0 to |records|
      invariant |roster| == n
      invariant forall i :: 0 <= i < n ==> records[i].slot in readiness
      invariant forall i :: 0 <= i < n ==>
        roster[i] == SlotState(records[i].slot, records[i].player, records[i].binding, readiness[records[i].slot])
    {
      if records[n].slot !in readiness {
        return false, roster;
      }
      roster := roster +
        [SlotState(records[n].slot, records[n].player, records[n].binding, readiness[records[n].slot])];
    }
    ok := true;
  }

  /** Reads the fields before the readiness list and checks the version. */
  method ReadCoreFields(reader: Reader, version: u64) returns (ok: bool, phase: Phase, manager: Option<Id>)
    requires reader.Valid()
    modifies reader
    ensures reader.Valid()
    ensures var fields := GetCoreFields(old(reader.Rest()));
            && (ok <==> fields.Got? && fields.value.0 == version)
            && (ok ==> fields == Got((version, phase, manager), reader.Rest()))
  {
    hide GetVersion, GetPhase, GetManager;
    phase, manager := Lobby, None;
    var stored: nat;
    ok, stored := ReadVersion(reader);
    if !ok || stored != version {
      return false, phase, manager;
    }
    ok, phase := reader.Phase();
    if !ok {
      return;
    }
    ok, manager := reader.Manager();
  }

  method ReadCounted(reader: Reader, expected: nat)
    returns (ok: bool, readiness: map<Id, bool>, ghost rs: seq<Readiness>)
    requires reader.Valid()
    modifies reader
    ensures reader.Valid()
    ensures var all := GetCounted(old(reader.Rest()), GetEntry);
            && (ok <==> all.Got? && |all.value| == expected && DistinctReadiness(all.value))
            && (ok ==> all == Got(rs, reader.Rest()) && Indexes(readiness, rs))
  {
    hide GetScalar, GetItems, GetEntry;
    readiness, rs := map[], [];
    var count: nat;
    ok, count := reader.Scalar(4);
    if ok {
      CountOfItems(reader.Rest(), count, GetEntry);
    }
    if !ok || count > MAX_ROSTER || count != expected {
      return false, readiness, rs;
    }
    ok, readiness, rs := ReadReadiness(reader, count);
  }

  lemma CoreReading(payload: Bytes)
    ensures var header := GetHeader(payload, CORE_MAGIC);
            if header.Malformed? then ParseCore(payload) == None
            else
              var fields := GetCoreFields(header.rest);
              if fields.Malformed? then ParseCore(payload) == None
              else
                var list := GetCounted(fields.rest, GetEntry);
                ParseCore(payload) ==
                if list.Got? && list.rest == []
                then Some(CoreImage(fields.value.0, fields.value.1, fields.value.2, list.value)) else None
  {
    hide GetHeader, GetCoreFields, GetCounted;
  }

  /** Reads a whole payload of the given version and number of entries. */
  method ReadCore(payload: Bytes, version: u64, expected: nat)
    returns (ok: bool, phase: Phase, manager: Option<Id>, readiness: map<Id, bool>, ghost rs: seq<Readiness>)
    ensures var image := ParseCore(payload);
            && (ok <==> image.Some? && image.value.version == version
                        && |image.value.readiness| == expected && DistinctReadiness(image.value.readiness))
            && (ok ==> image == Some(CoreImage(version, phase, manager, rs)) && Indexes(readiness, rs))
  {
    hide GetHeader, GetCoreFields, GetCounted, DistinctReadiness, Indexes, ParseCore, ParseBody;
    CoreReading(payload);
    phase, manager, readiness, rs := Lobby, None, map[], [];
    var reader := new Reader(payload);
    ok := ReadHeader(reader, CORE_MAGIC);
    if ok {
      ok, phase, manager := ReadCoreFields(reader, version);
      if ok {
        ok, readiness, rs := ReadCounted(reader, expected);
        if ok {
          ok := reader.Done();
        }
      }
    }
  }

  method DecodeCoreState(id: Id, sealed: bool, records: seq<SlotRecord>, version: u64, payload: Bytes)
    returns (result: Option<Aggregate>)
    ensures result == DecodeCore(id, sealed, records, version, payload)
  {
    hide ParseCore, ValidAggregate, DistinctReadiness, AllFound, Join, Indexes, Sort;
    var ok, phase, manager, readiness, rs := ReadCore(payload, version, |records|);
    if !ok {
      return None;
    }
    var roster: seq<SlotState>;
    ok, roster := JoinRoster(records, readiness, rs);
    if !ok {
      return None;
    }
    var a := Aggregate(id, version, phase, sealed, manager, Sort(roster));
    ok := ValidateAggregate(a);
    return if ok then Some(a) else None;
  }

  lemma {:induction false} CountOfItems<T>(input: Bytes, count: nat, get: Bytes -> Read<T>)
    ensures GetItems(input, count, get).Got? ==> |GetItems(input, count, get).value| == count
    decreases count
  {
    if count > 0 && get(input).Got? {
      CountOfItems(get(input).rest, count - 1, get);
    }
  }

  method ReadRoster(reader: Reader, count: nat) returns (ok: bool, roster: seq<SlotState>)
    requires reader.Valid()
    modifies reader
    ensures reader.Valid()
    ensures var all := GetItems(old(reader.Rest()), count, GetSlotState);
            (ok <==> all.Got?) && (ok ==> all == Got(roster, reader.Rest()))
  {
    hide GetSlotState;
    ghost var all := GetItems(old(reader.Rest()), count, GetSlotState);
    roster := [];
    assert all.Got? ==> [] + all.value == all.value;
    for n := 0 to count
      invariant reader.Valid()
      invariant all == Continued(roster, GetItems(reader.Rest(), count - n, GetSlotState))
    {
      ContinuedStep(roster, reader.Rest(), count - n, GetSlotState);
      var s: SlotState;
      ok, s := ReadSlotState(reader);
      if !ok {
        return;
      }
      roster := roster + [s];
    }
    assert roster + [] == roster;
    ok := true;
  }

  method ReadIntentFields(reader: Reader) returns (ok: bool, a: Aggregate)
    requires reader.Valid()
    modifies reader
    ensures reader.Valid()
    ensures var fields := GetIntentFields(old(reader.Rest()));
            (ok <==> fields.Got?) && (ok ==> fields == Got(a, reader.Rest()))
  {
    hide GetText, GetVersion, GetPhase, GetBool, GetManager;
    var id: Bytes, version: nat, phase: Phase, sealed: bool, manager: Option<Id>;
    a := Aggregate([], 0, Lobby, false, None, []);
    ok, id := reader.Text();
    if !ok {
      return;
    }
    ok, version := ReadVersion(reader);
    if !ok {
      return;
    }
    ok, phase := reader.Phase();
    if !ok {
      return;
    }
    ok, sealed := reader.Bool();
    if !ok {
      return;
    }
    ok, manager := reader.Manager();
    if ok {
      a := Aggregate(id, version, phase, sealed, manager, []);
    }
  }

  lemma IntentReading(payload: Bytes)
    ensures var header := GetHeader(payload, INTENT_MAGIC);
            if header.Malformed? then ParseIntent(payload) == None
            else
              var fields := GetIntentFields(header.rest);
              if fields.Malformed? then ParseIntent(payload) == None
              else
                var count := GetScalar(fields.rest, 4);
                if count.Malformed? || count.value > MAX_ROSTER then ParseIntent(payload) == None
                else
                  var roster := GetItems(count.rest, count.value, GetSlotState);
                  ParseIntent(payload) ==
                  if roster.Got? && roster.rest == [] then Some(fields.value.(roster := roster.value)) else None
  {
    hide GetHeader, GetIntentFields, GetScalar, GetItems;
  }

  method ReadIntent(payload: Bytes) returns (ok: bool, a: Aggregate)
    ensures ParseIntent(payload) == if ok then Some(a) else None
  {
    hide GetHeader, GetIntentFields, GetScalar, GetItems, ParseIntent, ParseIntentBody, GetCounted;
    a := Aggregate([], 0, Lobby, false, None, []);
    IntentReading(payload);
    var reader := new Reader(payload);
    ok := ReadHeader(reader, INTENT_MAGIC);
    if ok {
      ok, a := ReadIntentFields(reader);
      if ok {
        var count: nat, roster: seq<SlotState>;
        ok, count := reader.Scalar(4);
        if ok && count <= MAX_ROSTER {
          ok, roster := ReadRoster(reader, count);
          if ok {
            ok := reader.Done();
            a := a.(roster := roster);
          }
        } else {
          ok := false;
        }
      }
    }
  }

  method DecodeSnapshotIntent(payload: Bytes) returns (result: Option<Aggregate>)
    ensures result == DecodeIntent(payload)
  {
    var ok, a := ReadIntent(payload);
    if !ok {
      return None;
    }
    a := a.(roster := Sort(a.roster));
    ok := ValidateAggregate(a);
    return if ok then Some(a) else None;
  }

  method ReadSlotState(reader: Reader) returns (ok: bool, s: SlotState)
    requires reader.Valid()
    modifies reader
    ensures reader.Valid()
    ensures ok == GetSlotState(old(reader.Rest())).Got?
    ensures ok ==> GetSlotState(old(reader.Rest())) == Got(s, reader.Rest())
  {
    var slot: Bytes, player: Bytes, binding: Bytes, ready: bool;
    s := SlotState([], [], [], false);
    ok, slot := reader.Text();
    if !ok {
      return;
    }
    ok, player := reader.Text();
    if !ok {
      return;
    }
    ok, binding := reader.Text();
    if !ok {
      return;
    }
    ok, ready := reader.Bool();
    s := SlotState(slot, player, binding, ready);
  }
}
