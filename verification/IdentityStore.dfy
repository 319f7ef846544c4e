/** The client's local files: hexadecimal text, and the cache of campaign bindings. */
module IdentityStore {
  import opened Basics

  const MAX_FILE := 64 * 1024
  const MAX_ENTRIES := 256
  const TAB: byte := 9
  const NEWLINE: byte := 10

  /** The bytes of "stre-campaign-bindings-v1". */
  const HEADER: Bytes := [
    0x73, 0x74, 0x72, 0x65, 0x2D, 0x63, 0x61, 0x6D, 0x70, 0x61, 0x69, 0x67, 0x6E, 0x2D,
    0x62, 0x69, 0x6E, 0x64, 0x69, 0x6E, 0x67, 0x73, 0x2D, 0x76, 0x31]

  /*
   * Hexadecimal text
   */

  function Digit(n: nat): byte
    requires n < 16
  {
    if n < 10 then 48 + n else 87 + n
  }

  predicate IsHexLower(b: byte) { 48 <= b <= 57 || 97 <= b <= 102 }

  predicate AllHex(text: Bytes) { forall i :: 0 <= i < |text| ==> IsHexLower(text[i]) }

  function Nibble(b: byte): (n: nat)
    requires IsHexLower(b)
    ensures n < 16 && Digit(n) == b
  {
    if b <= 57 then b - 48 else b - 87
  }

  function Hex(bytes: Bytes): (h: Bytes)
    ensures |h| == 2 * |bytes|
    ensures AllHex(h)
  {
    if bytes == [] then []
    else Hex(bytes[..|bytes| - 1]) + [Digit(bytes[|bytes| - 1] / 16), Digit(bytes[|bytes| - 1] % 16)]
  }

  /** The byte two digits stand for. */
  function Pair(high: byte, low: byte): byte
    requires IsHexLower(high) && IsHexLower(low)
  {
    Nibble(high) * 16 + Nibble(low)
  }

  /** The bytes a text of hexadecimal pairs stands for. */
  function Unhex(text: Bytes): (bytes: Bytes)
    requires |text| % 2 == 0 && AllHex(text)
    ensures 2 * |bytes| == |text|
  {
    if text == [] then []
    else Unhex(text[..|text| - 2]) + [Pair(text[|text| - 2], text[|text| - 1])]
  }

  function FromHex(text: Bytes, maximum: nat): Option<Bytes> {
    if |text| % 2 != 0 || |text| > maximum * 2 || !AllHex(text) then None
    else Some(Unhex(text))
  }

  /** One more byte is one more pair at the end, and the pair reads back as the byte. */
  lemma HexSnoc(front: Bytes, b: byte)
    ensures Hex(front + [b]) == Hex(front) + [Digit(b / 16), Digit(b % 16)]
  {
    var all := front + [b];
    assert all[..|all| - 1] == front;
  }

  lemma AllHexSnoc(front: Bytes, x: byte, y: byte)
    requires AllHex(front) && IsHexLower(x) && IsHexLower(y)
    ensures AllHex(front + [x, y])
  {
  }

  lemma UnhexSnoc(front: Bytes, x: byte, y: byte)
    requires |front| % 2 == 0 && AllHex(front) && IsHexLower(x) && IsHexLower(y)
    requires AllHex(front + [x, y])
    ensures Unhex(front + [x, y]) == Unhex(front) + [Pair(x, y)]
  {
    hide AllHex, Nibble, IsHexLower, Pair;
    var all := front + [x, y];
    assert all[..|all| - 2] == front;
  }

  lemma PairReadsBack(b: byte)
    ensures IsHexLower(Digit(b / 16)) && IsHexLower(Digit(b % 16))
    ensures Pair(Digit(b / 16), Digit(b % 16)) == b
  {
    assert Nibble(Digit(b / 16)) == b / 16;
    assert Nibble(Digit(b % 16)) == b % 16;
  }

  lemma NothingReadsBack()
    ensures Unhex(Hex([])) == []
  {
  }

  lemma {:induction false} UnhexHex(bytes: Bytes)
    ensures Unhex(Hex(bytes)) == bytes
  {
    hide Unhex, AllHex, Nibble, Digit, IsHexLower, Hex, Pair;
    if bytes == [] {
      NothingReadsBack();
    } else {
      var n := |bytes| - 1;
      UnhexHex(bytes[..n]);
      HexSnoc(bytes[..n], bytes[n]);
      PairReadsBack(bytes[n]);
      AllHexSnoc(Hex(bytes[..n]), Digit(bytes[n] / 16), Digit(bytes[n] % 16));
      UnhexSnoc(Hex(bytes[..n]), Digit(bytes[n] / 16), Digit(bytes[n] % 16));
      assert bytes == bytes[..n] + [bytes[n]];
    }
  }

  lemma PairSplits(high: byte, low: byte)
    requires IsHexLower(high) && IsHexLower(low)
    ensures Digit(Pair(high, low) / 16) == high && Digit(Pair(high, low) % 16) == low
  {
    assert Pair(high, low) / 16 == Nibble(high) && Pair(high, low) % 16 == Nibble(low);
  }

  lemma {:induction false} HexUnhex(text: Bytes)
    requires |text| % 2 == 0 && AllHex(text)
    ensures Hex(Unhex(text)) == text
  {
    if text == [] {
      NothingReadsBack();
    } else {
      var n := |text| - 2;
      assert AllHex(text[..n]) && IsHexLower(text[n]) && IsHexLower(text[n + 1]);
      hide Unhex, AllHex, Nibble, Digit, IsHexLower, Hex, Pair;
      HexUnhex(text[..n]);
      PairSplits(text[n], text[n + 1]);
      assert text == text[..n] + [text[n], text[n + 1]];
      UnhexSnoc(text[..n], text[n], text[n + 1]);
      HexSnoc(Unhex(text[..n]), Pair(text[n], text[n + 1]));
    }
  }

  /** Text and bytes undo each other, on the texts that are accepted. */
  lemma HexRoundTrips(bytes: Bytes, text: Bytes, maximum: nat)
    ensures |bytes| <= maximum ==> FromHex(Hex(bytes), maximum) == Some(bytes)
    ensures FromHex(text, maximum).Some? ==> Hex(FromHex(text, maximum).value) == text
  {
    hide Hex, Unhex, Nibble, Digit, Pair;
    UnhexHex(bytes);
    if FromHex(text, maximum).Some? {
      HexUnhex(text);
    }
  }

  method BytesToHex(bytes: Bytes) returns (text: Bytes)
    ensures text == Hex(bytes)
  {
    text := [];
    for n := 0 to |bytes|
      invariant text == Hex(bytes[..n])
    {
      assert bytes[..n + 1][..n] == bytes[..n] && bytes[..n + 1][n] == bytes[n];
      text := text + [Digit(bytes[n] / 16)];
      text := text + [Digit(bytes[n] % 16)];
    }
    assert bytes[..|bytes|] == bytes;
  }

  method HexToBytes(text: Bytes, maximum: nat) returns (bytes: Option<Bytes>)
    ensures bytes == FromHex(text, maximum)
  {
    if |text| % 2 != 0 || |text| > maximum * 2 || !AllHex(text) {
      return None;
    }
    var result: Bytes := [];
    var index := 0;
    while index < |text|
      invariant index % 2 == 0 && index <= |text|
      invariant result == Unhex(text[..index])
    {
      assert text[..index + 2][..index] == text[..index];
      result := result + [Pair(text[index], text[index + 1])];
      index := index + 2;
    }
    assert text[..|text|] == text;
    return Some(result);
  }

  /*
   * Bindings
   */

  datatype Entry = Entry(campaign: Id, slot: Id, binding: Id)

  predicate IdChar(b: byte) { 97 <= b <= 122 || 65 <= b <= 90 || 48 <= b <= 57 || b == 45 || b == 95 }

  predicate ValidCacheId(id: Id) { 0 < |id| <= 128 && forall i :: 0 <= i < |id| ==> IdChar(id[i]) }

  predicate ValidEntry(e: Entry) { ValidCacheId(e.campaign) && ValidCacheId(e.slot) && ValidCacheId(e.binding) }

  /** The lines `std::getline` reads: what follows the last newline counts only if
      it is not empty. */
  function Lines(text: Bytes): seq<Bytes> {
    if text == [] then []
    else
      var i := First(text, (b: byte) => b == NEWLINE);
      if i == |text| then [text] else [text[..i]] + Lines(text[i + 1..])
  }

  function LineOf(e: Entry): Bytes { e.campaign + ([TAB] + (e.slot + ([TAB] + e.binding))) }

  function TabIndex(line: Bytes): nat { First(line, (b: byte) => b == TAB) }

  /** A record has exactly two tabs and three well-formed identities. */
  function ParseLine(line: Bytes): Option<Entry> {
    var i := TabIndex(line);
    if i == |line| then None
    else
      var rest := line[i + 1..];
      var j := TabIndex(rest);
      if j == |rest| || TabIndex(rest[j + 1..]) < |rest[j + 1..]| then None
      else
        var e := Entry(line[..i], rest[..j], rest[j + 1..]);
        if ValidEntry(e) then Some(e) else None
  }

  function Collect(lines: seq<Bytes>, bindings: map<Id, Entry>): Option<map<Id, Entry>>
    decreases |lines|
  {
    if lines == [] then Some(bindings)
    else if lines[0] == [] then Collect(lines[1..], bindings)
    else if |bindings| >= MAX_ENTRIES then None
    else
      var e := ParseLine(lines[0]);
      if e.None? || e.value.campaign in bindings then None
      else Collect(lines[1..], bindings[e.value.campaign := e.value])
  }

  /** Reading the cache; a missing file is an empty cache. */
  function Load(file: Option<Bytes>): Option<map<Id, Entry>> {
    if file.None? then Some(map[])
    else if |file.value| > MAX_FILE then None
    else
      var lines := Lines(file.value);
      if lines == [] || lines[0] != HEADER then None else Collect(lines[1..], map[])
  }

  /** The records of a map in the order of a list of its keys. */
  function Records(keys: seq<Id>, bindings: map<Id, Entry>): Bytes
    requires forall k :: k in keys ==> k in bindings
  {
    if keys == [] then [] else LineOf(bindings[keys[0]]) + ([NEWLINE] + Records(keys[1..], bindings))
  }

  function FileText(keys: seq<Id>, bindings: map<Id, Entry>): Bytes
    requires forall k :: k in keys ==> k in bindings
  {
    HEADER + ([NEWLINE] + Records(keys, bindings))
  }

  ghost predicate Ascending(keys: seq<Id>) { forall i, j :: 0 <= i < j < |keys| ==> Less(keys[i], keys[j]) }

  /** A list of all keys of a map, ascending. */
  ghost predicate Lists(keys: seq<Id>, bindings: map<Id, Entry>) {
    && (forall k :: k in keys <==> k in bindings)
    && Ascending(keys)
  }

  predicate Sound(bindings: map<Id, Entry>) {
    forall k :: k in bindings ==> ValidEntry(bindings[k]) && bindings[k].campaign == k
  }

  lemma FirstAfter(front: Bytes, b: byte, rest: Bytes)
    requires forall i :: 0 <= i < |front| ==> front[i] != b
    ensures First(front + ([b] + rest), (x: byte) => x == b) == |front|
  {
    var s := front + ([b] + rest);
    assert s[|front|] == b;
    assert forall i :: 0 <= i < |front| ==> s[i] == front[i];
  }

  lemma NoBreakInIds(id: Id)
    requires ValidCacheId(id)
    ensures forall i :: 0 <= i < |id| ==> id[i] != TAB && id[i] != NEWLINE
  {
    forall i | 0 <= i < |id| ensures id[i] != TAB && id[i] != NEWLINE {
      assert IdChar(id[i]);
    }
  }

  lemma NoTab(id: Id)
    requires ValidCacheId(id)
    ensures TabIndex(id) == |id|
  {
    NoBreakInIds(id);
  }

  lemma OneLine(e: Entry)
    requires ValidEntry(e)
    ensures LineOf(e) != [] && forall i :: 0 <= i < |LineOf(e)| ==> LineOf(e)[i] != NEWLINE
  {
    NoBreakInIds(e.campaign);
    NoBreakInIds(e.slot);
    NoBreakInIds(e.binding);
    hide ValidCacheId;
  }

  lemma TabSplits(id: Id, rest: Bytes)
    requires ValidCacheId(id)
    ensures var line := id + ([TAB] + rest);
            TabIndex(line) == |id| && line[..|id|] == id && line[|id| + 1..] == rest
  {
    NoBreakInIds(id);
    hide First, ValidCacheId;
    FirstAfter(id, TAB, rest);
  }

  lemma LineReadsBack(e: Entry)
    requires ValidEntry(e)
    ensures ParseLine(LineOf(e)) == Some(e)
    ensures LineOf(e) != []
    ensures forall i :: 0 <= i < |LineOf(e)| ==> LineOf(e)[i] != NEWLINE
  {
    hide TabIndex, ValidCacheId;
    OneLine(e);
    NoTab(e.binding);
    TabSplits(e.campaign, e.slot + ([TAB] + e.binding));
    TabSplits(e.slot, e.binding);
  }

  lemma LinesCons(line: Bytes, rest: Bytes)
    requires forall i :: 0 <= i < |line| ==> line[i] != NEWLINE
    ensures Lines(line + ([NEWLINE] + rest)) == [line] + Lines(rest)
  {
    var text := line + ([NEWLINE] + rest);
    FirstAfter(line, NEWLINE, rest);
    assert text[..|line|] == line && text[|line| + 1..] == rest;
  }

  function Chosen(keys: seq<Id>, bindings: map<Id, Entry>): map<Id, Entry>
    requires forall k :: k in keys ==> k in bindings
  {
    map k | k in keys :: bindings[k]
  }

  lemma ChosenCons(keys: seq<Id>, bindings: map<Id, Entry>, before: map<Id, Entry>)
    requires keys != [] && (forall k :: k in keys ==> k in bindings) && keys[0] !in keys[1..]
    ensures before + Chosen(keys, bindings) == before[keys[0] := bindings[keys[0]]] + Chosen(keys[1..], bindings)
  {
    assert forall k :: k in keys <==> k == keys[0] || k in keys[1..];
  }

  /** One record read: the line's entry joins the map. */
  lemma CollectStep(e: Entry, rest: Bytes, before: map<Id, Entry>)
    requires ValidEntry(e) && e.campaign !in before && |before| < MAX_ENTRIES
    ensures Collect(Lines(LineOf(e) + ([NEWLINE] + rest)), before) == Collect(Lines(rest), before[e.campaign := e])
  {
    hide LineOf, ParseLine, Lines, ValidEntry;
    LineReadsBack(e);
    LinesCons(LineOf(e), rest);
    assert ([LineOf(e)] + Lines(rest))[1..] == Lines(rest);
  }

  /** Reading the records puts every listed entry into the map, one after another. */
  lemma {:induction false} RecordsReadBack(keys: seq<Id>, bindings: map<Id, Entry>, before: map<Id, Entry>)
    requires Sound(bindings) && (forall k :: k in keys ==> k in bindings)
    requires forall i, j :: 0 <= i < j < |keys| ==> keys[i] != keys[j]
    requires forall k :: k in keys ==> k !in before
    requires |before| + |keys| <= MAX_ENTRIES
    ensures Collect(Lines(Records(keys, bindings)), before) == Some(before + Chosen(keys, bindings))
    decreases |keys|
  {
    if keys == [] {
      assert before + Chosen(keys, bindings) == before;
    } else {
      hide Collect, Lines, LineOf, Chosen, ValidEntry;
      var e := bindings[keys[0]];
      assert ValidEntry(e) && e.campaign == keys[0] by { assert keys[0] in bindings; }
      CollectStep(e, Records(keys[1..], bindings), before);
      RecordsReadBack(keys[1..], bindings, before[keys[0] := e]);
      ChosenCons(keys, bindings, before);
    }
  }

  lemma HeaderHasNoBreak()
    ensures forall i :: 0 <= i < |HEADER| ==> HEADER[i] != NEWLINE
  {
  }

  lemma DistinctKeys(keys: seq<Id>)
    requires Ascending(keys)
    ensures forall i, j :: 0 <= i < j < |keys| ==> keys[i] != keys[j]
  {
    forall i, j | 0 <= i < j < |keys| ensures keys[i] != keys[j] {
      LessIrreflexive(keys[i]);
    }
  }

  lemma {:induction false} KeyCount(keys: seq<Id>, all: set<Id>)
    requires (forall k :: k in keys <==> k in all) && forall i, j :: 0 <= i < j < |keys| ==> keys[i] != keys[j]
    ensures |keys| == |all|
    decreases |keys|
  {
    if keys == [] {
      assert all == {};
    } else {
      var n := |keys| - 1;
      assert keys == keys[..n] + [keys[n]];
      KeyCount(keys[..n], all - {keys[n]});
    }
  }

  /** Loading what was saved gives back the same bindings exactly when the text is
      within the size a load accepts. */
  lemma LoadOfSaveIff(keys: seq<Id>, bindings: map<Id, Entry>)
    requires Sound(bindings) && Lists(keys, bindings) && |bindings| <= MAX_ENTRIES
    ensures Load(Some(FileText(keys, bindings))) == Some(bindings) <==> |FileText(keys, bindings)| <= MAX_FILE
  {
    hide Records, Lines, Collect, ValidEntry;
    HeaderHasNoBreak();
    LinesCons(HEADER, Records(keys, bindings));
    DistinctKeys(keys);
    KeyCount(keys, bindings.Keys);
    RecordsReadBack(keys, bindings, map[]);
    assert map[] + Chosen(keys, bindings) == bindings;
    var lines := Lines(FileText(keys, bindings));
    assert lines[0] == HEADER && lines[1..] == Lines(Records(keys, bindings));
  }

  function Length(e: Entry): nat { |e.campaign| + |e.slot| + |e.binding| }

  lemma RecordsCons(keys: seq<Id>, bindings: map<Id, Entry>)
    requires keys != [] && forall k :: k in keys ==> k in bindings
    ensures |Records(keys, bindings)| == Length(bindings[keys[0]]) + 3 + |Records(keys[1..], bindings)|
  {
  }

  lemma OneMore(n: nat, k: nat)
    ensures (n + 1) * k == n * k + k
  {
  }

  lemma {:induction false} RecordsLength(keys: seq<Id>, bindings: map<Id, Entry>, low: nat, high: nat)
    requires forall k :: k in keys ==> k in bindings && low <= Length(bindings[k]) <= high
    ensures |keys| * (low + 3) <= |Records(keys, bindings)| <= |keys| * (high + 3)
    decreases |keys|
  {
    hide Length;
    if keys != [] {
      var rest := |keys[1..]|;
      RecordsLength(keys[1..], bindings, low, high);
      RecordsCons(keys, bindings);
      OneMore(rest, low + 3);
      OneMore(rest, high + 3);
    }
  }

  /** Up to 256 bindings of at most 252 characters each always survive. */
  lemma ModestBindingsSurvive(keys: seq<Id>, bindings: map<Id, Entry>)
    requires Sound(bindings) && Lists(keys, bindings) && |bindings| <= MAX_ENTRIES
    requires forall k :: k in bindings ==> Length(bindings[k]) <= 252
    ensures Load(Some(FileText(keys, bindings))) == Some(bindings)
  {
    hide Records;
    DistinctKeys(keys);
    KeyCount(keys, bindings.Keys);
    RecordsLength(keys, bindings, 0, 252);
    LoadOfSaveIff(keys, bindings);
  }

  /** 256 bindings of 253 or more characters each, which are all valid and are saved
      without complaint, can never be loaded again. */
  lemma LongBindingsAreLost(keys: seq<Id>, bindings: map<Id, Entry>)
    requires Sound(bindings) && Lists(keys, bindings) && |bindings| == MAX_ENTRIES
    requires forall k :: k in bindings ==> 253 <= Length(bindings[k])
    ensures Load(Some(FileText(keys, bindings))) == None
  {
    forall k | k in bindings ensures Length(bindings[k]) <= 384 {
      assert ValidEntry(bindings[k]);
    }
    hide Records, Length, ValidEntry;
    DistinctKeys(keys);
    KeyCount(keys, bindings.Keys);
    RecordsLength(keys, bindings, 253, 384);
  }

  /** The letters a to p tell 256 identities apart. */
  function Name(k: nat): (id: Id)
    requires k < 256
    ensures |id| == 128
  {
    [97 + k / 16, 97 + k % 16] + seq(126, _ => 97)
  }

  /** A valid binding of exactly 253 characters. */
  function LongEntry(k: nat): Entry
    requires k < 256
  {
    Entry(Name(k), seq(124, _ => 97), [97])
  }

  function LongBindings(n: nat): map<Id, Entry>
    requires n <= 256
  {
    if n == 0 then map[] else LongBindings(n - 1)[Name(n - 1) := LongEntry(n - 1)]
  }

  function Names(n: nat): (keys: seq<Id>)
    requires n <= 256
    ensures |keys| == n
    ensures forall k :: 0 <= k < n ==> keys[k] == Name(k)
  {
    seq(n, k requires 0 <= k < n => Name(k))
  }

  lemma NamesAscend(j: nat, k: nat)
    requires j < k < 256
    ensures Less(Name(j), Name(k)) && Name(j) != Name(k)
  {
    var a, b := Name(j), Name(k);
    assert a[0] == 97 + j / 16 && b[0] == 97 + k / 16 && a[1] == 97 + j % 16 && b[1] == 97 + k % 16;
    assert Less(a[1..], b[1..]) || a[0] < b[0];
  }

  lemma {:induction false} OnlyNames(n: nat, id: Id) returns (k: nat)
    requires n <= 256 && id in LongBindings(n)
    ensures k < n && Name(k) == id
  {
    hide Name, LongEntry;
    if id == Name(n - 1) {
      k := n - 1;
    } else {
      k := OnlyNames(n - 1, id);
    }
  }

  lemma {:induction false} NameIsBound(n: nat, k: nat)
    requires k < n <= 256
    ensures Name(k) in LongBindings(n) && LongBindings(n)[Name(k)] == LongEntry(k)
    decreases n
  {
    hide Name, LongEntry;
    if k < n - 1 {
      NameIsBound(n - 1, k);
      NamesAscend(k, n - 1);
    }
  }

  lemma {:induction false} LongBindingsCount(n: nat)
    requires n <= 256
    ensures |LongBindings(n)| == n
  {
    hide Name, LongEntry;
    if n > 0 {
      LongBindingsCount(n - 1);
      var last := Name(n - 1);
      if last in LongBindings(n - 1) {
        var k := OnlyNames(n - 1, last);
        NamesAscend(k, n - 1);
      }
      assert LongBindings(n).Keys == LongBindings(n - 1).Keys + {last};
    }
  }

  lemma LongEntryIsValid(k: nat)
    requires k < 256
    ensures ValidEntry(LongEntry(k)) && Length(LongEntry(k)) == 253
  {
  }

  /** Such bindings exist, already at the shortest length that is lost. */
  lemma SomeBindingsAreLost()
    ensures var keys, bindings := Names(256), LongBindings(256);
            && Sound(bindings) && Lists(keys, bindings) && |bindings| == MAX_ENTRIES
            && (forall k :: k in bindings ==> Length(bindings[k]) == 253)
            && Load(Some(FileText(keys, bindings))) == None
  {
    hide Name, LongEntry, LongBindings, ValidEntry, Less, Load, FileText, Records, Length;
    LongBindingsCount(256);
    var keys, bindings := Names(256), LongBindings(256);
    forall i, j | 0 <= i < j < 256 ensures Less(keys[i], keys[j]) {
      NamesAscend(i, j);
    }
    forall k | k in bindings
      ensures ValidEntry(bindings[k]) && bindings[k].campaign == k && Length(bindings[k]) == 253
    {
      var n := OnlyNames(256, k);
      NameIsBound(256, n);
      LongEntryIsValid(n);
      NamedByKey(n);
    }
    forall id ensures id in keys <==> id in bindings {
      if id in bindings {
        var n := OnlyNames(256, id);
        assert keys[n] == id;
      }
      if id in keys {
        var n :| 0 <= n < 256 && keys[n] == id;
        NameIsBound(256, n);
      }
    }
    LongBindingsAreLost(keys, bindings);
  }

  lemma NamedByKey(k: nat)
    requires k < 256
    ensures LongEntry(k).campaign == Name(k)
  {
  }

  /*
   * The files' readers and writers
   */

  function InsertKey(k: Id, keys: seq<Id>): (r: seq<Id>)
    ensures forall x :: x in r <==> x == k || x in keys
  {
    if keys == [] then [k]
    else if Less(k, keys[0]) then [k] + keys
    else
      assert forall x :: x in keys <==> x == keys[0] || x in keys[1..];
      [keys[0]] + InsertKey(k, keys[1..])
  }

  lemma {:induction false} InsertKeySorted(k: Id, keys: seq<Id>)
    requires Ascending(keys) && k !in keys
    ensures Ascending(InsertKey(k, keys))
  {
    if keys == [] {
    } else if Less(k, keys[0]) {
      forall j | 0 < j < |keys| ensures Less(k, keys[j]) {
        LessTransitive(k, keys[0], keys[j]);
      }
    } else {
      LessTotal(k, keys[0]);
      InsertKeySorted(k, keys[1..]);
      var tail := InsertKey(k, keys[1..]);
      var r := InsertKey(k, keys);
      assert r == [keys[0]] + tail;
      forall j | 0 <= j < |tail| ensures Less(keys[0], tail[j]) {
        assert tail[j] in tail;
        if tail[j] != k {
          var i :| 0 <= i < |keys[1..]| && keys[1..][i] == tail[j];
          assert keys[i + 1] == tail[j];
        }
      }
      forall i, j | 0 <= i < j < |r| ensures Less(r[i], r[j]) {
        assert r[j] == tail[j - 1];
        if i > 0 {
          assert r[i] == tail[i - 1];
        }
      }
    }
  }

  /** Writes all bindings, sorted by campaign; too many are refused. */
  method SaveBindings(bindings: map<Id, Entry>) returns (file: Option<Bytes>, ghost keys: seq<Id>)
    ensures file.Some? <==> |bindings| <= MAX_ENTRIES
    ensures Lists(keys, bindings)
    ensures file.Some? ==> file.value == FileText(keys, bindings)
  {
    var sorted: seq<Id> := [];
    var left := bindings.Keys;
    while left != {}
      invariant left <= bindings.Keys
      invariant forall k :: k in sorted <==> k in bindings.Keys - left
      invariant Ascending(sorted)
      decreases |left|
    {
      var k: Id :| k in left;
      InsertKeySorted(k, sorted);
      sorted := InsertKey(k, sorted);
      left := left - {k};
    }
    keys := sorted;
    if |bindings| > MAX_ENTRIES {
      return None, keys;
    }
    var contents := HEADER + [NEWLINE];
    ghost var whole := FileText(keys, bindings);
    assert sorted[0..] == sorted;
    for n := 0 to |sorted|
      invariant whole == contents + Records(sorted[n..], bindings)
    {
      assert sorted[n..][1..] == sorted[n + 1..];
      contents := contents + LineOf(bindings[sorted[n]]) + [NEWLINE];
    }
    return Some(contents), keys;
  }

  /** Reads the cache line by line. */
  method LoadBindings(file: Option<Bytes>) returns (bindings: Option<map<Id, Entry>>)
    ensures bindings == Load(file)
  {
    if file.None? {
      return Some(map[]);
    }
    if |file.value| > MAX_FILE {
      return None;
    }
    var lines := Lines(file.value);
    if lines == [] || lines[0] != HEADER {
      return None;
    }
    var result: map<Id, Entry> := map[];
    for n := 1 to |lines|
      invariant Load(file) == Collect(lines[n..], result)
    {
      assert lines[n..][0] == lines[n] && lines[n..][1..] == lines[n + 1..];
      if lines[n] != [] {
        if |result| >= MAX_ENTRIES {
          return None;
        }
        var e := ParseLine(lines[n]);
        if e.None? || e.value.campaign in result {
          return None;
        }
        result := result[e.value.campaign := e.value];
      }
    }
    return Some(result);
  }

  /*
   * What a load accepts
   */

  lemma FirstTab(line: Bytes)
    requires TabIndex(line) < |line|
    ensures line == line[..TabIndex(line)] + ([TAB] + line[TabIndex(line) + 1..])
  {
  }

  /** A line is read as exactly the entry it was written from. */
  lemma ParseLineIff(line: Bytes, e: Entry)
    ensures ParseLine(line) == Some(e) <==> ValidEntry(e) && line == LineOf(e)
  {
    if ParseLine(line) == Some(e) {
      hide TabIndex, ValidCacheId;
      FirstTab(line);
      FirstTab(line[TabIndex(line) + 1..]);
    } else if ValidEntry(e) && line == LineOf(e) {
      LineReadsBack(e);
    }
  }

  /** `m` has every entry of `before` as it is. */
  ghost predicate Extends(before: map<Id, Entry>, m: map<Id, Entry>) {
    forall k :: k in before ==> k in m && m[k] == before[k]
  }

  /** Whether this is the line of an entry that `m` has and `before` does not. */
  ghost predicate IsNew(line: Bytes, before: map<Id, Entry>, m: map<Id, Entry>) {
    exists k :: k in m && k !in before && line == LineOf(m[k])
  }

  ghost predicate OnlyNew(lines: seq<Bytes>, before: map<Id, Entry>, m: map<Id, Entry>) {
    forall i :: 0 <= i < |lines| && lines[i] != [] ==> IsNew(lines[i], before, m)
  }

  ghost predicate AllNew(lines: seq<Bytes>, before: map<Id, Entry>, m: map<Id, Entry>) {
    forall k :: k in m && k !in before ==> ValidEntry(m[k]) && m[k].campaign == k && LineOf(m[k]) in lines
  }

  ghost predicate NoneTwice(lines: seq<Bytes>) {
    forall i, j :: 0 <= i < j < |lines| && lines[i] != [] ==> lines[i] != lines[j]
  }

  /** The lines that are not empty are those of the entries that `m` has and `before` does
      not, each of them once. */
  ghost predicate ReadsAs(lines: seq<Bytes>, before: map<Id, Entry>, m: map<Id, Entry>) {
    && Extends(before, m) && OnlyNew(lines, before, m) && AllNew(lines, before, m) && NoneTwice(lines)
    && (|before| < |m| ==> |m| <= MAX_ENTRIES)
  }

  lemma SkipsEmpty(lines: seq<Bytes>, before: map<Id, Entry>, m: map<Id, Entry>)
    requires lines != [] && lines[0] == []
    ensures OnlyNew(lines, before, m) <==> OnlyNew(lines[1..], before, m)
    ensures NoneTwice(lines) <==> NoneTwice(lines[1..])
  {
    hide IsNew;
    var rest := lines[1..];
    assert forall i :: 0 < i < |lines| ==> lines[i] == rest[i - 1];
    assert forall i :: 0 <= i < |rest| ==> rest[i] == lines[i + 1];
  }

  lemma InRest(lines: seq<Bytes>, line: Bytes)
    requires lines != [] && line != lines[0]
    ensures line in lines <==> line in lines[1..]
  {
    assert lines == [lines[0]] + lines[1..];
  }

  lemma ReadsEmpty(lines: seq<Bytes>, before: map<Id, Entry>, m: map<Id, Entry>)
    requires lines != [] && lines[0] == []
    ensures ReadsAs(lines, before, m) <==> ReadsAs(lines[1..], before, m)
  {
    hide LineOf, ValidEntry, OnlyNew, NoneTwice, Extends;
    SkipsEmpty(lines, before, m);
    forall k | k in m && ValidEntry(m[k]) ensures LineOf(m[k]) in lines <==> LineOf(m[k]) in lines[1..] {
      LineReadsBack(m[k]);
      InRest(lines, LineOf(m[k]));
    }
  }

  lemma SubsetSize(a: set<Id>, b: set<Id>)
    requires a <= b
    ensures |a| <= |b| && (a != b ==> |a| < |b|)
  {
    assert b == a + (b - a);
    assert |b| == |a| + |b - a|;
  }

  /** Of entries that are well formed, different ones have different lines. */
  lemma NewAgain(line: Bytes, e: Entry, before: map<Id, Entry>, m: map<Id, Entry>)
    requires ValidEntry(e) && e.campaign in m && m[e.campaign] == e && e.campaign !in before
    requires forall k :: k in m && k !in before ==> ValidEntry(m[k]) && m[k].campaign == k
    ensures IsNew(line, before, m) <==> line == LineOf(e) || IsNew(line, before[e.campaign := e], m)
    ensures !IsNew(LineOf(e), before[e.campaign := e], m)
  {
    hide LineOf, ValidEntry, ParseLine;
    var next := before[e.campaign := e];
    if IsNew(LineOf(e), next, m) {
      var k :| k in m && k !in next && LineOf(e) == LineOf(m[k]);
      LineReadsBack(e);
      LineReadsBack(m[k]);
    }
    if IsNew(line, before, m) {
      var k :| k in m && k !in before && line == LineOf(m[k]);
      assert k == e.campaign || k !in next;
    }
    if IsNew(line, next, m) {
      var k :| k in m && k !in next && line == LineOf(m[k]);
      assert k !in before;
    }
  }

  lemma OneMoreLine(lines: seq<Bytes>, e: Entry, before: map<Id, Entry>, m: map<Id, Entry>)
    requires lines != [] && lines[0] != [] && lines[0] == LineOf(e)
    requires ValidEntry(e) && e.campaign in m && m[e.campaign] == e && e.campaign !in before
    requires forall k :: k in m && k !in before ==> ValidEntry(m[k]) && m[k].campaign == k
    ensures OnlyNew(lines, before, m) && NoneTwice(lines) <==>
            OnlyNew(lines[1..], before[e.campaign := e], m) && NoneTwice(lines[1..])
  {
    hide LineOf, ValidEntry, IsNew;
    var rest := lines[1..];
    var next := before[e.campaign := e];
    forall i | 0 <= i < |rest| ensures rest[i] == lines[i + 1] {
    }
    forall line ensures IsNew(line, before, m) <==> line == LineOf(e) || IsNew(line, next, m) {
      NewAgain(line, e, before, m);
    }
    NewAgain(lines[0], e, before, m);
    if OnlyNew(rest, next, m) && NoneTwice(rest) {
      forall i | 0 < i < |lines| ensures lines[i] == rest[i - 1] {
      }
      forall i | 0 < i < |lines| ensures lines[i] != lines[0] {
        assert lines[i] != [] ==> IsNew(rest[i - 1], next, m);
      }
    }
  }

  lemma AllButOne(lines: seq<Bytes>, e: Entry, before: map<Id, Entry>, m: map<Id, Entry>)
    requires lines != [] && lines[0] == LineOf(e) && ValidEntry(e) && e.campaign in m && m[e.campaign] == e
    requires e.campaign !in before
    ensures AllNew(lines, before, m) <==> AllNew(lines[1..], before[e.campaign := e], m)
  {
    hide LineOf, ValidEntry, ParseLine;
    var next := before[e.campaign := e];
    LineReadsBack(e);
    forall k | k in m && k != e.campaign && ValidEntry(m[k]) && m[k].campaign == k
      ensures LineOf(m[k]) in lines <==> LineOf(m[k]) in lines[1..]
    {
      LineReadsBack(m[k]);
      InRest(lines, LineOf(m[k]));
    }
    assert forall k :: k in next <==> k in before || k == e.campaign;
  }

  /** One line read: what the rest makes of the map with its entry is what all make of the
      map without it. */
  lemma ReadsOne(lines: seq<Bytes>, before: map<Id, Entry>, m: map<Id, Entry>, e: Entry)
    requires lines != [] && ValidEntry(e) && lines[0] == LineOf(e) && e.campaign !in before
    requires e.campaign in m && m[e.campaign] == e
    ensures ReadsAs(lines, before, m) <==>
            |before| < MAX_ENTRIES && ReadsAs(lines[1..], before[e.campaign := e], m)
  {
    hide LineOf, ValidEntry, OnlyNew, NoneTwice;
    var next := before[e.campaign := e];
    LineReadsBack(e);
    AllButOne(lines, e, before, m);
    if AllNew(lines, before, m) {
      OneMoreLine(lines, e, before, m);
    }
    if Extends(before, m) {
      assert before.Keys <= m.Keys && next.Keys <= m.Keys;
      SubsetSize(before.Keys, m.Keys);
      SubsetSize(next.Keys, m.Keys);
      assert |next| == |before| + 1;
    }
  }

  lemma {:induction false} CollectIff(lines: seq<Bytes>, before: map<Id, Entry>, m: map<Id, Entry>)
    ensures Collect(lines, before) == Some(m) <==> ReadsAs(lines, before, m)
    decreases |lines|, 1
  {
    if lines == [] {
      hide LineOf, ValidEntry;
      NothingLeft(before, m);
    } else if lines[0] == [] {
      hide ReadsAs;
      CollectIff(lines[1..], before, m);
      ReadsEmpty(lines, before, m);
    } else {
      CollectOne(lines, before, m);
    }
  }

  lemma NothingLeft(before: map<Id, Entry>, m: map<Id, Entry>)
    ensures ReadsAs([], before, m) <==> before == m
  {
    hide LineOf, ValidEntry;
    if ReadsAs([], before, m) {
      assert before == m;
    }
  }

  lemma FirstIsNew(lines: seq<Bytes>, before: map<Id, Entry>, m: map<Id, Entry>) returns (e: Entry)
    requires lines != [] && lines[0] != [] && ReadsAs(lines, before, m)
    ensures ValidEntry(e) && lines[0] == LineOf(e) && e.campaign !in before
    ensures e.campaign in m && m[e.campaign] == e
  {
    hide LineOf, ValidEntry, NoneTwice;
    assert IsNew(lines[0], before, m);
    var k :| k in m && k !in before && lines[0] == LineOf(m[k]);
    e := m[k];
  }

  lemma {:induction false} CollectOne(lines: seq<Bytes>, before: map<Id, Entry>, m: map<Id, Entry>)
    requires lines != [] && lines[0] != []
    ensures Collect(lines, before) == Some(m) <==> ReadsAs(lines, before, m)
    decreases |lines|, 0
  {
    hide ReadsAs, ParseLine, LineOf, ValidEntry;
    if ReadsAs(lines, before, m) {
      var e := FirstIsNew(lines, before, m);
      ParseLineIff(lines[0], e);
      CollectIff(lines[1..], before[e.campaign := e], m);
      ReadsOne(lines, before, m, e);
    } else if Collect(lines, before) == Some(m) {
      var e := ParseLine(lines[0]).value;
      ParseLineIff(lines[0], e);
      CollectIff(lines[1..], before[e.campaign := e], m);
      Extended(lines[1..], before[e.campaign := e], m, e.campaign);
      ReadsOne(lines, before, m, e);
    }
  }

  lemma Extended(lines: seq<Bytes>, next: map<Id, Entry>, m: map<Id, Entry>, k: Id)
    requires ReadsAs(lines, next, m) && k in next
    ensures k in m && m[k] == next[k]
  {
  }

  /** A file is loaded as a map iff it is within the size, its first line is the header, and
      its other lines, where they are not empty, are those of at most 256 well-formed
      entries of different campaigns, which are then the entries of the map. */
  lemma LoadedIff(text: Bytes, m: map<Id, Entry>)
    ensures Load(Some(text)) == Some(m) <==>
              && |text| <= MAX_FILE && Lines(text) != [] && Lines(text)[0] == HEADER
              && ReadsAs(Lines(text)[1..], map[], m)
  {
    hide Collect, Lines, ReadsAs;
    if Lines(text) != [] {
      CollectIff(Lines(text)[1..], map[], m);
    }
  }

  function Unlines(lines: seq<Bytes>): Bytes {
    if lines == [] then [] else lines[0] + ([NEWLINE] + Unlines(lines[1..]))
  }

  lemma SplitAt(text: Bytes, i: nat)
    requires i < |text|
    ensures text == text[..i] + ([text[i]] + text[i + 1..])
  {
  }

  lemma FirstBreak(text: Bytes)
    ensures var i := First(text, (b: byte) => b == NEWLINE);
            && NEWLINE !in text[..i]
            && (i < |text| ==> text == text[..i] + ([NEWLINE] + text[i + 1..]))
  {
    hide First;
    var i := First(text, (b: byte) => b == NEWLINE);
    if i < |text| {
      SplitAt(text, i);
    }
  }

  ghost predicate NoBreaks(lines: seq<Bytes>) { forall i :: 0 <= i < |lines| ==> NEWLINE !in lines[i] }

  lemma LinesAgain(line: Bytes, after: Bytes, text: Bytes)
    requires text == line + ([NEWLINE] + after) && Unlines(Lines(after)) in {after, after + [NEWLINE]}
    requires NEWLINE !in line && NoBreaks(Lines(after))
    ensures Unlines([line] + Lines(after)) in {text, text + [NEWLINE]} && NoBreaks([line] + Lines(after))
  {
    hide Lines;
    var rest := Lines(after);
    assert ([line] + rest)[1..] == rest;
    assert line + ([NEWLINE] + (after + [NEWLINE])) == text + [NEWLINE];
  }

  lemma LastLine(text: Bytes)
    requires NEWLINE !in text
    ensures Unlines([text]) == text + [NEWLINE] && NoBreaks([text])
  {
  }

  /** No line of a text has a newline in it, and ended by one each they are the text, save
      that its last line need not be ended. */
  lemma {:induction false} LinesAre(text: Bytes)
    ensures forall i :: 0 <= i < |Lines(text)| ==> NEWLINE !in Lines(text)[i]
    ensures Unlines(Lines(text)) in {text, text + [NEWLINE]}
    decreases |text|
  {
    if text != [] {
      hide First, Unlines;
      FirstBreak(text);
      var i := First(text, (b: byte) => b == NEWLINE);
      if i < |text| {
        LinesAre(text[i + 1..]);
        LinesAgain(text[..i], text[i + 1..], text);
      } else {
        assert text[..i] == text;
        LastLine(text);
      }
    }
  }
}
