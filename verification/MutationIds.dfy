/** The text of the mutation identities the service reserves for itself, and the
    slot hash inside some of them. */
module MutationIds {
  import opened Basics
  import opened CampaignState
  import opened CampaignStore
  import opened CommandPayload

  /*
   * The slot hash: 64-bit FNV-1a
   */

  const OFFSET_BASIS: int := 14695981039346656037
  const PRIME: int := 1099511628211
  const TWO_64: int := 0x1_0000_0000_0000_0000

  /** `PRIME * INVERSE` is 1 modulo 2^64. */
  const INVERSE: int := 14886173955864302971

  type Hash = n: int | 0 <= n < 0x1_0000_0000_0000_0000

  function Pow2(bits: nat): (n: nat)
    ensures n > 0
  {
    if bits == 0 then 1 else 2 * Pow2(bits - 1)
  }

  /** Exclusive or, bit by bit. */
  function Xor(a: nat, b: nat, bits: nat): (x: nat)
    ensures x < Pow2(bits)
  {
    if bits == 0 then 0 else 2 * Xor(a / 2, b / 2, bits - 1) + (a % 2 + b % 2) % 2
  }

  lemma Pow2Is256()
    ensures Pow2(8) == 256
  {
    assert Pow2(4) == 16;
  }

  /** Exclusive or with a byte touches the low eight bits only. */
  function XorByte(h: Hash, b: byte): Hash {
    Pow2Is256();
    h / 256 * 256 + Xor(h % 256, b, 8)
  }

  function Mix(h: Hash, b: byte): Hash { XorByte(h, b) * PRIME % TWO_64 }

  function Fnv1a(s: Bytes): Hash {
    if s == [] then OFFSET_BASIS else Mix(Fnv1a(s[..|s| - 1]), s[|s| - 1])
  }

  /** The hash as a loop over the bytes. */
  method StableIdHash(s: Bytes) returns (hash: Hash)
    ensures hash == Fnv1a(s)
  {
    hash := OFFSET_BASIS;
    for n := 0 to |s|
      invariant hash == Fnv1a(s[..n])
    {
      assert s[..n + 1][..n] == s[..n] && s[..n + 1][n] == s[n];
      hash := XorByte(hash, s[n]);
      hash := hash * PRIME % TWO_64;
    }
    assert s[..|s|] == s;
  }

  lemma OddMultiplierCancels(a: Hash, b: Hash)
    requires a * PRIME % TWO_64 == b * PRIME % TWO_64
    ensures a == b
  {
    var c := a * PRIME / TWO_64 - b * PRIME / TWO_64;
    assert a * PRIME - b * PRIME == c * TWO_64;
    assert PRIME * INVERSE == 1 + (PRIME * INVERSE / TWO_64) * TWO_64;
    var k := PRIME * INVERSE / TWO_64;
    assert (a - b) * (1 + k * TWO_64) == c * INVERSE * TWO_64;
    assert a - b == (c * INVERSE - k * (a - b)) * TWO_64;
  }

  lemma {:induction false} XorCancels(x: nat, y: nat, b: nat, bits: nat)
    requires x < Pow2(bits) && y < Pow2(bits)
    ensures Xor(x, b, bits) == Xor(y, b, bits) ==> x == y
    ensures Xor(b, x, bits) == Xor(b, y, bits) ==> x == y
  {
    if bits > 0 {
      XorCancels(x / 2, y / 2, b / 2, bits - 1);
    }
  }

  lemma XorByteInjective(g: Hash, h: Hash, b: byte)
    requires XorByte(g, b) == XorByte(h, b)
    ensures g == h
  {
    hide Xor;
    Pow2Is256();
    XorCancels(g % 256, h % 256, b, 8);
  }

  lemma XorByteTellsBytes(h: Hash, a: byte, b: byte)
    requires XorByte(h, a) == XorByte(h, b)
    ensures a == b
  {
    hide Xor;
    Pow2Is256();
    XorCancels(a, b, h % 256, 8);
  }

  lemma MixInjective(g: Hash, h: Hash, b: byte)
    requires Mix(g, b) == Mix(h, b)
    ensures g == h
  {
    OddMultiplierCancels(XorByte(g, b), XorByte(h, b));
    XorByteInjective(g, h, b);
  }

  /** A common tail never brings two different hashes back together. */
  lemma {:induction false} TailKeepsApart(s: Bytes, t: Bytes, n: nat)
    requires n <= |s| == |t| && s[n..] == t[n..] && Fnv1a(s) == Fnv1a(t)
    ensures Fnv1a(s[..n]) == Fnv1a(t[..n])
    decreases |s| - n
  {
    if n < |s| {
      var m := |s| - 1;
      assert s[n..][m - n] == t[n..][m - n];
      MixInjective(Fnv1a(s[..m]), Fnv1a(t[..m]), s[m]);
      assert s[..m][n..] == s[n..][..m - n] && t[..m][n..] == t[n..][..m - n];
      TailKeepsApart(s[..m], t[..m], n);
      assert s[..m][..n] == s[..n] && t[..m][..n] == t[..n];
    } else {
      assert s[..n] == s && t[..n] == t;
    }
  }

  /** Slot identities of one length that differ in a single byte never collide. */
  lemma OneByteApart(s: Bytes, t: Bytes, n: nat)
    requires n < |s| == |t| && s[..n] == t[..n] && s[n] != t[n] && s[n + 1..] == t[n + 1..]
    ensures Fnv1a(s) != Fnv1a(t)
  {
    if Fnv1a(s) == Fnv1a(t) {
      TailKeepsApart(s, t, n + 1);
      assert s[..n + 1][..n] == s[..n] && t[..n + 1][..n] == t[..n];
      var h := Fnv1a(s[..n]);
      OddMultiplierCancels(XorByte(h, s[n]), XorByte(h, t[n]));
      XorByteTellsBytes(h, s[n], t[n]);
    }
  }

  /*
   * Reserved identities
   */

  function HexDigit(n: nat): byte
    requires n < 16
  {
    if n < 10 then 48 + n else 87 + n
  }

  /** The low `width` hexadecimal digits of a number. */
  function Hex(n: nat, width: nat): (h: Bytes)
    ensures |h| == width
  {
    if width == 0 then [] else Hex(n / 16, width - 1) + [HexDigit(n % 16)]
  }

  function Pow16(width: nat): (n: nat)
    ensures n > 0
  {
    if width == 0 then 1 else 16 * Pow16(width - 1)
  }

  lemma {:induction false} HexInjective(m: nat, n: nat, width: nat)
    requires m < Pow16(width) && n < Pow16(width) && Hex(m, width) == Hex(n, width)
    ensures m == n
  {
    if width > 0 {
      var a, b := Hex(m, width), Hex(n, width);
      assert a[..width - 1] == Hex(m / 16, width - 1) && b[..width - 1] == Hex(n / 16, width - 1);
      assert a[width - 1] == b[width - 1];
      HexInjective(m / 16, n / 16, width - 1);
    }
  }

  lemma Pow16Is64()
    ensures Pow16(16) == TWO_64
  {
    assert Pow16(4) == 0x1_0000;
    assert Pow16(8) == 0x1_0000_0000;
    assert Pow16(12) == 0x1_0000_0000_0000;
  }

  /** The text of a reserved identity; `hash` is the campaign's. */
  function Text(hash: Bytes, m: MutationId): Bytes
    requires !m.ClientMutation?
  {
    match m
    case CreateCandidateOf(c) => Ascii("checkpoint-create-") + c
    case AcknowledgeOf(c, s) => Ascii("checkpoint-ack-") + (c + (Ascii("-") + s))
    case CommitOf(c) => Ascii("checkpoint-commit-") + c
    case BeginAt(n) => Ascii("recovery-begin-") + (hash + (Ascii("-r") + Decimal(n)))
    case LoadedBy(h, n) => Ascii("recovery-loaded-") + (Hex(h, 16) + (Ascii("-") + AttemptText(hash, n)))
    case RestoreOf(n) => Ascii("recovery-restore-") + AttemptText(hash, n)
    case AppliedBy(h, n) => Ascii("recovery-applied-") + (Hex(h, 16) + (Ascii("-") + AttemptText(hash, n)))
    case CompleteOf(n) => Ascii("recovery-complete-") + AttemptText(hash, n)
  }

  predicate Hashed(m: MutationId) {
    match m
    case LoadedBy(h, _) => h < TWO_64
    case AppliedBy(h, _) => h < TWO_64
    case _ => true
  }

  /** The operation in an identity shows within its first thirteen bytes. */
  function Marks(hash: Bytes, m: MutationId): (byte, byte, byte, byte)
    requires !m.ClientMutation? && |hash| == 16
  {
    var t := Text(hash, m);
    (t[0], t[9], t[11], t[12])
  }

  predicate SameOperation(m: MutationId, n: MutationId) {
    match (m, n)
    case (CreateCandidateOf(_), CreateCandidateOf(_)) => true
    case (AcknowledgeOf(_, _), AcknowledgeOf(_, _)) => true
    case (CommitOf(_), CommitOf(_)) => true
    case (BeginAt(_), BeginAt(_)) => true
    case (LoadedBy(_, _), LoadedBy(_, _)) => true
    case (RestoreOf(_), RestoreOf(_)) => true
    case (AppliedBy(_, _), AppliedBy(_, _)) => true
    case (CompleteOf(_), CompleteOf(_)) => true
    case _ => false
  }

  lemma MarksTell(hash: Bytes, m: MutationId, n: MutationId)
    requires !m.ClientMutation? && !n.ClientMutation? && |hash| == 16 && Text(hash, m) == Text(hash, n)
    ensures SameOperation(m, n)
  {
    assert Marks(hash, m) == Marks(hash, n);
  }

  lemma CutEqual(front: Bytes, a: Bytes, b: Bytes)
    requires front + a == front + b
    ensures a == b
  {
    assert (front + a)[|front|..] == a && (front + b)[|front|..] == b;
  }

  lemma SplitEqual(a: Bytes, b: Bytes, ra: Bytes, rb: Bytes)
    requires |a| == |b| && a + ra == b + rb
    ensures a == b && ra == rb
  {
    assert (a + ra)[..|a|] == a && (b + rb)[..|b|] == b;
    assert (a + ra)[|a|..] == ra && (b + rb)[|b|..] == rb;
  }

  /** A slot's name ends with a dash and the name of another slot. */
  predicate Ends(s: Id, t: Id) { |s| > |t| && s[|s| - |t| - 1..] == Ascii("-") + t }

  /** Two acknowledgements whose texts differ only in where the checkpoint ends: the
      slot of the first carries the rest of the checkpoint of the second. */
  predicate Shifted(m: MutationId, n: MutationId) {
    && m.AcknowledgeOf? && n.AcknowledgeOf? && Ends(m.slot, n.slot)
    && n.checkpoint == m.checkpoint + (Ascii("-") + m.slot[..|m.slot| - |n.slot| - 1])
  }

  lemma ShiftedCollide(c: Id, s: Id, t: Id)
    requires Ends(s, t)
    ensures c + (Ascii("-") + s) == c + (Ascii("-") + s[..|s| - |t| - 1]) + (Ascii("-") + t)
  {
    var k := |s| - |t| - 1;
    assert s == s[..k] + s[k..];
  }

  lemma CollideShifted(c: Id, s: Id, d: Id, t: Id)
    requires c + (Ascii("-") + s) == d + (Ascii("-") + t) && |s| > |t|
    ensures Ends(s, t) && d == c + (Ascii("-") + s[..|s| - |t| - 1])
  {
    var x, y, k := c + (Ascii("-") + s), d + (Ascii("-") + t), |s| - |t| - 1;
    assert y[|d|..] == Ascii("-") + t && x[|c| + 1..] == s;
    assert x[|c| + 1 + k..] == s[k..] && |d| == |c| + 1 + k;
    assert x[..|d|] == c + (Ascii("-") + s[..k]) && y[..|d|] == d;
  }

  lemma AcknowledgementsCollide(c: Id, s: Id, d: Id, t: Id)
    requires c + (Ascii("-") + s) == d + (Ascii("-") + t)
    ensures (c == d && s == t) || Shifted(AcknowledgeOf(c, s), AcknowledgeOf(d, t))
            || Shifted(AcknowledgeOf(d, t), AcknowledgeOf(c, s))
  {
    if |s| == |t| {
      SplitEqual(c, d, Ascii("-") + s, Ascii("-") + t);
      CutEqual(Ascii("-"), s, t);
    } else if |s| > |t| {
      CollideShifted(c, s, d, t);
    } else {
      CollideShifted(d, t, c, s);
    }
  }

  /** Two reserved identities have one text exactly when they are the same, or
      acknowledgements that are shifted against each other. */
  lemma TextsEqualIff(hash: Bytes, m: MutationId, n: MutationId)
    requires !m.ClientMutation? && !n.ClientMutation? && |hash| == 16 && Hashed(m) && Hashed(n)
    ensures Text(hash, m) == Text(hash, n) <==> m == n || Shifted(m, n) || Shifted(n, m)
  {
    hide Ascii;
    if Text(hash, m) == Text(hash, n) {
      SameText(hash, m, n);
    }
    if Shifted(m, n) {
      ShiftedCollide(m.checkpoint, m.slot, n.slot);
    }
    if Shifted(n, m) {
      ShiftedCollide(n.checkpoint, n.slot, m.slot);
    }
  }

  lemma SameText(hash: Bytes, m: MutationId, n: MutationId)
    requires !m.ClientMutation? && !n.ClientMutation? && |hash| == 16 && Hashed(m) && Hashed(n)
    requires Text(hash, m) == Text(hash, n)
    ensures m == n || Shifted(m, n) || Shifted(n, m)
  {
    hide Hex, Decimal, Ascii, AttemptText, Shifted;
    MarksTell(hash, m, n);
    match m
    case CreateCandidateOf(c) => CutEqual(Ascii("checkpoint-create-"), c, n.checkpoint);
    case CommitOf(c) => CutEqual(Ascii("checkpoint-commit-"), c, n.checkpoint);
    case AcknowledgeOf(c, s) =>
      CutEqual(Ascii("checkpoint-ack-"), c + (Ascii("-") + s), n.checkpoint + (Ascii("-") + n.slot));
      AcknowledgementsCollide(c, s, n.checkpoint, n.slot);
    case BeginAt(k) =>
      CutEqual(Ascii("recovery-begin-"), hash + (Ascii("-r") + Decimal(k)), hash + (Ascii("-r") + Decimal(n.expected)));
      CutEqual(hash, Ascii("-r") + Decimal(k), Ascii("-r") + Decimal(n.expected));
      CutEqual(Ascii("-r"), Decimal(k), Decimal(n.expected));
      DecimalInjective(k, n.expected);
    case LoadedBy(h, k) =>
      CutEqual(Ascii("recovery-loaded-"), Hex(h, 16) + (Ascii("-") + AttemptText(hash, k)),
               Hex(n.slotHash, 16) + (Ascii("-") + AttemptText(hash, n.attempt)));
      SlotAttempt(hash, h, k, n.slotHash, n.attempt);
    case AppliedBy(h, k) =>
      CutEqual(Ascii("recovery-applied-"), Hex(h, 16) + (Ascii("-") + AttemptText(hash, k)),
               Hex(n.slotHash, 16) + (Ascii("-") + AttemptText(hash, n.attempt)));
      SlotAttempt(hash, h, k, n.slotHash, n.attempt);
    case RestoreOf(k) =>
      CutEqual(Ascii("recovery-restore-"), AttemptText(hash, k), AttemptText(hash, n.attempt));
      AttemptTextInjective(hash, k, n.attempt);
    case CompleteOf(k) =>
      CutEqual(Ascii("recovery-complete-"), AttemptText(hash, k), AttemptText(hash, n.attempt));
      AttemptTextInjective(hash, k, n.attempt);
  }

  lemma SlotAttempt(hash: Bytes, g: nat, j: nat, h: nat, k: nat)
    requires g < TWO_64 && h < TWO_64
    requires Hex(g, 16) + (Ascii("-") + AttemptText(hash, j)) == Hex(h, 16) + (Ascii("-") + AttemptText(hash, k))
    ensures g == h && j == k
  {
    SplitEqual(Hex(g, 16), Hex(h, 16), Ascii("-") + AttemptText(hash, j), Ascii("-") + AttemptText(hash, k));
    Pow16Is64();
    HexInjective(g, h, 16);
    CutEqual(Ascii("-"), AttemptText(hash, j), AttemptText(hash, k));
    AttemptTextInjective(hash, j, k);
  }

  /** Some checkpoints give the acknowledgements of two different slots one text
      exactly when the name of one slot ends with a dash and the name of the other. */
  lemma SlotsCollideIff(hash: Bytes, s: Id, t: Id)
    requires s != t && |hash| == 16
    ensures (exists c, d :: Text(hash, AcknowledgeOf(c, s)) == Text(hash, AcknowledgeOf(d, t))) <==>
            Ends(s, t) || Ends(t, s)
  {
    hide Ascii;
    if Ends(s, t) {
      TextsEqualIff(hash, AcknowledgeOf([], s), AcknowledgeOf([] + (Ascii("-") + s[..|s| - |t| - 1]), t));
    } else if Ends(t, s) {
      TextsEqualIff(hash, AcknowledgeOf([] + (Ascii("-") + t[..|t| - |s| - 1]), s), AcknowledgeOf([], t));
    } else {
      forall c, d | Text(hash, AcknowledgeOf(c, s)) == Text(hash, AcknowledgeOf(d, t)) ensures false {
        TextsEqualIff(hash, AcknowledgeOf(c, s), AcknowledgeOf(d, t));
      }
    }
  }

  /** The store takes slots "c" and "b-c", and checkpoints "a-b" and "a". */
  lemma AcknowledgementsCanCollide(hash: Bytes)
    ensures var m := AcknowledgeOf([0x61, 0x2D, 0x62], [0x63]);
            var n := AcknowledgeOf([0x61], [0x62, 0x2D, 0x63]);
            m != n && Storable(m) && Storable(n) && Text(hash, m) == Text(hash, n)
  {
    assert Ascii("-") == [0x2D];
    assert [0x61, 0x2D, 0x62] + ([0x2D] + [0x63]) == [0x61] + ([0x2D] + [0x62, 0x2D, 0x63]);
  }

  /*
   * What the store takes
   */

  predicate Printable(s: Bytes) { forall i :: 0 <= i < |s| ==> 0x21 <= s[i] <= 0x7E }

  lemma PrintableConcat(a: Bytes, b: Bytes)
    ensures Printable(a + b) <==> Printable(a) && Printable(b)
  {
    assert forall i :: 0 <= i < |a| ==> (a + b)[i] == a[i];
    assert forall i :: 0 <= i < |b| ==> (a + b)[|a| + i] == b[i];
  }

  function Pow10(n: nat): (p: nat)
    ensures p > 0
  {
    if n == 0 then 1 else 10 * Pow10(n - 1)
  }

  lemma {:induction false} DecimalIsShort(n: nat, width: nat)
    requires width > 0 && n < Pow10(width)
    ensures |Decimal(n)| <= width && Printable(Decimal(n))
  {
    if n >= 10 {
      assert width > 1 by {
        assert Pow10(1) == 10;
      }
      DecimalIsShort(n / 10, width - 1);
    }
  }

  lemma Pow10Is20()
    ensures Pow10(20) == 100_000_000_000_000_000_000
  {
    assert Pow10(5) == 100_000;
    assert Pow10(10) == 10_000_000_000;
    assert Pow10(15) == 1_000_000_000_000_000;
  }

  lemma {:induction false} HexIsPrintable(n: nat, width: nat)
    ensures Printable(Hex(n, width))
  {
    if width > 0 {
      HexIsPrintable(n / 16, width - 1);
    }
  }

  lemma VersionIsShort(n: nat)
    requires n <= MAX_U64
    ensures |Decimal(n)| <= 20 && Printable(Decimal(n))
  {
    Pow10Is20();
    DecimalIsShort(n, 20);
  }

  lemma AsciiIsPrintable(s: string)
    requires forall i :: 0 <= i < |s| ==> 0x21 <= s[i] as int <= 0x7E
    ensures Printable(Ascii(s))
  {
  }

  /** The revisions inside an identity are those of a 64-bit version. */
  predicate Versioned(m: MutationId) {
    match m
    case BeginAt(n) => n <= MAX_U64
    case LoadedBy(_, n) => n <= MAX_U64
    case RestoreOf(n) => n <= MAX_U64
    case AppliedBy(_, n) => n <= MAX_U64
    case CompleteOf(n) => n <= MAX_U64
    case _ => true
  }

  /** The parts of an identity that the store checks on their own. */
  predicate PartsValid(m: MutationId) {
    match m
    case CreateCandidateOf(c) => ValidIdentity(c)
    case AcknowledgeOf(c, s) => ValidIdentity(c) && ValidIdentity(s)
    case CommitOf(c) => ValidIdentity(c)
    case _ => true
  }

  lemma ValidIsPrintable(s: Bytes)
    ensures ValidIdentity(s) <==> 0 < |s| <= MAX_IDENTITY && Printable(s)
  {
  }

  lemma AttemptTextIsShort(hash: Bytes, n: nat)
    requires |hash| == 16 && Printable(hash) && n <= MAX_U64
    ensures |AttemptText(hash, n)| <= 46 && Printable(AttemptText(hash, n))
  {
    hide Decimal, Printable;
    VersionIsShort(n);
    AsciiIsPrintable("restore-");
    AsciiIsPrintable("-r");
    PrintableConcat(Ascii("restore-"), hash);
    PrintableConcat(Ascii("restore-") + hash, Ascii("-r"));
    PrintableConcat(Ascii("restore-") + hash + Ascii("-r"), Decimal(n));
  }

  /** What the store takes are the identities whose parts and whose text are valid. */
  lemma StorableIff(hash: Bytes, m: MutationId)
    requires !m.ClientMutation? && |hash| == 16 && Printable(hash) && Versioned(m)
    ensures Storable(m) <==> PartsValid(m) && ValidIdentity(Text(hash, m))
  {
    hide Hex, Decimal, AttemptText, ValidIdentity, Printable;
    ValidIsPrintable(Text(hash, m));
    match m
    case CreateCandidateOf(c) =>
      ValidIsPrintable(c);
      PrefixedIsPrintable("checkpoint-create-", c);
    case AcknowledgeOf(c, s) =>
      ValidIsPrintable(c);
      ValidIsPrintable(s);
      PrefixedIsPrintable("-", s);
      PrintableConcat(c, Ascii("-") + s);
      PrefixedIsPrintable("checkpoint-ack-", c + (Ascii("-") + s));
    case CommitOf(c) =>
      ValidIsPrintable(c);
      PrefixedIsPrintable("checkpoint-commit-", c);
    case _ => RecoveryTextIsValid(hash, m);
  }

  lemma PrefixedIsPrintable(front: string, s: Bytes)
    requires forall i :: 0 <= i < |front| ==> 0x21 <= front[i] as int <= 0x7E
    ensures Printable(Ascii(front) + s) <==> Printable(s)
  {
    PrintableConcat(Ascii(front), s);
  }

  lemma BeginTextIsValid(hash: Bytes, n: nat)
    requires |hash| == 16 && Printable(hash) && n <= MAX_U64
    ensures |Text(hash, BeginAt(n))| <= MAX_IDENTITY && Printable(Text(hash, BeginAt(n)))
  {
    hide Decimal, Printable;
    VersionIsShort(n);
    PrefixedIsPrintable("-r", Decimal(n));
    PrintableConcat(hash, Ascii("-r") + Decimal(n));
    PrefixedIsPrintable("recovery-begin-", hash + (Ascii("-r") + Decimal(n)));
  }

  lemma RecoveryTextIsValid(hash: Bytes, m: MutationId)
    requires m.BeginAt? || m.LoadedBy? || m.RestoreOf? || m.AppliedBy? || m.CompleteOf?
    requires |hash| == 16 && Printable(hash) && Versioned(m)
    ensures |Text(hash, m)| <= MAX_IDENTITY && Printable(Text(hash, m))
  {
    hide Hex, Decimal, AttemptText, Printable;
    match m
    case BeginAt(n) => BeginTextIsValid(hash, n);
    case LoadedBy(h, n) =>
      SlotAttemptIsShort(hash, h, n);
      PrefixedIsPrintable("recovery-loaded-", Hex(h, 16) + (Ascii("-") + AttemptText(hash, n)));
    case AppliedBy(h, n) =>
      SlotAttemptIsShort(hash, h, n);
      PrefixedIsPrintable("recovery-applied-", Hex(h, 16) + (Ascii("-") + AttemptText(hash, n)));
    case RestoreOf(n) =>
      AttemptTextIsShort(hash, n);
      PrefixedIsPrintable("recovery-restore-", AttemptText(hash, n));
    case CompleteOf(n) =>
      AttemptTextIsShort(hash, n);
      PrefixedIsPrintable("recovery-complete-", AttemptText(hash, n));
  }

  lemma SlotAttemptIsShort(hash: Bytes, h: nat, n: nat)
    requires |hash| == 16 && Printable(hash) && n <= MAX_U64
    ensures var t := Hex(h, 16) + (Ascii("-") + AttemptText(hash, n)); |t| <= 63 && Printable(t)
  {
    hide Hex, AttemptText, Printable;
    HexIsPrintable(h, 16);
    AttemptTextIsShort(hash, n);
    PrefixedIsPrintable("-", AttemptText(hash, n));
    PrintableConcat(Hex(h, 16), Ascii("-") + AttemptText(hash, n));
  }
}
