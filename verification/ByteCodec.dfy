/** Little-endian scalars and length-prefixed text, with their readers.
    A reader takes the unread input and returns the value with what is left. */
module ByteCodec {
  import opened Basics

  datatype Read<+T> = Malformed | Got(value: T, rest: Bytes) {
    predicate IsFailure() { Malformed? }

    function PropagateFailure<U>(): Read<U>
      requires Malformed?
    {
      Malformed
    }

    function Extract(): (T, Bytes)
      requires Got?
    {
      (value, rest)
    }
  }

  function Pow256(width: nat): (n: nat)
    ensures n > 0
  {
    if width == 0 then 1 else 256 * Pow256(width - 1)
  }

  /** The low `width` bytes of `n`, least significant first. */
  function LittleEndian(n: nat, width: nat): (b: Bytes)
    ensures |b| == width
  {
    if width == 0 then [] else [n % 256] + LittleEndian(n / 256, width - 1)
  }

  function Number(b: Bytes): nat {
    if b == [] then 0 else b[0] + 256 * Number(b[1..])
  }

  lemma {:induction false} NumberOfLittleEndian(n: nat, width: nat)
    requires n < Pow256(width)
    ensures Number(LittleEndian(n, width)) == n
  {
    if width > 0 {
      NumberOfLittleEndian(n / 256, width - 1);
      assert LittleEndian(n, width)[1..] == LittleEndian(n / 256, width - 1);
    }
  }

  lemma {:induction false} LittleEndianOfNumber(b: Bytes)
    ensures LittleEndian(Number(b), |b|) == b
    ensures Number(b) < Pow256(|b|)
  {
    if b != [] {
      LittleEndianOfNumber(b[1..]);
      assert b == [b[0]] + b[1..];
    }
  }

  lemma {:induction false} NumberSnoc(b: Bytes, x: byte)
    ensures Number(b + [x]) == Number(b) + x * Pow256(|b|)
  {
    if b == [] {
      assert b + [x] == [x];
    } else {
      NumberSnoc(b[1..], x);
      assert (b + [x])[1..] == b[1..] + [x];
      assert 256 * (x * Pow256(|b| - 1)) == x * Pow256(|b|);
    }
  }

  lemma WidthLimits()
    ensures Pow256(1) == 256
    ensures Pow256(4) == MAX_U32 + 1
    ensures Pow256(8) == MAX_U64 + 1
  {
    assert Pow256(2) == 0x1_0000;
    assert Pow256(4) == 0x1_0000_0000;
    assert Pow256(6) == 0x1_0000_0000_0000;
  }

  function GetScalar(input: Bytes, width: nat): Read<nat> {
    if |input| < width then Malformed else Got(Number(input[..width]), input[width..])
  }

  lemma OneByte(input: Bytes)
    requires input != []
    ensures GetScalar(input, 1) == Got(input[0], input[1..])
  {
    var b := input[..1];
    assert Number(b) == b[0] + 256 * Number(b[1..]);
  }

  function GetBool(input: Bytes): Read<bool> {
    if |input| < 1 || input[0] > 1 then Malformed else Got(input[0] == 1, input[1..])
  }

  function BoolBytes(b: bool): Bytes { [if b then 1 else 0] }

  /** Text is prefixed by its 32-bit length. */
  function TextBytes(s: Bytes): Bytes { LittleEndian(|s|, 4) + s }

  function GetText(input: Bytes, limit: nat): Read<Bytes> {
    var n := GetScalar(input, 4);
    if n.Malformed? || n.value > limit || |n.rest| < n.value then Malformed
    else Got(n.rest[..n.value], n.rest[n.value..])
  }

  lemma ScalarRoundTrip(n: nat, width: nat, rest: Bytes)
    requires n < Pow256(width)
    ensures GetScalar(LittleEndian(n, width) + rest, width) == Got(n, rest)
  {
    NumberOfLittleEndian(n, width);
    var input := LittleEndian(n, width) + rest;
    assert input[..width] == LittleEndian(n, width) && input[width..] == rest;
  }

  lemma ScalarExact(input: Bytes, width: nat)
    ensures var r := GetScalar(input, width);
            r.Got? ==> input == LittleEndian(r.value, width) + r.rest && r.value < Pow256(width)
  {
    if |input| >= width {
      LittleEndianOfNumber(input[..width]);
    }
  }

  lemma BoolRoundTrip(b: bool, rest: Bytes)
    ensures GetBool(BoolBytes(b) + rest) == Got(b, rest)
  {
    assert (BoolBytes(b) + rest)[1..] == rest;
  }

  lemma BoolExact(input: Bytes)
    ensures var r := GetBool(input); r.Got? ==> input == BoolBytes(r.value) + r.rest
  {
  }

  lemma TextRoundTrip(s: Bytes, rest: Bytes, limit: nat)
    requires |s| <= limit <= MAX_U32
    ensures GetText(TextBytes(s) + rest, limit) == Got(s, rest)
  {
    WidthLimits();
    ScalarRoundTrip(|s|, 4, s + rest);
    assert TextBytes(s) + rest == LittleEndian(|s|, 4) + (s + rest);
    assert (s + rest)[..|s|] == s && (s + rest)[|s|..] == rest;
  }

  lemma TextExact(input: Bytes, limit: nat)
    ensures var r := GetText(input, limit);
            r.Got? ==> input == TextBytes(r.value) + r.rest && |r.value| <= limit
  {
    hide GetScalar, LittleEndian;
    var r := GetText(input, limit);
    if r.Got? {
      ScalarExact(input, 4);
      var n := GetScalar(input, 4);
      assert n.rest == r.value + r.rest;
      assert input == LittleEndian(n.value, 4) + (r.value + r.rest);
    }
  }

  /*
   * Lists of items
   */

  function Printed<T>(items: seq<T>, put: T -> Bytes): Bytes {
    if items == [] then [] else put(items[0]) + Printed(items[1..], put)
  }

  function GetItems<T>(input: Bytes, count: nat, get: Bytes -> Read<T>): Read<seq<T>>
    decreases count
  {
    if count == 0 then Got([], input)
    else
      var (item, rest) :- get(input);
      var (more, rest) :- GetItems(rest, count - 1, get);
      Got([item] + more, rest)
  }

  lemma {:induction false} ItemsRoundTrip<T>(items: seq<T>, put: T -> Bytes, get: Bytes -> Read<T>, rest: Bytes)
    requires forall i, tail: Bytes :: 0 <= i < |items| ==> get(put(items[i]) + tail) == Got(items[i], tail)
    ensures GetItems(Printed(items, put) + rest, |items|, get) == Got(items, rest)
  {
    if items == [] {
      assert Printed(items, put) + rest == rest;
    } else {
      var tail := Printed(items[1..], put) + rest;
      assert Printed(items, put) + rest == put(items[0]) + tail;
      ItemsRoundTrip(items[1..], put, get, rest);
      assert items == [items[0]] + items[1..];
    }
  }

  lemma {:induction false} ItemsExact<T>(input: Bytes, count: nat, put: T -> Bytes, get: Bytes -> Read<T>)
    requires forall b: Bytes :: get(b).Got? ==> b == put(get(b).value) + get(b).rest
    ensures var r := GetItems(input, count, get);
            r.Got? ==> |r.value| == count && input == Printed(r.value, put) + r.rest
    decreases count
  {
    var r := GetItems(input, count, get);
    if count > 0 && r.Got? {
      var item := get(input);
      ItemsExact(item.rest, count - 1, put, get);
      var more := GetItems(item.rest, count - 1, get);
      assert r.value[1..] == more.value;
      assert put(item.value) + (Printed(more.value, put) + r.rest)
          == (put(item.value) + Printed(more.value, put)) + r.rest;
    }
  }
}
