/** The canonical byte encoding: little-endian integers, varints, lengths, byte strings and lists.

    Each reader takes the remaining input and returns a value and what is left.  A reader is exact
    for an encoder when it accepts precisely the encodings of the allowed values. */
module Encoding {
  import opened Prelude

  datatype DecodeError =
    | UnexpectedEof
    | NonCanonicalVarInt
    | LengthLimitExceeded
    | InvalidVersion(version: u16)
    | AmountAboveMaximum
    | EmptyBlockTransactions
    | TrailingBytes

  datatype Parsed<+T> = Parsed(value: T, rest: seq<byte>)

  type Outcome<+T> = Result<Parsed<T>, DecodeError>

  type Reader<!T> = seq<byte> -> Outcome<T>

  // ----- Fixed-width integers -----

  /** 256 to the power `k`. */
  function Radix(k: nat): (n: nat)
    ensures n > 0
  {
    if k == 0 then 1 else 256 * Radix(k - 1)
  }

  lemma RadixValues()
    ensures Radix(2) == U16_MAX + 1 && Radix(4) == U32_MAX + 1 && Radix(8) == U64_MAX + 1
  {
    assert Radix(2) == 256 * Radix(1);
    assert Radix(4) == 256 * Radix(3) && Radix(3) == 256 * Radix(2);
    assert Radix(8) == 256 * Radix(7) && Radix(7) == 256 * Radix(6) && Radix(6) == 256 * Radix(5)
           && Radix(5) == 256 * Radix(4);
  }

  function LeBytes(n: nat, k: nat): (bytes: seq<byte>)
    ensures |bytes| == k
  {
    if k == 0 then [] else [n % 256] + LeBytes(n / 256, k - 1)
  }

  function FromLe(bytes: seq<byte>): (n: nat)
    ensures n < Radix(|bytes|)
  {
    if bytes == [] then 0 else bytes[0] + 256 * FromLe(bytes[1..])
  }

  lemma {:induction false} FromLeOfLe(n: nat, k: nat)
    requires n < Radix(k)
    ensures FromLe(LeBytes(n, k)) == n
  {
    if k > 0 {
      FromLeOfLe(n / 256, k - 1);
      assert LeBytes(n, k)[1..] == LeBytes(n / 256, k - 1);
    }
  }

  lemma {:induction false} LeOfFromLe(bytes: seq<byte>)
    ensures LeBytes(FromLe(bytes), |bytes|) == bytes
  {
    if bytes != [] {
      LeOfFromLe(bytes[1..]);
      assert FromLe(bytes) / 256 == FromLe(bytes[1..]) && FromLe(bytes) % 256 == bytes[0];
      assert [bytes[0]] + bytes[1..] == bytes;
    }
  }

  // ----- Readers -----

  function ReadBytes(s: seq<byte>, n: nat): (r: Outcome<seq<byte>>)
    ensures r.Success? ==> |r.value.value| == n && s == r.value.value + r.value.rest
  {
    if n > |s| then Failure(UnexpectedEof) else Success(Parsed(s[..n], s[n..]))
  }

  function ReadInt(s: seq<byte>, k: nat): Outcome<nat> {
    var bytes :- ReadBytes(s, k);
    Success(Parsed(FromLe(bytes.value), bytes.rest))
  }

  /** The shortest of four forms; any longer form of the same number is refused. */
  function Varint(n: nat): (bytes: seq<byte>) {
    if n <= 0xFC then [n]
    else if n <= U16_MAX then [0xFD] + LeBytes(n, 2)
    else if n <= U32_MAX then [0xFE] + LeBytes(n, 4)
    else [0xFF] + LeBytes(n, 8)
  }

  function ReadWide(s: seq<byte>, width: nat, least: nat): Outcome<nat> {
    var wide :- ReadInt(s, width);
    if wide.value < least then Failure(NonCanonicalVarInt) else Success(wide)
  }

  function ReadVarint(s: seq<byte>): Outcome<nat> {
    if s == [] then Failure(UnexpectedEof)
    else if s[0] <= 0xFC then Success(Parsed(s[0], s[1..]))
    else if s[0] == 0xFD then ReadWide(s[1..], 2, 0xFD)
    else if s[0] == 0xFE then ReadWide(s[1..], 4, U16_MAX + 1)
    else ReadWide(s[1..], 8, U32_MAX + 1)
  }

  function ReadLen(s: seq<byte>, max: nat): Outcome<nat> {
    var len :- ReadVarint(s);
    if len.value > max then Failure(LengthLimitExceeded) else Success(len)
  }

  /** A byte string with its length in front. */
  function Blob(bytes: seq<byte>): seq<byte> {
    Varint(|bytes|) + bytes
  }

  function ReadBlob(s: seq<byte>, max: nat): Outcome<seq<byte>> {
    var len :- ReadLen(s, max);
    ReadBytes(len.rest, len.value)
  }

  // ----- Exactness -----

  lemma BytesExact(s: seq<byte>, n: nat, v: seq<byte>, rest: seq<byte>)
    ensures ReadBytes(s, n) == Success(Parsed(v, rest)) <==> |v| == n && s == v + rest
  {
    if |v| == n && s == v + rest {
      assert s[..n] == v && s[n..] == rest;
    }
  }

  lemma IntExact(s: seq<byte>, k: nat, v: nat, rest: seq<byte>)
    ensures ReadInt(s, k) == Success(Parsed(v, rest)) <==> v < Radix(k) && s == LeBytes(v, k) + rest
  {
    hide FromLe, LeBytes, Radix;
    if v < Radix(k) && s == LeBytes(v, k) + rest {
      FromLeOfLe(v, k);
      BytesExact(s, k, LeBytes(v, k), rest);
    }
    var bytes := ReadBytes(s, k);
    if bytes.Success? {
      LeOfFromLe(bytes.value.value);
    }
  }

  lemma WideExact(s: seq<byte>, width: nat, least: nat, v: nat, rest: seq<byte>)
    ensures ReadWide(s, width, least) == Success(Parsed(v, rest)) <==>
              least <= v < Radix(width) && s == LeBytes(v, width) + rest
  {
    hide LeBytes, Radix, ReadInt;
    IntExact(s, width, v, rest);
  }

  lemma SplitFirst(s: seq<byte>, a: seq<byte>, b: seq<byte>)
    requires s != [] && a != []
    ensures s == a + b <==> s[0] == a[0] && s[1..] == a[1..] + b
  {
    if s[0] == a[0] && s[1..] == a[1..] + b {
      assert s == [s[0]] + s[1..];
    }
    if s == a + b {
      assert s[1..] == a[1..] + b;
    }
  }

  /** The reader accepts exactly the canonical varints of 64-bit numbers. */
  lemma VarintExact(s: seq<byte>, v: nat, rest: seq<byte>)
    ensures ReadVarint(s) == Success(Parsed(v, rest)) <==> v <= U64_MAX && s == Varint(v) + rest
  {
    hide LeBytes, Radix, ReadWide;
    RadixValues();
    if s != [] {
      WideExact(s[1..], 2, 0xFD, v, rest);
      WideExact(s[1..], 4, U16_MAX + 1, v, rest);
      WideExact(s[1..], 8, U32_MAX + 1, v, rest);
      SplitFirst(s, Varint(v), rest);
      assert v <= 0xFC ==> Varint(v)[1..] == [];
      assert v > 0xFC ==> Varint(v)[1..] == LeBytes(v, if v <= U16_MAX then 2 else if v <= U32_MAX then 4 else 8);
    }
  }

  /** Two numbers with the same varint are equal. */
  lemma VarintInjective(a: nat, b: nat)
    requires a <= U64_MAX && b <= U64_MAX && Varint(a) == Varint(b)
    ensures a == b
  {
    hide Varint, ReadVarint;
    assert Varint(a) + [] == Varint(a) && Varint(b) + [] == Varint(b);
    VarintExact(Varint(a), a, []);
    VarintExact(Varint(b), b, []);
  }

  lemma LenExact(s: seq<byte>, max: nat, v: nat, rest: seq<byte>)
    requires max <= U64_MAX
    ensures ReadLen(s, max) == Success(Parsed(v, rest)) <==> v <= max && s == Varint(v) + rest
  {
    hide Varint, ReadVarint;
    VarintExact(s, v, rest);
  }

  lemma BlobExact(s: seq<byte>, max: nat, v: seq<byte>, rest: seq<byte>)
    requires max <= U64_MAX
    ensures ReadBlob(s, max) == Success(Parsed(v, rest)) <==> |v| <= max && s == Blob(v) + rest
  {
    hide Varint, ReadLen, ReadBytes;
    assert Blob(v) + rest == Varint(|v|) + (v + rest);
    LenExact(s, max, |v|, v + rest);
    BytesExact(v + rest, |v|, v, rest);
    var len := ReadLen(s, max);
    if len.Success? {
      LenExact(s, max, len.value.value, len.value.rest);
      BytesExact(len.value.rest, len.value.value, v, rest);
    }
  }

  // ----- Lists -----

  /** `read` accepts exactly the encodings of the values that are `ok`. */
  ghost predicate Exact<T(!new)>(read: Reader<T>, encode: T -> seq<byte>, ok: T -> bool) {
    forall s, v, rest :: read(s) == Success(Parsed(v, rest)) <==> ok(v) && s == encode(v) + rest
  }

  function ReadMany<T>(read: Reader<T>, n: nat, s: seq<byte>): Outcome<seq<T>> {
    if n == 0 then Success(Parsed([], s))
    else
      var first :- read(s);
      var others :- ReadMany(read, n - 1, first.rest);
      Success(Parsed([first.value] + others.value, others.rest))
  }

  function EncodeAll<T>(encode: T -> seq<byte>, values: seq<T>): seq<byte> {
    if values == [] then [] else encode(values[0]) + EncodeAll(encode, values[1..])
  }

  ghost predicate AllOk<T>(ok: T -> bool, values: seq<T>) {
    forall i | 0 <= i < |values| :: ok(values[i])
  }

  lemma ConsEncodes<T>(encode: T -> seq<byte>, ok: T -> bool, s: seq<byte>, first: Parsed<T>, others: Parsed<seq<T>>)
    requires ok(first.value) && s == encode(first.value) + first.rest
    requires AllOk(ok, others.value) && first.rest == EncodeAll(encode, others.value) + others.rest
    ensures AllOk(ok, [first.value] + others.value)
    ensures s == EncodeAll(encode, [first.value] + others.value) + others.rest
  {
    var all := [first.value] + others.value;
    assert all[1..] == others.value && all[0] == first.value;
  }

  lemma {:induction false} ManySound<T(!new)>(read: Reader<T>, encode: T -> seq<byte>, ok: T -> bool, n: nat,
                                              s: seq<byte>)
    requires Exact(read, encode, ok)
    ensures var r := ReadMany(read, n, s);
            r.Success? ==> |r.value.value| == n && AllOk(ok, r.value.value)
                           && s == EncodeAll(encode, r.value.value) + r.value.rest
  {
    if n > 0 && read(s).Success? {
      var first := read(s).value;
      assert read(s) == Success(Parsed(first.value, first.rest));
      ManySound(read, encode, ok, n - 1, first.rest);
      var others := ReadMany(read, n - 1, first.rest);
      if others.Success? {
        ConsEncodes(encode, ok, s, first, others.value);
      }
    }
  }

  lemma {:induction false} ManyComplete<T(!new)>(read: Reader<T>, encode: T -> seq<byte>, ok: T -> bool,
                                                 values: seq<T>, rest: seq<byte>)
    requires Exact(read, encode, ok) && AllOk(ok, values)
    ensures ReadMany(read, |values|, EncodeAll(encode, values) + rest) == Success(Parsed(values, rest))
  {
    var s := EncodeAll(encode, values) + rest;
    if values == [] {
      assert s == rest;
    } else {
      var more := EncodeAll(encode, values[1..]) + rest;
      assert s == encode(values[0]) + more;
      assert read(s) == Success(Parsed(values[0], more));
      ManyComplete(read, encode, ok, values[1..], rest);
      assert [values[0]] + values[1..] == values;
    }
  }

  lemma ManyExact<T(!new)>(read: Reader<T>, encode: T -> seq<byte>, ok: T -> bool, n: nat,
                           s: seq<byte>, values: seq<T>, rest: seq<byte>)
    requires Exact(read, encode, ok)
    ensures ReadMany(read, n, s) == Success(Parsed(values, rest))
       <==> |values| == n && AllOk(ok, values) && s == EncodeAll(encode, values) + rest
  {
    ManySound(read, encode, ok, n, s);
    if |values| == n && AllOk(ok, values) && s == EncodeAll(encode, values) + rest {
      ManyComplete(read, encode, ok, values, rest);
    }
  }

  /** A list with its length in front. */
  function Listed<T>(encode: T -> seq<byte>, values: seq<T>): seq<byte> {
    Varint(|values|) + EncodeAll(encode, values)
  }

  function ReadList<T>(read: Reader<T>, max: nat, s: seq<byte>): Outcome<seq<T>> {
    var len :- ReadLen(s, max);
    ReadMany(read, len.value, len.rest)
  }

  lemma ListExact<T(!new)>(read: Reader<T>, encode: T -> seq<byte>, ok: T -> bool, max: nat, s: seq<byte>,
                           values: seq<T>, rest: seq<byte>)
    requires max <= U64_MAX && Exact(read, encode, ok)
    ensures ReadList(read, max, s) == Success(Parsed(values, rest))
       <==> |values| <= max && AllOk(ok, values) && s == Listed(encode, values) + rest
  {
    hide Varint, ReadLen, ReadMany, EncodeAll, AllOk;
    var body := EncodeAll(encode, values);
    assert Listed(encode, values) + rest == Varint(|values|) + (body + rest);
    LenExact(s, max, |values|, body + rest);
    ManyExact(read, encode, ok, |values|, body + rest, values, rest);
    var len := ReadLen(s, max);
    if len.Success? {
      LenExact(s, max, len.value.value, len.value.rest);
      ManyExact(read, encode, ok, len.value.value, len.value.rest, values, rest);
    }
  }
}
