/** Which bytes each field occupies, and in which order. */
module WireLayout {
  import opened Prelude
  import opened Arithmetic
  import opened Encoding
  import opened Ledger
  import opened WireFormat

  // ----- Numbers -----

  /** Byte `i` is the digit of `n` for 256 to the power `i`: the least significant byte comes first. */
  ghost predicate Little(bytes: seq<byte>, n: nat) {
    forall i: nat | i < |bytes| :: bytes[i] == n / Radix(i) % 256
  }

  lemma {:induction false} LittleEndian(n: nat, k: nat)
    ensures Little(LeBytes(n, k), n)
  {
    if k > 0 {
      LittleEndian(n / 256, k - 1);
      var rest := LeBytes(n / 256, k - 1);
      forall i: nat | i < k
        ensures LeBytes(n, k)[i] == n / Radix(i) % 256
      {
        if i > 0 {
          assert LeBytes(n, k)[i] == rest[i - 1];
          DivDiv(n, 256, Radix(i - 1));
        }
      }
    }
  }

  /** A length takes one byte if it is small; otherwise a mark and the fewest of two, four or eight bytes
      that hold it. */
  lemma VarintLayout(n: u64)
    ensures var s := Varint(n);
            || (s == [n] && n <= 252)
            || (|s| == 3 && s[0] == 253 && Little(s[1..], n) && 252 < n < 0x1_0000)
            || (|s| == 5 && s[0] == 254 && Little(s[1..], n) && 0x1_0000 <= n < 0x1_0000_0000)
            || (|s| == 9 && s[0] == 255 && Little(s[1..], n) && 0x1_0000_0000 <= n)
  {
    hide LeBytes, Little;
    LittleEndian(n, 2);
    LittleEndian(n, 4);
    LittleEndian(n, 8);
    assert ([0xFD] + LeBytes(n, 2))[1..] == LeBytes(n, 2);
    assert ([0xFE] + LeBytes(n, 4))[1..] == LeBytes(n, 4);
    assert ([0xFF] + LeBytes(n, 8))[1..] == LeBytes(n, 8);
  }

  // ----- Lists -----

  /** Where value `k` starts: behind the values before it. */
  ghost function Offset<T>(encode: T -> seq<byte>, values: seq<T>, k: nat): nat
    requires k <= |values|
  {
    if k == 0 then 0 else Offset(encode, values, k - 1) + |encode(values[k - 1])|
  }

  lemma {:induction false} OffsetBehind<T>(encode: T -> seq<byte>, values: seq<T>, k: nat)
    requires 0 < k <= |values|
    ensures Offset(encode, values, k) == |encode(values[0])| + Offset(encode, values[1..], k - 1)
  {
    if k > 1 {
      OffsetBehind(encode, values, k - 1);
    }
  }

  lemma NothingEncoded<T>(encode: T -> seq<byte>)
    ensures EncodeAll(encode, []) == []
  {
  }

  lemma Behind<T>(encode: T -> seq<byte>, values: seq<T>)
    requires values != []
    ensures EncodeAll(encode, values) == encode(values[0]) + EncodeAll(encode, values[1..])
  {
  }

  lemma SliceBehind(head: seq<byte>, tail: seq<byte>, a: nat, b: nat)
    requires a <= b <= |tail|
    ensures (head + tail)[|head| + a..|head| + b] == tail[a..b]
  {
  }

  lemma {:induction false} AllLayout<T>(encode: T -> seq<byte>, values: seq<T>, k: nat)
    requires k <= |values|
    ensures var s := EncodeAll(encode, values);
            && Offset(encode, values, k) <= Offset(encode, values, |values|) == |s|
            && (k < |values| ==> Offset(encode, values, k + 1) <= |s|
                                 && s[Offset(encode, values, k)..Offset(encode, values, k + 1)] == encode(values[k]))
  {
    hide EncodeAll;
    if values == [] {
      NothingEncoded(encode);
    } else {
      var head, tail := encode(values[0]), EncodeAll(encode, values[1..]);
      Behind(encode, values);
      OffsetBehind(encode, values, |values|);
      if k == 0 {
        AllLayout(encode, values[1..], 0);
        assert Offset(encode, values, 1) == |head|;
        assert (head + tail)[..|head|] == head;
      } else {
        AllLayout(encode, values[1..], k - 1);
        OffsetBehind(encode, values, k);
        if k < |values| {
          OffsetBehind(encode, values, k + 1);
          SliceBehind(head, tail, Offset(encode, values[1..], k - 1), Offset(encode, values[1..], k));
        }
      }
    }
  }

  /** A list is its length and then its values, each where the ones before it end. */
  lemma ListLayout<T>(encode: T -> seq<byte>, values: seq<T>, k: nat)
    requires k < |values|
    ensures var s, start := Listed(encode, values), |Varint(|values|)|;
            && start + Offset(encode, values, k + 1) <= |s| == start + Offset(encode, values, |values|)
            && s[..start] == Varint(|values|)
            && s[start + Offset(encode, values, k)..start + Offset(encode, values, k + 1)] == encode(values[k])
  {
    hide Varint, EncodeAll;
    AllLayout(encode, values, k);
    SliceBehind(Varint(|values|), EncodeAll(encode, values), Offset(encode, values, k), Offset(encode, values, k + 1));
  }

  // ----- Records -----

  /** A header is 114 bytes: version, previous block, root, time, difficulty, nonce. */
  lemma HeaderLayout(h: BlockHeader)
    ensures var s := EncodeHeader(h);
            && |s| == 114
            && Little(s[..2], h.version)
            && s[2..34] == h.previousBlock && s[34..66] == h.transactionRoot
            && Little(s[66..74], h.timestamp)
            && s[74..106] == h.difficulty
            && Little(s[106..], h.nonce)
  {
    hide LeBytes, Little;
    LittleEndian(h.version, 2);
    LittleEndian(h.timestamp, 8);
    LittleEndian(h.nonce, 8);
    var s := EncodeHeader(h);
    assert s[..2] == LeBytes(h.version, 2);
    assert s[66..74] == LeBytes(h.timestamp, 8);
    assert s[106..] == LeBytes(h.nonce, 8);
  }

  /** An input: the transaction and the output it spends, its sequence number, and its witness items. */
  lemma InputLayout(input: TxInput)
    ensures var s := EncodeInput(input);
            && |s| >= 40
            && s[..32] == input.previousTxid
            && Little(s[32..36], input.previousIndex) && Little(s[36..40], input.sequence)
            && s[40..] == Listed(Blob, input.items)
  {
    hide LeBytes, Little, Listed;
    LittleEndian(input.previousIndex, 4);
    LittleEndian(input.sequence, 4);
    var s := EncodeInput(input);
    assert s[32..36] == LeBytes(input.previousIndex, 4);
    assert s[36..40] == LeBytes(input.sequence, 4);
    assert s[40..] == Listed(Blob, input.items);
  }

  /** An output: its value, and its program behind its length. */
  lemma OutputLayout(output: TxOutput)
    ensures var s, start := EncodeOutput(output), 8 + |Varint(|output.program|)|;
            && |s| == start + |output.program|
            && Little(s[..8], output.value)
            && s[8..start] == Varint(|output.program|) && s[start..] == output.program
  {
    hide LeBytes, Little, Varint;
    LittleEndian(output.value, 8);
    assert EncodeOutput(output)[..8] == LeBytes(output.value, 8);
  }

  /** A transaction: version, inputs, outputs, and the lock time in the last eight bytes. */
  lemma TransactionLayout(tx: Transaction)
    ensures var s := EncodeTransaction(tx);
            var middle := 2 + |Listed(EncodeInput, tx.inputs)|;
            var last := middle + |Listed(EncodeOutput, tx.outputs)|;
            && |s| == last + 8
            && Little(s[..2], tx.version)
            && s[2..middle] == Listed(EncodeInput, tx.inputs)
            && s[middle..last] == Listed(EncodeOutput, tx.outputs)
            && Little(s[last..], tx.lockTime)
  {
    hide LeBytes, Little, Listed;
    LittleEndian(tx.version, 2);
    LittleEndian(tx.lockTime, 8);
    var s := EncodeTransaction(tx);
    assert s[..2] == LeBytes(tx.version, 2);
    assert s[|s| - 8..] == LeBytes(tx.lockTime, 8);
  }

  /** A block: the header, then its transactions. */
  lemma BlockLayout(block: Block)
    ensures var s := EncodeBlock(block);
            |s| >= 114 && s[..114] == EncodeHeader(block.header)
                && s[114..] == Listed(EncodeTransaction, block.transactions)
  {
    hide EncodeHeader, Listed;
    HeaderLayout(block.header);
  }
}
