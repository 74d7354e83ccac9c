/** The decoder object and the encoding loops, proved equal to the wire format. */
module WireDecoder {
  import opened Prelude
  import opened Encoding
  import opened Ledger
  import opened WireFormat

  /** The call returned what the specification reads, and left the decoder where it ends. */
  ghost predicate Follows<T(!new)>(spec: Outcome<T>, r: Result<T, DecodeError>, rest: seq<byte>) {
    && (spec.Failure? ==> r == Failure(spec.error))
    && (spec.Success? ==> r == Success(spec.value.value) && rest == spec.value.rest)
  }

  /** A list read so far, followed by what reading the others gives. */
  ghost function Prepend<T>(read: seq<T>, others: Outcome<seq<T>>): Outcome<seq<T>> {
    if others.Failure? then others else Success(Parsed(read + others.value.value, others.value.rest))
  }

  lemma ManyStep<T>(read: Reader<T>, n: nat, s: seq<byte>, done: seq<T>)
    requires n > 0
    ensures var first := read(s);
            Prepend(done, ReadMany(read, n, s))
            == if first.Failure? then Failure(first.error)
               else Prepend(done + [first.value.value], ReadMany(read, n - 1, first.value.rest))
  {
    var first := read(s);
    if first.Success? {
      var others := ReadMany(read, n - 1, first.value.rest);
      if others.Success? {
        assert done + ([first.value.value] + others.value.value) == done + [first.value.value] + others.value.value;
      }
    }
  }

  lemma ManyStart<T>(r: Outcome<seq<T>>)
    ensures Prepend([], r) == r
  {
    if r.Success? {
      assert [] + r.value.value == r.value.value;
    }
  }

  lemma ManyEnd<T>(read: Reader<T>, s: seq<byte>, done: seq<T>)
    ensures Prepend(done, ReadMany(read, 0, s)) == Success(Parsed(done, s))
  {
    assert done + [] == done;
  }

  class Decoder {
    const input: seq<byte>
    var offset: nat

    ghost predicate Valid()
      reads this
    {
      offset <= |input|
    }

    ghost function Rest(): seq<byte>
      requires Valid()
      reads this
    {
      input[offset..]
    }

    constructor (input: seq<byte>)
      ensures Valid() && this.input == input && Rest() == input
    {
      this.input := input;
      offset := 0;
    }

    method TakeByte() returns (r: Result<byte, DecodeError>)
      requires Valid()
      modifies this
      ensures Valid()
      ensures r == if old(Rest()) == [] then Failure(UnexpectedEof) else Success(old(Rest())[0])
      ensures r.Success? ==> Rest() == old(Rest())[1..]
    {
      if offset >= |input| {
        return Failure(UnexpectedEof);
      }
      var b := input[offset];
      offset := offset + 1;
      return Success(b);
    }

    method TakeBytes(n: nat) returns (r: Result<seq<byte>, DecodeError>)
      requires Valid()
      modifies this
      ensures Valid() && Follows(ReadBytes(old(Rest()), n), r, Rest())
    {
      if offset + n > |input| {
        return Failure(UnexpectedEof);
      }
      var bytes := input[offset..offset + n];
      assert bytes == Rest()[..n];
      offset := offset + n;
      return Success(bytes);
    }

    method TakeInt(k: nat) returns (r: Result<nat, DecodeError>)
      requires Valid()
      modifies this
      ensures Valid() && Follows(ReadInt(old(Rest()), k), r, Rest())
    {
      var bytes := TakeBytes(k);
      if bytes.Failure? {
        return Failure(bytes.error);
      }
      return Success(FromLe(bytes.value));
    }

    method TakeVarint() returns (r: Result<nat, DecodeError>)
      requires Valid()
      modifies this
      ensures Valid() && Follows(ReadVarint(old(Rest())), r, Rest())
    {
      hide ReadInt;
      var marker := TakeByte();
      if marker.Failure? {
        return Failure(marker.error);
      }
      if marker.value <= 0xFC {
        return Success(marker.value);
      }
      var width, least := 8, U32_MAX + 1;
      if marker.value == 0xFD {
        width, least := 2, 0xFD;
      } else if marker.value == 0xFE {
        width, least := 4, U16_MAX + 1;
      }
      var value := TakeInt(width);
      if value.Success? && value.value < least {
        return Failure(NonCanonicalVarInt);
      }
      return value;
    }

    method TakeLen(max: nat) returns (r: Result<nat, DecodeError>)
      requires Valid()
      modifies this
      ensures Valid() && Follows(ReadLen(old(Rest()), max), r, Rest())
    {
      hide ReadVarint;
      var len := TakeVarint();
      if len.Success? && len.value > max {
        return Failure(LengthLimitExceeded);
      }
      return len;
    }

    method TakeBlob(max: nat) returns (r: Result<seq<byte>, DecodeError>)
      requires Valid()
      modifies this
      ensures Valid() && Follows(ReadBlob(old(Rest()), max), r, Rest())
    {
      hide ReadLen, ReadBytes;
      var len := TakeLen(max);
      if len.Failure? {
        return Failure(len.error);
      }
      r := TakeBytes(len.value);
    }

    method Finish() returns (r: Result<(), DecodeError>)
      requires Valid()
      ensures r == if Rest() == [] then Success(()) else Failure(TrailingBytes)
    {
      return if offset == |input| then Success(()) else Failure(TrailingBytes);
    }

    method TakeWitness(limits: Limits) returns (r: Result<seq<seq<byte>>, DecodeError>)
      requires Valid()
      modifies this
      ensures Valid() && Follows(ReadList(WitnessItem(limits), limits.maxWitnessItems, old(Rest())), r, Rest())
    {
      hide ReadLen, ReadBlob, ReadMany;
      var count := TakeLen(limits.maxWitnessItems);
      if count.Failure? {
        return Failure(count.error);
      }
      var items: seq<seq<byte>> := [];
      ghost var all := ReadMany(WitnessItem(limits), count.value, Rest());
      ManyStart(all);
      for i := 0 to count.value
        invariant Valid() && all == Prepend(items, ReadMany(WitnessItem(limits), count.value - i, Rest()))
      {
        ManyStep(WitnessItem(limits), count.value - i, Rest(), items);
        var item := TakeBlob(limits.maxWitnessItemBytes);
        if item.Failure? {
          return Failure(item.error);
        }
        items := items + [item.value];
      }
      ManyEnd(WitnessItem(limits), Rest(), items);
      return Success(items);
    }

    method TakeInput(limits: Limits) returns (r: Result<TxInput, DecodeError>)
      requires Valid()
      modifies this
      ensures Valid() && Follows(ReadInput(old(Rest()), limits), r, Rest())
    {
      hide ReadBytes, ReadList, ReadInt, WitnessItem;
      var txid := TakeBytes(32);
      if txid.Failure? {
        return Failure(txid.error);
      }
      var index := TakeU32();
      if index.Failure? {
        return Failure(index.error);
      }
      var sequence := TakeU32();
      if sequence.Failure? {
        return Failure(sequence.error);
      }
      var items := TakeWitness(limits);
      if items.Failure? {
        return Failure(items.error);
      }
      return Success(TxInput(txid.value, index.value, sequence.value, items.value));
    }

    method TakeU16() returns (r: Result<u16, DecodeError>)
      requires Valid()
      modifies this
      ensures Valid() && Follows(ReadU16(old(Rest())), r, Rest())
    {
      RadixValues();
      var n := TakeInt(2);
      if n.Failure? {
        return Failure(n.error);
      }
      return Success(n.value);
    }

    method TakeU32() returns (r: Result<u32, DecodeError>)
      requires Valid()
      modifies this
      ensures Valid() && Follows(ReadU32(old(Rest())), r, Rest())
    {
      RadixValues();
      var n := TakeInt(4);
      if n.Failure? {
        return Failure(n.error);
      }
      return Success(n.value);
    }

    method TakeU64() returns (r: Result<u64, DecodeError>)
      requires Valid()
      modifies this
      ensures Valid() && Follows(ReadU64(old(Rest())), r, Rest())
    {
      RadixValues();
      var n := TakeInt(8);
      if n.Failure? {
        return Failure(n.error);
      }
      return Success(n.value);
    }

    method TakeOutput(limits: Limits) returns (r: Result<TxOutput, DecodeError>)
      requires Valid()
      modifies this
      ensures Valid() && Follows(ReadOutput(old(Rest()), limits), r, Rest())
    {
      hide ReadU64, ReadBlob;
      var value := TakeU64();
      if value.Failure? {
        return Failure(value.error);
      }
      if value.value > MAX_SUPPLY_BASE_UNITS {
        return Failure(AmountAboveMaximum);
      }
      var program := TakeBlob(limits.maxProgramBytes);
      if program.Failure? {
        return Failure(program.error);
      }
      return Success(TxOutput(value.value, program.value));
    }

    method TakeInputs(limits: Limits) returns (r: Result<seq<TxInput>, DecodeError>)
      requires Valid()
      modifies this
      ensures Valid() && Follows(ReadList(InputReader(limits), limits.maxInputs, old(Rest())), r, Rest())
    {
      hide ReadLen, ReadInput, ReadMany;
      var count := TakeLen(limits.maxInputs);
      if count.Failure? {
        return Failure(count.error);
      }
      var inputs: seq<TxInput> := [];
      ghost var all := ReadMany(InputReader(limits), count.value, Rest());
      ManyStart(all);
      for i := 0 to count.value
        invariant Valid() && all == Prepend(inputs, ReadMany(InputReader(limits), count.value - i, Rest()))
      {
        ManyStep(InputReader(limits), count.value - i, Rest(), inputs);
        var input := TakeInput(limits);
        if input.Failure? {
          return Failure(input.error);
        }
        inputs := inputs + [input.value];
      }
      ManyEnd(InputReader(limits), Rest(), inputs);
      return Success(inputs);
    }

    method TakeOutputs(limits: Limits) returns (r: Result<seq<TxOutput>, DecodeError>)
      requires Valid()
      modifies this
      ensures Valid() && Follows(ReadList(OutputReader(limits), limits.maxOutputs, old(Rest())), r, Rest())
    {
      hide ReadLen, ReadOutput, ReadMany;
      var count := TakeLen(limits.maxOutputs);
      if count.Failure? {
        return Failure(count.error);
      }
      var outputs: seq<TxOutput> := [];
      ghost var all := ReadMany(OutputReader(limits), count.value, Rest());
      ManyStart(all);
      for i := 0 to count.value
        invariant Valid() && all == Prepend(outputs, ReadMany(OutputReader(limits), count.value - i, Rest()))
      {
        ManyStep(OutputReader(limits), count.value - i, Rest(), outputs);
        var output := TakeOutput(limits);
        if output.Failure? {
          return Failure(output.error);
        }
        outputs := outputs + [output.value];
      }
      ManyEnd(OutputReader(limits), Rest(), outputs);
      return Success(outputs);
    }

    method TakeTransaction(limits: Limits) returns (r: Result<Transaction, DecodeError>)
      requires Valid()
      modifies this
      ensures Valid() && Follows(ReadTransaction(old(Rest()), limits), r, Rest())
    {
      hide ReadU16, ReadU64, ReadList, InputReader, OutputReader;
      var version := TakeU16();
      if version.Failure? {
        return Failure(version.error);
      }
      if version.value != 1 {
        return Failure(InvalidVersion(version.value));
      }
      var inputs := TakeInputs(limits);
      if inputs.Failure? {
        return Failure(inputs.error);
      }
      var outputs := TakeOutputs(limits);
      if outputs.Failure? {
        return Failure(outputs.error);
      }
      var lockTime := TakeU64();
      if lockTime.Failure? {
        return Failure(lockTime.error);
      }
      return Success(Transaction(version.value, inputs.value, outputs.value, lockTime.value));
    }

    method TakeHeader() returns (r: Result<BlockHeader, DecodeError>)
      requires Valid()
      modifies this
      ensures Valid() && Follows(ReadHeader(old(Rest())), r, Rest())
    {
      hide ReadU16, ReadU64;
      var version := TakeU16();
      if version.Failure? {
        return Failure(version.error);
      }
      var previous := TakeBytes(32);
      if previous.Failure? {
        return Failure(previous.error);
      }
      var root := TakeBytes(32);
      if root.Failure? {
        return Failure(root.error);
      }
      var timestamp := TakeU64();
      if timestamp.Failure? {
        return Failure(timestamp.error);
      }
      var difficulty := TakeBytes(32);
      if difficulty.Failure? {
        return Failure(difficulty.error);
      }
      var nonce := TakeU64();
      if nonce.Failure? {
        return Failure(nonce.error);
      }
      return Success(BlockHeader(version.value, previous.value, root.value, timestamp.value, difficulty.value,
                                 nonce.value));
    }

    method TakeBody(limits: Limits) returns (r: Result<seq<Transaction>, DecodeError>)
      requires Valid()
      modifies this
      ensures Valid() && Follows(ReadBody(old(Rest()), limits), r, Rest())
    {
      hide ReadLen, ReadTransaction, ReadMany;
      var count := TakeLen(limits.maxTransactions);
      if count.Failure? {
        return Failure(count.error);
      }
      if count.value == 0 {
        return Failure(EmptyBlockTransactions);
      }
      var transactions: seq<Transaction> := [];
      ghost var all := ReadMany(TransactionReader(limits), count.value, Rest());
      ManyStart(all);
      for i := 0 to count.value
        invariant Valid() && all == Prepend(transactions, ReadMany(TransactionReader(limits), count.value - i, Rest()))
      {
        ManyStep(TransactionReader(limits), count.value - i, Rest(), transactions);
        var tx := TakeTransaction(limits);
        if tx.Failure? {
          return Failure(tx.error);
        }
        transactions := transactions + [tx.value];
      }
      ManyEnd(TransactionReader(limits), Rest(), transactions);
      return Success(transactions);
    }
  }

  // ----- Whole objects -----

  method DecodeTransactionBytes(bytes: seq<byte>, limits: Limits) returns (r: Result<Transaction, DecodeError>)
    ensures r == DecodeTransaction(bytes, limits)
  {
    hide ReadTransaction;
    if |bytes| > limits.maxObjectBytes {
      return Failure(LengthLimitExceeded);
    }
    var decoder := new Decoder(bytes);
    var tx := decoder.TakeTransaction(limits);
    if tx.Failure? {
      return Failure(tx.error);
    }
    var end := decoder.Finish();
    return if end.Failure? then Failure(end.error) else Success(tx.value);
  }

  method DecodeHeaderBytes(bytes: seq<byte>) returns (r: Result<BlockHeader, DecodeError>)
    ensures r == DecodeHeader(bytes)
  {
    hide ReadHeader;
    var decoder := new Decoder(bytes);
    var header := decoder.TakeHeader();
    if header.Failure? {
      return Failure(header.error);
    }
    var end := decoder.Finish();
    return if end.Failure? then Failure(end.error) else Success(header.value);
  }

  method DecodeBlockBytes(bytes: seq<byte>, limits: Limits) returns (r: Result<Block, DecodeError>)
    ensures r == DecodeBlock(bytes, limits)
  {
    hide ReadHeader, ReadBody;
    if |bytes| > limits.maxObjectBytes {
      return Failure(LengthLimitExceeded);
    }
    var decoder := new Decoder(bytes);
    var header := decoder.TakeHeader();
    if header.Failure? {
      return Failure(header.error);
    }
    var body := decoder.TakeBody(limits);
    if body.Failure? {
      return Failure(body.error);
    }
    var end := decoder.Finish();
    return if end.Failure? then Failure(end.error) else Success(Block(header.value, body.value));
  }

  // ----- Encoding loops -----

  method WriteVarint(value: u64, output: seq<byte>) returns (r: seq<byte>)
    ensures r == output + Varint(value)
  {
    if value <= 0xFC {
      r := output + [value];
    } else if value <= U16_MAX {
      r := output + [0xFD];
      r := r + LeBytes(value, 2);
    } else if value <= U32_MAX {
      r := output + [0xFE];
      r := r + LeBytes(value, 4);
    } else {
      r := output + [0xFF];
      r := r + LeBytes(value, 8);
    }
  }

  lemma {:induction false} EncodeSnoc<T>(encode: T -> seq<byte>, values: seq<T>, i: nat)
    requires i < |values|
    ensures EncodeAll(encode, values[..i + 1]) == EncodeAll(encode, values[..i]) + encode(values[i])
  {
    if i == 0 {
      assert values[..1] == [values[0]] && values[..1][1..] == [] && values[..0] == [];
      assert EncodeAll(encode, values[..1]) == encode(values[0]) + [];
    } else {
      EncodeSnoc(encode, values[1..], i - 1);
      assert values[..i + 1][1..] == values[1..][..i] && values[..i][1..] == values[1..][..i - 1];
    }
  }

  ghost predicate Encodable(tx: Transaction) {
    && |tx.inputs| <= U64_MAX && |tx.outputs| <= U64_MAX
    && (forall input | input in tx.inputs :: |input.items| <= U64_MAX && forall item | item in input.items ::
          |item| <= U64_MAX)
    && (forall output | output in tx.outputs :: |output.program| <= U64_MAX)
  }

  lemma EncodeNothing<T>(encode: T -> seq<byte>, values: seq<T>)
    ensures EncodeAll(encode, values[..0]) == []
  {
  }

  method WriteInput(input: TxInput, output: seq<byte>) returns (bytes: seq<byte>)
    requires |input.items| <= U64_MAX && forall item | item in input.items :: |item| <= U64_MAX
    ensures bytes == output + EncodeInput(input)
  {
    hide LeBytes, Varint, EncodeAll;
    bytes := output + input.previousTxid;
    bytes := bytes + LeBytes(input.previousIndex, 4);
    bytes := bytes + LeBytes(input.sequence, 4);
    bytes := WriteVarint(|input.items|, bytes);
    ghost var start := bytes;
    EncodeNothing(Blob, input.items);
    for i := 0 to |input.items|
      invariant bytes == start + EncodeAll(Blob, input.items[..i])
    {
      EncodeSnoc(Blob, input.items, i);
      bytes := WriteVarint(|input.items[i]|, bytes);
      bytes := bytes + input.items[i];
    }
    assert input.items[..|input.items|] == input.items;
  }

  method WriteOutput(txOutput: TxOutput, output: seq<byte>) returns (bytes: seq<byte>)
    requires |txOutput.program| <= U64_MAX
    ensures bytes == output + EncodeOutput(txOutput)
  {
    hide LeBytes, Varint;
    bytes := output + LeBytes(txOutput.value, 8);
    bytes := WriteVarint(|txOutput.program|, bytes);
    bytes := bytes + txOutput.program;
  }

  /** An encoder for transactions whose lists have lengths that fit the machine word. */
  method EncodeTransactionBytes(tx: Transaction) returns (bytes: seq<byte>)
    requires Encodable(tx)
    ensures bytes == EncodeTransaction(tx)
  {
    hide LeBytes, Varint, EncodeAll, EncodeInput, EncodeOutput;
    bytes := LeBytes(tx.version, 2);
    bytes := WriteVarint(|tx.inputs|, bytes);
    ghost var start := bytes;
    EncodeNothing(EncodeInput, tx.inputs);
    for i := 0 to |tx.inputs|
      invariant bytes == start + EncodeAll(EncodeInput, tx.inputs[..i])
    {
      EncodeSnoc(EncodeInput, tx.inputs, i);
      bytes := WriteInput(tx.inputs[i], bytes);
    }
    assert tx.inputs[..|tx.inputs|] == tx.inputs;
    bytes := WriteVarint(|tx.outputs|, bytes);
    ghost var middle := bytes;
    EncodeNothing(EncodeOutput, tx.outputs);
    for i := 0 to |tx.outputs|
      invariant bytes == middle + EncodeAll(EncodeOutput, tx.outputs[..i])
    {
      EncodeSnoc(EncodeOutput, tx.outputs, i);
      bytes := WriteOutput(tx.outputs[i], bytes);
    }
    assert tx.outputs[..|tx.outputs|] == tx.outputs;
    bytes := bytes + LeBytes(tx.lockTime, 8);
  }

  method EncodeHeaderBytes(h: BlockHeader) returns (bytes: seq<byte>)
    ensures bytes == EncodeHeader(h)
  {
    hide LeBytes;
    bytes := LeBytes(h.version, 2);
    bytes := bytes + h.previousBlock;
    bytes := bytes + h.transactionRoot;
    bytes := bytes + LeBytes(h.timestamp, 8);
    bytes := bytes + h.difficulty;
    bytes := bytes + LeBytes(h.nonce, 8);
  }

  method EncodeBlockBytes(block: Block) returns (bytes: seq<byte>)
    requires |block.transactions| <= U64_MAX && forall tx | tx in block.transactions :: Encodable(tx)
    ensures bytes == EncodeBlock(block)
  {
    hide LeBytes, Varint, EncodeAll, EncodeTransaction, EncodeHeader, Encodable;
    bytes := EncodeHeaderBytes(block.header);
    bytes := WriteVarint(|block.transactions|, bytes);
    ghost var start := bytes;
    EncodeNothing(EncodeTransaction, block.transactions);
    for i := 0 to |block.transactions|
      invariant bytes == start + EncodeAll(EncodeTransaction, block.transactions[..i])
    {
      EncodeSnoc(EncodeTransaction, block.transactions, i);
      var tx := EncodeTransactionBytes(block.transactions[i]);
      bytes := bytes + tx;
    }
    assert block.transactions[..|block.transactions|] == block.transactions;
  }
}
