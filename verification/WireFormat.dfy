/** Transactions, headers and blocks on the wire.  Decoding is exact: it accepts a byte string if
    and only if it is the encoding of a value within the limits, and returns that value. */
module WireFormat {
  import opened Prelude
  import opened Encoding
  import opened Ledger

  type Bytes32 = s: seq<byte> | |s| == 32 witness seq(32, _ => 0)

  type usize = n: nat | n <= U64_MAX

  datatype Limits = Limits(maxInputs: usize, maxOutputs: usize, maxWitnessItems: usize, maxWitnessItemBytes: usize,
                           maxProgramBytes: usize, maxTransactions: usize, maxObjectBytes: usize)

  datatype TxInput = TxInput(previousTxid: Bytes32, previousIndex: u32, sequence: u32, items: seq<seq<byte>>)

  datatype Transaction = Transaction(version: u16, inputs: seq<TxInput>, outputs: seq<TxOutput>, lockTime: u64)

  datatype BlockHeader = BlockHeader(version: u16, previousBlock: Bytes32, transactionRoot: Bytes32, timestamp: u64,
                                     difficulty: Bytes32, nonce: u64)

  datatype Block = Block(header: BlockHeader, transactions: seq<Transaction>)

  // ----- Encoders -----

  function EncodeInput(input: TxInput): seq<byte> {
    input.previousTxid + (LeBytes(input.previousIndex, 4) + (LeBytes(input.sequence, 4) + Listed(Blob, input.items)))
  }

  function EncodeOutput(output: TxOutput): seq<byte> {
    LeBytes(output.value, 8) + Blob(output.program)
  }

  function EncodeTransaction(tx: Transaction): seq<byte> {
    LeBytes(tx.version, 2)
    + (Listed(EncodeInput, tx.inputs) + (Listed(EncodeOutput, tx.outputs) + LeBytes(tx.lockTime, 8)))
  }

  function EncodeHeader(h: BlockHeader): seq<byte> {
    LeBytes(h.version, 2)
    + (h.previousBlock + (h.transactionRoot + (LeBytes(h.timestamp, 8) + (h.difficulty + LeBytes(h.nonce, 8)))))
  }

  function EncodeBlock(block: Block): seq<byte> {
    EncodeHeader(block.header) + Listed(EncodeTransaction, block.transactions)
  }

  // ----- Decoders -----

  function ReadU16(s: seq<byte>): Outcome<u16> {
    RadixValues();
    var n :- ReadInt(s, 2);
    Success(Parsed(n.value, n.rest))
  }

  function ReadU32(s: seq<byte>): Outcome<u32> {
    RadixValues();
    var n :- ReadInt(s, 4);
    Success(Parsed(n.value, n.rest))
  }

  function ReadU64(s: seq<byte>): Outcome<u64> {
    RadixValues();
    var n :- ReadInt(s, 8);
    Success(Parsed(n.value, n.rest))
  }

  function WitnessItem(limits: Limits): Reader<seq<byte>> {
    s => ReadBlob(s, limits.maxWitnessItemBytes)
  }

  function ReadInput(s: seq<byte>, limits: Limits): Outcome<TxInput> {
    var txid :- ReadBytes(s, 32);
    var index :- ReadU32(txid.rest);
    var sequence :- ReadU32(index.rest);
    var items :- ReadList(WitnessItem(limits), limits.maxWitnessItems, sequence.rest);
    Success(Parsed(TxInput(txid.value, index.value, sequence.value, items.value), items.rest))
  }

  function InputReader(limits: Limits): Reader<TxInput> {
    s => ReadInput(s, limits)
  }

  function ReadOutput(s: seq<byte>, limits: Limits): Outcome<TxOutput> {
    var value :- ReadU64(s);
    if value.value > MAX_SUPPLY_BASE_UNITS then Failure(AmountAboveMaximum)
    else
      var program :- ReadBlob(value.rest, limits.maxProgramBytes);
      Success(Parsed(TxOutput(value.value, program.value), program.rest))
  }

  function OutputReader(limits: Limits): Reader<TxOutput> {
    s => ReadOutput(s, limits)
  }

  function ReadTransaction(s: seq<byte>, limits: Limits): Outcome<Transaction> {
    var version :- ReadU16(s);
    if version.value != 1 then Failure(InvalidVersion(version.value))
    else
      var inputs :- ReadList(InputReader(limits), limits.maxInputs, version.rest);
      var outputs :- ReadList(OutputReader(limits), limits.maxOutputs, inputs.rest);
      var lockTime :- ReadU64(outputs.rest);
      Success(Parsed(Transaction(version.value, inputs.value, outputs.value, lockTime.value), lockTime.rest))
  }

  function TransactionReader(limits: Limits): Reader<Transaction> {
    s => ReadTransaction(s, limits)
  }

  function ReadHeader(s: seq<byte>): Outcome<BlockHeader> {
    var version :- ReadU16(s);
    var previous :- ReadBytes(version.rest, 32);
    var root :- ReadBytes(previous.rest, 32);
    var timestamp :- ReadU64(root.rest);
    var difficulty :- ReadBytes(timestamp.rest, 32);
    var nonce :- ReadU64(difficulty.rest);
    Success(Parsed(BlockHeader(version.value, previous.value, root.value, timestamp.value, difficulty.value,
                               nonce.value), nonce.rest))
  }

  function ReadBody(s: seq<byte>, limits: Limits): Outcome<seq<Transaction>> {
    var count :- ReadLen(s, limits.maxTransactions);
    if count.value == 0 then Failure(EmptyBlockTransactions)
    else ReadMany(TransactionReader(limits), count.value, count.rest)
  }

  function Finished<T>(r: Outcome<T>): Result<T, DecodeError> {
    var parsed :- r;
    if parsed.rest == [] then Success(parsed.value) else Failure(TrailingBytes)
  }

  function DecodeTransaction(bytes: seq<byte>, limits: Limits): Result<Transaction, DecodeError> {
    if |bytes| > limits.maxObjectBytes then Failure(LengthLimitExceeded)
    else Finished(ReadTransaction(bytes, limits))
  }

  function DecodeHeader(bytes: seq<byte>): Result<BlockHeader, DecodeError> {
    Finished(ReadHeader(bytes))
  }

  function ReadBlock(bytes: seq<byte>, limits: Limits): Outcome<Block> {
    var header :- ReadHeader(bytes);
    var body :- ReadBody(header.rest, limits);
    Success(Parsed(Block(header.value, body.value), body.rest))
  }

  function DecodeBlock(bytes: seq<byte>, limits: Limits): Result<Block, DecodeError> {
    if |bytes| > limits.maxObjectBytes then Failure(LengthLimitExceeded)
    else Finished(ReadBlock(bytes, limits))
  }

  // ----- Values within the limits -----

  ghost predicate ItemOk(limits: Limits, item: seq<byte>) {
    |item| <= limits.maxWitnessItemBytes
  }

  ghost predicate InputOk(limits: Limits, input: TxInput) {
    |input.items| <= limits.maxWitnessItems && AllOk(item => ItemOk(limits, item), input.items)
  }

  ghost predicate OutputOk(limits: Limits, output: TxOutput) {
    |output.program| <= limits.maxProgramBytes
  }

  ghost predicate TransactionOk(limits: Limits, tx: Transaction) {
    && tx.version == 1
    && |tx.inputs| <= limits.maxInputs && AllOk(input => InputOk(limits, input), tx.inputs)
    && |tx.outputs| <= limits.maxOutputs && AllOk(output => OutputOk(limits, output), tx.outputs)
  }

  ghost predicate BlockOk(limits: Limits, block: Block) {
    && 0 < |block.transactions| <= limits.maxTransactions
    && AllOk(tx => TransactionOk(limits, tx), block.transactions)
  }

  // ----- Exactness, record by record -----

  lemma U16Exact(s: seq<byte>, v: u16, rest: seq<byte>)
    ensures ReadU16(s) == Success(Parsed(v, rest)) <==> s == LeBytes(v, 2) + rest
  {
    hide LeBytes, ReadInt;
    RadixValues();
    IntExact(s, 2, v, rest);
  }

  lemma U32Exact(s: seq<byte>, v: u32, rest: seq<byte>)
    ensures ReadU32(s) == Success(Parsed(v, rest)) <==> s == LeBytes(v, 4) + rest
  {
    hide LeBytes, ReadInt;
    RadixValues();
    IntExact(s, 4, v, rest);
  }

  lemma U64Exact(s: seq<byte>, v: u64, rest: seq<byte>)
    ensures ReadU64(s) == Success(Parsed(v, rest)) <==> s == LeBytes(v, 8) + rest
  {
    hide LeBytes, ReadInt;
    RadixValues();
    IntExact(s, 8, v, rest);
  }

  lemma ItemsExact(limits: Limits)
    ensures Exact(WitnessItem(limits), Blob, item => ItemOk(limits, item))
  {
    hide Blob, ReadBlob;
    forall s, v, rest
      ensures WitnessItem(limits)(s) == Success(Parsed(v, rest)) <==> ItemOk(limits, v) && s == Blob(v) + rest
    {
      BlobExact(s, limits.maxWitnessItemBytes, v, rest);
    }
  }

  lemma WitnessExact(limits: Limits, s: seq<byte>, v: seq<seq<byte>>, rest: seq<byte>)
    ensures ReadList(WitnessItem(limits), limits.maxWitnessItems, s) == Success(Parsed(v, rest))
       <==> |v| <= limits.maxWitnessItems && AllOk(item => ItemOk(limits, item), v) && s == Listed(Blob, v) + rest
  {
    hide ReadList, Listed, AllOk, Exact, WitnessItem;
    ItemsExact(limits);
    ListExact(WitnessItem(limits), Blob, item => ItemOk(limits, item), limits.maxWitnessItems, s, v, rest);
  }

  lemma InputComplete(limits: Limits, v: TxInput, rest: seq<byte>)
    requires InputOk(limits, v)
    ensures ReadInput(EncodeInput(v) + rest, limits) == Success(Parsed(v, rest))
  {
    hide ReadBytes, ReadU32, ReadList, Listed, LeBytes, AllOk, WitnessItem;
    var s := EncodeInput(v) + rest;
    var r3 := Listed(Blob, v.items) + rest;
    var r2 := LeBytes(v.sequence, 4) + r3;
    var r1 := LeBytes(v.previousIndex, 4) + r2;
    assert s == v.previousTxid + r1;
    BytesExact(s, 32, v.previousTxid, r1);
    U32Exact(r1, v.previousIndex, r2);
    U32Exact(r2, v.sequence, r3);
    WitnessExact(limits, r3, v.items, rest);
  }

  lemma InputSound(limits: Limits, s: seq<byte>)
    requires ReadInput(s, limits).Success?
    ensures var r := ReadInput(s, limits).value;
            InputOk(limits, r.value) && s == EncodeInput(r.value) + r.rest
  {
    hide ReadBytes, ReadU32, ReadList, Listed, LeBytes, AllOk, WitnessItem;
    var txid := ReadBytes(s, 32).value;
    var index := ReadU32(txid.rest).value;
    var sequence := ReadU32(index.rest).value;
    var items := ReadList(WitnessItem(limits), limits.maxWitnessItems, sequence.rest).value;
    BytesExact(s, 32, txid.value, txid.rest);
    U32Exact(txid.rest, index.value, index.rest);
    U32Exact(index.rest, sequence.value, sequence.rest);
    WitnessExact(limits, sequence.rest, items.value, items.rest);
    assert s == EncodeInput(ReadInput(s, limits).value.value) + items.rest;
  }

  lemma InputsExact(limits: Limits)
    ensures Exact(InputReader(limits), EncodeInput, input => InputOk(limits, input))
  {
    hide ReadInput, EncodeInput, InputOk;
    forall s, v, rest
      ensures InputReader(limits)(s) == Success(Parsed(v, rest)) <==> InputOk(limits, v) && s == EncodeInput(v) + rest
    {
      if ReadInput(s, limits).Success? {
        InputSound(limits, s);
      }
      if InputOk(limits, v) {
        InputComplete(limits, v, rest);
      }
    }
  }

  lemma OutputComplete(limits: Limits, v: TxOutput, rest: seq<byte>)
    requires OutputOk(limits, v)
    ensures ReadOutput(EncodeOutput(v) + rest, limits) == Success(Parsed(v, rest))
  {
    hide ReadU64, ReadBlob, Blob, LeBytes;
    var s := EncodeOutput(v) + rest;
    var r1 := Blob(v.program) + rest;
    assert s == LeBytes(v.value, 8) + r1;
    U64Exact(s, v.value, r1);
    BlobExact(r1, limits.maxProgramBytes, v.program, rest);
  }

  lemma OutputSound(limits: Limits, s: seq<byte>)
    requires ReadOutput(s, limits).Success?
    ensures var r := ReadOutput(s, limits).value;
            OutputOk(limits, r.value) && s == EncodeOutput(r.value) + r.rest
  {
    hide ReadU64, ReadBlob, Blob, LeBytes;
    var value := ReadU64(s).value;
    var program := ReadBlob(value.rest, limits.maxProgramBytes).value;
    U64Exact(s, value.value, value.rest);
    BlobExact(value.rest, limits.maxProgramBytes, program.value, program.rest);
    assert s == EncodeOutput(ReadOutput(s, limits).value.value) + program.rest;
  }

  lemma OutputsExact(limits: Limits)
    ensures Exact(OutputReader(limits), EncodeOutput, output => OutputOk(limits, output))
  {
    hide ReadOutput, EncodeOutput, OutputOk;
    forall s, v, rest
      ensures OutputReader(limits)(s) == Success(Parsed(v, rest)) <==>
                OutputOk(limits, v) && s == EncodeOutput(v) + rest
    {
      if ReadOutput(s, limits).Success? {
        OutputSound(limits, s);
      }
      if OutputOk(limits, v) {
        OutputComplete(limits, v, rest);
      }
    }
  }

  lemma InputListExact(limits: Limits, s: seq<byte>, v: seq<TxInput>, rest: seq<byte>)
    ensures ReadList(InputReader(limits), limits.maxInputs, s) == Success(Parsed(v, rest))
       <==> |v| <= limits.maxInputs && AllOk(input => InputOk(limits, input), v) && s == Listed(EncodeInput, v) + rest
  {
    hide ReadList, Listed, AllOk, Exact, InputReader;
    InputsExact(limits);
    ListExact(InputReader(limits), EncodeInput, input => InputOk(limits, input), limits.maxInputs, s, v, rest);
  }

  lemma OutputListExact(limits: Limits, s: seq<byte>, v: seq<TxOutput>, rest: seq<byte>)
    ensures ReadList(OutputReader(limits), limits.maxOutputs, s) == Success(Parsed(v, rest))
       <==> && |v| <= limits.maxOutputs && AllOk(output => OutputOk(limits, output), v)
            && s == Listed(EncodeOutput, v) + rest
  {
    hide ReadList, Listed, AllOk, Exact, OutputReader;
    OutputsExact(limits);
    ListExact(OutputReader(limits), EncodeOutput, output => OutputOk(limits, output), limits.maxOutputs, s, v, rest);
  }

  lemma TransactionComplete(limits: Limits, v: Transaction, rest: seq<byte>)
    requires TransactionOk(limits, v)
    ensures ReadTransaction(EncodeTransaction(v) + rest, limits) == Success(Parsed(v, rest))
  {
    hide ReadU16, ReadU64, ReadList, Listed, LeBytes, AllOk, InputReader, OutputReader;
    var s := EncodeTransaction(v) + rest;
    var r3 := LeBytes(v.lockTime, 8) + rest;
    var r2 := Listed(EncodeOutput, v.outputs) + r3;
    var r1 := Listed(EncodeInput, v.inputs) + r2;
    assert s == LeBytes(v.version, 2) + r1;
    U16Exact(s, v.version, r1);
    InputListExact(limits, r1, v.inputs, r2);
    OutputListExact(limits, r2, v.outputs, r3);
    U64Exact(r3, v.lockTime, rest);
  }

  lemma TransactionSound(limits: Limits, s: seq<byte>)
    requires ReadTransaction(s, limits).Success?
    ensures var r := ReadTransaction(s, limits).value;
            TransactionOk(limits, r.value) && s == EncodeTransaction(r.value) + r.rest
  {
    hide ReadU16, ReadU64, ReadList, Listed, LeBytes, AllOk, InputReader, OutputReader;
    var version := ReadU16(s).value;
    var inputs := ReadList(InputReader(limits), limits.maxInputs, version.rest).value;
    var outputs := ReadList(OutputReader(limits), limits.maxOutputs, inputs.rest).value;
    var lockTime := ReadU64(outputs.rest).value;
    U16Exact(s, version.value, version.rest);
    InputListExact(limits, version.rest, inputs.value, inputs.rest);
    OutputListExact(limits, inputs.rest, outputs.value, outputs.rest);
    U64Exact(outputs.rest, lockTime.value, lockTime.rest);
    assert s == EncodeTransaction(ReadTransaction(s, limits).value.value) + lockTime.rest;
  }

  lemma TransactionsExact(limits: Limits)
    ensures Exact(TransactionReader(limits), EncodeTransaction, tx => TransactionOk(limits, tx))
  {
    hide ReadTransaction, EncodeTransaction, TransactionOk;
    forall s, v, rest
      ensures TransactionReader(limits)(s) == Success(Parsed(v, rest)) <==>
                TransactionOk(limits, v) && s == EncodeTransaction(v) + rest
    {
      if ReadTransaction(s, limits).Success? {
        TransactionSound(limits, s);
      }
      if TransactionOk(limits, v) {
        TransactionComplete(limits, v, rest);
      }
    }
  }

  lemma HeaderComplete(v: BlockHeader, rest: seq<byte>)
    ensures ReadHeader(EncodeHeader(v) + rest) == Success(Parsed(v, rest))
  {
    hide ReadU16, ReadU64, ReadBytes, LeBytes;
    var s := EncodeHeader(v) + rest;
    var r5 := LeBytes(v.nonce, 8) + rest;
    var r4 := v.difficulty + r5;
    var r3 := LeBytes(v.timestamp, 8) + r4;
    var r2 := v.transactionRoot + r3;
    var r1 := v.previousBlock + r2;
    assert s == LeBytes(v.version, 2) + r1;
    U16Exact(s, v.version, r1);
    BytesExact(r1, 32, v.previousBlock, r2);
    BytesExact(r2, 32, v.transactionRoot, r3);
    U64Exact(r3, v.timestamp, r4);
    BytesExact(r4, 32, v.difficulty, r5);
    U64Exact(r5, v.nonce, rest);
  }

  lemma HeaderSound(s: seq<byte>)
    requires ReadHeader(s).Success?
    ensures var r := ReadHeader(s).value; s == EncodeHeader(r.value) + r.rest
  {
    hide ReadU16, ReadU64, ReadBytes, LeBytes;
    var version := ReadU16(s).value;
    var previous := ReadBytes(version.rest, 32).value;
    var root := ReadBytes(previous.rest, 32).value;
    var timestamp := ReadU64(root.rest).value;
    var difficulty := ReadBytes(timestamp.rest, 32).value;
    var nonce := ReadU64(difficulty.rest).value;
    U16Exact(s, version.value, version.rest);
    BytesExact(version.rest, 32, previous.value, previous.rest);
    BytesExact(previous.rest, 32, root.value, root.rest);
    U64Exact(root.rest, timestamp.value, timestamp.rest);
    BytesExact(timestamp.rest, 32, difficulty.value, difficulty.rest);
    U64Exact(difficulty.rest, nonce.value, nonce.rest);
    assert s == EncodeHeader(ReadHeader(s).value.value) + nonce.rest;
  }

  lemma BodyExact(limits: Limits, s: seq<byte>, v: seq<Transaction>, rest: seq<byte>)
    ensures ReadBody(s, limits) == Success(Parsed(v, rest))
       <==> && 0 < |v| <= limits.maxTransactions && AllOk(tx => TransactionOk(limits, tx), v)
            && s == Listed(EncodeTransaction, v) + rest
  {
    hide ReadLen, ReadMany, AllOk, Exact, TransactionReader, Varint, EncodeAll;
    TransactionsExact(limits);
    ListExact(TransactionReader(limits), EncodeTransaction, tx => TransactionOk(limits, tx), limits.maxTransactions, s,
              v, rest);
    var count := ReadLen(s, limits.maxTransactions);
    if count.Success? {
      ManyExact(TransactionReader(limits), EncodeTransaction, tx => TransactionOk(limits, tx), count.value.value,
                count.value.rest, v, rest);
    }
  }

  // ----- The main results -----

  /** Decoding a transaction and encoding it are inverse on exactly the transactions of version 1
      within the limits. */
  lemma TransactionRoundTrip(bytes: seq<byte>, limits: Limits, tx: Transaction)
    ensures DecodeTransaction(bytes, limits) == Success(tx)
       <==> TransactionOk(limits, tx) && bytes == EncodeTransaction(tx) && |bytes| <= limits.maxObjectBytes
  {
    hide ReadTransaction, EncodeTransaction, TransactionOk;
    assert EncodeTransaction(tx) + [] == EncodeTransaction(tx);
    if ReadTransaction(bytes, limits).Success? {
      TransactionSound(limits, bytes);
      var r := ReadTransaction(bytes, limits).value;
      assert r.rest == [] ==> EncodeTransaction(r.value) + r.rest == EncodeTransaction(r.value);
    }
    if TransactionOk(limits, tx) {
      TransactionComplete(limits, tx, []);
    }
  }

  lemma HeaderRoundTrip(bytes: seq<byte>, h: BlockHeader)
    ensures DecodeHeader(bytes) == Success(h) <==> bytes == EncodeHeader(h)
  {
    hide ReadHeader, EncodeHeader;
    assert EncodeHeader(h) + [] == EncodeHeader(h);
    HeaderComplete(h, []);
    if ReadHeader(bytes).Success? {
      HeaderSound(bytes);
      var r := ReadHeader(bytes).value;
      assert r.rest == [] ==> EncodeHeader(r.value) + r.rest == EncodeHeader(r.value);
    }
  }

  lemma BlockComplete(limits: Limits, v: Block, rest: seq<byte>)
    requires BlockOk(limits, v)
    ensures ReadBlock(EncodeBlock(v) + rest, limits) == Success(Parsed(v, rest))
  {
    hide ReadHeader, EncodeHeader, ReadBody, Listed, AllOk;
    var s := EncodeBlock(v) + rest;
    var r1 := Listed(EncodeTransaction, v.transactions) + rest;
    assert s == EncodeHeader(v.header) + r1;
    HeaderComplete(v.header, r1);
    BodyExact(limits, r1, v.transactions, rest);
  }

  lemma BlockSound(limits: Limits, s: seq<byte>)
    requires ReadBlock(s, limits).Success?
    ensures var r := ReadBlock(s, limits).value;
            BlockOk(limits, r.value) && s == EncodeBlock(r.value) + r.rest
  {
    hide ReadHeader, EncodeHeader, ReadBody, Listed, AllOk;
    var header := ReadHeader(s).value;
    var body := ReadBody(header.rest, limits).value;
    HeaderSound(s);
    BodyExact(limits, header.rest, body.value, body.rest);
    assert s == EncodeBlock(ReadBlock(s, limits).value.value) + body.rest;
  }

  /** Decoding a block and encoding it are inverse on exactly the nonempty blocks of such
      transactions. */
  lemma BlockRoundTrip(bytes: seq<byte>, limits: Limits, block: Block)
    ensures DecodeBlock(bytes, limits) == Success(block)
       <==> BlockOk(limits, block) && bytes == EncodeBlock(block) && |bytes| <= limits.maxObjectBytes
  {
    hide ReadBlock, EncodeBlock, BlockOk;
    assert EncodeBlock(block) + [] == EncodeBlock(block);
    if ReadBlock(bytes, limits).Success? {
      BlockSound(limits, bytes);
      var r := ReadBlock(bytes, limits).value;
      assert r.rest == [] ==> EncodeBlock(r.value) + r.rest == EncodeBlock(r.value);
    }
    if BlockOk(limits, block) {
      BlockComplete(limits, block, []);
    }
  }
}
