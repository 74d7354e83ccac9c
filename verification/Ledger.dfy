/** The unspent-output ledger: entries, transactions, and the application of one transaction.

    Transaction ids are a type parameter: the pool uses numbers, because it needs their order;
    the chain uses a free hash, because it needs collision freedom. */
module Ledger {
  import opened Prelude

  const COINBASE_MATURITY := 120
  const MAX_SUPPLY_BASE_UNITS := 100_000_000_000_000
  const MAX_TRANSACTION_BYTES := 102_400

  datatype OutPoint<I> = OutPoint(txid: I, index: nat)

  type Amount = v: nat | v <= MAX_SUPPLY_BASE_UNITS

  datatype TxOutput = TxOutput(value: Amount, program: seq<byte>)

  type Positive = n: nat | n > 0 witness 1

  /** What a transaction carries besides inputs and outputs; one sequence number and one witness
      list per input. */
  datatype Rest = Rest(version: nat, sequences: seq<nat>, witnesses: seq<seq<seq<byte>>>, lockTime: nat)

  /** `size` is the length of the canonical encoding. */
  datatype Tx<I> = Tx(txid: I, inputs: seq<OutPoint<I>>, outputs: seq<TxOutput>, size: Positive, rest: Rest)

  datatype UtxoEntry = UtxoEntry(output: TxOutput, creationHeight: nat, isCoinbase: bool) {
    predicate SpendableAt(height: nat) {
      !isCoinbase || (creationHeight + COINBASE_MATURITY <= U64_MAX && creationHeight + COINBASE_MATURITY <= height)
    }
  }

  type Utxos<I(==)> = map<OutPoint<I>, UtxoEntry>

  /** Why a block breaks a rule of consensus. */
  datatype BlockError =
    | InvalidHeight
    | BlockTooLarge
    | EmptyNonGenesisBlock
    | TransactionTooLarge(index: nat)
    | MerkleRootMismatch
    | InvalidCoinbase
    | EmptyNormalTransactionInputs(index: nat)
    | EmptyNormalTransactionOutputs(index: nat)
    | MultipleCoinbase
    | NullOutpointInNormalTransaction
    | InvalidFounderOutput
    | ClaimOverflow
    | CoinbaseOverClaim

  datatype UtxoError<I> =
    | DuplicateInput(outpoint: OutPoint<I>)
    | MissingUtxo(outpoint: OutPoint<I>)
    | ImmatureCoinbase
    | SpendAuthorizationFailed
    | AmountOverflow
    | OutputValueExceedsInput
    | OutputIndexOverflow
    | OutputCollision(outpoint: OutPoint<I>)
    | InvalidBlockOrder
    | Consensus(error: BlockError)
    | UndoMismatch

  /** The spend verifier: accepts one input of a transaction, or refuses it with an error of its own
      choice. */
  type Verifier<!I> = (Tx<I>, nat, UtxoEntry) -> Result<(), UtxoError<I>>

  datatype StructuralError = TooLarge | EmptyInputs | EmptyOutputs | CoinbaseForm | NullOutpointInput

  predicate IsCoinbaseForm<I(==)>(tx: Tx<I>, nullId: I) {
    tx.inputs == [OutPoint(nullId, U32_MAX)]
  }

  /** The context-free checks of a transaction that is not a coinbase. */
  function CheckSkeleton<I(==)>(tx: Tx<I>, nullId: I): Result<(), StructuralError> {
    if tx.size > MAX_TRANSACTION_BYTES then Failure(TooLarge)
    else if tx.inputs == [] then Failure(EmptyInputs)
    else if tx.outputs == [] then Failure(EmptyOutputs)
    else if IsCoinbaseForm(tx, nullId) then Failure(CoinbaseForm)
    else if OutPoint(nullId, U32_MAX) in tx.inputs then Failure(NullOutpointInput)
    else Success(())
  }

  /** They pass if and only if the transaction is small enough, spends and makes something, and spends
      no null output. */
  lemma SkeletonMeans<I(!new)>(tx: Tx<I>, nullId: I)
    ensures CheckSkeleton(tx, nullId).Success? <==>
              && tx.size <= 102_400 && tx.inputs != [] && tx.outputs != []
              && forall o | o in tx.inputs :: o != OutPoint(nullId, U32_MAX)
  {
    if IsCoinbaseForm(tx, nullId) {
      assert tx.inputs[0] in tx.inputs;
    }
  }

  // ----- One transaction, on values -----

  /** The value of the first `k` inputs, or the first reason one of them cannot be spent. */
  function ScanInputs<I(==,!new)>(u: Utxos<I>, tx: Tx<I>, height: nat, verify: Verifier<I>, k: nat): Result<nat,
      UtxoError<I>>
    requires k <= |tx.inputs|
  {
    if k == 0 then Success(0)
    else
      var sum :- ScanInputs(u, tx, height, verify, k - 1);
      var outpoint := tx.inputs[k - 1];
      if outpoint in tx.inputs[..k - 1] then Failure(DuplicateInput(outpoint))
      else if outpoint !in u then Failure(MissingUtxo(outpoint))
      else if !u[outpoint].SpendableAt(height) then Failure(ImmatureCoinbase)
      else
        var _ :- verify(tx, k - 1, u[outpoint]);
        if sum + u[outpoint].output.value > U64_MAX then Failure(AmountOverflow)
        else Success(sum + u[outpoint].output.value)
  }

  function SumOutputs<I(==,!new)>(outputs: seq<TxOutput>): Result<nat, UtxoError<I>> {
    if outputs == [] then Success(0)
    else
      var sum :- SumOutputs(outputs[..|outputs| - 1]);
      if sum + outputs[|outputs| - 1].value > U64_MAX then Failure(AmountOverflow)
      else Success(sum + outputs[|outputs| - 1].value)
  }

  /** The first reason, among the first `k` outputs, why they cannot be created. */
  function CheckOutputs<I(==,!new)>(u: Utxos<I>, tx: Tx<I>, k: nat): Result<(), UtxoError<I>>
    requires k <= |tx.outputs|
  {
    if k == 0 then Success(())
    else
      var _ :- CheckOutputs(u, tx, k - 1);
      if k - 1 > U32_MAX then Failure(OutputIndexOverflow)
      else if OutPoint(tx.txid, k - 1) in u then Failure(OutputCollision(OutPoint(tx.txid, k - 1)))
      else Success(())
  }

  /** The entries the first `k` outputs create. */
  function Created<I(==,!new)>(tx: Tx<I>, height: nat, isCoinbase: bool, k: nat): (m: Utxos<I>)
    requires k <= |tx.outputs|
    ensures forall o :: o in m <==> o.txid == tx.txid && o.index < k
    ensures forall o | o in m :: m[o] == UtxoEntry(tx.outputs[o.index], height, isCoinbase)
  {
    if k == 0 then map[]
    else Created(tx, height, isCoinbase,
                 k - 1)[OutPoint(tx.txid, k - 1) := UtxoEntry(tx.outputs[k - 1], height, isCoinbase)]
  }

  function Spent<I(==,!new)>(tx: Tx<I>): set<OutPoint<I>> {
    set o | o in tx.inputs
  }

  /** The ledger after a normal transaction, whether or not it was allowed. */
  function Effect<I(==,!new)>(u: Utxos<I>, tx: Tx<I>, height: nat): Utxos<I> {
    (u - Spent(tx)) + Created(tx, height, false, |tx.outputs|)
  }

  /** The fee of a transaction that may be applied, or why it may not. */
  function FeeOf<I(==,!new)>(u: Utxos<I>, tx: Tx<I>, height: nat, verify: Verifier<I>): Result<nat, UtxoError<I>> {
    var inputSum :- ScanInputs(u, tx, height, verify, |tx.inputs|);
    var outputSum :- SumOutputs(tx.outputs);
    if outputSum > inputSum then Failure(OutputValueExceedsInput)
    else
      var _ :- CheckOutputs(u, tx, |tx.outputs|);
      Success(inputSum - outputSum)
  }

  // ----- The same, in the program's own form -----

  lemma {:induction false} ScanFails<I(!new)>(u: Utxos<I>, tx: Tx<I>, height: nat, verify: Verifier<I>, k: nat, n: nat)
    requires k <= n <= |tx.inputs|
    ensures ScanInputs(u, tx, height, verify, k).Failure?
            ==> ScanInputs(u, tx, height, verify, n) == ScanInputs(u, tx, height, verify, k)
  {
    if k < n {
      ScanFails(u, tx, height, verify, k, n - 1);
    }
  }

  lemma NoOutputs<I(!new)>(u: Utxos<I>, tx: Tx<I>, height: nat)
    ensures CheckOutputs(u, tx, 0) == Success(()) && Created(tx, height, false, 0) == map[]
  {
  }

  lemma OutputStep<I(!new)>(u: Utxos<I>, tx: Tx<I>, height: nat, i: nat)
    requires i < |tx.outputs| && CheckOutputs(u, tx, i) == Success(())
    ensures CheckOutputs(u, tx, i + 1)
         == if i > U32_MAX then Failure(OutputIndexOverflow)
            else if OutPoint(tx.txid, i) in u then Failure(OutputCollision(OutPoint(tx.txid, i)))
            else Success(())
    ensures Created(tx, height, false, i + 1)
         == Created(tx, height, false, i)[OutPoint(tx.txid, i) := UtxoEntry(tx.outputs[i], height, false)]
  {
  }

  lemma {:induction false} CheckFails<I(!new)>(u: Utxos<I>, tx: Tx<I>, k: nat, n: nat)
    requires k <= n <= |tx.outputs|
    ensures CheckOutputs(u, tx, k).Failure? ==> CheckOutputs(u, tx, n) == CheckOutputs(u, tx, k)
  {
    if k < n {
      CheckFails(u, tx, k, n - 1);
    }
  }

  class UtxoState<I(==,!new)> {
    var entries: Utxos<I>

    constructor (entries: Utxos<I>)
      ensures this.entries == entries
    {
      this.entries := entries;
    }

    /** Applies a transaction; on any failure the ledger is left as it was. */
    method ApplyNormalTransaction(tx: Tx<I>, height: nat, verify: Verifier<I>) returns (r: Result<nat, UtxoError<I>>)
      modifies this
      ensures r == FeeOf(old(entries), tx, height, verify)
      ensures entries == if r.Success? then Effect(old(entries), tx, height) else old(entries)
    {
      hide SumOutputs, CheckOutputs, Created;
      var inputSum := 0;
      var seen: set<OutPoint<I>>, consumed: seq<OutPoint<I>> := {}, [];
      for i := 0 to |tx.inputs|
        invariant entries == old(entries)
        invariant seen == set o | o in tx.inputs[..i]
        invariant consumed == tx.inputs[..i]
        invariant ScanInputs(entries, tx, height, verify, i) == Success(inputSum)
      {
        var outpoint := tx.inputs[i];
        assert ScanInputs(entries, tx, height, verify, i + 1).Failure? ==>
                 ScanInputs(entries, tx, height, verify, |tx.inputs|) == ScanInputs(entries, tx, height, verify, i + 1)
        by {
          ScanFails(entries, tx, height, verify, i + 1, |tx.inputs|);
        }
        if outpoint in seen {
          return Failure(DuplicateInput(outpoint));
        }
        if outpoint !in entries {
          return Failure(MissingUtxo(outpoint));
        }
        if !entries[outpoint].SpendableAt(height) {
          return Failure(ImmatureCoinbase);
        }
        var verified := verify(tx, i, entries[outpoint]);
        if verified.Failure? {
          return Failure(verified.error);
        }
        if inputSum + entries[outpoint].output.value > U64_MAX {
          return Failure(AmountOverflow);
        }
        inputSum := inputSum + entries[outpoint].output.value;
        seen, consumed := seen + {outpoint}, consumed + [outpoint];
      }
      var outputSum := SumOutputs<I>(tx.outputs);
      if outputSum.Failure? {
        return Failure(outputSum.error);
      }
      if outputSum.value > inputSum {
        return Failure(OutputValueExceedsInput);
      }
      var created := PlanOutputs(tx, height);
      if created.Failure? {
        return Failure(created.error);
      }
      entries := (entries - set o | o in consumed) + created.value;
      assert tx.inputs[..|tx.inputs|] == tx.inputs;
      return Success(inputSum - outputSum.value);
    }

    method PlanOutputs(tx: Tx<I>, height: nat) returns (r: Result<Utxos<I>, UtxoError<I>>)
      ensures var check := CheckOutputs(entries, tx, |tx.outputs|);
              && (check.Failure? ==> r == Failure(check.error))
              && (check.Success? ==> r == Success(Created(tx, height, false, |tx.outputs|)))
    {
      hide CheckOutputs, Created;
      var created: Utxos<I> := map[];
      NoOutputs(entries, tx, height);
      for i := 0 to |tx.outputs|
        invariant CheckOutputs(entries, tx, i) == Success(())
        invariant created == Created(tx, height, false, i)
      {
        var outpoint := OutPoint(tx.txid, i);
        OutputStep(entries, tx, height, i);
        CheckFails(entries, tx, i + 1, |tx.outputs|);
        if i > U32_MAX {
          return Failure(OutputIndexOverflow);
        }
        if outpoint in entries {
          return Failure(OutputCollision(outpoint));
        }
        created := created[outpoint := UtxoEntry(tx.outputs[i], height, false)];
      }
      return Success(created);
    }
  }

  // ----- What success means -----

  /** An output of a coinbase can be spent 120 blocks after it, if there is such a height. */
  ghost predicate Mature(entry: UtxoEntry, height: nat) {
    entry.isCoinbase ==> entry.creationHeight + 120 <= height && entry.creationHeight + 120 <= U64_MAX
  }

  /** A transaction may be applied exactly when its inputs are distinct, present, mature and
      accepted by the verifier, its value adds up, and none of its outputs exists yet. */
  ghost predicate InputsOk<I(!new)>(u: Utxos<I>, tx: Tx<I>, height: nat, verify: Verifier<I>, k: nat)
    requires k <= |tx.inputs|
  {
    && (forall i, j | 0 <= i < j < k :: tx.inputs[i] != tx.inputs[j])
    && (forall i | 0 <= i < k ::
          tx.inputs[i] in u && Mature(u[tx.inputs[i]], height) && verify(tx, i, u[tx.inputs[i]]).Success?)
  }

  ghost function InputValue<I(!new)>(u: Utxos<I>, inputs: seq<OutPoint<I>>): nat {
    if inputs == [] then 0
    else InputValue(u, inputs[..|inputs| - 1])
         + if inputs[|inputs| - 1] in u then u[inputs[|inputs| - 1]].output.value else 0
  }

  lemma {:induction false} ScanMeans<I(!new)>(u: Utxos<I>, tx: Tx<I>, height: nat, verify: Verifier<I>, k: nat)
    requires k <= |tx.inputs|
    ensures ScanInputs(u, tx, height, verify, k).Success?
       <==> InputsOk(u, tx, height, verify, k) && InputValue(u, tx.inputs[..k]) <= U64_MAX
    ensures ScanInputs(u, tx, height, verify, k).Success?
       ==> ScanInputs(u, tx, height, verify, k).value == InputValue(u, tx.inputs[..k])
  {
    if k > 0 {
      ScanMeans(u, tx, height, verify, k - 1);
      assert tx.inputs[..k][..k - 1] == tx.inputs[..k - 1];
      if InputsOk(u, tx, height, verify, k) {
        assert tx.inputs[k - 1] !in tx.inputs[..k - 1];
      }
    }
  }

  lemma {:induction false} CheckMeans<I(!new)>(u: Utxos<I>, tx: Tx<I>, k: nat)
    requires k <= |tx.outputs|
    ensures CheckOutputs(u, tx, k).Success?
       <==> k <= U32_MAX + 1 && forall i: nat | i < k :: OutPoint(tx.txid, i) !in u
  {
    if k > 0 {
      CheckMeans(u, tx, k - 1);
    }
  }
}
