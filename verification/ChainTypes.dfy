/** Blocks, headers and transactions of the chain.  Ids are domain-separated hashes, modelled as
    free constructors over the content they commit to. */
module ChainTypes {
  import opened Prelude
  import opened Ledger
  import opened MerkleRoot
  import opened Arithmetic
  import Asert

  datatype TxId =
    | NullTx
    | TxDigest(inputs: seq<OutPoint<TxId>>, outputs: seq<TxOutput>, size: Positive, rest: Rest)

  function DigestOf(tx: Tx<TxId>): TxId {
    TxDigest(tx.inputs, tx.outputs, tx.size, tx.rest)
  }

  const NO_REST := Rest(0, [], [], 0)

  /** A transaction whose id is its digest. */
  type ChainTx = tx: Tx<TxId> | tx.txid == DigestOf(tx) witness Tx(TxDigest([], [], 1, NO_REST), [], [], 1, NO_REST)

  /** Equal ids, equal transactions. */
  lemma SameIdSameTx(a: ChainTx, b: ChainTx)
    requires a.txid == b.txid
    ensures a == b
  {
  }

  type Bits256 = n: nat | n < Asert.U256_LIMIT

  datatype BlockId = ZeroId | BlockDigest(header: Header)

  /** `difficulty` is the committed target as a 256-bit number. */
  datatype Header = Header(version: nat, previous: BlockId, root: RootHash<TxId>, timestamp: u64, difficulty: Bits256,
                           nonce: u64)

  datatype Block = Block(header: Header, transactions: seq<ChainTx>)

  type Coins = Utxos<TxId>

  type Out = OutPoint<TxId>

  type Spend = Verifier<TxId>

  // ----- Work -----

  /** The expected number of hashes for a target. */
  function BlockWork(target: Bits256): (work: nat)
    requires target > 0
    ensures work >= 1
  {
    Asert.U256_LIMIT / (target + 1)
  }

  /** It is the largest number that, times the target and one, is at most 2 to the 256th. */
  lemma WorkMeans(target: Bits256, work: nat)
    requires target > 0
    ensures work <= BlockWork(target) <==> work * (target + 1) <= Asert.U256_LIMIT
  {
    var most := BlockWork(target);
    QuotientBounds(Asert.U256_LIMIT, target + 1);
    if work <= most {
      MulMonotone(work, most, target + 1);
    } else {
      MulMonotone(most + 1, work, target + 1);
    }
  }
}
