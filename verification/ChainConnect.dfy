/** When a block connects, and what it does to the money in the ledger. */
module ChainConnect {
  import opened Prelude
  import opened Ledger
  import opened LedgerTotals
  import opened ChainTypes
  import opened ChainBlocks

  /** The ledger after the first `k` transactions. */
  ghost function After(u: Coins, txs: seq<ChainTx>, k: nat, height: nat): Coins
    requires k <= |txs|
  {
    if k == 0 then u else Effect(After(u, txs, k - 1, height), txs[k - 1], height)
  }

  /** Each of the first `k` transactions may be applied after those before it. */
  ghost predicate AllApplicable(u: Coins, txs: seq<ChainTx>, k: nat, height: nat, verify: Spend)
    requires k <= |txs|
  {
    forall i: nat | i < k :: Applicable(After(u, txs, i, height), txs[i], height, verify)
  }

  /** A transaction that may be applied misses no input, so it is not out of order. */
  lemma ApplicableInOrder(u: Coins, txs: seq<ChainTx>, k: nat, height: nat, verify: Spend)
    requires k < |txs| && Applicable(u, txs[k], height, verify)
    ensures !OutOfOrder(u, txs, k)
  {
    hide Total, Named, Made;
  }

  lemma NoneToApply(u: Coins, txs: seq<ChainTx>, height: nat, verify: Spend)
    ensures AllApplicable(u, txs, 0, height, verify)
  {
  }

  lemma OneMoreApplicable(u: Coins, txs: seq<ChainTx>, k: nat, height: nat, verify: Spend)
    requires k < |txs|
    ensures AllApplicable(u, txs, k + 1, height, verify)
       <==> AllApplicable(u, txs, k, height, verify) && Applicable(After(u, txs, k, height), txs[k], height, verify)
  {
    hide Applicable, After;
  }

  /** Money only leaves the ledger, as fees. */
  lemma {:induction false} RunMeans(u: Coins, txs: seq<ChainTx>, k: nat, height: nat, verify: Spend)
    requires k <= |txs|
    ensures AllApplicable(u, txs, k, height, verify) ==> Total(After(u, txs, k, height)) <= Total(u)
    ensures RunNormals(u, txs, k, height, verify).Success?
       <==> AllApplicable(u, txs, k, height, verify) && Total(u) - Total(After(u, txs, k, height)) <= U64_MAX
    ensures RunNormals(u, txs, k, height, verify).Success? ==>
              var run := RunNormals(u, txs, k, height, verify).value;
              run.utxos == After(u, txs, k, height) && run.fees + Total(run.utxos) == Total(u)
  {
    hide FeeOf, Effect, OutOfOrder, Applicable, Total, AllApplicable;
    if k == 0 {
      NoneToApply(u, txs, height, verify);
    } else {
      RunMeans(u, txs, k - 1, height, verify);
      var before := After(u, txs, k - 1, height);
      FeeMeans(before, txs[k - 1], height, verify);
      OneMoreApplicable(u, txs, k - 1, height, verify);
      if Applicable(before, txs[k - 1], height, verify) {
        ApplicableInOrder(before, txs, k - 1, height, verify);
        EffectConserves(before, txs[k - 1], height, verify);
      }
    }
  }

  /** Why a block's transactions stop: at the first that may not be applied, for want of an input that
      a later one makes or for its own fault, or because the fees no longer fit. */
  ghost predicate StopsAt(u: Coins, txs: seq<ChainTx>, k: nat, height: nat, verify: Spend, error: UtxoError<TxId>)
    requires k < |txs|
  {
    var before := After(u, txs, k, height);
    && AllApplicable(u, txs, k, height, verify)
    && if !Applicable(before, txs[k], height, verify) then
         if exists o, j :: o in txs[k].inputs && o !in before && k < j < |txs| && txs[j].txid == o.txid
         then error == InvalidBlockOrder
         else FeeOf(before, txs[k], height, verify) == Failure(error)
       else
         error == AmountOverflow && Total(u) - Total(After(u, txs, k + 1, height)) > U64_MAX
  }

  lemma StopsHere(u: Coins, txs: seq<ChainTx>, k: nat, height: nat, verify: Spend)
    requires k < |txs| && RunNormals(u, txs, k, height, verify).Success?
             && RunNormals(u, txs, k + 1, height, verify).Failure?
    ensures StopsAt(u, txs, k, height, verify, RunNormals(u, txs, k + 1, height, verify).error)
  {
    hide FeeOf, Effect, Applicable, Total;
    RunMeans(u, txs, k, height, verify);
    RunMeans(u, txs, k + 1, height, verify);
    var before := After(u, txs, k, height);
    FeeMeans(before, txs[k], height, verify);
    if Applicable(before, txs[k], height, verify) {
      ApplicableInOrder(before, txs, k, height, verify);
      EffectConserves(before, txs[k], height, verify);
    }
  }

  lemma {:induction false} RunStops(u: Coins, txs: seq<ChainTx>, n: nat, height: nat, verify: Spend)
    requires n <= |txs| && RunNormals(u, txs, n, height, verify).Failure?
    ensures exists k: nat | k < n :: StopsAt(u, txs, k, height, verify, RunNormals(u, txs, n, height, verify).error)
  {
    hide FeeOf, Effect, Applicable, Total, StopsAt;
    if n > 0 {
      if RunNormals(u, txs, n - 1, height, verify).Failure? {
        RunStops(u, txs, n - 1, height, verify);
      } else {
        StopsHere(u, txs, n - 1, height, verify);
      }
    }
  }

  // ----- Whole blocks -----

  /** The ledger after a block's other transactions. */
  ghost function BeforeCoinbase(u: Coins, block: Block, height: nat): Coins
    requires block.transactions != []
  {
    After(u, block.transactions[1..], |block.transactions| - 1, height)
  }

  /** What the other transactions of the block spend beyond what they make. */
  ghost function Fees(u: Coins, block: Block, height: nat): int
    requires block.transactions != []
  {
    Total(u) - Total(BeforeCoinbase(u, block, height))
  }

  /** A block is well formed, repeats no transaction, each of its transactions may be applied in turn,
      and its coinbase commits to the height, makes its claim within the rule and makes nothing that is
      there already. */
  ghost predicate Connectable(u: Coins, block: Block, height: nat, rules: Rules, verify: Spend) {
    && block.transactions != [] && SkeletonOk(block, height) && !Repeats(block.transactions[1..])
    && AllApplicable(u, block.transactions[1..], |block.transactions| - 1, height, verify)
    && Fees(u, block, height) <= MAX_SUPPLY_BASE_UNITS
    && var coinbase, fees: int := block.transactions[0], Fees(u, block, height);
       && coinbase.rest.version == 1 && coinbase.rest.lockTime == 0 && coinbase.rest.sequences == [U32_MAX]
       && CommitsHeight(coinbase, height)
       && fees >= 0 && rules.checkClaim(coinbase, height, fees).Success?
       && |coinbase.outputs| <= U32_MAX + 1
       && forall i: nat | i < |coinbase.outputs| :: OutPoint(coinbase.txid, i) !in BeforeCoinbase(u, block, height)
  }

  /** A block connects if and only if it is connectable; then its coinbase is added to the ledger that
      its other transactions leave. */
  lemma ConnectExact(u: Coins, block: Block, height: nat, rules: Rules, verify: Spend)
    ensures Connect(u, block, height, rules, verify).Success? <==> Connectable(u, block, height, rules, verify)
    ensures Connect(u, block, height, rules, verify).Success? ==>
              Connect(u, block, height, rules, verify).value.utxos
              == BeforeCoinbase(u, block, height)
                 + Created(block.transactions[0], height, true, |block.transactions[0].outputs|)
  {
    hide SkeletonOk, CheckBlock, RunNormals, AllApplicable, After, Total, Repeats, CheckOutputs, Created, UndoBetween,
         CommitsHeight;
    CheckBlockMeans(block, height);
    SkeletonHasCoinbase(block, height);
    if block.transactions != [] {
      var txs := block.transactions[1..];
      RunMeans(u, txs, |txs|, height, verify);
      CheckMeans(BeforeCoinbase(u, block, height), block.transactions[0], |block.transactions[0].outputs|);
    }
  }

  /** A block adds to the ledger what its coinbase makes beyond its fees. */
  lemma ConnectConserves(u: Coins, block: Block, height: nat, rules: Rules, verify: Spend)
    requires Connect(u, block, height, rules, verify).Success?
    ensures block.transactions != []
    ensures Total(Connect(u, block, height, rules, verify).value.utxos)
         == Total(u) - Fees(u, block, height) + Total(Made(block.transactions[0]))
  {
    hide Connect, Total, After, AllApplicable, SkeletonOk, Created;
    ConnectExact(u, block, height, rules, verify);
    var coinbase := block.transactions[0];
    var outputs := Created(coinbase, height, true, |coinbase.outputs|);
    TotalUnion(BeforeCoinbase(u, block, height), outputs);
    SameWorth(coinbase, height, true, |coinbase.outputs|);
  }
}
