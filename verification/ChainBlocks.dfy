/** Connecting and disconnecting blocks: the effect of a block, what a connect checks, and the
    undo it leaves. */
module ChainBlocks {
  import opened Prelude
  import opened Encoding
  import opened Ledger
  import opened MerkleRoot
  import opened ChainTypes

  const MAX_BLOCK_BYTES := 1_048_576
  const HEADER_BYTES := 114

  // ----- Applications -----

  /** One transaction applied at a height, as a coinbase or not. */
  datatype App = App(tx: ChainTx, height: nat, coinbase: bool)

  function Applied(u: Coins, app: App): Coins {
    if app.coinbase then u + Created(app.tx, app.height, true, |app.tx.outputs|)
    else Effect(u, app.tx, app.height)
  }

  function ApplyAll(u: Coins, apps: seq<App>): Coins {
    if apps == [] then u else Applied(ApplyAll(u, apps[..|apps| - 1]), apps[|apps| - 1])
  }

  lemma {:induction false} ApplyAllConcat(u: Coins, a: seq<App>, b: seq<App>)
    ensures ApplyAll(u, a + b) == ApplyAll(ApplyAll(u, a), b)
    decreases |b|
  {
    if b == [] {
      assert a + b == a;
    } else {
      var front := b[..|b| - 1];
      assert (a + b)[..|a + b| - 1] == a + front && (a + b)[|a + b| - 1] == b[|b| - 1];
      ApplyAllConcat(u, a, front);
    }
  }

  /** A coinbase carries its height as its first witness item. */
  predicate CommitsHeight(tx: Tx<TxId>, height: nat) {
    |tx.rest.witnesses| > 0 && tx.rest.witnesses[0] != [] && tx.rest.witnesses[0][0] == Varint(height)
  }

  /** What every application on a chain satisfies, whatever the verifier. */
  ghost predicate AppOk(u: Coins, app: App) {
    && (forall i: nat | i < |app.tx.outputs| :: OutPoint(app.tx.txid, i) !in u)
    && (if app.coinbase then
          IsCoinbaseForm(app.tx, NullTx) && CommitsHeight(app.tx, app.height)
        else
          && app.tx.inputs != [] && !IsCoinbaseForm(app.tx, NullTx)
          && forall o | o in app.tx.inputs :: o in u)
  }

  ghost predicate AllGood(u: Coins, apps: seq<App>) {
    forall k | 0 <= k < |apps| :: AppOk(ApplyAll(u, apps[..k]), apps[k])
  }

  lemma AllGoodConcat(u: Coins, a: seq<App>, b: seq<App>)
    requires AllGood(u, a) && AllGood(ApplyAll(u, a), b)
    ensures AllGood(u, a + b)
  {
    hide AppOk, ApplyAll;
    forall k | 0 <= k < |a + b|
      ensures AppOk(ApplyAll(u, (a + b)[..k]), (a + b)[k])
    {
      if k < |a| {
        assert (a + b)[..k] == a[..k];
      } else {
        assert (a + b)[..k] == a + b[..k - |a|];
        ApplyAllConcat(u, a, b[..k - |a|]);
      }
    }
  }

  lemma NothingApplied(u: Coins)
    ensures ApplyAll(u, []) == u && AllGood(u, [])
  {
  }

  lemma GoodSnoc(u: Coins, apps: seq<App>, app: App)
    requires AllGood(u, apps) && AppOk(ApplyAll(u, apps), app)
    ensures ApplyAll(u, apps + [app]) == Applied(ApplyAll(u, apps), app) && AllGood(u, apps + [app])
  {
    hide AppOk, Applied;
    var all := apps + [app];
    assert all[..|apps|] == apps;
    forall j | 0 <= j < |apps|
      ensures all[..j] == apps[..j]
    {
    }
  }

  // ----- Connecting -----

  function SizeOf(txs: seq<ChainTx>): nat {
    if txs == [] then 0 else SizeOf(txs[..|txs| - 1]) + txs[|txs| - 1].size
  }

  function BlockSize(txs: seq<ChainTx>): nat {
    HEADER_BYTES + |Varint(|txs|)| + SizeOf(txs)
  }

  function TxIds(txs: seq<ChainTx>): (ids: seq<TxId>)
    ensures |ids| == |txs|
  {
    seq(|txs|, i requires 0 <= i < |txs| => txs[i].txid)
  }

  /** The context-free checks of a block above the anchor. */
  ghost predicate SkeletonOk(block: Block, height: nat) {
    && height > 0
    && block.transactions != []
    && BlockSize(block.transactions) <= MAX_BLOCK_BYTES
    && block.header.root == Tree(LeafHashes(TxIds(block.transactions)))
    && block.transactions[0].size <= MAX_TRANSACTION_BYTES
    && IsCoinbaseForm(block.transactions[0], NullTx)
    && forall i | 1 <= i < |block.transactions| :: CheckSkeleton(block.transactions[i], NullTx).Success?
  }

  /** The first of the first `k` transactions that is too large. */
  function FirstLarge(txs: seq<ChainTx>, k: nat): Option<nat>
    requires k <= |txs|
  {
    if k == 0 then None
    else if FirstLarge(txs, k - 1).Some? then FirstLarge(txs, k - 1)
    else if txs[k - 1].size > MAX_TRANSACTION_BYTES then Some(k - 1) else None
  }

  /** How a block reports a transaction that is not the coinbase and not in order. */
  function AsBlockError(error: StructuralError, index: nat): BlockError {
    match error
    case TooLarge => TransactionTooLarge(index)
    case EmptyInputs => EmptyNormalTransactionInputs(index)
    case EmptyOutputs => EmptyNormalTransactionOutputs(index)
    case CoinbaseForm => MultipleCoinbase
    case NullOutpointInput => NullOutpointInNormalTransaction
  }

  /** The first fault of the transactions after the coinbase, among the first `k`. */
  function CheckNormals(txs: seq<ChainTx>, k: nat): Result<(), BlockError>
    requires k <= |txs|
  {
    if k <= 1 then Success(())
    else
      var _ :- CheckNormals(txs, k - 1);
      match CheckSkeleton(txs[k - 1], NullTx)
      case Failure(error) => Failure(AsBlockError(error, k - 1))
      case Success(_) => Success(())
  }

  /** The context-free checks in their order. */
  ghost function CheckBlock(block: Block, height: nat): Result<(), BlockError> {
    var txs := block.transactions;
    if height == 0 then Failure(InvalidHeight)
    else if BlockSize(txs) > MAX_BLOCK_BYTES then Failure(BlockTooLarge)
    else if txs == [] then Failure(EmptyNonGenesisBlock)
    else if FirstLarge(txs, |txs|).Some? then Failure(TransactionTooLarge(FirstLarge(txs, |txs|).value))
    else if block.header.root != Tree(LeafHashes(TxIds(txs))) then Failure(MerkleRootMismatch)
    else if !IsCoinbaseForm(txs[0], NullTx) then Failure(InvalidCoinbase)
    else CheckNormals(txs, |txs|)
  }

  lemma {:induction false} LargeMeans(txs: seq<ChainTx>, k: nat)
    requires k <= |txs|
    ensures FirstLarge(txs, k).None? <==> forall i | 0 <= i < k :: txs[i].size <= MAX_TRANSACTION_BYTES
    ensures FirstLarge(txs, k).Some? ==>
              FirstLarge(txs, k).value < k && txs[FirstLarge(txs, k).value].size > MAX_TRANSACTION_BYTES
  {
    if k > 0 {
      LargeMeans(txs, k - 1);
    }
  }

  lemma {:induction false} NormalsChecked(txs: seq<ChainTx>, k: nat)
    requires k <= |txs|
    ensures CheckNormals(txs, k).Success? <==> forall i | 1 <= i < k :: CheckSkeleton(txs[i], NullTx).Success?
  {
    hide CheckSkeleton;
    if k > 1 {
      NormalsChecked(txs, k - 1);
    }
  }

  lemma SmallEnough(tx: ChainTx)
    ensures CheckSkeleton(tx, NullTx).Success? ==> tx.size <= MAX_TRANSACTION_BYTES
  {
  }

  /** The checks pass if and only if the block is well formed. */
  lemma CheckBlockMeans(block: Block, height: nat)
    ensures CheckBlock(block, height).Success? <==> SkeletonOk(block, height)
  {
    hide Tree, LeafHashes, BlockSize, CheckSkeleton, FirstLarge, CheckNormals;
    var txs := block.transactions;
    LargeMeans(txs, |txs|);
    NormalsChecked(txs, |txs|);
    forall i | 0 <= i < |txs|
      ensures CheckSkeleton(txs[i], NullTx).Success? ==> txs[i].size <= MAX_TRANSACTION_BYTES
    {
      SmallEnough(txs[i]);
    }
  }

  /** The rule about the value that a coinbase may claim is a parameter of the chain. */
  datatype Rules = Rules(checkClaim: (ChainTx, nat, nat) -> Result<(), BlockError>)

  function CheckCoinbase(tx: ChainTx, height: nat, fees: nat, rules: Rules): Result<(), BlockError> {
    if tx.rest.version != 1 || tx.rest.lockTime != 0 then Failure(InvalidCoinbase)
    else if tx.rest.sequences != [U32_MAX] || !CommitsHeight(tx, height) then Failure(InvalidCoinbase)
    else rules.checkClaim(tx, height, fees)
  }

  /** A later transaction of the block produces an input that is not there yet. */
  predicate OutOfOrder(u: Coins, txs: seq<ChainTx>, k: nat)
    requires k < |txs|
  {
    exists o | o in txs[k].inputs :: o !in u && exists j | k < j < |txs| :: txs[j].txid == o.txid
  }

  ghost predicate Repeats(txs: seq<ChainTx>) {
    exists i, j :: 0 <= i < j < |txs| && txs[i].txid == txs[j].txid
  }

  datatype Overlay = Overlay(utxos: Coins, fees: nat)

  function RunNormals(u: Coins, txs: seq<ChainTx>, k: nat, height: nat, verify: Spend): Result<Overlay, UtxoError<TxId>>
    requires k <= |txs|
  {
    if k == 0 then Success(Overlay(u, 0))
    else
      var before :- RunNormals(u, txs, k - 1, height, verify);
      if OutOfOrder(before.utxos, txs, k - 1) then Failure(InvalidBlockOrder)
      else
        var fee :- FeeOf(before.utxos, txs[k - 1], height, verify);
        if before.fees + fee > U64_MAX then Failure(AmountOverflow)
        else Success(Overlay(Effect(before.utxos, txs[k - 1], height), before.fees + fee))
  }

  /** The net change of a block: what it removed, with the entries, and what it added. */
  datatype BlockUndo = BlockUndo(spent: Coins, created: set<Out>)

  datatype Connected = Connected(utxos: Coins, undo: BlockUndo)

  function UndoBetween(before: Coins, after: Coins): BlockUndo {
    BlockUndo(map o | o in before && o !in after :: before[o], set o | o in after && o !in before)
  }

  lemma SkeletonHasCoinbase(block: Block, height: nat)
    ensures CheckBlock(block, height).Success? ==> block.transactions != [] && SkeletonOk(block, height)
    ensures SkeletonOk(block, height) ==> block.transactions != []
  {
    hide CheckBlock, Tree, LeafHashes, BlockSize, CheckSkeleton;
    CheckBlockMeans(block, height);
  }

  /** Connects a block: the others in order, then the coinbase, on an overlay. */
  ghost function Connect(u: Coins, block: Block, height: nat, rules: Rules, verify: Spend): (r: Result<Connected,
          UtxoError<TxId>>)
    ensures r.Success? ==> r.value.undo == UndoBetween(u, r.value.utxos)
  {
    SkeletonHasCoinbase(block, height);
    if CheckBlock(block, height).Failure? then Failure(Consensus(CheckBlock(block, height).error))
    else if Repeats(block.transactions[1..]) then Failure(InvalidBlockOrder)
    else
      var run :- RunNormals(u, block.transactions[1..], |block.transactions| - 1, height, verify);
      var coinbase := block.transactions[0];
      if run.fees > MAX_SUPPLY_BASE_UNITS then Failure(AmountOverflow)
      else if CheckCoinbase(coinbase, height, run.fees, rules).Failure? then
        Failure(Consensus(CheckCoinbase(coinbase, height, run.fees, rules).error))
      else
        var _ :- CheckOutputs(run.utxos, coinbase, |coinbase.outputs|);
        var after := run.utxos + Created(coinbase, height, true, |coinbase.outputs|);
        Success(Connected(after, UndoBetween(u, after)))
  }

  function Disconnect(u: Coins, undo: BlockUndo): Result<Coins, UtxoError<TxId>> {
    if !(undo.created <= u.Keys) then Failure(UndoMismatch)
    else if !(undo.spent.Keys !! undo.created && undo.spent.Keys !! u.Keys) then Failure(UndoMismatch)
    else Success((u - undo.created) + undo.spent)
  }

  /** Disconnecting right after connecting always succeeds; it restores the ledger if and only if
      the block changed no entry that was there before and after. */
  lemma DisconnectInverts(before: Coins, after: Coins)
    ensures var r := Disconnect(after, UndoBetween(before, after));
            && r.Success?
            && (r.value == before <==> forall o | o in before && o in after :: before[o] == after[o])
  {
    var r := Disconnect(after, UndoBetween(before, after));
    assert r.value.Keys == before.Keys;
    if r.value == before {
      forall o | o in before && o in after
        ensures before[o] == after[o]
      {
        assert r.value[o] == after[o];
      }
    }
  }

  // ----- What a successful connect means -----

  function NormalApps(txs: seq<ChainTx>, height: nat): (apps: seq<App>)
    ensures |apps| == |txs|
  {
    seq(|txs|, i requires 0 <= i < |txs| => App(txs[i], height, false))
  }

  /** The applications of a block: the others in order, then the coinbase. */
  function AppsOf(block: Block, height: nat): (apps: seq<App>)
    requires block.transactions != []
    ensures |apps| == |block.transactions|
  {
    NormalApps(block.transactions[1..], height) + [App(block.transactions[0], height, true)]
  }

  lemma NormalIsOk(u: Coins, tx: ChainTx, height: nat, verify: Spend)
    requires FeeOf(u, tx, height, verify).Success? && CheckSkeleton(tx, NullTx).Success?
    ensures AppOk(u, App(tx, height, false))
  {
    ScanMeans(u, tx, height, verify, |tx.inputs|);
    CheckMeans(u, tx, |tx.outputs|);
  }

  lemma {:induction false} NormalsMean(u: Coins, txs: seq<ChainTx>, k: nat, height: nat, verify: Spend)
    requires k <= |txs| && RunNormals(u, txs, k, height, verify).Success?
    requires forall i | 0 <= i < |txs| :: CheckSkeleton(txs[i], NullTx).Success?
    ensures RunNormals(u, txs, k, height, verify).value.utxos == ApplyAll(u, NormalApps(txs, height)[..k])
    ensures AllGood(u, NormalApps(txs, height)[..k])
  {
    hide FeeOf, Effect, AppOk, OutOfOrder, ApplyAll, AllGood, CheckSkeleton;
    var apps := NormalApps(txs, height);
    if k == 0 {
      NothingApplied(u);
    } else {
      NormalsMean(u, txs, k - 1, height, verify);
      var before := RunNormals(u, txs, k - 1, height, verify).value.utxos;
      NormalIsOk(before, txs[k - 1], height, verify);
      GoodSnoc(u, apps[..k - 1], apps[k - 1]);
      assert apps[..k] == apps[..k - 1] + [apps[k - 1]];
    }
  }

  lemma NormalSkeletons(block: Block, height: nat)
    requires SkeletonOk(block, height)
    ensures forall i | 0 <= i < |block.transactions[1..]| :: CheckSkeleton(block.transactions[1..][i], NullTx).Success?
  {
    hide Tree, LeafHashes, BlockSize, CheckSkeleton;
  }

  lemma CoinbaseIsOk(u: Coins, block: Block, height: nat, rules: Rules)
    requires SkeletonOk(block, height)
    requires exists fees :: CheckCoinbase(block.transactions[0], height, fees, rules).Success?
    requires CheckOutputs(u, block.transactions[0], |block.transactions[0].outputs|).Success?
    ensures AppOk(u, App(block.transactions[0], height, true))
  {
    hide Tree, LeafHashes, BlockSize;
    CheckMeans(u, block.transactions[0], |block.transactions[0].outputs|);
  }

  lemma OneGood(u: Coins, app: App)
    requires AppOk(u, app)
    ensures ApplyAll(u, [app]) == Applied(u, app) && AllGood(u, [app])
  {
    hide AppOk;
    assert [app][..0] == [];
  }

  lemma BlockApplies(u: Coins, block: Block, height: nat, rules: Rules, verify: Spend, run: Overlay)
    requires block.transactions != [] && SkeletonOk(block, height)
    requires RunNormals(u, block.transactions[1..], |block.transactions| - 1, height, verify) == Success(run)
    requires CheckCoinbase(block.transactions[0], height, run.fees, rules).Success?
    requires CheckOutputs(run.utxos, block.transactions[0], |block.transactions[0].outputs|).Success?
    ensures run.utxos + Created(block.transactions[0], height, true, |block.transactions[0].outputs|)
         == ApplyAll(u, AppsOf(block, height))
    ensures AllGood(u, AppsOf(block, height))
  {
    hide SkeletonOk, RunNormals, AppOk, AllGood, ApplyAll, CheckCoinbase, CheckOutputs, CheckSkeleton, Created;
    var txs, coinbase := block.transactions[1..], block.transactions[0];
    NormalSkeletons(block, height);
    NormalsMean(u, txs, |txs|, height, verify);
    var normals, last := NormalApps(txs, height), App(coinbase, height, true);
    assert normals[..|txs|] == normals;
    CoinbaseIsOk(run.utxos, block, height, rules);
    ApplyAllConcat(u, normals, [last]);
    OneGood(run.utxos, last);
    AllGoodConcat(u, normals, [last]);
  }

  lemma ConnectMeans(u: Coins, block: Block, height: nat, rules: Rules, verify: Spend)
    requires Connect(u, block, height, rules, verify).Success?
    ensures block.transactions != [] && SkeletonOk(block, height)
    ensures var c := Connect(u, block, height, rules, verify).value;
            && c.utxos == ApplyAll(u, AppsOf(block, height)) && AllGood(u, AppsOf(block, height))
            && c.undo == UndoBetween(u, c.utxos)
  {
    SkeletonHasCoinbase(block, height);
    hide SkeletonOk, RunNormals, AppOk, AllGood, Repeats, UndoBetween, AppsOf, ApplyAll, CheckCoinbase, CheckOutputs;
    var run := RunNormals(u, block.transactions[1..], |block.transactions| - 1, height, verify).value;
    BlockApplies(u, block, height, rules, verify, run);
  }
}
