/** Chains of blocks from the anchor: every transaction is applied at most once, so no output is
    ever created twice and every undo is exact. */
module ChainHistory {
  import opened Prelude
  import opened Encoding
  import opened ChainTypes
  import opened ChainBlocks

  /** The applications of a chain; the block after the anchor is at height 1. */
  ghost function ChainApps(blocks: seq<Block>): seq<App>
    requires forall i | 0 <= i < |blocks| :: blocks[i].transactions != []
  {
    if blocks == [] then []
    else ChainApps(blocks[..|blocks| - 1]) + AppsOf(blocks[|blocks| - 1], |blocks|)
  }

  /** A chain whose blocks all connected, whatever verifier was used. */
  ghost predicate ChainGood(blocks: seq<Block>) {
    && |blocks| <= U64_MAX
    && (forall i | 0 <= i < |blocks| :: blocks[i].transactions != [])
    && AllGood(map[], ChainApps(blocks))
  }

  /** The ledger after a chain: all its applications, from nothing. */
  ghost function Replayed(blocks: seq<Block>): Coins
    requires forall i | 0 <= i < |blocks| :: blocks[i].transactions != []
  {
    ApplyAll(map[], ChainApps(blocks))
  }

  /** A block that connects to the ledger of a good chain makes a longer good chain. */
  lemma ConnectExtends(blocks: seq<Block>, block: Block, rules: Rules, verify: Spend)
    requires ChainGood(blocks) && |blocks| < U64_MAX
    requires Connect(Replayed(blocks), block, |blocks| + 1, rules, verify).Success?
    ensures ChainGood(blocks + [block])
    ensures Connect(Replayed(blocks), block, |blocks| + 1, rules, verify).value.utxos == Replayed(blocks + [block])
  {
    hide Connect, AllGood, ApplyAll, AppsOf, SkeletonOk;
    ConnectMeans(Replayed(blocks), block, |blocks| + 1, rules, verify);
    var all := blocks + [block];
    assert all[..|all| - 1] == blocks;
    ApplyAllConcat(map[], ChainApps(blocks), AppsOf(block, |blocks| + 1));
    AllGoodConcat(map[], ChainApps(blocks), AppsOf(block, |blocks| + 1));
  }

  lemma PrefixGood(blocks: seq<Block>)
    requires ChainGood(blocks) && blocks != []
    ensures ChainGood(blocks[..|blocks| - 1])
  {
    hide AppOk, ApplyAll;
    var front := blocks[..|blocks| - 1];
    var before, all := ChainApps(front), ChainApps(blocks);
    forall k | 0 <= k < |before|
      ensures AppOk(ApplyAll(map[], before[..k]), before[k])
    {
      assert before[..k] == all[..k];
    }
  }

  // ----- Heights of coinbases -----

  ghost predicate HeightsBelow(apps: seq<App>, limit: nat) {
    forall k | 0 <= k < |apps| :: apps[k].height <= limit
  }

  /** Coinbases further along are at greater heights. */
  ghost predicate HeightsAscend(apps: seq<App>) {
    forall i, j | 0 <= i < j < |apps| && apps[i].coinbase && apps[j].coinbase :: apps[i].height < apps[j].height
  }

  lemma BlockHeights(block: Block, height: nat)
    requires block.transactions != []
    ensures var apps := AppsOf(block, height);
            forall k | 0 <= k < |apps| :: apps[k].height == height && (apps[k].coinbase ==> k == |apps| - 1)
  {
  }

  lemma {:induction false} ChainHeights(blocks: seq<Block>)
    requires forall i | 0 <= i < |blocks| :: blocks[i].transactions != []
    ensures HeightsBelow(ChainApps(blocks), |blocks|) && HeightsAscend(ChainApps(blocks))
  {
    hide AppsOf;
    if blocks != [] {
      ChainHeights(blocks[..|blocks| - 1]);
      BlockHeights(blocks[|blocks| - 1], |blocks|);
    }
  }

  // ----- Where outputs come from -----

  ghost predicate AppliedBetween(apps: seq<App>, lo: nat, hi: nat, txid: TxId)
    requires hi <= |apps|
  {
    exists p :: lo <= p < hi && apps[p].tx.txid == txid
  }

  /** An output in the ledger was created by an application of its transaction. */
  lemma {:induction false} Origin(apps: seq<App>, k: nat, o: Out)
    requires k <= |apps| && o in ApplyAll(map[], apps[..k])
    ensures AppliedBetween(apps, 0, k, o.txid)
  {
    if k > 0 {
      assert apps[..k][..k - 1] == apps[..k - 1] && apps[..k][k - 1] == apps[k - 1];
      if apps[k - 1].tx.txid != o.txid {
        Origin(apps, k - 1, o);
        var p :| 0 <= p < k - 1 && apps[p].tx.txid == o.txid;
      }
    }
  }

  lemma SpentIsGone(u: Coins, app: App, o: Out)
    requires app.tx.txid != o.txid && o in Applied(u, app)
    ensures o in u && Applied(u, app)[o] == u[o] && (!app.coinbase ==> o !in app.tx.inputs)
  {
  }

  /** An output that was spent and is in the ledger again was created again in between. */
  lemma {:induction false} OriginAfterSpend(apps: seq<App>, i: nat, k: nat, o: Out)
    requires i < k <= |apps| && !apps[i].coinbase && o in apps[i].tx.inputs
    requires o in ApplyAll(map[], apps[..k])
    ensures AppliedBetween(apps, i, k, o.txid)
  {
    assert apps[..k][..k - 1] == apps[..k - 1] && apps[..k][k - 1] == apps[k - 1];
    if apps[k - 1].tx.txid != o.txid {
      SpentIsGone(ApplyAll(map[], apps[..k - 1]), apps[k - 1], o);
      OriginAfterSpend(apps, i, k - 1, o);
      var p :| i <= p < k - 1 && apps[p].tx.txid == o.txid;
    }
  }

  // ----- No transaction twice -----

  ghost predicate Distinct(apps: seq<App>) {
    forall i, j | 0 <= i < j < |apps| :: apps[i].tx.txid != apps[j].tx.txid
  }

  lemma GoodAt(apps: seq<App>, k: nat)
    requires k < |apps| && AllGood(map[], apps)
    ensures AppOk(ApplyAll(map[], apps[..k]), apps[k])
  {
  }

  lemma OnePlace(apps: seq<App>, j: nat, p: nat, q: nat)
    requires j <= |apps| && Distinct(apps[..j]) && p < j && q < j && apps[p].tx.txid == apps[q].tx.txid
    ensures p == q
  {
    assert apps[..j][p] == apps[p] && apps[..j][q] == apps[q];
  }

  lemma SpentOnce(apps: seq<App>, i: nat, j: nat, o: Out)
    requires i < j < |apps| && Distinct(apps[..j]) && !apps[i].coinbase
    requires o in apps[i].tx.inputs && o in ApplyAll(map[], apps[..i])
    ensures o !in ApplyAll(map[], apps[..j])
  {
    hide ApplyAll, Distinct;
    Origin(apps, i, o);
    var p :| 0 <= p < i && apps[p].tx.txid == o.txid;
    if o in ApplyAll(map[], apps[..j]) {
      OriginAfterSpend(apps, i, j, o);
      var q :| i <= q < j && apps[q].tx.txid == o.txid;
      OnePlace(apps, j, p, q);
    }
  }

  lemma NotAgain(apps: seq<App>, i: nat, j: nat)
    requires i < j < |apps| && AllGood(map[], apps) && HeightsAscend(apps) && HeightsBelow(apps, U64_MAX)
    requires Distinct(apps[..j])
    ensures apps[i].tx.txid != apps[j].tx.txid
  {
    hide ApplyAll, Distinct, AllGood;
    GoodAt(apps, i);
    GoodAt(apps, j);
    if apps[i].tx.txid == apps[j].tx.txid {
      SameIdSameTx(apps[i].tx, apps[j].tx);
      if apps[j].coinbase {
        VarintInjective(apps[i].height, apps[j].height);
      } else {
        SpentOnce(apps, i, j, apps[j].tx.inputs[0]);
      }
    }
  }

  /** On a chain every transaction is applied at most once: a second application would have to
      spend inputs that were created a second time even earlier, and coinbases differ by height. */
  lemma {:induction false} AppsDistinct(apps: seq<App>, n: nat)
    requires n <= |apps| && AllGood(map[], apps) && HeightsAscend(apps) && HeightsBelow(apps, U64_MAX)
    ensures Distinct(apps[..n])
  {
    hide AppOk, ApplyAll, HeightsAscend, HeightsBelow;
    if n > 0 {
      AppsDistinct(apps, n - 1);
      forall i | 0 <= i < n - 1
        ensures apps[i].tx.txid != apps[n - 1].tx.txid
      {
        NotAgain(apps, i, n - 1);
      }
      forall i, j | 0 <= i < j < n
        ensures apps[..n][i].tx.txid != apps[..n][j].tx.txid
      {
        if j < n - 1 {
          assert apps[..n - 1][i].tx.txid != apps[..n - 1][j].tx.txid;
        }
      }
    }
  }

  // ----- No output is created again -----

  lemma {:induction false} Untouched(u: Coins, apps: seq<App>, o: Out)
    requires forall k | 0 <= k < |apps| :: apps[k].tx.txid != o.txid
    requires o in ApplyAll(u, apps)
    ensures o in u && ApplyAll(u, apps)[o] == u[o]
  {
    if apps != [] {
      var front := apps[..|apps| - 1];
      SpentIsGone(ApplyAll(u, front), apps[|apps| - 1], o);
      Untouched(u, front, o);
    }
  }

  /** The last block of a chain leaves every entry it does not remove as it was. */
  lemma NoRecreation(blocks: seq<Block>)
    requires ChainGood(blocks) && blocks != []
    ensures forall o | o in Replayed(blocks[..|blocks| - 1]) && o in Replayed(blocks) ::
              Replayed(blocks[..|blocks| - 1])[o] == Replayed(blocks)[o]
  {
    hide ApplyAll, AppsOf, AppOk;
    var front, n := blocks[..|blocks| - 1], |blocks|;
    var before, mine, all := ChainApps(front), AppsOf(blocks[n - 1], n), ChainApps(blocks);
    assert all == before + mine;
    ChainHeights(blocks);
    AppsDistinct(all, |all|);
    assert all[..|all|] == all;
    ApplyAllConcat(map[], before, mine);
    forall o | o in Replayed(front) && o in Replayed(blocks)
      ensures Replayed(front)[o] == Replayed(blocks)[o]
    {
      assert before[..|before|] == before;
      Origin(before, |before|, o);
      var p :| 0 <= p < |before| && before[p].tx.txid == o.txid;
      forall k | 0 <= k < |mine|
        ensures mine[k].tx.txid != o.txid
      {
        assert all[p] == before[p] && all[|before| + k] == mine[k];
      }
      Untouched(Replayed(front), mine, o);
    }
  }

  ghost function UndoOf(blocks: seq<Block>): BlockUndo
    requires blocks != [] && forall i | 0 <= i < |blocks| :: blocks[i].transactions != []
  {
    UndoBetween(Replayed(blocks[..|blocks| - 1]), Replayed(blocks))
  }

  /** The undo of the last block of a chain takes the ledger back exactly. */
  lemma UndoExact(blocks: seq<Block>)
    requires ChainGood(blocks) && blocks != []
    ensures Disconnect(Replayed(blocks), UndoOf(blocks)) == Success(Replayed(blocks[..|blocks| - 1]))
  {
    hide Replayed, AllGood, Disconnect;
    NoRecreation(blocks);
    DisconnectInverts(Replayed(blocks[..|blocks| - 1]), Replayed(blocks));
  }
}
