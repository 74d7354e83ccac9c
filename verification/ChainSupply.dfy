/** The money supply: no chain that a node accepts holds more than the schedule has issued. */
module ChainSupply {
  import opened Prelude
  import opened Ledger
  import opened LedgerTotals
  import opened ChainTypes
  import opened ChainBlocks
  import opened ChainConnect
  import opened ChainHistory
  import opened ChainStore
  import opened ChainSteps
  import opened ChainInvariant
  import opened ChainWitness
  import opened ChainConsensus
  import opened ChainEmission
  import opened ChainRun
  import opened Asert

  // ----- One claim -----

  /** What the founder is due at a height. */
  function Founding(height: nat): nat {
    if height == 1 then FOUNDER_ALLOCATION else 0
  }

  /** A claim passes if and only if the first block pays the founder and, beyond that, the coinbase
      makes no more than the subsidy and the fees. */
  lemma ClaimMeans(founder: seq<byte>, tx: ChainTx, height: nat, fees: nat)
    ensures CheckClaim(founder, tx, height, fees).Success? <==>
              && (height == 1 ==> tx.outputs != [] && tx.outputs[0] == TxOutput(FOUNDER_ALLOCATION, [0x01] + founder))
              && Subsidy(height) + fees <= U64_MAX
              && Total(Made(tx)) <= Founding(height) + Subsidy(height) + fees
  {
    hide Total, Created, Subsidy, SumOutputs;
    if height == 1 {
      if tx.outputs != [] && tx.outputs[0] == TxOutput(FOUNDER_ALLOCATION, [0x01] + founder) {
        var rest := tx.(outputs := tx.outputs[1..]);
        SumMeans(rest, |rest.outputs|);
        assert rest.outputs[..|rest.outputs|] == tx.outputs[1..];
        WorthSplits(tx, rest, |tx.outputs| - 1);
      }
    } else {
      SumMeans(tx, |tx.outputs|);
      assert tx.outputs[..|tx.outputs|] == tx.outputs;
    }
  }

  // ----- One block -----

  ghost predicate ClaimsChecked(rules: Rules, founder: seq<byte>) {
    forall tx: ChainTx, height: nat, fees: nat ::
          rules.checkClaim(tx, height, fees) == CheckClaim(founder, tx, height, fees)
  }

  lemma ClaimAt(rules: Rules, founder: seq<byte>, tx: ChainTx, height: nat, fees: nat)
    requires ClaimsChecked(rules, founder)
    ensures rules.checkClaim(tx, height, fees) == CheckClaim(founder, tx, height, fees)
  {
    hide CheckClaim;
  }

  /** A block adds at most its subsidy, and the founder's allocation if it is the first. */
  lemma BlockIssues(u: Coins, block: Block, height: nat, founder: seq<byte>, rules: Rules, verify: Spend)
    requires Connect(u, block, height, rules, verify).Success?
    requires ClaimsChecked(rules, founder)
    ensures Total(Connect(u, block, height, rules, verify).value.utxos) <= Total(u) + Subsidy(height) + Founding(height)
  {
    hide Connect, Total, Made, SkeletonOk, AllApplicable, Subsidy, CheckClaim, BeforeCoinbase, Repeats, CommitsHeight,
         Created, ClaimsChecked;
    ConnectExact(u, block, height, rules, verify);
    ConnectConserves(u, block, height, rules, verify);
    ClaimAt(rules, founder, block.transactions[0], height, Fees(u, block, height));
    ClaimMeans(founder, block.transactions[0], height, Fees(u, block, height));
  }

  // ----- Whole chains -----

  ghost function Issued(height: nat): nat {
    Issuance(height) + if height == 0 then 0 else FOUNDER_ALLOCATION
  }

  /** What the ledger of a chain holds. */
  ghost function Supply(chain: seq<Block>): nat
    requires ChainGood(chain)
  {
    Total(Replayed(chain))
  }

  lemma NothingReplayed()
    ensures ChainGood([]) && Supply([]) == 0
  {
    TotalOfNothing<TxId>();
  }

  lemma LastConnects(chain: seq<Block>, rules: Rules)
    requires AllConnect(chain, rules) && chain != []
    ensures ConnectsOn(chain[..|chain| - 1], chain[|chain| - 1], rules)
  {
    hide ConnectsOn;
  }

  lemma SupplyGrows(chain: seq<Block>, block: Block, founder: seq<byte>, rules: Rules, verify: Spend)
    requires ConnectsWith(chain, block, rules, verify) && |chain| < U64_MAX && ClaimsChecked(rules, founder)
    ensures ChainGood(chain) && ChainGood(chain + [block])
    ensures Supply(chain + [block]) <= Supply(chain) + Subsidy(|chain| + 1) + Founding(|chain| + 1)
  {
    hide AllGood, ChainApps, Total, Connect, Subsidy, ClaimsChecked;
    ConnectExtends(chain, block, rules, verify);
    BlockIssues(Replayed(chain), block, |chain| + 1, founder, rules, verify);
  }

  lemma GoodLength(chain: seq<Block>)
    requires ChainGood(chain)
    ensures |chain| <= U64_MAX
  {
  }

  lemma {:induction false} ChainSupplied(chain: seq<Block>, founder: seq<byte>, rules: Rules)
    requires ChainGood(chain) && AllConnect(chain, rules)
    requires ClaimsChecked(rules, founder)
    ensures Supply(chain) <= Issued(|chain|)
  {
    hide ChainGood, Supply, Connect, Subsidy, ClaimsChecked, ConnectsWith, AllConnect;
    if chain == [] {
      NothingReplayed();
    } else {
      var front, last := chain[..|chain| - 1], chain[|chain| - 1];
      PrefixGood(chain);
      AllConnectPrefix(chain, |front|, rules);
      ChainSupplied(front, founder, rules);
      LastConnects(chain, rules);
      var verify: Spend :| ConnectsWith(front, last, rules, verify);
      GoodLength(chain);
      assert front + [last] == chain;
      SupplyGrows(front, last, founder, rules, verify);
    }
  }

  lemma LedgerIsReplay(state: State, chain: seq<Block>, config: Config)
    requires Inv(state, chain, config)
    ensures ChainGood(chain) && |chain| == state.tip.height && Total(state.utxos) == Supply(chain)
  {
    hide IndexOk, ActiveOk, BodiesOk, TipIsBest, HeaderTipOk, MetaOk, ChainGood;
  }

  /** The supply law: after every run of a node the ledger holds at most the founder's allocation and
      the subsidies up to the tip, and never more than the maximum supply. */
  lemma SupplyIsBounded(anchor: Header, genesisTime: u64, params: Params, founder: seq<byte>,
                        pow: (Store, Header) -> bool, events: seq<Event>)
    ensures var state := Run(NodeConfig(anchor, genesisTime, params, founder, pow), events);
            && Total(state.utxos) <= Issued(state.tip.height)
            && Issued(state.tip.height) <= 94_999_997_000_000 + FOUNDER_ALLOCATION <= MAX_SUPPLY_BASE_UNITS
  {
    hide Run, Total, Inv, Subsidy, Kept, CheckClaim, HeaderRule, Supply, ChainGood;
    var config := NodeConfig(anchor, genesisTime, params, founder, pow);
    var chain := RunInv(config, events);
    var state := Run(config, events);
    LedgerIsReplay(state, chain, config);
    ChainSupplied(chain, founder, config.rules);
    ScheduleIsExact(state.tip.height);
  }
}
