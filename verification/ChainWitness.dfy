/** Why the chain and the index are what they are: every block of the active chain connects on the
    replay below it, and every block marked invalid stands on one that does not. */
module ChainWitness {
  import opened Prelude
  import opened ChainTypes
  import opened ChainBlocks
  import opened ChainHistory
  import opened ChainStore
  import opened ChainReorg
  import opened ChainSteps
  import opened ChainInvariant
  import opened ChainExtend
  import opened ChainSwitch
  import opened ChainPlan

  // ----- Chains whose blocks connect -----

  /** The block connects on the replay of the chain. */
  ghost predicate ConnectsWith(below: seq<Block>, block: Block, rules: Rules, verify: Spend) {
    ChainGood(below) && Connect(Replayed(below), block, |below| + 1, rules, verify).Success?
  }

  ghost predicate RefusedWith(below: seq<Block>, block: Block, rules: Rules, verify: Spend) {
    ChainGood(below) && Connect(Replayed(below), block, |below| + 1, rules, verify).Failure?
  }

  /** Some verifier lets it connect. */
  ghost predicate ConnectsOn(below: seq<Block>, block: Block, rules: Rules) {
    exists verify: Spend :: ConnectsWith(below, block, rules, verify)
  }

  ghost predicate AllConnect(chain: seq<Block>, rules: Rules) {
    forall k | 0 <= k < |chain| :: ConnectsOn(chain[..k], chain[k], rules)
  }

  lemma AllConnectSnoc(chain: seq<Block>, block: Block, rules: Rules)
    requires AllConnect(chain, rules) && ConnectsOn(chain, block, rules)
    ensures AllConnect(chain + [block], rules)
  {
    hide ConnectsOn;
    var all := chain + [block];
    forall k | 0 <= k < |all|
      ensures ConnectsOn(all[..k], all[k], rules)
    {
      if k < |chain| {
        assert all[..k] == chain[..k];
      } else {
        assert all[..k] == chain;
      }
    }
  }

  lemma AllConnectPrefix(chain: seq<Block>, n: nat, rules: Rules)
    requires AllConnect(chain, rules) && n <= |chain|
    ensures AllConnect(chain[..n], rules)
  {
    hide ConnectsOn;
    forall k | 0 <= k < n
      ensures chain[..n][..k] == chain[..k] && chain[..n][k] == chain[k]
    {
    }
  }

  // ----- Branches, by the ids that headers commit to -----

  /** The id that the next block above a chain names as its parent. */
  ghost function Top(chain: seq<Block>, anchor: BlockId): BlockId {
    if chain == [] then anchor else IdOf(chain[|chain| - 1].header)
  }

  /** Each block names the one before it, and the first names the anchor. */
  ghost predicate Branch(chain: seq<Block>, anchor: BlockId) {
    forall k | 0 <= k < |chain| :: chain[k].header.previous == Top(chain[..k], anchor)
  }

  lemma BranchSnoc(chain: seq<Block>, block: Block, anchor: BlockId)
    requires Branch(chain, anchor) && block.header.previous == Top(chain, anchor)
    ensures Branch(chain + [block], anchor)
  {
    hide Top;
    var all := chain + [block];
    forall k | 0 <= k < |all|
      ensures all[k].header.previous == Top(all[..k], anchor)
    {
      if k < |chain| {
        assert all[..k] == chain[..k];
      } else {
        assert all[..k] == chain;
      }
    }
  }

  lemma BranchPrefix(chain: seq<Block>, n: nat, anchor: BlockId)
    requires Branch(chain, anchor) && n <= |chain|
    ensures Branch(chain[..n], anchor)
  {
    hide Top;
    forall k | 0 <= k < n
      ensures chain[..n][..k] == chain[..k] && chain[..n][k] == chain[k]
    {
    }
  }

  /** `id` is `ancestor`, or its header leads there. */
  ghost predicate Descends(id: BlockId, ancestor: BlockId) {
    id == ancestor || (id.BlockDigest? && Descends(id.header.previous, ancestor))
  }

  // ----- Blame -----

  /** A block does not connect on the replay of the chain it names, whose own blocks all do. */
  ghost predicate RefusedOn(below: seq<Block>, block: Block, anchor: BlockId, rules: Rules) {
    && Branch(below, anchor) && block.header.previous == Top(below, anchor)
    && AllConnect(below, rules)
    && exists verify: Spend :: RefusedWith(below, block, rules, verify)
  }

  /** The branch of `id` holds such a block. */
  ghost predicate Blamed(id: BlockId, anchor: BlockId, rules: Rules) {
    exists below, block :: RefusedOn(below, block, anchor, rules) && Descends(id, IdOf(block.header))
  }

  ghost predicate BlameOk(index: Index, anchor: BlockId, rules: Rules) {
    forall id | id in index && index[id].status == Invalid :: Blamed(id, anchor, rules)
  }

  /** No block that is not invalid beats the preferred header. */
  ghost predicate HeaderIsBest(index: Index, work: nat) {
    forall id | id in index && index[id].status != Invalid :: index[id].work <= work
  }

  ghost predicate Proven(chain: seq<Block>, index: Index, best: nat, anchor: BlockId, rules: Rules) {
    AllConnect(chain, rules) && BlameOk(index, anchor, rules) && HeaderIsBest(index, best)
  }

  ghost predicate ProvenState(state: State, chain: seq<Block>, config: Config) {
    Proven(chain, state.store.index, state.headerTip.work, IdOf(config.anchorHeader), config.rules)
  }

  lemma ProvenPut(chain: seq<Block>, index: Index, best: nat, more: nat, anchor: BlockId, rules: Rules, record: Record)
    requires Proven(chain, index, best, anchor, rules) && record.status != Invalid && best <= more
             && record.work <= more
    ensures Proven(chain, index[IdOf(record.header) := record], more, anchor, rules)
  {
    hide AllConnect, Blamed;
  }

  lemma ProvenStart(config: Config)
    ensures ProvenState(Bootstrapped(config), [], config)
  {
    hide Blamed;
  }

  // ----- The active chain is a branch -----

  lemma ActiveLink(state: State, chain: seq<Block>, config: Config, k: nat)
    requires Inv(state, chain, config) && k < |chain|
    ensures chain[k].header.previous == Top(chain[..k], IdOf(config.anchorHeader))
  {
    hide BodiesOk, TipIsBest, HeaderTipOk, ChainGood, Replayed, UndoOf, WorkFollows;
    var s, anchor := state.store, IdOf(config.anchorHeader);
    assert k + 1 in s.active && s.active[k + 1] == IdOf(chain[k].header);
    assert s.index[s.active[k + 1]].parent == s.active[k + 1 - 1];
    assert s.active[k + 1] != anchor;
    assert Follows(s.index, s.index[s.active[k + 1]]);
    if k > 0 {
      assert s.active[k] == IdOf(chain[k - 1].header);
    }
  }

  lemma {:induction false} ActiveBranch(state: State, chain: seq<Block>, config: Config)
    requires Inv(state, chain, config)
    ensures Branch(chain, IdOf(config.anchorHeader)) && ChainGood(chain)
  {
    hide IndexOk, ActiveOk, BodiesOk, TipIsBest, HeaderTipOk, LedgerOk, ChainGood;
    LedgerFacts(state.store.active, state.store.undos, state.store.utxos, state.utxos, state.tip.height, chain);
    forall k | 0 <= k < |chain|
      ensures chain[k].header.previous == Top(chain[..k], IdOf(config.anchorHeader))
    {
      ActiveLink(state, chain, config, k);
    }
  }

  // ----- A plan, block by block -----

  /** The chain below the body at `k`: the active one up to the fork, then the bodies before it. */
  ghost function Below(chain: seq<Block>, plan: Plan, k: nat): seq<Block>
    requires plan.forkHeight <= |chain| && k <= |plan.bodies|
  {
    chain[..plan.forkHeight] + BlocksOf(plan.bodies, k)
  }

  lemma ForkInside(state: State, chain: seq<Block>, config: Config, plan: Plan, record: Record)
    requires Inv(state, chain, config) && PlanFits(state, config, plan, record)
    ensures plan.forkHeight <= |chain| && plan.bodies != []
    ensures plan.forkHeight in state.store.active && state.store.active[plan.forkHeight] in state.store.index
    ensures forall i | 0 <= i < |plan.bodies| ::
              BodyFits(state.store.index, IdOf(config.anchorHeader), ForkTip(state, plan), record.work, plan.bodies, i)
  {
    hide BodyFits, Attachable, IndexOk, ActiveOk, BodiesOk, TipIsBest, HeaderTipOk, ChainGood, Replayed, UndoOf;
  }

  lemma StandsHere(s: Store, next: Store, anchor: BlockId, tip: Tip, work: nat, staged: Staged, chain: seq<Block>)
    requires OnTheWay(s, next, anchor, tip, work, staged, chain)
    ensures ChainGood(chain) && staged.utxos == Replayed(chain) && |chain| == tip.height
  {
    hide IndexOk, SameShape, ActiveOk, BodiesOk, TipIsBest, Patched, Retained, ChainGood, Replayed;
    LedgerFacts(next.active, next.undos, staged.utxos, staged.utxos, tip.height, chain);
  }

  lemma BodyAbove(s: Store, next: Store, anchor: BlockId, start: Tip, work: nat, staged: Staged, chain: seq<Block>,
                  bodies: seq<Body>, k: nat)
    requires k < |bodies| && OnTheWay(s, next, anchor, TipAt(start, bodies, k), work, staged, chain)
    requires BodyFits(s.index, anchor, start, work, bodies, k)
    ensures bodies[k].record.height == |chain| + 1
  {
    hide IndexOk, SameShape, ActiveOk, BodiesOk, TipIsBest, LedgerOk, Patched, Retained, Follows;
    var tip := TipAt(start, bodies, k);
    StandsHere(s, next, anchor, tip, work, staged, chain);
    FollowsOnTheWay(s, next, anchor, tip, work, staged, chain, bodies[k].record);
    TipFollows(next.active, next.index, Some(Point(tip.id, tip.height)), tip, anchor, bodies[k].record);
  }

  /** Winding up to `k` bodies stands on the replay of the chain below. */
  lemma WindStands(state: State, chain: seq<Block>, config: Config, plan: Plan, record: Record, verify: Spend, k: nat)
    requires Inv(state, chain, config) && PlanFits(state, config, plan, record) && state.tip.work < record.work
    requires k <= |plan.bodies|
    ensures plan.forkHeight <= |chain| && Unwind(state.utxos, plan.undos, |plan.undos|).Success?
    ensures var staged := Unwind(state.utxos, plan.undos, |plan.undos|).value;
            var w, below := Wind(staged, plan.bodies, k, config.rules, verify), Below(chain, plan, k);
            w.Wound? ==>
              && ChainGood(below) && w.staged.utxos == Replayed(below)
              && (k < |plan.bodies| ==> plan.bodies[k].record.height == |below| + 1)
  {
    hide Inv, PlanFits, OnTheWay, Wind, Unwind, DropActive, PutBodies, ChainGood, Replayed, BodyFits;
    ForkInside(state, chain, config, plan, record);
    UnwoundIsOnTheWay(state, chain, config, plan, record);
    var s, anchor := state.store, IdOf(config.anchorHeader);
    var staged, cut := Unwind(state.utxos, plan.undos, |plan.undos|).value,
                       DropActive(s, plan.forkHeight, state.tip.height);
    WindAll(s, cut, anchor, ForkTip(state, plan), record.work, staged, chain[..plan.forkHeight], plan.bodies, k,
            config.rules, verify);
    var w := Wind(staged, plan.bodies, k, config.rules, verify);
    if w.Wound? {
      var next, tip := PutBodies(cut, plan.bodies, w.undos, k), TipAt(ForkTip(state, plan), plan.bodies, k);
      StandsHere(s, next, anchor, tip, record.work, w.staged, Below(chain, plan, k));
      if k < |plan.bodies| {
        BodyAbove(s, next, anchor, ForkTip(state, plan), record.work, w.staged, Below(chain, plan, k), plan.bodies, k);
      }
    }
  }

  /** The body at `k` connects on the chain below it if and only if winding goes past it. */
  lemma WindDecides(state: State, chain: seq<Block>, config: Config, plan: Plan, record: Record, verify: Spend, k: nat)
    requires Inv(state, chain, config) && PlanFits(state, config, plan, record) && state.tip.work < record.work
    requires k < |plan.bodies|
    ensures plan.forkHeight <= |chain| && Unwind(state.utxos, plan.undos, |plan.undos|).Success?
    ensures var staged := Unwind(state.utxos, plan.undos, |plan.undos|).value;
            Wind(staged, plan.bodies, k, config.rules, verify).Wound? ==>
              && ChainGood(Below(chain, plan, k))
              && var c := Connect(Replayed(Below(chain, plan, k)), plan.bodies[k].block, |Below(chain, plan, k)| + 1,
                                  config.rules, verify);
                 && (c.Success? ==> Wind(staged, plan.bodies, k + 1, config.rules, verify).Wound?)
                 && (c.Failure? ==> Wind(staged, plan.bodies, k + 1, config.rules, verify) == Stuck(k, c.error))
  {
    hide Inv, PlanFits, Unwind, Connect, ConnectDelta, ChainGood, Replayed, Below;
    WindStands(state, chain, config, plan, record, verify, k);
  }

  lemma BelowNext(chain: seq<Block>, plan: Plan, k: nat)
    requires plan.forkHeight <= |chain| && k < |plan.bodies|
    ensures Below(chain, plan, k + 1) == Below(chain, plan, k) + [plan.bodies[k].block]
  {
  }

  lemma BelowStart(chain: seq<Block>, plan: Plan)
    requires plan.forkHeight <= |chain|
    ensures Below(chain, plan, 0) == chain[..plan.forkHeight]
  {
  }

  /** The body at `k` names the top of the chain below it. */
  lemma BodyNames(state: State, chain: seq<Block>, config: Config, plan: Plan, record: Record, k: nat)
    requires Inv(state, chain, config) && PlanFits(state, config, plan, record)
    requires plan.forkHeight <= |chain| && k < |plan.bodies|
    ensures plan.bodies[k].block.header.previous == Top(Below(chain, plan, k), IdOf(config.anchorHeader))
    ensures plan.bodies[k].id == IdOf(plan.bodies[k].block.header) == IdOf(plan.bodies[k].record.header)
  {
    hide IndexOk, BodiesOk, TipIsBest, HeaderTipOk, ChainGood, Replayed, UndoOf, Attachable, WorkFollows;
    var s, anchor := state.store, IdOf(config.anchorHeader);
    assert BodyFits(s.index, anchor, ForkTip(state, plan), record.work, plan.bodies, k);
    if k == 0 {
      BelowStart(chain, plan);
      if plan.forkHeight > 0 {
        assert s.active[plan.forkHeight] == IdOf(chain[plan.forkHeight - 1].header);
      }
    } else {
      BelowNext(chain, plan, k - 1);
      assert BodyFits(s.index, anchor, ForkTip(state, plan), record.work, plan.bodies, k - 1);
    }
  }

  /** What winding past `k` bodies shows: each connects on the chain below it. */
  ghost predicate FirstConnect(chain: seq<Block>, plan: Plan, k: nat, rules: Rules, verify: Spend)
    requires plan.forkHeight <= |chain| && k <= |plan.bodies|
  {
    forall j | 0 <= j < k :: ConnectsWith(Below(chain, plan, j), plan.bodies[j].block, rules, verify)
  }

  lemma {:induction false} WindConnects(state: State, chain: seq<Block>, config: Config, plan: Plan, record: Record,
                                        verify: Spend, k: nat)
    requires Inv(state, chain, config) && PlanFits(state, config, plan, record) && state.tip.work < record.work
    requires k <= |plan.bodies|
    ensures plan.forkHeight <= |chain| && Unwind(state.utxos, plan.undos, |plan.undos|).Success?
    ensures var staged := Unwind(state.utxos, plan.undos, |plan.undos|).value;
            Wind(staged, plan.bodies, k, config.rules, verify).Wound? <==>
                  FirstConnect(chain, plan, k, config.rules, verify)
  {
    hide Inv, PlanFits, Unwind, Connect, ConnectDelta, ChainGood, Replayed, Below;
    WindStands(state, chain, config, plan, record, verify, k);
    if k > 0 {
      WindConnects(state, chain, config, plan, record, verify, k - 1);
      WindDecides(state, chain, config, plan, record, verify, k - 1);
    }
  }

  /** Where winding sticks is the first body that does not connect on the chain below it. */
  lemma {:induction false} WindSticksAt(state: State, chain: seq<Block>, config: Config, plan: Plan, record: Record,
                                        verify: Spend, k: nat)
    requires Inv(state, chain, config) && PlanFits(state, config, plan, record) && state.tip.work < record.work
    requires k <= |plan.bodies| && plan.forkHeight <= |chain| && Unwind(state.utxos, plan.undos, |plan.undos|).Success?
    requires Wind(Unwind(state.utxos, plan.undos, |plan.undos|).value, plan.bodies, k, config.rules, verify).Stuck?
    ensures var w := Wind(Unwind(state.utxos, plan.undos, |plan.undos|).value, plan.bodies, k, config.rules, verify);
            var below := Below(chain, plan, w.position);
            && FirstConnect(chain, plan, w.position, config.rules, verify)
            && ChainGood(below)
            && Connect(Replayed(below), plan.bodies[w.position].block, |below| + 1, config.rules, verify)
              == Failure(w.error)
  {
    hide Inv, PlanFits, Unwind, Connect, ConnectDelta, ChainGood, Replayed, Below, FirstConnect;
    if k > 0 {
      var staged := Unwind(state.utxos, plan.undos, |plan.undos|).value;
      if Wind(staged, plan.bodies, k - 1, config.rules, verify).Stuck? {
        WindSticksAt(state, chain, config, plan, record, verify, k - 1);
      } else {
        WindConnects(state, chain, config, plan, record, verify, k - 1);
        WindDecides(state, chain, config, plan, record, verify, k - 1);
      }
    }
  }

  /** The chain below a body is a branch whose blocks connect, if the active one is. */
  lemma {:induction false} BelowConnects(state: State, chain: seq<Block>, config: Config, plan: Plan, record: Record,
                                         verify: Spend, k: nat)
    requires Inv(state, chain, config) && PlanFits(state, config, plan, record)
    requires plan.forkHeight <= |chain| && k <= |plan.bodies|
    requires AllConnect(chain, config.rules) && FirstConnect(chain, plan, k, config.rules, verify)
    ensures AllConnect(Below(chain, plan, k), config.rules) && Branch(Below(chain, plan, k), IdOf(config.anchorHeader))
  {
    hide Inv, PlanFits, AllConnect, Branch, Below, ConnectsWith, Top;
    var anchor := IdOf(config.anchorHeader);
    if k == 0 {
      BelowStart(chain, plan);
      ActiveBranch(state, chain, config);
      AllConnectPrefix(chain, plan.forkHeight, config.rules);
      BranchPrefix(chain, plan.forkHeight, anchor);
    } else {
      var below, block := Below(chain, plan, k - 1), plan.bodies[k - 1].block;
      BelowConnects(state, chain, config, plan, record, verify, k - 1);
      BelowNext(chain, plan, k - 1);
      BodyNames(state, chain, config, plan, record, k - 1);
      assert ConnectsWith(below, block, config.rules, verify);
      AllConnectSnoc(below, block, config.rules);
      BranchSnoc(below, block, anchor);
    }
  }
}
