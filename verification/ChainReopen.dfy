/** What reopening a consistent store gives. */
module ChainReopen {
  import opened Prelude
  import opened ChainTypes
  import opened ChainBlocks
  import opened ChainStore
  import opened ChainReorg
  import opened ChainSteps
  import opened ChainInvariant
  import opened ChainExtend
  import opened ChainPrune
  import opened ChainBranch
  import opened ChainRecovery

  // ----- Targets stay within the limit -----

  ghost predicate Limited(index: Index, limit: nat) {
    forall id | id in index && index[id].height > 0 :: index[id].header.difficulty <= limit
  }

  lemma LimitedPut(index: Index, limit: nat, record: Record)
    requires Limited(index, limit) && (record.height > 0 ==> record.header.difficulty <= limit)
    ensures Limited(index[IdOf(record.header) := record], limit)
  {
  }

  ghost predicate PathLimited(path: seq<Node>, limit: nat) {
    forall i | 0 <= i < |path| :: path[i].record.header.difficulty <= limit
  }

  lemma {:induction false} DiscoverLimited(s: Store, id: BlockId, record: Record, limit: nat)
    requires Limited(s.index, limit) && (record.height > 0 ==> record.header.difficulty <= limit)
    ensures Discover(s, id, record).Success? ==> PathLimited(Discover(s, id, record).value.path, limit)
    decreases record.height
  {
    hide BlockWork;
    if Discover(s, id, record).Success? && !ActiveAt(s, record.height, id) {
      DiscoverLimited(s, record.parent, s.index[record.parent], limit);
    }
  }

  ghost predicate BodiesLimited(bodies: seq<Body>, limit: nat) {
    forall i | 0 <= i < |bodies| :: bodies[i].record.header.difficulty <= limit
  }

  lemma {:induction false} MarkLimited(s: Store, bodies: seq<Body>, candidate: BlockId, limit: nat)
    requires Limited(s.index, limit) && BodiesLimited(bodies, limit)
    ensures Limited(MarkInvalid(s, bodies, candidate).index, limit)
  {
    if bodies != [] {
      var front, last := bodies[..|bodies| - 1], bodies[|bodies| - 1];
      MarkLimited(s, front, candidate, limit);
      LimitedPut(MarkInvalid(s, front, candidate).index, limit,
                 last.record.(status := Invalid, bodyRetained := last.id != candidate && last.record.bodyRetained));
    }
  }

  lemma {:induction false} PutLimited(s: Store, bodies: seq<Body>, undos: seq<BlockUndo>, k: nat, limit: nat)
    requires k <= |bodies| && k <= |undos| && Limited(s.index, limit) && BodiesLimited(bodies, limit)
    ensures Limited(PutBodies(s, bodies, undos, k).index, limit)
  {
    if k > 0 {
      PutLimited(s, bodies, undos, k - 1, limit);
      LimitedPut(PutBodies(s, bodies, undos, k - 1).index, limit,
                 bodies[k - 1].record.(status := FullyValidated, bodyRetained := true));
    }
  }

  lemma SuffixLimited(bodies: seq<Body>, k: nat, limit: nat)
    requires BodiesLimited(bodies, limit) && k <= |bodies|
    ensures BodiesLimited(bodies[k..], limit)
  {
  }

  lemma PlanLimited(state: State, plan: Plan, candidate: BlockId, config: Config, verify: Spend, commitOk: bool,
                    limit: nat)
    requires Limited(state.store.index, limit) && BodiesLimited(plan.bodies, limit)
    ensures Limited(ApplyPlan(state, plan, candidate, config, verify, commitOk).state.store.index, limit)
  {
    hide Limited, BodiesLimited, Wind, Unwind, PutBodies, MarkInvalid;
    var unwound := Unwind(state.utxos, plan.undos, |plan.undos|);
    if plan.bodies != [] && unwound.Success? {
      var w := Wind(unwound.value, plan.bodies, |plan.bodies|, config.rules, verify);
      if w.Stuck? {
        SuffixLimited(plan.bodies, w.position, limit);
        MarkLimited(state.store, plan.bodies[w.position..], candidate, limit);
      } else {
        PutLimited(DropActive(state.store, plan.forkHeight, state.tip.height), plan.bodies, w.undos, |plan.bodies|,
                   limit);
      }
    }
  }

  lemma LoadedLimited(s: Store, path: seq<Node>, candidate: BlockId, block: Block, limit: nat)
    requires PathLimited(path, limit) && LoadBodies(s, path, candidate, block).Success?
    ensures BodiesLimited(LoadBodies(s, path, candidate, block).value, limit)
  {
    BodiesMatch(s, path, candidate, block);
  }

  lemma ReorganizeLimited(state: State, block: Block, record: Record, config: Config, verify: Spend, commitOk: bool,
                          limit: nat)
    requires Limited(state.store.index, limit) && record.header.difficulty <= limit
    ensures Limited(Reorganize(state, block, record, config, verify, commitOk).state.store.index, limit)
  {
    hide Limited, ApplyPlan, Discover, PathLimited, BodiesLimited, LoadBodies, LoadUndos;
    var id := IdOf(block.header);
    var fork := DiscoverFork(state.store, id, record);
    if fork.Success? {
      DiscoverLimited(state.store, id, record, limit);
      var plan := LoadPlan(state.store, state.tip.height, fork.value, id, block);
      if plan.Success? {
        LoadedLimited(state.store, fork.value.path, id, block, limit);
        PlanLimited(state, plan.value, id, config, verify, commitOk, limit);
      }
    }
  }

  lemma PlaceLimited(state: State, block: Block, record: Record, config: Config, verify: Spend, commitOk: bool,
                     limit: nat)
    requires Limited(state.store.index, limit) && record.header == block.header && block.header.difficulty <= limit
    ensures Limited(Place(state, block, record, config, verify, commitOk).state.store.index, limit)
  {
    hide Limited, Reorganize, Connect, ConnectDelta, Patched;
    LimitedPut(state.store.index, limit, record.(bodyRetained := true));
    LimitedPut(state.store.index, limit,
               Record(block.header, block.header.previous, record.height, record.work, FullyValidated, true));
    ReorganizeLimited(state, block, record.(bodyRetained := true), config, verify, commitOk, limit);
  }

  lemma PrunedLimited(s: Store, tipHeight: nat, limit: nat)
    requires Limited(s.index, limit)
    ensures Limited(Pruned(s, tipHeight).index, limit)
  {
    hide BodiesDropped, UndosDropped;
  }

  lemma KnownLimited(state: State, chain: seq<Block>, config: Config, id: BlockId, block: Block)
    requires Inv(state, chain, config) && Limited(state.store.index, config.powLimit) && id in state.store.index
    ensures state.store.index[id].status == HeaderValidated ==>
              state.store.index[id].header.difficulty <= config.powLimit
  {
    hide ActiveOk, BodiesOk, TipIsBest, HeaderTipOk, LedgerOk, BlockWork;
  }

  // ----- The scan -----

  /** Whether reopening at this tip looks for data that was pruned at this height. */
  predicate Missed(tipHeight: nat, mark: nat, h: nat) {
    SafeCursor(tipHeight) < h <= mark
  }

  lemma HeightChecked(s: Store, tip: Tip, config: Config, mark: nat, h: nat, previous: Tip)
    requires IndexOk(s.index, IdOf(config.anchorHeader))
             && ActiveOk(s.active, s.index, s.tip, tip, IdOf(config.anchorHeader))
    requires Retained(s.active, s.index, s.blocks, s.undos, mark) && Limited(s.index, config.powLimit)
             && h <= tip.height
    requires h > 0 ==> h - 1 in s.active && previous == Tip(s.active[h - 1], h - 1, s.index[s.active[h - 1]].work)
    ensures h in s.active && s.active[h] in s.index
    ensures CheckHeight(s, config, SafeCursor(tip.height), h, previous)
         == if Missed(tip.height, mark, h) then Failure(CorruptState)
             else Success(Tip(s.active[h], h, s.index[s.active[h]].work))
  {
    hide BlockWork;
    assert h in s.active;
    if h > 0 {
      assert s.active[h] != IdOf(config.anchorHeader);
      assert Follows(s.index, s.index[s.active[h]]);
    }
  }

  lemma {:induction false} ScanPasses(s: Store, tip: Tip, config: Config, mark: nat, h: nat)
    requires IndexOk(s.index, IdOf(config.anchorHeader))
             && ActiveOk(s.active, s.index, s.tip, tip, IdOf(config.anchorHeader))
    requires Retained(s.active, s.index, s.blocks, s.undos, mark) && Limited(s.index, config.powLimit)
             && h <= tip.height
    requires mark <= SafeCursor(tip.height) || h <= SafeCursor(tip.height)
    ensures h in s.active && s.active[h] in s.index
    ensures Scan(s, config, SafeCursor(tip.height), h) == Success(Tip(s.active[h], h, s.index[s.active[h]].work))
  {
    hide IndexOk, ActiveOk, Retained, Limited, CheckHeight;
    if h == 0 {
      HeightChecked(s, tip, config, mark, 0, Tip(ZeroId, 0, 0));
    } else {
      ScanPasses(s, tip, config, mark, h - 1);
      HeightChecked(s, tip, config, mark, h, Tip(s.active[h - 1], h - 1, s.index[s.active[h - 1]].work));
    }
  }

  lemma MarkIsActive(s: Store, tip: Tip, config: Config, mark: nat)
    requires ActiveOk(s.active, s.index, s.tip, tip, IdOf(config.anchorHeader))
             && Retained(s.active, s.index, s.blocks, s.undos, mark)
    ensures mark <= tip.height
  {
  }

  /** The scan stops at the lowest height where it misses data. */
  lemma ScanStops(s: Store, tip: Tip, config: Config, mark: nat)
    requires IndexOk(s.index, IdOf(config.anchorHeader))
             && ActiveOk(s.active, s.index, s.tip, tip, IdOf(config.anchorHeader))
    requires Retained(s.active, s.index, s.blocks, s.undos, mark) && Limited(s.index, config.powLimit)
    requires SafeCursor(tip.height) < mark
    ensures Scan(s, config, SafeCursor(tip.height), tip.height) == Failure(CorruptState)
  {
    MarkIsActive(s, tip, config, mark);
    hide IndexOk, ActiveOk, Retained, Limited, CheckHeight;
    var safe := SafeCursor(tip.height);
    ScanPasses(s, tip, config, mark, safe);
    HeightChecked(s, tip, config, mark, safe + 1, Tip(s.active[safe], safe, s.index[s.active[safe]].work));
    ScanStaysFailed(s, config, safe, safe + 1, tip.height);
  }

  /** What reopening gives: the same tips and ledger, unless a reindex was required, the active
      chain was emptied higher than the cursor of the present tip, or the preferred header has an
      invalid block on its branch. */
  ghost predicate Reopens(state: State, config: Config, mark: nat) {
    && state.store.tip == Some(Point(state.tip.id, state.tip.height))
    && Reopen(state.store, config, Point(state.tip.id, state.tip.height))
       == if state.store.health != Some(Healthy) then Failure(ReindexNeeded)
          else if mark <= SafeCursor(state.tip.height) && Untainted(state.store.index, state.headerTip.id) then
            Success(Reopened(state.tip, state.headerTip, state.utxos))
          else Failure(CorruptState)
  }

  lemma StoredTip(active: Active, index: Index, stored: Option<Point>, tip: Tip, anchor: BlockId)
    requires ActiveOk(active, index, stored, tip, anchor)
    ensures stored == Some(Point(tip.id, tip.height)) && tip.height in active && active[tip.height] == tip.id
    ensures tip.id in index && index[tip.id].work == tip.work
  {
  }

  lemma ScanOutcome(s: Store, tip: Tip, config: Config, mark: nat)
    requires IndexOk(s.index, IdOf(config.anchorHeader))
             && ActiveOk(s.active, s.index, s.tip, tip, IdOf(config.anchorHeader))
    requires Retained(s.active, s.index, s.blocks, s.undos, mark) && Limited(s.index, config.powLimit)
    ensures Scan(s, config, SafeCursor(tip.height), tip.height)
         == if mark <= SafeCursor(tip.height) then Success(tip) else Failure(CorruptState)
  {
    hide IndexOk, ActiveOk, Limited, Retained, Scan;
    StoredTip(s.active, s.index, s.tip, tip, IdOf(config.anchorHeader));
    if mark <= SafeCursor(tip.height) {
      ScanPasses(s, tip, config, mark, tip.height);
    } else {
      ScanStops(s, tip, config, mark);
    }
  }

  lemma MetaOutcome(s: Store, config: Config, safe: nat)
    requires MetaOk(s, config)
    ensures CheckMeta(s, config, safe)
         == if s.health != Some(Healthy) then Failure(ReindexNeeded)
            else if s.pruneCursor.value > safe then Failure(CorruptState) else Success(())
  {
  }

  lemma ReopenOutcome(state: State, chain: seq<Block>, config: Config, mark: nat)
    requires Inv(state, chain, config) && Limited(state.store.index, config.powLimit) && Kept(state, mark)
    ensures Reopens(state, config, mark)
  {
    hide IndexOk, ActiveOk, BodiesOk, TipIsBest, HeaderTipOk, LedgerOk, MetaOk, Limited, Retained, Scan, CheckMeta,
         LoadHeaderTip, Untainted;
    var s, anchor := state.store, IdOf(config.anchorHeader);
    StoredTip(s.active, s.index, s.tip, state.tip, anchor);
    LedgerFacts(s.active, s.undos, s.utxos, state.utxos, state.tip.height, chain);
    MetaOutcome(s, config, SafeCursor(state.tip.height));
    ScanOutcome(s, state.tip, config, mark);
    HeaderTipOutcome(s, anchor, state.headerTip, state.tip.work);
  }
}
