/** The steps of a pruned node and of one that never prunes, side by side, and their whole runs. */
module ChainShadowRun {
  import opened Prelude
  import opened ChainTypes
  import opened ChainBlocks
  import opened ChainHistory
  import opened ChainStore
  import opened ChainReorg
  import opened ChainSteps
  import opened ChainInvariant
  import opened ChainExtend
  import opened ChainSwitch
  import opened ChainPlan
  import opened ChainPrune
  import opened ChainAccept
  import opened ChainBranch
  import opened ChainReopen
  import opened ChainRun
  import opened ChainConsensus
  import opened ChainShadow
  import Asert

  // ----- One record on both sides -----

  /** A record without a usable body. */
  lemma ShadowPut(u: State, p: State, mark: nat, anchor: BlockId, record: Record)
    requires Shadow(u, p, mark) && IndexOk(u.store.index, anchor) && Follows(u.store.index, record)
             && IdOf(record.header) != anchor
    requires record.status == Invalid || !record.bodyRetained
    ensures Shadow(u.(store := WithIndex(u.store, record)), p.(store := WithIndex(p.store, record)), mark)
  {
    hide IndexOk, Follows, Thinned, SameHigh, SameUndos, SameBody;
    ThinnedPut(u.store.index, p.store.index, record);
    SameHighPut(u.store.active[mark], anchor, u.store.index, p.store.index, u.store.blocks, p.store.blocks, record,
                u.store.blocks, p.store.blocks);
  }

  /** A record with its body. */
  lemma ShadowStore(u: State, p: State, mark: nat, anchor: BlockId, record: Record, block: Block)
    requires Shadow(u, p, mark) && IndexOk(u.store.index, anchor) && Follows(u.store.index, record)
    requires record.header == block.header && IdOf(record.header) != anchor
    ensures Shadow(u.(store := WithIndex(u.store, record).(blocks := u.store.blocks[IdOf(block.header) := block])),
                   p.(store := WithIndex(p.store, record).(blocks := p.store.blocks[IdOf(block.header) := block])),
                               mark)
  {
    hide IndexOk, Follows, Thinned, SameHigh, SameUndos;
    var id := IdOf(block.header);
    ThinnedPut(u.store.index, p.store.index, record);
    SameHighPut(u.store.active[mark], anchor, u.store.index, p.store.index, u.store.blocks, p.store.blocks, record,
                u.store.blocks[id := block], p.store.blocks[id := block]);
  }

  lemma IndexOfInv(state: State, chain: seq<Block>, config: Config)
    requires Inv(state, chain, config)
    ensures IndexOk(state.store.index, IdOf(config.anchorHeader))
    ensures ActiveOk(state.store.active, state.store.index, state.store.tip, state.tip, IdOf(config.anchorHeader))
  {
    hide IndexOk, ActiveOk, BodiesOk, TipIsBest, HeaderTipOk, LedgerOk;
  }

  lemma {:induction false} ShadowMark(u: State, p: State, mark: nat, chain: seq<Block>, config: Config,
                                      bodies: seq<Body>, candidate: BlockId)
    requires Inv(u, chain, config) && Shadow(u, p, mark) && MarkableAll(u, config, bodies, candidate)
    ensures Shadow(u.(store := MarkInvalid(u.store, bodies, candidate)),
                   p.(store := MarkInvalid(p.store, bodies, candidate)), mark)
  {
    hide Inv, Attachable, SameShape, Shadow, IndexOk, ActiveOk;
    if bodies != [] {
      var front, last := bodies[..|bodies| - 1], bodies[|bodies| - 1];
      ShadowMark(u, p, mark, chain, config, front, candidate);
      MarkKeeps(u, chain, config, front, candidate);
      var before, other := u.(store := MarkInvalid(u.store, front, candidate)),
                           p.(store := MarkInvalid(p.store, front, candidate));
      var changed := last.record.(status := Invalid, bodyRetained := last.id != candidate && last.record.bodyRetained);
      AttachableStill(u.store.active, u.store.index, before.store.index, IdOf(config.anchorHeader), last.record,
                      changed);
      IndexOfInv(before, chain, config);
      AttachableFacts(before, config, changed);
      ShadowPut(before, other, mark, IdOf(config.anchorHeader), changed);
    }
  }

  // ----- Headers -----

  /** The header rule does not look at bodies. */
  ghost predicate Blind(config: Config) {
    forall s: Store, t: Store, header | SameTree(s.index, t.index) ::
          config.headerOk(s, header) == config.headerOk(t, header)
  }

  lemma SameValidation(s: Store, t: Store, config: Config, header: Header)
    requires SameTree(s.index, t.index) && Blind(config)
    ensures ValidateHeader(t, header, config) == ValidateHeader(s, header, config)
  {
    hide BlockWork;
  }

  lemma ShadowHeader(u: State, p: State, mark: nat, chain: seq<Block>, config: Config, header: Header)
    requires Inv(u, chain, config) && Shadow(u, p, mark) && Blind(config)
    ensures Shadow(AcceptHeader(u, header, config, true).state, AcceptHeader(p, header, config, true).state, mark)
  {
    hide Inv, IndexOk, ActiveOk, SameHigh, SameUndos, ValidateHeader, Blind;
    SameValidation(u.store, p.store, config, header);
    var record := ValidateHeader(u.store, header, config);
    if IdOf(header) !in u.store.index && record.Success? {
      IndexOfInv(u, chain, config);
      NewAttachable(u, chain, config, header);
      AttachableFacts(u, config, record.value);
      ValidatedFollows(u.store, header, config);
      ShadowPut(u, p, mark, IdOf(config.anchorHeader), record.value);
    }
  }

  // ----- Extending -----

  lemma FullOf(index: Index, record: Record, full: Record)
    requires Follows(index, record) && full == record.(status := full.status, bodyRetained := full.bodyRetained)
    ensures Follows(index, full) && full.parent == full.header.previous
  {
    hide WorkFollows;
    FullFollows(index, record, full);
  }

  lemma ShadowExtend(u: State, p: State, mark: nat, chain: seq<Block>, config: Config, block: Block, record: Record,
                     verify: Spend)
    requires Inv(u, chain, config) && Shadow(u, p, mark) && record.header == block.header && record.parent == u.tip.id
    requires Attachable(u.store.active, u.store.index, IdOf(config.anchorHeader), record)
    ensures var a, b := Extend(u, block, record.height, record.work, config, verify, true),
                        Extend(p, block, record.height, record.work, config, verify, true);
            a.result == b.result && Shadow(a.state, b.state, mark)
  {
    hide Inv, IndexOk, ActiveOk, Thinned, SameHigh, Connect, ConnectDelta, Patched, Attachable, Follows;
    IndexOfInv(u, chain, config);
    AttachableFacts(u, config, record);
    var full, id := record.(status := FullyValidated, bodyRetained := true), IdOf(block.header);
    FullOf(u.store.index, record, full);
    TipFollows(u.store.active, u.store.index, u.store.tip, u.tip, IdOf(config.anchorHeader), full);
    ThinnedPut(u.store.index, p.store.index, full);
    SameHighPut(u.store.active[mark], IdOf(config.anchorHeader), u.store.index, p.store.index, u.store.blocks,
                p.store.blocks, full, u.store.blocks[id := block], p.store.blocks[id := block]);
  }

  // ----- Reorganizing -----

  /** A block whose fork is not below the mark stands above the marked block. */
  lemma {:induction false} DiscoveredIsHigh(s: Store, tip: Tip, anchor: BlockId, mark: nat, id: BlockId)
    requires IndexOk(s.index, anchor) && ActiveOk(s.active, s.index, s.tip, tip, anchor) && mark in s.active
             && id in s.index
    requires Discover(s, id, s.index[id]).Success? && Discover(s, id, s.index[id]).value.height >= mark
    requires !ActiveAt(s, s.index[id].height, id)
    ensures High(s.index, s.active[mark], id)
    decreases s.index[id].height
  {
    hide IndexOk, ActiveOk, High, WorkFollows;
    var parent := s.index[id].parent;
    if ActiveAt(s, s.index[parent].height, parent) {
      var h := s.index[parent].height;
      if mark < h {
        ActiveIsHigh(s.active, s.index, s.tip, tip, anchor, mark, h);
      }
    } else {
      DiscoveredIsHigh(s, tip, anchor, mark, parent);
    }
    HighChild(s.index, s.active[mark], id);
  }

  lemma HighSame(m: BlockId, mark: nat, us: Store, ps: Store, id: BlockId)
    requires Twin(m, mark, us, ps) && id in us.index && High(us.index, m, id) && us.index[id].status != Invalid
    ensures id in ps.index && ps.index[id] == us.index[id]
    ensures us.index[id].bodyRetained ==> SameBody(id, us.blocks, ps.blocks)
  {
    hide High, SameBody;
  }

  /** Such a fork is found with the same path on both sides. */
  lemma {:induction false} SameFork(us: Store, ps: Store, tip: Tip, anchor: BlockId, mark: nat, id: BlockId,
                                    record: Record)
    requires IndexOk(us.index, anchor) && ActiveOk(us.active, us.index, us.tip, tip, anchor) && mark in us.active
    requires Twin(us.active[mark], mark, us, ps)
    requires Discover(us, id, record).Success? && Discover(us, id, record).value.height >= mark
    ensures Discover(ps, id, record) == Discover(us, id, record)
    decreases record.height
  {
    hide IndexOk, ActiveOk, High, SameHigh, SameUndos, SameBody, BlockWork;
    if !ActiveAt(us, record.height, id) {
      var parent := us.index[record.parent];
      if !ActiveAt(us, parent.height, record.parent) {
        DiscoveredIsHigh(us, tip, anchor, mark, record.parent);
        HighSame(us.active[mark], mark, us, ps, record.parent);
        SameFork(us, ps, tip, anchor, mark, record.parent, parent);
      }
    }
  }

  lemma LastOfPath(s: Store, id: BlockId, record: Record)
    requires Discover(s, id, record).Success? && !ActiveAt(s, record.height, id)
    ensures var path := Discover(s, id, record).value.path;
            path != [] && path[|path| - 1] == Node(id, record) && record.status != Invalid
  {
    hide ParentChildOk;
  }

  /** Every block of the path but the candidate is stored above the marked block. */
  lemma {:induction false} PathIsHigh(s: Store, tip: Tip, anchor: BlockId, mark: nat, id: BlockId, record: Record)
    requires IndexOk(s.index, anchor) && ActiveOk(s.active, s.index, s.tip, tip, anchor) && mark in s.active
    requires Discover(s, id, record).Success? && Discover(s, id, record).value.height >= mark
    ensures var path := Discover(s, id, record).value.path;
            && (path != [] ==> path[|path| - 1].id == id)
            && forall i | 0 <= i < |path| - 1 :: path[i].id in s.index && s.index[path[i].id] == path[i].record
                                                 && path[i].record.status != Invalid
                                                    && High(s.index, s.active[mark], path[i].id)
    decreases record.height
  {
    hide IndexOk, ActiveOk, High, WorkFollows;
    if !ActiveAt(s, record.height, id) {
      var parent := s.index[record.parent];
      PathIsHigh(s, tip, anchor, mark, record.parent, parent);
      if !ActiveAt(s, parent.height, record.parent) {
        DiscoveredIsHigh(s, tip, anchor, mark, record.parent);
        LastOfPath(s, record.parent, parent);
      }
    }
  }

  lemma {:induction false} SameUndosLoaded(us: Store, ps: Store, mark: nat, low: nat, high: nat)
    requires us.active == ps.active && SameUndos(us.active, mark, us.undos, ps.undos) && mark <= low
    ensures LoadUndos(ps, low, high) == LoadUndos(us, low, high)
    decreases high
  {
    if low < high && high in us.active {
      SameUndosLoaded(us, ps, mark, low, high - 1);
    }
  }

  lemma {:induction false} SameBodiesLoaded(m: BlockId, mark: nat, us: Store, ps: Store, path: seq<Node>,
                                            candidate: BlockId, block: Block)
    requires Twin(m, mark, us, ps) && BodiesOk(us.blocks, us.index)
    requires forall i | 0 <= i < |path| && path[i].id != candidate ::
               path[i].id in us.index && us.index[path[i].id] == path[i].record && path[i].record.status != Invalid
                   && High(us.index, m, path[i].id)
    ensures LoadBodies(ps, path, candidate, block) == LoadBodies(us, path, candidate, block)
  {
    hide Twin, High, BodiesOk;
    if path != [] {
      var last := path[|path| - 1];
      SameBodiesLoaded(m, mark, us, ps, path[..|path| - 1], candidate, block);
      if last.id != candidate {
        HighSame(m, mark, us, ps, last.id);
      }
    }
  }

  lemma BodiesOfInv(state: State, chain: seq<Block>, config: Config)
    requires Inv(state, chain, config)
    ensures BodiesOk(state.store.blocks, state.store.index)
  {
    hide IndexOk, ActiveOk, BodiesOk, TipIsBest, HeaderTipOk, LedgerOk;
  }

  /** The plan is the same on both sides, errors included. */
  lemma SamePlan(u: State, p: State, mark: nat, chain: seq<Block>, config: Config, block: Block, record: Record)
    requires Inv(u, chain, config) && Shadow(u, p, mark) && record.header == block.header
    requires DiscoverFork(u.store, IdOf(block.header), record).Success?
    requires DiscoverFork(u.store, IdOf(block.header), record).value.height >= mark
    ensures DiscoverFork(p.store, IdOf(block.header), record) == DiscoverFork(u.store, IdOf(block.header), record)
    ensures var fork, id := DiscoverFork(u.store, IdOf(block.header), record).value, IdOf(block.header);
            LoadPlan(p.store, u.tip.height, fork, id, block) == LoadPlan(u.store, u.tip.height, fork, id, block)
  {
    hide Inv, IndexOk, ActiveOk, Discover, LoadUndos, LoadBodies, SameHigh, Thinned, BodiesOk, High;
    var us, ps, id, anchor := u.store, p.store, IdOf(block.header), IdOf(config.anchorHeader);
    TwinOf(u, p, mark);
    IndexOfInv(u, chain, config);
    BodiesOfInv(u, chain, config);
    SameFork(us, ps, u.tip, anchor, mark, id, record);
    PathIsHigh(us, u.tip, anchor, mark, id, record);
    var fork := Discover(us, id, record).value;
    SameUndosLoaded(us, ps, mark, fork.height, u.tip.height);
    SameBodiesLoaded(us.active[mark], mark, us, ps, fork.path, id, block);
  }

  // ----- Applying the same plan -----

  lemma CutTwin(m: BlockId, mark: nat, us: Store, ps: Store, low: nat, high: nat)
    requires Twin(m, mark, us, ps)
    ensures Twin(m, mark, DropActive(us, low, high), DropActive(ps, low, high))
  {
    hide Thinned, SameHigh;
  }

  /** Below the fork the new chain is the old one. */
  lemma MarkStays(before: State, after: State, config: Config, chain: seq<Block>, next: seq<Block>, fork: nat, h: nat)
    requires Inv(before, chain, config) && Inv(after, next, config)
    requires h <= fork <= |chain| && fork <= |next| && next[..fork] == chain[..fork]
    ensures h in before.store.active && h in after.store.active && after.store.active[h] == before.store.active[h]
  {
    hide IndexOk, BodiesOk, TipIsBest, HeaderTipOk, ChainGood, Replayed, UndoOf;
    if h > 0 {
      assert next[h - 1] == next[..fork][h - 1] == chain[..fork][h - 1] == chain[h - 1];
    }
  }

  lemma PlanBodies(u: State, config: Config, plan: Plan, record: Record)
    requires PlanFits(u, config, plan, record)
    ensures plan.bodies != [] && plan.forkHeight in u.store.active && u.store.active[plan.forkHeight] in u.store.index
    ensures forall i | 0 <= i < |plan.bodies| ::
              BodyFits(u.store.index, IdOf(config.anchorHeader), ForkTip(u, plan), record.work, plan.bodies, i)
  {
    hide BodyFits, Attachable;
  }

  lemma ForkInChain(u: State, chain: seq<Block>, config: Config, plan: Plan, record: Record)
    requires Inv(u, chain, config) && PlanFits(u, config, plan, record)
    ensures plan.forkHeight <= |chain|
  {
    hide BodyFits, Attachable, IndexOk, ActiveOk, BodiesOk, TipIsBest, HeaderTipOk, ChainGood, Replayed, UndoOf;
  }

  lemma ShadowSwitch(u: State, p: State, mark: nat, chain: seq<Block>, config: Config, plan: Plan, record: Record,
                     candidate: BlockId, verify: Spend)
    requires Inv(u, chain, config) && Shadow(u, p, mark) && PlanFits(u, config, plan, record)
             && u.tip.work < record.work
    requires mark <= plan.forkHeight && ApplyPlan(u, plan, candidate, config, verify, true).result.Success?
    ensures var a, b := ApplyPlan(u, plan, candidate, config, verify, true),
                        ApplyPlan(p, plan, candidate, config, verify, true);
            b.result == a.result && Shadow(a.state, b.state, mark)
  {
    hide Inv, OnTheWay, Patched, Wind, PutBodies, Unwind, DropActive, BodyFits, Attachable, Thinned, SameHigh,
         SameUndos, PlanFits;
    var us, ps, anchor, n := u.store, p.store, IdOf(config.anchorHeader), |plan.bodies|;
    var m := us.active[mark];
    UnwoundIsOnTheWay(u, chain, config, plan, record);
    PlanBodies(u, config, plan, record);
    ForkInChain(u, chain, config, plan, record);
    PlanSwitches(u, chain, config, plan, record, candidate, verify, true);
    var a := ApplyPlan(u, plan, candidate, config, verify, true);
    var next := chain[..plan.forkHeight] + BlocksOf(plan.bodies, n);
    assert next[..plan.forkHeight] == chain[..plan.forkHeight];
    MarkStays(u, a.state, config, chain, next, plan.forkHeight, mark);
    var staged := Unwind(u.utxos, plan.undos, |plan.undos|).value;
    var w := Wind(staged, plan.bodies, n, config.rules, verify);
    var cut, other := DropActive(us, plan.forkHeight, u.tip.height), DropActive(ps, plan.forkHeight, u.tip.height);
    TwinOf(u, p, mark);
    CutTwin(m, mark, us, ps, plan.forkHeight, u.tip.height);
    TwinBranch(m, mark, us, cut, other, anchor, ForkTip(u, plan), record.work, staged, chain[..plan.forkHeight],
               plan.bodies, w, n, config.rules, verify);
    PutBodiesFrame(cut, plan.bodies, w.undos, n);
    PutBodiesFrame(other, plan.bodies, w.undos, n);
    DropActiveFrame(us, plan.forkHeight, u.tip.height);
    DropActiveFrame(ps, plan.forkHeight, u.tip.height);
  }

  lemma ShadowPlan(u: State, p: State, mark: nat, chain: seq<Block>, config: Config, plan: Plan, record: Record,
                   candidate: BlockId, verify: Spend)
    requires Inv(u, chain, config) && Shadow(u, p, mark) && PlanFits(u, config, plan, record)
             && u.tip.work < record.work
    requires mark <= plan.forkHeight && MarkableAll(u, config, plan.bodies, candidate)
    ensures var a, b := ApplyPlan(u, plan, candidate, config, verify, true),
                        ApplyPlan(p, plan, candidate, config, verify, true);
            b.result == a.result && Shadow(a.state, b.state, mark)
  {
    hide Inv, Wind, Unwind, PlanFits, MarkableAll, Thinned, SameHigh, SameUndos, SwitchedStore;
    if ApplyPlan(u, plan, candidate, config, verify, true).result.Success? {
      ShadowSwitch(u, p, mark, chain, config, plan, record, candidate, verify);
    } else {
      var unwound := Unwind(u.utxos, plan.undos, |plan.undos|);
      if unwound.Success? && plan.bodies != [] {
        var w := Wind(unwound.value, plan.bodies, |plan.bodies|, config.rules, verify);
        if w.Stuck? {
          MarkableSuffix(u, config, plan.bodies, candidate, w.position);
          ShadowMark(u, p, mark, chain, config, plan.bodies[w.position..], candidate);
        }
      }
    }
  }

  /** The fork of a candidate within the window is not below the mark. */
  ghost predicate ForksHigh(s: Store, tip: Tip, id: BlockId, record: Record, mark: nat) {
    var fork := DiscoverFork(s, id, record);
    fork.Success? && fork.value.height <= tip.height && tip.height - fork.value.height <= REORG_WINDOW ==>
          fork.value.height >= mark
  }

  lemma ForkOfPlan(s: Store, tipHeight: nat, fork: Fork, id: BlockId, block: Block)
    requires LoadPlan(s, tipHeight, fork, id, block).Success?
    ensures LoadPlan(s, tipHeight, fork, id, block).value.forkHeight == fork.height
  {
  }

  lemma ForkAlike(u: State, p: State, mark: nat, id: BlockId, record: Record)
    requires Shadow(u, p, mark)
    ensures var a, b := DiscoverFork(u.store, id, record), DiscoverFork(p.store, id, record);
            (a.Failure? ==> b == a) && (a.Success? ==> b.Success? && b.value.height == a.value.height)
  {
    hide SameTree, SameHigh, SameUndos, Discover;
    DiscoverSameFork(u.store, p.store, id, record, record);
  }

  lemma ShadowReorganize(u: State, p: State, mark: nat, chain: seq<Block>, config: Config, block: Block,
                         record: Record, verify: Spend)
    requires Inv(u, chain, config) && Shadow(u, p, mark) && record.header == block.header && record.work > u.tip.work
    requires Attachable(u.store.active, u.store.index, IdOf(config.anchorHeader), record)
    requires ForksHigh(p.store, p.tip, IdOf(block.header), record, mark)
    ensures var a, b := Reorganize(u, block, record, config, verify, true),
                        Reorganize(p, block, record, config, verify, true);
            b.result == a.result && Shadow(a.state, b.state, mark)
  {
    hide Inv, ApplyPlan, Discover, LoadPlan, Attachable, PlanFits, MarkableAll, Thinned, SameHigh, SameUndos;
    var id := IdOf(block.header);
    ForkAlike(u, p, mark, id, record);
    var fork := DiscoverFork(u.store, id, record);
    if fork.Success? && fork.value.height <= u.tip.height && u.tip.height - fork.value.height <= REORG_WINDOW {
      SamePlan(u, p, mark, chain, config, block, record);
      var plan := LoadPlan(u.store, u.tip.height, fork.value, id, block);
      if plan.Success? {
        PlanIsFit(u, chain, config, block, record);
        ForkOfPlan(u.store, u.tip.height, fork.value, id, block);
        ShadowPlan(u, p, mark, chain, config, plan.value, record, id, verify);
      }
    }
  }

  // ----- A block arrives -----

  lemma ShadowPlace(u: State, p: State, mark: nat, chain: seq<Block>, config: Config, block: Block, record: Record,
                    verify: Spend)
    requires Inv(u, chain, config) && Shadow(u, p, mark) && record.header == block.header
    requires Attachable(u.store.active, u.store.index, IdOf(config.anchorHeader), record)
    requires record.parent != u.tip.id && record.work > u.tip.work ==>
               ForksHigh(p.store, p.tip, IdOf(block.header), record.(bodyRetained := true), mark)
    ensures var a, b := Place(u, block, record, config, verify, true), Place(p, block, record, config, verify, true);
            b.result == a.result && Shadow(a.state, b.state, mark)
  {
    hide Inv, Extend, Reorganize, Attachable, IndexOk, ActiveOk, Thinned, SameHigh, SameUndos, ForksHigh, Follows;
    KeptAttachable(u, config, record);
    if record.parent == u.tip.id {
      ShadowExtend(u, p, mark, chain, config, block, record, verify);
    } else if record.work > u.tip.work {
      ShadowReorganize(u, p, mark, chain, config, block, record.(bodyRetained := true), verify);
    } else {
      IndexOfInv(u, chain, config);
      AttachableFacts(u, config, record.(bodyRetained := true));
      ShadowStore(u, p, mark, IdOf(config.anchorHeader), record.(bodyRetained := true), block);
    }
  }

  lemma LowThinned(a: Index, b: Index, record: Record)
    requires Thinned(a, b) && IdOf(record.header) in a && a[IdOf(record.header)].bodyRetained
             && SameButBody(a[IdOf(record.header)], record)
    ensures Thinned(a, b[IdOf(record.header) := record])
  {
  }

  /** A block whose bodies differ is not above the mark, so changing it there keeps the rest. */
  lemma LowChange(m: BlockId, a: Index, b: Index, ablocks: Blocks, bblocks: Blocks, record: Record, block: Block)
    requires SameHigh(m, a, b, ablocks, bblocks) && IdOf(record.header) == IdOf(block.header)
    requires IdOf(block.header) in a && IdOf(block.header) in b && a[IdOf(block.header)] != b[IdOf(block.header)]
    requires a[IdOf(block.header)].status != Invalid
    ensures SameHigh(m, a, b[IdOf(record.header) := record], ablocks, bblocks[IdOf(block.header) := block])
  {
    hide High;
  }

  /** A block with a body that is not on the active chain neither beats the tip nor follows it. */
  lemma SideWork(u: State, chain: seq<Block>, config: Config, id: BlockId)
    requires Inv(u, chain, config) && id in u.store.index && u.store.index[id].status == HeaderValidated
             && u.store.index[id].bodyRetained
    ensures u.store.index[id].work <= u.tip.work && u.store.index[id].parent != u.tip.id && id != u.tip.id
    ensures IdOf(u.store.index[id].header) == id
  {
    hide LedgerOk, HeaderTipOk, BodiesOk, BlockWork;
    assert id != IdOf(config.anchorHeader);
    assert Follows(u.store.index, u.store.index[id]);
    assert u.tip.height in u.store.active;
  }

  lemma SameRecord(u: State, p: State, mark: nat, id: BlockId)
    requires Shadow(u, p, mark)
    ensures id in u.store.index <==> id in p.store.index
    ensures id in u.store.index ==> SameButBody(u.store.index[id], p.store.index[id])
    ensures id in u.store.index && p.store.index[id].bodyRetained ==> u.store.index[id].bodyRetained
  {
    hide SameHigh, SameUndos;
  }

  /** A body that only the pruned node has lost comes again: it is stored beside the active chain, and
      what the other node has of it does not matter. */
  lemma ShadowAgain(u: State, p: State, mark: nat, chain: seq<Block>, config: Config, block: Block, verify: Spend)
    requires Inv(u, chain, config) && Shadow(u, p, mark)
    requires var id := IdOf(block.header);
             && id in u.store.index && id in p.store.index && u.store.index[id].status == HeaderValidated
             && u.store.index[id].bodyRetained && !p.store.index[id].bodyRetained
    ensures var b := Place(p, block, p.store.index[IdOf(block.header)], config, verify, true);
            b.result == Success(StoredSideChain) && Shadow(u, b.state, mark) && IdOf(block.header) != u.tip.id
  {
    hide Inv, Extend, Reorganize, SameUndos, SameHigh, Thinned;
    var id := IdOf(block.header);
    SideWork(u, chain, config, id);
    SameRecord(u, p, mark, id);
    var record := p.store.index[id];
    LowThinned(u.store.index, p.store.index, record.(bodyRetained := true));
    LowChange(u.store.active[mark], u.store.index, p.store.index, u.store.blocks, p.store.blocks,
              record.(bodyRetained := true), block);
  }

  /** The record with which a block would be placed, if it would. */
  ghost function Candidate(state: State, config: Config, block: Block): Option<Record> {
    var id := IdOf(block.header);
    if id in state.store.index then
      if state.store.index[id].status == HeaderValidated
          && !state.store.index[id].bodyRetained then Some(state.store.index[id]) else None
    else if ValidateHeader(state.store, block.header, config).Success?
         then Some(ValidateHeader(state.store, block.header, config).value)
    else None
  }

  /** If the block starts a reorganization, its fork is not below the mark. */
  ghost predicate StaysAbove(state: State, config: Config, block: Block, mark: nat) {
    var record := Candidate(state, config, block);
    record.Some? && record.value.parent != state.tip.id && record.value.work > state.tip.work ==>
      ForksHigh(state.store, state.tip, IdOf(block.header), record.value.(bodyRetained := true), mark)
  }

  lemma KnownHeader(u: State, chain: seq<Block>, config: Config, id: BlockId)
    requires Inv(u, chain, config) && id in u.store.index
    ensures IdOf(u.store.index[id].header) == id
  {
    hide Follows, ActiveOk, LedgerOk, BodiesOk, TipIsBest, HeaderTipOk;
  }

  lemma FaceFacts(u: State, p: State, mark: nat)
    requires Shadow(u, p, mark)
    ensures SameTree(u.store.index, p.store.index) && p.tip == u.tip && p.health == u.health
  {
    hide SameTree, SameHigh, SameUndos;
  }

  lemma ShadowHealthyBlock(u: State, p: State, mark: nat, chain: seq<Block>, config: Config, block: Block,
                           verify: Spend)
    requires Inv(u, chain, config) && Shadow(u, p, mark) && Blind(config) && StaysAbove(p, config, block, mark)
    ensures var a, b := AcceptHealthyBlock(u, block, config, verify, true),
                        AcceptHealthyBlock(p, block, config, verify, true);
            b.result == a.result && Shadow(a.state, b.state, mark)
  {
    hide Inv, Place, Attachable, ValidateHeader, Shadow, ForksHigh, Blind;
    var id := IdOf(block.header);
    SameRecord(u, p, mark, id);
    FaceFacts(u, p, mark);
    SameValidation(u.store, p.store, config, block.header);
    if id in u.store.index {
      var existing, other := u.store.index[id], p.store.index[id];
      if existing.status == HeaderValidated && existing.header == block.header {
        if !existing.bodyRetained {
          KnownAttachable(u, chain, config, id);
          ShadowPlace(u, p, mark, chain, config, block, existing, verify);
        } else if !other.bodyRetained {
          ShadowAgain(u, p, mark, chain, config, block, verify);
        }
      } else {
        KnownHeader(u, chain, config, id);
      }
    } else if ValidateHeader(u.store, block.header, config).Success? {
      NewAttachable(u, chain, config, block.header);
      ShadowPlace(u, p, mark, chain, config, block, ValidateHeader(u.store, block.header, config).value, verify);
    }
  }

  // ----- A prune -----

  /** Above a marked block of the active chain, a walk that succeeds ends at the mark or above. */
  lemma {:induction false} HighForksHigh(s: Store, anchor: BlockId, mark: nat, id: BlockId)
    requires IndexOk(s.index, anchor) && mark in s.active && s.active[mark] in s.index
             && s.index[s.active[mark]].height == mark
    requires High(s.index, s.active[mark], id) && id in s.index
    ensures Discover(s, id, s.index[id]).Success? ==> Discover(s, id, s.index[id]).value.height >= mark
    decreases s.index[id].height
  {
    hide IndexOk, High, BlockWork;
    HighIsHigher(s.index, anchor, s.active[mark], id);
    HighParent(s.index, s.active[mark], id);
    ChildAbove(s.index, anchor, id);
    if s.index[id].parent != s.active[mark] {
      HighForksHigh(s, anchor, mark, s.index[id].parent);
    }
  }

  /** Where a walk ends is on the active chain. */
  lemma {:induction false} ForkIsOnChain(s: Store, id: BlockId, record: Record)
    requires Discover(s, id, record).Success?
    ensures Discover(s, id, record).value.height in s.active
    decreases record.height
  {
    hide BlockWork;
    if !ActiveAt(s, record.height, id) {
      ForkIsOnChain(s, record.parent, s.index[record.parent]);
    }
  }

  /** Pruning spares the bodies above the new mark. */
  lemma HighIsSpared(s: Store, tip: Tip, anchor: BlockId, mark: nat, id: BlockId)
    requires IndexOk(s.index, anchor) && ActiveOk(s.active, s.index, s.tip, tip, anchor)
    requires mark in s.active && SafeCursor(tip.height) <= mark && id in s.index && High(s.index, s.active[mark], id)
    requires s.index[id].status != Invalid
    ensures id !in BodiesDropped(s, tip.height, RetainedIds(s))
  {
    hide IndexOk, High, Discover;
    HighIsHigher(s.index, anchor, s.active[mark], id);
    HighForksHigh(s, anchor, mark, id);
    if Discover(s, id, s.index[id]).Success? {
      ForkIsOnChain(s, id, s.index[id]);
    }
  }

  lemma ThinnedPrune(a: Index, b: Index, dropped: set<BlockId>)
    requires Thinned(a, b)
    ensures Thinned(a, WithoutBodies(b, dropped))
  {
  }

  lemma SameHighPrune(m: BlockId, m': BlockId, anchor: BlockId, a: Index, b: Index, ablocks: Blocks, bblocks: Blocks,
                      dropped: set<BlockId>)
    requires IndexOk(a, anchor) && (m == m' || High(a, m, m')) && SameHigh(m, a, b, ablocks, bblocks)
    requires forall id | High(a, m', id) && id in a && a[id].status != Invalid :: id !in dropped
    ensures SameHigh(m', a, WithoutBodies(b, dropped), ablocks, bblocks - dropped)
  {
    hide IndexOk, High;
    forall id | High(a, m', id) && id in a && id in b && a[id].status != Invalid
      ensures High(a, m, id)
    {
      HighTransitive(a, anchor, m, m', id);
    }
  }

  /** High in one index is high in the other. */
  lemma {:induction false} HighBoth(a: Index, b: Index, m: BlockId, id: BlockId)
    requires SameTree(a, b) && High(a, m, id)
    ensures High(b, m, id)
  {
    var path :| Lineage(a, path) && |path| >= 2 && path[0] == id && path[|path| - 1] == m;
    forall i | 0 <= i < |path|
      ensures path[i] in b && SameButBody(a[path[i]], b[path[i]])
    {
    }
    assert Lineage(b, path);
  }

  lemma UndosSpared(us: Store, ps: Store, tip: Tip, anchor: BlockId, mark: nat, next: nat)
    requires us.active == ps.active && SameUndos(us.active, mark, us.undos, ps.undos)
    requires ActiveOk(ps.active, ps.index, ps.tip, tip, anchor) && mark <= next && SafeCursor(tip.height) <= next
    ensures SameUndos(us.active, next, us.undos, Pruned(ps, tip.height).undos)
  {
    hide ActiveOk, BodiesDropped, UndosDropped, Judge, WithoutBodies;
    forall h | h in us.active && h > next
      ensures us.active[h] !in UndosDropped(ps, tip.height, RetainedIds(ps))
    {
      ActiveUndoStays(ps, tip, anchor, h);
    }
  }

  /** After a prune of the second node the two agree above the new mark. */
  lemma ShadowPrune(u: State, p: State, mark: nat, chain: seq<Block>, other: seq<Block>, config: Config)
    requires Inv(u, chain, config) && Inv(p, other, config) && Shadow(u, p, mark) && Kept(p, mark)
    ensures Shadow(u, p.(store := Pruned(p.store, p.tip.height)), Max(mark, SafeCursor(p.tip.height)))
  {
    hide Inv, IndexOk, ActiveOk, SameHigh, BodiesDropped, UndosDropped, WithoutBodies, High, Judge, Retained, SameTree;
    var us, ps, anchor, next := u.store, p.store, IdOf(config.anchorHeader), Max(mark, SafeCursor(p.tip.height));
    IndexOfInv(u, chain, config);
    IndexOfInv(p, other, config);
    ActiveHeights(ps, p.tip, anchor, mark);
    var dropped := BodiesDropped(ps, p.tip.height, RetainedIds(ps));
    if mark < next {
      ActiveIsHigh(us.active, us.index, us.tip, u.tip, anchor, mark, next);
    }
    forall id | High(us.index, us.active[next], id) && id in us.index && us.index[id].status != Invalid
      ensures id !in dropped
    {
      HighBoth(us.index, ps.index, us.active[next], id);
      SameRecord(u, p, mark, id);
      HighIsSpared(ps, p.tip, anchor, next, id);
    }
    ThinnedPrune(us.index, ps.index, dropped);
    SameHighPrune(us.active[mark], us.active[next], anchor, us.index, ps.index, us.blocks, ps.blocks, dropped);
    UndosSpared(us, ps, p.tip, anchor, mark, next);
  }

  // ----- Whole runs -----

  /** The calls without the prunes. */
  ghost function WithoutPrunes(events: seq<Event>): seq<Event> {
    if events == [] then []
    else WithoutPrunes(events[..|events| - 1]) + if events[|events| - 1].PruneRequested? then []
         else [events[|events| - 1]]
  }

  ghost predicate Written(event: Event) {
    match event
    case HeaderArrived(_, commitOk) => commitOk
    case BlockArrived(_, _, commitOk) => commitOk
    case PruneRequested(_) => true
    case Restarted => true
  }

  /** The call asks for nothing at or below the mark. */
  ghost predicate AsksAbove(state: State, config: Config, event: Event, mark: nat) {
    match event
    case BlockArrived(block, _, _) => StaysAbove(state, config, block, mark)
    case Restarted => mark <= SafeCursor(state.tip.height)
    case _ => true
  }

  ghost predicate AlwaysAbove(config: Config, events: seq<Event>) {
    forall k | 0 <= k < |events| :: Written(events[k])
        && AsksAbove(Run(config, events[..k]), config, events[k], Mark(config, events[..k]))
  }

  lemma SameTaint(a: Index, b: Index, id: BlockId)
    requires SameTree(a, b) && Untainted(a, id)
    ensures Untainted(b, id)
  {
    forall path | Lineage(b, path) && path[0] == id
      ensures b[path[|path| - 1]].status != Invalid
    {
      assert forall i | 0 <= i < |path| :: path[i] in a && SameButBody(a[path[i]], b[path[i]]);
      assert Lineage(a, path);
    }
  }

  lemma TreeReverses(a: Index, b: Index)
    requires SameTree(a, b)
    ensures SameTree(b, a)
  {
  }

  lemma ShadowRestart(u: State, p: State, mark: nat, chain: seq<Block>, other: seq<Block>, config: Config)
    requires Good(u, chain, config, 0) && Good(p, other, config, mark) && Shadow(u, p, mark)
             && mark <= SafeCursor(p.tip.height)
    ensures Shadow(Restart(u, config), Restart(p, config), mark)
  {
    hide Good, Restart, Thinned, SameHigh, SameUndos, Untainted;
    RestartOutcome(u, chain, config, 0);
    RestartOutcome(p, other, config, mark);
    FaceFacts(u, p, mark);
    var id := u.headerTip.id;
    if Untainted(u.store.index, id) {
      SameTaint(u.store.index, p.store.index, id);
    }
    if Untainted(p.store.index, id) {
      TreeReverses(u.store.index, p.store.index);
      SameTaint(p.store.index, u.store.index, id);
    }
  }

  lemma ShadowBlock(u: State, p: State, mark: nat, chain: seq<Block>, config: Config, block: Block, verify: Spend)
    requires Inv(u, chain, config) && Shadow(u, p, mark) && Blind(config) && StaysAbove(p, config, block, mark)
    ensures Shadow(AcceptBlock(u, block, config, verify, true).state,
                   AcceptBlock(p, block, config, verify, true).state, mark)
  {
    hide Inv, AcceptHealthyBlock, Blind, StaysAbove, Thinned, SameHigh, SameUndos;
    ShadowHealthyBlock(u, p, mark, chain, config, block, verify);
  }

  lemma ShadowStep(u: State, p: State, mark: nat, chain: seq<Block>, other: seq<Block>, config: Config, event: Event)
    requires Good(u, chain, config, 0) && Good(p, other, config, mark) && Shadow(u, p, mark) && Blind(config)
    requires Written(event) && AsksAbove(p, config, event, mark)
    ensures Shadow(if event.PruneRequested? then u
                   else Handle(u, config, event), Handle(p, config, event), NextMark(p, mark, event))
  {
    hide Inv, Kept, Limited, Shadow, Blind, AcceptHeader, AcceptBlock, Restart, StaysAbove, PruneHappens, Pruned;
    match event
    case HeaderArrived(header, commitOk) =>
      ShadowHeader(u, p, mark, chain, config, header);
    case BlockArrived(block, verify, commitOk) =>
      ShadowBlock(u, p, mark, chain, config, block, verify);
    case PruneRequested(commitOk) =>
      ShadowPrune(u, p, mark, chain, other, config);
    case Restarted =>
      ShadowRestart(u, p, mark, chain, other, config);
  }

  lemma ShadowStart(config: Config)
    ensures Shadow(Bootstrapped(config), Bootstrapped(config), 0)
  {
  }

  lemma {:induction false} NeverMarked(config: Config, events: seq<Event>)
    ensures Mark(config, WithoutPrunes(events)) == 0
  {
    hide Run;
    if events != [] {
      NeverMarked(config, events[..|events| - 1]);
      var before := WithoutPrunes(events[..|events| - 1]);
      assert (before + [events[|events| - 1]])[..|before|] == before && before + [] == before;
    }
  }

  lemma PrefixAbove(config: Config, events: seq<Event>)
    requires AlwaysAbove(config, events) && events != []
    ensures AlwaysAbove(config, events[..|events| - 1])
    ensures var front := events[..|events| - 1];
            Written(events[|events| - 1]) && AsksAbove(Run(config, front), config, events[|events| - 1],
                                                       Mark(config, front))
  {
    hide Run, Mark, AsksAbove, Written;
    var front := events[..|events| - 1];
    forall k | 0 <= k < |front|
      ensures Written(front[k]) && AsksAbove(Run(config, front[..k]), config, front[k], Mark(config, front[..k]))
    {
      assert front[..k] == events[..k] && front[k] == events[k];
    }
  }

  lemma FaceOf(u: State, p: State, mark: nat)
    requires Shadow(u, p, mark)
    ensures SameFace(u, p)
  {
    hide SameFace, Thinned, SameHigh, SameUndos;
  }

  /** Pruning is invisible over whole runs: as long as every write goes through, no reorganization
      forks off below the mark, and no restart happens on a tip whose cursor is below it, the run
      ends with the same tips, active chain and ledger as the same run without its prunes. */
  lemma {:induction false} PruningIsInvisible(config: Config, events: seq<Event>)
    requires Blind(config) && AlwaysAbove(config, events)
    ensures Shadow(Run(config, WithoutPrunes(events)), Run(config, events), Mark(config, events))
    ensures SameFace(Run(config, WithoutPrunes(events)), Run(config, events))
  {
    hide Blind, AlwaysAbove, Good, Shadow, Handle, NextMark, AsksAbove, Written, SameFace;
    if events == [] {
      ShadowStart(config);
      FaceOf(Bootstrapped(config), Bootstrapped(config), 0);
    } else {
      var front, last := events[..|events| - 1], events[|events| - 1];
      PrefixAbove(config, events);
      PruningIsInvisible(config, front);
      var before := WithoutPrunes(front);
      var chain := RunInv(config, before);
      var other := RunInv(config, front);
      NeverMarked(config, front);
      ShadowStep(Run(config, before), Run(config, front), Mark(config, front), chain, other, config, last);
      assert (before + [last])[..|before|] == before && before + [] == before;
      FaceOf(Run(config, WithoutPrunes(events)), Run(config, events), Mark(config, events));
    }
  }

  // ----- When the condition holds, and when not -----

  /** While the tip's cursor is not below the mark, no permitted reorganization can go below it. */
  lemma HighTipStaysAbove(state: State, config: Config, event: Event, mark: nat)
    requires mark <= SafeCursor(state.tip.height)
    ensures AsksAbove(state, config, event, mark)
  {
    hide DiscoverFork, Candidate;
  }

  /** So a run whose every call finds its tip no lower than at any earlier prune is one of these. */
  lemma HighTipsAlwaysAbove(config: Config, events: seq<Event>)
    requires forall k | 0 <= k < |events| ::
               Written(events[k]) && PrunedWithin(config, events[..k], Run(config, events[..k]).tip.height)
    ensures AlwaysAbove(config, events)
  {
    hide Run, Mark, AsksAbove, Written, PrunedWithin;
    forall k | 0 <= k < |events|
      ensures AsksAbove(Run(config, events[..k]), config, events[k], Mark(config, events[..k]))
    {
      var state := Run(config, events[..k]);
      assert PrunedWithin(config, events[..k], state.tip.height);
      MarkMeans(config, events[..k], state.tip.height);
      HighTipStaysAbove(state, config, events[k], Mark(config, events[..k]));
    }
  }

  lemma {:induction false} MissingAtMark(s: Store, mark: nat, low: nat, high: nat)
    requires Retained(s.active, s.index, s.blocks, s.undos, mark) && low < mark <= high
    requires forall h | mark <= h <= high :: h in s.active
    ensures LoadUndos(s, low, high) == Failure(MissingUndo(s.active[mark]))
    decreases high
  {
    hide Retained;
    RetainedAt(s, mark, high);
    if high > mark {
      MissingAtMark(s, mark, low, high - 1);
    }
  }

  lemma UpToTip(s: Store, tip: Tip, anchor: BlockId)
    requires ActiveOk(s.active, s.index, s.tip, tip, anchor)
    ensures forall h | 0 <= h <= tip.height :: h in s.active
  {
  }

  /** A reorganization that does fork off below the mark is refused for want of an undo. */
  lemma BelowMarkIsRefused(p: State, chain: seq<Block>, config: Config, mark: nat, block: Block, record: Record,
                           verify: Spend, commitOk: bool)
    requires Inv(p, chain, config) && Kept(p, mark) && !ForksHigh(p.store, p.tip, IdOf(block.header), record, mark)
    ensures Reorganize(p, block, record, config, verify, commitOk)
         == Reply(p, Failure(MissingUndo(p.store.active[mark])))
  {
    hide Inv, IndexOk, ActiveOk, Retained, DiscoverFork, LoadUndos, LoadBodies, ApplyPlan;
    IndexOfInv(p, chain, config);
    MarkIsActive(p.store, p.tip, config, mark);
    UpToTip(p.store, p.tip, IdOf(config.anchorHeader));
    var fork := DiscoverFork(p.store, IdOf(block.header), record).value;
    MissingAtMark(p.store, mark, fork.height, p.tip.height);
  }

  // ----- The rules of a node do not look at bodies -----

  lemma {:induction false} SameTimes(s: Store, t: Store, id: BlockId, k: nat)
    requires SameTree(s.index, t.index)
    ensures BranchTimes(t, id, k) == BranchTimes(s, id, k)
    decreases k
  {
    hide BlockWork;
    if k > 0 && id in s.index {
      SameTimes(s, t, s.index[id].parent, k - 1);
    }
  }

  lemma SameRule(s: Store, t: Store, header: Header, genesisTime: u64, params: Asert.Params)
    requires SameTree(s.index, t.index)
    ensures HeaderRule(t, header, genesisTime, params) == HeaderRule(s, header, genesisTime, params)
  {
    hide BranchTimes, PrePow;
    SameTimes(s, t, header.previous, MTP_WINDOW);
  }

  lemma NodesAreBlind(anchor: Header, genesisTime: u64, params: Asert.Params, founder: seq<byte>,
                      pow: (Store, Header) -> bool)
    requires forall s: Store, t: Store, header | SameTree(s.index, t.index) :: pow(s, header) == pow(t, header)
    ensures Blind(NodeConfig(anchor, genesisTime, params, founder, pow))
  {
    hide HeaderRule, SameTree, CheckClaim;
    var config := NodeConfig(anchor, genesisTime, params, founder, pow);
    forall s: Store, t: Store, header | SameTree(s.index, t.index)
      ensures config.headerOk(s, header) == config.headerOk(t, header)
    {
      SameRule(s, t, header, genesisTime, params);
    }
  }
}
