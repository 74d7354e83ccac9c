/** A reorganization plan loaded from a consistent store, applied. */
module ChainPlan {
  import opened Prelude
  import opened ChainTypes
  import opened ChainBlocks
  import opened ChainHistory
  import opened ChainStore
  import opened ChainReorg
  import opened ChainSteps
  import opened ChainInvariant
  import opened ChainExtend
  import opened ChainSwitch

  // ----- The whole new branch -----

  ghost function TipAt(start: Tip, bodies: seq<Body>, k: nat): Tip
    requires k <= |bodies|
  {
    if k == 0 then start else Tip(bodies[k - 1].id, bodies[k - 1].record.height, bodies[k - 1].record.work)
  }

  ghost function BlocksOf(bodies: seq<Body>, k: nat): (blocks: seq<Block>)
    requires k <= |bodies|
    ensures |blocks| == k
  {
    if k == 0 then [] else BlocksOf(bodies, k - 1) + [bodies[k - 1].block]
  }

  ghost predicate BodyFits(index: Index, anchor: BlockId, start: Tip, work: nat, bodies: seq<Body>, i: nat)
    requires i < |bodies|
  {
    var body := bodies[i];
    && Follows(index, body.record) && body.record.parent == TipAt(start, bodies, i).id && body.record.work <= work
    && body.id == IdOf(body.block.header) != anchor && body.record.header == body.block.header
    && body.record.height == start.height + 1 + i
    && (i < |bodies| - 1 ==> body.id in index && index[body.id] == body.record)
  }

  lemma {:induction false} PutBodiesPrefix(s: Store, bodies: seq<Body>, a: seq<BlockUndo>, b: seq<BlockUndo>, k: nat)
    requires k <= |bodies| && k <= |a| && k <= |b| && a[..k] == b[..k]
    ensures PutBodies(s, bodies, a, k) == PutBodies(s, bodies, b, k)
  {
    if k > 0 {
      assert a[..k - 1] == a[..k][..k - 1] && b[..k - 1] == b[..k][..k - 1];
      assert a[k - 1] == a[..k][k - 1] && b[k - 1] == b[..k][k - 1];
      PutBodiesPrefix(s, bodies, a, b, k - 1);
    }
  }

  lemma PutBodiesSnoc(s: Store, bodies: seq<Body>, undos: seq<BlockUndo>, undo: BlockUndo)
    requires |undos| < |bodies|
    ensures PutBodies(s, bodies, undos + [undo], |undos| + 1)
         == WithBody(PutBodies(s, bodies, undos, |undos|), bodies[|undos|], undo)
  {
    hide WithBody;
    PutBodiesPrefix(s, bodies, undos + [undo], undos, |undos|);
  }

  lemma NothingPut(s: Store, bodies: seq<Body>)
    ensures PutBodies(s, bodies, [], 0) == s
  {
  }

  lemma FollowsOnTheWay(s: Store, next: Store, anchor: BlockId, tip: Tip, work: nat, staged: Staged, chain: seq<Block>,
                        record: Record)
    requires OnTheWay(s, next, anchor, tip, work, staged, chain) && Follows(s.index, record)
    ensures Follows(next.index, record)
  {
    hide Follows, IndexOk, ActiveOk, BodiesOk, TipIsBest, LedgerOk, Patched, SameShape;
    FollowsStill(s.index, next.index, record);
  }

  /** One more body of the path joins. */
  lemma WindNext(s: Store, cut: Store, anchor: BlockId, start: Tip, work: nat, before: Winding, chain: seq<Block>,
                 bodies: seq<Body>, k: nat, rules: Rules, verify: Spend)
    requires before.Wound? && |before.undos| == k < |bodies| && BodyFits(s.index, anchor, start, work, bodies, k)
    requires OnTheWay(s, PutBodies(cut, bodies, before.undos, k), anchor, TipAt(start, bodies, k), work, before.staged,
                      chain + BlocksOf(bodies, k))
    requires Connect(before.staged.utxos, bodies[k].block, bodies[k].record.height, rules, verify).Success?
    ensures var c := Connect(before.staged.utxos, bodies[k].block, bodies[k].record.height, rules, verify).value;
            OnTheWay(s, PutBodies(cut, bodies, before.undos + [c.undo], k + 1), anchor, TipAt(start, bodies, k + 1),
                     work, Staged(c.utxos, ConnectDelta(before.staged.delta, c.utxos, c.undo)),
                         chain + BlocksOf(bodies, k + 1))
  {
    hide OnTheWay, Connect, Follows, WithBody, ConnectDelta, PutBodies;
    var next, tip, sofar := PutBodies(cut, bodies, before.undos, k), TipAt(start, bodies, k),
                            chain + BlocksOf(bodies, k);
    FollowsOnTheWay(s, next, anchor, tip, work, before.staged, sofar, bodies[k].record);
    WindStep(s, next, anchor, tip, work, before.staged, sofar, bodies[k], rules, verify);
    PutBodiesSnoc(cut, bodies, before.undos,
                  Connect(before.staged.utxos, bodies[k].block, bodies[k].record.height, rules, verify).value.undo);
    assert chain + BlocksOf(bodies, k + 1) == sofar + [bodies[k].block];
  }

  lemma {:induction false} WindPrefix(staged: Staged, bodies: seq<Body>, k: nat, n: nat, rules: Rules, verify: Spend)
    requires k <= n <= |bodies| && Wind(staged, bodies, n, rules, verify).Wound?
    ensures var a, b := Wind(staged, bodies, k, rules, verify), Wind(staged, bodies, n, rules, verify);
            a.Wound? && a.undos == b.undos[..k]
    decreases n
  {
    hide Connect, ConnectDelta;
    if k < n {
      WindPrefix(staged, bodies, k, n - 1, rules, verify);
      var before, after := Wind(staged, bodies, n - 1, rules, verify), Wind(staged, bodies, n, rules, verify);
      assert after.undos[..k] == before.undos[..k];
    } else {
      var w := Wind(staged, bodies, n, rules, verify);
      assert w.undos[..n] == w.undos;
    }
  }

  lemma {:induction false} WindAll(s: Store, cut: Store, anchor: BlockId, start: Tip, work: nat, staged: Staged,
                                   chain: seq<Block>, bodies: seq<Body>, k: nat, rules: Rules, verify: Spend)
    requires OnTheWay(s, cut, anchor, start, work, staged, chain) && k <= |bodies|
    requires forall i | 0 <= i < |bodies| :: BodyFits(s.index, anchor, start, work, bodies, i)
    ensures var w := Wind(staged, bodies, k, rules, verify);
            w.Wound? ==> OnTheWay(s, PutBodies(cut, bodies, w.undos, k), anchor, TipAt(start, bodies, k), work,
                                  w.staged, chain + BlocksOf(bodies, k))
  {
    hide OnTheWay, Connect, BodyFits, ConnectDelta, PutBodies;
    if k == 0 {
      NothingPut(cut, bodies);
      assert chain + [] == chain;
    } else {
      WindAll(s, cut, anchor, start, work, staged, chain, bodies, k - 1, rules, verify);
      var before := Wind(staged, bodies, k - 1, rules, verify);
      if before.Wound? && Wind(staged, bodies, k, rules, verify).Wound? {
        WindNext(s, cut, anchor, start, work, before, chain, bodies, k - 1, rules, verify);
      }
    }
  }

  // ----- A loaded plan -----

  ghost function ForkTip(state: State, plan: Plan): Tip
    requires plan.forkHeight in state.store.active && state.store.active[plan.forkHeight] in state.store.index
  {
    var id := state.store.active[plan.forkHeight];
    Tip(id, plan.forkHeight, state.store.index[id].work)
  }

  /** What a plan loaded from a consistent store looks like. */
  ghost predicate PlanFits(state: State, config: Config, plan: Plan, record: Record) {
    var s, anchor := state.store, IdOf(config.anchorHeader);
    && plan.forkHeight <= state.tip.height && plan.forkHeight in s.active && s.active[plan.forkHeight] in s.index
    && plan.bodies != [] && plan.bodies[|plan.bodies| - 1].record == record
    && |plan.undos| == state.tip.height - plan.forkHeight
    && (forall h | plan.forkHeight < h <= state.tip.height :: h in s.active && s.active[h] in s.undos
                                                              && plan.undos[state.tip.height - h]
                                                                == s.undos[s.active[h]])
    && (forall i | 0 <= i < |plan.bodies| ::
          BodyFits(s.index, anchor, ForkTip(state, plan), record.work, plan.bodies, i)
          && Attachable(s.active, s.index, anchor, plan.bodies[i].record))
  }

  lemma UndosFit(state: State, chain: seq<Block>, config: Config, plan: Plan, record: Record)
    requires Inv(state, chain, config) && PlanFits(state, config, plan, record)
    ensures forall i | 0 <= i < |plan.undos| :: plan.undos[i] == UndoOf(chain[..|chain| - i])
  {
    hide IndexOk, ActiveOk, BodiesOk, TipIsBest, HeaderTipOk, AllGood, ChainApps, Replayed, UndoOf, BodyFits,
         Attachable;
    forall i | 0 <= i < |plan.undos|
      ensures plan.undos[i] == UndoOf(chain[..|chain| - i])
    {
      var h := state.tip.height - i;
      assert h in state.store.active && plan.undos[state.tip.height - h] == state.store.undos[state.store.active[h]];
    }
  }

  lemma {:induction false} PutBodiesFrame(s: Store, bodies: seq<Body>, undos: seq<BlockUndo>, k: nat)
    requires k <= |bodies| && k <= |undos|
    ensures var p := PutBodies(s, bodies, undos, k);
            p == s.(index := p.index, blocks := p.blocks, undos := p.undos, active := p.active)
  {
    if k > 0 {
      PutBodiesFrame(s, bodies, undos, k - 1);
    }
  }

  lemma HeaderTipShape(index: Index, next: Index, stored: Option<Point>, headerTip: Tip, work: nat, more: nat)
    requires HeaderTipOk(index, stored, headerTip, work) && SameShape(index, next) && more <= headerTip.work
    ensures HeaderTipOk(next, stored, headerTip, more)
  {
  }

  lemma ActiveTipIsIndexed(active: Active, index: Index, stored: Option<Point>, tip: Tip, anchor: BlockId)
    requires ActiveOk(active, index, stored, tip, anchor)
    ensures HeaderTipOk(index, stored, tip, tip.work)
  {
    assert tip.height in active;
  }

  lemma RetainedCut(s: Store, low: nat, high: nat)
    requires low in s.active && forall h | low < h <= high && h in s.active :: s.active[h] in s.undos
    ensures forall mark | Retained(s.active, s.index, s.blocks, s.undos, mark) ::
              Retained(DropActive(s, low, high).active, s.index, s.blocks, s.undos, mark)
  {
  }

  /** Where the new branch starts: the old one is undone exactly. */
  lemma UnwoundIsOnTheWay(state: State, chain: seq<Block>, config: Config, plan: Plan, record: Record)
    requires Inv(state, chain, config) && PlanFits(state, config, plan, record) && state.tip.work <= record.work
    ensures var r := Unwind(state.utxos, plan.undos, |plan.undos|);
            && r.Success?
            && OnTheWay(state.store, DropActive(state.store, plan.forkHeight, state.tip.height),
                        IdOf(config.anchorHeader), ForkTip(state, plan), record.work, r.value, chain[..plan.forkHeight])
  {
    hide IndexOk, ActiveOk, BodiesOk, TipIsBest, LedgerOk, HeaderTipOk, Patched, Replayed, AllGood, ChainApps, UndoOf,
         SameShape, BodyFits, Attachable, Retained, Unwind;
    var s, anchor, low := state.store, IdOf(config.anchorHeader), plan.forkHeight;
    RetainedCut(s, low, state.tip.height);
    LedgerFacts(s.active, s.undos, s.utxos, state.utxos, state.tip.height, chain);
    UndosFit(state, chain, config, plan, record);
    UnwindExact(chain, plan.undos, |plan.undos|);
    ActiveTruncated(s.active, s.index, s.tip, state.tip, anchor, low);
    LedgerTruncated(s.active, s.undos, s.utxos, state.tip.height, chain, low);
    BestRises(s.index, state.tip.work, record.work);
    ShapeReflexive(s.index);
  }

  /** Tip, active chain and ledger are the same, in memory and on disk. */
  ghost predicate Still(before: State, after: State) {
    && after.tip == before.tip && after.utxos == before.utxos
    && after.store.active == before.store.active && after.store.utxos == before.store.utxos
    && after.store.undos == before.store.undos && after.store.tip == before.store.tip
  }

  ghost predicate Unmoved(before: State, after: State) {
    Still(before, after) && after.headerTip == before.headerTip && after.store.headerTip == before.store.headerTip
  }

  lemma DropActiveFrame(s: Store, low: nat, high: nat)
    ensures DropActive(s, low, high) == s.(active := DropActive(s, low, high).active)
  {
  }

  lemma SwitchedInv(state: State, config: Config, next: Store, tip: Tip, staged: Staged, chain: seq<Block>,
                    newChain: seq<Block>)
    requires Inv(state, chain, config)
    requires OnTheWay(state.store, next, IdOf(config.anchorHeader), tip, tip.work, staged, newChain)
    requires next == state.store.(index := next.index, blocks := next.blocks, undos := next.undos,
                                  active := next.active)
    ensures var point, preferred := Point(tip.id, tip.height), tip.work > state.headerTip.work;
            var after := State(next.(utxos := Patched(state.store.utxos, staged.delta), tip := Some(point),
                                     headerTip := if preferred then Some(point) else state.store.headerTip),
                               tip, if preferred then tip else state.headerTip, staged.utxos, state.health);
            Inv(after, newChain, config) && Keeps(state, after)
  {
    hide Retained, IndexOk, ActiveOk, BodiesOk, TipIsBest, LedgerOk, HeaderTipOk, Patched, SameShape;
    ActiveTipIsIndexed(next.active, next.index, Some(Point(tip.id, tip.height)), tip, IdOf(config.anchorHeader));
    if tip.work <= state.headerTip.work {
      HeaderTipShape(state.store.index, next.index, state.store.headerTip, state.headerTip, state.tip.work, tip.work);
    }
  }

  /** A plan that goes through: the new chain shares the part below the fork. */
  lemma PlanSwitches(state: State, chain: seq<Block>, config: Config, plan: Plan, record: Record, candidate: BlockId,
                     verify: Spend, commitOk: bool)
    requires Inv(state, chain, config) && PlanFits(state, config, plan, record) && state.tip.work < record.work
    requires ApplyPlan(state, plan, candidate, config, verify, commitOk).result.Success?
    ensures plan.forkHeight <= |chain|
    ensures var r := ApplyPlan(state, plan, candidate, config, verify, commitOk);
            && r.result == Success(Reorganized) && r.state.tip.work == record.work
            && Inv(r.state, chain[..plan.forkHeight] + BlocksOf(plan.bodies, |plan.bodies|), config)
            && Keeps(state, r.state)
  {
    hide OnTheWay, IndexOk, ActiveOk, BodiesOk, TipIsBest, LedgerOk, HeaderTipOk, Patched, Wind, Attachable, BodyFits,
         PutBodies, Kept, Unwind, DropActive;
    var s, anchor, n := state.store, IdOf(config.anchorHeader), |plan.bodies|;
    LedgerFacts(s.active, s.undos, s.utxos, state.utxos, state.tip.height, chain);
    UnwoundIsOnTheWay(state, chain, config, plan, record);
    var staged := Unwind(state.utxos, plan.undos, |plan.undos|).value;
    var cut := DropActive(s, plan.forkHeight, state.tip.height);
    DropActiveFrame(s, plan.forkHeight, state.tip.height);
    var w := Wind(staged, plan.bodies, n, config.rules, verify);
    WindAll(s, cut, anchor, ForkTip(state, plan), record.work, staged, chain[..plan.forkHeight], plan.bodies, n,
            config.rules, verify);
    PutBodiesFrame(cut, plan.bodies, w.undos, n);
    SwitchedInv(state, config, PutBodies(cut, plan.bodies, w.undos, n), TipAt(ForkTip(state, plan), plan.bodies, n),
                w.staged, chain, chain[..plan.forkHeight] + BlocksOf(plan.bodies, n));
  }

  lemma MarkableSuffix(state: State, config: Config, bodies: seq<Body>, candidate: BlockId, k: nat)
    requires MarkableAll(state, config, bodies, candidate) && k <= |bodies|
    ensures MarkableAll(state, config, bodies[k..], candidate)
  {
    hide Attachable;
  }

  /** A plan that fails: at most index records of the new branch change. */
  lemma PlanFails(state: State, chain: seq<Block>, config: Config, plan: Plan, record: Record, candidate: BlockId,
                  verify: Spend, commitOk: bool)
    requires Inv(state, chain, config) && PlanFits(state, config, plan, record) && state.tip.work < record.work
    requires MarkableAll(state, config, plan.bodies, candidate)
    requires ApplyPlan(state, plan, candidate, config, verify, commitOk).result.Failure?
    ensures var r := ApplyPlan(state, plan, candidate, config, verify, commitOk);
            Inv(r.state, chain, config) && Unmoved(state, r.state) && Keeps(state, r.state)
  {
    hide Inv, Wind, Unwind, PlanFits, Attachable, MarkableAll, Kept;
    var unwound := Unwind(state.utxos, plan.undos, |plan.undos|);
    if unwound.Success? && plan.bodies != [] {
      var w := Wind(unwound.value, plan.bodies, |plan.bodies|, config.rules, verify);
      if w.Stuck? {
        MarkableSuffix(state, config, plan.bodies, candidate, w.position);
        MarkKeeps(state, chain, config, plan.bodies[w.position..], candidate);
      }
    }
  }

  // ----- Loading a plan that fits -----

  lemma {:induction false} PathWork(s: Store, fork: Fork, i: nat, j: nat)
    requires PathOk(s, fork) && i <= j < |fork.path|
    ensures fork.path[i].record.work <= fork.path[j].record.work
  {
    hide BlockWork;
    if i < j {
      PathWork(s, fork, i, j - 1);
      assert NodeOk(s, fork, j);
    }
  }

  lemma CandidateHeight(active: Active, index: Index, anchor: BlockId, record: Record)
    requires Attachable(active, index, anchor, record)
    ensures record.height <= U64_MAX && record.parent == record.header.previous
  {
  }

  lemma ForkIsActive(s: Store, fork: Fork)
    requires PathOk(s, fork)
    ensures fork.height in s.active
  {
  }

  lemma PathOfCandidate(s: Store, tip: Tip, anchor: BlockId, id: BlockId, record: Record)
    requires IndexOk(s.index, anchor) && ActiveOk(s.active, s.index, s.tip, tip, anchor)
    requires id == IdOf(record.header) && Attachable(s.active, s.index, anchor, record)
    requires DiscoverFork(s, id, record).Success?
    ensures var fork := DiscoverFork(s, id, record).value;
            && PathOk(s, fork) && fork.path != [] && fork.path[|fork.path| - 1] == Node(id, record)
            && fork.height <= tip.height && fork.height in s.active && s.active[fork.height] in s.index
            && forall i | 0 <= i < |fork.path| :: Attachable(s.active, s.index, anchor, fork.path[i].record)
  {
    hide PathOk, Discover, IndexOk;
    CandidateHeight(s.active, s.index, anchor, record);
    DiscoverLeads(s, id, record);
    var fork := DiscoverFork(s, id, record).value;
    ForkIsActive(s, fork);
    hide Attachable, ActiveOk;
    forall i | 0 <= i < |fork.path|
      ensures Attachable(s.active, s.index, anchor, fork.path[i].record)
    {
      PathAttachable(s, tip, anchor, fork, record, i);
    }
  }

  lemma BodyIsFit(state: State, anchor: BlockId, fork: Fork, plan: Plan, record: Record, id: BlockId, i: nat)
    requires PathOk(state.store, fork) && state.store.active[fork.height] in state.store.index
    requires fork.path != [] && fork.path[|fork.path| - 1] == Node(id, record)
    requires |plan.bodies| == |fork.path| && i < |plan.bodies| && plan.forkHeight == fork.height
    requires Attachable(state.store.active, state.store.index, anchor, fork.path[i].record)
    requires forall j | 0 <= j < |fork.path| ::
               plan.bodies[j].id == fork.path[j].id == IdOf(plan.bodies[j].block.header)
                                                && plan.bodies[j].record == fork.path[j].record
                                                && plan.bodies[j].block.header == fork.path[j].record.header
    ensures BodyFits(state.store.index, anchor, ForkTip(state, plan), record.work, plan.bodies, i)
  {
    hide Follows, WorkFollows;
    assert NodeOk(state.store, fork, i);
    PathWork(state.store, fork, i, |fork.path| - 1);
  }

  lemma PlanIsFit(state: State, chain: seq<Block>, config: Config, block: Block, record: Record)
    requires Inv(state, chain, config) && record.header == block.header
    requires Attachable(state.store.active, state.store.index, IdOf(config.anchorHeader), record)
    requires DiscoverFork(state.store, IdOf(block.header), record).Success?
    requires LoadPlan(state.store, state.tip.height, DiscoverFork(state.store, IdOf(block.header), record).value,
                      IdOf(block.header), block).Success?
    ensures var plan := LoadPlan(state.store, state.tip.height,
                                 DiscoverFork(state.store, IdOf(block.header), record).value, IdOf(block.header),
                                     block).value;
            PlanFits(state, config, plan, record) && MarkableAll(state, config, plan.bodies, IdOf(block.header))
  {
    hide IndexOk, ActiveOk, BodiesOk, TipIsBest, LedgerOk, HeaderTipOk, DiscoverFork, LoadUndos, LoadBodies, Attachable;
    var s, anchor, id := state.store, IdOf(config.anchorHeader), IdOf(block.header);
    PathOfCandidate(s, state.tip, anchor, id, record);
    var fork := DiscoverFork(s, id, record).value;
    var plan := LoadPlan(s, state.tip.height, fork, id, block).value;
    UndosMatch(s, fork.height, state.tip.height);
    BodiesMatch(s, fork.path, id, block);
    forall i | 0 <= i < |plan.bodies|
      ensures BodyFits(s.index, anchor, ForkTip(state, plan), record.work, plan.bodies, i)
    {
      BodyIsFit(state, anchor, fork, plan, record, id, i);
    }
  }
}
