/** Reorganizing keeps the invariant: the old branch is undone exactly, the new one is replayed,
    or the failing part of it is marked invalid and nothing else changes. */
module ChainSwitch {
  import opened Prelude
  import opened ChainTypes
  import opened ChainBlocks
  import opened ChainHistory
  import opened ChainStore
  import opened ChainReorg
  import opened ChainSteps
  import opened ChainInvariant
  import opened ChainExtend

  // ----- Undoing the old branch -----

  lemma {:induction false} PrefixesGood(chain: seq<Block>, k: nat)
    requires ChainGood(chain) && k <= |chain|
    ensures ChainGood(chain[..k])
    decreases |chain|
  {
    hide AllGood, ChainApps;
    if k == |chain| {
      assert chain[..k] == chain;
    } else {
      var front := chain[..|chain| - 1];
      PrefixGood(chain);
      PrefixesGood(front, k);
      assert front[..k] == chain[..k];
    }
  }

  /** After `k` undos the ledger is the replay of the chain without its last `k` blocks, and the
      recorded changes lead there from the stored ledger. */
  lemma {:induction false} UnwindExact(chain: seq<Block>, undos: seq<BlockUndo>, k: nat)
    requires ChainGood(chain) && k <= |undos| && |undos| <= |chain|
    requires forall i | 0 <= i < |undos| :: undos[i] == UndoOf(chain[..|chain| - i])
    ensures var r := Unwind(Replayed(chain), undos, k);
            && r.Success? && r.value.utxos == Replayed(chain[..|chain| - k])
            && Patched(Replayed(chain), r.value.delta) == r.value.utxos
  {
    hide AllGood, ChainApps, ApplyAll, Replayed, UndoOf, Disconnect, Patched, DisconnectDelta;
    if k == 0 {
      assert chain[..|chain|] == chain;
      NoDelta(Replayed(chain));
    } else {
      UnwindExact(chain, undos, k - 1);
      var before := Unwind(Replayed(chain), undos, k - 1).value;
      var part := chain[..|chain| - (k - 1)];
      PrefixesGood(chain, |part|);
      UndoExact(part);
      assert part[..|part| - 1] == chain[..|chain| - k];
      DisconnectRecorded(Replayed(chain), before.delta, before.utxos, undos[k - 1]);
    }
  }

  // ----- Records of the candidate path -----

  /** A record that may be stored off the active chain. */
  ghost predicate Attachable(active: Active, index: Index, anchor: BlockId, record: Record) {
    && IdOf(record.header) != anchor && Follows(index, record)
    && (record.height !in active || active[record.height] != IdOf(record.header))
  }

  lemma AttachableStill(active: Active, index: Index, next: Index, anchor: BlockId, record: Record, changed: Record)
    requires Attachable(active, index, anchor, record) && SameShape(index, next)
    requires changed == record.(status := changed.status, bodyRetained := changed.bodyRetained)
    ensures Attachable(active, next, anchor, changed)
  {
    hide Follows;
    FollowsStill(index, next, record);
    FullFollows(next, record, changed);
  }

  lemma PathAttachable(s: Store, tip: Tip, anchor: BlockId, fork: Fork, record: Record, i: nat)
    requires IndexOk(s.index, anchor) && ActiveOk(s.active, s.index, s.tip, tip, anchor) && PathOk(s, fork)
             && i < |fork.path|
    requires fork.path[|fork.path| - 1].record == record && Attachable(s.active, s.index, anchor, record)
    ensures Attachable(s.active, s.index, anchor, fork.path[i].record)
  {
    hide Follows, WorkFollows, ActiveOk;
    assert NodeOk(s, fork, i);
    if i < |fork.path| - 1 {
      var id := fork.path[i].id;
      assert id != anchor;
      assert Follows(s.index, s.index[id]);
    }
  }

  // ----- Marking the failing part of a branch -----

  lemma SideMarkKeeps(state: State, chain: seq<Block>, config: Config, record: Record)
    requires Inv(state, chain, config)
             && Attachable(state.store.active, state.store.index, IdOf(config.anchorHeader), record)
    requires record.status == Invalid && (record.bodyRetained ==> IdOf(record.header) in state.store.blocks)
    ensures Inv(state.(store := WithIndex(state.store, record)), chain, config)
    ensures SameShape(state.store.index, WithIndex(state.store, record).index)
    ensures Keeps(state, state.(store := WithIndex(state.store, record)))
  {
    hide IndexOk, ActiveOk, LedgerOk, Follows, BodiesOk, TipIsBest, HeaderTipOk, SameShape, Retained;
    SideRetained(state, chain, config, record);
    var s, anchor := state.store, IdOf(config.anchorHeader);
    PutRecord(s.index, anchor, record);
    SideRecord(s.active, s.index, s.tip, state.tip, anchor, record);
    HeaderTipStays(s.index, s.headerTip, state.headerTip, state.tip.work, anchor, record);
    BestStays(s.index, state.tip.work, record);
    BodiesStay(s.blocks, s.index, record);
  }

  ghost predicate MarkableAll(state: State, config: Config, bodies: seq<Body>, candidate: BlockId) {
    forall i | 0 <= i < |bodies| ::
      && bodies[i].id == IdOf(bodies[i].record.header)
      && Attachable(state.store.active, state.store.index, IdOf(config.anchorHeader), bodies[i].record)
      && (bodies[i].id != candidate && bodies[i].record.bodyRetained ==> bodies[i].id in state.store.blocks)
  }

  lemma ShapeReflexive(index: Index)
    ensures SameShape(index, index)
  {
  }

  /** Only index records change: tip, active chain and ledger stay. */
  lemma {:induction false} MarkKeeps(state: State, chain: seq<Block>, config: Config, bodies: seq<Body>,
                                     candidate: BlockId)
    requires Inv(state, chain, config) && MarkableAll(state, config, bodies, candidate)
    ensures var marked := MarkInvalid(state.store, bodies, candidate);
            && marked == state.store.(index := marked.index) && SameShape(state.store.index, marked.index)
            && Inv(state.(store := marked), chain, config)
            && Keeps(state, state.(store := marked))
  {
    hide Inv, Attachable, SameShape, Kept;
    if bodies == [] {
      ShapeReflexive(state.store.index);
    } else {
      var front, last := bodies[..|bodies| - 1], bodies[|bodies| - 1];
      MarkKeeps(state, chain, config, front, candidate);
      var before := state.(store := MarkInvalid(state.store, front, candidate));
      var changed := last.record.(status := Invalid, bodyRetained := last.id != candidate && last.record.bodyRetained);
      AttachableStill(state.store.active, state.store.index, before.store.index, IdOf(config.anchorHeader),
                      last.record, changed);
      SideMarkKeeps(before, chain, config, changed);
      ShapeTransitive(state.store.index, before.store.index, WithIndex(before.store, changed).index);
    }
  }

  // ----- Connecting the new branch -----

  /** A store on the way to the new branch: everything but the ledger on disk has been switched to
      a chain that ends at `tip`, and the recorded changes lead to that chain's ledger. */
  ghost predicate OnTheWay(s: Store, next: Store, anchor: BlockId, tip: Tip, work: nat, staged: Staged,
                           chain: seq<Block>) {
    && IndexOk(next.index, anchor) && SameShape(s.index, next.index)
    && ActiveOk(next.active, next.index, Some(Point(tip.id, tip.height)), tip, anchor)
    && BodiesOk(next.blocks, next.index) && TipIsBest(next.index, work)
    && LedgerOk(next.active, next.undos, staged.utxos, staged.utxos, tip.height, chain)
    && Patched(s.utxos, staged.delta) == staged.utxos
    && forall mark | Retained(s.active, s.index, s.blocks, s.undos, mark) ::
         Retained(next.active, next.index, next.blocks, next.undos, mark)
  }

  lemma ActiveTruncated(active: Active, index: Index, stored: Option<Point>, tip: Tip, anchor: BlockId, low: nat)
    requires ActiveOk(active, index, stored, tip, anchor) && low <= tip.height
    ensures low in active && active[low] in index
    ensures var cut := map h | h in active && !(low < h <= tip.height) :: active[h];
            ActiveOk(cut, index, Some(Point(active[low], low)), Tip(active[low], low, index[active[low]].work), anchor)
  {
  }

  lemma LedgerTruncated(active: Active, undos: Undos, utxos: Coins, high: nat, chain: seq<Block>, low: nat)
    requires LedgerOk(active, undos, utxos, utxos, high, chain) && low <= high
    ensures forall i | 0 <= i < low :: chain[..low][i].transactions != []
    ensures var cut := map h | h in active && !(low < h <= high) :: active[h];
            LedgerOk(cut, undos, Replayed(chain[..low]), Replayed(chain[..low]), low, chain[..low])
  {
    hide AllGood, ChainApps, ApplyAll, UndoOf, Replayed;
    PrefixesGood(chain, low);
    var cut := map h | h in active && !(low < h <= high) :: active[h];
    forall h | 1 <= h <= low
      ensures chain[..low][..h] == chain[..h]
    {
    }
    LedgerIntro(cut, undos, Replayed(chain[..low]), chain[..low]);
  }

  lemma BestRises(index: Index, work: nat, more: nat)
    requires TipIsBest(index, work) && work <= more
    ensures TipIsBest(index, more)
  {
  }

  /** The next body of the path joins. */
  lemma WindStep(s: Store, next: Store, anchor: BlockId, tip: Tip, work: nat, staged: Staged, chain: seq<Block>,
                 body: Body, rules: Rules, verify: Spend)
    requires OnTheWay(s, next, anchor, tip, work, staged, chain)
    requires Follows(next.index, body.record) && body.record.parent == tip.id && body.record.work <= work
    requires body.id == IdOf(body.block.header) != anchor && body.record.header == body.block.header
    requires Connect(staged.utxos, body.block, body.record.height, rules, verify).Success?
    ensures var c := Connect(staged.utxos, body.block, body.record.height, rules, verify).value;
            OnTheWay(s, WithBody(next, body, c.undo), anchor, Tip(body.id, body.record.height, body.record.work), work,
                     Staged(c.utxos, ConnectDelta(staged.delta, c.utxos, c.undo)), chain + [body.block])
  {
    hide Connect, IndexOk, ActiveOk, BodiesOk, TipIsBest, LedgerOk, Patched, ConnectDelta, Replayed, AllGood,
         SameShape, Retained;
    var full := body.record.(status := FullyValidated, bodyRetained := true);
    var stored := Some(Point(tip.id, tip.height));
    FullFollows(next.index, body.record, full);
    hide Follows;
    ActiveGrows(next.active, next.index, stored, tip, anchor, full);
    TipFollows(next.active, next.index, stored, tip, anchor, full);
    NotYetActive(next.active, next.index, stored, tip, anchor, full);
    PutRecord(next.index, anchor, full);
    ShapeTransitive(s.index, next.index, next.index[body.id := full]);
    BestStays(next.index, work, full);
    NewBody(next.blocks, next.index, body.block);
    BodiesStay(next.blocks[body.id := body.block], next.index, full);
    LedgerFacts(next.active, next.undos, staged.utxos, staged.utxos, tip.height, chain);
    LedgerGrows(next.active, next.undos, staged.utxos, chain, body.block, rules, verify);
    DeltaReaches(chain, body.block, rules, verify, s.utxos, staged.delta);
    var undo := Connect(staged.utxos, body.block, body.record.height, rules, verify).value.undo;
    forall mark | Retained(next.active, next.index, next.blocks, next.undos, mark)
      ensures Retained(next.active[full.height := body.id], next.index[body.id := full],
                       next.blocks[body.id := body.block], next.undos[body.id := undo], mark)
    {
      RetainedGrows(next.active, next.index, next.blocks, next.undos, full, body.block, undo, mark);
    }
  }
}
