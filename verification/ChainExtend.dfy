/** Extending the active chain, storing headers and side blocks: the invariant is kept. */
module ChainExtend {
  import opened Prelude
  import opened ChainTypes
  import opened ChainBlocks
  import opened ChainHistory
  import opened ChainStore
  import opened ChainSteps
  import opened ChainInvariant

  // ----- Records off the active chain -----

  lemma HeightOf(active: Active, index: Index, stored: Option<Point>, tip: Tip, anchor: BlockId, h: nat)
    requires ActiveOk(active, index, stored, tip, anchor) && h in active
    ensures active[h] in index && index[active[h]].height == h
  {
  }

  /** A record off the active chain leaves the active chain as it was. */
  lemma SideRecord(active: Active, index: Index, stored: Option<Point>, tip: Tip, anchor: BlockId, record: Record)
    requires IndexOk(index, anchor) && ActiveOk(active, index, stored, tip, anchor)
    requires IdOf(record.header) != anchor && Follows(index, record)
    requires record.height !in active || active[record.height] != IdOf(record.header)
    ensures IndexOk(index[IdOf(record.header) := record], anchor)
    ensures ActiveOk(active, index[IdOf(record.header) := record], stored, tip, anchor)
  {
    hide Follows;
    PutRecord(index, anchor, record);
    hide IndexOk;
    var id := IdOf(record.header);
    forall h | h in active
      ensures active[h] != id
    {
      HeightOf(active, index, stored, tip, anchor, h);
    }
  }

  lemma HeaderTipStays(index: Index, stored: Option<Point>, headerTip: Tip, work: nat, anchor: BlockId, record: Record)
    requires IndexOk(index, anchor) && HeaderTipOk(index, stored, headerTip, work)
    requires IdOf(record.header) != anchor && Follows(index, record)
    ensures HeaderTipOk(index[IdOf(record.header) := record], stored, headerTip, work)
  {
    hide Follows;
    PutRecord(index, anchor, record);
  }

  lemma BestStays(index: Index, work: nat, record: Record)
    requires TipIsBest(index, work) && (record.status != Invalid && record.bodyRetained ==> record.work <= work)
    ensures TipIsBest(index[IdOf(record.header) := record], work)
  {
  }

  lemma BodiesStay(blocks: map<BlockId, Block>, index: Index, record: Record)
    requires BodiesOk(blocks, index) && (record.bodyRetained ==> IdOf(record.header) in blocks)
    ensures BodiesOk(blocks, index[IdOf(record.header) := record])
  {
  }

  lemma NewBody(blocks: map<BlockId, Block>, index: Index, block: Block)
    requires BodiesOk(blocks, index)
    ensures BodiesOk(blocks[IdOf(block.header) := block], index)
  {
  }

  lemma RetainedSide(active: Active, index: Index, blocks: map<BlockId, Block>, undos: Undos, record: Record, mark: nat)
    requires forall h | h in active :: active[h] != IdOf(record.header)
    requires Retained(active, index, blocks, undos, mark)
    ensures Retained(active, index[IdOf(record.header) := record], blocks, undos, mark)
  {
  }

  lemma RetainedMore(active: Active, index: Index, blocks: map<BlockId, Block>, undos: Undos, id: BlockId, block: Block)
    ensures forall mark | Retained(active, index, blocks, undos, mark) ::
              Retained(active, index, blocks[id := block], undos, mark)
  {
  }

  lemma RetainedGrows(active: Active, index: Index, blocks: map<BlockId, Block>, undos: Undos, record: Record,
                      block: Block, undo: BlockUndo, mark: nat)
    requires Retained(active, index, blocks, undos, mark) && record.bodyRetained
    requires forall h | h in active :: active[h] != IdOf(record.header) && h < record.height
    ensures var id := IdOf(record.header);
            Retained(active[record.height := id], index[id := record], blocks[id := block], undos[id := undo], mark)
  {
  }

  // ----- A new header -----

  lemma ValidatedFollows(store: Store, header: Header, config: Config)
    requires ValidateHeader(store, header, config).Success?
    ensures var record := ValidateHeader(store, header, config).value;
            Follows(store.index, record) && record.header == header && !record.bodyRetained
                && record.status == HeaderValidated
  {
  }

  lemma NotActive(active: Active, index: Index, stored: Option<Point>, tip: Tip, anchor: BlockId, height: nat,
                  id: BlockId)
    requires ActiveOk(active, index, stored, tip, anchor) && id !in index
    ensures id != anchor && (height !in active || active[height] != id)
  {
  }

  lemma NotYetActive(active: Active, index: Index, stored: Option<Point>, tip: Tip, anchor: BlockId, record: Record)
    requires IndexOk(index, anchor) && ActiveOk(active, index, stored, tip, anchor) && Follows(index, record)
    requires IdOf(record.header) != anchor && (record.height !in active || active[record.height] != IdOf(record.header))
    ensures forall h | h in active :: active[h] != IdOf(record.header)
  {
    hide IndexOk, Follows;
    PutRecord(index, anchor, record);
    forall h | h in active
      ensures active[h] != IdOf(record.header)
    {
      HeightOf(active, index, stored, tip, anchor, h);
    }
  }

  /** A record off the active chain does not touch what the active chain retains. */
  lemma SideRetained(state: State, chain: seq<Block>, config: Config, record: Record)
    requires Inv(state, chain, config) && Follows(state.store.index, record)
             && IdOf(record.header) != IdOf(config.anchorHeader)
    requires record.height !in state.store.active || state.store.active[record.height] != IdOf(record.header)
    ensures var s := state.store;
            forall mark | Retained(s.active, s.index, s.blocks, s.undos, mark) ::
              Retained(s.active, s.index[IdOf(record.header) := record], s.blocks, s.undos, mark)
  {
    hide IndexOk, ActiveOk, LedgerOk, Follows, BodiesOk, TipIsBest, HeaderTipOk, Retained;
    var s := state.store;
    NotYetActive(s.active, s.index, s.tip, state.tip, IdOf(config.anchorHeader), record);
    forall mark | Retained(s.active, s.index, s.blocks, s.undos, mark)
      ensures Retained(s.active, s.index[IdOf(record.header) := record], s.blocks, s.undos, mark)
    {
      RetainedSide(s.active, s.index, s.blocks, s.undos, record, mark);
    }
  }

  lemma NewHeaderTip(index: Index, stored: Option<Point>, headerTip: Tip, work: nat, record: Record)
    requires HeaderTipOk(index, stored, headerTip, work) && record.work > headerTip.work
    ensures var id := IdOf(record.header);
            HeaderTipOk(index[id := record], Some(Point(id, record.height)), Tip(id, record.height, record.work), work)
  {
  }

  /** A new header changes neither the tip nor the ledger, and keeps the invariant. */
  lemma HeaderKeeps(state: State, chain: seq<Block>, config: Config, header: Header, commitOk: bool)
    requires Inv(state, chain, config)
    ensures var r := AcceptHealthyHeader(state, header, config, commitOk);
            && Inv(r.state, chain, config)
            && (r.result.Failure? ==> r.state == state)
            && r.state.tip == state.tip && r.state.utxos == state.utxos
            && r.state.store.active == state.store.active && r.state.store.utxos == state.store.utxos
            && r.state.store.undos == state.store.undos && r.state.store.tip == state.store.tip
            && r.state.headerTip.work >= state.headerTip.work
            && Keeps(state, r.state)
  {
    hide ValidateHeader, IndexOk, ActiveOk, LedgerOk, Follows, BodiesOk, TipIsBest, HeaderTipOk, Retained;
    var s, id, anchor := state.store, IdOf(header), IdOf(config.anchorHeader);
    if id !in s.index && ValidateHeader(s, header, config).Success? {
      var record := ValidateHeader(s, header, config).value;
      ValidatedFollows(s, header, config);
      NotActive(s.active, s.index, s.tip, state.tip, anchor, record.height, id);
      SideRecord(s.active, s.index, s.tip, state.tip, anchor, record);
      SideRetained(state, chain, config, record);
      HeaderTipStays(s.index, s.headerTip, state.headerTip, state.tip.work, anchor, record);
      if record.work > state.headerTip.work {
        NewHeaderTip(s.index, s.headerTip, state.headerTip, state.tip.work, record);
      }
      BestStays(s.index, state.tip.work, record);
      BodiesStay(s.blocks, s.index, record);
    }
  }

  // ----- A stored side block -----

  lemma SideBlockKeeps(state: State, chain: seq<Block>, config: Config, block: Block, record: Record)
    requires Inv(state, chain, config)
    requires Follows(state.store.index, record) && record.header == block.header
             && IdOf(record.header) != IdOf(config.anchorHeader)
    requires record.height !in state.store.active || state.store.active[record.height] != IdOf(record.header)
    requires record.work <= state.tip.work
    ensures var after := state.(store :=
                                WithIndex(state.store, record).(blocks :=
                                                                state.store.blocks[IdOf(block.header) := block]));
            Inv(after, chain, config) && Keeps(state, after)
  {
    hide IndexOk, ActiveOk, LedgerOk, Follows, BodiesOk, TipIsBest, HeaderTipOk, Retained;
    SideRetained(state, chain, config, record);
    RetainedMore(state.store.active, WithIndex(state.store, record).index, state.store.blocks, state.store.undos,
                 IdOf(block.header), block);
    var s, anchor := state.store, IdOf(config.anchorHeader);
    SideRecord(s.active, s.index, s.tip, state.tip, anchor, record);
    HeaderTipStays(s.index, s.headerTip, state.headerTip, state.tip.work, anchor, record);
    BestStays(s.index, state.tip.work, record);
    NewBody(s.blocks, s.index, block);
    BodiesStay(s.blocks[IdOf(block.header) := block], s.index, record);
  }

  // ----- Extending -----

  lemma ActiveAppend(active: Active, index: Index, stored: Option<Point>, tip: Tip, anchor: BlockId, id: BlockId)
    requires ActiveOk(active, index, stored, tip, anchor)
    requires id in index && index[id].height == tip.height + 1 && index[id].status == FullyValidated
             && index[id].parent == tip.id
    ensures ActiveOk(active[tip.height + 1 := id], index, Some(Point(id, tip.height + 1)),
                     Tip(id, tip.height + 1, index[id].work), anchor)
  {
    var next := active[tip.height + 1 := id];
    forall h: nat | h in next && h > 0
      ensures index[next[h]].parent == next[h - 1]
    {
      assert h <= tip.height ==> h in active && h - 1 in active;
    }
  }

  lemma TipFollows(active: Active, index: Index, stored: Option<Point>, tip: Tip, anchor: BlockId, record: Record)
    requires ActiveOk(active, index, stored, tip, anchor) && Follows(index, record) && record.parent == tip.id
    ensures record.height == tip.height + 1 && record.work > tip.work && record.height !in active
    ensures forall h | h in active :: h < record.height
  {
    hide BlockWork;
    assert tip.height in active;
  }

  lemma ActiveGrows(active: Active, index: Index, stored: Option<Point>, tip: Tip, anchor: BlockId, record: Record)
    requires IndexOk(index, anchor) && ActiveOk(active, index, stored, tip, anchor)
    requires Follows(index, record) && record.parent == tip.id && record.status == FullyValidated
    requires IdOf(record.header) != anchor
    ensures record.height == tip.height + 1 && record.work > tip.work
    ensures var id := IdOf(record.header);
            && IndexOk(index[id := record], anchor)
            && ActiveOk(active[record.height := id], index[id := record], Some(Point(id, record.height)),
                        Tip(id, record.height, record.work), anchor)
  {
    hide IndexOk, ActiveOk, Follows;
    TipFollows(active, index, stored, tip, anchor, record);
    SideRecord(active, index, stored, tip, anchor, record);
    ActiveAppend(active, index[IdOf(record.header) := record], stored, tip, anchor, IdOf(record.header));
  }

  lemma BestGrows(index: Index, work: nat, record: Record)
    requires TipIsBest(index, work) && work <= record.work
    ensures TipIsBest(index[IdOf(record.header) := record], record.work)
  {
  }

  lemma FullFollows(index: Index, record: Record, full: Record)
    requires Follows(index, record) && full == record.(status := full.status, bodyRetained := full.bodyRetained)
    ensures Follows(index, full) && full.parent == full.header.previous && full.height <= U64_MAX
  {
  }

  lemma LedgerIntro(active: Active, undos: Undos, utxos: Coins, chain: seq<Block>)
    requires ChainGood(chain) && utxos == Replayed(chain)
    requires forall h | 1 <= h <= |chain| :: h in active && active[h] == IdOf(chain[h - 1].header)
    requires forall h | 1 <= h <= |chain| && h in active && active[h] in undos :: undos[active[h]] == UndoOf(chain[..h])
    ensures LedgerOk(active, undos, utxos, utxos, |chain|, chain)
  {
  }

  lemma UndosGrow(active: Active, undos: Undos, chain: seq<Block>, block: Block, undo: BlockUndo)
    requires forall i | 0 <= i < |chain + [block]| :: (chain + [block])[i].transactions != []
    requires forall h | 1 <= h <= |chain| && h in active && active[h] in undos :: undos[active[h]] == UndoOf(chain[..h])
    requires undo == UndoOf(chain + [block])
    requires forall h | h in active :: active[h] != IdOf(block.header)
    ensures var id, all := IdOf(block.header), chain + [block];
            var active', undos' := active[|chain| + 1 := id], undos[id := undo];
            forall h | 1 <= h <= |all| && h in active' && active'[h] in undos' :: undos'[active'[h]] == UndoOf(all[..h])
  {
    hide UndoOf;
    var all := chain + [block];
    forall h | 1 <= h <= |chain|
      ensures all[..h] == chain[..h]
    {
    }
    assert all[..|all|] == all;
  }

  /** Connecting the next block keeps memory, replay and undos in step. */
  lemma LedgerGrows(active: Active, undos: Undos, memory: Coins, chain: seq<Block>, block: Block, rules: Rules,
                    verify: Spend)
    requires LedgerOk(active, undos, memory, memory, |chain|, chain) && |chain| < U64_MAX
    requires |chain| + 1 !in active
    requires forall h | h in active :: active[h] != IdOf(block.header)
    requires Connect(memory, block, |chain| + 1, rules, verify).Success?
    ensures var c := Connect(memory, block, |chain| + 1, rules, verify).value;
            var id := IdOf(block.header);
            LedgerOk(active[|chain| + 1 := id], undos[id := c.undo], c.utxos, c.utxos, |chain| + 1, chain + [block])
  {
    hide Connect, AllGood, ChainApps, UndoBetween, ApplyAll;
    var c, id, all := Connect(memory, block, |chain| + 1, rules, verify).value, IdOf(block.header), chain + [block];
    ConnectExtends(chain, block, rules, verify);
    assert all[..|chain|] == chain;
    UndosGrow(active, undos, chain, block, c.undo);
    LedgerIntro(active[|chain| + 1 := id], undos[id := c.undo], c.utxos, all);
  }

  /** The changes recorded so far, with this connect, lead to the new ledger. */
  lemma DeltaReaches(chain: seq<Block>, block: Block, rules: Rules, verify: Spend, disk: Coins, delta: Delta)
    requires ChainGood(chain) && |chain| < U64_MAX && Patched(disk, delta) == Replayed(chain)
    requires Connect(Replayed(chain), block, |chain| + 1, rules, verify).Success?
    ensures var c := Connect(Replayed(chain), block, |chain| + 1, rules, verify).value;
            c.undo.created <= c.utxos.Keys && Patched(disk, ConnectDelta(delta, c.utxos, c.undo)) == c.utxos
  {
    hide Connect, AllGood, ChainApps, Patched, ConnectDelta, UndoBetween, ApplyAll;
    var c, all := Connect(Replayed(chain), block, |chain| + 1, rules, verify).value, chain + [block];
    ConnectExtends(chain, block, rules, verify);
    assert all[..|all| - 1] == chain;
    NoRecreation(all);
    ConnectRecorded(disk, delta, Replayed(chain), c.utxos);
  }

  lemma LedgerFacts(active: Active, undos: Undos, disk: Coins, memory: Coins, height: nat, chain: seq<Block>)
    requires LedgerOk(active, undos, disk, memory, height, chain)
    ensures |chain| == height && ChainGood(chain) && memory == disk == Replayed(chain)
  {
  }

  /** An extension either leaves the state as it was, or appends the block to the active chain and
      raises the tip's work. */
  lemma ExtendKeeps(state: State, chain: seq<Block>, config: Config, block: Block, record: Record, verify: Spend,
                    commitOk: bool)
    requires Inv(state, chain, config)
    requires Follows(state.store.index, record) && record.header == block.header && record.parent == state.tip.id
    requires IdOf(record.header) != IdOf(config.anchorHeader)
    ensures var r := Extend(state, block, record.height, record.work, config, verify, commitOk);
            && (r.result.Failure? ==> r.state == state)
            && (r.result.Success? ==> Inv(r.state, chain + [block], config) && r.state.tip.work > state.tip.work
                                      && Keeps(state, r.state))
  {
    hide Connect, Retained, IndexOk, ActiveOk, BodiesOk, TipIsBest, LedgerOk, Patched, ConnectDelta, Replayed, AllGood;
    var s, anchor, id := state.store, IdOf(config.anchorHeader), IdOf(block.header);
    var full := record.(status := FullyValidated, bodyRetained := true);
    if Connect(state.utxos, block, record.height, config.rules, verify).Success? {
      FullFollows(s.index, record, full);
      hide Follows;
      ActiveGrows(s.active, s.index, s.tip, state.tip, anchor, full);
      TipFollows(s.active, s.index, s.tip, state.tip, anchor, full);
      NotYetActive(s.active, s.index, s.tip, state.tip, anchor, full);
      HeaderTipStays(s.index, s.headerTip, state.headerTip, state.tip.work, anchor, full);
      BestGrows(s.index, state.tip.work, full);
      NewBody(s.blocks, s.index, block);
      BodiesStay(s.blocks[id := block], s.index, full);
      LedgerFacts(s.active, s.undos, s.utxos, state.utxos, state.tip.height, chain);
      LedgerGrows(s.active, s.undos, state.utxos, chain, block, config.rules, verify);
      NoDelta(s.utxos);
      DeltaReaches(chain, block, config.rules, verify, s.utxos, map[]);
      var undo := Connect(state.utxos, block, record.height, config.rules, verify).value.undo;
      forall mark | Retained(s.active, s.index, s.blocks, s.undos, mark)
        ensures Retained(s.active[full.height := id], s.index[id := full], s.blocks[id := block], s.undos[id := undo],
                         mark)
      {
        RetainedGrows(s.active, s.index, s.blocks, s.undos, full, block, undo, mark);
      }
    }
  }
}
