/** What every reachable chain state satisfies, and the parts that the index keeps. */
module ChainInvariant {
  import opened Prelude
  import opened ChainTypes
  import opened ChainBlocks
  import opened ChainHistory
  import opened ChainStore
  import opened ChainReorg
  import opened ChainSteps

  type Index = map<BlockId, Record>

  // ----- The block index -----

  /** The record names its own id and parent, and height and work follow the parent's. */
  ghost predicate Follows(index: Index, record: Record) {
    && record.parent == record.header.previous && record.parent in index
    && record.height == index[record.parent].height + 1 <= U64_MAX
    && WorkFollows(index[record.parent], record)
  }

  ghost predicate IndexOk(index: Index, anchor: BlockId) {
    && anchor in index && index[anchor].height == 0 && index[anchor].work == 0
    && index[anchor].status == FullyValidated && !index[anchor].bodyRetained
    && index[anchor].parent == index[anchor].header.previous
    && (forall id | id in index :: IdOf(index[id].header) == id)
    && (forall id | id in index && id != anchor :: Follows(index, index[id]))
  }

  /** Both indexes tell the same about the blocks of the first. */
  ghost predicate SameShape(index: Index, next: Index) {
    forall id | id in index :: id in next && next[id].header == index[id].header && next[id].height == index[id].height
                               && next[id].work == index[id].work && next[id].parent == index[id].parent
  }

  lemma FollowsStill(index: Index, next: Index, record: Record)
    requires SameShape(index, next) && Follows(index, record)
    ensures Follows(next, record)
  {
    hide BlockWork;
  }

  lemma ShapeTransitive(a: Index, b: Index, c: Index)
    requires SameShape(a, b) && SameShape(b, c)
    ensures SameShape(a, c)
  {
  }

  /** Storing a record that follows its parent keeps the index consistent; a record that was there
      has the same height and work. */
  lemma PutRecord(index: Index, anchor: BlockId, record: Record)
    requires IndexOk(index, anchor) && IdOf(record.header) != anchor && Follows(index, record)
    ensures IndexOk(index[IdOf(record.header) := record], anchor)
    ensures SameShape(index, index[IdOf(record.header) := record])
    ensures IdOf(record.header) in index ==>
              index[IdOf(record.header)].height == record.height && index[IdOf(record.header)].work == record.work
              && index[IdOf(record.header)].header == record.header
  {
    hide BlockWork;
    var id := IdOf(record.header);
    if id in index {
      assert Follows(index, index[id]);
    }
    var next := index[id := record];
    forall x | x in next && x != anchor
      ensures Follows(next, next[x])
    {
      if x != id {
        assert Follows(index, index[x]);
      }
    }
  }

  // ----- The active chain -----

  type Active = map<nat, BlockId>

  ghost predicate ActiveOk(active: Active, index: Index, stored: Option<Point>, tip: Tip, anchor: BlockId) {
    && (forall h :: h in active <==> 0 <= h <= tip.height)
    && active[0] == anchor && active[tip.height] == tip.id
    && stored == Some(Point(tip.id, tip.height))
    && (forall h | h in active ::
          && active[h] in index && index[active[h]].height == h
          && index[active[h]].status == FullyValidated)
    && (forall h: nat | h in active && h > 0 :: index[active[h]].parent == active[h - 1])
    && tip.work == index[tip.id].work
  }

  // ----- Bodies, fork choice, header tip -----

  ghost predicate BodiesOk(blocks: map<BlockId, Block>, index: Index) {
    && (forall id | id in blocks :: IdOf(blocks[id].header) == id)
    && (forall id | id in index && index[id].bodyRetained :: id in blocks)
  }

  /** No block with a body beats the active tip, unless it is known to be invalid. */
  ghost predicate TipIsBest(index: Index, work: nat) {
    forall id | id in index && index[id].status != Invalid && index[id].bodyRetained :: index[id].work <= work
  }

  ghost predicate HeaderTipOk(index: Index, stored: Option<Point>, headerTip: Tip, work: nat) {
    && headerTip.id in index && index[headerTip.id].height == headerTip.height
       && index[headerTip.id].work == headerTip.work
    && stored == Some(Point(headerTip.id, headerTip.height))
    && headerTip.work >= work
  }

  // ----- The ledger -----

  type Undos = map<BlockId, BlockUndo>

  /** Memory, disk and the replay of the active chain agree, and every stored undo of an active
      block is the exact inverse of its connection. */
  ghost predicate LedgerOk(active: Active, undos: Undos, disk: Coins, memory: Coins, height: nat, chain: seq<Block>) {
    && |chain| == height && ChainGood(chain)
    && (forall h | 1 <= h <= |chain| :: h in active && active[h] == IdOf(chain[h - 1].header))
    && memory == disk == Replayed(chain)
    && forall h | 1 <= h <= |chain| && h in active && active[h] in undos :: undos[active[h]] == UndoOf(chain[..h])
  }

  ghost predicate MetaOk(s: Store, config: Config) {
    s.anchor == Some(IdOf(config.anchorHeader)) && s.genesisTime == Some(config.genesisTime)
    && s.health.Some? && s.pruneCursor.Some?
  }

  ghost predicate Inv(state: State, chain: seq<Block>, config: Config) {
    var s, anchor := state.store, IdOf(config.anchorHeader);
    && IndexOk(s.index, anchor)
    && ActiveOk(s.active, s.index, s.tip, state.tip, anchor)
    && BodiesOk(s.blocks, s.index)
    && TipIsBest(s.index, state.tip.work)
    && HeaderTipOk(s.index, s.headerTip, state.headerTip, state.tip.work)
    && LedgerOk(s.active, s.undos, s.utxos, state.utxos, state.tip.height, chain)
    && MetaOk(s, config)
  }

  // ----- What pruning has left -----

  /** Above the anchor, exactly the active blocks higher than `mark` still have a body and an undo. */
  ghost predicate Retained(active: Active, index: Index, blocks: map<BlockId, Block>, undos: Undos, mark: nat) {
    && mark in active
    && forall h | h in active && h > 0 ::
         && active[h] in index && (index[active[h]].bodyRetained <==> h > mark)
         && (h > mark ==> active[h] in blocks) && (active[h] in undos <==> h > mark)
  }

  ghost predicate Kept(state: State, mark: nat) {
    var s := state.store;
    s.pruneCursor.Some? && s.pruneCursor.value <= mark && Retained(s.active, s.index, s.blocks, s.undos, mark)
  }

  /** A step that prunes nothing and loses nothing. */
  ghost predicate Keeps(before: State, after: State) {
    forall mark | Kept(before, mark) :: Kept(after, mark)
  }

  lemma NothingReplayed()
    ensures ChainGood([]) && Replayed([]) == map[]
  {
  }

  lemma BootstrapInv(config: Config)
    ensures Inv(Bootstrapped(config), [], config) && Kept(Bootstrapped(config), 0)
  {
    hide ApplyAll, AllGood;
    NothingReplayed();
  }
}
