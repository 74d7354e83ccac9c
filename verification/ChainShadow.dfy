/** A pruned node beside one that never prunes: as long as no reorganization goes back below what was
    pruned, both have the same tips, active chain and ledger. */
module ChainShadow {
  import opened Prelude
  import opened ChainTypes
  import opened ChainBlocks
  import opened ChainStore
  import opened ChainReorg
  import opened ChainSteps
  import opened ChainInvariant
  import opened ChainExtend
  import opened ChainSwitch
  import opened ChainPlan
  import opened ChainPrune
  import opened ChainBranch

  // ----- Blocks above a block -----

  /** `m` is a proper ancestor of `id`. */
  ghost predicate High(index: Index, m: BlockId, id: BlockId) {
    exists path :: Lineage(index, path) && |path| >= 2 && path[0] == id && path[|path| - 1] == m
  }

  lemma HighChild(index: Index, m: BlockId, id: BlockId)
    requires id in index && index[id].height > 0 && index[id].parent in index
    requires index[id].parent == m || High(index, m, index[id].parent)
    ensures High(index, m, id)
  {
    var parent := index[id].parent;
    var path :| Lineage(index, path) && path[0] == parent && path[|path| - 1] == m by {
      if parent == m {
        assert Lineage(index, [m]);
      }
    }
    LineageAbove(index, id, path);
    var longer := [id] + path;
    assert longer[|longer| - 1] == m;
  }

  lemma HighParent(index: Index, m: BlockId, id: BlockId)
    requires High(index, m, id)
    ensures id in index && index[id].height > 0 && index[id].parent in index
    ensures index[id].parent == m || High(index, m, index[id].parent)
  {
    var path :| Lineage(index, path) && |path| >= 2 && path[0] == id && path[|path| - 1] == m;
    LineageBelow(index, path);
    var below := path[1..];
    assert below[|below| - 1] == m;
    assert path[1] in index;
  }

  /** In a consistent index heights rise by one from parent to child. */
  lemma ChildAbove(index: Index, anchor: BlockId, id: BlockId)
    requires IndexOk(index, anchor) && id in index && index[id].height > 0
    ensures index[id].parent in index && index[id].height == index[index[id].parent].height + 1
  {
    hide BlockWork;
    if id != anchor {
      assert Follows(index, index[id]);
    }
  }

  lemma {:induction false} HighIsHigher(index: Index, anchor: BlockId, m: BlockId, id: BlockId)
    requires IndexOk(index, anchor) && m in index && High(index, m, id)
    ensures id in index && index[id].height > index[m].height
    decreases if id in index then index[id].height else 0
  {
    hide IndexOk, High;
    HighParent(index, m, id);
    ChildAbove(index, anchor, id);
    if index[id].parent != m {
      HighIsHigher(index, anchor, m, index[id].parent);
    }
  }

  /** What was above a block of the old index is above it in one that only grew. */
  lemma {:induction false} HighBefore(index: Index, next: Index, anchor: BlockId, m: BlockId, id: BlockId)
    requires IndexOk(index, anchor) && SameShape(index, next) && id in index && High(next, m, id)
    ensures High(index, m, id)
    decreases index[id].height
  {
    hide IndexOk, High;
    HighParent(next, m, id);
    ChildAbove(index, anchor, id);
    if index[id].parent != m {
      HighBefore(index, next, anchor, m, index[id].parent);
    }
    HighChild(index, m, id);
  }

  lemma {:induction false} HighTransitive(index: Index, anchor: BlockId, a: BlockId, b: BlockId, id: BlockId)
    requires IndexOk(index, anchor) && High(index, b, id) && (a == b || High(index, a, b))
    ensures High(index, a, id)
    decreases if id in index then index[id].height else 0
  {
    hide IndexOk, High;
    HighParent(index, b, id);
    ChildAbove(index, anchor, id);
    if index[id].parent != b {
      HighTransitive(index, anchor, a, b, index[id].parent);
    }
    if a != b {
      HighChild(index, a, id);
    }
  }

  lemma {:induction false} ActiveIsHigh(active: Active, index: Index, stored: Option<Point>, tip: Tip, anchor: BlockId,
                                        a: nat, b: nat)
    requires IndexOk(index, anchor) && ActiveOk(active, index, stored, tip, anchor) && a < b && b in active
             && a in active
    ensures High(index, active[a], active[b])
  {
    hide IndexOk, High;
    assert index[active[b]].parent == active[b - 1] && active[b - 1] in index;
    if a < b - 1 {
      ActiveIsHigh(active, index, stored, tip, anchor, a, b - 1);
    }
    HighChild(index, active[a], active[b]);
  }

  // ----- The relation -----

  type Blocks = map<BlockId, Block>

  /** The second index is the first with some bodies gone. */
  ghost predicate Thinned(a: Index, b: Index) {
    SameTree(a, b) && forall id | id in a && id in b && b[id].bodyRetained :: a[id].bodyRetained
  }

  ghost predicate SameBody(id: BlockId, a: Blocks, b: Blocks) {
    id in a && id in b && a[id] == b[id]
  }

  /** Above `m`, what is not invalid has the same record and the same body. */
  ghost predicate SameHigh(m: BlockId, a: Index, b: Index, ablocks: Blocks, bblocks: Blocks) {
    forall id | High(a, m, id) && id in a && id in b && a[id].status != Invalid ::
      b[id] == a[id] && (a[id].bodyRetained ==> SameBody(id, ablocks, bblocks))
  }

  ghost predicate SameUndos(active: Active, mark: nat, a: Undos, b: Undos) {
    forall h | h in active && h > mark :: active[h] in a && active[h] in b && a[active[h]] == b[active[h]]
  }

  ghost predicate SameFace(u: State, p: State) {
    && p == State(p.store, u.tip, u.headerTip, u.utxos, u.health)
    && p.store == u.store.(blocks := p.store.blocks, index := p.store.index, undos := p.store.undos,
                           pruneCursor := p.store.pruneCursor)
  }

  /** `p` is `u` with data at and below the height `mark` missing. */
  ghost predicate Shadow(u: State, p: State, mark: nat) {
    && SameFace(u, p) && Thinned(u.store.index, p.store.index) && mark in u.store.active
    && SameHigh(u.store.active[mark], u.store.index, p.store.index, u.store.blocks, p.store.blocks)
    && SameUndos(u.store.active, mark, u.store.undos, p.store.undos)
  }

  // ----- Storing the same record on both sides -----

  lemma ThinnedPut(a: Index, b: Index, record: Record)
    requires Thinned(a, b)
    ensures Thinned(a[IdOf(record.header) := record], b[IdOf(record.header) := record])
  {
  }

  lemma SameHighPut(m: BlockId, anchor: BlockId, a: Index, b: Index, ablocks: Blocks, bblocks: Blocks, record: Record,
                    ablocks': Blocks, bblocks': Blocks)
    requires IndexOk(a, anchor) && Follows(a, record) && IdOf(record.header) != anchor
    requires Thinned(a, b) && SameHigh(m, a, b, ablocks, bblocks)
    requires forall x | x != IdOf(record.header) && SameBody(x, ablocks, bblocks) :: SameBody(x, ablocks', bblocks')
    requires record.status != Invalid && record.bodyRetained ==> SameBody(IdOf(record.header), ablocks', bblocks')
    ensures SameHigh(m, a[IdOf(record.header) := record], b[IdOf(record.header) := record], ablocks', bblocks')
  {
    hide IndexOk, Follows, SameShape, High, SameBody;
    PutRecord(a, anchor, record);
    var id := IdOf(record.header);
    var next := a[id := record];
    forall x | High(next, m, x) && x in a && x != id
      ensures High(a, m, x)
    {
      HighBefore(a, next, anchor, m, x);
    }
  }

  /** Two stores with the same active chain, and the same data where it matters. */
  ghost predicate Twin(m: BlockId, mark: nat, us: Store, ps: Store) {
    && us.active == ps.active && Thinned(us.index, ps.index)
    && SameHigh(m, us.index, ps.index, us.blocks, ps.blocks) && SameUndos(us.active, mark, us.undos, ps.undos)
  }

  lemma TwinOf(u: State, p: State, mark: nat)
    requires Shadow(u, p, mark)
    ensures Twin(u.store.active[mark], mark, u.store, p.store)
  {
    hide Thinned, SameHigh, SameUndos;
  }

  /** The next body of a branch, stored on both sides. */
  lemma TwinBody(m: BlockId, mark: nat, anchor: BlockId, us: Store, ps: Store, body: Body, undo: BlockUndo)
    requires Twin(m, mark, us, ps) && IndexOk(us.index, anchor) && Follows(us.index, body.record)
    requires body.id == IdOf(body.block.header) == IdOf(body.record.header) != anchor
    ensures Twin(m, mark, WithBody(us, body, undo), WithBody(ps, body, undo))
  {
    hide IndexOk, SameHigh, Thinned;
    var full := body.record.(status := FullyValidated, bodyRetained := true);
    FullFollows(us.index, body.record, full);
    hide Follows;
    ThinnedPut(us.index, ps.index, full);
    SameHighPut(m, anchor, us.index, ps.index, us.blocks, ps.blocks, full, us.blocks[body.id := body.block],
                ps.blocks[body.id := body.block]);
  }

  lemma IndexOnTheWay(s: Store, next: Store, anchor: BlockId, tip: Tip, work: nat, staged: Staged, chain: seq<Block>)
    requires OnTheWay(s, next, anchor, tip, work, staged, chain)
    ensures IndexOk(next.index, anchor)
  {
    hide IndexOk, ActiveOk, BodiesOk, TipIsBest, LedgerOk, Patched, SameShape, Retained;
  }

  /** The whole branch, stored on both sides. */
  lemma {:induction false} TwinBranch(m: BlockId, mark: nat, s: Store, cut: Store, other: Store, anchor: BlockId,
                                      start: Tip, work: nat, staged: Staged, chain: seq<Block>, bodies: seq<Body>,
                                          w: Winding, k: nat, rules: Rules, verify: Spend)
    requires OnTheWay(s, cut, anchor, start, work, staged, chain) && k <= |bodies|
    requires forall i | 0 <= i < |bodies| :: BodyFits(s.index, anchor, start, work, bodies, i)
    requires w == Wind(staged, bodies, |bodies|, rules, verify) && w.Wound?
    requires Twin(m, mark, cut, other)
    ensures Twin(m, mark, PutBodies(cut, bodies, w.undos, k), PutBodies(other, bodies, w.undos, k))
  {
    hide Twin, OnTheWay, Wind, WithBody, Follows, BlockWork;
    if k > 0 {
      TwinBranch(m, mark, s, cut, other, anchor, start, work, staged, chain, bodies, w, k - 1, rules, verify);
      WindPrefix(staged, bodies, k - 1, |bodies|, rules, verify);
      var before := Wind(staged, bodies, k - 1, rules, verify);
      WindAll(s, cut, anchor, start, work, staged, chain, bodies, k - 1, rules, verify);
      PutBodiesPrefix(cut, bodies, w.undos, before.undos, k - 1);
      var us, ps := PutBodies(cut, bodies, w.undos, k - 1), PutBodies(other, bodies, w.undos, k - 1);
      assert BodyFits(s.index, anchor, start, work, bodies, k - 1);
      var tip, sofar := TipAt(start, bodies, k - 1), chain + BlocksOf(bodies, k - 1);
      FollowsOnTheWay(s, us, anchor, tip, work, before.staged, sofar, bodies[k - 1].record);
      IndexOnTheWay(s, us, anchor, tip, work, before.staged, sofar);
      TwinBody(m, mark, anchor, us, ps, bodies[k - 1], w.undos[k - 1]);
    }
  }
}
