/** When pruning works, and exactly what it leaves. */
module ChainRetention {
  import opened Prelude
  import opened ChainTypes
  import opened ChainStore
  import opened ChainReorg
  import opened ChainSteps
  import opened ChainInvariant
  import opened ChainBranch
  import opened ChainPrune

  // ----- Branches -----

  /** `ancestor` is `id` or an ancestor of it. */
  ghost predicate OnBranch(index: Index, id: BlockId, ancestor: BlockId) {
    exists path :: Lineage(index, path) && path[0] == id && path[|path| - 1] == ancestor
  }

  lemma OnBranchStep(index: Index, id: BlockId, ancestor: BlockId)
    requires id in index && (index[id].height > 0 ==> index[id].parent in index)
    ensures OnBranch(index, id, ancestor) <==>
              ancestor == id || (index[id].height > 0 && OnBranch(index, index[id].parent, ancestor))
  {
    assert Lineage(index, [id]);
    if OnBranch(index, id, ancestor) && ancestor != id {
      var path :| Lineage(index, path) && path[0] == id && path[|path| - 1] == ancestor;
      LineageBelow(index, path);
    }
    if index[id].height > 0 && OnBranch(index, index[id].parent, ancestor) {
      var path :| Lineage(index, path) && path[0] == index[id].parent && path[|path| - 1] == ancestor;
      LineageAbove(index, id, path);
      assert ([id] + path)[|path|] == ancestor;
    }
  }

  lemma IndexFacts(s: Store, anchor: BlockId, id: BlockId)
    requires IndexOk(s.index, anchor) && id in s.index
    ensures IdentityOk(id, s.index[id])
    ensures s.index[id].height == 0 <==> id == anchor
    ensures id != anchor ==>
              && s.index[id].parent in s.index
                 && s.index[id].height == s.index[s.index[id].parent].height + 1 <= U64_MAX
              && WorkFollows(s.index[s.index[id].parent], s.index[id])
  {
    hide WorkFollows;
    if id != anchor {
      assert Follows(s.index, s.index[id]);
    }
  }

  lemma ActiveFacts(s: Store, tip: Tip, anchor: BlockId, h: nat)
    requires ActiveOk(s.active, s.index, s.tip, tip, anchor) && h in s.active
    ensures s.active[h] in s.index && s.index[s.active[h]].height == h && s.index[s.active[h]].status == FullyValidated
    ensures h > 0 ==> h - 1 in s.active && s.index[s.active[h]].parent == s.active[h - 1]
  {
  }

  lemma {:induction false} ActiveIsClean(s: Store, tip: Tip, anchor: BlockId, h: nat)
    requires IndexOk(s.index, anchor) && ActiveOk(s.active, s.index, s.tip, tip, anchor) && h in s.active
    ensures Untainted(s.index, s.active[h])
  {
    hide IndexOk, ActiveOk, Untainted;
    ActiveFacts(s, tip, anchor, h);
    if h > 0 {
      ActiveFacts(s, tip, anchor, h - 1);
      ActiveIsClean(s, tip, anchor, h - 1);
    }
    UntaintedStep(s.index, s.active[h]);
  }

  lemma AnchorIsActive(s: Store, tip: Tip, anchor: BlockId)
    requires ActiveOk(s.active, s.index, s.tip, tip, anchor)
    ensures ActiveAt(s, 0, anchor)
  {
  }

  /** The walk to the active chain succeeds if and only if it meets no invalid block. */
  lemma {:induction false} DiscoverDecides(s: Store, tip: Tip, anchor: BlockId, id: BlockId)
    requires IndexOk(s.index, anchor) && ActiveOk(s.active, s.index, s.tip, tip, anchor) && id in s.index
    ensures DiscoverFork(s, id, s.index[id]).Success? <==> Untainted(s.index, id)
    ensures DiscoverFork(s, id, s.index[id]).Failure? ==> DiscoverFork(s, id, s.index[id]).error == CorruptState
    decreases s.index[id].height
  {
    hide IndexOk, ActiveOk, Untainted, WorkFollows;
    var record := s.index[id];
    IndexFacts(s, anchor, id);
    if ActiveAt(s, record.height, id) {
      ActiveIsClean(s, tip, anchor, record.height);
    } else {
      AnchorIsActive(s, tip, anchor);
      IndexFacts(s, anchor, record.parent);
      UntaintedStep(s.index, id);
      UntaintedStep(s.index, record.parent) by {
        if s.index[record.parent].height > 0 {
          IndexFacts(s, anchor, record.parent);
        }
      }
      DiscoverDecides(s, tip, anchor, record.parent);
    }
  }

  lemma {:induction false} ActiveBranches(s: Store, tip: Tip, anchor: BlockId, k: nat, h: nat)
    requires IndexOk(s.index, anchor) && ActiveOk(s.active, s.index, s.tip, tip, anchor) && k in s.active
             && h in s.active
    ensures OnBranch(s.index, s.active[k], s.active[h]) <==> h <= k
    decreases k
  {
    hide IndexOk, ActiveOk, OnBranch;
    ActiveFacts(s, tip, anchor, k);
    ActiveFacts(s, tip, anchor, h);
    if k > 0 {
      ActiveFacts(s, tip, anchor, k - 1);
      ActiveBranches(s, tip, anchor, k - 1, h);
    }
    OnBranchStep(s.index, s.active[k], s.active[h]);
  }

  /** The fork is the highest active block on the branch. */
  lemma {:induction false} ForkIsTop(s: Store, tip: Tip, anchor: BlockId, id: BlockId, h: nat)
    requires IndexOk(s.index, anchor) && ActiveOk(s.active, s.index, s.tip, tip, anchor) && id in s.index
             && h in s.active
    requires Discover(s, id, s.index[id]).Success?
    ensures OnBranch(s.index, id, s.active[h]) <==> h <= Discover(s, id, s.index[id]).value.height
    ensures Discover(s, id, s.index[id]).value.height in s.active
    decreases s.index[id].height
  {
    hide IndexOk, ActiveOk, OnBranch, WorkFollows;
    var record := s.index[id];
    IndexFacts(s, anchor, id);
    ActiveFacts(s, tip, anchor, h);
    if ActiveAt(s, record.height, id) {
      ActiveBranches(s, tip, anchor, record.height, h);
    } else {
      AnchorIsActive(s, tip, anchor);
      OnBranchStep(s.index, id, s.active[h]);
      ForkIsTop(s, tip, anchor, record.parent, h);
    }
  }

  // ----- When pruning works -----

  /** Every block with a body that is recent and not itself invalid stands on no invalid block. */
  ghost predicate Plannable(s: Store, tipHeight: nat) {
    forall id | id in s.index && s.index[id].bodyRetained && s.index[id].status != Invalid
                && s.index[id].height + 8_064 > tipHeight :: Untainted(s.index, id)
  }

  lemma AnchorHasNoBody(s: Store, anchor: BlockId)
    requires IndexOk(s.index, anchor)
    ensures !s.index[anchor].bodyRetained
  {
  }

  lemma VerdictExists(state: State, chain: seq<Block>, config: Config, mark: nat, id: BlockId)
    requires Inv(state, chain, config) && Kept(state, mark)
    requires id in state.store.index && state.store.index[id].bodyRetained
    ensures Judge(state.store, state.tip.height, id).Success? <==>
              (state.store.index[id].status != Invalid && state.store.index[id].height + 8_064 > state.tip.height ==>
                 Untainted(state.store.index, id))
  {
    hide IndexOk, ActiveOk, TipIsBest, HeaderTipOk, LedgerOk, MetaOk, Untainted, DiscoverFork;
    var s, anchor := state.store, IdOf(config.anchorHeader);
    IndexFacts(s, anchor, id);
    DiscoverDecides(s, state.tip, anchor, id);
    if ActiveAt(s, s.index[id].height, id) {
      ActiveFacts(s, state.tip, anchor, s.index[id].height);
      ActiveIsClean(s, state.tip, anchor, s.index[id].height);
      AnchorHasNoBody(s, anchor);
    }
  }

  /** A prune can be planned if and only if no recent body stands on an invalid block. */
  lemma PrunableIff(state: State, chain: seq<Block>, config: Config, mark: nat)
    requires Inv(state, chain, config) && Kept(state, mark)
    ensures Prunable(state.store, state.tip.height) <==> Plannable(state.store, state.tip.height)
  {
    hide Inv, Kept, Judge, Untainted;
    forall id | id in state.store.index && state.store.index[id].bodyRetained
      ensures Judge(state.store, state.tip.height, id).Success? <==>
                (state.store.index[id].status != Invalid && state.store.index[id].height + 8_064 > state.tip.height ==>
                   Untainted(state.store.index, id))
    {
      VerdictExists(state, chain, config, mark, id);
    }
  }

  // ----- What pruning leaves -----

  /** The branch leaves the active chain at most 8064 blocks below the tip. */
  ghost predicate NearFork(s: Store, tipHeight: nat, id: BlockId) {
    exists h: nat :: h in s.active && h + 8_064 >= tipHeight && OnBranch(s.index, id, s.active[h])
  }

  ghost predicate BodyStays(s: Store, tipHeight: nat, id: BlockId)
    requires id in s.index
  {
    && s.index[id].status != Invalid && s.index[id].height + 8_064 > tipHeight
    && NearFork(s, tipHeight, id)
  }

  lemma ActiveBelowTip(s: Store, tip: Tip, anchor: BlockId, h: nat)
    requires ActiveOk(s.active, s.index, s.tip, tip, anchor) && h in s.active
    ensures h <= tip.height
  {
  }

  lemma NearMeans(s: Store, tip: Tip, anchor: BlockId, id: BlockId)
    requires IndexOk(s.index, anchor) && ActiveOk(s.active, s.index, s.tip, tip, anchor) && id in s.index
    requires Discover(s, id, s.index[id]).Success?
    ensures var fork := Discover(s, id, s.index[id]).value;
            fork.height <= tip.height && (NearFork(s, tip.height, id) <==> fork.height + 8_064 >= tip.height)
  {
    hide IndexOk, ActiveOk, OnBranch, Discover;
    var fork := Discover(s, id, s.index[id]).value;
    forall h: nat | h in s.active
      ensures OnBranch(s.index, id, s.active[h]) <==> h <= fork.height
    {
      ForkIsTop(s, tip, anchor, id, h);
    }
    AnchorIsActive(s, tip, anchor);
    ForkIsTop(s, tip, anchor, id, 0);
    ActiveBelowTip(s, tip, anchor, fork.height);
  }

  lemma HereIsNear(s: Store, tip: Tip, anchor: BlockId, id: BlockId)
    requires IndexOk(s.index, anchor) && ActiveOk(s.active, s.index, s.tip, tip, anchor) && id in s.index
    requires ActiveAt(s, s.index[id].height, id) && s.index[id].height + 8_064 > tip.height
    ensures NearFork(s, tip.height, id)
  {
    hide IndexOk, ActiveOk, OnBranch;
    IndexFacts(s, anchor, id);
    OnBranchStep(s.index, id, id);
    assert s.active[s.index[id].height] == id;
  }

  /** The verdict on a block: its body goes unless it stays, its undo goes unless the block is active and
      recent. */
  lemma VerdictIs(state: State, chain: seq<Block>, config: Config, id: BlockId)
    requires Inv(state, chain, config) && id in state.store.index && Judge(state.store, state.tip.height, id).Success?
    ensures var s, v := state.store, Judge(state.store, state.tip.height, id).value;
            && (v.dropBody <==> !BodyStays(s, state.tip.height, id))
            && (v.dropUndo <==>
                  id in s.undos
                  && !(ActiveAt(s, s.index[id].height, id) && s.index[id].height + 8_064 > state.tip.height))
  {
    hide IndexOk, ActiveOk, BodiesOk, TipIsBest, HeaderTipOk, LedgerOk, MetaOk, NearFork, Discover;
    var s, anchor, record := state.store, IdOf(config.anchorHeader), state.store.index[id];
    IndexFacts(s, anchor, id);
    if ActiveAt(s, record.height, id) {
      ActiveBelowTip(s, state.tip, anchor, record.height);
      if record.height + 8_064 > state.tip.height {
        HereIsNear(s, state.tip, anchor, id);
      }
    } else if record.status != Invalid && record.height + 8_064 > state.tip.height {
      NearMeans(s, state.tip, anchor, id);
    }
  }

  lemma DroppedBodies(s: Store, tipHeight: nat, id: BlockId)
    requires id in s.index && (s.index[id].bodyRetained ==> Judge(s, tipHeight, id).Success?)
    ensures var p := Pruned(s, tipHeight);
            && id in p.index && p.index[id] == s.index[id].(bodyRetained := p.index[id].bodyRetained)
            && (p.index[id].bodyRetained <==> s.index[id].bodyRetained && !Judge(s, tipHeight, id).value.dropBody)
            && (id in p.blocks <==>
                  id in s.blocks && !(s.index[id].bodyRetained && Judge(s, tipHeight, id).value.dropBody))
            && (id in p.undos <==>
                  && id in s.undos
                  && !(s.index[id].bodyRetained && Judge(s, tipHeight, id).value.dropUndo))
  {
    hide Judge;
  }

  /** What a prune leaves, exactly: a block keeps its body if it is not invalid, at most 8063 blocks below
      the tip, and its branch left the active chain at most 8064 blocks below the tip; a judged block
      keeps its undo if it is active and that recent; the rest of every record stays. */
  lemma PruneLeaves(state: State, chain: seq<Block>, config: Config, id: BlockId)
    requires Inv(state, chain, config) && Prunable(state.store, state.tip.height) && id in state.store.index
    ensures var s, p := state.store, Pruned(state.store, state.tip.height);
            var recent := s.index[id].height + 8_064 > state.tip.height;
            && id in p.index && p.index[id] == s.index[id].(bodyRetained := p.index[id].bodyRetained)
            && (p.index[id].bodyRetained <==> s.index[id].bodyRetained && BodyStays(s, state.tip.height, id))
            && (id in p.blocks <==>
                  id in s.blocks && (s.index[id].bodyRetained ==> BodyStays(s, state.tip.height, id)))
            && (id in p.undos <==>
                  id in s.undos && (s.index[id].bodyRetained ==> ActiveAt(s, s.index[id].height, id) && recent))
  {
    hide Inv, Judge, BodyStays, Pruned;
    DroppedBodies(state.store, state.tip.height, id);
    if state.store.index[id].bodyRetained {
      VerdictIs(state, chain, config, id);
    }
  }
}
