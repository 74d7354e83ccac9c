/** Accepting blocks and headers, over whole runs. */
module ChainAccept {
  import opened Prelude
  import opened ChainTypes
  import opened ChainBlocks
  import opened ChainStore
  import opened ChainReorg
  import opened ChainSteps
  import opened ChainInvariant
  import opened ChainExtend
  import opened ChainSwitch
  import opened ChainPlan
  import opened ChainPrune
  import opened ChainWitness
  import opened ChainBlame

  /** A sound answer to a block: the invariant holds for the new chain; an error or a stored side
      block moves nothing; an extension appends the block; every move raises the tip's work. */
  ghost predicate Sound(state: State, chain: seq<Block>, config: Config, block: Block, r: Reply<Outcome>,
                        next: seq<Block>) {
    && Inv(r.state, next, config) && Keeps(state, r.state)
    && (ProvenState(state, chain, config) ==> ProvenState(r.state, next, config))
    && (if r.result.Failure? || r.result.value == StoredSideChain then next == chain && Unmoved(state, r.state)
        else r.state.tip.work > state.tip.work && (r.result.value == Extended ==> next == chain + [block]))
  }

  // ----- Reorganizing -----

  lemma PlanSound(state: State, chain: seq<Block>, config: Config, block: Block, record: Record, plan: Plan,
                  verify: Spend, commitOk: bool)
    returns (next: seq<Block>)
    requires Inv(state, chain, config) && record.work > state.tip.work
    requires PlanFits(state, config, plan, record) && MarkableAll(state, config, plan.bodies, IdOf(block.header))
    ensures Sound(state, chain, config, block, ApplyPlan(state, plan, IdOf(block.header), config, verify, commitOk),
                  next)
  {
    hide Inv, ApplyPlan, PlanFits, MarkableAll, Kept, ProvenState;
    next := chain;
    if ProvenState(state, chain, config) {
      ProvenPlan(state, chain, config, plan, record, IdOf(block.header), verify, commitOk);
    }
    if ApplyPlan(state, plan, IdOf(block.header), config, verify, commitOk).result.Success? {
      PlanSwitches(state, chain, config, plan, record, IdOf(block.header), verify, commitOk);
      next := chain[..plan.forkHeight] + BlocksOf(plan.bodies, |plan.bodies|);
    } else {
      PlanFails(state, chain, config, plan, record, IdOf(block.header), verify, commitOk);
    }
  }

  lemma RefusedSound(state: State, chain: seq<Block>, config: Config, block: Block)
    requires Inv(state, chain, config)
    ensures forall error :: Sound(state, chain, config, block, Reply(state, Failure(error)), chain)
  {
    hide Inv, Kept, ProvenState;
  }

  lemma ReindexSound(state: State, chain: seq<Block>, config: Config, block: Block)
    requires Inv(state, chain, config)
    ensures Sound(state, chain, config, block,
                  Reply(state.(store := state.store.(health := Some(ReindexRequired)), health := SessionReindex),
                        Failure(ReindexNeeded)), chain)
  {
    hide IndexOk, ActiveOk, BodiesOk, TipIsBest, LedgerOk, HeaderTipOk, Retained, Proven;
  }

  lemma ReorganizeSound(state: State, chain: seq<Block>, config: Config, block: Block, record: Record, verify: Spend,
                        commitOk: bool)
    returns (next: seq<Block>)
    requires Inv(state, chain, config) && record.header == block.header && record.work > state.tip.work
    requires Attachable(state.store.active, state.store.index, IdOf(config.anchorHeader), record)
    ensures Sound(state, chain, config, block, Reorganize(state, block, record, config, verify, commitOk), next)
  {
    hide Inv, ApplyPlan, DiscoverFork, LoadPlan, Attachable, PlanFits, MarkableAll, Sound;
    next := chain;
    var id := IdOf(block.header);
    var fork := DiscoverFork(state.store, id, record);
    RefusedSound(state, chain, config, block);
    ReindexSound(state, chain, config, block);
    if fork.Success? && fork.value.height <= state.tip.height && state.tip.height - fork.value.height <= REORG_WINDOW {
      var plan := LoadPlan(state.store, state.tip.height, fork.value, id, block);
      if plan.Success? {
        PlanIsFit(state, chain, config, block, record);
        next := PlanSound(state, chain, config, block, record, plan.value, verify, commitOk);
      }
    }
  }

  // ----- Placing a block -----

  lemma AttachableFacts(state: State, config: Config, record: Record)
    requires Attachable(state.store.active, state.store.index, IdOf(config.anchorHeader), record)
    ensures Follows(state.store.index, record) && IdOf(record.header) != IdOf(config.anchorHeader)
    ensures record.height !in state.store.active || state.store.active[record.height] != IdOf(record.header)
  {
  }

  lemma ExtendSound(state: State, chain: seq<Block>, config: Config, block: Block, record: Record, verify: Spend,
                    commitOk: bool)
    returns (next: seq<Block>)
    requires Inv(state, chain, config) && record.header == block.header && record.parent == state.tip.id
    requires Attachable(state.store.active, state.store.index, IdOf(config.anchorHeader), record)
    ensures Sound(state, chain, config, block,
                  Extend(state, block, record.height, record.work, config, verify, commitOk), next)
  {
    hide Inv, Attachable, Follows, Connect, ExtendedStore, ConnectDelta, Kept, ProvenState;
    AttachableFacts(state, config, record);
    if ProvenState(state, chain, config) {
      ProvenExtend(state, chain, config, block, record, verify, commitOk);
    }
    ExtendKeeps(state, chain, config, block, record, verify, commitOk);
    next := if Extend(state, block, record.height, record.work, config, verify, commitOk).result.Success?
        then chain + [block] else chain;
  }

  lemma SideSound(state: State, chain: seq<Block>, config: Config, block: Block, record: Record)
    requires Inv(state, chain, config) && record.header == block.header && record.work <= state.tip.work
    requires Attachable(state.store.active, state.store.index, IdOf(config.anchorHeader), record)
             && record.status != Invalid
    ensures Sound(state, chain, config, block,
                  Reply(state.(store := WithIndex(state.store,
                                                  record).(blocks := state.store.blocks[IdOf(block.header) := block])),
                                                                     Success(StoredSideChain)), chain)
  {
    hide Inv, Attachable, Follows, Kept, ProvenState;
    AttachableFacts(state, config, record);
    SideBlockKeeps(state, chain, config, block, record);
    if ProvenState(state, chain, config) {
      ProvenSide(state, chain, config, block, record);
    }
  }

  lemma KeptAttachable(state: State, config: Config, record: Record)
    requires Attachable(state.store.active, state.store.index, IdOf(config.anchorHeader), record)
    ensures Attachable(state.store.active, state.store.index, IdOf(config.anchorHeader), record.(bodyRetained := true))
  {
  }

  /** A block with its record extends the tip, wins a reorganization, or is stored beside. */
  lemma PlaceSound(state: State, chain: seq<Block>, config: Config, block: Block, record: Record, verify: Spend,
                   commitOk: bool)
    returns (next: seq<Block>)
    requires Inv(state, chain, config) && record.header == block.header && record.status == HeaderValidated
    requires Attachable(state.store.active, state.store.index, IdOf(config.anchorHeader), record)
    ensures Sound(state, chain, config, block, Place(state, block, record, config, verify, commitOk), next)
  {
    hide Inv, Attachable, Extend, Reorganize, Sound, WithIndex;
    next := chain;
    KeptAttachable(state, config, record);
    RefusedSound(state, chain, config, block);
    if record.parent == state.tip.id {
      next := ExtendSound(state, chain, config, block, record, verify, commitOk);
    } else if record.work > state.tip.work {
      next := ReorganizeSound(state, chain, config, block, record.(bodyRetained := true), verify, commitOk);
    } else {
      SideSound(state, chain, config, block, record.(bodyRetained := true));
    }
  }

  lemma KnownAttachable(state: State, chain: seq<Block>, config: Config, id: BlockId)
    requires Inv(state, chain, config) && id in state.store.index && state.store.index[id].status == HeaderValidated
    ensures Attachable(state.store.active, state.store.index, IdOf(config.anchorHeader), state.store.index[id])
    ensures IdOf(state.store.index[id].header) == id
  {
    hide Follows, LedgerOk, BodiesOk, TipIsBest, HeaderTipOk;
  }

  lemma NewAttachable(state: State, chain: seq<Block>, config: Config, header: Header)
    requires Inv(state, chain, config) && IdOf(header) !in state.store.index
    requires ValidateHeader(state.store, header, config).Success?
    ensures var record := ValidateHeader(state.store, header, config).value;
            && record.header == header && record.status == HeaderValidated
            && Attachable(state.store.active, state.store.index, IdOf(config.anchorHeader), record)
  {
    hide ValidateHeader, IndexOk, LedgerOk, BodiesOk, TipIsBest, HeaderTipOk, ActiveOk;
    ValidatedFollows(state.store, header, config);
    hide Follows;
    var record := ValidateHeader(state.store, header, config).value;
    NotActive(state.store.active, state.store.index, state.store.tip, state.tip, IdOf(config.anchorHeader),
              record.height, IdOf(header));
  }

  // ----- Accepting -----

  /** Every answer to a block is sound; a block that is already known changes nothing. */
  lemma HealthyBlockSound(state: State, chain: seq<Block>, config: Config, block: Block, verify: Spend, commitOk: bool)
    returns (next: seq<Block>)
    requires Inv(state, chain, config)
    ensures var r := AcceptHealthyBlock(state, block, config, verify, commitOk);
            Sound(state, chain, config, block, r, next) || (r.state == state && next == chain)
  {
    hide Inv, Place, Attachable, ValidateHeader, Sound;
    next := chain;
    var id := IdOf(block.header);
    RefusedSound(state, chain, config, block);
    if id in state.store.index {
      var existing := state.store.index[id];
      if existing.status == HeaderValidated && !existing.bodyRetained && existing.header == block.header {
        KnownAttachable(state, chain, config, id);
        next := PlaceSound(state, chain, config, block, existing, verify, commitOk);
      }
    } else if ValidateHeader(state.store, block.header, config).Success? {
      NewAttachable(state, chain, config, block.header);
      next := PlaceSound(state, chain, config, block, ValidateHeader(state.store, block.header, config).value, verify,
                         commitOk);
    }
  }

  /** One step of the session: the invariant holds again; an error moves nothing; the tip changes
      only to one with more work; a faulted session changes nothing. */
  ghost predicate StepOk(state: State, chain: seq<Block>, after: State, failed: bool, next: seq<Block>,
                         config: Config) {
    && Inv(after, next, config) && Keeps(state, after)
    && (ProvenState(state, chain, config) ==> ProvenState(after, next, config))
    && (failed ==> Unmoved(state, after))
    && ((next == chain && Still(state, after)) || after.tip.work > state.tip.work)
    && (state.health != SessionHealthy ==> after == state)
  }

  lemma HealthDoesNotMatter(state: State, chain: seq<Block>, config: Config, health: SessionHealth)
    ensures Inv(state, chain, config) ==> Inv(state.(health := health), chain, config)
  {
    hide IndexOk, ActiveOk, BodiesOk, TipIsBest, LedgerOk, HeaderTipOk;
  }

  lemma AcceptBlockOk(state: State, chain: seq<Block>, config: Config, block: Block, verify: Spend, commitOk: bool)
    returns (next: seq<Block>)
    requires Inv(state, chain, config)
    ensures var r := AcceptBlock(state, block, config, verify, commitOk);
            StepOk(state, chain, r.state, r.result.Failure?, next, config)
  {
    hide Inv, AcceptHealthyBlock, Retained, Proven;
    next := chain;
    if state.health == SessionHealthy {
      next := HealthyBlockSound(state, chain, config, block, verify, commitOk);
      var r := AcceptHealthyBlock(state, block, config, verify, commitOk);
      HealthDoesNotMatter(r.state, next, config, SessionFaulted);
    }
  }

  lemma AcceptHeaderOk(state: State, chain: seq<Block>, config: Config, header: Header, commitOk: bool)
    requires Inv(state, chain, config)
    ensures var r := AcceptHeader(state, header, config, commitOk);
            StepOk(state, chain, r.state, r.result.Failure?, chain, config)
  {
    hide Inv, AcceptHealthyHeader, Retained, Proven;
    if state.health == SessionHealthy {
      HeaderKeeps(state, chain, config, header, commitOk);
      if ProvenState(state, chain, config) {
        ProvenHeader(state, chain, config, header, commitOk);
      }
      var r := AcceptHealthyHeader(state, header, config, commitOk);
      HealthDoesNotMatter(r.state, chain, config, SessionFaulted);
    }
  }

  // ----- Pruning -----

  ghost predicate PruneHappens(state: State, commitOk: bool) {
    state.health == SessionHealthy && Prunable(state.store, state.tip.height) && commitOk
  }

  /** The state after a prune; one that cannot be planned or written changes nothing and does not
      close the session. */
  ghost function Prune(state: State, commitOk: bool): State {
    if PruneHappens(state, commitOk) then state.(store := Pruned(state.store, state.tip.height)) else state
  }

  lemma PruneMarks(state: State, chain: seq<Block>, config: Config, mark: nat)
    requires Inv(state, chain, config) && Kept(state, mark)
    ensures Kept(state.(store := Pruned(state.store, state.tip.height)), Max(mark, SafeCursor(state.tip.height)))
  {
    hide IndexOk, ActiveOk, BodiesOk, TipIsBest, HeaderTipOk, LedgerOk, Retained, BodiesDropped, UndosDropped,
         WithoutBodies;
    PruneRetains(state.store, state.tip, IdOf(config.anchorHeader), mark);
  }

  lemma ProvenPrune(state: State, chain: seq<Block>, config: Config)
    requires ProvenState(state, chain, config)
    ensures ProvenState(state.(store := Pruned(state.store, state.tip.height)), chain, config)
  {
    hide AllConnect, Blamed, BodiesDropped, UndosDropped;
  }
}
