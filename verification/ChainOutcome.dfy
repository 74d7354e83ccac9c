/** What becomes of a block whose body is wanted, told by the blocks and the chain alone. */
module ChainOutcome {
  import opened Prelude
  import opened ChainTypes
  import opened ChainBlocks
  import opened ChainHistory
  import opened ChainStore
  import opened ChainReorg
  import opened ChainSteps
  import opened ChainInvariant
  import opened ChainExtend
  import opened ChainSwitch
  import opened ChainPlan
  import opened ChainWitness
  import opened ChainBlame
  import opened ChainAccept
  import opened ChainBranch
  import opened ChainRetention

  // ----- Branches of blocks -----

  /** The blocks from the one above height `fork` up to the candidate. */
  datatype Rival = Rival(fork: nat, blocks: seq<Block>)

  /** Each block names the one before it, and the first names the active block at the fork. */
  ghost predicate Linked(s: Store, rival: Rival) {
    && rival.fork in s.active && rival.blocks != []
    && forall i | 0 <= i < |rival.blocks| ::
         rival.blocks[i].header.previous
         == if i == 0 then s.active[rival.fork] else IdOf(rival.blocks[i - 1].header)
  }

  /** The blocks below the candidate are stored with their bodies, are not invalid and are not active. */
  ghost predicate StoredBelow(s: Store, rival: Rival) {
    forall i | 0 <= i < |rival.blocks| - 1 ::
      var id := IdOf(rival.blocks[i].header);
      && id in s.index && s.index[id].status != Invalid && s.index[id].bodyRetained
      && id in s.blocks && s.blocks[id] == rival.blocks[i]
      && forall h | h in s.active :: s.active[h] != id
  }

  ghost predicate Rivals(state: State, rival: Rival, block: Block) {
    && Linked(state.store, rival) && StoredBelow(state.store, rival)
    && rival.blocks[|rival.blocks| - 1] == block && rival.fork <= state.tip.height
  }

  /** The fork is within the window, and the active blocks above it can be undone. */
  ghost predicate Competes(state: State, rival: Rival, block: Block) {
    && Rivals(state, rival, block) && state.tip.height <= rival.fork + REORG_WINDOW
    && forall h | rival.fork < h <= state.tip.height && h in state.store.active ::
         state.store.active[h] in state.store.undos
  }

  /** Each of the first `k` blocks connects on the chain up to the fork and the blocks before it. */
  ghost predicate RivalConnects(chain: seq<Block>, rival: Rival, k: nat, rules: Rules, verify: Spend)
    requires rival.fork <= |chain| && k <= |rival.blocks|
  {
    forall j | 0 <= j < k :: ConnectsWith(chain[..rival.fork] + rival.blocks[..j], rival.blocks[j], rules, verify)
  }

  // ----- Finding the fork -----

  ghost function RecordAt(s: Store, rival: Rival, record: Record, i: nat): Record
    requires i < |rival.blocks|
  {
    var id := IdOf(rival.blocks[i].header);
    if i == |rival.blocks| - 1 || id !in s.index then record else s.index[id]
  }

  ghost function NodesOf(s: Store, rival: Rival, record: Record, k: nat): seq<Node>
    requires k <= |rival.blocks|
  {
    if k == 0 then []
    else NodesOf(s, rival, record, k - 1) + [Node(IdOf(rival.blocks[k - 1].header), RecordAt(s, rival, record, k - 1))]
  }

  ghost predicate RecordOk(s: Store, anchor: BlockId, rival: Rival, record: Record, i: nat)
    requires i < |rival.blocks|
  {
    var id, r := IdOf(rival.blocks[i].header), RecordAt(s, rival, record, i);
    && Attachable(s.active, s.index, anchor, r) && r.header == rival.blocks[i].header && r.status != Invalid
    && (i < |rival.blocks| - 1 ==> id in s.index && s.index[id] == r)
  }

  lemma StoredAttaches(s: Store, tip: Tip, anchor: BlockId, id: BlockId)
    requires IndexOk(s.index, anchor) && ActiveOk(s.active, s.index, s.tip, tip, anchor)
    requires id in s.index && forall h | h in s.active :: s.active[h] != id
    ensures IdOf(s.index[id].header) == id && Attachable(s.active, s.index, anchor, s.index[id])
  {
    hide Follows;
    assert s.active[0] == anchor;
  }

  lemma StoredAt(s: Store, rival: Rival, i: nat)
    requires StoredBelow(s, rival) && i < |rival.blocks| - 1
    ensures var id := IdOf(rival.blocks[i].header);
            && id in s.index && s.index[id].status != Invalid
            && forall h | h in s.active :: s.active[h] != id
  {
  }

  lemma SameId(a: Header, b: Header)
    requires IdOf(a) == IdOf(b)
    ensures a == b
  {
  }

  lemma RecordsOk(state: State, chain: seq<Block>, config: Config, rival: Rival, block: Block, record: Record, i: nat)
    requires Inv(state, chain, config) && Rivals(state, rival, block) && i < |rival.blocks|
    requires Attachable(state.store.active, state.store.index, IdOf(config.anchorHeader), record)
    requires record.header == block.header && record.status != Invalid
    ensures RecordOk(state.store, IdOf(config.anchorHeader), rival, record, i)
  {
    hide IndexOk, ActiveOk, BodiesOk, TipIsBest, HeaderTipOk, LedgerOk, MetaOk, Linked, StoredBelow, Attachable;
    var s := state.store;
    if i < |rival.blocks| - 1 {
      StoredAt(s, rival, i);
      StoredAttaches(s, state.tip, IdOf(config.anchorHeader), IdOf(rival.blocks[i].header));
      SameId(s.index[IdOf(rival.blocks[i].header)].header, rival.blocks[i].header);
    }
  }

  lemma DiscoverActive(s: Store, tip: Tip, anchor: BlockId, k: nat)
    requires IndexOk(s.index, anchor) && ActiveOk(s.active, s.index, s.tip, tip, anchor) && k in s.active
    ensures s.active[k] in s.index && s.index[s.active[k]].height == k && s.index[s.active[k]].status != Invalid
    ensures Discover(s, s.active[k], s.index[s.active[k]]) == Success(Fork(k, []))
    ensures IdentityOk(s.active[k], s.index[s.active[k]])
  {
    hide WorkFollows;
  }

  lemma StepDown(s: Store, anchor: BlockId, id: BlockId, r: Record, parent: Record, fork: Fork)
    requires Attachable(s.active, s.index, anchor, r) && id == IdOf(r.header) && r.status != Invalid
    requires r.parent in s.index && s.index[r.parent] == parent && IdentityOk(r.parent, parent)
             && parent.status != Invalid
    requires Discover(s, r.parent, parent) == Success(fork)
    ensures Discover(s, id, r) == Success(Fork(fork.height, fork.path + [Node(id, r)]))
    ensures r.height == parent.height + 1
  {
    hide WorkFollows;
  }

  lemma AttachableParent(s: Store, anchor: BlockId, r: Record)
    requires Attachable(s.active, s.index, anchor, r)
    ensures r.parent == r.header.previous && r.parent in s.index
  {
    hide WorkFollows;
  }

  lemma AttachableIdentity(s: Store, anchor: BlockId, r: Record)
    requires Attachable(s.active, s.index, anchor, r)
    ensures IdentityOk(IdOf(r.header), r)
  {
    hide WorkFollows;
  }

  lemma RivalFacts(state: State, chain: seq<Block>, config: Config, rival: Rival, block: Block)
    requires Inv(state, chain, config) && Rivals(state, rival, block)
    ensures var s, anchor := state.store, IdOf(config.anchorHeader);
            && IndexOk(s.index, anchor) && ActiveOk(s.active, s.index, s.tip, state.tip, anchor)
            && rival.fork in s.active && |chain| == state.tip.height && rival.fork <= |chain|
    ensures rival.blocks != [] && rival.blocks[|rival.blocks| - 1] == block
    ensures Linked(state.store, rival)
  {
    hide IndexOk, ActiveOk, BodiesOk, TipIsBest, HeaderTipOk, MetaOk, ChainGood, StoredBelow;
  }

  lemma LinkAt(s: Store, rival: Rival, i: nat)
    requires Linked(s, rival) && i < |rival.blocks|
    ensures rival.blocks[i].header.previous == if i == 0 then s.active[rival.fork] else IdOf(rival.blocks[i - 1].header)
  {
  }

  /** The walk from a block of the branch ends at the fork and finds the blocks in between. */
  lemma {:induction false} DiscoverFinds(state: State, chain: seq<Block>, config: Config, rival: Rival, block: Block,
                                         record: Record, k: nat)
    requires Inv(state, chain, config) && Rivals(state, rival, block) && 0 < k <= |rival.blocks|
    requires Attachable(state.store.active, state.store.index, IdOf(config.anchorHeader), record)
    requires record.header == block.header && record.status != Invalid
    ensures var s := state.store;
            && Discover(s, IdOf(rival.blocks[k - 1].header), RecordAt(s, rival, record, k - 1))
               == Success(Fork(rival.fork, NodesOf(s, rival, record, k)))
            && RecordAt(s, rival, record, k - 1).height == rival.fork + k
  {
    hide Inv, Rivals, Attachable, Discover, IdentityOk, RecordAt, IndexOk, ActiveOk, Linked;
    var s, anchor := state.store, IdOf(config.anchorHeader);
    RivalFacts(state, chain, config, rival, block);
    LinkAt(s, rival, k - 1);
    RecordsOk(state, chain, config, rival, block, record, k - 1);
    var r := RecordAt(s, rival, record, k - 1);
    AttachableParent(s, anchor, r);
    if k == 1 {
      DiscoverActive(s, state.tip, anchor, rival.fork);
      StepDown(s, anchor, IdOf(rival.blocks[0].header), r, s.index[r.parent], Fork(rival.fork, []));
    } else {
      RecordsOk(state, chain, config, rival, block, record, k - 2);
      DiscoverFinds(state, chain, config, rival, block, record, k - 1);
      var below := RecordAt(s, rival, record, k - 2);
      AttachableIdentity(s, anchor, below);
      StepDown(s, anchor, IdOf(rival.blocks[k - 1].header), r, below,
               Fork(rival.fork, NodesOf(s, rival, record, k - 1)));
    }
  }

  // ----- Loading the plan -----

  lemma NodesLength(s: Store, rival: Rival, record: Record, k: nat)
    requires k <= |rival.blocks|
    ensures |NodesOf(s, rival, record, k)| == k
  {
  }

  lemma {:induction false} NodeAt(s: Store, rival: Rival, record: Record, k: nat, i: nat)
    requires i < k <= |rival.blocks|
    ensures |NodesOf(s, rival, record, k)| == k
    ensures NodesOf(s, rival, record, k)[i] == Node(IdOf(rival.blocks[i].header), RecordAt(s, rival, record, i))
  {
    NodesLength(s, rival, record, k - 1);
    if i < k - 1 {
      NodeAt(s, rival, record, k - 1, i);
    }
  }

  lemma {:induction false} UndosLoad(s: Store, low: nat, high: nat)
    requires low <= high && forall h | low < h <= high :: h in s.active && s.active[h] in s.undos
    ensures LoadUndos(s, low, high).Success?
    decreases high
  {
    if low < high {
      UndosLoad(s, low, high - 1);
    }
  }

  lemma CandidateRecord(s: Store, rival: Rival, record: Record)
    requires rival.blocks != []
    ensures RecordAt(s, rival, record, |rival.blocks| - 1) == record
  {
  }

  lemma SameHeader(s: Store, anchor: BlockId, a: Record, b: Record)
    requires Attachable(s.active, s.index, anchor, a) && Attachable(s.active, s.index, anchor, b)
    ensures IdOf(a.header) == IdOf(b.header) ==> a.height == b.height
  {
    hide WorkFollows;
  }

  /** No block of the branch below the candidate has its id: it would be lower. */
  lemma CandidateIsAbove(state: State, chain: seq<Block>, config: Config, rival: Rival, block: Block, record: Record,
                         i: nat)
    requires Inv(state, chain, config) && Rivals(state, rival, block) && i < |rival.blocks| - 1
    requires Attachable(state.store.active, state.store.index, IdOf(config.anchorHeader), record)
    requires record.header == block.header && record.status != Invalid
    ensures IdOf(rival.blocks[i].header) != IdOf(block.header)
  {
    hide Inv, Rivals, Attachable, Discover, NodesOf, IndexOk, ActiveOk, Linked, RecordAt;
    RivalFacts(state, chain, config, rival, block);
    DiscoverFinds(state, chain, config, rival, block, record, i + 1);
    DiscoverFinds(state, chain, config, rival, block, record, |rival.blocks|);
    RecordsOk(state, chain, config, rival, block, record, i);
    CandidateRecord(state.store, rival, record);
    SameHeader(state.store, IdOf(config.anchorHeader), record, RecordAt(state.store, rival, record, i));
  }

  lemma BodyLoads(state: State, chain: seq<Block>, config: Config, rival: Rival, block: Block, record: Record, i: nat)
    requires Inv(state, chain, config) && Rivals(state, rival, block) && i < |rival.blocks|
    requires Attachable(state.store.active, state.store.index, IdOf(config.anchorHeader), record)
    requires record.header == block.header && record.status != Invalid
    ensures var s := state.store;
            var id, r := IdOf(rival.blocks[i].header), RecordAt(s, rival, record, i);
            LoadBody(s, Node(id, r), IdOf(block.header), block) == Success(Body(id, r, rival.blocks[i]))
  {
    hide Inv, Attachable, Linked;
    RecordsOk(state, chain, config, rival, block, record, i);
    if i < |rival.blocks| - 1 && IdOf(rival.blocks[i].header) == IdOf(block.header) {
      CandidateIsAbove(state, chain, config, rival, block, record, i);
    }
  }

  /** The bodies that are loaded are the blocks of the branch. */
  ghost predicate BodiesAre(bodies: seq<Body>, blocks: seq<Block>) {
    |bodies| == |blocks| && forall i | 0 <= i < |bodies| :: bodies[i].block == blocks[i]
  }

  lemma {:induction false} BodiesLoad(state: State, chain: seq<Block>, config: Config, rival: Rival, block: Block,
                                      record: Record, k: nat)
    requires Inv(state, chain, config) && Rivals(state, rival, block) && k <= |rival.blocks|
    requires Attachable(state.store.active, state.store.index, IdOf(config.anchorHeader), record)
    requires record.header == block.header && record.status != Invalid
    ensures var bodies := LoadBodies(state.store, NodesOf(state.store, rival, record, k), IdOf(block.header), block);
            bodies.Success? && BodiesAre(bodies.value, rival.blocks[..k])
  {
    hide Inv, Attachable, Rivals, LoadBody, RecordAt;
    var s := state.store;
    if k > 0 {
      BodiesLoad(state, chain, config, rival, block, record, k - 1);
      BodyLoads(state, chain, config, rival, block, record, k - 1);
      var front := NodesOf(s, rival, record, k - 1);
      var path := NodesOf(s, rival, record, k);
      assert path[..|path| - 1] == front;
    }
  }

  lemma UndosReady(state: State, chain: seq<Block>, config: Config, rival: Rival, block: Block)
    requires Inv(state, chain, config) && Competes(state, rival, block)
    ensures forall h | rival.fork < h <= state.tip.height ::
              h in state.store.active && state.store.active[h] in state.store.undos
  {
    hide IndexOk, BodiesOk, TipIsBest, HeaderTipOk, LedgerOk, MetaOk, Linked, StoredBelow;
  }

  lemma PlanLoads(state: State, chain: seq<Block>, config: Config, rival: Rival, block: Block, record: Record)
    requires Inv(state, chain, config) && Competes(state, rival, block)
    requires Attachable(state.store.active, state.store.index, IdOf(config.anchorHeader), record)
    requires record.header == block.header && record.status != Invalid
    ensures var fork := DiscoverFork(state.store, IdOf(block.header), record);
            && fork.Success? && fork.value.height == rival.fork
            && var plan := LoadPlan(state.store, state.tip.height, fork.value, IdOf(block.header), block);
               plan.Success? && plan.value.forkHeight == rival.fork && BodiesAre(plan.value.bodies, rival.blocks)
  {
    hide Inv, Attachable, Rivals, Discover, LoadUndos, LoadBodies, NodesOf, RecordAt, IndexOk, ActiveOk, BodiesAre;
    var s, n := state.store, |rival.blocks|;
    RivalFacts(state, chain, config, rival, block);
    CandidateRecord(s, rival, record);
    AttachableIdentity(s, IdOf(config.anchorHeader), record);
    DiscoverFinds(state, chain, config, rival, block, record, n);
    BodiesLoad(state, chain, config, rival, block, record, n);
    assert rival.blocks[..n] == rival.blocks;
    UndosReady(state, chain, config, rival, block);
    UndosLoad(s, rival.fork, state.tip.height);
  }

  // ----- A heavier branch -----

  lemma {:induction false} BlocksAre(bodies: seq<Body>, blocks: seq<Block>, k: nat)
    requires BodiesAre(bodies, blocks) && k <= |bodies|
    ensures BlocksOf(bodies, k) == blocks[..k]
  {
    if k > 0 {
      BlocksAre(bodies, blocks, k - 1);
      assert blocks[..k] == blocks[..k - 1] + [blocks[k - 1]];
    }
  }

  lemma BelowIs(chain: seq<Block>, plan: Plan, rival: Rival, k: nat)
    requires BodiesAre(plan.bodies, rival.blocks) && plan.forkHeight == rival.fork <= |chain| && k <= |plan.bodies|
    ensures Below(chain, plan, k) == chain[..rival.fork] + rival.blocks[..k]
  {
    BlocksAre(plan.bodies, rival.blocks, k);
  }

  lemma ConnectsSame(chain: seq<Block>, plan: Plan, rival: Rival, k: nat, rules: Rules, verify: Spend)
    requires BodiesAre(plan.bodies, rival.blocks) && plan.forkHeight == rival.fork <= |chain| && k <= |plan.bodies|
    ensures FirstConnect(chain, plan, k, rules, verify) <==> RivalConnects(chain, rival, k, rules, verify)
  {
    hide ConnectsWith, Below;
    forall j | 0 <= j < k
      ensures Below(chain, plan, j) == chain[..rival.fork] + rival.blocks[..j]
              && plan.bodies[j].block == rival.blocks[j]
    {
      BelowIs(chain, plan, rival, j);
    }
  }

  ghost predicate InRival(rival: Rival, p: nat, id: BlockId) {
    exists i :: p <= i < |rival.blocks| && IdOf(rival.blocks[i].header) == id
  }

  ghost predicate IsInvalid(index: Index, id: BlockId) {
    id in index && index[id].status == Invalid
  }

  /** The blocks marked invalid, exactly: those that were, and those of the branch from `p` on. */
  ghost predicate MarkedFrom(before: Index, after: Index, rival: Rival, p: nat) {
    forall id :: IsInvalid(after, id) <==> IsInvalid(before, id) || InRival(rival, p, id)
  }

  /** Every other record is as it was. */
  ghost predicate OthersStay(before: Index, after: Index, rival: Rival, p: nat) {
    forall id | !InRival(rival, p, id) :: (id in after <==> id in before) && (id in before ==> after[id] == before[id])
  }

  lemma MarksAre(before: Index, after: Index, bodies: seq<Body>, rival: Rival, p: nat, candidate: BlockId)
    requires BodiesAre(bodies, rival.blocks) && IndexMarked(before, after, bodies, p, candidate)
    requires forall i | 0 <= i < |bodies| :: bodies[i].id == IdOf(bodies[i].block.header)
    ensures MarkedFrom(before, after, rival, p) && OthersStay(before, after, rival, p)
  {
    forall id | Among(bodies, p, id)
      ensures InRival(rival, p, id)
    {
      var i :| p <= i < |bodies| && bodies[i].id == id;
      assert IdOf(rival.blocks[i].header) == id;
    }
    forall id
      ensures IsInvalid(after, id) <==> IsInvalid(before, id) || InRival(rival, p, id)
    {
      if Among(bodies, p, id) {
        var i :| p <= i < |bodies| && bodies[i].id == id;
        assert IdOf(rival.blocks[i].header) == id;
      } else {
        assert forall i | p <= i < |rival.blocks| :: bodies[i].id == IdOf(rival.blocks[i].header);
      }
    }
  }

  /** The branch becomes the chain. */
  ghost predicate Wins(r: Reply<Outcome>, chain: seq<Block>, config: Config, rival: Rival, record: Record)
    requires rival.fork <= |chain|
  {
    && r.result == Success(Reorganized) && r.state.tip.work == record.work
    && Inv(r.state, chain[..rival.fork] + rival.blocks, config)
  }

  /** Block `p` is the first that does not connect: it and those above it are marked, and nothing else
      happens. */
  ghost predicate Loses(state: State, r: Reply<Outcome>, chain: seq<Block>, config: Config, rival: Rival,
                        verify: Spend, p: nat)
    requires rival.fork <= |chain|
  {
    && p < |rival.blocks| && RivalConnects(chain, rival, p, config.rules, verify)
    && RefusedWith(chain[..rival.fork] + rival.blocks[..p], rival.blocks[p], config.rules, verify)
    && r.result.Failure? && r.result.error.UtxoFault?
    && r.state == state.(store := state.store.(index := r.state.store.index))
    && MarkedFrom(state.store.index, r.state.store.index, rival, p)
    && OthersStay(state.store.index, r.state.store.index, rival, p)
  }

  /** The branch wins if and only if every block of it connects in turn. */
  ghost predicate Decided(state: State, r: Reply<Outcome>, chain: seq<Block>, config: Config, rival: Rival,
                          record: Record, verify: Spend, p: nat)
    requires rival.fork <= |chain|
  {
    if RivalConnects(chain, rival, |rival.blocks|, config.rules, verify) then Wins(r, chain, config, rival, record)
    else Loses(state, r, chain, config, rival, verify, p)
  }

  lemma BodyIds(state: State, config: Config, plan: Plan, record: Record)
    requires PlanFits(state, config, plan, record)
    ensures forall i | 0 <= i < |plan.bodies| :: plan.bodies[i].id == IdOf(plan.bodies[i].block.header)
  {
    hide Attachable, Follows;
    forall i | 0 <= i < |plan.bodies|
      ensures plan.bodies[i].id == IdOf(plan.bodies[i].block.header)
    {
      assert BodyFits(state.store.index, IdOf(config.anchorHeader), ForkTip(state, plan), record.work, plan.bodies, i);
    }
  }

  lemma SameCount(bodies: seq<Body>, blocks: seq<Block>)
    requires BodiesAre(bodies, blocks)
    ensures |bodies| == |blocks|
  {
  }

  lemma SameBlock(bodies: seq<Body>, blocks: seq<Block>, p: nat)
    requires BodiesAre(bodies, blocks) && p < |bodies|
    ensures bodies[p].block == blocks[p]
  {
  }

  lemma BelowAll(chain: seq<Block>, plan: Plan)
    requires plan.forkHeight <= |chain|
    ensures Below(chain, plan, |plan.bodies|) == chain[..plan.forkHeight] + BlocksOf(plan.bodies, |plan.bodies|)
  {
  }

  lemma RivalDecides(state: State, chain: seq<Block>, config: Config, rival: Rival, plan: Plan, record: Record,
                     candidate: BlockId, verify: Spend)
    returns (p: nat)
    requires Inv(state, chain, config) && PlanFits(state, config, plan, record) && state.tip.work < record.work
    requires BodiesAre(plan.bodies, rival.blocks) && plan.forkHeight == rival.fork <= |chain|
    ensures var r := ApplyPlan(state, plan, candidate, config, verify, true);
            Decided(state, r, chain, config, rival, record, verify, p)
  {
    hide Inv, PlanFits, ApplyPlan, BodiesAre, RivalConnects, FirstConnect, Below, RefusedWith, IndexMarked, MarkedFrom,
         OthersStay, Connect;
    var n := |plan.bodies|;
    SameCount(plan.bodies, rival.blocks);
    p := PlanExact(state, chain, config, plan, record, candidate, verify);
    ConnectsSame(chain, plan, rival, n, config.rules, verify);
    var r := ApplyPlan(state, plan, candidate, config, verify, true);
    if r.result.Success? {
      PlanSwitches(state, chain, config, plan, record, candidate, verify, true);
      BelowIs(chain, plan, rival, n);
      assert rival.blocks[..n] == rival.blocks;
      BelowAll(chain, plan);
    } else {
      ConnectsSame(chain, plan, rival, p, config.rules, verify);
      BelowIs(chain, plan, rival, p);
      BodyIds(state, config, plan, record);
      SameBlock(plan.bodies, rival.blocks, p);
      MarksAre(state.store.index, r.state.store.index, plan.bodies, rival, p, candidate);
    }
  }

  lemma WinsEither(r: Reply<Outcome>, chain: seq<Block>, config: Config, rival: Rival, record: Record)
    requires rival.fork <= |chain|
    ensures Wins(r, chain, config, rival, record.(bodyRetained := true)) <==> Wins(r, chain, config, rival, record)
  {
    hide Inv;
  }

  /** A heavier branch within the window whose bodies are stored becomes the chain if and only if every
      block of it connects in turn; otherwise it is marked from its first bad block on. */
  lemma HeavierBlock(state: State, chain: seq<Block>, config: Config, block: Block, record: Record, rival: Rival,
                     verify: Spend)
    returns (p: nat)
    requires Inv(state, chain, config) && Competes(state, rival, block)
    requires Attachable(state.store.active, state.store.index, IdOf(config.anchorHeader), record)
    requires record.header == block.header && record.status != Invalid
    requires record.parent != state.tip.id && record.work > state.tip.work
    ensures rival.fork <= |chain|
    ensures var r := Place(state, block, record, config, verify, true);
            Decided(state, r, chain, config, rival, record, verify, p)
  {
    hide Inv, Attachable, DiscoverFork, LoadPlan, ApplyPlan, BodiesAre, RivalConnects, PlanFits, MarkableAll, Wins,
         Loses, Linked, StoredBelow, IndexOk, ActiveOk;
    var kept := record.(bodyRetained := true);
    KeptAttachable(state, config, record);
    RivalFacts(state, chain, config, rival, block);
    PlanLoads(state, chain, config, rival, block, kept);
    PlanIsFit(state, chain, config, block, kept);
    var fork := DiscoverFork(state.store, IdOf(block.header), kept).value;
    var plan := LoadPlan(state.store, state.tip.height, fork, IdOf(block.header), block).value;
    p := RivalDecides(state, chain, config, rival, plan, kept, IdOf(block.header), verify);
    WinsEither(Place(state, block, record, config, verify, true), chain, config, rival, record);
  }

  // ----- The other two cases -----

  lemma TipHeight(state: State, chain: seq<Block>, config: Config, record: Record)
    requires Inv(state, chain, config) && Follows(state.store.index, record) && record.parent == state.tip.id
    ensures record.height == |chain| + 1 && ChainGood(chain) && state.utxos == Replayed(chain)
  {
    hide IndexOk, BodiesOk, TipIsBest, HeaderTipOk, MetaOk, AllGood, WorkFollows;
  }

  /** A block on the tip extends the chain if and only if it connects there. */
  lemma TipBlock(state: State, chain: seq<Block>, config: Config, block: Block, record: Record, verify: Spend)
    requires Inv(state, chain, config) && record.header == block.header && record.parent == state.tip.id
    requires Attachable(state.store.active, state.store.index, IdOf(config.anchorHeader), record)
    ensures var r := Place(state, block, record, config, verify, true);
            if ConnectsWith(chain, block, config.rules, verify) then
              && r.result == Success(Extended) && r.state.tip.work == record.work
              && Inv(r.state, chain + [block], config)
            else r.result.Failure? && r.result.error.UtxoFault? && r.state == state
  {
    hide Inv, Attachable, Connect, ExtendedStore, ConnectDelta, Keeps, ChainGood, Replayed;
    AttachableFacts(state, config, record);
    ExtendKeeps(state, chain, config, block, record, verify, true);
    TipHeight(state, chain, config, record);
  }

  // ----- A block that is wanted -----

  /** The session is open, and the block is new with a valid header, or its header is known and its body
      is not. */
  ghost predicate Arrives(state: State, config: Config, block: Block, record: Record) {
    var id := IdOf(block.header);
    && state.health == SessionHealthy
    && if id in state.store.index then
         state.store.index[id] == record && record.status == HeaderValidated && !record.bodyRetained
       else ValidateHeader(state.store, block.header, config) == Success(record)
  }

  lemma ArrivalIsPlaced(state: State, chain: seq<Block>, config: Config, block: Block, record: Record, verify: Spend)
    requires Inv(state, chain, config) && Arrives(state, config, block, record)
    ensures AcceptBlock(state, block, config, verify, true) == Gated(Place(state, block, record, config, verify, true))
    ensures record.header == block.header && record.status == HeaderValidated
    ensures Attachable(state.store.active, state.store.index, IdOf(config.anchorHeader), record)
  {
    hide Inv, Place, ValidateHeader, Attachable;
    if IdOf(block.header) in state.store.index {
      KnownAttachable(state, chain, config, IdOf(block.header));
      SameId(record.header, block.header);
    } else {
      NewAttachable(state, chain, config, block.header);
    }
  }

  /** A new header is stored, one above its parent in height and heavier by its own work, and preferred
      if and only if it is then heavier than the preferred one; nothing else changes. */
  lemma NewHeader(state: State, config: Config, header: Header, record: Record)
    requires state.health == SessionHealthy && IdOf(header) !in state.store.index
    requires ValidateHeader(state.store, header, config) == Success(record)
    ensures header.previous in state.store.index
    ensures var id, parent := IdOf(header), state.store.index[header.previous];
            var best := Tip(id, parent.height + 1, parent.work + BlockWork(header.difficulty));
            var r := AcceptHeader(state, header, config, true);
            && r.result.Success? && r.state.store.index == state.store.index[id := record]
            && record.height == best.height && record.work == best.work
            && r.state.headerTip == (if best.work > state.headerTip.work then best else state.headerTip)
            && r.state.store.headerTip
               == (if best.work > state.headerTip.work then Some(Point(id, best.height)) else state.store.headerTip)
            && Still(state, r.state)
  {
    hide BlockWork;
  }

  /** A wanted block on the tip extends the chain if and only if it connects there; otherwise nothing
      changes. */
  lemma NewOnTip(state: State, chain: seq<Block>, config: Config, block: Block, record: Record, verify: Spend)
    requires Inv(state, chain, config) && Arrives(state, config, block, record) && record.parent == state.tip.id
    ensures var r := AcceptBlock(state, block, config, verify, true);
            if ConnectsWith(chain, block, config.rules, verify) then
              r.result == Success(Extended) && r.state.tip.work == record.work && Inv(r.state, chain + [block], config)
            else r.result.Failure? && r.state == state
  {
    hide Inv, Place, Arrives, ConnectsWith, Attachable, AcceptBlock;
    ArrivalIsPlaced(state, chain, config, block, record, verify);
    TipBlock(state, chain, config, block, record, verify);
  }

  /** A wanted block elsewhere that is not heavier than the tip is stored with its body, and nothing else
      changes. */
  lemma NewAside(state: State, chain: seq<Block>, config: Config, block: Block, record: Record, verify: Spend)
    requires Inv(state, chain, config) && Arrives(state, config, block, record)
    requires record.parent != state.tip.id && record.work <= state.tip.work
    ensures var id := IdOf(block.header);
            AcceptBlock(state, block, config, verify, true)
            == Reply(state.(store := state.store.(index := state.store.index[id := record.(bodyRetained := true)],
                                                  blocks := state.store.blocks[id := block])),
                     Success(StoredSideChain))
  {
    hide Inv, Arrives, Attachable, AcceptBlock, Extend, Reorganize;
    ArrivalIsPlaced(state, chain, config, block, record, verify);
  }

  /** A wanted block that makes a branch heavier than the chain: the branch becomes the chain if and only if
      every block of it connects in turn; otherwise it is marked from its first bad block on. */
  lemma NewHeavier(state: State, chain: seq<Block>, config: Config, block: Block, record: Record, rival: Rival,
                   verify: Spend)
    returns (p: nat)
    requires Inv(state, chain, config) && Arrives(state, config, block, record) && Competes(state, rival, block)
    requires record.parent != state.tip.id && record.work > state.tip.work
    ensures rival.fork <= |chain|
    ensures var r := AcceptBlock(state, block, config, verify, true);
            Decided(state, r, chain, config, rival, record, verify, p)
  {
    hide Inv, Place, Arrives, Competes, Attachable, AcceptBlock, RivalConnects, MarkedFrom, OthersStay, RefusedWith;
    ArrivalIsPlaced(state, chain, config, block, record, verify);
    p := HeavierBlock(state, chain, config, block, record, rival, verify);
  }

  lemma DeepReply(state: State, chain: seq<Block>, config: Config, block: Block, record: Record, rival: Rival,
                  verify: Spend)
    requires Inv(state, chain, config) && Rivals(state, rival, block)
    requires Attachable(state.store.active, state.store.index, IdOf(config.anchorHeader), record)
    requires record.header == block.header && record.status != Invalid
    requires record.parent != state.tip.id && record.work > state.tip.work
    requires state.tip.height > rival.fork + REORG_WINDOW
    ensures Place(state, block, record, config, verify, true)
         == Reply(state.(store := state.store.(health := Some(ReindexRequired)), health := SessionReindex),
                  Failure(ReindexNeeded))
  {
    hide Inv, Attachable, Discover, LoadPlan, Rivals, NodesOf, RecordAt, IndexOk, ActiveOk;
    var kept := record.(bodyRetained := true);
    KeptAttachable(state, config, record);
    RivalFacts(state, chain, config, rival, block);
    CandidateRecord(state.store, rival, kept);
    AttachableIdentity(state.store, IdOf(config.anchorHeader), kept);
    DiscoverFinds(state, chain, config, rival, block, kept, |rival.blocks|);
  }

  /** If the fork is deeper than the window the chain does not move: a reindex is required, on disk and in
      the session. */
  lemma NewTooDeep(state: State, chain: seq<Block>, config: Config, block: Block, record: Record, rival: Rival,
                   verify: Spend)
    requires Inv(state, chain, config) && Arrives(state, config, block, record) && Rivals(state, rival, block)
    requires record.parent != state.tip.id && record.work > state.tip.work
    requires state.tip.height > rival.fork + REORG_WINDOW
    ensures AcceptBlock(state, block, config, verify, true)
         == Reply(state.(store := state.store.(health := Some(ReindexRequired)), health := SessionReindex),
                  Failure(ReindexNeeded))
  {
    hide Inv, Place, Arrives, Rivals, Attachable, AcceptBlock;
    ArrivalIsPlaced(state, chain, config, block, record, verify);
    DeepReply(state, chain, config, block, record, rival, verify);
  }

  lemma TaintedReply(state: State, chain: seq<Block>, config: Config, block: Block, record: Record, verify: Spend)
    requires Inv(state, chain, config) && record.header == block.header && record.status != Invalid
    requires Attachable(state.store.active, state.store.index, IdOf(config.anchorHeader), record)
    requires record.parent != state.tip.id && record.work > state.tip.work
    requires record.parent in state.store.index && !Untainted(state.store.index, record.parent)
    ensures Place(state, block, record, config, verify, true) == Reply(state, Failure(CorruptState))
  {
    hide IndexOk, ActiveOk, BodiesOk, TipIsBest, HeaderTipOk, LedgerOk, MetaOk, Untainted, LoadPlan, ApplyPlan,
         WorkFollows;
    var s, anchor := state.store, IdOf(config.anchorHeader);
    IndexFacts(s, anchor, record.parent);
    DiscoverDecides(s, state.tip, anchor, record.parent);
  }

  /** A heavier branch with an invalid block in it is refused, and nothing changes. */
  lemma NewOnTainted(state: State, chain: seq<Block>, config: Config, block: Block, record: Record, verify: Spend)
    requires Inv(state, chain, config) && Arrives(state, config, block, record)
    requires record.parent != state.tip.id && record.work > state.tip.work
    requires record.parent in state.store.index && !Untainted(state.store.index, record.parent)
    ensures AcceptBlock(state, block, config, verify, true) == Reply(state, Failure(CorruptState))
  {
    hide Inv, Place, Arrives, Attachable, AcceptBlock, Untainted;
    ArrivalIsPlaced(state, chain, config, block, record, verify);
    TaintedReply(state, chain, config, block, record, verify);
  }
}
