/** Two families of runs after which the store does not reopen: a prune followed by a reorganization
    to a lower tip, and a preferred header whose branch does not connect.  Their blocks follow every
    rule of the node; only proof of work is taken for granted. */
module ChainRestart {
  import opened Prelude
  import opened Ledger
  import opened ChainTypes
  import opened ChainBlocks
  import opened ChainHistory
  import opened ChainStore
  import opened ChainReorg
  import opened ChainSteps
  import opened ChainInvariant
  import opened ChainExtend
  import opened ChainSwitch
  import opened ChainPlan
  import opened ChainPrune
  import opened ChainAccept
  import opened ChainBranch
  import opened ChainConsensus
  import opened ChainRecovery
  import opened ChainReopen
  import opened ChainRun
  import opened ChainSamples
  import opened ChainSampleRun
  import opened ChainWeights

  lemma SetupIsValid(w: World, n: nat)
    requires Fits(w, n)
    ensures ValidateConfig(Setup(w)).Success?
  {
    hide HeaderRule, Coinbase;
  }

  // ----- A session that can go back to the fork -----

  /** A healthy session on `n` main blocks that still has the data above the fork. */
  ghost predicate CanGoBack(state: State, w: World, n: nat) {
    && Fits(w, n) && OnMain(state, w, n) && n - w.fork <= REORG_WINDOW
    && exists mark: nat | Kept(state, mark) :: mark <= w.fork
  }

  lemma BackAfter(before: State, after: State, w: World, n: nat)
    requires CanGoBack(before, w, n) && OnMain(after, w, n) && Keeps(before, after)
    ensures CanGoBack(after, w, n)
  {
    hide OnMain, Fits, Kept;
    var mark: nat :| Kept(before, mark) && mark <= w.fork;
    assert Kept(after, mark);
  }

  lemma ForkHeld(state: State, chain: seq<Block>, w: World, n: nat)
    requires Inv(state, chain, Setup(w)) && CanGoBack(state, w, n)
    ensures Holds(state.store.index, Main(w, w.fork)) && Main(w, w.fork).height == w.fork < U64_MAX
    ensures Clock(w, w.fork + 1) > Main(w, w.fork).block.header.timestamp
    ensures IdAt(Main(w, w.fork)) != state.tip.id
  {
    hide Inv, Main, Setup, Holds, Kept, Ascends, MainIsActive;
    HoldsMain(state, chain, w, n, w.fork);
    MainFacts(w, w.fork);
    MainIdsDiffer(w, w.fork, n);
  }

  /** The first side block passes the rules. */
  lemma FirstValidates(state: State, chain: seq<Block>, w: World, n: nat)
    requires Inv(state, chain, Setup(w)) && CanGoBack(state, w, n)
    ensures ValidateHeader(state.store, FirstSide(w).block.header, Setup(w))
         == Success(RecordOf(FirstSide(w), HeaderValidated, false))
  {
    hide Inv, Main, Child, Setup, Holds, Kept, Ascends, MainIsActive, ValidateHeader;
    ForkHeld(state, chain, w, n);
    ChildValidates(state, chain, w, Main(w, w.fork), Clock(w, w.fork + 1), 1, w.extra);
  }

  /** So does the second, once the first is known. */
  lemma SecondValidates(state: State, chain: seq<Block>, w: World, n: nat)
    requires Inv(state, chain, Setup(w)) && CanGoBack(state, w, n) && Holds(state.store.index, FirstSide(w))
    ensures ValidateHeader(state.store, SecondSide(w).block.header, Setup(w))
         == Success(RecordOf(SecondSide(w), HeaderValidated, false))
  {
    hide Inv, Main, Child, Setup, Holds, Kept, Ascends, MainIsActive, ValidateHeader, FirstSide;
    SideFacts(w);
    ChildValidates(state, chain, w, FirstSide(w), Clock(w, w.fork + 2), 1, []);
  }

  /** A side record leaves the session on the main branch. */
  lemma SideStays(state: State, chain: seq<Block>, w: World, n: nat, link: Link, retained: bool)
    requires Inv(state, chain, Setup(w)) && CanGoBack(state, w, n)
    requires link == FirstSide(w) || (link == SecondSide(w) && Holds(state.store.index, FirstSide(w)))
    ensures Ascends(state.store.index[IdAt(link) := RecordOf(link, HeaderValidated, retained)])
  {
    hide Inv, Main, FirstSide, SecondSide, Setup, Kept, Ascends, MainIsActive, IndexOk;
    SideFacts(w);
    MainFacts(w, w.fork);
    IndexFact(state, chain, Setup(w));
    ForkHeld(state, chain, w, n);
    AscendsPut(state.store.index, IdOf(Setup(w).anchorHeader), RecordOf(link, HeaderValidated, retained));
  }

  // ----- The body of the first side block is stored -----

  /** The first side block is stored beside the main branch. */
  ghost predicate FirstStored(state: State, w: World) {
    var id := IdAt(FirstSide(w));
    && id in state.store.index && state.store.index[id] == RecordOf(FirstSide(w), HeaderValidated, true)
    && id in state.store.blocks && state.store.blocks[id] == FirstSide(w).block
  }

  ghost function WithFirst(state: State, w: World): State {
    state.(store := WithIndex(state.store, RecordOf(FirstSide(w), HeaderValidated, true))
                      .(blocks := state.store.blocks[IdAt(FirstSide(w)) := FirstSide(w).block]))
  }

  lemma FirstIsStored(state: State, chain: seq<Block>, w: World, n: nat, verify: Spend)
    requires Inv(state, chain, Setup(w)) && CanGoBack(state, w, n) && FirstSide(w).work <= state.tip.work
    requires var id := IdAt(FirstSide(w));
             id in state.store.index ==> state.store.index[id] == RecordOf(FirstSide(w), HeaderValidated, false)
    ensures var r := Handle(state, Setup(w), BlockArrived(FirstSide(w).block, verify, true));
            r == WithFirst(state, w) && CanGoBack(r, w, n) && FirstStored(r, w)
  {
    hide Inv, Main, FirstSide, Setup, Kept, Ascends, MainIsActive, ValidateHeader, Retained, Fits;
    SideFacts(w);
    ForkHeld(state, chain, w, n);
    FirstValidates(state, chain, w, n);
    SideStays(state, chain, w, n, FirstSide(w), true);
    var after := AcceptBlockOk(state, chain, Setup(w), FirstSide(w).block, verify, true);
    BackAfter(state, WithFirst(state, w), w, n);
  }

  // ----- The second side block starts a reorganization -----

  lemma {:induction false} UndosLoad(s: Store, low: nat, high: nat)
    requires forall h | low < h <= high :: h in s.active && s.active[h] in s.undos
    ensures LoadUndos(s, low, high).Success?
    decreases high
  {
    if low < high {
      UndosLoad(s, low, high - 1);
    }
  }

  /** A path of two blocks off the active chain. */
  lemma ForkFound(s: Store, fork: nat, a: Node, b: Node)
    requires a.record.parent in s.index && ActiveAt(s, fork, a.record.parent) && s.index[a.record.parent].height == fork
    requires b.record.parent == a.id && a.id in s.index && s.index[a.id] == a.record
    requires !ActiveAt(s, a.record.height, a.id) && !ActiveAt(s, b.record.height, b.id)
    requires a.record.status != Invalid && b.record.status != Invalid
    requires ParentChildOk(a.record.parent, s.index[a.record.parent], a.id, a.record)
             && ParentChildOk(a.id, a.record, b.id, b.record)
    ensures DiscoverFork(s, b.id, b.record) == Success(Fork(fork, [a, b]))
  {
    hide WorkFollows;
    assert Discover(s, a.record.parent, s.index[a.record.parent]) == Success(Fork(fork, []));
    assert [] + [a] == [a] && [a] + [b] == [a, b];
    assert Discover(s, a.id, a.record) == Success(Fork(fork, [a]));
  }

  lemma BodiesLoad(s: Store, a: Node, b: Node, first: Block, block: Block)
    requires a.id != b.id && a.record.bodyRetained && a.id in s.blocks && s.blocks[a.id] == first
    requires IdOf(first.header) == a.id && first.header == a.record.header
    requires IdOf(block.header) == b.id && block.header == b.record.header
    ensures LoadBodies(s, [a, b], b.id, block) == Success([Body(a.id, a.record, first), Body(b.id, b.record, block)])
  {
    var x, y := Body(a.id, a.record, first), Body(b.id, b.record, block);
    assert [a, b][..1] == [a] && [a][..0] == [];
    assert [] + [x] == [x] && [x] + [y] == [x, y];
    assert LoadBodies(s, [a], b.id, block) == Success([x]);
  }

  ghost function FirstNode(w: World): Node {
    Node(IdAt(FirstSide(w)), RecordOf(FirstSide(w), HeaderValidated, true))
  }

  ghost function SecondNode(w: World): Node {
    Node(IdAt(SecondSide(w)), RecordOf(SecondSide(w), HeaderValidated, true))
  }

  ghost function SideBodies(w: World): seq<Body> {
    [Body(FirstNode(w).id, FirstNode(w).record, FirstSide(w).block),
     Body(SecondNode(w).id, SecondNode(w).record, SecondSide(w).block)]
  }

  lemma ForkParent(state: State, chain: seq<Block>, w: World)
    requires Inv(state, chain, Setup(w)) && w.fork in state.store.active && w.fork > 0
    ensures var id := state.store.active[w.fork];
            id in state.store.index && IdentityOk(id, state.store.index[id])
  {
    hide BodiesOk, TipIsBest, HeaderTipOk, LedgerOk, WorkFollows, Setup;
  }

  lemma SidesFollow(state: State, chain: seq<Block>, w: World, n: nat)
    requires Inv(state, chain, Setup(w)) && CanGoBack(state, w, n) && FirstStored(state, w)
    ensures var parent := IdAt(Main(w, w.fork));
            && parent in state.store.index && ActiveAt(state.store, w.fork, parent)
               && state.store.index[parent].height == w.fork
            && ParentChildOk(parent, state.store.index[parent], FirstNode(w).id, FirstNode(w).record)
            && ParentChildOk(FirstNode(w).id, FirstNode(w).record, SecondNode(w).id, SecondNode(w).record)
  {
    hide Inv, Main, Child, Setup, Kept, Ascends, BlockWork;
    ActiveUpTo(state, chain, Setup(w));
    assert w.fork in state.store.active;
    ForkHeld(state, chain, w, n);
    ForkParent(state, chain, w);
    NotInvalid(state.store.index, IdAt(Main(w, w.fork)));
    ChildFacts(w, Main(w, w.fork), Clock(w, w.fork + 1), 1, w.extra);
    ChildFacts(w, FirstSide(w), Clock(w, w.fork + 2), 1, []);
  }

  lemma DataAbove(state: State, chain: seq<Block>, w: World, n: nat)
    requires Inv(state, chain, Setup(w)) && CanGoBack(state, w, n)
    ensures forall h | w.fork < h <= n :: h in state.store.active && state.store.active[h] in state.store.undos
  {
    hide Inv, Main, Setup, Ascends, MainIsActive;
    ActiveUpTo(state, chain, Setup(w));
  }

  lemma SidePlan(state: State, chain: seq<Block>, w: World, n: nat)
    requires Inv(state, chain, Setup(w)) && CanGoBack(state, w, n) && FirstStored(state, w)
    ensures var fork, id := Fork(w.fork, [FirstNode(w), SecondNode(w)]), IdAt(SecondSide(w));
            && DiscoverFork(state.store, id, SecondNode(w).record) == Success(fork)
            && LoadPlan(state.store, n, fork, id, SecondSide(w).block).Success?
            && LoadPlan(state.store, n, fork, id, SecondSide(w).block).value.bodies == SideBodies(w)
  {
    hide Inv, Main, FirstSide, SecondSide, Setup, Ascends, Discover, LoadUndos, LoadBodies, ParentChildOk;
    SidesFollow(state, chain, w, n);
    SideFacts(w);
    SidesAreNew(w, w.fork + 1);
    SidesAreNew(w, w.fork + 2);
    ForkFound(state.store, w.fork, FirstNode(w), SecondNode(w));
    BodiesLoad(state.store, FirstNode(w), SecondNode(w), FirstSide(w).block, SecondSide(w).block);
    DataAbove(state, chain, w, n);
    UndosLoad(state.store, w.fork, n);
  }

  /** What no transaction creates is in no ledger of a chain. */
  lemma NullIsAbsent(chain: seq<Block>)
    requires ChainGood(chain)
    ensures OutPoint(NullTx, 0) !in Replayed(chain)
  {
    hide AllGood;
    var apps := ChainApps(chain);
    assert apps[..|apps|] == apps;
    if OutPoint(NullTx, 0) in Replayed(chain) {
      Origin(apps, |apps|, OutPoint(NullTx, 0));
    }
  }

  lemma StagedLedger(state: State, cut: Store, anchor: BlockId, tip: Tip, work: nat, staged: Staged, chain: seq<Block>)
    requires OnTheWay(state.store, cut, anchor, tip, work, staged, chain)
    ensures OutPoint(NullTx, 0) !in staged.utxos
  {
    hide IndexOk, SameShape, ActiveOk, BodiesOk, TipIsBest, Patched, Retained, ChainGood, Replayed;
    LedgerFacts(cut.active, cut.undos, staged.utxos, staged.utxos, tip.height, chain);
    NullIsAbsent(chain);
  }

  /** Winding the side branch: it connects, unless its first block carries the stray transaction. */
  lemma SideWinds(w: World, n: nat, staged: Staged, verify: Spend)
    requires Fits(w, n) && OutPoint(NullTx, 0) !in staged.utxos
    ensures var r := Wind(staged, SideBodies(w), 2, Setup(w).rules, verify);
            if w.extra == [] then r.Wound? else r == Stuck(0, MissingUtxo(OutPoint(NullTx, 0)))
  {
    hide Connect, ConnectDelta, Main, Child, Setup, Stray;
    MainFacts(w, w.fork);
    SideFacts(w);
    var rules, bodies := Setup(w).rules, SideBodies(w);
    assert Wind(staged, bodies, 0, rules, verify) == Wound(staged, []);
    if w.extra == [] {
      BareConnects(w, Main(w, w.fork), Clock(w, w.fork + 1), 1, staged.utxos, verify);
      var first := Wind(staged, bodies, 1, rules, verify);
      BareConnects(w, FirstSide(w), Clock(w, w.fork + 2), 1, first.staged.utxos, verify);
    } else {
      StrayRefused(w, Main(w, w.fork), Clock(w, w.fork + 1), 1, staged.utxos, verify);
      assert Wind(staged, bodies, 1, rules, verify) == Stuck(0, MissingUtxo(OutPoint(NullTx, 0)));
    }
  }

  ghost predicate Marked(index: Index, id: BlockId) {
    id in index && index[id].status == Invalid
  }

  /** The main blocks above the fork are undone; then the side branch becomes the active one, or it
      is marked invalid. */
  ghost predicate SideDecided(state: State, r: Reply<Outcome>, w: World) {
    && r.state.health == SessionHealthy && r.state.store.health == Some(Healthy)
    && if w.extra == [] then r.result == Success(Reorganized) && r.state.tip.height == w.fork + 2
       else && r.result == Failure(UtxoFault(MissingUtxo(OutPoint(NullTx, 0))))
            && r.state.headerTip == state.headerTip && Marked(r.state.store.index, IdAt(SecondSide(w)))
  }

  lemma PlanForks(state: State, chain: seq<Block>, w: World, plan: Plan)
    requires Inv(state, chain, Setup(w)) && PlanFits(state, Setup(w), plan, SecondNode(w).record)
    ensures plan.forkHeight in state.store.active && state.store.active[plan.forkHeight] in state.store.index
    ensures plan.forkHeight <= |chain|
  {
    hide BodyFits, Attachable, Setup, SecondSide, IndexOk, ActiveOk, BodiesOk, TipIsBest, HeaderTipOk, ChainGood,
         Replayed, UndoOf;
  }

  lemma SidesMarked(s: Store, w: World)
    ensures var marked := MarkInvalid(s, SideBodies(w), IdAt(SecondSide(w)));
            marked.health == s.health && Marked(marked.index, IdAt(SecondSide(w)))
  {
    hide FirstSide, SecondSide;
    var bodies := SideBodies(w);
    assert bodies[..1] == [bodies[0]] && [bodies[0]][..0] == [];
    assert MarkInvalid(s, [], IdAt(SecondSide(w))) == s;
    assert MarkInvalid(s, [bodies[0]], IdAt(SecondSide(w))).health == s.health;
  }

  lemma SideApplies(state: State, chain: seq<Block>, w: World, n: nat, plan: Plan, verify: Spend)
    requires Inv(state, chain, Setup(w)) && CanGoBack(state, w, n) && plan.bodies == SideBodies(w)
    requires PlanFits(state, Setup(w), plan, SecondNode(w).record) && SecondSide(w).work > state.tip.work
    ensures SideDecided(state, ApplyPlan(state, plan, IdAt(SecondSide(w)), Setup(w), verify, true), w)
  {
    hide Inv, PlanFits, Unwind, OnTheWay, Wind, Patched, FirstSide, SecondSide, Main, Kept, Setup, PutBodies,
         MarkInvalid, Stray;
    SideFacts(w);
    UnwoundIsOnTheWay(state, chain, Setup(w), plan, SecondNode(w).record);
    var staged := Unwind(state.utxos, plan.undos, |plan.undos|).value;
    PlanForks(state, chain, w, plan);
    StagedLedger(state, DropActive(state.store, plan.forkHeight, state.tip.height), IdOf(Setup(w).anchorHeader),
                 ForkTip(state, plan), SecondNode(w).record.work, staged, chain[..plan.forkHeight]);
    SideWinds(w, n, staged, verify);
    var winding := Wind(staged, SideBodies(w), 2, Setup(w).rules, verify);
    if winding.Wound? {
      PutBodiesFrame(DropActive(state.store, plan.forkHeight, state.tip.height), plan.bodies, winding.undos, 2);
    } else {
      assert plan.bodies[0..] == plan.bodies;
      SidesMarked(state.store, w);
    }
  }

  lemma SideReorganizes(state: State, chain: seq<Block>, w: World, n: nat, verify: Spend)
    requires Inv(state, chain, Setup(w)) && CanGoBack(state, w, n) && FirstStored(state, w)
             && SecondSide(w).work > state.tip.work
    requires Attachable(state.store.active, state.store.index, IdOf(Setup(w).anchorHeader), SecondNode(w).record)
    ensures SideDecided(state, Reorganize(state, SecondSide(w).block, SecondNode(w).record, Setup(w), verify, true), w)
  {
    hide Inv, DiscoverFork, LoadPlan, ApplyPlan, Attachable, PlanFits, MarkableAll, FirstSide, SecondSide, Main, Kept,
         Setup, SideBodies, FirstStored, SideDecided, Ascends, MainIsActive;
    SidePlan(state, chain, w, n);
    PlanIsFit(state, chain, Setup(w), SecondSide(w).block, SecondNode(w).record);
    var fork := Fork(w.fork, [FirstNode(w), SecondNode(w)]);
    SideApplies(state, chain, w, n, LoadPlan(state.store, n, fork, IdAt(SecondSide(w)), SecondSide(w).block).value,
                verify);
  }

  /** The body of the second side block arrives, whether or not its header was known. */
  lemma SecondArrives(state: State, chain: seq<Block>, w: World, n: nat, verify: Spend)
    requires Inv(state, chain, Setup(w)) && CanGoBack(state, w, n) && FirstStored(state, w)
             && SecondSide(w).work > state.tip.work
    requires var id := IdAt(SecondSide(w));
             id in state.store.index ==> state.store.index[id] == RecordOf(SecondSide(w), HeaderValidated, false)
    ensures SideDecided(state, Gated(AcceptHealthyBlock(state, SecondSide(w).block, Setup(w), verify, true)), w)
  {
    hide Inv, Reorganize, ValidateHeader, Attachable, FirstSide, SecondSide, Main, Kept, Setup, Ascends, MainIsActive,
         Fits, Stray, Marked;
    var block, record, id := SecondSide(w).block, RecordOf(SecondSide(w), HeaderValidated, false), IdAt(SecondSide(w));
    SideFacts(w);
    SidesAreNew(w, n);
    if id in state.store.index {
      KnownAttachable(state, chain, Setup(w), id);
    } else {
      SecondValidates(state, chain, w, n);
      NewAttachable(state, chain, Setup(w), block.header);
    }
    KeptAttachable(state, Setup(w), record);
    SideReorganizes(state, chain, w, n, verify);
  }

  // ----- A prune, then a lower tip -----

  /** The main branch, a prune, and the two side blocks at the edge of the window. */
  ghost function LowerRun(w: World, verify: Spend): seq<Event> {
    MainRun(w, w.fork + REORG_WINDOW,
            verify) + [PruneRequested(true)] + [BlockArrived(FirstSide(w).block, verify, true)]
    + [BlockArrived(SecondSide(w).block, verify, true)]
  }

  lemma RetainedIsHigh(s: Store, tip: Tip, anchor: BlockId, id: BlockId)
    requires IndexOk(s.index, anchor) && ActiveOk(s.active, s.index, s.tip, tip, anchor)
    requires AllActive(s.active, s.index) && id in RetainedIds(s)
    ensures s.index[id].height > 0 && s.index[id].height in s.active && s.active[s.index[id].height] == id
  {
    hide Follows;
  }

  /** Every retained block of the main branch gets a verdict. */
  lemma MainPrunes(state: State, chain: seq<Block>, w: World, n: nat)
    requires Inv(state, chain, Setup(w)) && OnMain(state, w, n) && Alone(state) && Kept(state, 0)
    ensures PruneHappens(state, true)
  {
    hide LedgerOk, BodiesOk, TipIsBest, HeaderTipOk, IndexOk, ActiveOk, Judge, Setup, Main, Ascends, MainIsActive;
    var s, anchor := state.store, IdOf(Setup(w).anchorHeader);
    forall id | id in RetainedIds(s)
      ensures Judge(s, state.tip.height, id).Success?
    {
      RetainedIsHigh(s, state.tip, anchor, id);
      ActiveVerdict(s, state.tip, anchor, 0, s.index[id].height);
    }
  }

  lemma PrunedStays(s: Store, tipHeight: nat)
    requires AllActive(s.active, s.index) && Ascends(s.index)
    ensures var p := Pruned(s, tipHeight);
            AllActive(p.active, p.index) && Ascends(p.index) && p.health == s.health && p.active == s.active
  {
    hide BodiesDropped, UndosDropped;
  }

  lemma PrunedMain(w: World, n: nat, verify: Spend)
    requires Fits(w, n) && n == w.fork + REORG_WINDOW
    ensures PruneHappens(Run(Setup(w), MainRun(w, n, verify)), true)
    ensures var state := Run(Setup(w), MainRun(w, n, verify) + [PruneRequested(true)]);
            CanGoBack(state, w, n) && Alone(state)
  {
    hide Inv, Kept, Limited, Setup, MainRun, Main, PruneHappens, Run, Pruned, AllActive, Ascends, Fits;
    var before := Run(Setup(w), MainRun(w, n, verify));
    MainRuns(w, n, n, verify);
    var chain := RunInv(Setup(w), MainRun(w, n, verify));
    NeverPruned(w, n, verify);
    MainPrunes(before, chain, w, n);
    PruneMarks(before, chain, Setup(w), 0);
    RunSnoc(Setup(w), MainRun(w, n, verify), PruneRequested(true));
    PrunedStays(before.store, n);
  }

  lemma SideIsNew(state: State, w: World, n: nat)
    requires OnMain(state, w, n) && Alone(state)
    ensures IdAt(FirstSide(w)) !in state.store.index && IdAt(SecondSide(w)) !in state.store.index
  {
    hide Main, FirstSide, SecondSide, Ascends, AllActive;
    forall h | h in state.store.active
      ensures IdAt(FirstSide(w)) != IdAt(Main(w, h)) && IdAt(SecondSide(w)) != IdAt(Main(w, h))
    {
      SidesAreNew(w, h);
    }
    NotYet(state, w, n, IdAt(FirstSide(w)));
    NotYet(state, w, n, IdAt(SecondSide(w)));
  }

  /** The session after the first side block. */
  lemma StoredRun(w: World, n: nat, events: seq<Event>, verify: Spend)
    requires CanGoBack(Run(Setup(w), events), w, n) && FirstSide(w).work <= Main(w, n).work
    requires var index := Run(Setup(w), events).store.index;
             IdAt(FirstSide(w)) in index ==> index[IdAt(FirstSide(w))] == RecordOf(FirstSide(w), HeaderValidated, false)
    ensures var after := Run(Setup(w), events + [BlockArrived(FirstSide(w).block, verify, true)]);
            after == WithFirst(Run(Setup(w), events), w) && CanGoBack(after, w, n) && FirstStored(after, w)
  {
    hide Inv, Kept, Limited, Setup, Main, FirstSide, Run, Handle, Fits, Ascends, MainIsActive, FirstStored;
    var chain := RunInv(Setup(w), events);
    RunSnoc(Setup(w), events, BlockArrived(FirstSide(w).block, verify, true));
    FirstIsStored(Run(Setup(w), events), chain, w, n, verify);
  }

  /** The session after the second. */
  lemma DecidedRun(w: World, n: nat, events: seq<Event>, verify: Spend)
    requires var state := Run(Setup(w), events);
             && CanGoBack(state, w, n) && FirstStored(state, w) && SecondSide(w).work > Main(w, n).work
             && (IdAt(SecondSide(w)) in state.store.index ==>
                   state.store.index[IdAt(SecondSide(w))] == RecordOf(SecondSide(w), HeaderValidated, false))
    ensures var after := Run(Setup(w), events + [BlockArrived(SecondSide(w).block, verify, true)]);
            exists r: Reply<Outcome> :: r.state == after && SideDecided(Run(Setup(w), events), r, w)
  {
    hide Inv, Kept, Limited, Setup, Main, FirstSide, SecondSide, Run, Fits, Ascends, MainIsActive, FirstStored,
         SideDecided, AcceptHealthyBlock, Gated;
    var state := Run(Setup(w), events);
    var chain := RunInv(Setup(w), events);
    RunSnoc(Setup(w), events, BlockArrived(SecondSide(w).block, verify, true));
    SecondArrives(state, chain, w, n, verify);
    var r := Gated(AcceptHealthyBlock(state, SecondSide(w).block, Setup(w), verify, true));
    assert r.state == Handle(state, Setup(w), BlockArrived(SecondSide(w).block, verify, true));
  }

  lemma BackIsOnMain(state: State, w: World, n: nat)
    requires CanGoBack(state, w, n)
    ensures OnMain(state, w, n)
  {
    hide OnMain, Kept;
  }

  /** Not every run reopens.  A prefix ahead of its schedule, a window of blocks with late clocks, a
      prune, and two early blocks in place of the window leave a healthy session on a tip lower than
      at the prune, and a store that is refused. */
  lemma PruneThenLowerTip(w: World, verify: Spend)
    requires w.extra == [] && w.fork >= EARLY_BLOCKS && w.params.initialTarget >= 16_384
    requires Fits(w, w.fork + REORG_WINDOW) && w.late >= 300 * (w.fork + REORG_WINDOW)
    ensures ValidateConfig(Setup(w)).Success?
    ensures var state := Run(Setup(w), LowerRun(w, verify));
            && state.health == SessionHealthy && state.tip.height == w.fork + 2
            && Reopen(state.store, Setup(w), Point(state.tip.id, state.tip.height)) == Failure(CorruptState)
  {
    hide Inv, Kept, Limited, Setup, MainRun, Main, FirstSide, SecondSide, PruneHappens, Run, CanGoBack, Alone, Reopen,
         Untainted, Fits, FirstStored;
    SetupIsValid(w, w.fork + REORG_WINDOW);
    var n := w.fork + REORG_WINDOW;
    var main := MainRun(w, n, verify);
    var pruned := main + [PruneRequested(true)];
    var stored := pruned + [BlockArrived(FirstSide(w).block, verify, true)];
    SideOutweighs(w, n);
    PrunedMain(w, n, verify);
    MainRuns(w, n, n, verify);
    BackIsOnMain(Run(Setup(w), pruned), w, n);
    SideIsNew(Run(Setup(w), pruned), w, n);
    StoredRun(w, n, pruned, verify);
    SidesAreNew(w, n);
    DecidedRun(w, n, stored, verify);
    var all := LowerRun(w, verify);
    assert all[..|main|] == main && all[|main|] == PruneRequested(true);
    assert !PrunedWithin(Setup(w), all, w.fork + 2);
    RunReopens(Setup(w), all);
  }

  // ----- A preferred header whose branch does not connect -----

  /** The main branch, the headers of the side branch, then its blocks. */
  ghost function RefusedRun(w: World, verify: Spend): seq<Event> {
    MainRun(w, w.fork + 1, verify)
    + [HeaderArrived(FirstSide(w).block.header, true)] + [HeaderArrived(SecondSide(w).block.header, true)]
    + [BlockArrived(FirstSide(w).block, verify, true)] + [BlockArrived(SecondSide(w).block, verify, true)]
  }

  ghost function WithHeader(state: State, link: Link): State {
    state.(store := WithIndex(state.store, RecordOf(link, HeaderValidated, false)))
  }

  /** The header of a side block that does not beat the header tip is kept, and no more. */
  lemma FirstHeader(state: State, chain: seq<Block>, w: World, n: nat)
    requires Inv(state, chain, Setup(w)) && CanGoBack(state, w, n) && IdAt(FirstSide(w)) !in state.store.index
    requires FirstSide(w).work <= state.headerTip.work
    ensures var r := Handle(state, Setup(w), HeaderArrived(FirstSide(w).block.header, true));
            r == WithHeader(state, FirstSide(w)) && CanGoBack(r, w, n)
  {
    hide Inv, Main, FirstSide, Setup, Kept, Ascends, MainIsActive, ValidateHeader, Fits, Retained;
    FirstValidates(state, chain, w, n);
    SideStays(state, chain, w, n, FirstSide(w), false);
    AcceptHeaderOk(state, chain, Setup(w), FirstSide(w).block.header, true);
    BackAfter(state, WithHeader(state, FirstSide(w)), w, n);
  }

  /** One that beats it becomes the header tip. */
  lemma SecondHeader(state: State, chain: seq<Block>, w: World, n: nat)
    requires Inv(state, chain, Setup(w)) && CanGoBack(state, w, n) && IdAt(SecondSide(w)) !in state.store.index
    requires Holds(state.store.index, FirstSide(w)) && SecondSide(w).work > state.headerTip.work
    ensures var r := Handle(state, Setup(w), HeaderArrived(SecondSide(w).block.header, true));
            && r.headerTip.id == IdAt(SecondSide(w)) && CanGoBack(r, w, n)
            && r.store.index == WithHeader(state, SecondSide(w)).store.index
  {
    hide Inv, Main, FirstSide, SecondSide, Setup, Kept, Ascends, MainIsActive, ValidateHeader, Fits, Retained, Holds;
    SecondValidates(state, chain, w, n);
    SideStays(state, chain, w, n, SecondSide(w), false);
    AcceptHeaderOk(state, chain, Setup(w), SecondSide(w).block.header, true);
    BackAfter(state, Handle(state, Setup(w), HeaderArrived(SecondSide(w).block.header, true)), w, n);
  }

  lemma BackAtStart(state: State, w: World, n: nat)
    requires Fits(w, n) && n == w.fork + 1 && OnMain(state, w, n) && Kept(state, 0)
    ensures CanGoBack(state, w, n)
  {
    hide OnMain, Kept;
  }

  lemma SideWork(state: State, w: World, n: nat)
    requires n == w.fork + 1 && OnMain(state, w, n) && Alone(state)
    ensures FirstSide(w).work <= state.headerTip.work < SecondSide(w).work
    ensures FirstSide(w).work <= Main(w, n).work < SecondSide(w).work
  {
    hide Main, FirstSide, SecondSide, MainIsActive, Ascends, AllActive;
    SameWork(w);
    SideFacts(w);
  }

  /** The main branch and both headers: the second is preferred. */
  lemma Announced(w: World, n: nat, verify: Spend)
    requires Fits(w, n) && n == w.fork + 1
    ensures var state := Run(Setup(w), MainRun(w, n, verify) + [HeaderArrived(FirstSide(w).block.header, true)]
                                       + [HeaderArrived(SecondSide(w).block.header, true)]);
            && CanGoBack(state, w, n) && state.headerTip.id == IdAt(SecondSide(w))
            && IdAt(FirstSide(w)) in state.store.index && IdAt(SecondSide(w)) in state.store.index
            && state.store.index[IdAt(FirstSide(w))] == RecordOf(FirstSide(w), HeaderValidated, false)
            && state.store.index[IdAt(SecondSide(w))] == RecordOf(SecondSide(w), HeaderValidated, false)
  {
    hide Inv, Kept, Limited, Setup, MainRun, Main, FirstSide, SecondSide, Run, Handle, OnMain, Fits;
    var main := MainRun(w, n, verify);
    var told := main + [HeaderArrived(FirstSide(w).block.header, true)];
    MainRuns(w, n, n, verify);
    NeverPruned(w, n, verify);
    var chain := RunInv(Setup(w), main);
    BackAtStart(Run(Setup(w), main), w, n);
    SideIsNew(Run(Setup(w), main), w, n);
    SideWork(Run(Setup(w), main), w, n);
    SidesAreNew(w, n);
    FirstHeader(Run(Setup(w), main), chain, w, n);
    RunSnoc(Setup(w), main, HeaderArrived(FirstSide(w).block.header, true));
    chain := RunInv(Setup(w), told);
    SecondHeader(Run(Setup(w), told), chain, w, n);
    RunSnoc(Setup(w), told, HeaderArrived(SecondSide(w).block.header, true));
  }

  lemma MarkedTaints(index: Index, id: BlockId)
    requires Marked(index, id)
    ensures !Untainted(index, id)
  {
    assert Lineage(index, [id]);
  }

  /** Nor does this one: a branch whose first block spends what is not there was announced by its
      headers, so the session prefers a header that has since been marked invalid. */
  lemma PreferredThenRefused(w: World, verify: Spend)
    requires w.extra == [Stray()] && Fits(w, w.fork + 1)
    ensures ValidateConfig(Setup(w)).Success?
    ensures var state := Run(Setup(w), RefusedRun(w, verify));
            && state.health == SessionHealthy
            && Reopen(state.store, Setup(w), Point(state.tip.id, state.tip.height)) == Failure(CorruptState)
  {
    hide Inv, Kept, Limited, Setup, MainRun, Main, FirstSide, SecondSide, Stray, Run, CanGoBack, Alone, OnMain, Reopen,
         Untainted, Fits, FirstStored, PrunedWithin, Marked;
    SetupIsValid(w, w.fork + 1);
    var n := w.fork + 1;
    var told := MainRun(w, n, verify) + [HeaderArrived(FirstSide(w).block.header, true)]
                + [HeaderArrived(SecondSide(w).block.header, true)];
    var stored := told + [BlockArrived(FirstSide(w).block, verify, true)];
    MainRuns(w, n, n, verify);
    SideWork(Run(Setup(w), MainRun(w, n, verify)), w, n);
    Announced(w, n, verify);
    SidesAreNew(w, n);
    StoredRun(w, n, told, verify);
    DecidedRun(w, n, stored, verify);
    var all := RefusedRun(w, verify);
    MarkedTaints(Run(Setup(w), all).store.index, Run(Setup(w), all).headerTip.id);
    RunReopens(Setup(w), all);
  }
}
