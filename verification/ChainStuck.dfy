/** A node that can no longer prune: a body is stored on a block that turns out invalid when another
    branch over it is tried. */
module ChainStuck {
  import opened Prelude
  import opened ChainTypes
  import opened ChainBlocks
  import opened ChainHistory
  import opened ChainStore
  import opened ChainSteps
  import opened ChainInvariant
  import opened ChainBranch
  import opened ChainPrune
  import opened ChainWitness
  import opened ChainOutcome
  import opened ChainRetention
  import opened ChainConsensus
  import opened ChainSamples
  import opened ChainSampleRun
  import opened ChainRestart
  import opened ChainRun
  import Asert

  /** After every run, a prune can be planned if and only if no recent body stands on an invalid block. */
  lemma RunPrunable(config: Config, events: seq<Event>)
    ensures var state := Run(config, events);
            Prunable(state.store, state.tip.height) <==> Plannable(state.store, state.tip.height)
  {
    hide Inv, Kept, Run, Prunable, Plannable, Mark;
    var chain := RunInv(config, events);
    PrunableIff(Run(config, events), chain, config, Mark(config, events));
  }

  // ----- The blocks -----

  /** A second child of the first side block, and the child of the first one. */
  ghost function Twin(w: World): Link {
    Child(w, FirstSide(w), Clock(w, w.fork + 2), 2, [])
  }

  ghost function ThirdSide(w: World): Link {
    Child(w, SecondSide(w), Clock(w, w.fork + 3), 1, [])
  }

  /** Two main blocks above the fork, with no jump of the clock. */
  ghost predicate Level(w: World) {
    w.late == 0 && w.extra == [Stray()] && Fits(w, w.fork + 2)
  }

  lemma SecondIs(w: World)
    ensures SecondSide(w) == Child(w, FirstSide(w), Clock(w, w.fork + 2), 1, [])
    ensures FirstSide(w) == Child(w, Main(w, w.fork), Clock(w, w.fork + 1), 1, w.extra)
  {
    hide Child, Main;
  }

  lemma LevelWork(w: World)
    requires Level(w)
    ensures FirstSide(w).work <= Main(w, w.fork + 2).work
    ensures SecondSide(w).work == Twin(w).work == Main(w, w.fork + 2).work < ThirdSide(w).work
  {
    hide Child, Main, FirstSide, SecondSide, Fits, BlockWork, TargetAbove;
    SameWork(w);
    SideFacts(w);
    MainFacts(w, w.fork + 1);
    NextMain(w, w.fork + 1);
    ChildFacts(w, Main(w, w.fork + 1), MainTime(w, w.fork + 2), 0, []);
    ChildFacts(w, FirstSide(w), Clock(w, w.fork + 2), 1, []);
    ChildFacts(w, FirstSide(w), Clock(w, w.fork + 2), 2, []);
    ChildFacts(w, SecondSide(w), Clock(w, w.fork + 3), 1, []);
    SecondIs(w);
  }

  // ----- Blocks stored aside -----

  ghost predicate Aside(state: State, link: Link) {
    && Holds(state.store.index, link) && state.store.index[IdAt(link)].status == HeaderValidated
    && state.store.index[IdAt(link)].bodyRetained && state.store.index[IdAt(link)].parent == link.block.header.previous
    && IdAt(link) in state.store.blocks && state.store.blocks[IdAt(link)] == link.block
  }

  ghost function StoredAside(state: State, link: Link): State {
    state.(store := state.store.(index := state.store.index[IdAt(link) := RecordOf(link, HeaderValidated, true)],
                                 blocks := state.store.blocks[IdAt(link) := link.block]))
  }

  lemma AsideMain(state: State, chain: seq<Block>, w: World, n: nat, link: Link, parent: Link)
    requires Inv(state, chain, Setup(w)) && OnMain(state, w, n) && Holds(state.store.index, parent)
    requires link.block.header.previous == IdAt(parent) && link.block.header.timestamp > parent.block.header.timestamp
    ensures OnMain(StoredAside(state, link), w, n) && Aside(StoredAside(state, link), link)
  {
    hide Inv, Main, Ascends, Setup;
    IndexFact(state, chain, Setup(w));
    AscendsPut(state.store.index, IdOf(Setup(w).anchorHeader), RecordOf(link, HeaderValidated, true));
  }

  /** A child of a block in the index arrives with its record. */
  lemma ChildArrives(state: State, chain: seq<Block>, w: World, n: nat, parent: Link, time: u64, nonce: u64,
                     extra: seq<ChainTx>)
    requires Asert.ParamsOk(w.params) && Inv(state, chain, Setup(w)) && OnMain(state, w, n)
    requires Holds(state.store.index, parent) && parent.height < U64_MAX
    requires time > parent.block.header.timestamp && IdAt(parent) != IdAt(Main(w, n))
    requires IdAt(Child(w, parent, time, nonce, extra)) !in state.store.index
    ensures var child := Child(w, parent, time, nonce, extra);
            var record := RecordOf(child, HeaderValidated, false);
            && Arrives(state, Setup(w), child.block, record) && record.parent != state.tip.id
            && record.work == child.work && state.tip.work == Main(w, n).work
  {
    hide Inv, Setup, Child, Main, Ascends, MainIsActive, ValidateHeader, Holds;
    ChildFacts(w, parent, time, nonce, extra);
    ChildValidates(state, chain, w, parent, time, nonce, extra);
  }

  /** A child of a block in the index that is not heavier than the tip is stored beside it. */
  lemma AsideStep(w: World, n: nat, events: seq<Event>, parent: Link, time: u64, nonce: u64, extra: seq<ChainTx>,
                  verify: Spend)
    requires Asert.ParamsOk(w.params) && OnMain(Run(Setup(w), events), w, n)
    requires Holds(Run(Setup(w), events).store.index, parent) && parent.height < U64_MAX
    requires time > parent.block.header.timestamp && IdAt(parent) != IdAt(Main(w, n))
    requires var child := Child(w, parent, time, nonce, extra);
             IdAt(child) !in Run(Setup(w), events).store.index && child.work <= Main(w, n).work
    ensures var child := Child(w, parent, time, nonce, extra);
            var after := Run(Setup(w), events + [BlockArrived(child.block, verify, true)]);
            && after == StoredAside(Run(Setup(w), events), child)
            && OnMain(after, w, n) && Aside(after, child)
  {
    hide Inv, Kept, Run, Setup, Child, Main, OnMain, Arrives, AcceptBlock, Holds, Aside;
    var state, child := Run(Setup(w), events), Child(w, parent, time, nonce, extra);
    var chain := RunInv(Setup(w), events);
    ChildFacts(w, parent, time, nonce, extra);
    ChildArrives(state, chain, w, n, parent, time, nonce, extra);
    NewAside(state, chain, Setup(w), child.block, RecordOf(child, HeaderValidated, false), verify);
    RunSnoc(Setup(w), events, BlockArrived(child.block, verify, true));
    AsideMain(state, chain, w, n, child, parent);
  }

  // ----- Three blocks aside -----

  lemma SideTimes(w: World)
    requires Level(w)
    ensures Main(w, w.fork).height == w.fork && Clock(w, w.fork + 1) > Main(w, w.fork).block.header.timestamp
    ensures FirstSide(w).height == w.fork + 1 && SecondSide(w).height == Twin(w).height == w.fork + 2
    ensures Clock(w, w.fork + 2) > FirstSide(w).block.header.timestamp
    ensures Clock(w, w.fork + 3) > SecondSide(w).block.header.timestamp && w.fork + 3 <= U64_MAX
    ensures Twin(w).block.header.previous == IdAt(FirstSide(w)) && Twin(w).block.header.nonce == 2
    ensures ThirdSide(w).block.header.previous == IdAt(SecondSide(w)) && ThirdSide(w).block.header.nonce == 1
  {
    hide Child, Main, FirstSide, SecondSide;
    MainFacts(w, w.fork);
    SideFacts(w);
    ChildFacts(w, FirstSide(w), Clock(w, w.fork + 2), 2, []);
    ChildFacts(w, SecondSide(w), Clock(w, w.fork + 3), 1, []);
  }

  lemma AllDiffer(w: World, h: nat)
    requires Level(w)
    ensures IdAt(Main(w, h)) !in {IdAt(FirstSide(w)), IdAt(SecondSide(w)), IdAt(Twin(w)), IdAt(ThirdSide(w))}
    ensures IdAt(FirstSide(w)) != IdAt(SecondSide(w)) && IdAt(Twin(w)) != IdAt(FirstSide(w))
    ensures IdAt(Twin(w)) != IdAt(SecondSide(w)) && IdAt(ThirdSide(w)) != IdAt(Twin(w))
    ensures IdAt(ThirdSide(w)) != IdAt(FirstSide(w)) && IdAt(ThirdSide(w)) != IdAt(SecondSide(w))
  {
    hide Main, FirstSide, SecondSide, Twin, ThirdSide;
    MainFacts(w, h);
    SidesAreNew(w, h);
    SidesAreNew(w, w.fork);
    SideFacts(w);
    SideTimes(w);
  }

  lemma NoneYet(state: State, w: World, n: nat)
    requires Level(w) && OnMain(state, w, n) && Alone(state)
    ensures IdAt(FirstSide(w)) !in state.store.index && IdAt(SecondSide(w)) !in state.store.index
    ensures IdAt(Twin(w)) !in state.store.index && IdAt(ThirdSide(w)) !in state.store.index
  {
    hide Main, FirstSide, SecondSide, Twin, ThirdSide, Ascends, AllActive, Level;
    forall h | h in state.store.active
      ensures IdAt(Main(w, h)) !in {IdAt(FirstSide(w)), IdAt(SecondSide(w)), IdAt(Twin(w)), IdAt(ThirdSide(w))}
    {
      AllDiffer(w, h);
    }
    NotYet(state, w, n, IdAt(FirstSide(w)));
    NotYet(state, w, n, IdAt(SecondSide(w)));
    NotYet(state, w, n, IdAt(Twin(w)));
    NotYet(state, w, n, IdAt(ThirdSide(w)));
  }

  lemma AsideHolds(state: State, link: Link)
    requires Aside(state, link)
    ensures Holds(state.store.index, link)
  {
    hide Holds;
  }

  lemma AsideStays(state: State, link: Link, other: Link)
    requires Aside(state, link) && IdAt(other) != IdAt(link)
    ensures Aside(StoredAside(state, other), link)
  {
  }

  ghost function FirstRun(w: World, verify: Spend): seq<Event> {
    MainRun(w, w.fork + 2, verify) + [BlockArrived(FirstSide(w).block, verify, true)]
  }

  ghost function SecondRun(w: World, verify: Spend): seq<Event> {
    FirstRun(w, verify) + [BlockArrived(SecondSide(w).block, verify, true)]
  }

  ghost function TwinRun(w: World, verify: Spend): seq<Event> {
    SecondRun(w, verify) + [BlockArrived(Twin(w).block, verify, true)]
  }

  /** Main blocks, three side blocks that are not heavier, and one that is. */
  ghost function StuckRun(w: World, verify: Spend): seq<Event> {
    TwinRun(w, verify) + [BlockArrived(ThirdSide(w).block, verify, true)]
  }

  lemma FirstAside(w: World, verify: Spend)
    requires Level(w)
    ensures var state := Run(Setup(w), FirstRun(w, verify));
            && OnMain(state, w, w.fork + 2) && Aside(state, FirstSide(w))
            && IdAt(SecondSide(w)) !in state.store.index && IdAt(Twin(w)) !in state.store.index
            && IdAt(ThirdSide(w)) !in state.store.index
  {
    hide Inv, Kept, Run, Setup, Child, Main, Aside, OnMain, Alone, MainRun, FirstSide, SecondSide, Twin, ThirdSide;
    var n, main := w.fork + 2, MainRun(w, w.fork + 2, verify);
    MainRuns(w, n, n, verify);
    NoneYet(Run(Setup(w), main), w, n);
    var chain := RunInv(Setup(w), main);
    HoldsMain(Run(Setup(w), main), chain, w, n, w.fork);
    MainIdsDiffer(w, w.fork, n);
    SideTimes(w);
    LevelWork(w);
    SecondIs(w);
    AsideStep(w, n, main, Main(w, w.fork), Clock(w, w.fork + 1), 1, w.extra, verify);
    AllDiffer(w, 0);
  }

  lemma SecondAside(w: World, verify: Spend)
    requires Level(w)
    ensures var state := Run(Setup(w), SecondRun(w, verify));
            && OnMain(state, w, w.fork + 2) && Aside(state, FirstSide(w)) && Aside(state, SecondSide(w))
            && IdAt(Twin(w)) !in state.store.index && IdAt(ThirdSide(w)) !in state.store.index
  {
    hide Run, Setup, Child, Main, Aside, OnMain, FirstRun, FirstSide, SecondSide, Twin, ThirdSide;
    var n, events := w.fork + 2, FirstRun(w, verify);
    FirstAside(w, verify);
    AsideHolds(Run(Setup(w), events), FirstSide(w));
    AllDiffer(w, n);
    SideTimes(w);
    LevelWork(w);
    SecondIs(w);
    AsideStep(w, n, events, FirstSide(w), Clock(w, w.fork + 2), 1, [], verify);
    AsideStays(Run(Setup(w), events), FirstSide(w), SecondSide(w));
  }

  lemma TwinAside(w: World, verify: Spend)
    requires Level(w)
    ensures var state := Run(Setup(w), TwinRun(w, verify));
            && OnMain(state, w, w.fork + 2) && Aside(state, FirstSide(w)) && Aside(state, SecondSide(w))
            && Aside(state, Twin(w)) && IdAt(ThirdSide(w)) !in state.store.index
  {
    hide Run, Setup, Child, Main, Aside, OnMain, SecondRun, FirstSide, SecondSide, ThirdSide;
    var n, events := w.fork + 2, SecondRun(w, verify);
    SecondAside(w, verify);
    AsideHolds(Run(Setup(w), events), FirstSide(w));
    AllDiffer(w, n);
    SideTimes(w);
    LevelWork(w);
    AsideStep(w, n, events, FirstSide(w), Clock(w, w.fork + 2), 2, [], verify);
    AsideStays(Run(Setup(w), events), FirstSide(w), Twin(w));
    AsideStays(Run(Setup(w), events), SecondSide(w), Twin(w));
  }

  // ----- The branch over them is tried -----

  ghost function Attempt(w: World): Rival {
    Rival(w.fork, [FirstSide(w).block, SecondSide(w).block, ThirdSide(w).block])
  }

  lemma NotActive(state: State, w: World, n: nat)
    requires Level(w) && OnMain(state, w, n)
    ensures forall h | h in state.store.active ::
              state.store.active[h] != IdAt(FirstSide(w)) && state.store.active[h] != IdAt(SecondSide(w))
  {
    hide Main, FirstSide, SecondSide, Twin, ThirdSide, Ascends, Level;
    forall h | h in state.store.active
      ensures state.store.active[h] != IdAt(FirstSide(w)) && state.store.active[h] != IdAt(SecondSide(w))
    {
      AllDiffer(w, h);
    }
  }

  lemma UndosThere(state: State, fork: nat)
    requires Kept(state, 0)
    ensures forall h | fork < h <= state.tip.height && h in state.store.active ::
              state.store.active[h] in state.store.undos
  {
  }

  lemma AttemptLinks(state: State, chain: seq<Block>, w: World)
    requires Level(w) && Inv(state, chain, Setup(w)) && OnMain(state, w, w.fork + 2)
    ensures Linked(state.store, Attempt(w))
  {
    hide Inv, Main, FirstSide, SecondSide, ThirdSide, Ascends, Setup, Level;
    ActiveUpTo(state, chain, Setup(w));
    SideFacts(w);
    SideTimes(w);
    assert w.fork in state.store.active;
  }

  lemma AttemptStored(state: State, w: World)
    requires Level(w) && OnMain(state, w, w.fork + 2) && Aside(state, FirstSide(w)) && Aside(state, SecondSide(w))
    ensures StoredBelow(state.store, Attempt(w))
  {
    hide Main, FirstSide, SecondSide, ThirdSide, OnMain, Level;
    NotActive(state, w, w.fork + 2);
  }

  lemma AttemptCompetes(state: State, chain: seq<Block>, w: World)
    requires Level(w) && Inv(state, chain, Setup(w)) && Kept(state, 0) && OnMain(state, w, w.fork + 2)
    requires Aside(state, FirstSide(w)) && Aside(state, SecondSide(w))
    ensures Competes(state, Attempt(w), ThirdSide(w).block)
  {
    hide Inv, Kept, Main, FirstSide, SecondSide, ThirdSide, Ascends, MainIsActive, Aside, Linked, StoredBelow, Setup,
         Level;
    AttemptLinks(state, chain, w);
    AttemptStored(state, w);
    UndosThere(state, w.fork);
  }

  /** The first block of the branch connects to no chain. */
  lemma FirstNeverConnects(w: World, below: seq<Block>, verify: Spend)
    requires Level(w) && |below| == w.fork
    ensures !ConnectsWith(below, FirstSide(w).block, Setup(w).rules, verify)
  {
    hide Child, Main, Setup, Connect, AllGood, ChainApps, Stray;
    if ChainGood(below) {
      NullIsAbsent(below);
      MainFacts(w, w.fork);
      StrayRefused(w, Main(w, w.fork), Clock(w, w.fork + 1), 1, Replayed(below), verify);
    }
  }

  lemma AttemptFails(chain: seq<Block>, w: World, k: nat, verify: Spend)
    requires Level(w) && w.fork <= |chain| && 0 < k <= 3
    ensures !RivalConnects(chain, Attempt(w), k, Setup(w).rules, verify)
  {
    hide FirstSide, SecondSide, ThirdSide, Setup, ConnectsWith, Level;
    var rival := Attempt(w);
    assert chain[..w.fork] + rival.blocks[..0] == chain[..w.fork];
    FirstNeverConnects(w, chain[..w.fork], verify);
  }

  lemma Tainted(index: Index, id: BlockId)
    requires id in index && index[id].height > 0 && IsInvalid(index, index[id].parent)
    ensures !Untainted(index, id)
  {
    assert Lineage(index, [id, index[id].parent]);
  }

  lemma TwinIsOut(w: World)
    requires Level(w)
    ensures InRival(Attempt(w), 0, IdAt(FirstSide(w))) && !InRival(Attempt(w), 0, IdAt(Twin(w)))
  {
    hide FirstSide, SecondSide, Twin, ThirdSide, Level;
    AllDiffer(w, 0);
    assert IdOf(Attempt(w).blocks[0].header) == IdAt(FirstSide(w));
  }

  /** The twin keeps its body and stands on a block that is now invalid. */
  lemma TwinIsTainted(before: Index, after: Index, w: World, tipHeight: nat)
    requires Level(w) && MarkedFrom(before, after, Attempt(w), 0) && OthersStay(before, after, Attempt(w), 0)
    requires Holds(before, Twin(w)) && before[IdAt(Twin(w))] == RecordOf(Twin(w), HeaderValidated, true)
    requires tipHeight == w.fork + 2
    ensures var id := IdAt(Twin(w));
            && id in after && after[id].bodyRetained && after[id].status != Invalid
            && after[id].height + 8_064 > tipHeight && !Untainted(after, id)
  {
    hide FirstSide, SecondSide, Twin, ThirdSide, Untainted, Level, InRival;
    TwinIsOut(w);
    SideTimes(w);
    Tainted(after, IdAt(Twin(w)));
  }

  lemma MarkStays(config: Config, events: seq<Event>, event: Event)
    requires !event.PruneRequested?
    ensures Mark(config, events + [event]) == Mark(config, events)
  {
    hide Run;
    assert (events + [event])[..|events|] == events;
  }

  lemma NoMark(w: World, verify: Spend)
    ensures Mark(Setup(w), TwinRun(w, verify)) == 0
  {
    hide Setup, Mark, FirstSide, SecondSide, Twin, MainRun;
    NeverPruned(w, w.fork + 2, verify);
    MarkStays(Setup(w), MainRun(w, w.fork + 2, verify), BlockArrived(FirstSide(w).block, verify, true));
    MarkStays(Setup(w), FirstRun(w, verify), BlockArrived(SecondSide(w).block, verify, true));
    MarkStays(Setup(w), SecondRun(w, verify), BlockArrived(Twin(w).block, verify, true));
  }

  lemma LedgerHeight(state: State, chain: seq<Block>, config: Config)
    requires Inv(state, chain, config)
    ensures |chain| == state.tip.height
  {
    hide IndexOk, ActiveOk, BodiesOk, TipIsBest, HeaderTipOk, MetaOk, ChainGood;
  }

  lemma ThirdArrives(state: State, chain: seq<Block>, w: World)
    requires Level(w) && Inv(state, chain, Setup(w)) && OnMain(state, w, w.fork + 2)
    requires Aside(state, SecondSide(w)) && IdAt(ThirdSide(w)) !in state.store.index
    ensures var record := RecordOf(ThirdSide(w), HeaderValidated, false);
            && Arrives(state, Setup(w), ThirdSide(w).block, record)
            && record.parent != state.tip.id && record.work > state.tip.work
  {
    hide Inv, Main, Child, FirstSide, SecondSide, OnMain, Aside, Setup, Holds, Twin, RecordOf, Arrives;
    AsideHolds(state, SecondSide(w));
    SideTimes(w);
    LevelWork(w);
    AllDiffer(w, w.fork + 2);
    ChildArrives(state, chain, w, w.fork + 2, SecondSide(w), Clock(w, w.fork + 3), 1, []);
  }

  /** What the last block does: the branch is refused at its first block. */
  lemma AttemptOutcome(state: State, chain: seq<Block>, w: World, verify: Spend)
    requires Level(w) && Inv(state, chain, Setup(w)) && Kept(state, 0) && OnMain(state, w, w.fork + 2)
    requires Aside(state, FirstSide(w)) && Aside(state, SecondSide(w)) && IdAt(ThirdSide(w)) !in state.store.index
    ensures var after := AcceptBlock(state, ThirdSide(w).block, Setup(w), verify, true).state;
            && after == state.(store := state.store.(index := after.store.index))
            && MarkedFrom(state.store.index, after.store.index, Attempt(w), 0)
            && OthersStay(state.store.index, after.store.index, Attempt(w), 0)
  {
    hide Inv, Kept, FirstSide, SecondSide, ThirdSide, OnMain, Aside, Competes, Setup, RivalConnects, MarkedFrom,
         OthersStay, AcceptBlock, Level, Arrives, RefusedWith;
    ThirdArrives(state, chain, w);
    AttemptCompetes(state, chain, w);
    LedgerHeight(state, chain, Setup(w));
    var record := RecordOf(ThirdSide(w), HeaderValidated, false);
    var p := NewHeavier(state, chain, Setup(w), ThirdSide(w).block, record, Attempt(w), verify);
    AttemptFails(chain, w, 3, verify);
    if p > 0 {
      AttemptFails(chain, w, p, verify);
    }
  }

  lemma TwinRecord(state: State, w: World)
    requires Aside(state, Twin(w))
    ensures Holds(state.store.index, Twin(w))
    ensures state.store.index[IdAt(Twin(w))] == RecordOf(Twin(w), HeaderValidated, true)
  {
    hide Twin;
  }

  /** Not every node can prune.  Two siblings are stored on a block that spends what is not there, and
      then one of them gets a child that makes the branch heavier: the branch is refused and marked, but
      the other sibling still has its body.  The session is healthy and no prune changes anything. */
  lemma PruneIsStuck(w: World, verify: Spend)
    requires Level(w)
    ensures var state := Run(Setup(w), StuckRun(w, verify));
            && state.health == SessionHealthy && state.store.health == Some(Healthy)
            && !Prunable(state.store, state.tip.height)
            && forall commitOk :: Handle(state, Setup(w), PruneRequested(commitOk)) == state
  {
    hide Inv, Kept, Run, Setup, Main, Aside, FirstSide, SecondSide, Twin, ThirdSide, TwinRun, Prunable, Mark,
         MarkedFrom, OthersStay, Fits, Untainted, AcceptBlock, Ascends, MainIsActive, RecordOf, Holds;
    var events := TwinRun(w, verify);
    var before := Run(Setup(w), events);
    TwinAside(w, verify);
    NoMark(w, verify);
    var chain := RunInv(Setup(w), events);
    AttemptOutcome(before, chain, w, verify);
    RunSnoc(Setup(w), events, BlockArrived(ThirdSide(w).block, verify, true));
    var after := Run(Setup(w), StuckRun(w, verify));
    TwinRecord(before, w);
    TwinIsTainted(before.store.index, after.store.index, w, after.tip.height);
    RunPrunable(Setup(w), StuckRun(w, verify));
  }
}
