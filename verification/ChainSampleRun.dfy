/** A node that receives the main branch, and what it then does with a child of a block it knows. */
module ChainSampleRun {
  import opened Prelude
  import opened MerkleRoot
  import opened ChainTypes
  import opened ChainBlocks
  import opened ChainHistory
  import opened ChainStore
  import opened ChainSteps
  import opened ChainInvariant
  import opened ChainBranch
  import opened ChainConsensus
  import opened ChainSamples
  import opened ChainReopen
  import opened ChainRun
  import Asert

  // ----- What the index holds -----

  ghost function RecordOf(link: Link, status: Status, retained: bool): Record {
    Record(link.block.header, link.block.header.previous, link.height, link.work, status, retained)
  }

  ghost predicate Holds(index: Index, link: Link) {
    && IdAt(link) in index && index[IdAt(link)].header == link.block.header
    && index[IdAt(link)].height == link.height && index[IdAt(link)].work == link.work
  }

  lemma ParentThere(index: Index, anchor: BlockId, id: BlockId)
    requires IndexOk(index, anchor) && id in index && index[id].height > 0
    ensures index[id].parent in index
  {
    hide BlockWork;
    if id != anchor {
      assert Follows(index, index[id]);
    }
  }

  /** A record that is later than its parent keeps the times ascending. */
  lemma AscendsPut(index: Index, anchor: BlockId, record: Record)
    requires IndexOk(index, anchor) && Ascends(index) && record.status != Invalid
    requires record.parent in index && record.header.timestamp > index[record.parent].header.timestamp
    ensures Ascends(index[IdOf(record.header) := record])
  {
    hide Follows;
    var id, next := IdOf(record.header), index[IdOf(record.header) := record];
    forall x | x in next && next[x].height > 0 && next[x].parent in next
      ensures next[x].header.timestamp > next[next[x].parent].header.timestamp
    {
      if x != id {
        ParentThere(index, anchor, x);
      }
    }
  }

  lemma NotInvalid(index: Index, id: BlockId)
    requires Ascends(index) && id in index
    ensures index[id].status != Invalid
  {
  }

  /** A child of a block in the index passes the rules and gets its record. */
  lemma ChildValidates(state: State, chain: seq<Block>, w: World, parent: Link, time: u64, nonce: u64,
                       extra: seq<ChainTx>)
    requires Inv(state, chain, Setup(w)) && Ascends(state.store.index) && Asert.ParamsOk(w.params)
    requires Holds(state.store.index, parent) && parent.height < U64_MAX && time > parent.block.header.timestamp
    ensures var child := Child(w, parent, time, nonce, extra);
            ValidateHeader(state.store, child.block.header, Setup(w))
                == Success(RecordOf(child, HeaderValidated, false))
  {
    hide Child, Ascends, HeaderRule, BlockWork, IndexOk, ActiveOk, BodiesOk, TipIsBest, HeaderTipOk, LedgerOk,
         Asert.TargetAt, Asert.Exponent;
    ChildFacts(w, parent, time, nonce, extra);
    var header := Child(w, parent, time, nonce, extra).block.header;
    LaterPasses(state.store, IdOf(Anchor(w)), header, w.genesis, w.params);
    NotInvalid(state.store.index, IdAt(parent));
  }

  // ----- The main branch -----

  ghost predicate MainIsActive(active: Active, w: World) {
    forall h | h in active :: active[h] == IdAt(Main(w, h))
  }

  /** A healthy session on the first `n` main blocks. */
  ghost predicate OnMain(state: State, w: World, n: nat) {
    && state.health == SessionHealthy && state.store.health == Some(Healthy)
    && state.tip == Tip(IdAt(Main(w, n)), n, Main(w, n).work)
    && MainIsActive(state.store.active, w) && Ascends(state.store.index)
  }

  ghost predicate AllActive(active: Active, index: Index) {
    forall id | id in index :: index[id].height in active && active[index[id].height] == id
  }

  /** Nothing else is in the index, and the header tip is the tip. */
  ghost predicate Alone(state: State) {
    state.headerTip == state.tip && AllActive(state.store.active, state.store.index)
  }

  lemma OneMoreActive(active: Active, index: Index, h: nat, record: Record)
    requires AllActive(active, index) && h !in active && record.height == h
    ensures AllActive(active[h := IdOf(record.header)], index[IdOf(record.header) := record])
  {
  }

  lemma OneMoreMain(active: Active, w: World, h: nat)
    requires MainIsActive(active, w)
    ensures MainIsActive(active[h := IdAt(Main(w, h))], w)
  {
  }

  lemma ActiveUpTo(state: State, chain: seq<Block>, config: Config)
    requires Inv(state, chain, config)
    ensures forall h :: h in state.store.active <==> 0 <= h <= state.tip.height
    ensures forall h | h in state.store.active ::
              state.store.active[h] in state.store.index && state.store.index[state.store.active[h]].height == h
    ensures state.store.active[0] == IdOf(config.anchorHeader)
    ensures state.tip.height in state.store.active && state.store.active[state.tip.height] == state.tip.id
  {
    hide IndexOk, BodiesOk, TipIsBest, HeaderTipOk, LedgerOk;
  }

  ghost function MainTime(w: World, n: nat): u64 {
    Clock(w, n + if n > w.fork then w.late else 0)
  }

  lemma NextMain(w: World, n: nat)
    ensures Main(w, n + 1) == Child(w, Main(w, n), MainTime(w, n + 1), 0, [])
  {
  }

  lemma IndexFact(state: State, chain: seq<Block>, config: Config)
    requires Inv(state, chain, config)
    ensures IndexOk(state.store.index, IdOf(config.anchorHeader))
  {
    hide IndexOk, ActiveOk, BodiesOk, TipIsBest, HeaderTipOk, LedgerOk;
  }

  lemma HoldsAnchor(state: State, chain: seq<Block>, w: World)
    requires Inv(state, chain, Setup(w))
    ensures Holds(state.store.index, Main(w, 0))
  {
    hide ActiveOk, BodiesOk, TipIsBest, HeaderTipOk, LedgerOk, Follows, Coinbase, Tree, LeafHashes;
  }

  lemma HoldsChild(index: Index, anchor: BlockId, w: World, parent: Link, time: u64, nonce: u64, extra: seq<ChainTx>)
    requires IndexOk(index, anchor) && Holds(index, parent)
    requires var id := IdAt(Child(w, parent, time, nonce, extra)); id in index && index[id].height == parent.height + 1
    ensures Holds(index, Child(w, parent, time, nonce, extra))
  {
    hide BlockWork, Child, TargetAbove;
    var id := IdAt(Child(w, parent, time, nonce, extra));
    ChildFacts(w, parent, time, nonce, extra);
    assert Follows(index, index[id]);
  }

  /** The index tells of every main block what the branch says. */
  lemma {:induction false} HoldsMain(state: State, chain: seq<Block>, w: World, n: nat, h: nat)
    requires Inv(state, chain, Setup(w)) && OnMain(state, w, n) && h <= n
    ensures Holds(state.store.index, Main(w, h))
  {
    hide Inv, Main, Child, Ascends, Setup, Holds, IndexOk;
    ActiveUpTo(state, chain, Setup(w));
    assert h in state.store.active;
    if h == 0 {
      HoldsAnchor(state, chain, w);
    } else {
      HoldsMain(state, chain, w, n, h - 1);
      MainFacts(w, h - 1);
      NextMain(w, h - 1);
      IndexFact(state, chain, Setup(w));
      HoldsChild(state.store.index, IdOf(Setup(w).anchorHeader), w, Main(w, h - 1), MainTime(w, h), 0, []);
    }
  }

  lemma NotYet(state: State, w: World, n: nat, id: BlockId)
    requires OnMain(state, w, n) && Alone(state) && forall h | h in state.store.active :: id != IdAt(Main(w, h))
    ensures id !in state.store.index
  {
    hide Main, Ascends;
  }

  lemma MainTimes(w: World, n: nat, h: nat)
    requires Fits(w, n) && h < n
    ensures MainTime(w, h + 1) > Main(w, h).block.header.timestamp && Main(w, h).height == h
  {
    hide Main;
    MainFacts(w, h);
  }

  /** The next main block is new, validated, and extends the tip. */
  lemma MainExtends(state: State, chain: seq<Block>, w: World, n: nat, h: nat, verify: Spend)
    requires Fits(w, n) && h < n && Inv(state, chain, Setup(w)) && OnMain(state, w, h) && Alone(state)
    ensures var next := Main(w, h + 1);
            && IdAt(next) !in state.store.index && next.height == h + 1
            && AcceptHealthyBlock(state, next.block, Setup(w), verify, true)
               == Extend(state, next.block, h + 1, next.work, Setup(w), verify, true)
  {
    hide Inv, Extend, Main, Child, ValidateHeader, Setup, Ascends, AllActive;
    ActiveUpTo(state, chain, Setup(w));
    forall k | k in state.store.active
      ensures IdAt(Main(w, h + 1)) != IdAt(Main(w, k))
    {
      MainIdsDiffer(w, k, h + 1);
    }
    NotYet(state, w, h, IdAt(Main(w, h + 1)));
    HoldsMain(state, chain, w, h, h);
    MainFacts(w, h + 1);
    MainTimes(w, n, h);
    NextMain(w, h);
    ChildValidates(state, chain, w, Main(w, h), MainTime(w, h + 1), 0, []);
  }

  lemma EmptyAtStart(state: State, chain: seq<Block>, config: Config)
    requires Inv(state, chain, config)
    ensures state.tip.height == 0 ==> state.utxos == map[]
  {
    hide IndexOk, ActiveOk, BodiesOk, TipIsBest, HeaderTipOk, ChainGood, UndoOf;
    NothingReplayed();
  }

  lemma ExtendedMain(state: State, chain: seq<Block>, w: World, n: nat, h: nat, verify: Spend)
    requires Fits(w, n) && h < n && Inv(state, chain, Setup(w)) && OnMain(state, w, h) && Alone(state)
    ensures var r := Extend(state, Main(w, h + 1).block, h + 1, Main(w, h + 1).work, Setup(w), verify, true);
            r.result.Success? && OnMain(r.state, w, h + 1) && Alone(r.state)
  {
    hide Inv, Connect, ConnectDelta, Patched, Main, Child, Setup, AllActive, MainIsActive, Ascends;
    var next, s := Main(w, h + 1), state.store;
    MainFacts(w, h);
    NextMain(w, h);
    ChildFacts(w, Main(w, h), MainTime(w, h + 1), 0, []);
    MainTimes(w, n, h);
    ActiveUpTo(state, chain, Setup(w));
    EmptyAtStart(state, chain, Setup(w));
    BareConnects(w, Main(w, h), MainTime(w, h + 1), 0, state.utxos, verify);
    OneMoreActive(s.active, s.index, h + 1, RecordOf(next, FullyValidated, true));
    OneMoreMain(s.active, w, h + 1);
    HoldsMain(state, chain, w, h, h);
    IndexFact(state, chain, Setup(w));
    AscendsPut(s.index, IdOf(Setup(w).anchorHeader), RecordOf(next, FullyValidated, true));
  }

  lemma MainStep(state: State, chain: seq<Block>, w: World, n: nat, h: nat, verify: Spend)
    requires Fits(w, n) && h < n && Inv(state, chain, Setup(w)) && OnMain(state, w, h) && Alone(state)
    ensures var r := Handle(state, Setup(w), BlockArrived(Main(w, h + 1).block, verify, true));
            OnMain(r, w, h + 1) && Alone(r)
  {
    hide Inv, Main, Setup, AcceptHealthyBlock, Alone, Extend, MainIsActive, Ascends;
    MainExtends(state, chain, w, n, h, verify);
    ExtendedMain(state, chain, w, n, h, verify);
  }

  ghost function MainRun(w: World, n: nat, verify: Spend): seq<Event> {
    if n == 0 then [] else MainRun(w, n - 1, verify) + [BlockArrived(Main(w, n).block, verify, true)]
  }

  lemma MainStart(w: World)
    ensures OnMain(Bootstrapped(Setup(w)), w, 0) && Alone(Bootstrapped(Setup(w)))
  {
    hide Tree, LeafHashes, Coinbase;
  }

  lemma {:induction false} MainRuns(w: World, n: nat, h: nat, verify: Spend)
    requires Fits(w, n) && h <= n
    ensures OnMain(Run(Setup(w), MainRun(w, h, verify)), w, h) && Alone(Run(Setup(w), MainRun(w, h, verify)))
  {
    hide OnMain, Alone, Handle, Inv, Kept, Limited, Setup, Main, Mark, Fits;
    if h == 0 {
      MainStart(w);
    } else {
      MainRuns(w, n, h - 1, verify);
      var chain := RunInv(Setup(w), MainRun(w, h - 1, verify));
      MainStep(Run(Setup(w), MainRun(w, h - 1, verify)), chain, w, n, h - 1, verify);
      assert MainRun(w, h, verify)[..|MainRun(w, h, verify)| - 1] == MainRun(w, h - 1, verify);
    }
  }

  lemma {:induction false} NeverPruned(w: World, n: nat, verify: Spend)
    ensures Mark(Setup(w), MainRun(w, n, verify)) == 0
  {
    hide Setup, Main, Run;
    if n > 0 {
      NeverPruned(w, n - 1, verify);
      assert MainRun(w, n, verify)[..|MainRun(w, n, verify)| - 1] == MainRun(w, n - 1, verify);
    }
  }

  lemma RunSnoc(config: Config, events: seq<Event>, event: Event)
    ensures Run(config, events + [event]) == Handle(Run(config, events), config, event)
  {
    assert (events + [event])[..|events|] == events;
  }
}
