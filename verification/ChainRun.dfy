/** Whole lives of a node: headers, blocks, prunes and restarts in any order, with any pattern of
    failing writes. */
module ChainRun {
  import opened Prelude
  import opened ChainTypes
  import opened ChainStore
  import opened ChainReorg
  import opened ChainSteps
  import opened ChainInvariant
  import opened ChainPrune
  import opened ChainWitness
  import opened ChainAccept
  import opened ChainBranch
  import opened ChainRecovery
  import opened ChainReopen

  /** A call, with whether its write went through, or a restart of the node. */
  datatype Event =
    | HeaderArrived(header: Header, commitOk: bool)
    | BlockArrived(block: Block, verify: Spend, commitOk: bool)
    | PruneRequested(commitOk: bool)
    | Restarted

  /** Memory is lost and read back from the store.  A store that is refused leaves no session, which
      answers no call, like a faulted one. */
  function Restart(state: State, config: Config): State {
    if state.store.tip.None? then state.(health := SessionFaulted)
    else
      match Reopen(state.store, config, state.store.tip.value)
      case Success(r) => State(state.store, r.tip, r.headerTip, r.utxos, SessionHealthy)
      case Failure(_) => state.(health := SessionFaulted)
  }

  ghost function Handle(state: State, config: Config, event: Event): State {
    match event
    case HeaderArrived(header, commitOk) => AcceptHeader(state, header, config, commitOk).state
    case BlockArrived(block, verify, commitOk) => AcceptBlock(state, block, config, verify, commitOk).state
    case PruneRequested(commitOk) => Prune(state, commitOk)
    case Restarted => Restart(state, config)
  }

  ghost function Run(config: Config, events: seq<Event>): State {
    if events == [] then Bootstrapped(config)
    else Handle(Run(config, events[..|events| - 1]), config, events[|events| - 1])
  }

  ghost function NextMark(state: State, mark: nat, event: Event): nat {
    if event.PruneRequested? && PruneHappens(state, event.commitOk) then Max(mark, SafeCursor(state.tip.height))
        else mark
  }

  /** Up to which height the prunes so far have emptied the active chain. */
  ghost function Mark(config: Config, events: seq<Event>): nat {
    if events == [] then 0
    else NextMark(Run(config, events[..|events| - 1]), Mark(config, events[..|events| - 1]), events[|events| - 1])
  }

  ghost predicate Good(state: State, chain: seq<Block>, config: Config, mark: nat) {
    && Inv(state, chain, config) && Kept(state, mark) && Limited(state.store.index, config.powLimit)
    && ProvenState(state, chain, config)
  }

  lemma GoodStart(config: Config)
    ensures Good(Bootstrapped(config), [], config, 0)
  {
    hide Inv, Kept;
    BootstrapInv(config);
  }

  lemma SessionDoesNotMatter(state: State, chain: seq<Block>, config: Config, mark: nat)
    requires Inv(state, chain, config) && Kept(state, mark)
    ensures forall health :: Inv(state.(health := health), chain, config) && Kept(state.(health := health), mark)
  {
    hide IndexOk, ActiveOk, BodiesOk, TipIsBest, LedgerOk, HeaderTipOk, Retained;
  }

  /** What a restart needs of the store. */
  ghost predicate Restartable(state: State, mark: nat) {
    && state.store.health == Some(Healthy)
    && mark <= SafeCursor(state.tip.height) && Untainted(state.store.index, state.headerTip.id)
  }

  /** A restart changes nothing but the session: it is healthy again, or there is none. */
  lemma RestartOutcome(state: State, chain: seq<Block>, config: Config, mark: nat)
    requires Good(state, chain, config, mark)
    ensures Restart(state, config) == state.(health := if Restartable(state, mark) then SessionHealthy
                                             else SessionFaulted)
  {
    hide Inv, Limited, Kept, Reopen, Untainted;
    ReopenOutcome(state, chain, config, mark);
  }

  lemma HandleLimited(state: State, chain: seq<Block>, config: Config, event: Event)
    requires Inv(state, chain, config) && Limited(state.store.index, config.powLimit)
    ensures Limited(Handle(state, config, event).store.index, config.powLimit)
  {
    hide Inv, Place, Pruned, Prunable, Limited, Reopen;
    var limit, index := config.powLimit, state.store.index;
    match event
    case HeaderArrived(header, commitOk) =>
      var record := ValidateHeader(state.store, header, config);
      if record.Success? {
        LimitedPut(index, limit, record.value);
      }
    case BlockArrived(block, verify, commitOk) =>
      var id := IdOf(block.header);
      if id in index {
        KnownLimited(state, chain, config, id, block);
        if index[id].status == HeaderValidated && index[id].header == block.header {
          PlaceLimited(state, block, index[id], config, verify, commitOk, limit);
        }
      } else if ValidateHeader(state.store, block.header, config).Success? {
        PlaceLimited(state, block, ValidateHeader(state.store, block.header, config).value, config, verify, commitOk,
                     limit);
      }
    case PruneRequested(commitOk) =>
      PrunedLimited(state.store, state.tip.height, limit);
    case Restarted =>
  }

  /** No call and no restart lowers the work of the tip. */
  lemma HandleInv(state: State, chain: seq<Block>, config: Config, event: Event, mark: nat) returns (next: seq<Block>)
    requires Good(state, chain, config, mark)
    ensures Good(Handle(state, config, event), next, config, NextMark(state, mark, event))
    ensures Handle(state, config, event).tip.work >= state.tip.work
  {
    hide Inv, AcceptHeader, AcceptBlock, Kept, Prunable, Pruned, Limited, Restart;
    HandleLimited(state, chain, config, event);
    match event
    case HeaderArrived(header, commitOk) =>
      AcceptHeaderOk(state, chain, config, header, commitOk);
      next := chain;
    case BlockArrived(block, verify, commitOk) =>
      next := AcceptBlockOk(state, chain, config, block, verify, commitOk);
    case PruneRequested(commitOk) =>
      PruneKeeps(state, chain, config);
      PruneMarks(state, chain, config, mark);
      ProvenPrune(state, chain, config);
      next := chain;
    case Restarted =>
      RestartOutcome(state, chain, config, mark);
      SessionDoesNotMatter(state, chain, config, mark);
      next := chain;
  }

  /** Over every run there is a chain of blocks such that memory, disk and its replay agree, every
      stored undo of an active block is exact, no retained valid block beats the tip, and exactly
      the active blocks above the mark have their data. */
  lemma {:induction false} RunInv(config: Config, events: seq<Event>) returns (chain: seq<Block>)
    ensures Good(Run(config, events), chain, config, Mark(config, events))
  {
    hide Good, Handle, NextMark;
    if events == [] {
      GoodStart(config);
      chain := [];
    } else {
      var front := events[..|events| - 1];
      chain := RunInv(config, front);
      chain := HandleInv(Run(config, front), chain, config, events[|events| - 1], Mark(config, front));
    }
  }

  /** Why the node is where it is, over every run: each block of the chain connects on the replay below
      it, each block marked invalid has on its branch a block that does not, and no block that is not
      marked beats the preferred header. */
  lemma RunIsWitnessed(config: Config, events: seq<Event>) returns (chain: seq<Block>)
    ensures var state, anchor := Run(config, events), IdOf(config.anchorHeader);
            && AllConnect(chain, config.rules) && Inv(state, chain, config)
            && (forall id | id in state.store.index && state.store.index[id].status == Invalid ::
                  Blamed(id, anchor, config.rules))
            && forall id | id in state.store.index && state.store.index[id].status != Invalid ::
                 state.store.index[id].work <= state.headerTip.work
  {
    hide Run, Inv, Kept, Limited, Blamed, AllConnect;
    chain := RunInv(config, events);
  }

  // ----- When a restart succeeds -----

  /** No prune of the run was made at a tip whose cursor lies above that of height `h`. */
  ghost predicate PrunedWithin(config: Config, events: seq<Event>, h: nat) {
    forall k | 0 <= k < |events| && events[k].PruneRequested?
        && PruneHappens(Run(config, events[..k]), events[k].commitOk) ::
      SafeCursor(Run(config, events[..k]).tip.height) <= SafeCursor(h)
  }

  lemma {:induction false} MarkMeans(config: Config, events: seq<Event>, h: nat)
    ensures Mark(config, events) <= SafeCursor(h) <==> PrunedWithin(config, events, h)
  {
    hide Run, PruneHappens;
    if events != [] {
      var front := events[..|events| - 1];
      MarkMeans(config, front, h);
      assert forall k | 0 <= k < |front| :: events[..k] == front[..k] && events[k] == front[k];
      assert events[..|front|] == front;
      assert PrunedWithin(config, front, h) <==>
        forall k | 0 <= k < |front| && events[k].PruneRequested?
            && PruneHappens(Run(config, events[..k]), events[k].commitOk) ::
          SafeCursor(Run(config, events[..k]).tip.height) <= SafeCursor(h);
    }
  }

  /** After every run, with any prunes and failed writes, a store that does not require a reindex
      reopens to the tips and the ledger of the session if and only if no prune was made at a tip
      whose cursor lies above that of the present one, and no block on the branch of the preferred
      header is marked invalid; otherwise the store is called corrupt. */
  lemma RunReopens(config: Config, events: seq<Event>)
    ensures var state := Run(config, events);
            && state.store.tip == Some(Point(state.tip.id, state.tip.height))
            && Reopen(state.store, config, Point(state.tip.id, state.tip.height))
               == if state.store.health != Some(Healthy) then Failure(ReindexNeeded)
                  else if PrunedWithin(config, events, state.tip.height)
                       && Untainted(state.store.index, state.headerTip.id) then
                    Success(Reopened(state.tip, state.headerTip, state.utxos))
                  else Failure(CorruptState)
  {
    hide Inv, Run, Limited, Kept, Reopen, PrunedWithin, Untainted;
    var chain := RunInv(config, events);
    ReopenOutcome(Run(config, events), chain, config, Mark(config, events));
    MarkMeans(config, events, Run(config, events).tip.height);
  }

  /** So a node that is restarted there goes on exactly where it was. */
  lemma RunResumes(config: Config, events: seq<Event>)
    ensures var state := Run(config, events);
            var resumes := state.store.health == Some(Healthy) && PrunedWithin(config, events, state.tip.height)
                           && Untainted(state.store.index, state.headerTip.id);
            Run(config, events + [Restarted]) == state.(health := if resumes then SessionHealthy else SessionFaulted)
  {
    hide Good, Restart, PrunedWithin, Untainted;
    assert (events + [Restarted])[..|events|] == events;
    var chain := RunInv(config, events);
    RestartOutcome(Run(config, events), chain, config, Mark(config, events));
    MarkMeans(config, events, Run(config, events).tip.height);
  }
}
