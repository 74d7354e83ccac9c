/** The chain state object: every call changes memory and store exactly as its step says. */
module ChainObject {
  import opened Prelude
  import opened ChainTypes
  import opened ChainBlocks
  import opened ChainStore
  import opened ChainReorg
  import opened ChainSteps
  import opened ChainPrune
  import opened ChainAccept
  import opened ChainLoops
  import opened ChainRecovery
  import ChainPlan

  // ----- Batches -----

  lemma CommitFew(s: Store, a: Op, b: Op)
    ensures Commit(s, [a]) == Perform(s, a) && Commit(s, [a, b]) == Perform(Perform(s, a), b)
  {
    hide Perform;
    CommitSnoc(s, [], a);
    CommitSnoc(s, [a], b);
    assert [] + [a] == [a] && [a] + [b] == [a, b];
  }

  lemma CommitFour(s: Store, a: Op, b: Op, c: Op, d: Op)
    ensures Commit(s, [a, b, c, d]) == Perform(Perform(Perform(Perform(s, a), b), c), d)
  {
    hide Perform;
    CommitConcat(s, [a, b], [c, d]);
    assert [a, b] + [c, d] == [a, b, c, d];
    CommitFew(s, a, b);
    CommitFew(Commit(s, [a, b]), c, d);
  }

  lemma ChainOps(s: Store, record: Record, point: Point)
    requires point.id == IdOf(record.header)
    ensures Commit(s, [PutIndex(record), SetActiveHeight(0, point.id), SetTip(point), SetHeaderTip(point)])
         == s.(index := s.index[point.id := record], active := s.active[0 := point.id], tip := Some(point),
               headerTip := Some(point))
  {
    hide Commit;
    CommitFour(s, PutIndex(record), SetActiveHeight(0, point.id), SetTip(point), SetHeaderTip(point));
  }

  lemma OriginOps(s: Store, id: BlockId, time: u64)
    ensures Commit(s, [SetAnchor(id), SetGenesisTime(time)]) == s.(anchor := Some(id), genesisTime := Some(time))
  {
    hide Commit;
    CommitFew(s, SetAnchor(id), SetGenesisTime(time));
  }

  lemma CursorOps(s: Store)
    ensures Commit(s, [SetHealth(Healthy), SetPruneCursor(0)]) == s.(health := Some(Healthy), pruneCursor := Some(0))
  {
    hide Commit;
    CommitFew(s, SetHealth(Healthy), SetPruneCursor(0));
  }

  lemma MetaOps(s: Store, id: BlockId, time: u64)
    ensures Commit(s, [SetAnchor(id), SetGenesisTime(time), SetHealth(Healthy), SetPruneCursor(0)])
         == s.(anchor := Some(id), genesisTime := Some(time), health := Some(Healthy), pruneCursor := Some(0))
  {
    hide Commit;
    CommitConcat(s, [SetAnchor(id), SetGenesisTime(time)], [SetHealth(Healthy), SetPruneCursor(0)]);
    assert [SetAnchor(id), SetGenesisTime(time)] + [SetHealth(Healthy), SetPruneCursor(0)]
        == [SetAnchor(id), SetGenesisTime(time), SetHealth(Healthy), SetPruneCursor(0)];
    OriginOps(s, id, time);
    CursorOps(s.(anchor := Some(id), genesisTime := Some(time)));
  }

  lemma BootstrapCommit(config: Config, s: Store)
    ensures var id := IdOf(config.anchorHeader);
            var record := Record(config.anchorHeader, config.anchorHeader.previous, 0, 0, FullyValidated, false);
            Commit(s, [PutIndex(record), SetActiveHeight(0, id), SetTip(Point(id, 0)), SetHeaderTip(Point(id, 0)),
                       SetAnchor(id), SetGenesisTime(config.genesisTime), SetHealth(Healthy), SetPruneCursor(0)])
            == WithAnchor(s, config)
  {
    hide Commit;
    var id := IdOf(config.anchorHeader);
    var record := Record(config.anchorHeader, config.anchorHeader.previous, 0, 0, FullyValidated, false);
    ChainOps(s, record, Point(id, 0));
    var a := [PutIndex(record), SetActiveHeight(0, id), SetTip(Point(id, 0)), SetHeaderTip(Point(id, 0))];
    var b := [SetAnchor(id), SetGenesisTime(config.genesisTime), SetHealth(Healthy), SetPruneCursor(0)];
    assert a + b == [PutIndex(record), SetActiveHeight(0, id), SetTip(Point(id, 0)), SetHeaderTip(Point(id, 0)),
                     SetAnchor(id), SetGenesisTime(config.genesisTime), SetHealth(Healthy), SetPruneCursor(0)];
    CommitConcat(s, a, b);
    MetaOps(Commit(s, a), id, config.genesisTime);
  }

  lemma CommitThree(s: Store, block: Block, record: Record, id: BlockId, undo: BlockUndo)
    requires id == IdOf(block.header) == IdOf(record.header)
    ensures Commit(s, [PutBlock(block), PutIndex(record), PutUndo(id, undo)])
         == s.(blocks := s.blocks[id := block], index := s.index[id := record], undos := s.undos[id := undo])
  {
    CommitFew(s, PutBlock(block), PutIndex(record));
    CommitSnoc(s, [PutBlock(block), PutIndex(record)], PutUndo(id, undo));
    assert [PutBlock(block), PutIndex(record)] + [PutUndo(id, undo)]
        == [PutBlock(block), PutIndex(record), PutUndo(id, undo)];
  }

  lemma HeaderOfRecord(store: Store, header: Header, config: Config)
    ensures ValidateHeader(store, header, config).Success? ==>
              ValidateHeader(store, header, config).value.header == header
  {
  }

  method FinishTip(ghost s: Store, batch: seq<Op>, ghost at: Store, point: Point, preferred: bool) returns (r: seq<Op>)
    requires Commit(s, batch) == at
    ensures Commit(s, r) == at.(tip := Some(point), headerTip := if preferred then Some(point) else at.headerTip)
  {
    hide Commit;
    CommitSnoc(s, batch, SetTip(point));
    r := batch + [SetTip(point)];
    if preferred {
      CommitSnoc(s, r, SetHeaderTip(point));
      r := r + [SetHeaderTip(point)];
    }
  }

  /** Appends the active height, the tip and, if it wins, the header tip. */
  method FinishBatch(ghost s: Store, batch: seq<Op>, ghost at: Store, point: Point, preferred: bool)
    returns (r: seq<Op>)
    requires Commit(s, batch) == at
    ensures Commit(s, r) == at.(active := at.active[point.height := point.id], tip := Some(point),
                                headerTip := if preferred then Some(point) else at.headerTip)
  {
    hide Commit;
    CommitSnoc(s, batch, SetActiveHeight(point.height, point.id));
    r := batch + [SetActiveHeight(point.height, point.id)];
    r := FinishTip(s, r, at.(active := at.active[point.height := point.id]), point, preferred);
  }

  method MarkBatch(ghost s: Store, bodies: seq<Body>, candidate: BlockId) returns (batch: seq<Op>)
    ensures Commit(s, batch) == MarkInvalid(s, bodies, candidate)
  {
    hide Commit;
    batch := [];
    NoOps(s);
    for i := 0 to |bodies|
      invariant Commit(s, batch) == MarkInvalid(s, bodies[..i], candidate)
    {
      var body := bodies[i];
      var record := body.record.(status := Invalid);
      if body.id == candidate {
        record := record.(bodyRetained := false);
      }
      assert bodies[..i + 1][..i] == bodies[..i];
      CommitSnoc(s, batch, PutIndex(record));
      batch := batch + [PutIndex(record)];
    }
    assert bodies[..|bodies|] == bodies;
  }

  function BodyOps(body: Body, undo: BlockUndo): seq<Op> {
    [PutBlock(body.block), PutIndex(body.record.(status := FullyValidated, bodyRetained := true)),
     PutUndo(body.id, undo), SetActiveHeight(body.record.height, body.id)]
  }

  lemma PutNothing(cut: Store, bodies: seq<Body>, undos: seq<BlockUndo>)
    ensures PutBodies(cut, bodies, undos, 0) == cut
  {
  }

  lemma PutStep(s: Store, batch: seq<Op>, cut: Store, bodies: seq<Body>, undos: seq<BlockUndo>, i: nat)
    requires i < |bodies| && i < |undos| && Commit(s, batch) == PutBodies(cut, bodies, undos, i)
    ensures Commit(s, batch + BodyOps(bodies[i], undos[i])) == PutBodies(cut, bodies, undos, i + 1)
  {
    hide Commit;
    var body, ops := bodies[i], BodyOps(bodies[i], undos[i]);
    CommitConcat(s, batch, ops);
    CommitFour(Commit(s, batch), ops[0], ops[1], ops[2], ops[3]);
  }

  lemma DropNothing(s: Store, low: nat)
    ensures forall high: nat | high <= low :: DropActive(s, low, high) == s
  {
    forall high: nat | high <= low
      ensures DropActive(s, low, high).active == s.active
    {
    }
  }

  lemma DropStep(s: Store, low: nat, height: nat)
    requires low < height
    ensures DropActive(s, low, height)
         == DropActive(s, low, height - 1).(active := DropActive(s, low, height - 1).active - {height})
  {
    assert DropActive(s, low, height).active == DropActive(s, low, height - 1).active - {height};
  }

  method DropBatch(ghost s: Store, low: nat, high: nat) returns (batch: seq<Op>)
    ensures Commit(s, batch) == DropActive(s, low, high)
  {
    hide Commit, DropActive;
    batch := [];
    NoOps(s);
    DropNothing(s, low);
    if low < high {
      for height := low + 1 to high + 1
        invariant Commit(s, batch) == DropActive(s, low, height - 1)
      {
        CommitSnoc(s, batch, DeleteActiveHeight(height));
        DropStep(s, low, height);
        batch := batch + [DeleteActiveHeight(height)];
      }
    }
  }

  /** Deletes the replaced heights, stores the new branch, the ledger changes and the tip. */
  method SwitchBatch(ghost s: Store, tipHeight: nat, plan: Plan, undos: seq<BlockUndo>, delta: Delta, point: Point,
                     preferred: bool)
    returns (batch: seq<Op>)
    requires |undos| == |plan.bodies|
    ensures Commit(s, batch) == SwitchedStore(s, tipHeight, plan, undos, delta, point, preferred)
  {
    hide Commit, Patched, PutBodies, DropActive;
    batch := DropBatch(s, plan.forkHeight, tipHeight);
    ghost var cut := DropActive(s, plan.forkHeight, tipHeight);
    PutNothing(cut, plan.bodies, undos);
    for i := 0 to |plan.bodies|
      invariant Commit(s, batch) == PutBodies(cut, plan.bodies, undos, i)
    {
      PutStep(s, batch, cut, plan.bodies, undos, i);
      batch := batch + BodyOps(plan.bodies[i], undos[i]);
    }
    ghost var put := PutBodies(cut, plan.bodies, undos, |plan.bodies|);
    ChainPlan.PutBodiesFrame(cut, plan.bodies, undos, |plan.bodies|);
    ChainPlan.DropActiveFrame(s, plan.forkHeight, tipHeight);
    batch := AppendDelta(s, batch, delta);
    batch := FinishTip(s, batch, put.(utxos := Patched(s.utxos, delta)), point, preferred);
  }

  // ----- The object -----

  class ChainState {
    const config: Config
    var store: Store
    var tip: Tip
    var headerTip: Tip
    var utxos: Coins
    var health: SessionHealth

    ghost function View(): State
      reads this
    {
      State(store, tip, headerTip, utxos, health)
    }

    constructor (config: Config, state: State)
      ensures this.config == config && View() == state
    {
      this.config := config;
      store, tip, headerTip, utxos, health := state.store, state.tip, state.headerTip, state.utxos, state.health;
    }

    /** A session on a store: bootstrapped with the anchor alone, or recovered. */
    static method Open(db: Store, config: Config, commitOk: bool) returns (r: Result<ChainState, ChainError>)
      ensures var outcome := ChainRecovery.Open(db, config, commitOk);
              && (outcome.Failure? ==> r == Failure(outcome.error))
              && (outcome.Success? ==>
                    && r.Success? && fresh(r.value) && r.value.config == config
                    && r.value.View() == outcome.value)
    {
      hide Reopen, Commit;
      var checked := ValidateConfig(config);
      if checked.Failure? {
        return Failure(checked.error);
      }
      if db.tip.Some? {
        var reopened := ReopenStore(db, config, db.tip.value);
        if reopened.Failure? {
          return Failure(reopened.error);
        }
        var found := reopened.value;
        var recovered := new ChainState(config, State(db, found.tip, found.headerTip, found.utxos, SessionHealthy));
        return Success(recovered);
      }
      if !Untouched(db, config) {
        return Failure(CorruptState);
      }
      var id := IdOf(config.anchorHeader);
      var record := Record(config.anchorHeader, config.anchorHeader.previous, 0, 0, FullyValidated, false);
      var batch := [PutIndex(record), SetActiveHeight(0, id), SetTip(Point(id, 0)), SetHeaderTip(Point(id, 0)),
                    SetAnchor(id), SetGenesisTime(config.genesisTime), SetHealth(Healthy), SetPruneCursor(0)];
      if !commitOk {
        return Failure(Storage);
      }
      BootstrapCommit(config, db);
      var started := new ChainState(config,
                                    State(Commit(db, batch), Tip(id, 0, 0), Tip(id, 0, 0), map[], SessionHealthy));
      return Success(started);
    }

    /** Writes the whole batch, or nothing. */
    method CommitDurable(batch: seq<Op>, commitOk: bool) returns (ok: bool)
      modifies this`store
      ensures ok == commitOk && store == if commitOk then Commit(old(store), batch) else old(store)
    {
      if commitOk {
        store := Commit(store, batch);
      }
      return commitOk;
    }

    // ----- Headers -----

    method AcceptHealthyHeader(header: Header, commitOk: bool) returns (r: Result<HeaderOutcome, ChainError>)
      modifies this
      ensures Reply(View(), r) == ChainSteps.AcceptHealthyHeader(old(View()), header, config, commitOk)
    {
      hide ValidateHeader;
      var id := IdOf(header);
      if id in store.index {
        if store.index[id].status == Invalid {
          return Failure(CorruptState);
        }
        return Success(HeaderOutcome(id, store.index[id].height, Known, headerTip));
      }
      var record := ValidateHeader(store, header, config);
      if record.Failure? {
        return Failure(record.error);
      }
      HeaderOfRecord(store, header, config);
      var candidate := Tip(id, record.value.height, record.value.work);
      var preferred := candidate.work > headerTip.work;
      var batch := [PutIndex(record.value)];
      if preferred {
        batch := batch + [SetHeaderTip(Point(id, candidate.height))];
      }
      CommitFew(store, PutIndex(record.value), SetHeaderTip(Point(id, candidate.height)));
      var ok := CommitDurable(batch, commitOk);
      if !ok {
        return Failure(Storage);
      }
      if preferred {
        headerTip := candidate;
      }
      return Success(HeaderOutcome(id, candidate.height, if preferred then Preferred else Stored, headerTip));
    }

    method AcceptHeader(header: Header, commitOk: bool) returns (r: Result<HeaderOutcome, ChainError>)
      modifies this
      ensures Reply(View(), r) == ChainSteps.AcceptHeader(old(View()), header, config, commitOk)
    {
      hide ChainSteps.AcceptHealthyHeader;
      if health != SessionHealthy {
        return Failure(Refusal(health));
      }
      r := AcceptHealthyHeader(header, commitOk);
      if r == Failure(Storage) {
        health := SessionFaulted;
      }
    }

    // ----- Extending -----

    method ExtendActive(block: Block, height: nat, work: nat, verify: Spend, commitOk: bool)
      returns (r: Result<Outcome, ChainError>)
      modifies this
      ensures Reply(View(), r) == Extend(old(View()), block, height, work, config, verify, commitOk)
    {
      hide Connect, ConnectDelta, UndoBetween, Commit, Patched;
      var id := IdOf(block.header);
      var c := ConnectBlock(utxos, block, height, config.rules, verify);
      if c.Failure? {
        return Failure(UtxoFault(c.error));
      }
      CreatedIsThere(utxos, c.value.utxos);
      var delta := RecordConnect(map[], c.value.utxos, c.value.undo);
      var record := Record(block.header, block.header.previous, height, work, FullyValidated, true);
      var preferred := work > headerTip.work;
      var batch := [PutBlock(block), PutIndex(record), PutUndo(id, c.value.undo)];
      ghost var put := store.(blocks := store.blocks[id := block], index := store.index[id := record],
                              undos := store.undos[id := c.value.undo]);
      CommitThree(store, block, record, id, c.value.undo);
      batch := AppendDelta(store, batch, delta);
      ghost var patched := put.(utxos := Patched(store.utxos, delta));
      batch := FinishBatch(store, batch, patched, Point(id, height), preferred);
      var ok := CommitDurable(batch, commitOk);
      if !ok {
        return Failure(Storage);
      }
      utxos, tip := c.value.utxos, Tip(id, height, work);
      if preferred {
        headerTip := tip;
      }
      return Success(Extended);
    }

    // ----- Reorganizing -----

    method ApplyReorgPlan(plan: Plan, candidate: BlockId, verify: Spend, commitOk: bool)
      returns (r: Result<Outcome, ChainError>)
      modifies this
      ensures Reply(View(), r) == ApplyPlan(old(View()), plan, candidate, config, verify, commitOk)
    {
      hide Unwind, Wind, Commit, Patched, MarkInvalid, PutBodies, DropActive;
      if plan.bodies == [] {
        return Failure(CorruptState);
      }
      var unwound := UnwindBlocks(utxos, plan.undos);
      if unwound.Failure? {
        return Failure(UtxoFault(unwound.error));
      }
      var w := WindBlocks(unwound.value, plan.bodies, config.rules, verify);
      if w.Stuck? {
        var marks := MarkBatch(store, plan.bodies[w.position..], candidate);
        var marked := CommitDurable(marks, commitOk);
        return Failure(if marked then UtxoFault(w.error) else Storage);
      }
      var last := plan.bodies[|plan.bodies| - 1];
      var newTip := Tip(last.id, last.record.height, last.record.work);
      var preferred := newTip.work > headerTip.work;
      var batch := SwitchBatch(store, tip.height, plan, w.undos, w.staged.delta, Point(newTip.id, newTip.height),
                               preferred);
      var ok := CommitDurable(batch, commitOk);
      if !ok {
        return Failure(Storage);
      }
      utxos, tip := w.staged.utxos, newTip;
      if preferred {
        headerTip := newTip;
      }
      return Success(Reorganized);
    }

    method Reorganize(block: Block, record: Record, verify: Spend, commitOk: bool)
      returns (r: Result<Outcome, ChainError>)
      modifies this
      ensures Reply(View(), r) == ChainSteps.Reorganize(old(View()), block, record, config, verify, commitOk)
    {
      hide DiscoverFork, LoadPlan, ApplyPlan;
      var id := IdOf(block.header);
      var fork := WalkToFork(store, id, record);
      if fork.Failure? {
        return Failure(fork.error);
      }
      if fork.value.height > tip.height {
        return Failure(CorruptState);
      }
      if tip.height - fork.value.height > REORG_WINDOW {
        var ok := CommitDurable([SetHealth(ReindexRequired)], commitOk);
        if !ok {
          return Failure(Storage);
        }
        health := SessionReindex;
        return Failure(ReindexNeeded);
      }
      var plan := LoadReorgPlan(store, tip.height, fork.value, id, block);
      if plan.Failure? {
        return Failure(plan.error);
      }
      r := ApplyReorgPlan(plan.value, id, verify, commitOk);
    }

    // ----- Blocks -----

    method PlaceBlock(block: Block, record: Record, verify: Spend, commitOk: bool)
      returns (r: Result<Outcome, ChainError>)
      requires record.header == block.header
      modifies this
      ensures Reply(View(), r) == Place(old(View()), block, record, config, verify, commitOk)
    {
      hide Extend, ChainSteps.Reorganize;
      if record.parent == tip.id {
        r := ExtendActive(block, record.height, record.work, verify, commitOk);
        return;
      }
      var kept := record.(bodyRetained := true);
      if record.work > tip.work {
        r := Reorganize(block, kept, verify, commitOk);
        return;
      }
      CommitFew(store, PutBlock(block), PutIndex(kept));
      var ok := CommitDurable([PutBlock(block), PutIndex(kept)], commitOk);
      return if ok then Success(StoredSideChain) else Failure(Storage);
    }

    method AcceptHealthyBlock(block: Block, verify: Spend, commitOk: bool) returns (r: Result<Outcome, ChainError>)
      modifies this
      ensures Reply(View(), r) == ChainSteps.AcceptHealthyBlock(old(View()), block, config, verify, commitOk)
    {
      hide Place, ValidateHeader;
      var id := IdOf(block.header);
      if id in store.index {
        var existing := store.index[id];
        if existing.status == Invalid {
          return Failure(CorruptState);
        }
        if existing.status == FullyValidated || existing.bodyRetained {
          return Success(if id == tip.id then Extended else StoredSideChain);
        }
        if existing.header != block.header {
          return Failure(CorruptState);
        }
        r := PlaceBlock(block, existing, verify, commitOk);
        return;
      }
      var record := ValidateHeader(store, block.header, config);
      if record.Failure? {
        return Failure(record.error);
      }
      HeaderOfRecord(store, block.header, config);
      r := PlaceBlock(block, record.value, verify, commitOk);
    }

    method AcceptBlock(block: Block, verify: Spend, commitOk: bool) returns (r: Result<Outcome, ChainError>)
      modifies this
      ensures Reply(View(), r) == ChainSteps.AcceptBlock(old(View()), block, config, verify, commitOk)
    {
      hide ChainSteps.AcceptHealthyBlock;
      if health != SessionHealthy {
        return Failure(Refusal(health));
      }
      r := AcceptHealthyBlock(block, verify, commitOk);
      if r == Failure(Storage) {
        health := SessionFaulted;
      }
    }

    // ----- Pruning -----

    method PruneData(commitOk: bool) returns (r: Result<Report, ChainError>)
      requires forall id | id in store.index :: IdOf(store.index[id].header) == id
      modifies this`store
      ensures View() == Prune(old(View()), commitOk)
      ensures health != SessionHealthy ==> r == Failure(Refusal(health))
      ensures health == SessionHealthy && !Prunable(old(store), tip.height) ==>
                r.Failure? && exists id ::
                  && id in RetainedIds(old(store))
                  && Judge(old(store), tip.height, id) == Failure(r.error)
      ensures health == SessionHealthy && Prunable(old(store), tip.height) ==>
                r == if !commitOk then Failure(Storage)
                     else Success(Report(|BodiesDropped(old(store), tip.height, RetainedIds(old(store)))|,
                                         |UndosDropped(old(store), tip.height, RetainedIds(old(store)))|))
    {
      hide Prunable, Pruned, Commit, Judge, BodiesDropped, UndosDropped;
      if health != SessionHealthy {
        return Failure(Refusal(health));
      }
      var plan := PlanPrune(store, tip.height);
      if plan.Failure? {
        return Failure(plan.error);
      }
      var ok := CommitDurable(plan.value.0, commitOk);
      return if ok then Success(plan.value.1) else Failure(Storage);
    }
  }
}
