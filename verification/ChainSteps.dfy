/** The steps of the chain state machine: headers, blocks, extension, reorganization. */
module ChainSteps {
  import opened Prelude
  import opened Ledger
  import opened ChainTypes
  import opened ChainBlocks
  import opened ChainStore
  import opened ChainReorg

  datatype Tip = Tip(id: BlockId, height: nat, work: nat)

  datatype SessionHealth = SessionHealthy | SessionFaulted | SessionReindex

  datatype State = State(store: Store, tip: Tip, headerTip: Tip, utxos: Coins, health: SessionHealth)

  /** `headerOk` stands for the checks of a header in its branch: time, target and proof of work. */
  datatype Config = Config(anchorHeader: Header, genesisTime: u64, powLimit: Bits256, rules: Rules,
                           headerOk: (Store, Header) -> bool)

  datatype Outcome = Extended | StoredSideChain | Reorganized

  datatype HeaderStatus = Known | Stored | Preferred

  datatype HeaderOutcome = HeaderOutcome(id: BlockId, height: nat, status: HeaderStatus, preferred: Tip)

  /** The state after a call and what it returned. */
  datatype Reply<+T> = Reply(state: State, result: Result<T, ChainError>)

  // ----- Headers -----

  function ValidateHeader(store: Store, header: Header, config: Config): Result<Record, ChainError> {
    if header.previous !in store.index then Failure(UnknownParent(header.previous))
    else
      var parent := store.index[header.previous];
      if parent.status == Invalid then Failure(CorruptState)
      else if parent.height >= U64_MAX then Failure(CorruptState)
      else if !(0 < header.difficulty <= config.powLimit && config.headerOk(store, header)) then Failure(HeaderRefused)
      else Success(Record(header, header.previous, parent.height + 1, parent.work + BlockWork(header.difficulty),
                          HeaderValidated, false))
  }

  function WithIndex(store: Store, record: Record): Store {
    store.(index := store.index[IdOf(record.header) := record])
  }

  function AcceptHealthyHeader(state: State, header: Header, config: Config, commitOk: bool): Reply<HeaderOutcome> {
    var id := IdOf(header);
    if id in state.store.index then
      var existing := state.store.index[id];
      if existing.status == Invalid then Reply(state, Failure(CorruptState))
      else Reply(state, Success(HeaderOutcome(id, existing.height, Known, state.headerTip)))
    else
      var record := ValidateHeader(state.store, header, config);
      if record.Failure? then Reply(state, Failure(record.error))
      else
        var candidate := Tip(id, record.value.height, record.value.work);
        var preferred := candidate.work > state.headerTip.work;
        var stored := WithIndex(state.store, record.value);
        if !commitOk then Reply(state, Failure(Storage))
        else if preferred then
          Reply(state.(store := stored.(headerTip := Some(Point(id, candidate.height))), headerTip := candidate),
                Success(HeaderOutcome(id, candidate.height, Preferred, candidate)))
        else Reply(state.(store := stored), Success(HeaderOutcome(id, candidate.height, Stored, state.headerTip)))
  }

  // ----- Extending the active chain -----

  function ExtendedStore(s: Store, block: Block, height: nat, work: nat, undo: BlockUndo, delta: Delta,
                         preferred: bool): Store {
    var id := IdOf(block.header);
    s.(blocks := s.blocks[id := block],
       index := s.index[id := Record(block.header, block.header.previous, height, work, FullyValidated, true)],
       undos := s.undos[id := undo],
       utxos := Patched(s.utxos, delta),
       active := s.active[height := id],
       tip := Some(Point(id, height)),
       headerTip := if preferred then Some(Point(id, height)) else s.headerTip)
  }

  ghost function Extend(state: State, block: Block, height: nat, work: nat, config: Config, verify: Spend,
                        commitOk: bool): Reply<Outcome> {
    var c := Connect(state.utxos, block, height, config.rules, verify);
    if c.Failure? then Reply(state, Failure(UtxoFault(c.error)))
    else if !commitOk then Reply(state, Failure(Storage))
    else
      var tip := Tip(IdOf(block.header), height, work);
      var preferred := work > state.headerTip.work;
      var delta := ConnectDelta(map[], c.value.utxos, c.value.undo);
      Reply(State(ExtendedStore(state.store, block, height, work, c.value.undo, delta, preferred), tip,
                  if preferred then tip else state.headerTip, c.value.utxos, state.health),
            Success(Extended))
  }

  // ----- Reorganizing -----

  /** A ledger on the way to a new branch, with the changes made so far. */
  datatype Staged = Staged(utxos: Coins, delta: Delta)

  function Unwind(start: Coins, undos: seq<BlockUndo>, k: nat): Result<Staged, UtxoError<TxId>>
    requires k <= |undos|
  {
    if k == 0 then Success(Staged(start, map[]))
    else
      var before :- Unwind(start, undos, k - 1);
      var u :- Disconnect(before.utxos, undos[k - 1]);
      Success(Staged(u, DisconnectDelta(before.delta, undos[k - 1])))
  }

  datatype Winding = Wound(staged: Staged, undos: seq<BlockUndo>) | Stuck(position: nat, error: UtxoError<TxId>)

  /** Connects the first `k` bodies, or stops at the first that does not connect. */
  ghost function Wind(start: Staged, bodies: seq<Body>, k: nat, rules: Rules, verify: Spend): (w: Winding)
    requires k <= |bodies|
    ensures w.Wound? ==> |w.undos| == k
    ensures w.Stuck? ==> w.position < k
  {
    if k == 0 then Wound(start, [])
    else
      var before := Wind(start, bodies, k - 1, rules, verify);
      if before.Stuck? then before
      else
        var c := Connect(before.staged.utxos, bodies[k - 1].block, bodies[k - 1].record.height, rules, verify);
        if c.Failure? then Stuck(k - 1, c.error)
        else Wound(Staged(c.value.utxos, ConnectDelta(before.staged.delta, c.value.utxos, c.value.undo)),
                   before.undos + [c.value.undo])
  }

  function MarkInvalid(s: Store, bodies: seq<Body>, candidate: BlockId): Store {
    if bodies == [] then s
    else
      var last := bodies[|bodies| - 1];
      WithIndex(MarkInvalid(s, bodies[..|bodies| - 1], candidate),
                last.record.(status := Invalid, bodyRetained := last.id != candidate && last.record.bodyRetained))
  }

  function DropActive(s: Store, low: nat, high: nat): Store {
    s.(active := map h | h in s.active && !(low < h <= high) :: s.active[h])
  }

  function WithBody(s: Store, body: Body, undo: BlockUndo): Store {
    WithIndex(s, body.record.(status := FullyValidated, bodyRetained := true))
      .(blocks := s.blocks[IdOf(body.block.header) := body.block],
        undos := s.undos[body.id := undo],
        active := s.active[body.record.height := body.id])
  }

  function PutBodies(s: Store, bodies: seq<Body>, undos: seq<BlockUndo>, k: nat): Store
    requires k <= |bodies| && k <= |undos|
  {
    if k == 0 then s else WithBody(PutBodies(s, bodies, undos, k - 1), bodies[k - 1], undos[k - 1])
  }

  function SwitchedStore(s: Store, tipHeight: nat, plan: Plan, undos: seq<BlockUndo>, delta: Delta, point: Point,
                         preferred: bool): Store
    requires |undos| == |plan.bodies|
  {
    var put := PutBodies(DropActive(s, plan.forkHeight, tipHeight), plan.bodies, undos, |plan.bodies|);
    put.(utxos := Patched(s.utxos, delta), tip := Some(point), headerTip := if preferred then Some(point)
         else s.headerTip)
  }

  ghost function ApplyPlan(state: State, plan: Plan, candidate: BlockId, config: Config, verify: Spend,
                           commitOk: bool): Reply<Outcome> {
    if plan.bodies == [] then Reply(state, Failure(CorruptState))
    else
      var unwound := Unwind(state.utxos, plan.undos, |plan.undos|);
      if unwound.Failure? then Reply(state, Failure(UtxoFault(unwound.error)))
      else
        var n := |plan.bodies|;
        var w := Wind(unwound.value, plan.bodies, n, config.rules, verify);
        if !commitOk then Reply(state, Failure(Storage))
        else if w.Stuck? then
          Reply(state.(store := MarkInvalid(state.store, plan.bodies[w.position..], candidate)),
                Failure(UtxoFault(w.error)))
        else
          var last := plan.bodies[n - 1];
          var tip := Tip(last.id, last.record.height, last.record.work);
          var preferred := tip.work > state.headerTip.work;
          Reply(State(SwitchedStore(state.store, state.tip.height, plan, w.undos, w.staged.delta,
                                    Point(tip.id, tip.height), preferred), tip, if preferred then tip
                                        else state.headerTip, w.staged.utxos, state.health), Success(Reorganized))
  }

  ghost function Reorganize(state: State, block: Block, record: Record, config: Config, verify: Spend,
                            commitOk: bool): Reply<Outcome> {
    var id := IdOf(block.header);
    var fork := DiscoverFork(state.store, id, record);
    if fork.Failure? then Reply(state, Failure(fork.error))
    else if fork.value.height > state.tip.height then Reply(state, Failure(CorruptState))
    else if state.tip.height - fork.value.height > REORG_WINDOW then
      if !commitOk then Reply(state, Failure(Storage))
      else Reply(state.(store := state.store.(health := Some(ReindexRequired)), health := SessionReindex),
                 Failure(ReindexNeeded))
    else
      var plan := LoadPlan(state.store, state.tip.height, fork.value, id, block);
      if plan.Failure? then Reply(state, Failure(plan.error))
      else ApplyPlan(state, plan.value, id, config, verify, commitOk)
  }

  // ----- Accepting a block -----

  /** What to do with a block whose index record is known and whose body is wanted. */
  ghost function Place(state: State, block: Block, record: Record, config: Config, verify: Spend,
                       commitOk: bool): Reply<Outcome> {
    if record.parent == state.tip.id then Extend(state, block, record.height, record.work, config, verify, commitOk)
    else
      var kept := record.(bodyRetained := true);
      if record.work > state.tip.work then Reorganize(state, block, kept, config, verify, commitOk)
      else if !commitOk then Reply(state, Failure(Storage))
      else Reply(state.(store := WithIndex(state.store,
                                           kept).(blocks := state.store.blocks[IdOf(block.header) := block])),
                                                            Success(StoredSideChain))
  }

  ghost function AcceptHealthyBlock(state: State, block: Block, config: Config, verify: Spend,
                                    commitOk: bool): Reply<Outcome> {
    var id := IdOf(block.header);
    if id in state.store.index then
      var existing := state.store.index[id];
      if existing.status == Invalid then Reply(state, Failure(CorruptState))
      else if existing.status == FullyValidated || existing.bodyRetained then
        Reply(state, Success(if id == state.tip.id then Extended else StoredSideChain))
      else if existing.header != block.header then Reply(state, Failure(CorruptState))
      else Place(state, block, existing, config, verify, commitOk)
    else
      var record := ValidateHeader(state.store, block.header, config);
      if record.Failure? then Reply(state, Failure(record.error))
      else Place(state, block, record.value, config, verify, commitOk)
  }

  // ----- The session gate -----

  /** A storage error closes the session for changes. */
  function Gated<T>(reply: Reply<T>): Reply<T> {
    if reply.result == Failure(Storage) then reply.(state := reply.state.(health := SessionFaulted)) else reply
  }

  function Refusal(health: SessionHealth): ChainError
    requires health != SessionHealthy
  {
    if health == SessionFaulted then StorageFaulted else ReindexNeeded
  }

  function AcceptHeader(state: State, header: Header, config: Config, commitOk: bool): Reply<HeaderOutcome> {
    if state.health != SessionHealthy then Reply(state, Failure(Refusal(state.health)))
    else Gated(AcceptHealthyHeader(state, header, config, commitOk))
  }

  ghost function AcceptBlock(state: State, block: Block, config: Config, verify: Spend,
                             commitOk: bool): Reply<Outcome> {
    if state.health != SessionHealthy then Reply(state, Failure(Refusal(state.health)))
    else Gated(AcceptHealthyBlock(state, block, config, verify, commitOk))
  }

  // ----- Bootstrap -----

  /** The state of a new store: the anchor alone. */
  function Bootstrapped(config: Config): State {
    var id := IdOf(config.anchorHeader);
    var record := Record(config.anchorHeader, config.anchorHeader.previous, 0, 0, FullyValidated, false);
    var point := Point(id, 0);
    State(Store(map[], map[id := record], map[], map[], map[0 := id], Some(point), Some(point), Some(id),
                Some(config.genesisTime), Some(Healthy), Some(0)),
          Tip(id, 0, 0), Tip(id, 0, 0), map[], SessionHealthy)
  }
}
