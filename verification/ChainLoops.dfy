/** The loops of the chain state in the program's own form: connecting a block, walking to the
    fork, loading a plan, recording ledger changes. */
module ChainLoops {
  import opened Prelude
  import opened Ledger
  import opened MerkleRoot
  import opened ChainTypes
  import opened ChainBlocks
  import opened ChainStore
  import opened ChainReorg
  import opened ChainSteps

  // ----- Connecting a block -----

  lemma {:induction false} LargeStays(txs: seq<ChainTx>, k: nat, n: nat)
    requires k <= n <= |txs|
    ensures FirstLarge(txs, k).Some? ==> FirstLarge(txs, n) == FirstLarge(txs, k)
    decreases n
  {
    if k < n {
      LargeStays(txs, k, n - 1);
    }
  }

  lemma {:induction false} FaultStays(txs: seq<ChainTx>, k: nat, n: nat)
    requires 1 <= k <= n <= |txs|
    ensures CheckNormals(txs, k).Failure? ==> CheckNormals(txs, n) == CheckNormals(txs, k)
    decreases n
  {
    hide CheckSkeleton, AsBlockError;
    if k < n {
      FaultStays(txs, k, n - 1);
    }
  }

  /** The context-free checks, with the Merkle root computed level by level. */
  method CheckBlockSkeleton(block: Block, height: nat) returns (r: Result<(), BlockError>)
    ensures r == CheckBlock(block, height)
  {
    hide Tree, CheckSkeleton, AsBlockError;
    if height == 0 {
      return Failure(InvalidHeight);
    }
    var txs := block.transactions;
    if BlockSize(txs) > MAX_BLOCK_BYTES {
      return Failure(BlockTooLarge);
    }
    if txs == [] {
      return Failure(EmptyNonGenesisBlock);
    }
    for i := 0 to |txs|
      invariant FirstLarge(txs, i).None?
    {
      LargeStays(txs, i + 1, |txs|);
      if txs[i].size > MAX_TRANSACTION_BYTES {
        return Failure(TransactionTooLarge(i));
      }
    }
    var root := TransactionRoot(TxIds(txs));
    if root.value != block.header.root {
      return Failure(MerkleRootMismatch);
    }
    if !IsCoinbaseForm(txs[0], NullTx) {
      return Failure(InvalidCoinbase);
    }
    for i := 1 to |txs|
      invariant CheckNormals(txs, i).Success?
    {
      FaultStays(txs, i + 1, |txs|);
      var checked := CheckSkeleton(txs[i], NullTx);
      if checked.Failure? {
        return Failure(AsBlockError(checked.error, i));
      }
    }
    return Success(());
  }

  /** Notes the position of each transaction; a repeated id is refused. */
  method FindRepeat(txs: seq<ChainTx>) returns (repeated: bool)
    ensures repeated <==> Repeats(txs)
  {
    var positions: map<TxId, nat> := map[];
    for i := 0 to |txs|
      invariant forall j | 0 <= j < i :: txs[j].txid in positions
      invariant forall id | id in positions :: positions[id] < i && txs[positions[id]].txid == id
      invariant forall j, k | 0 <= j < k < i :: txs[j].txid != txs[k].txid
    {
      if txs[i].txid in positions {
        assert txs[positions[txs[i].txid]].txid == txs[i].txid;
        return true;
      }
      positions := positions[txs[i].txid := i];
    }
    return false;
  }

  lemma {:induction false} RunFails(u: Coins, txs: seq<ChainTx>, k: nat, n: nat, height: nat, verify: Spend)
    requires k <= n <= |txs| && RunNormals(u, txs, k, height, verify).Failure?
    ensures RunNormals(u, txs, n, height, verify) == RunNormals(u, txs, k, height, verify)
    decreases n
  {
    hide FeeOf, OutOfOrder, Effect;
    if k < n {
      RunFails(u, txs, k, n - 1, height, verify);
    }
  }

  /** Applies the block's other transactions in order on an overlay. */
  method ApplyNormals(u: Coins, txs: seq<ChainTx>, height: nat, verify: Spend)
    returns (r: Result<Overlay, UtxoError<TxId>>)
    ensures r == RunNormals(u, txs, |txs|, height, verify)
  {
    hide FeeOf, OutOfOrder, Effect;
    var overlay := new UtxoState(u);
    var fees: nat := 0;
    for i := 0 to |txs|
      invariant fresh(overlay) && RunNormals(u, txs, i, height, verify) == Success(Overlay(overlay.entries, fees))
    {
      if OutOfOrder(overlay.entries, txs, i) {
        RunFails(u, txs, i + 1, |txs|, height, verify);
        return Failure(InvalidBlockOrder);
      }
      var fee := overlay.ApplyNormalTransaction(txs[i], height, verify);
      if fee.Failure? {
        RunFails(u, txs, i + 1, |txs|, height, verify);
        return Failure(fee.error);
      }
      if fees + fee.value > U64_MAX {
        RunFails(u, txs, i + 1, |txs|, height, verify);
        return Failure(AmountOverflow);
      }
      fees := fees + fee.value;
    }
    return Success(Overlay(overlay.entries, fees));
  }

  method ConnectBlock(u: Coins, block: Block, height: nat, rules: Rules, verify: Spend)
    returns (r: Result<Connected, UtxoError<TxId>>)
    ensures r == Connect(u, block, height, rules, verify)
  {
    hide SkeletonOk, CheckBlock, RunNormals, CheckOutputs, Repeats, CheckCoinbase;
    var checked := CheckBlockSkeleton(block, height);
    if checked.Failure? {
      return Failure(Consensus(checked.error));
    }
    SkeletonHasCoinbase(block, height);
    var repeated := FindRepeat(block.transactions[1..]);
    if repeated {
      return Failure(InvalidBlockOrder);
    }
    var run := ApplyNormals(u, block.transactions[1..], height, verify);
    if run.Failure? {
      return Failure(run.error);
    }
    if run.value.fees > MAX_SUPPLY_BASE_UNITS {
      return Failure(AmountOverflow);
    }
    var coinbase := block.transactions[0];
    var claim := CheckCoinbase(coinbase, height, run.value.fees, rules);
    if claim.Failure? {
      return Failure(Consensus(claim.error));
    }
    var free := CheckOutputs(run.value.utxos, coinbase, |coinbase.outputs|);
    if free.Failure? {
      return Failure(free.error);
    }
    var after := run.value.utxos + Created(coinbase, height, true, |coinbase.outputs|);
    return Success(Connected(after, UndoBetween(u, after)));
  }

  /** Checks the undo against the ledger, then removes what was created and restores what was spent. */
  method DisconnectBlock(u: Coins, undo: BlockUndo) returns (r: Result<Coins, UtxoError<TxId>>)
    ensures r == Disconnect(u, undo)
  {
    if exists o | o in undo.created :: o !in u {
      return Failure(UndoMismatch);
    }
    if exists o | o in undo.spent :: o in undo.created || o in u {
      return Failure(UndoMismatch);
    }
    var overlay, todo := u, undo.created;
    while todo != {}
      invariant todo <= undo.created
      invariant overlay == u - (undo.created - todo)
      decreases todo
    {
      var o :| o in todo;
      overlay, todo := overlay - {o}, todo - {o};
    }
    assert undo.created - {} == undo.created;
    ghost var cleared := overlay;
    todo := undo.spent.Keys;
    while todo != {}
      invariant todo <= undo.spent.Keys
      invariant forall o :: Get(overlay, o) == if o in undo.spent && o !in todo then Some(undo.spent[o])
                else Get(cleared, o)
      decreases todo
    {
      var o :| o in todo;
      overlay, todo := overlay[o := undo.spent[o]], todo - {o};
    }
    SameMap(overlay, cleared + undo.spent);
    return Success(overlay);
  }

  // ----- Ledger changes -----

  method RecordDisconnect(delta: Delta, undo: BlockUndo) returns (r: Delta)
    ensures r == DisconnectDelta(delta, undo)
  {
    r := delta;
    var todo := undo.created;
    while todo != {}
      invariant todo <= undo.created
      invariant forall o :: Get(r, o) == if o in undo.created && o !in todo then Some(None) else Get(delta, o)
      decreases todo
    {
      var o :| o in todo;
      r, todo := r[o := None], todo - {o};
    }
    ghost var cleared := r;
    todo := undo.spent.Keys;
    while todo != {}
      invariant todo <= undo.spent.Keys
      invariant forall o :: Get(r, o) == if o in undo.spent && o !in todo then Some(Some(undo.spent[o]))
                else Get(cleared, o)
      decreases todo
    {
      var o :| o in todo;
      r, todo := r[o := Some(undo.spent[o])], todo - {o};
    }
    SameMap(r, DisconnectDelta(delta, undo));
  }

  method RecordConnect(delta: Delta, staged: Coins, undo: BlockUndo) returns (r: Delta)
    requires undo.created <= staged.Keys
    ensures r == ConnectDelta(delta, staged, undo)
  {
    r := delta;
    var todo := undo.spent.Keys;
    while todo != {}
      invariant todo <= undo.spent.Keys
      invariant forall o :: Get(r, o) == if o in undo.spent && o !in todo then Some(None) else Get(delta, o)
      decreases todo
    {
      var o :| o in todo;
      r, todo := r[o := None], todo - {o};
    }
    ghost var cleared := r;
    todo := undo.created;
    while todo != {}
      invariant todo <= undo.created
      invariant forall o :: Get(r, o) == if o in undo.created && o !in todo then Some(Some(staged[o]))
                else Get(cleared, o)
      decreases todo
    {
      var o :| o in todo;
      r, todo := r[o := Some(staged[o])], todo - {o};
    }
    SameMap(r, ConnectDelta(delta, staged, undo));
  }

  lemma PartNothing(u: Coins, delta: Delta)
    ensures Patched(u, delta - delta.Keys) == u
  {
    assert delta - delta.Keys == map[];
    NoDelta(u);
  }

  lemma PatchStep(u: Coins, delta: Delta, todo: set<Out>, o: Out)
    requires o in todo && o in delta
    ensures Patched(u, delta - (todo - {o}))
         == if delta[o].Some? then Patched(u, delta - todo)[o := delta[o].value] else Patched(u, delta - todo) - {o}
  {
  }

  /** Appends one put or delete per changed entry. */
  method AppendDelta(ghost s: Store, batch: seq<Op>, delta: Delta) returns (r: seq<Op>)
    ensures var before := Commit(s, batch); Commit(s, r) == before.(utxos := Patched(before.utxos, delta))
  {
    hide Commit;
    r := batch;
    ghost var before := Commit(s, batch);
    var todo := delta.Keys;
    PartNothing(before.utxos, delta);
    while todo != {}
      invariant todo <= delta.Keys
      invariant Commit(s, r) == before.(utxos := Patched(before.utxos, delta - todo))
      decreases todo
    {
      var o :| o in todo;
      var op := if delta[o].Some? then PutUtxo(o, delta[o].value) else DeleteUtxo(o);
      CommitSnoc(s, r, op);
      PatchStep(before.utxos, delta, todo, o);
      r, todo := r + [op], todo - {o};
    }
    assert delta - {} == delta;
  }

  // ----- Walking to the fork -----

  ghost function Joined(r: Result<Fork, ChainError>, path: seq<Node>): Result<Fork, ChainError> {
    if r.Failure? then r else Success(Fork(r.value.height, r.value.path + path))
  }

  lemma DiscoverStep(s: Store, id: BlockId, record: Record, path: seq<Node>)
    requires !ActiveAt(s, record.height, id) && record.status != Invalid && record.height > 0
             && record.parent in s.index
    requires ParentChildOk(record.parent, s.index[record.parent], id, record)
    ensures Joined(Discover(s, id, record), path)
         == Joined(Discover(s, record.parent, s.index[record.parent]), [Node(id, record)] + path)
  {
    hide BlockWork;
    var below := Discover(s, record.parent, s.index[record.parent]);
    if below.Success? {
      assert below.value.path + [Node(id, record)] + path == below.value.path + ([Node(id, record)] + path);
    }
  }

  lemma JoinedNothing(r: Result<Fork, ChainError>)
    ensures Joined(r, []) == r
  {
    if r.Success? {
      assert r.value.path + [] == r.value.path;
    }
  }

  lemma ParentIsLower(parentId: BlockId, parent: Record, childId: BlockId, child: Record)
    requires ParentChildOk(parentId, parent, childId, child)
    ensures parent.height < child.height
  {
  }

  method WalkToFork(s: Store, id: BlockId, record: Record) returns (r: Result<Fork, ChainError>)
    ensures r == DiscoverFork(s, id, record)
  {
    hide ParentChildOk;
    if !IdentityOk(id, record) {
      return Failure(CorruptState);
    }
    var currentId, current, path: seq<Node> := id, record, [];
    JoinedNothing(Discover(s, id, record));
    while true
      invariant Discover(s, id, record) == Joined(Discover(s, currentId, current), path)
      decreases current.height
    {
      if ActiveAt(s, current.height, currentId) {
        assert [] + path == path;
        return Success(Fork(current.height, path));
      }
      if current.status == Invalid || current.height == 0 || current.parent !in s.index {
        return Failure(CorruptState);
      }
      var parent := s.index[current.parent];
      if !ParentChildOk(current.parent, parent, currentId, current) {
        return Failure(CorruptState);
      }
      DiscoverStep(s, currentId, current, path);
      ParentIsLower(current.parent, parent, currentId, current);
      path := [Node(currentId, current)] + path;
      currentId, current := current.parent, parent;
    }
  }

  // ----- Loading a plan -----

  ghost function After(undos: seq<BlockUndo>, below: Result<seq<BlockUndo>, ChainError>): Result<seq<BlockUndo>,
      ChainError> {
    if below.Failure? then below else Success(undos + below.value)
  }

  lemma {:induction false} LoadUndosStep(s: Store, low: nat, high: nat, at: nat, undos: seq<BlockUndo>)
    requires low < at <= high && at in s.active && s.active[at] in s.undos
    requires LoadUndos(s, low, high) == After(undos, LoadUndos(s, low, at))
    ensures LoadUndos(s, low, high) == After(undos + [s.undos[s.active[at]]], LoadUndos(s, low, at - 1))
  {
    var below := LoadUndos(s, low, at - 1);
    if below.Success? {
      assert undos + ([s.undos[s.active[at]]] + below.value) == undos + [s.undos[s.active[at]]] + below.value;
    }
  }

  lemma NothingBefore(r: Result<seq<BlockUndo>, ChainError>)
    ensures After([], r) == r
  {
    if r.Success? {
      assert [] + r.value == r.value;
    }
  }

  method LoadActiveUndos(s: Store, low: nat, high: nat) returns (r: Result<seq<BlockUndo>, ChainError>)
    ensures r == LoadUndos(s, low, high)
  {
    var undos: seq<BlockUndo>, height: nat := [], high;
    assert After([], LoadUndos(s, low, high)) == LoadUndos(s, low, high) by {
      NothingBefore(LoadUndos(s, low, high));
    }
    while height > low
      invariant height <= high && LoadUndos(s, low, high) == After(undos, LoadUndos(s, low, height))
    {
      if height !in s.active {
        return Failure(CorruptState);
      }
      var id := s.active[height];
      if id !in s.undos {
        return Failure(MissingUndo(id));
      }
      LoadUndosStep(s, low, high, height, undos);
      undos, height := undos + [s.undos[id]], height - 1;
    }
    assert undos + [] == undos;
    return Success(undos);
  }

  lemma {:induction false} LoadFails(s: Store, path: seq<Node>, k: nat, candidate: BlockId, block: Block)
    requires k <= |path| && LoadBodies(s, path[..k], candidate, block).Failure?
    ensures LoadBodies(s, path, candidate, block) == LoadBodies(s, path[..k], candidate, block)
    decreases |path|
  {
    if k < |path| {
      var front := path[..|path| - 1];
      assert front[..k] == path[..k];
      LoadFails(s, front, k, candidate, block);
    } else {
      assert path[..k] == path;
    }
  }

  method LoadCandidateBodies(s: Store, path: seq<Node>, candidate: BlockId, block: Block)
    returns (r: Result<seq<Body>, ChainError>)
    ensures r == LoadBodies(s, path, candidate, block)
  {
    hide LoadBody;
    var bodies: seq<Body> := [];
    for i := 0 to |path|
      invariant LoadBodies(s, path[..i], candidate, block) == Success(bodies)
    {
      assert path[..i + 1][..i] == path[..i];
      var body := LoadBody(s, path[i], candidate, block);
      if body.Failure? {
        LoadFails(s, path, i + 1, candidate, block);
        return Failure(body.error);
      }
      bodies := bodies + [body.value];
    }
    assert path[..|path|] == path;
    return Success(bodies);
  }

  method LoadReorgPlan(s: Store, tipHeight: nat, fork: Fork, candidate: BlockId, block: Block)
    returns (r: Result<Plan, ChainError>)
    ensures r == LoadPlan(s, tipHeight, fork, candidate, block)
  {
    var undos := LoadActiveUndos(s, fork.height, tipHeight);
    if undos.Failure? {
      return Failure(undos.error);
    }
    var bodies := LoadCandidateBodies(s, fork.path, candidate, block);
    if bodies.Failure? {
      return Failure(bodies.error);
    }
    return Success(Plan(fork.height, undos.value, bodies.value));
  }

  // ----- Staging -----

  lemma {:induction false} UnwindFails(start: Coins, undos: seq<BlockUndo>, k: nat, n: nat)
    requires k <= n <= |undos| && Unwind(start, undos, k).Failure?
    ensures Unwind(start, undos, n) == Unwind(start, undos, k)
    decreases n
  {
    hide Disconnect, DisconnectDelta;
    if k < n {
      UnwindFails(start, undos, k, n - 1);
    }
  }

  method UnwindBlocks(start: Coins, undos: seq<BlockUndo>) returns (r: Result<Staged, UtxoError<TxId>>)
    ensures r == Unwind(start, undos, |undos|)
  {
    hide Disconnect, DisconnectDelta;
    var staged, delta: Delta := start, map[];
    for i := 0 to |undos|
      invariant Unwind(start, undos, i) == Success(Staged(staged, delta))
    {
      delta := RecordDisconnect(delta, undos[i]);
      var u := DisconnectBlock(staged, undos[i]);
      if u.Failure? {
        UnwindFails(start, undos, i + 1, |undos|);
        return Failure(u.error);
      }
      staged := u.value;
    }
    return Success(Staged(staged, delta));
  }

  lemma {:induction false} WindSticks(start: Staged, bodies: seq<Body>, k: nat, n: nat, rules: Rules, verify: Spend)
    requires k <= n <= |bodies| && Wind(start, bodies, k, rules, verify).Stuck?
    ensures Wind(start, bodies, n, rules, verify) == Wind(start, bodies, k, rules, verify)
    decreases n
  {
    hide Connect, ConnectDelta;
    if k < n {
      WindSticks(start, bodies, k, n - 1, rules, verify);
    }
  }

  lemma CreatedIsThere(before: Coins, after: Coins)
    ensures UndoBetween(before, after).created <= after.Keys
  {
  }

  method WindBlocks(start: Staged, bodies: seq<Body>, rules: Rules, verify: Spend) returns (w: Winding)
    ensures w == Wind(start, bodies, |bodies|, rules, verify)
  {
    hide Connect, ConnectDelta, UndoBetween;
    var staged, undos: seq<BlockUndo> := start, [];
    for i := 0 to |bodies|
      invariant Wind(start, bodies, i, rules, verify) == Wound(staged, undos)
    {
      var c := ConnectBlock(staged.utxos, bodies[i].block, bodies[i].record.height, rules, verify);
      if c.Failure? {
        WindSticks(start, bodies, i + 1, |bodies|, rules, verify);
        return Stuck(i, c.error);
      }
      CreatedIsThere(staged.utxos, c.value.utxos);
      var delta := RecordConnect(staged.delta, c.value.utxos, c.value.undo);
      staged, undos := Staged(c.value.utxos, delta), undos + [c.value.undo];
    }
    return Wound(staged, undos);
  }
}
