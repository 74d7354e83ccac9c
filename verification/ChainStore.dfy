/** The persistent store: keyed records changed by atomic batches. */
module ChainStore {
  import opened Prelude
  import opened Ledger
  import opened ChainTypes
  import opened ChainBlocks

  datatype Status = HeaderValidated | FullyValidated | Invalid

  datatype Record = Record(header: Header, parent: BlockId, height: nat, work: nat, status: Status, bodyRetained: bool)

  datatype Health = Healthy | ReindexRequired

  datatype Point = Point(id: BlockId, height: nat)

  datatype Store = Store(blocks: map<BlockId, Block>, index: map<BlockId, Record>, utxos: Coins, undos: map<BlockId,
                         BlockUndo>, active: map<nat, BlockId>, tip: Option<Point>, headerTip: Option<Point>,
                             anchor: Option<BlockId>, genesisTime: Option<u64>, health: Option<Health>,
                                 pruneCursor: Option<nat>)

  datatype Op =
    | PutBlock(block: Block)
    | DeleteBlock(id: BlockId)
    | PutIndex(record: Record)
    | PutUtxo(outpoint: Out, entry: UtxoEntry)
    | DeleteUtxo(outpoint: Out)
    | PutUndo(id: BlockId, undo: BlockUndo)
    | DeleteUndo(id: BlockId)
    | SetActiveHeight(height: nat, id: BlockId)
    | DeleteActiveHeight(height: nat)
    | SetTip(point: Point)
    | SetHeaderTip(point: Point)
    | SetAnchor(id: BlockId)
    | SetGenesisTime(time: u64)
    | SetHealth(health: Health)
    | SetPruneCursor(height: nat)

  function IdOf(header: Header): BlockId {
    BlockDigest(header)
  }

  function Perform(s: Store, op: Op): Store {
    match op
    case PutBlock(block) => s.(blocks := s.blocks[IdOf(block.header) := block])
    case DeleteBlock(id) => s.(blocks := s.blocks - {id})
    case PutIndex(record) => s.(index := s.index[IdOf(record.header) := record])
    case PutUtxo(outpoint, entry) => s.(utxos := s.utxos[outpoint := entry])
    case DeleteUtxo(outpoint) => s.(utxos := s.utxos - {outpoint})
    case PutUndo(id, undo) => s.(undos := s.undos[id := undo])
    case DeleteUndo(id) => s.(undos := s.undos - {id})
    case SetActiveHeight(height, id) => s.(active := s.active[height := id])
    case DeleteActiveHeight(height) => s.(active := s.active - {height})
    case SetTip(point) => s.(tip := Some(point))
    case SetHeaderTip(point) => s.(headerTip := Some(point))
    case SetAnchor(id) => s.(anchor := Some(id))
    case SetGenesisTime(time) => s.(genesisTime := Some(time))
    case SetHealth(health) => s.(health := Some(health))
    case SetPruneCursor(height) => s.(pruneCursor := Some(height))
  }

  /** The store after a whole batch. */
  function Commit(s: Store, batch: seq<Op>): Store {
    if batch == [] then s else Perform(Commit(s, batch[..|batch| - 1]), batch[|batch| - 1])
  }

  lemma CommitSnoc(s: Store, batch: seq<Op>, op: Op)
    ensures Commit(s, batch + [op]) == Perform(Commit(s, batch), op)
  {
    assert (batch + [op])[..|batch|] == batch;
  }

  lemma {:induction false} CommitConcat(s: Store, a: seq<Op>, b: seq<Op>)
    ensures Commit(s, a + b) == Commit(Commit(s, a), b)
    decreases |b|
  {
    if b == [] {
      assert a + b == a;
    } else {
      var front := b[..|b| - 1];
      CommitConcat(s, a, front);
      assert a + b == (a + front) + [b[|b| - 1]];
      CommitSnoc(s, a + front, b[|b| - 1]);
    }
  }

  // ----- Ledger deltas -----

  type Delta = map<Out, Option<UtxoEntry>>

  function Patched(u: Coins, delta: Delta): Coins {
    map o | o in u.Keys + delta.Keys && (o in delta ==> delta[o].Some?) :: if o in delta then delta[o].value else u[o]
  }

  /** Restores the spent entries, removes the created ones. */
  function DisconnectDelta(delta: Delta, undo: BlockUndo): Delta {
    map o | o in delta.Keys + undo.created + undo.spent.Keys ::
      if o in undo.spent then Some(undo.spent[o]) else if o in undo.created then None else delta[o]
  }

  /** Removes the spent entries, adds the created ones as they are in the staged ledger. */
  function ConnectDelta(delta: Delta, staged: Coins, undo: BlockUndo): Delta
    requires undo.created <= staged.Keys
  {
    map o | o in delta.Keys + undo.created + undo.spent.Keys ::
      if o in undo.created then Some(staged[o]) else if o in undo.spent then None else delta[o]
  }

  /** If the delta leads to the staged ledger, recording a disconnect keeps it so. */
  lemma DisconnectRecorded(u: Coins, delta: Delta, staged: Coins, undo: BlockUndo)
    requires Patched(u, delta) == staged && Disconnect(staged, undo).Success?
    ensures Patched(u, DisconnectDelta(delta, undo)) == Disconnect(staged, undo).value
  {
    var next := Disconnect(staged, undo).value;
    var patched := Patched(u, DisconnectDelta(delta, undo));
    forall o
      ensures Get(patched, o) == Get(next, o)
    {
      assert Get(staged, o) == Get(Patched(u, delta), o);
    }
    SameMap(patched, next);
  }

  /** Recording a connect keeps it so exactly when the block rewrites no surviving entry. */
  lemma ConnectRecorded(u: Coins, delta: Delta, staged: Coins, after: Coins)
    requires Patched(u, delta) == staged
    ensures var undo := UndoBetween(staged, after);
            undo.created <= after.Keys
            && (Patched(u, ConnectDelta(delta, after, undo)) == after
                <==> forall o | o in staged && o in after :: staged[o] == after[o])
  {
    var undo := UndoBetween(staged, after);
    var patched := Patched(u, ConnectDelta(delta, after, undo));
    forall o
      ensures Get(patched, o) == if o in staged && o in after then Some(staged[o]) else Get(after, o)
    {
      assert Get(staged, o) == Get(Patched(u, delta), o);
    }
    if forall o | o in staged && o in after :: staged[o] == after[o] {
      SameMap(patched, after);
    } else {
      var o :| o in staged && o in after && staged[o] != after[o];
      assert Get(patched, o) != Get(after, o);
    }
  }

  lemma NoDelta(u: Coins)
    ensures Patched(u, map[]) == u
  {
  }
}
