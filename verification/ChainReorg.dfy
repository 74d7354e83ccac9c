/** Finding the fork point of a candidate branch and loading what a reorganization needs. */
module ChainReorg {
  import opened Prelude
  import opened Ledger
  import opened ChainTypes
  import opened ChainBlocks
  import opened ChainStore

  const REORG_WINDOW := 8_064

  datatype ChainError =
    | Storage
    | HeaderRefused
    | UtxoFault(error: UtxoError<TxId>)
    | UnknownParent(id: BlockId)
    | MissingBlockBody(id: BlockId)
    | MissingUndo(id: BlockId)
    | ConfigMismatch
    | CorruptState
    | StorageFaulted
    | ReindexNeeded

  datatype Node = Node(id: BlockId, record: Record)

  /** `path` leads from the block above the fork to the candidate. */
  datatype Fork = Fork(height: nat, path: seq<Node>)

  datatype Body = Body(id: BlockId, record: Record, block: Block)

  /** `undos` leads from the active tip down to the fork, `bodies` from the fork up to the candidate. */
  datatype Plan = Plan(forkHeight: nat, undos: seq<BlockUndo>, bodies: seq<Body>)

  predicate ActiveAt(store: Store, height: nat, id: BlockId) {
    height in store.active && store.active[height] == id
  }

  predicate IdentityOk(id: BlockId, record: Record) {
    IdOf(record.header) == id && record.parent == record.header.previous
  }

  predicate WorkFollows(parent: Record, child: Record) {
    child.header.difficulty > 0 && child.work == parent.work + BlockWork(child.header.difficulty)
  }

  predicate ParentChildOk(parentId: BlockId, parent: Record, childId: BlockId, child: Record) {
    && IdentityOk(parentId, parent) && IdentityOk(childId, child)
    && parent.status != Invalid
    && child.parent == parentId
    && parent.height < U64_MAX && child.height == parent.height + 1
    && WorkFollows(parent, child)
  }

  /** Walks from the candidate to its parents until it meets the active chain. */
  function Discover(store: Store, id: BlockId, record: Record): Result<Fork, ChainError>
    decreases record.height
  {
    if ActiveAt(store, record.height, id) then Success(Fork(record.height, []))
    else if record.status == Invalid then Failure(CorruptState)
    else if record.height == 0 then Failure(CorruptState)
    else if record.parent !in store.index then Failure(CorruptState)
    else
      var parent := store.index[record.parent];
      if !ParentChildOk(record.parent, parent, id, record) then Failure(CorruptState)
      else
        var fork :- Discover(store, record.parent, parent);
        Success(Fork(fork.height, fork.path + [Node(id, record)]))
  }

  function DiscoverFork(store: Store, id: BlockId, record: Record): Result<Fork, ChainError> {
    if !IdentityOk(id, record) then Failure(CorruptState) else Discover(store, id, record)
  }

  /** The undos of the active blocks above `low`, from `high` down. */
  function LoadUndos(store: Store, low: nat, high: nat): Result<seq<BlockUndo>, ChainError>
    decreases high
  {
    if high <= low then Success([])
    else if high !in store.active then Failure(CorruptState)
    else if store.active[high] !in store.undos then Failure(MissingUndo(store.active[high]))
    else
      var below :- LoadUndos(store, low, high - 1);
      Success([store.undos[store.active[high]]] + below)
  }

  function LoadBody(store: Store, node: Node, candidate: BlockId, block: Block): Result<Body, ChainError> {
    if node.id != candidate && !(node.record.bodyRetained && node.id in store.blocks)
        then Failure(MissingBlockBody(node.id))
    else
      var body := if node.id == candidate then block else store.blocks[node.id];
      if IdOf(body.header) != node.id || body.header != node.record.header then Failure(CorruptState)
      else Success(Body(node.id, node.record, body))
  }

  function LoadBodies(store: Store, path: seq<Node>, candidate: BlockId, block: Block): (r: Result<seq<Body>,
          ChainError>)
    ensures r.Success? ==> |r.value| == |path|
  {
    if path == [] then Success([])
    else
      var before :- LoadBodies(store, path[..|path| - 1], candidate, block);
      var body :- LoadBody(store, path[|path| - 1], candidate, block);
      Success(before + [body])
  }

  function LoadPlan(store: Store, tipHeight: nat, fork: Fork, candidate: BlockId, block: Block): Result<Plan,
      ChainError> {
    var undos :- LoadUndos(store, fork.height, tipHeight);
    var bodies :- LoadBodies(store, fork.path, candidate, block);
    Success(Plan(fork.height, undos, bodies))
  }

  // ----- The shape of what is found -----

  ghost predicate NodeOk(store: Store, fork: Fork, i: nat)
    requires fork.height in store.active && i < |fork.path|
  {
    var node := fork.path[i];
    && IdentityOk(node.id, node.record)
    && node.record.height == fork.height + 1 + i <= U64_MAX
    && node.record.status != Invalid
    && !ActiveAt(store, node.record.height, node.id)
    && node.record.parent == (if i == 0 then store.active[fork.height] else fork.path[i - 1].id)
    && (i > 0 ==> WorkFollows(fork.path[i - 1].record, node.record))
    && (i < |fork.path| - 1 ==> node.id in store.index && store.index[node.id] == node.record)
  }

  /** Consecutive nodes off the active chain, from the block above the fork upwards; all but the
      last are the stored records. */
  ghost predicate PathOk(store: Store, fork: Fork) {
    fork.height in store.active && forall i | 0 <= i < |fork.path| :: NodeOk(store, fork, i)
  }

  ghost predicate Leads(store: Store, fork: Fork, id: BlockId, record: Record) {
    && PathOk(store, fork)
    && (if fork.path == [] then ActiveAt(store, fork.height, id) && record.height == fork.height
        else fork.path[|fork.path| - 1] == Node(id, record))
  }

  lemma LeadsFurther(store: Store, fork: Fork, parentId: BlockId, parent: Record, id: BlockId, record: Record)
    requires Leads(store, fork, parentId, parent) && parentId in store.index && store.index[parentId] == parent
    requires ParentChildOk(parentId, parent, id, record) && record.status != Invalid
             && !ActiveAt(store, record.height, id)
    ensures Leads(store, Fork(fork.height, fork.path + [Node(id, record)]), id, record)
  {
    hide WorkFollows;
    var next := Fork(fork.height, fork.path + [Node(id, record)]);
    forall i | 0 <= i < |next.path|
      ensures NodeOk(store, next, i)
    {
      if i < |fork.path| {
        assert NodeOk(store, fork, i);
      } else if i > 0 {
        assert NodeOk(store, fork, i - 1);
      }
    }
  }

  lemma {:induction false} DiscoverLeads(store: Store, id: BlockId, record: Record)
    requires IdentityOk(id, record) && record.height <= U64_MAX
    ensures Discover(store, id, record).Success? ==> Leads(store, Discover(store, id, record).value, id, record)
    decreases record.height
  {
    hide BlockWork;
    var r := Discover(store, id, record);
    if r.Success? && !ActiveAt(store, record.height, id) {
      var parent := store.index[record.parent];
      DiscoverLeads(store, record.parent, parent);
      var below := Discover(store, record.parent, parent).value;
      LeadsFurther(store, below, record.parent, parent, id, record);
    }
  }

  /** The plan's bodies carry the path's ids, records and headers; only the candidate's body may
      come from outside the store. */
  lemma {:induction false} BodiesMatch(store: Store, path: seq<Node>, candidate: BlockId, block: Block)
    requires LoadBodies(store, path, candidate, block).Success?
    ensures var bodies := LoadBodies(store, path, candidate, block).value;
            forall i | 0 <= i < |path| ::
              && bodies[i].id == path[i].id == IdOf(bodies[i].block.header) && bodies[i].record == path[i].record
              && bodies[i].block.header == path[i].record.header
              && (path[i].id == candidate ==> bodies[i].block == block)
              && (path[i].id != candidate ==> path[i].record.bodyRetained && path[i].id in store.blocks
                                              && store.blocks[path[i].id] == bodies[i].block)
  {
    if path != [] {
      BodiesMatch(store, path[..|path| - 1], candidate, block);
    }
  }

  lemma {:induction false} UndosMatch(store: Store, low: nat, high: nat)
    requires low <= high && LoadUndos(store, low, high).Success?
    ensures var undos := LoadUndos(store, low, high).value;
            && |undos| == high - low
            && forall h | low < h <= high :: h in store.active && store.active[h] in store.undos
                                              && undos[high - h] == store.undos[store.active[h]]
    decreases high
  {
    if low < high {
      UndosMatch(store, low, high - 1);
    }
  }
}
