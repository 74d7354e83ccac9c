/** Pruning: which bodies and undos are deleted, and why a permitted reorganization cannot tell. */
module ChainPrune {
  import opened Prelude
  import opened ChainTypes
  import opened ChainBlocks
  import opened ChainHistory
  import opened ChainStore
  import opened ChainReorg
  import opened ChainSteps
  import opened ChainInvariant

  // ----- Retention -----

  /** The lowest active height whose data is kept. */
  function RetainedFloor(tipHeight: nat): nat {
    if tipHeight < REORG_WINDOW - 1 then 0 else tipHeight - (REORG_WINDOW - 1)
  }

  /** The highest height whose data may have been pruned. */
  function SafeCursor(tipHeight: nat): nat {
    if tipHeight < REORG_WINDOW then 0 else tipHeight - REORG_WINDOW
  }

  predicate ShouldRetainBody(height: nat, forkHeight: nat, tipHeight: nat) {
    height >= RetainedFloor(tipHeight) && forkHeight <= tipHeight && tipHeight - forkHeight <= REORG_WINDOW
  }

  predicate ShouldRetainUndo(isActive: bool, height: nat, tipHeight: nat) {
    isActive && height <= tipHeight && height >= RetainedFloor(tipHeight)
  }

  function KeepsBody(s: Store, tipHeight: nat, id: BlockId): Result<bool, ChainError>
    requires id in s.index
  {
    var record := s.index[id];
    if record.status == Invalid || record.height < RetainedFloor(tipHeight) then Success(false)
    else if ActiveAt(s, record.height, id) then Success(ShouldRetainBody(record.height, record.height, tipHeight))
    else
      var fork :- DiscoverFork(s, id, record);
      Success(ShouldRetainBody(record.height, fork.height, tipHeight))
  }

  /** What is deleted for one block. */
  datatype Verdict = Verdict(dropBody: bool, dropUndo: bool)

  function Judge(s: Store, tipHeight: nat, id: BlockId): Result<Verdict, ChainError>
    requires id in s.index
  {
    var record, isActive := s.index[id], ActiveAt(s, s.index[id].height, id);
    if isActive && record.status != FullyValidated then Failure(CorruptState)
    else if id !in s.blocks then Failure(CorruptState)
    else
      var keepBody :- KeepsBody(s, tipHeight, id);
      var keepUndo := ShouldRetainUndo(isActive, record.height, tipHeight);
      if keepUndo && id !in s.undos then Failure(MissingUndo(id))
      else Success(Verdict(!keepBody, id in s.undos && !keepUndo))
  }

  function RetainedIds(s: Store): set<BlockId> {
    set id | id in s.index && s.index[id].bodyRetained
  }

  /** Every retained block gets a verdict. */
  ghost predicate Prunable(s: Store, tipHeight: nat) {
    forall id | id in RetainedIds(s) :: Judge(s, tipHeight, id).Success?
  }

  function BodiesDropped(s: Store, tipHeight: nat, ids: set<BlockId>): set<BlockId>
    requires ids <= s.index.Keys
  {
    set id | id in ids && Judge(s, tipHeight, id).Success? && Judge(s, tipHeight, id).value.dropBody
  }

  function UndosDropped(s: Store, tipHeight: nat, ids: set<BlockId>): set<BlockId>
    requires ids <= s.index.Keys
  {
    set id | id in ids && Judge(s, tipHeight, id).Success? && Judge(s, tipHeight, id).value.dropUndo
  }

  function WithoutBodies(index: map<BlockId, Record>, dropped: set<BlockId>): map<BlockId, Record> {
    map id | id in index :: if id in dropped then index[id].(bodyRetained := false) else index[id]
  }

  function Pruned(s: Store, tipHeight: nat): Store {
    var bodies, undos := BodiesDropped(s, tipHeight, RetainedIds(s)), UndosDropped(s, tipHeight, RetainedIds(s));
    s.(blocks := s.blocks - bodies, index := WithoutBodies(s.index, bodies), undos := s.undos - undos,
       pruneCursor := Some(SafeCursor(tipHeight)))
  }

  // ----- Discovery does not see the difference -----

  ghost predicate SameButBody(a: Record, b: Record) {
    b == a.(bodyRetained := b.bodyRetained)
  }

  /** The same records, but for whether a body is there. */
  ghost predicate SameTree(a: Index, b: Index) {
    a.Keys == b.Keys && forall id | id in a :: SameButBody(a[id], b[id])
  }

  /** The walk to the fork takes the same way on a store that differs in bodies only. */
  lemma {:induction false} DiscoverSameFork(s: Store, p: Store, id: BlockId, record: Record, other: Record)
    requires p.active == s.active && SameTree(s.index, p.index) && SameButBody(record, other)
    ensures var a, b := Discover(s, id, record), Discover(p, id, other);
            && (a.Failure? ==> b == a)
            && (a.Success? ==> b.Success? && b.value.height == a.value.height)
    decreases record.height
  {
    hide BlockWork;
    if !ActiveAt(s, record.height, id) && record.parent in s.index {
      var parent := s.index[record.parent];
      if record.status != Invalid && record.height > 0 && ParentChildOk(record.parent, parent, id, record) {
        DiscoverSameFork(s, p, record.parent, parent, p.index[record.parent]);
      }
    }
  }

  lemma PrunedTree(s: Store, tipHeight: nat)
    ensures Pruned(s, tipHeight).active == s.active && SameTree(s.index, Pruned(s, tipHeight).index)
  {
    hide Judge;
  }

  /** A block on a permitted path is off the active chain, near enough and valid: its body stays. */
  lemma PathBodyStays(s: Store, tipHeight: nat, id: BlockId, fork: Fork)
    requires id in s.index && IdentityOk(id, s.index[id]) && s.index[id].status != Invalid
    requires !ActiveAt(s, s.index[id].height, id) && s.index[id].height > fork.height
    requires Discover(s, id, s.index[id]) == Success(fork)
    requires fork.height <= tipHeight && tipHeight - fork.height <= REORG_WINDOW
    ensures id !in BodiesDropped(s, tipHeight, RetainedIds(s))
  {
  }

  lemma {:induction false} DiscoverSame(s: Store, tipHeight: nat, id: BlockId, record: Record)
    requires IdentityOk(id, record) && Discover(s, id, record).Success?
    requires var f := Discover(s, id, record).value.height; f <= tipHeight && tipHeight - f <= REORG_WINDOW
    ensures Discover(Pruned(s, tipHeight), id, record) == Discover(s, id, record)
    ensures record.height >= Discover(s, id, record).value.height
    ensures !ActiveAt(s, record.height, id) ==> record.height > Discover(s, id, record).value.height
    decreases record.height
  {
    hide BlockWork, Judge, BodiesDropped, UndosDropped;
    var p := Pruned(s, tipHeight);
    if !ActiveAt(s, record.height, id) {
      var parent := s.index[record.parent];
      DiscoverSame(s, tipHeight, record.parent, parent);
      var fork := Discover(s, record.parent, parent).value;
      if !ActiveAt(s, parent.height, record.parent) {
        PathBodyStays(s, tipHeight, record.parent, fork);
        assert p.index[record.parent] == parent;
      } else {
        assert SameButBody(parent, p.index[record.parent]);
      }
    }
  }

  /** The bodies along a permitted path, below the candidate, all stay. */
  lemma {:induction false} PathStays(s: Store, tipHeight: nat, id: BlockId, record: Record)
    requires IdentityOk(id, record) && Discover(s, id, record).Success?
    requires var f := Discover(s, id, record).value.height; f <= tipHeight && tipHeight - f <= REORG_WINDOW
    ensures var path := Discover(s, id, record).value.path;
            forall i | 0 <= i < |path| - 1 :: path[i].id !in BodiesDropped(s, tipHeight, RetainedIds(s))
    ensures var path := Discover(s, id, record).value.path; path != [] ==> path[|path| - 1] == Node(id, record)
    decreases record.height
  {
    hide BlockWork, Judge, BodiesDropped;
    if !ActiveAt(s, record.height, id) {
      var parent := s.index[record.parent];
      PathStays(s, tipHeight, record.parent, parent);
      if !ActiveAt(s, parent.height, record.parent) {
        DiscoverSame(s, tipHeight, record.parent, parent);
        PathBodyStays(s, tipHeight, record.parent, Discover(s, record.parent, parent).value);
      }
    }
  }

  lemma {:induction false} BodiesSame(s: Store, tipHeight: nat, path: seq<Node>, candidate: BlockId, block: Block)
    requires forall i | 0 <= i < |path| ::
               path[i].id == candidate || path[i].id !in BodiesDropped(s, tipHeight, RetainedIds(s))
    ensures LoadBodies(Pruned(s, tipHeight), path, candidate, block) == LoadBodies(s, path, candidate, block)
  {
    hide Judge, BodiesDropped, UndosDropped;
    if path != [] {
      BodiesSame(s, tipHeight, path[..|path| - 1], candidate, block);
    }
  }

  lemma ActiveUndoStays(s: Store, tip: Tip, anchor: BlockId, h: nat)
    requires ActiveOk(s.active, s.index, s.tip, tip, anchor) && h in s.active && h >= RetainedFloor(tip.height)
    ensures s.active[h] !in UndosDropped(s, tip.height, RetainedIds(s))
  {
  }

  lemma {:induction false} UndosSame(s: Store, tip: Tip, anchor: BlockId, low: nat, high: nat)
    requires ActiveOk(s.active, s.index, s.tip, tip, anchor) && low + 1 >= RetainedFloor(tip.height)
    ensures LoadUndos(Pruned(s, tip.height), low, high) == LoadUndos(s, low, high)
    decreases high
  {
    hide ActiveOk, Judge, BodiesDropped, UndosDropped;
    if low < high && high in s.active {
      ActiveUndoStays(s, tip, anchor, high);
      UndosSame(s, tip, anchor, low, high - 1);
    }
  }

  /** Pruning is invisible to every permitted reorganization: for a candidate whose fork is within
      the window, the fork and the loaded plan are the same as before, errors included. */
  lemma PruneInvisible(s: Store, tip: Tip, anchor: BlockId, id: BlockId, record: Record, block: Block)
    requires ActiveOk(s.active, s.index, s.tip, tip, anchor)
    ensures var a, b := DiscoverFork(s, id, record), DiscoverFork(Pruned(s, tip.height), id, record);
            && (a.Failure? ==> b == a)
            && (a.Success? ==> b.Success? && b.value.height == a.value.height)
            && (a.Success? && a.value.height <= tip.height && tip.height - a.value.height <= REORG_WINDOW ==>
                  && b == a
                  && LoadPlan(Pruned(s, tip.height), tip.height, a.value, id, block)
                    == LoadPlan(s, tip.height, a.value, id, block))
  {
    hide ActiveOk, Judge, BodiesDropped, UndosDropped, Discover, LoadUndos, LoadBodies, Pruned;
    if IdentityOk(id, record) {
      PrunedTree(s, tip.height);
      DiscoverSameFork(s, Pruned(s, tip.height), id, record, record);
      var a := Discover(s, id, record);
      if a.Success? && a.value.height <= tip.height && tip.height - a.value.height <= REORG_WINDOW {
        DiscoverSame(s, tip.height, id, record);
        PathStays(s, tip.height, id, record);
        BodiesSame(s, tip.height, a.value.path, id, block);
        UndosSame(s, tip, anchor, a.value.height, tip.height);
      }
    }
  }

  // ----- A second prune deletes nothing -----

  lemma KeepsBodySame(s: Store, tipHeight: nat, id: BlockId)
    requires id in s.index && id !in BodiesDropped(s, tipHeight, RetainedIds(s))
    ensures id in Pruned(s, tipHeight).index && Pruned(s, tipHeight).index[id] == s.index[id]
    ensures KeepsBody(Pruned(s, tipHeight), tipHeight, id) == KeepsBody(s, tipHeight, id)
  {
    hide Judge, BodiesDropped, UndosDropped, Discover;
    if IdentityOk(id, s.index[id]) {
      PrunedTree(s, tipHeight);
      DiscoverSameFork(s, Pruned(s, tipHeight), id, s.index[id], s.index[id]);
    }
  }

  lemma JudgedAgain(s: Store, tipHeight: nat, id: BlockId)
    requires Prunable(s, tipHeight) && id in RetainedIds(Pruned(s, tipHeight))
    ensures Judge(Pruned(s, tipHeight), tipHeight, id) == Success(Verdict(false, false))
  {
    hide KeepsBody, Discover;
    var p := Pruned(s, tipHeight);
    assert id in RetainedIds(s) && id !in BodiesDropped(s, tipHeight, RetainedIds(s));
    KeepsBodySame(s, tipHeight, id);
    assert Judge(s, tipHeight, id).Success?;
  }

  /** Pruning again at the same tip succeeds, deletes nothing and changes nothing. */
  lemma PruneTwice(s: Store, tipHeight: nat)
    requires Prunable(s, tipHeight)
    ensures var p := Pruned(s, tipHeight);
            && Prunable(p, tipHeight)
            && BodiesDropped(p, tipHeight, RetainedIds(p)) == {} && UndosDropped(p, tipHeight, RetainedIds(p)) == {}
            && Pruned(p, tipHeight) == p
  {
    hide Judge, KeepsBody, Discover;
    var p := Pruned(s, tipHeight);
    forall id | id in RetainedIds(p)
      ensures Judge(p, tipHeight, id) == Success(Verdict(false, false))
    {
      JudgedAgain(s, tipHeight, id);
    }
    assert WithoutBodies(p.index, {}) == p.index;
  }

  // ----- Pruning keeps the invariant -----

  lemma {:induction false} WithoutBodiesOk(index: Index, anchor: BlockId, dropped: set<BlockId>)
    requires IndexOk(index, anchor)
    ensures IndexOk(WithoutBodies(index, dropped), anchor)
  {
    hide BlockWork;
    var next := WithoutBodies(index, dropped);
    forall id | id in next && id != anchor
      ensures Follows(next, next[id])
    {
      assert Follows(index, index[id]);
    }
  }

  lemma ActiveWithoutBodies(active: Active, index: Index, stored: Option<Point>, tip: Tip, anchor: BlockId,
                            dropped: set<BlockId>)
    requires ActiveOk(active, index, stored, tip, anchor)
    ensures ActiveOk(active, WithoutBodies(index, dropped), stored, tip, anchor)
  {
  }

  lemma LedgerWithoutUndos(active: Active, undos: Undos, disk: Coins, memory: Coins, height: nat, chain: seq<Block>,
                           dropped: set<BlockId>)
    requires LedgerOk(active, undos, disk, memory, height, chain)
    ensures LedgerOk(active, undos - dropped, disk, memory, height, chain)
  {
    hide AllGood, ChainApps, ApplyAll, UndoOf;
  }

  lemma PruneKeeps(state: State, chain: seq<Block>, config: Config)
    requires Inv(state, chain, config)
    ensures Inv(state.(store := Pruned(state.store, state.tip.height)), chain, config)
  {
    hide IndexOk, ActiveOk, LedgerOk, Judge, BodiesDropped, UndosDropped;
    var s, anchor := state.store, IdOf(config.anchorHeader);
    var bodies := BodiesDropped(s, state.tip.height, RetainedIds(s));
    var undos := UndosDropped(s, state.tip.height, RetainedIds(s));
    WithoutBodiesOk(s.index, anchor, bodies);
    ActiveWithoutBodies(s.active, s.index, s.tip, state.tip, anchor, bodies);
    LedgerWithoutUndos(s.active, s.undos, s.utxos, state.utxos, state.tip.height, chain, undos);
  }

  /** The verdict on an active block that is still retained: whether it lies below the floor. */
  lemma ActiveVerdict(s: Store, tip: Tip, anchor: BlockId, mark: nat, h: nat)
    requires ActiveOk(s.active, s.index, s.tip, tip, anchor) && Retained(s.active, s.index, s.blocks, s.undos, mark)
    requires h in s.active && h > mark
    ensures s.active[h] in RetainedIds(s)
    ensures Judge(s, tip.height, s.active[h])
         == Success(Verdict(h <= SafeCursor(tip.height), h <= SafeCursor(tip.height)))
  {
    hide DiscoverFork;
  }

  lemma GoneIsNotJudged(s: Store, tip: Tip, anchor: BlockId, mark: nat, h: nat)
    requires ActiveOk(s.active, s.index, s.tip, tip, anchor) && Retained(s.active, s.index, s.blocks, s.undos, mark)
    requires h in s.active && 0 < h <= mark
    ensures s.active[h] !in RetainedIds(s) && s.active[h] !in s.undos
  {
  }

  ghost function Max(a: nat, b: nat): nat {
    if a < b then b else a
  }

  lemma ActiveHeights(s: Store, tip: Tip, anchor: BlockId, mark: nat)
    requires ActiveOk(s.active, s.index, s.tip, tip, anchor) && Retained(s.active, s.index, s.blocks, s.undos, mark)
    ensures mark in s.active && SafeCursor(tip.height) in s.active
  {
  }

  lemma RetainedAt(s: Store, mark: nat, h: nat)
    requires Retained(s.active, s.index, s.blocks, s.undos, mark) && h in s.active && h > 0
    ensures s.active[h] in s.index && (s.index[s.active[h]].bodyRetained <==> h > mark)
    ensures (h > mark ==> s.active[h] in s.blocks) && (s.active[h] in s.undos <==> h > mark)
  {
  }

  lemma RetainedIntro(s: Store, mark: nat)
    requires mark in s.active
    requires forall h | h in s.active && h > 0 ::
               && s.active[h] in s.index && (s.index[s.active[h]].bodyRetained <==> h > mark)
               && (h > mark ==> s.active[h] in s.blocks) && (s.active[h] in s.undos <==> h > mark)
    ensures Retained(s.active, s.index, s.blocks, s.undos, mark)
  {
  }

  /** Pruning empties the active chain up to the cursor of the tip, and not a block more. */
  lemma PruneRetains(s: Store, tip: Tip, anchor: BlockId, mark: nat)
    requires ActiveOk(s.active, s.index, s.tip, tip, anchor) && Retained(s.active, s.index, s.blocks, s.undos, mark)
    ensures var p := Pruned(s, tip.height);
            Retained(p.active, p.index, p.blocks, p.undos, Max(mark, SafeCursor(tip.height)))
  {
    hide ActiveOk, Retained, Judge;
    var p, next := Pruned(s, tip.height), Max(mark, SafeCursor(tip.height));
    ActiveHeights(s, tip, anchor, mark);
    forall h | h in p.active && h > 0
      ensures p.active[h] in p.index && (p.index[p.active[h]].bodyRetained <==> h > next)
      ensures (h > next ==> p.active[h] in p.blocks) && (p.active[h] in p.undos <==> h > next)
    {
      RetainedAt(s, mark, h);
      if h > mark {
        ActiveVerdict(s, tip, anchor, mark, h);
      } else {
        GoneIsNotJudged(s, tip, anchor, mark, h);
      }
    }
    RetainedIntro(p, next);
  }

  // ----- The loop -----

  datatype Report = Report(deletedBodies: nat, deletedUndos: nat)

  /** The store when the verdicts of `done` have been carried out. */
  ghost function PrunedSome(s: Store, tipHeight: nat, done: set<BlockId>): Store
    requires done <= s.index.Keys
  {
    s.(blocks := s.blocks - BodiesDropped(s, tipHeight, done),
       index := WithoutBodies(s.index, BodiesDropped(s, tipHeight, done)),
                undos := s.undos - UndosDropped(s, tipHeight, done))
  }

  lemma DroppedStep(s: Store, tipHeight: nat, done: set<BlockId>, id: BlockId)
    requires done <= s.index.Keys && id in s.index && id !in done && Judge(s, tipHeight, id).Success?
    ensures var v := Judge(s, tipHeight, id).value;
            && BodiesDropped(s, tipHeight, done + {id})
              == BodiesDropped(s, tipHeight, done) + (if v.dropBody then {id} else {})
            && UndosDropped(s, tipHeight, done + {id})
              == UndosDropped(s, tipHeight, done) + (if v.dropUndo then {id} else {})
            && id !in BodiesDropped(s, tipHeight, done) && id !in UndosDropped(s, tipHeight, done)
  {
    hide Judge;
  }

  lemma IndexStep(index: Index, dropped: set<BlockId>, id: BlockId)
    requires id in index && id !in dropped
    ensures WithoutBodies(index, dropped)[id := index[id].(bodyRetained := false)]
         == WithoutBodies(index, dropped + {id})
  {
  }

  /** The operations one verdict adds to the batch. */
  function VerdictOps(record: Record, id: BlockId, v: Verdict): seq<Op> {
    (if v.dropBody then [DeleteBlock(id), PutIndex(record.(bodyRetained := false))] else [])
    + if v.dropUndo then [DeleteUndo(id)] else []
  }

  lemma NoOps(s: Store)
    ensures Commit(s, []) == s
  {
  }

  lemma CarryOut(s: Store, at: Store, id: BlockId, v: Verdict)
    requires id in s.index && IdOf(s.index[id].header) == id
    ensures Commit(at, VerdictOps(s.index[id], id, v))
         == at.(blocks := if v.dropBody then at.blocks - {id} else at.blocks,
                index := if v.dropBody then at.index[id := s.index[id].(bodyRetained := false)] else at.index,
                undos := if v.dropUndo then at.undos - {id} else at.undos)
  {
    hide Commit;
    var body := if v.dropBody then [DeleteBlock(id), PutIndex(s.index[id].(bodyRetained := false))] else [];
    NoOps(at);
    if v.dropBody {
      CommitSnoc(at, [], DeleteBlock(id));
      CommitSnoc(at, [DeleteBlock(id)], PutIndex(s.index[id].(bodyRetained := false)));
      assert [] + [DeleteBlock(id)] == [DeleteBlock(id)];
      assert body == [DeleteBlock(id)] + [PutIndex(s.index[id].(bodyRetained := false))];
    }
    if v.dropUndo {
      CommitSnoc(at, body, DeleteUndo(id));
    } else {
      assert body + [] == body;
    }
  }

  lemma SetsApart(s: Store, bodies: set<BlockId>, undos: set<BlockId>, id: BlockId)
    ensures s.blocks - bodies - {id} == s.blocks - (bodies + {id})
    ensures s.undos - undos - {id} == s.undos - (undos + {id})
  {
  }

  lemma SomeStep(s: Store, tipHeight: nat, done: set<BlockId>, id: BlockId, batch: seq<Op>)
    requires done <= s.index.Keys && id in s.index && id !in done && Judge(s, tipHeight, id).Success?
    requires IdOf(s.index[id].header) == id && Commit(s, batch) == PrunedSome(s, tipHeight, done)
    ensures Commit(s, batch + VerdictOps(s.index[id], id, Judge(s, tipHeight, id).value))
         == PrunedSome(s, tipHeight, done + {id})
  {
    hide Judge, BodiesDropped, UndosDropped, WithoutBodies, Commit, VerdictOps;
    var v := Judge(s, tipHeight, id).value;
    var bodies, undos := BodiesDropped(s, tipHeight, done), UndosDropped(s, tipHeight, done);
    CommitConcat(s, batch, VerdictOps(s.index[id], id, v));
    CarryOut(s, PrunedSome(s, tipHeight, done), id, v);
    DroppedStep(s, tipHeight, done, id);
    IndexStep(s.index, bodies, id);
    SetsApart(s, bodies, undos, id);
    assert bodies + {} == bodies && undos + {} == undos;
  }

  /** The batch carries out the verdicts on what is no longer to do, and the report counts them. */
  ghost predicate Planned(s: Store, tipHeight: nat, ids: set<BlockId>, todo: set<BlockId>, batch: seq<Op>,
                          report: Report)
    requires ids <= s.index.Keys
  {
    && Commit(s, batch) == PrunedSome(s, tipHeight, ids - todo)
    && report == Report(|BodiesDropped(s, tipHeight, ids - todo)|, |UndosDropped(s, tipHeight, ids - todo)|)
  }

  lemma NothingDropped(s: Store, tipHeight: nat)
    ensures BodiesDropped(s, tipHeight, {}) == {} && UndosDropped(s, tipHeight, {}) == {}
    ensures Commit(s, []) == PrunedSome(s, tipHeight, {})
  {
    assert WithoutBodies(s.index, {}) == s.index;
    assert s.blocks - {} == s.blocks && s.undos - {} == s.undos;
  }

  lemma NothingPlanned(s: Store, tipHeight: nat, ids: set<BlockId>)
    requires ids <= s.index.Keys
    ensures Planned(s, tipHeight, ids, ids, [], Report(0, 0))
  {
    hide Judge;
    NothingDropped(s, tipHeight);
    assert ids - ids == {};
  }

  lemma PlannedStep(s: Store, tipHeight: nat, ids: set<BlockId>, todo: set<BlockId>, batch: seq<Op>, report: Report,
                    id: BlockId)
    requires ids <= s.index.Keys && todo <= ids && id in todo && Judge(s, tipHeight, id).Success?
             && IdOf(s.index[id].header) == id
    requires Planned(s, tipHeight, ids, todo, batch, report)
    ensures var v := Judge(s, tipHeight, id).value;
            Planned(s, tipHeight, ids, todo - {id}, batch + VerdictOps(s.index[id], id, v),
                    Report(report.deletedBodies + (if v.dropBody then 1 else 0),
                           report.deletedUndos + (if v.dropUndo then 1 else 0)))
  {
    hide Judge, BodiesDropped, UndosDropped, WithoutBodies, Commit, VerdictOps;
    assert ids - (todo - {id}) == ids - todo + {id};
    SomeStep(s, tipHeight, ids - todo, id, batch);
    DroppedStep(s, tipHeight, ids - todo, id);
  }

  lemma PlannedAll(s: Store, tipHeight: nat, batch: seq<Op>, report: Report)
    requires Planned(s, tipHeight, RetainedIds(s), {}, batch, report)
    ensures Commit(s, batch + [SetPruneCursor(SafeCursor(tipHeight))]) == Pruned(s, tipHeight)
    ensures report == Report(|BodiesDropped(s, tipHeight, RetainedIds(s))|,
                             |UndosDropped(s, tipHeight, RetainedIds(s))|)
  {
    hide Judge, BodiesDropped, UndosDropped, WithoutBodies, Commit;
    assert RetainedIds(s) - {} == RetainedIds(s);
    CommitSnoc(s, batch, SetPruneCursor(SafeCursor(tipHeight)));
  }

  /** Plans the deletions as one batch; carrying it out gives the pruned store. */
  method PlanPrune(s: Store, tipHeight: nat) returns (r: Result<(seq<Op>, Report), ChainError>)
    requires forall id | id in s.index :: IdOf(s.index[id].header) == id
    ensures r.Success? <==> Prunable(s, tipHeight)
    ensures r.Failure? ==> exists id :: id in RetainedIds(s) && Judge(s, tipHeight, id) == Failure(r.error)
    ensures r.Success? ==>
              && Commit(s, r.value.0) == Pruned(s, tipHeight)
              && r.value.1.deletedBodies == |BodiesDropped(s, tipHeight, RetainedIds(s))|
              && r.value.1.deletedUndos == |UndosDropped(s, tipHeight, RetainedIds(s))|
  {
    hide Judge, BodiesDropped, UndosDropped, WithoutBodies, Commit, VerdictOps, Planned, Pruned;
    var batch: seq<Op>, report := [], Report(0, 0);
    var ids := RetainedIds(s);
    var todo := ids;
    NothingPlanned(s, tipHeight, ids);
    while todo != {}
      invariant todo <= ids && Planned(s, tipHeight, ids, todo, batch, report)
      invariant forall id | id in ids && id !in todo :: Judge(s, tipHeight, id).Success?
      decreases todo
    {
      var id :| id in todo;
      var verdict := Judge(s, tipHeight, id);
      if verdict.Failure? {
        return Failure(verdict.error);
      }
      PlannedStep(s, tipHeight, ids, todo, batch, report, id);
      batch := batch + VerdictOps(s.index[id], id, verdict.value);
      report := Report(report.deletedBodies + (if verdict.value.dropBody then 1 else 0),
                       report.deletedUndos + (if verdict.value.dropUndo then 1 else 0));
      todo := todo - {id};
    }
    PlannedAll(s, tipHeight, batch, report);
    batch := batch + [SetPruneCursor(SafeCursor(tipHeight))];
    return Success((batch, report));
  }
}
