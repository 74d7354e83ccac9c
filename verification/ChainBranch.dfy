/** The branch below a block: walking to its ancestors, and loading the preferred header tip. */
module ChainBranch {
  import opened Prelude
  import opened ChainTypes
  import opened ChainStore
  import opened ChainReorg
  import opened ChainSteps
  import opened ChainInvariant

  /** The record of a block that may be used as ancestry. */
  function CheckedIndex(s: Store, id: BlockId): (r: Result<Record, ChainError>)
    ensures r.Success? ==> id in s.index && r.value == s.index[id]
    ensures r.Success? && r.value.height > 0 ==>
              r.value.parent in s.index && s.index[r.value.parent].height + 1 == r.value.height
  {
    if id !in s.index then Failure(CorruptState)
    else
      var record := s.index[id];
      if record.status == Invalid then Failure(CorruptState)
      else if record.height == 0 then
        if record.work != 0 then Failure(CorruptState) else Success(record)
      else if record.parent !in s.index then Failure(CorruptState)
      else
        var parent := s.index[record.parent];
        if parent.status == Invalid || parent.height >= U64_MAX then Failure(CorruptState)
        else if record.height != parent.height + 1 || !WorkFollows(parent, record) then Failure(CorruptState)
        else Success(record)
  }

  function Climb(s: Store, id: BlockId, record: Record, height: nat): Result<BlockId, ChainError>
    requires CheckedIndex(s, id) == Success(record)
    decreases record.height
  {
    if record.height <= height then Success(id)
    else
      var parent :- CheckedIndex(s, record.parent);
      Climb(s, record.parent, parent, height)
  }

  function AncestorAt(s: Store, id: BlockId, height: nat): Result<Option<BlockId>, ChainError> {
    var record :- CheckedIndex(s, id);
    if height > record.height then Success(None)
    else
      var ancestor :- Climb(s, id, record, height);
      Success(Some(ancestor))
  }

  method AncestorIdAtHeight(s: Store, tip: BlockId, height: nat) returns (r: Result<Option<BlockId>, ChainError>)
    ensures r == AncestorAt(s, tip, height)
  {
    hide CheckedIndex;
    var checked := CheckedIndex(s, tip);
    if checked.Failure? {
      return Failure(checked.error);
    }
    var id, current := tip, checked.value;
    if height > current.height {
      return Success(None);
    }
    ghost var goal := Climb(s, id, current, height);
    while current.height > height
      invariant CheckedIndex(s, id) == Success(current) && Climb(s, id, current, height) == goal
      decreases current.height
    {
      id := current.parent;
      checked := CheckedIndex(s, id);
      if checked.Failure? {
        return Failure(checked.error);
      }
      current := checked.value;
    }
    return Success(Some(id));
  }

  const MTP_WINDOW := 11

  /** The times of a block and its ancestors, `k` of them or all there are. */
  function BranchTimes(s: Store, id: BlockId, k: nat): Result<seq<u64>, ChainError>
    decreases k
  {
    if k == 0 then Success([])
    else
      var record :- CheckedIndex(s, id);
      if record.height == 0 then Success([record.header.timestamp])
      else
        var below :- BranchTimes(s, record.parent, k - 1);
        Success([record.header.timestamp] + below)
  }

  ghost function Prefixed(times: seq<u64>, r: Result<seq<u64>, ChainError>): Result<seq<u64>, ChainError> {
    if r.Success? then Success(times + r.value) else r
  }

  lemma NothingBefore(r: Result<seq<u64>, ChainError>)
    ensures Prefixed([], r) == r
  {
    if r.Success? {
      assert [] + r.value == r.value;
    }
  }

  lemma TimesStep(s: Store, id: BlockId, k: nat, before: seq<u64>)
    requires k > 0 && CheckedIndex(s, id).Success?
    ensures var record := CheckedIndex(s, id).value;
            Prefixed(before, BranchTimes(s, id, k)) ==
              if record.height == 0 then Success(before + [record.header.timestamp])
              else Prefixed(before + [record.header.timestamp], BranchTimes(s, record.parent, k - 1))
  {
    hide CheckedIndex;
    var record := CheckedIndex(s, id).value;
    if record.height > 0 && BranchTimes(s, record.parent, k - 1).Success? {
      var below := BranchTimes(s, record.parent, k - 1).value;
      assert before + ([record.header.timestamp] + below) == before + [record.header.timestamp] + below;
    }
  }

  method MtpWindow(s: Store, tip: BlockId) returns (r: Result<seq<u64>, ChainError>)
    ensures r == BranchTimes(s, tip, MTP_WINDOW)
  {
    hide CheckedIndex;
    var timestamps: seq<u64>, id, reached := [], tip, false;
    NothingBefore(BranchTimes(s, tip, MTP_WINDOW));
    while |timestamps| < MTP_WINDOW && !reached
      invariant |timestamps| <= MTP_WINDOW
      invariant BranchTimes(s, tip, MTP_WINDOW)
             == if reached then Success(timestamps)
                 else Prefixed(timestamps, BranchTimes(s, id, MTP_WINDOW - |timestamps|))
      decreases MTP_WINDOW - |timestamps|, !reached
    {
      var checked := CheckedIndex(s, id);
      if checked.Failure? {
        return Failure(checked.error);
      }
      TimesStep(s, id, MTP_WINDOW - |timestamps|, timestamps);
      timestamps := timestamps + [checked.value.header.timestamp];
      if checked.value.height == 0 {
        reached := true;
      } else {
        id := checked.value.parent;
      }
    }
    assert timestamps + [] == timestamps;
    return Success(timestamps);
  }

  /** The stored header tip, if its branch reaches the anchor. */
  function LoadHeaderTip(s: Store, anchor: BlockId): Result<Tip, ChainError> {
    if s.headerTip.None? then Failure(CorruptState)
    else
      var point := s.headerTip.value;
      if point.id !in s.index then Failure(CorruptState)
      else
        var record := s.index[point.id];
        if record.height != point.height || record.status == Invalid then Failure(CorruptState)
        else
          var root :- AncestorAt(s, point.id, 0);
          if root != Some(anchor) then Failure(CorruptState)
          else Success(Tip(point.id, point.height, record.work))
  }

  method PreferredHeaderTip(s: Store, anchor: BlockId) returns (r: Result<Tip, ChainError>)
    ensures r == LoadHeaderTip(s, anchor)
  {
    hide AncestorAt;
    if s.headerTip.None? {
      return Failure(CorruptState);
    }
    var point := s.headerTip.value;
    if point.id !in s.index || s.index[point.id].height != point.height || s.index[point.id].status == Invalid {
      return Failure(CorruptState);
    }
    var root := AncestorIdAtHeight(s, point.id, 0);
    if root.Failure? {
      return Failure(root.error);
    }
    if root.value != Some(anchor) {
      return Failure(CorruptState);
    }
    return Success(Tip(point.id, point.height, s.index[point.id].work));
  }

  // ----- When the branch is usable -----

  /** A block and its ancestors, from the block downwards. */
  ghost predicate Lineage(index: Index, path: seq<BlockId>) {
    && path != []
    && (forall i | 0 <= i < |path| :: path[i] in index)
    && forall i | 0 <= i < |path| - 1 :: index[path[i]].height > 0 && index[path[i]].parent == path[i + 1]
  }

  /** No block on the way down from `id` is marked invalid. */
  ghost predicate Untainted(index: Index, id: BlockId) {
    forall path | Lineage(index, path) && path[0] == id :: index[path[|path| - 1]].status != Invalid
  }

  lemma LineageAbove(index: Index, id: BlockId, path: seq<BlockId>)
    requires id in index && index[id].height > 0 && Lineage(index, path) && path[0] == index[id].parent
    ensures Lineage(index, [id] + path)
  {
  }

  lemma LineageBelow(index: Index, path: seq<BlockId>)
    requires Lineage(index, path) && |path| > 1
    ensures Lineage(index, path[1..]) && path[1..][0] == index[path[0]].parent && index[path[0]].height > 0
  {
  }

  lemma UntaintedStep(index: Index, id: BlockId)
    requires id in index && (index[id].height > 0 ==> index[id].parent in index)
    ensures Untainted(index, id) <==>
              index[id].status != Invalid && (index[id].height > 0 ==> Untainted(index, index[id].parent))
  {
    if Untainted(index, id) {
      assert Lineage(index, [id]);
      if index[id].height > 0 {
        forall path | Lineage(index, path) && path[0] == index[id].parent
          ensures index[path[|path| - 1]].status != Invalid
        {
          LineageAbove(index, id, path);
        }
      }
    }
    if index[id].status != Invalid && (index[id].height > 0 ==> Untainted(index, index[id].parent)) {
      forall path | Lineage(index, path) && path[0] == id
        ensures index[path[|path| - 1]].status != Invalid
      {
        if |path| > 1 {
          LineageBelow(index, path);
        }
      }
    }
  }

  lemma CheckedOutcome(s: Store, anchor: BlockId, id: BlockId)
    requires IndexOk(s.index, anchor) && id in s.index
    ensures s.index[id].height > 0 ==>
              && s.index[id].parent in s.index
              && s.index[s.index[id].parent].height + 1 == s.index[id].height
    ensures s.index[id].height == 0 <==> id == anchor
    ensures CheckedIndex(s, id) ==
              if s.index[id].status == Invalid
                  || (s.index[id].height > 0 && s.index[s.index[id].parent].status == Invalid)
              then Failure(CorruptState) else Success(s.index[id])
  {
    hide BlockWork;
    if id != anchor {
      assert Follows(s.index, s.index[id]);
    }
  }

  lemma {:induction false} ClimbOutcome(s: Store, anchor: BlockId, id: BlockId)
    requires IndexOk(s.index, anchor) && id in s.index && CheckedIndex(s, id) == Success(s.index[id])
    ensures Climb(s, id, s.index[id], 0) == if Untainted(s.index, id) then Success(anchor) else Failure(CorruptState)
    decreases s.index[id].height
  {
    hide IndexOk, CheckedIndex, Untainted;
    CheckedOutcome(s, anchor, id);
    UntaintedStep(s.index, id);
    if id != anchor {
      var parent := s.index[id].parent;
      CheckedOutcome(s, anchor, parent);
      UntaintedStep(s.index, parent);
      if CheckedIndex(s, parent).Success? {
        ClimbOutcome(s, anchor, parent);
      } else if s.index[parent].height > 0 {
        CheckedOutcome(s, anchor, s.index[parent].parent);
        UntaintedStep(s.index, s.index[parent].parent);
      }
    }
  }

  /** The way down reaches the anchor if and only if it meets no invalid block. */
  lemma AncestorOutcome(s: Store, anchor: BlockId, id: BlockId)
    requires IndexOk(s.index, anchor) && id in s.index
    ensures AncestorAt(s, id, 0) == if Untainted(s.index, id) then Success(Some(anchor)) else Failure(CorruptState)
  {
    hide IndexOk, CheckedIndex, Untainted;
    CheckedOutcome(s, anchor, id);
    UntaintedStep(s.index, id);
    if CheckedIndex(s, id).Success? {
      ClimbOutcome(s, anchor, id);
    } else if s.index[id].height > 0 {
      CheckedOutcome(s, anchor, s.index[id].parent);
      UntaintedStep(s.index, s.index[id].parent);
    }
  }

  /** Every block is valid and later than its parent. */
  ghost predicate Ascends(index: Index) {
    forall id | id in index :: index[id].status != Invalid
      && (index[id].height > 0 && index[id].parent in index ==>
            index[id].header.timestamp > index[index[id].parent].header.timestamp)
  }

  /** On such an index the window of a block holds its own time and none that is later. */
  lemma {:induction false} WindowAscends(s: Store, anchor: BlockId, id: BlockId, k: nat)
    requires IndexOk(s.index, anchor) && Ascends(s.index) && id in s.index
    ensures var r := BranchTimes(s, id, k);
            && r.Success? && |r.value| <= k && (k > 0 ==> r.value != [])
            && forall t | t in r.value :: t <= s.index[id].header.timestamp
    decreases k
  {
    hide IndexOk, CheckedIndex;
    CheckedOutcome(s, anchor, id);
    if k > 0 && s.index[id].height > 0 {
      WindowAscends(s, anchor, s.index[id].parent, k - 1);
    }
  }

  lemma TaintedHere(s: Store, anchor: BlockId, id: BlockId)
    requires IndexOk(s.index, anchor) && id in s.index
    ensures Untainted(s.index, id) ==> s.index[id].status != Invalid
  {
    hide IndexOk, Untainted;
    CheckedOutcome(s, anchor, id);
    UntaintedStep(s.index, id);
  }

  /** The header tip of the session comes back exactly when its branch is free of invalid blocks. */
  lemma HeaderTipOutcome(s: Store, anchor: BlockId, headerTip: Tip, work: nat)
    requires IndexOk(s.index, anchor) && HeaderTipOk(s.index, s.headerTip, headerTip, work)
    ensures LoadHeaderTip(s, anchor) == if Untainted(s.index, headerTip.id) then Success(headerTip)
            else Failure(CorruptState)
  {
    hide IndexOk, AncestorAt, Untainted;
    AncestorOutcome(s, anchor, headerTip.id);
    TaintedHere(s, anchor, headerTip.id);
  }
}
