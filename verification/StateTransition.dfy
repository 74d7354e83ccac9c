/** Batch updates of the sparse Merkle tree.

    The functions give the update on values; `StateBuilder.TransitionBuilder` is the same update
    in the program's own form. */
module StateTransition {
  import opened Prelude
  import opened StateHash
  import opened StateTree
  import opened WriteSets

  datatype DomainSnapshot = DomainSnapshot(domain: Domain, root: Hash)

  datatype Transition = Transition(domain: Domain, oldRoot: Hash, newRoot: Hash, emitted: Source)

  /** The source with the emitted nodes and values written over it. */
  function Overlaid(source: Source, emitted: Source): Source {
    Source(source.nodes + emitted.nodes, source.values + emitted.values)
  }

  // ----- The update on values -----

  function ChildrenOf(source: Source, domain: Domain, oldHash: Hash, depth: nat): Result<(Hash, Hash), StateError>
    requires depth < SMT_DEPTH
  {
    if oldHash == EmptyAt(domain, depth) then Success((EmptyAt(domain, depth + 1), EmptyAt(domain, depth + 1)))
    else
      var node :- LoadCheckedNode(source, domain, oldHash, depth);
      if node.Leaf? then Failure(UnexpectedLeaf) else Success((node.left, node.right))
  }

  /** The number of leading writes that go left at `depth`. */
  function PartitionPoint(writes: seq<PreparedWrite>, depth: nat): (k: nat)
    requires depth < SMT_DEPTH
    ensures k <= |writes|
    ensures forall i | 0 <= i < k :: !writes[i].path[depth]
    ensures k < |writes| ==> writes[k].path[depth]
  {
    if writes == [] || writes[0].path[depth] then 0 else 1 + PartitionPoint(writes[1..], depth)
  }

  function OldValueHash(source: Source, domain: Domain, oldHash: Hash, path: Path): Result<Option<Hash>, StateError> {
    if oldHash == EmptyAt(domain, SMT_DEPTH) then Success(None)
    else
      var node :- LoadCheckedNode(source, domain, oldHash, SMT_DEPTH);
      if node.Branch? then Failure(UnexpectedBranch)
      else if node.path != path then Failure(LeafPathMismatch(path, node.path))
      else
        var _ :- LoadCheckedValue(source, domain, node.valueHash);
        Success(Some(node.valueHash))
  }

  function RecordValue(source: Source, domain: Domain, hash: Hash, bytes: seq<byte>, acc: Source)
    : Result<Source, StateError>
  {
    if hash in source.values then
      var existing := source.values[hash];
      var actual :- HashOfValue(domain, existing);
      if actual != hash || existing != bytes then Failure(ValueHashMismatch(hash)) else Success(acc)
    else if hash in acc.values then Success(acc)
    else Success(acc.(values := acc.values[hash := bytes]))
  }

  function ApplyLeaf(source: Source, domain: Domain, oldHash: Hash, write: PreparedWrite, acc: Source)
    : Result<(Hash, Source), StateError>
  {
    var oldValue :- OldValueHash(source, domain, oldHash, write.path);
    match write.value
    case Delete => Success((if oldValue.None? then oldHash else EmptyAt(domain, SMT_DEPTH), acc))
    case Put(bytes, hash) =>
      if oldValue == Some(hash) then Success((oldHash, acc))
      else
        var recorded :- RecordValue(source, domain, hash, bytes, acc);
        var newHash := LeafHash(domain, write.path, hash);
        Success((newHash, recorded.(nodes := recorded.nodes[newHash := Leaf(write.path, hash)])))
  }

  /** The parent over two updated children, collapsed when it is unchanged or empty. */
  function Rejoin(domain: Domain, oldHash: Hash, depth: nat, children: (Hash, Hash), newLeft: Hash, newRight: Hash,
                  acc: Source)
    : Result<(Hash, Source), StateError>
    requires depth < SMT_DEPTH
  {
    if newLeft == children.0 && newRight == children.1 then Success((oldHash, acc))
    else if newLeft == EmptyAt(domain, depth + 1) && newRight == EmptyAt(domain, depth + 1) then
      Success((EmptyAt(domain, depth), acc))
    else
      var node := Branch(depth, newLeft, newRight);
      var hash :- NodeHash(node, domain);
      Success((hash, acc.(nodes := acc.nodes[hash := node])))
  }

  /** The replacement for the subtree `oldHash` at `depth`, and `acc` with what it emits added. */
  function ApplySubtree(source: Source, domain: Domain, oldHash: Hash, depth: nat, writes: seq<PreparedWrite>,
                        acc: Source)
    : Result<(Hash, Source), StateError>
    requires depth <= SMT_DEPTH
    decreases SMT_DEPTH - depth
  {
    if writes == [] then Success((oldHash, acc))
    else if depth == SMT_DEPTH then ApplyLeaf(source, domain, oldHash, writes[0], acc)
    else
      var children :- ChildrenOf(source, domain, oldHash, depth);
      var split := PartitionPoint(writes, depth);
      var left :- ApplySubtree(source, domain, children.0, depth + 1, writes[..split], acc);
      var right :- ApplySubtree(source, domain, children.1, depth + 1, writes[split..], left.1);
      Rejoin(domain, oldHash, depth, children, left.0, right.0, right.1)
  }

  /** One level of the recursion, spelled out. */
  lemma SubtreeUnfolds(source: Source, domain: Domain, oldHash: Hash, depth: nat, children: (Hash, Hash),
                       writes: seq<PreparedWrite>, acc: Source)
    requires depth < SMT_DEPTH && writes != []
    requires ChildrenOf(source, domain, oldHash, depth) == Success(children)
    ensures var split := PartitionPoint(writes, depth);
            var whole := ApplySubtree(source, domain, oldHash, depth, writes, acc);
            var left := ApplySubtree(source, domain, children.0, depth + 1, writes[..split], acc);
            match left
            case Failure(e) => whole == Failure(e)
            case Success(l) =>
              match ApplySubtree(source, domain, children.1, depth + 1, writes[split..], l.1)
              case Failure(e) => whole == Failure(e)
              case Success(r) => whole == Rejoin(domain, oldHash, depth, children, l.0, r.0, r.1)
    ensures forall h, d: nat | d <= SMT_DEPTH :: ApplySubtree(source, domain, h, d, [], acc) == Success((h, acc))
  {
    hide EmptyAt, Rejoin, ChildrenOf, ApplyLeaf, PartitionPoint;
  }

  function ApplyWriteSet(source: Source, snapshot: DomainSnapshot, ws: WriteSet): Result<Transition, StateError> {
    if snapshot.domain != ws.domain then Failure(DomainMismatch)
    else
      var r :- ApplySubtree(source, snapshot.domain, snapshot.root, 0, ws.writes, Source(map[], map[]));
      Success(Transition(snapshot.domain, snapshot.root, r.0, r.1))
  }

  // ----- What the update means -----

  ghost predicate Under(writes: seq<PreparedWrite>, prefix: seq<bool>) {
    forall i | 0 <= i < |writes| :: prefix <= writes[i].path
  }

  ghost predicate Touches(writes: seq<PreparedWrite>, p: Path) {
    exists i :: 0 <= i < |writes| && writes[i].path == p
  }

  /** Below `prefix`, `m'` is `m` with the writes applied. */
  ghost predicate Rewrites(m: StateMap, m': StateMap, writes: seq<PreparedWrite>, prefix: seq<bool>) {
    && (forall i | 0 <= i < |writes| :: Get(m', writes[i].path) == Wanted(writes[i]))
    && (forall p: Path | prefix <= p && !Touches(writes, p) :: Get(m', p) == Get(m, p))
  }

  ghost predicate GoodWrites(domain: Domain, writes: seq<PreparedWrite>, prefix: seq<bool>) {
    && Under(writes, prefix)
    && StrictlySorted(writes)
    && forall i | 0 <= i < |writes| :: WellFormed(domain, writes[i])
  }

  lemma {:induction false} AgreeingMaps(domain: Domain, m: StateMap, m': StateMap, prefix: seq<bool>)
    requires |prefix| <= SMT_DEPTH
    requires forall p: Path | prefix <= p :: Get(m', p) == Get(m, p)
    ensures NodeAt(domain, m', prefix) == NodeAt(domain, m, prefix)
    ensures Occupied(m', prefix) <==> Occupied(m, prefix)
    decreases SMT_DEPTH - |prefix|
  {
    if |prefix| < SMT_DEPTH {
      AgreeingMaps(domain, m, m', prefix + [false]);
      AgreeingMaps(domain, m, m', prefix + [true]);
      OccupiedSplit(m, prefix);
      OccupiedSplit(m', prefix);
    } else {
      var p: Path := prefix;
      assert Get(m', p) == Get(m, p);
    }
  }

  /** The writes that go to the `bit` child at `depth`. */
  function Side(writes: seq<PreparedWrite>, depth: nat, bit: bool): seq<PreparedWrite>
    requires depth < SMT_DEPTH
  {
    var split := PartitionPoint(writes, depth);
    if bit then writes[split..] else writes[..split]
  }

  /** Splitting sorted writes at the partition point sends every write to the side its bit names. */
  lemma SideIndex(writes: seq<PreparedWrite>, prefix: seq<bool>, i: nat)
    requires |prefix| < SMT_DEPTH && i < |writes|
    requires Under(writes, prefix) && StrictlySorted(writes)
    ensures writes[i].path[|prefix|] <==> PartitionPoint(writes, |prefix|) <= i
  {
    var split := PartitionPoint(writes, |prefix|);
    if split < i {
      var a, b := writes[split].path, writes[i].path;
      assert prefix <= a && prefix <= b;
      assert a[..|prefix|] == prefix == b[..|prefix|];
      PathLessBit(a, b, |prefix|);
    }
  }

  lemma SideIsUnder(writes: seq<PreparedWrite>, prefix: seq<bool>, bit: bool)
    requires |prefix| < SMT_DEPTH
    requires Under(writes, prefix) && StrictlySorted(writes)
    ensures Under(Side(writes, |prefix|, bit), prefix + [bit])
  {
    hide StrictlySorted;
    var side := Side(writes, |prefix|, bit);
    var base := if bit then PartitionPoint(writes, |prefix|) else 0;
    forall i | 0 <= i < |side|
      ensures prefix + [bit] <= side[i].path
    {
      assert side[i] == writes[base + i];
      assert prefix <= writes[base + i].path;
      SideIndex(writes, prefix, base + i);
    }
  }

  lemma SideIsGood(domain: Domain, writes: seq<PreparedWrite>, prefix: seq<bool>, bit: bool)
    requires |prefix| < SMT_DEPTH
    requires GoodWrites(domain, writes, prefix)
    ensures GoodWrites(domain, Side(writes, |prefix|, bit), prefix + [bit])
  {
    hide PathLess;
    var split := PartitionPoint(writes, |prefix|);
    var side := Side(writes, |prefix|, bit);
    var base := if bit then split else 0;
    assert forall i | 0 <= i < |side| :: side[i] == writes[base + i];
    assert StrictlySorted(side);
    assert Under(side, prefix + [bit]) by {
      SideIsUnder(writes, prefix, bit);
    }
  }

  lemma SideTouches(writes: seq<PreparedWrite>, prefix: seq<bool>, bit: bool, p: Path)
    requires |prefix| < SMT_DEPTH && prefix + [bit] <= p
    requires Under(writes, prefix) && StrictlySorted(writes)
    ensures Touches(writes, p) <==> Touches(Side(writes, |prefix|, bit), p)
  {
    var split := PartitionPoint(writes, |prefix|);
    var side := Side(writes, |prefix|, bit);
    if Touches(writes, p) {
      var i :| 0 <= i < |writes| && writes[i].path == p;
      SideIndex(writes, prefix, i);
      assert p[|prefix|] == bit;
      assert side[if bit then i - split else i].path == p;
    }
    if Touches(side, p) {
      var i :| 0 <= i < |side| && side[i].path == p;
      assert writes[if bit then split + i else i].path == p;
    }
  }

  lemma SideRewrites(domain: Domain, m: StateMap, m': StateMap, writes: seq<PreparedWrite>, prefix: seq<bool>,
                     bit: bool)
    requires |prefix| < SMT_DEPTH
    requires GoodWrites(domain, writes, prefix) && Rewrites(m, m', writes, prefix)
    ensures Rewrites(m, m', Side(writes, |prefix|, bit), prefix + [bit])
  {
    var side := Side(writes, |prefix|, bit);
    forall p: Path | prefix + [bit] <= p && !Touches(side, p)
      ensures Get(m', p) == Get(m, p)
    {
      assert prefix <= p;
      SideTouches(writes, prefix, bit, p);
    }
  }

  // ----- Soundness with an untrusted source -----

  lemma NothingApplied(source: Source, domain: Domain, m: StateMap, m': StateMap, prefix: seq<bool>, acc: Source)
    requires |prefix| <= SMT_DEPTH && Rewrites(m, m', [], prefix)
    ensures NodeAt(domain, m', prefix) == NodeAt(domain, m, prefix)
    ensures ApplySubtree(source, domain, NodeAt(domain, m, prefix), |prefix|, [], acc)
         == Success((NodeAt(domain, m', prefix), acc))
  {
    AgreeingMaps(domain, m, m', prefix);
  }

  lemma ChildrenAreCanonical(source: Source, domain: Domain, m: StateMap, prefix: seq<bool>)
    requires |prefix| < SMT_DEPTH
    ensures var r := ChildrenOf(source, domain, NodeAt(domain, m, prefix), |prefix|);
            && (r.Success? ==> r.value == (NodeAt(domain, m, prefix + [false]), NodeAt(domain, m, prefix + [true])))
            && (HoldsNode(source, domain, m, prefix) ==> r.Success?)
  {
    EmptyIffUnoccupied(domain, m, prefix);
    if Occupied(m, prefix) {
      LoadedNodeIsCanonical(source, domain, m, prefix);
    } else {
      OccupiedSplit(m, prefix);
    }
  }

  lemma RejoinSound(domain: Domain, m: StateMap, m': StateMap, prefix: seq<bool>, acc: Source)
    requires |prefix| < SMT_DEPTH
    ensures var r := Rejoin(domain, NodeAt(domain, m, prefix), |prefix|,
                            (NodeAt(domain, m, prefix + [false]), NodeAt(domain, m, prefix + [true])),
                            NodeAt(domain, m', prefix + [false]), NodeAt(domain, m', prefix + [true]), acc);
            && r.Success?
            && r.value.0 == NodeAt(domain, m', prefix)
            && (if Occupied(m', prefix) && NodeAt(domain, m', prefix) != NodeAt(domain, m, prefix)
                then r.value.1 == acc.(nodes := acc.nodes[r.value.0 := CanonicalNode(domain, m', prefix)])
                else r.value.1 == acc)
  {
    hide NodeAt, EmptyAt, Occupied;
    NodeAtIsBranch(domain, m, prefix);
    NodeAtIsBranch(domain, m', prefix);
    OccupiedSplit(m', prefix);
    EmptyIffUnoccupied(domain, m', prefix);
    EmptyIffUnoccupied(domain, m', prefix + [false]);
    EmptyIffUnoccupied(domain, m', prefix + [true]);
  }

  /** One level of the recursion, given that both sides are right. */
  lemma JoinSides(source: Source, domain: Domain, m: StateMap, m': StateMap, prefix: seq<bool>,
                  writes: seq<PreparedWrite>, acc: Source)
    requires |prefix| < SMT_DEPTH && writes != []
    requires var left := ApplySubtree(source, domain, NodeAt(domain, m, prefix + [false]), |prefix| + 1,
                                      Side(writes, |prefix|, false), acc);
             left.Success? ==>
               && left.value.0 == NodeAt(domain, m', prefix + [false])
               && var right := ApplySubtree(source, domain, NodeAt(domain, m, prefix + [true]), |prefix| + 1,
                                            Side(writes, |prefix|, true), left.value.1);
                  right.Success? ==> right.value.0 == NodeAt(domain, m', prefix + [true])
    ensures var r := ApplySubtree(source, domain, NodeAt(domain, m, prefix), |prefix|, writes, acc);
            r.Success? ==> r.value.0 == NodeAt(domain, m', prefix)
  {
    ChildrenAreCanonical(source, domain, m, prefix);
    var left := ApplySubtree(source, domain, NodeAt(domain, m, prefix + [false]), |prefix| + 1,
                             Side(writes, |prefix|, false), acc);
    if left.Success? {
      var right := ApplySubtree(source, domain, NodeAt(domain, m, prefix + [true]), |prefix| + 1,
                                Side(writes, |prefix|, true), left.value.1);
      if right.Success? {
        RejoinSound(domain, m, m', prefix, right.value.1);
      }
    }
  }

  lemma ApplyLeafSound(source: Source, domain: Domain, m: StateMap, m': StateMap, path: seq<bool>,
                       writes: seq<PreparedWrite>, acc: Source)
    requires |path| == SMT_DEPTH && writes != []
    requires GoodWrites(domain, writes, path) && Rewrites(m, m', writes, path)
    ensures var r := ApplySubtree(source, domain, NodeAt(domain, m, path), |path|, writes, acc);
            r.Success? ==> r.value.0 == NodeAt(domain, m', path)
  {
    assert path <= writes[0].path;
    assert writes[0].path == path;
    assert Get(m', path) == Wanted(writes[0]);
    assert ApplySubtree(source, domain, NodeAt(domain, m, path), |path|, writes, acc)
        == ApplyLeaf(source, domain, NodeAt(domain, m, path), writes[0], acc);
    hide ApplySubtree, GoodWrites, Rewrites;
    if path in m {
      LoadedNodeIsCanonical(source, domain, m, path);
    }
  }

  /** If the subtree commits to `m` and the update succeeds, the result commits to `m'`,
      whatever the source holds. */
  lemma {:induction false} ApplySubtreeSound(source: Source, domain: Domain, m: StateMap, m': StateMap,
                                             prefix: seq<bool>, writes: seq<PreparedWrite>, acc: Source)
    requires |prefix| <= SMT_DEPTH
    requires GoodWrites(domain, writes, prefix) && Rewrites(m, m', writes, prefix)
    ensures var r := ApplySubtree(source, domain, NodeAt(domain, m, prefix), |prefix|, writes, acc);
            r.Success? ==> r.value.0 == NodeAt(domain, m', prefix)
    decreases SMT_DEPTH - |prefix|
  {
    hide ApplySubtree;
    if writes == [] {
      NothingApplied(source, domain, m, m', prefix, acc);
    } else if |prefix| == SMT_DEPTH {
      ApplyLeafSound(source, domain, m, m', prefix, writes, acc);
    } else {
      var lw, rw := Side(writes, |prefix|, false), Side(writes, |prefix|, true);
      SideIsGood(domain, writes, prefix, false);
      SideIsGood(domain, writes, prefix, true);
      SideRewrites(domain, m, m', writes, prefix, false);
      SideRewrites(domain, m, m', writes, prefix, true);
      ApplySubtreeSound(source, domain, m, m', prefix + [false], lw, acc);
      var left := ApplySubtree(source, domain, NodeAt(domain, m, prefix + [false]), |prefix| + 1, lw, acc);
      if left.Success? {
        ApplySubtreeSound(source, domain, m, m', prefix + [true], rw, left.value.1);
      }
      JoinSides(source, domain, m, m', prefix, writes, acc);
    }
  }
}
