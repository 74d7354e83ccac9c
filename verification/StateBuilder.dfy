/** The batch update in the program's own form: a builder that inserts nodes and values into its
    maps as it recurses down the tree. */
module StateBuilder {
  import opened Prelude
  import opened StateHash
  import opened WriteSets
  import Spec = StateTransition

  class TransitionBuilder {
    const source: Source
    const domain: Domain
    const empty: seq<Hash>
    var nodes: map<Hash, StateNode>
    var values: map<Hash, seq<byte>>

    ghost predicate Valid() {
      |empty| == SMT_DEPTH + 1 && forall d: nat | d <= SMT_DEPTH :: empty[d] == EmptyAt(domain, d)
    }

    function Emitted(): Source
      reads this
    {
      Source(nodes, values)
    }

    constructor (source: Source, domain: Domain, empty: seq<Hash>)
      requires |empty| == SMT_DEPTH + 1 && forall d: nat | d <= SMT_DEPTH :: empty[d] == EmptyAt(domain, d)
      ensures Valid() && this.source == source && this.domain == domain
      ensures Emitted() == Source(map[], map[])
    {
      this.source, this.domain, this.empty := source, domain, empty;
      nodes, values := map[], map[];
    }

    /** The outcome of the update on values: the hash, and the maps once it succeeds. */
    ghost predicate Matches(r: Result<Hash, StateError>, spec: Result<(Hash, Source), StateError>)
      reads this
    {
      match spec
      case Success(v) => r == Success(v.0) && Emitted() == v.1
      case Failure(e) => r == Failure(e)
    }

    method RecordValue(hash: Hash, bytes: seq<byte>) returns (r: Result<(), StateError>)
      modifies this
      ensures nodes == old(nodes)
      ensures match Spec.RecordValue(source, domain, hash, bytes, old(Emitted()))
              case Success(acc) => r == Success(()) && Emitted() == acc
              case Failure(e) => r == Failure(e)
    {
      if hash in source.values {
        var existing := source.values[hash];
        var actual := HashOfValue(domain, existing);
        if actual.Failure? {
          return Failure(actual.error);
        }
        if actual.value != hash || existing != bytes {
          return Failure(ValueHashMismatch(hash));
        }
        return Success(());
      }
      if hash !in values {
        values := values[hash := bytes];
      }
      return Success(());
    }

    method ApplyLeaf(oldHash: Hash, write: PreparedWrite) returns (r: Result<Hash, StateError>)
      requires Valid()
      modifies this
      ensures Matches(r, Spec.ApplyLeaf(source, domain, oldHash, write, old(Emitted())))
    {
      var oldValue := Spec.OldValueHash(source, domain, oldHash, write.path);
      if oldValue.Failure? {
        return Failure(oldValue.error);
      }
      match write.value {
        case Delete =>
          return Success(if oldValue.value.None? then oldHash else empty[SMT_DEPTH]);
        case Put(bytes, hash) =>
          if oldValue.value == Some(hash) {
            return Success(oldHash);
          }
          var recorded := RecordValue(hash, bytes);
          if recorded.Failure? {
            return Failure(recorded.error);
          }
          var newHash := LeafHash(domain, write.path, hash);
          nodes := nodes[newHash := Leaf(write.path, hash)];
          return Success(newHash);
      }
    }

    /** Updates one subtree, inserting what it builds into `nodes` and `values`. */
    method ApplySubtree(oldHash: Hash, depth: nat, writes: seq<PreparedWrite>) returns (r: Result<Hash, StateError>)
      requires Valid() && depth <= SMT_DEPTH
      modifies this
      ensures Matches(r, Spec.ApplySubtree(source, domain, oldHash, depth, writes, old(Emitted())))
      decreases SMT_DEPTH - depth, 1
    {
      hide EmptyAt, Spec.Rejoin, Spec.ChildrenOf, Spec.ApplyLeaf;
      if writes == [] {
        return Success(oldHash);
      }
      if depth == SMT_DEPTH {
        r := ApplyLeaf(oldHash, writes[0]);
        return;
      }
      var children := Spec.ChildrenOf(source, domain, oldHash, depth);
      if children.Failure? {
        return Failure(children.error);
      }
      r := ApplyChildren(oldHash, depth, children.value.0, children.value.1, writes);
    }

    method ApplyChildren(oldHash: Hash, depth: nat, oldLeft: Hash, oldRight: Hash, writes: seq<PreparedWrite>)
      returns (r: Result<Hash, StateError>)
      requires Valid() && depth < SMT_DEPTH && writes != []
      requires Spec.ChildrenOf(source, domain, oldHash, depth) == Success((oldLeft, oldRight))
      modifies this
      ensures Matches(r, Spec.ApplySubtree(source, domain, oldHash, depth, writes, old(Emitted())))
      decreases SMT_DEPTH - depth, 0
    {
      hide EmptyAt, Spec.Rejoin, Spec.ChildrenOf, Spec.ApplySubtree, Spec.PartitionPoint;
      Spec.SubtreeUnfolds(source, domain, oldHash, depth, (oldLeft, oldRight), writes, Emitted());
      var split := Spec.PartitionPoint(writes, depth);
      var left, right := Success(oldLeft), Success(oldRight);
      if split != 0 {
        left := ApplySubtree(oldLeft, depth + 1, writes[..split]);
      } else {
        assert writes[..split] == [];
      }
      assert Matches(left, Spec.ApplySubtree(source, domain, oldLeft, depth + 1, writes[..split], old(Emitted())));
      if left.Failure? {
        return Failure(left.error);
      }
      label AfterLeft:
      Spec.SubtreeUnfolds(source, domain, oldHash, depth, (oldLeft, oldRight), writes, Emitted());
      if split != |writes| {
        right := ApplySubtree(oldRight, depth + 1, writes[split..]);
      } else {
        assert writes[split..] == [];
      }
      assert Matches(right, Spec.ApplySubtree(source, domain, oldRight, depth + 1, writes[split..],
                                              old@AfterLeft(Emitted())));
      if right.Failure? {
        return Failure(right.error);
      }
      r := Rejoin(oldHash, depth, oldLeft, oldRight, left.value, right.value);
    }

    method Rejoin(oldHash: Hash, depth: nat, oldLeft: Hash, oldRight: Hash, newLeft: Hash, newRight: Hash)
      returns (r: Result<Hash, StateError>)
      requires Valid() && depth < SMT_DEPTH
      modifies this
      ensures Matches(r, Spec.Rejoin(domain, oldHash, depth, (oldLeft, oldRight), newLeft, newRight, old(Emitted())))
    {
      if newLeft == oldLeft && newRight == oldRight {
        return Success(oldHash);
      }
      if newLeft == empty[depth + 1] && newRight == empty[depth + 1] {
        return Success(empty[depth]);
      }
      var node := Branch(depth, newLeft, newRight);
      var hash := NodeHash(node, domain);
      if hash.Failure? {
        return Failure(hash.error);
      }
      nodes := nodes[hash.value := node];
      return hash;
    }
  }

  method ComputeTransition(source: Source, snapshot: Spec.DomainSnapshot, ws: WriteSet)
    returns (r: Result<Spec.Transition, StateError>)
    ensures r == Spec.ApplyWriteSet(source, snapshot, ws)
  {
    if snapshot.domain != ws.domain {
      return Failure(DomainMismatch);
    }
    if ws.writes == [] {
      return Success(Spec.Transition(snapshot.domain, snapshot.root, snapshot.root, Source(map[], map[])));
    }
    var empty := EmptyHashes(snapshot.domain);
    var builder := new TransitionBuilder(source, snapshot.domain, empty[..]);
    var root := builder.ApplySubtree(snapshot.root, 0, ws.writes);
    if root.Failure? {
      return Failure(root.error);
    }
    return Success(Spec.Transition(snapshot.domain, snapshot.root, root.value, builder.Emitted()));
  }
}
