/** Reading, proving and verifying in the program's own form: loops down and up the tree. */
module StateAccess {
  import opened Prelude
  import opened StateHash
  import opened StateTransition
  import Spec = StateProof

  method ReadValue(keyHash: KeyHash, source: Source, snapshot: DomainSnapshot, key: seq<byte>)
    returns (r: Result<Option<seq<byte>>, StateError>)
    ensures r == Spec.ReadValue(keyHash, source, snapshot, key)
  {
    hide EmptyAt, LoadCheckedNode, Spec.LeafValue;
    var attempt := PathKey(keyHash, snapshot.domain, key);
    if attempt.Failure? {
      return Failure(attempt.error);
    }
    var path := attempt.value;
    var table := EmptyHashes(snapshot.domain);
    var empty := table[..];
    var current := snapshot.root;
    assert path[0..] == path;
    for depth := 0 to SMT_DEPTH
      invariant Spec.ReadFrom(source, snapshot.domain, path, path[depth..], current)
             == Spec.ReadValue(keyHash, source, snapshot, key)
    {
      assert path[depth..][1..] == path[depth + 1..];
      if current == empty[depth] {
        return Success(None);
      }
      var node := LoadCheckedNode(source, snapshot.domain, current, depth);
      if node.Failure? {
        return Failure(node.error);
      }
      if node.value.Leaf? {
        return Failure(UnexpectedLeaf);
      }
      current := if path[depth] then node.value.right else node.value.left;
    }
    r := Spec.LeafValue(source, snapshot.domain, path, current);
  }

  method Prove(keyHash: KeyHash, source: Source, snapshot: DomainSnapshot, key: seq<byte>)
    returns (r: Result<(Option<seq<byte>>, Spec.Proof<Hash>), StateError>)
    ensures r == Spec.Prove(keyHash, source, snapshot, key)
  {
    hide EmptyAt, LoadCheckedNode, Spec.LeafValue;
    var attempt := PathKey(keyHash, snapshot.domain, key);
    if attempt.Failure? {
      return Failure(attempt.error);
    }
    var path := attempt.value;
    var table := EmptyHashes(snapshot.domain);
    var empty := table[..];
    var current := snapshot.root;
    var bitmap: Spec.Bitmap, siblings: seq<Hash> := Spec.ZERO_BITMAP, [];
    assert path[0..] == path;
    for depth := 0 to SMT_DEPTH
      invariant Spec.ProveFrom(source, snapshot.domain, path, path[depth..], current, Spec.Proof(bitmap, siblings))
             == Spec.Prove(keyHash, source, snapshot, key)
    {
      assert path[depth..][1..] == path[depth + 1..];
      if current == empty[depth] {
        return Success((None, Spec.Proof(bitmap, siblings)));
      }
      var node := LoadCheckedNode(source, snapshot.domain, current, depth);
      if node.Failure? {
        return Failure(node.error);
      }
      if node.value.Leaf? {
        return Failure(UnexpectedLeaf);
      }
      var next, sibling := node.value.left, node.value.right;
      if path[depth] {
        next, sibling := sibling, next;
      }
      if sibling != empty[depth + 1] {
        bitmap := Spec.SetBitmapBit(bitmap, depth);
        siblings := siblings + [sibling];
      }
      current := next;
    }
    var value := Spec.LeafValue(source, snapshot.domain, path, current);
    if value.Failure? {
      return Failure(value.error);
    }
    return Success((value.value, Spec.Proof(bitmap, siblings)));
  }

  method VerifyProof(keyHash: KeyHash, domain: Domain, key: seq<byte>, value: Option<seq<byte>>,
                     proof: Spec.Proof<Hash>, expectedRoot: Hash) returns (r: Result<(), StateError>)
    ensures r == Spec.Verify(keyHash, domain, key, value, proof, expectedRoot)
  {
    hide EmptyAt, Spec.BitmapBit, Spec.FoldUp, Spec.LeafCommitment;
    var attempt := PathKey(keyHash, domain, key);
    if attempt.Failure? {
      return Failure(attempt.error);
    }
    var path := attempt.value;
    var table := EmptyHashes(domain);
    var empty := table[..];
    var leaf := Spec.LeafCommitment(domain, path, value);
    if leaf.Failure? {
      return Failure(leaf.error);
    }
    var current := leaf.value;
    var index := |proof.siblings|;
    assert path[..SMT_DEPTH] == path;
    for depth := SMT_DEPTH downto 0
      invariant 0 <= index <= |proof.siblings|
      invariant Spec.FoldUp(domain, path[..depth], proof, current, index)
             == Spec.FoldUp(domain, path, proof, leaf.value, |proof.siblings|)
    {
      Spec.FoldStep(domain, path, depth, proof, current, index);
      assert empty[depth + 1] == EmptyAt(domain, depth + 1);
      var sibling := empty[depth + 1];
      if Spec.BitmapBit(proof.bitmap, depth) {
        if index == 0 {
          return Failure(MalformedProof);
        }
        index := index - 1;
        sibling := proof.siblings[index];
        if sibling == empty[depth + 1] {
          return Failure(RedundantDefaultSibling(depth));
        }
      }
      current := if path[depth] then BranchHash(domain, depth, sibling, current)
                 else BranchHash(domain, depth, current, sibling);
    }
    Spec.FoldEnds(domain, proof, current, index);
    assert path[..0] == [];
    if index != 0 {
      return Failure(MalformedProof);
    }
    if current != expectedRoot {
      return Failure(InvalidProof);
    }
    return Success(());
  }
}
