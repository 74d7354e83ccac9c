/** Membership proofs with compressed siblings: a bitmap marks the depths whose sibling is not the
    default hash, and only those siblings are listed. */
module StateProof {
  import opened Prelude
  import opened StateHash
  import opened StateTree
  import opened StateTransition

  const SMT_PROOF_BITMAP_BYTES := 32

  // ----- Bitmaps, most significant bit first -----

  predicate BitOf(b: bv8, i: nat)
    requires i < 8
  {
    b & ((0x80 as bv8) >> i) != 0
  }

  function SetBitOf(b: bv8, i: nat): bv8
    requires i < 8
  {
    b | ((0x80 as bv8) >> i)
  }

  lemma SetBitOfSets(b: bv8, i: nat, j: nat)
    requires i < 8 && j < 8
    ensures BitOf(SetBitOf(b, i), j) <==> i == j || BitOf(b, j)
  {
    assert i == 0 || i == 1 || i == 2 || i == 3 || i == 4 || i == 5 || i == 6 || i == 7;
    assert j == 0 || j == 1 || j == 2 || j == 3 || j == 4 || j == 5 || j == 6 || j == 7;
  }

  lemma ByteFromBits(a: bv8, b: bv8)
    requires forall i: nat | i < 8 :: BitOf(a, i) == BitOf(b, i)
    ensures a == b
  {
    assert BitOf(a, 0) == BitOf(b, 0) && BitOf(a, 1) == BitOf(b, 1) && BitOf(a, 2) == BitOf(b, 2)
        && BitOf(a, 3) == BitOf(b, 3) && BitOf(a, 4) == BitOf(b, 4) && BitOf(a, 5) == BitOf(b, 5)
        && BitOf(a, 6) == BitOf(b, 6) && BitOf(a, 7) == BitOf(b, 7);
  }

  const ZERO_BITMAP: seq<bv8> :=
    [0, 0, 0, 0, 0, 0, 0, 0, 0, 0, 0, 0, 0, 0, 0, 0, 0, 0, 0, 0, 0, 0, 0, 0, 0, 0, 0, 0, 0, 0, 0, 0]

  type Bitmap = b: seq<bv8> | |b| == SMT_PROOF_BITMAP_BYTES witness ZERO_BITMAP

  predicate BitmapBit(bitmap: Bitmap, depth: nat)
    requires depth < SMT_DEPTH
  {
    BitOf(bitmap[depth / 8], depth % 8)
  }

  function SetBitmapBit(bitmap: Bitmap, depth: nat): Bitmap
    requires depth < SMT_DEPTH
  {
    bitmap[depth / 8 := SetBitOf(bitmap[depth / 8], depth % 8)]
  }

  const MASKS: seq<bv8> := [0x80, 0x40, 0x20, 0x10, 0x08, 0x04, 0x02, 0x01]

  /** Byte `depth / 8` holds the bit, the most significant one for the least depth. */
  lemma BitmapLayout(bitmap: Bitmap, depth: nat)
    requires depth < SMT_DEPTH
    ensures BitmapBit(bitmap, depth) <==> bitmap[depth / 8] & MASKS[depth % 8] != 0
  {
    var i := depth % 8;
    assert i == 0 || i == 1 || i == 2 || i == 3 || i == 4 || i == 5 || i == 6 || i == 7;
  }

  lemma SetBitmapBitSets(bitmap: Bitmap, depth: nat, d: nat)
    requires depth < SMT_DEPTH && d < SMT_DEPTH
    ensures BitmapBit(SetBitmapBit(bitmap, depth), d) <==> d == depth || BitmapBit(bitmap, d)
  {
    hide BitOf, SetBitOf;
    if depth / 8 == d / 8 {
      SetBitOfSets(bitmap[depth / 8], depth % 8, d % 8);
    }
  }

  /** A bitmap is determined by its bits. */
  lemma BitmapFromBits(a: Bitmap, b: Bitmap)
    requires forall d: nat | d < SMT_DEPTH :: BitmapBit(a, d) == BitmapBit(b, d)
    ensures a == b
  {
    hide BitOf;
    forall k: nat | k < SMT_PROOF_BITMAP_BYTES
      ensures a[k] == b[k]
    {
      forall i: nat | i < 8
        ensures BitOf(a[k], i) == BitOf(b[k], i)
      {
        assert BitmapBit(a, 8 * k + i) == BitmapBit(b, 8 * k + i);
      }
      ByteFromBits(a[k], b[k]);
    }
  }

  datatype Proof<H> = Proof(bitmap: Bitmap, siblings: seq<H>)

  // ----- Reading and proving, on values -----

  function LeafValue(source: Source, domain: Domain, path: Path, current: Hash): Result<Option<seq<byte>>, StateError> {
    if current == EmptyAt(domain, SMT_DEPTH) then Success(None)
    else
      var node :- LoadCheckedNode(source, domain, current, SMT_DEPTH);
      if node.Branch? then Failure(UnexpectedBranch)
      else if node.path != path then Failure(LeafPathMismatch(path, node.path))
      else
        var value :- LoadCheckedValue(source, domain, node.valueHash);
        Success(Some(value))
  }

  /** The descent from `current`, with the bits of `rest` still to follow. */
  function ReadFrom(source: Source, domain: Domain, path: Path, rest: seq<bool>, current: Hash)
    : Result<Option<seq<byte>>, StateError>
    requires |rest| <= SMT_DEPTH
  {
    if rest == [] then LeafValue(source, domain, path, current)
    else if current == EmptyAt(domain, SMT_DEPTH - |rest|) then Success(None)
    else
      var node :- LoadCheckedNode(source, domain, current, SMT_DEPTH - |rest|);
      if node.Leaf? then Failure(UnexpectedLeaf)
      else ReadFrom(source, domain, path, rest[1..], if rest[0] then node.right else node.left)
  }

  function ReadValue(keyHash: KeyHash, source: Source, snapshot: DomainSnapshot, key: seq<byte>)
    : Result<Option<seq<byte>>, StateError>
  {
    var path :- PathKey(keyHash, snapshot.domain, key);
    ReadFrom(source, snapshot.domain, path, path, snapshot.root)
  }

  function WithSibling(domain: Domain, depth: nat, proof: Proof<Hash>, sibling: Hash): Proof<Hash>
    requires depth < SMT_DEPTH
  {
    if sibling == EmptyAt(domain, depth + 1) then proof
    else Proof(SetBitmapBit(proof.bitmap, depth), proof.siblings + [sibling])
  }

  /** The descent that also collects the siblings that are not the default. */
  function ProveFrom(source: Source, domain: Domain, path: Path, rest: seq<bool>, current: Hash, proof: Proof<Hash>)
    : Result<(Option<seq<byte>>, Proof<Hash>), StateError>
    requires |rest| <= SMT_DEPTH
    decreases |rest|
  {
    if rest == [] then
      var value :- LeafValue(source, domain, path, current);
      Success((value, proof))
    else
      var depth := SMT_DEPTH - |rest|;
      if current == EmptyAt(domain, depth) then Success((None, proof))
      else
        var node :- LoadCheckedNode(source, domain, current, depth);
        if node.Leaf? then Failure(UnexpectedLeaf)
        else
          var (next, sibling) := if rest[0] then (node.right, node.left) else (node.left, node.right);
          ProveFrom(source, domain, path, rest[1..], next, WithSibling(domain, depth, proof, sibling))
  }

  const NO_SIBLINGS: Proof<Hash> := Proof(ZERO_BITMAP, [])

  function Prove(keyHash: KeyHash, source: Source, snapshot: DomainSnapshot, key: seq<byte>)
    : Result<(Option<seq<byte>>, Proof<Hash>), StateError>
  {
    var path :- PathKey(keyHash, snapshot.domain, key);
    ProveFrom(source, snapshot.domain, path, path, snapshot.root, NO_SIBLINGS)
  }

  // ----- Verification, on values -----

  /** The sibling of the step at `depth`, and how many listed siblings remain after taking it. */
  function TakeSibling(domain: Domain, proof: Proof<Hash>, depth: nat, index: nat): Result<(Hash, nat), StateError>
    requires depth < SMT_DEPTH && index <= |proof.siblings|
  {
    if !BitmapBit(proof.bitmap, depth) then Success((EmptyAt(domain, depth + 1), index))
    else if index == 0 then Failure(MalformedProof)
    else
      var sibling := proof.siblings[index - 1];
      if sibling == EmptyAt(domain, depth + 1) then Failure(RedundantDefaultSibling(depth))
      else Success((sibling, index - 1))
  }

  function StepUp(domain: Domain, depth: nat, bit: bool, current: Hash, sibling: Hash): Hash {
    if bit then BranchHash(domain, depth, sibling, current) else BranchHash(domain, depth, current, sibling)
  }

  /** Hashes from `current`, at the end of `prefix`, up to the root; `index` siblings are unused. */
  function FoldUp(domain: Domain, prefix: seq<bool>, proof: Proof<Hash>, current: Hash, index: nat): Result<Hash,
      StateError>
    requires |prefix| <= SMT_DEPTH && index <= |proof.siblings|
    decreases |prefix|
  {
    if prefix == [] then
      if index != 0 then Failure(MalformedProof) else Success(current)
    else
      var depth := |prefix| - 1;
      var taken :- TakeSibling(domain, proof, depth, index);
      FoldUp(domain, prefix[..depth], proof, StepUp(domain, depth, prefix[depth], current, taken.0), taken.1)
  }

  /** One step of the fold, along a path. */
  lemma FoldStep(domain: Domain, path: Path, depth: nat, proof: Proof<Hash>, current: Hash, index: nat)
    requires depth < SMT_DEPTH && index <= |proof.siblings|
    ensures var taken := TakeSibling(domain, proof, depth, index);
            && (taken.Failure? ==> FoldUp(domain, path[..depth + 1], proof, current, index) == Failure(taken.error))
            && (taken.Success? ==>
                  && taken.value.1 <= index
                  && FoldUp(domain, path[..depth + 1], proof, current, index)
                     == FoldUp(domain, path[..depth], proof,
                               StepUp(domain, depth, path[depth], current, taken.value.0), taken.value.1))
  {
    hide StepUp, EmptyAt, BitmapBit;
    assert path[..depth + 1][..depth] == path[..depth];
  }

  lemma FoldEnds(domain: Domain, proof: Proof<Hash>, current: Hash, index: nat)
    requires index <= |proof.siblings|
    ensures FoldUp(domain, [], proof, current, index) == if index != 0 then Failure(MalformedProof)
            else Success(current)
  {
  }

  function LeafCommitment(domain: Domain, path: Path, value: Option<seq<byte>>): Result<Hash, StateError> {
    match value
    case Some(bytes) =>
      var hash :- HashOfValue(domain, bytes);
      Success(LeafHash(domain, path, hash))
    case None => Success(EmptyAt(domain, SMT_DEPTH))
  }

  function Verify(keyHash: KeyHash, domain: Domain, key: seq<byte>, value: Option<seq<byte>>, proof: Proof<Hash>,
                  expectedRoot: Hash)
    : Result<(), StateError>
  {
    var path :- PathKey(keyHash, domain, key);
    var leaf :- LeafCommitment(domain, path, value);
    var root :- FoldUp(domain, path, proof, leaf, |proof.siblings|);
    if root != expectedRoot then Failure(InvalidProof) else Success(())
  }

  // ----- Reads are right -----

  lemma OnPath(source: Source, domain: Domain, m: StateMap, path: Path, depth: nat)
    requires depth <= SMT_DEPTH
    ensures path in m ==> Occupied(m, path[..depth])
    ensures Holds(source, domain, m, []) ==> HoldsNode(source, domain, m, path[..depth])
  {
    hide NodeAt, HoldsNode;
    assert path[..depth] <= path;
    assert [] <= path[..depth];
  }

  lemma LeafValueSound(source: Source, domain: Domain, m: StateMap, path: Path)
    ensures var r := LeafValue(source, domain, path, NodeAt(domain, m, path));
            && (r.Success? ==> r.value == Get(m, path))
            && (Holds(source, domain, m, []) ==> r.Success?)
  {
    EmptyIffUnoccupied(domain, m, path);
    if path in m {
      LoadedNodeIsCanonical(source, domain, m, path);
      if Holds(source, domain, m, []) {
        assert HoldsNode(source, domain, m, path) && HoldsValue(source, domain, m, path);
      }
    }
  }

  /** With an untrusted source a read below a true commitment returns the map's value or an error;
      with a source that holds the tree it succeeds. */
  lemma {:induction false} ReadFromSound(source: Source, domain: Domain, m: StateMap, path: Path, rest: seq<bool>)
    requires |rest| <= SMT_DEPTH && path[SMT_DEPTH - |rest|..] == rest
    ensures var r := ReadFrom(source, domain, path, rest, NodeAt(domain, m, path[..SMT_DEPTH - |rest|]));
            && (r.Success? ==> r.value == Get(m, path))
            && (Holds(source, domain, m, []) ==> r.Success?)
    decreases |rest|
  {
    hide NodeAt, EmptyAt, Occupied, LoadCheckedNode, LeafValue, Holds, HoldsNode;
    var prefix := path[..SMT_DEPTH - |rest|];
    OnPath(source, domain, m, path, |prefix|);
    if rest == [] {
      assert prefix == path;
      LeafValueSound(source, domain, m, path);
    } else {
      EmptyIffUnoccupied(domain, m, prefix);
      if Occupied(m, prefix) {
        LoadedNodeIsCanonical(source, domain, m, prefix);
        assert prefix + [rest[0]] == path[..SMT_DEPTH - |rest[1..]|];
        ReadFromSound(source, domain, m, path, rest[1..]);
      }
    }
  }

  /** A read against the reference root of `m` agrees with `m` at the key's path. */
  lemma ReadValueAgrees(keyHash: KeyHash, source: Source, domain: Domain, m: StateMap, key: seq<byte>)
    ensures var r := ReadValue(keyHash, source, DomainSnapshot(domain, Root(domain, m)), key);
            && (r.Success? ==> r.value == Get(m, keyHash(domain, key)))
            && (Holds(source, domain, m, []) ==> (r.Success? <==> |key| <= MAX_STATE_KEY_BYTES))
  {
    hide ReadFrom, NodeAt, Holds;
    if |key| <= MAX_STATE_KEY_BYTES {
      var path := keyHash(domain, key);
      assert path[0..] == path && path[..0] == [];
      ReadFromSound(source, domain, m, path, path);
    }
  }

  // ----- Verification accepts only the truth -----

  lemma TakenIndex(domain: Domain, proof: Proof<Hash>, depth: nat, index: nat)
    requires depth < SMT_DEPTH && index <= |proof.siblings|
    requires TakeSibling(domain, proof, depth, index).Success?
    ensures TakeSibling(domain, proof, depth, index).value.1 == if BitmapBit(proof.bitmap, depth) then index - 1
            else index
    ensures BitmapBit(proof.bitmap, depth) ==> index > 0
  {
    hide EmptyAt, BitmapBit;
  }

  /** If hashing up from `current` reaches the root of `m`, `current` is the commitment at `prefix`. */
  lemma {:induction false} FoldUpSound(domain: Domain, m: StateMap, prefix: seq<bool>, proof: Proof<Hash>,
                                       current: Hash, index: nat)
    requires |prefix| <= SMT_DEPTH && index <= |proof.siblings|
    requires FoldUp(domain, prefix, proof, current, index) == Success(Root(domain, m))
    ensures current == NodeAt(domain, m, prefix)
    decreases |prefix|
  {
    hide NodeAt, TakeSibling;
    if prefix != [] {
      var depth := |prefix| - 1;
      var front := prefix[..depth];
      assert prefix == front + [prefix[depth]];
      var taken := TakeSibling(domain, proof, depth, index);
      TakenIndex(domain, proof, depth, index);
      FoldUpSound(domain, m, front, proof, StepUp(domain, depth, prefix[depth], current, taken.value.0), taken.value.1);
      NodeAtIsBranch(domain, m, front);
    }
  }

  /** Proof soundness: an accepted claim against the reference root of `m` is what `m` says. */
  lemma VerifySound(keyHash: KeyHash, domain: Domain, m: StateMap, key: seq<byte>, value: Option<seq<byte>>,
                    proof: Proof<Hash>)
    requires Verify(keyHash, domain, key, value, proof, Root(domain, m)).Success?
    ensures value == Get(m, keyHash(domain, key))
  {
    hide FoldUp;
    var path := keyHash(domain, key);
    FoldUpSound(domain, m, path, proof, LeafCommitment(domain, path, value).value, |proof.siblings|);
  }

  lemma TakeSiblingInjective(domain: Domain, p1: Proof<Hash>, p2: Proof<Hash>, depth: nat, i1: nat, i2: nat)
    requires depth < SMT_DEPTH && i1 <= |p1.siblings| && i2 <= |p2.siblings|
    requires TakeSibling(domain, p1, depth, i1).Success? && TakeSibling(domain, p2, depth, i2).Success?
    requires TakeSibling(domain, p1, depth, i1).value == TakeSibling(domain, p2, depth, i2).value
    ensures BitmapBit(p1.bitmap, depth) == BitmapBit(p2.bitmap, depth) && i1 == i2
    ensures BitmapBit(p1.bitmap, depth) ==> p1.siblings[i1 - 1] == p2.siblings[i2 - 1]
  {
    hide EmptyAt, BitmapBit;
  }

  /** Two folds that reach one root started from the same hash, with the same bits and siblings. */
  lemma {:induction false} FoldUpInjective(domain: Domain, prefix: seq<bool>, p1: Proof<Hash>, c1: Hash, i1: nat,
                                           p2: Proof<Hash>, c2: Hash, i2: nat)
    requires |prefix| <= SMT_DEPTH && i1 <= |p1.siblings| && i2 <= |p2.siblings|
    requires FoldUp(domain, prefix, p1, c1, i1).Success?
    requires FoldUp(domain, prefix, p1, c1, i1) == FoldUp(domain, prefix, p2, c2, i2)
    ensures c1 == c2 && i1 == i2
    ensures forall d: nat | d < |prefix| :: BitmapBit(p1.bitmap, d) == BitmapBit(p2.bitmap, d)
    ensures p1.siblings[..i1] == p2.siblings[..i2]
    decreases |prefix|
  {
    hide TakeSibling, BitmapBit;
    if prefix != [] {
      var depth := |prefix| - 1;
      var t1, t2 := TakeSibling(domain, p1, depth, i1).value, TakeSibling(domain, p2, depth, i2).value;
      TakenIndex(domain, p1, depth, i1);
      TakenIndex(domain, p2, depth, i2);
      FoldUpInjective(domain, prefix[..depth],
                      p1, StepUp(domain, depth, prefix[depth], c1, t1.0), t1.1,
                      p2, StepUp(domain, depth, prefix[depth], c2, t2.0), t2.1);
      TakeSiblingInjective(domain, p1, p2, depth, i1, i2);
      if BitmapBit(p1.bitmap, depth) {
        assert p1.siblings[..i1] == p1.siblings[..i1 - 1] + [p1.siblings[i1 - 1]];
        assert p2.siblings[..i2] == p2.siblings[..i2 - 1] + [p2.siblings[i2 - 1]];
      }
    }
  }

  /** Proof uniqueness: for any root at all, a key has at most one accepted value and one proof. */
  lemma VerifyUnique(keyHash: KeyHash, domain: Domain, key: seq<byte>, root: Hash,
                     v1: Option<seq<byte>>, p1: Proof<Hash>, v2: Option<seq<byte>>, p2: Proof<Hash>)
    requires Verify(keyHash, domain, key, v1, p1, root).Success?
    requires Verify(keyHash, domain, key, v2, p2, root).Success?
    ensures v1 == v2 && p1 == p2
  {
    hide FoldUp, BitmapBit;
    var path := keyHash(domain, key);
    FoldUpInjective(domain, path, p1, LeafCommitment(domain, path, v1).value, |p1.siblings|,
                    p2, LeafCommitment(domain, path, v2).value, |p2.siblings|);
    BitmapFromBits(p1.bitmap, p2.bitmap);
    assert p1.siblings[..|p1.siblings|] == p1.siblings;
    assert p2.siblings[..|p2.siblings|] == p2.siblings;
  }

  // ----- Proving is complete -----

  /** No depth at or below `depth` is marked yet. */
  ghost predicate ClearFrom(bitmap: Bitmap, depth: nat) {
    forall d: nat | depth <= d < SMT_DEPTH :: !BitmapBit(bitmap, d)
  }

  /** `q` continues `p`: same marks above `depth`, and its siblings start with those of `p`. */
  ghost predicate Continues(p: Proof<Hash>, q: Proof<Hash>, depth: nat)
    requires depth <= SMT_DEPTH
  {
    && (forall d: nat | d < depth :: BitmapBit(p.bitmap, d) == BitmapBit(q.bitmap, d))
    && p.siblings <= q.siblings
  }

  /** Folding with a continued proof is the same once only the common part is left. */
  lemma {:induction false} FoldUpContinues(domain: Domain, prefix: seq<bool>, p: Proof<Hash>, q: Proof<Hash>,
                                           current: Hash, index: nat)
    requires |prefix| <= SMT_DEPTH && index <= |p.siblings|
    requires Continues(p, q, |prefix|)
    ensures FoldUp(domain, prefix, p, current, index) == FoldUp(domain, prefix, q, current, index)
    decreases |prefix|
  {
    hide EmptyAt, BitmapBit, StepUp;
    if prefix != [] {
      var depth := |prefix| - 1;
      var taken := TakeSibling(domain, p, depth, index);
      assert taken == TakeSibling(domain, q, depth, index);
      if taken.Success? {
        FoldUpContinues(domain, prefix[..depth], p, q, StepUp(domain, depth, prefix[depth], current, taken.value.0),
                        taken.value.1);
      }
    }
  }

  /** Folding empty subtrees up an unmarked stretch of the path yields the empty subtree. */
  lemma {:induction false} FoldUpEmpty(domain: Domain, prefix: seq<bool>, depth: nat, proof: Proof<Hash>, index: nat)
    requires depth <= |prefix| <= SMT_DEPTH && index <= |proof.siblings|
    requires ClearFrom(proof.bitmap, depth)
    ensures FoldUp(domain, prefix, proof, EmptyAt(domain, |prefix|), index)
         == FoldUp(domain, prefix[..depth], proof, EmptyAt(domain, depth), index)
    decreases |prefix|
  {
    hide BitmapBit;
    if depth == |prefix| {
      assert prefix[..depth] == prefix;
    } else {
      FoldUpEmpty(domain, prefix[..|prefix| - 1], depth, proof, index);
      assert prefix[..|prefix| - 1][..depth] == prefix[..depth];
    }
  }

  lemma LeafValueCommits(source: Source, domain: Domain, path: Path, current: Hash)
    requires LeafValue(source, domain, path, current).Success?
    ensures LeafCommitment(domain, path, LeafValue(source, domain, path, current).value) == Success(current)
  {
  }

  lemma NoneCommits(domain: Domain, path: Path)
    ensures LeafCommitment(domain, path, None) == Success(EmptyAt(domain, SMT_DEPTH))
  {
  }

  lemma LoadedBranch(source: Source, domain: Domain, current: Hash, depth: nat)
    requires depth < SMT_DEPTH
    requires LoadCheckedNode(source, domain, current, depth).Success?
    ensures var node := LoadCheckedNode(source, domain, current, depth).value;
            node.Branch? && current == BranchHash(domain, depth, node.left, node.right)
  {
  }

  lemma GrownProof(domain: Domain, depth: nat, proof: Proof<Hash>, sibling: Hash)
    requires depth < SMT_DEPTH && ClearFrom(proof.bitmap, depth)
    ensures var grown := WithSibling(domain, depth, proof, sibling);
            && ClearFrom(grown.bitmap, depth + 1)
            && Continues(proof, grown, depth)
            && TakeSibling(domain, grown, depth, |grown.siblings|) == Success((sibling, |proof.siblings|))
  {
    hide EmptyAt, BitmapBit, SetBitmapBit;
    forall d: nat | d < SMT_DEPTH
      ensures BitmapBit(SetBitmapBit(proof.bitmap, depth), d) <==> d == depth || BitmapBit(proof.bitmap, d)
    {
      SetBitmapBitSets(proof.bitmap, depth, d);
    }
  }

  lemma FoldGrown(domain: Domain, prefix: seq<bool>, proof: Proof<Hash>, grown: Proof<Hash>, next: Hash, sibling: Hash)
    requires 0 < |prefix| <= SMT_DEPTH
    requires Continues(proof, grown, |prefix| - 1)
    requires TakeSibling(domain, grown, |prefix| - 1, |grown.siblings|) == Success((sibling, |proof.siblings|))
    ensures FoldUp(domain, prefix, grown, next, |grown.siblings|)
         == FoldUp(domain, prefix[..|prefix| - 1], proof,
                   StepUp(domain, |prefix| - 1, prefix[|prefix| - 1], next, sibling), |proof.siblings|)
  {
    hide TakeSibling, BitmapBit, StepUp;
    FoldUpContinues(domain, prefix[..|prefix| - 1], proof, grown,
                    StepUp(domain, |prefix| - 1, prefix[|prefix| - 1], next, sibling), |proof.siblings|);
  }

  /** Whatever the source holds, a proof that was produced folds back to where the descent began. */
  lemma {:induction false} ProveFromFolds(source: Source, domain: Domain, path: Path, rest: seq<bool>, current: Hash,
                                          proof: Proof<Hash>)
    requires |rest| <= SMT_DEPTH && path[SMT_DEPTH - |rest|..] == rest
    requires ClearFrom(proof.bitmap, SMT_DEPTH - |rest|)
    requires ProveFrom(source, domain, path, rest, current, proof).Success?
    ensures var (value, final) := ProveFrom(source, domain, path, rest, current, proof).value;
            && Continues(proof, final, SMT_DEPTH - |rest|)
            && LeafCommitment(domain, path, value).Success?
            && FoldUp(domain, path, final, LeafCommitment(domain, path, value).value, |final.siblings|)
               == FoldUp(domain, path[..SMT_DEPTH - |rest|], proof, current, |proof.siblings|)
    decreases |rest|
  {
    hide EmptyAt, BitmapBit, FoldUp, LeafCommitment, WithSibling, LoadCheckedNode, LeafValue, ClearFrom;
    var depth := SMT_DEPTH - |rest|;
    if rest == [] {
      assert path[..depth] == path;
      LeafValueCommits(source, domain, path, current);
    } else if current == EmptyAt(domain, depth) {
      NoneCommits(domain, path);
      assert path[..SMT_DEPTH] == path;
      FoldUpEmpty(domain, path, depth, proof, |proof.siblings|);
    } else {
      var node := LoadCheckedNode(source, domain, current, depth).value;
      LoadedBranch(source, domain, current, depth);
      var (next, sibling) := if rest[0] then (node.right, node.left) else (node.left, node.right);
      var grown := WithSibling(domain, depth, proof, sibling);
      GrownProof(domain, depth, proof, sibling);
      assert path[depth + 1..] == rest[1..];
      assert path[depth] == rest[0];
      ProveFromFolds(source, domain, path, rest[1..], next, grown);
      FoldGrown(domain, path[..depth + 1], proof, grown, next, sibling);
      assert path[..depth + 1][..depth] == path[..depth];
    }
  }

  /** Proving and reading are one descent: same value or same error. */
  lemma {:induction false} ProveFromReads(source: Source, domain: Domain, path: Path, rest: seq<bool>, current: Hash,
                                          proof: Proof<Hash>)
    requires |rest| <= SMT_DEPTH
    ensures match ReadFrom(source, domain, path, rest, current)
            case Failure(e) => ProveFrom(source, domain, path, rest, current, proof) == Failure(e)
            case Success(v) =>
              && ProveFrom(source, domain, path, rest, current, proof).Success?
              && ProveFrom(source, domain, path, rest, current, proof).value.0 == v
    decreases |rest|
  {
    hide EmptyAt, LoadCheckedNode, LeafValue, WithSibling;
    if rest != [] {
      var depth := SMT_DEPTH - |rest|;
      var loaded := LoadCheckedNode(source, domain, current, depth);
      if current != EmptyAt(domain, depth) && loaded.Success? && loaded.value.Branch? {
        var node := loaded.value;
        var (next, sibling) := if rest[0] then (node.right, node.left) else (node.left, node.right);
        ProveFromReads(source, domain, path, rest[1..], next, WithSibling(domain, depth, proof, sibling));
      }
    }
  }

  lemma NoSiblingsClear()
    ensures ClearFrom(NO_SIBLINGS.bitmap, 0)
  {
    forall d: nat | d < SMT_DEPTH
      ensures !BitmapBit(NO_SIBLINGS.bitmap, d)
    {
      assert NO_SIBLINGS.bitmap[d / 8] == 0;
    }
  }

  /** Proof completeness, with an untrusted source and any root: proving succeeds exactly when
      reading does, with the same value, and the verifier accepts the proof. */
  lemma ProveComplete(keyHash: KeyHash, source: Source, snapshot: DomainSnapshot, key: seq<byte>)
    ensures match ReadValue(keyHash, source, snapshot, key)
            case Failure(e) => Prove(keyHash, source, snapshot, key) == Failure(e)
            case Success(v) =>
              && Prove(keyHash, source, snapshot, key).Success?
              && var (value, proof) := Prove(keyHash, source, snapshot, key).value;
                 && value == v
                 && Verify(keyHash, snapshot.domain, key, value, proof, snapshot.root) == Success(())
  {
    hide ProveFrom, ReadFrom, LeafCommitment, BitmapBit;
    var path := PathKey(keyHash, snapshot.domain, key);
    if path.Success? {
      ProveFromReads(source, snapshot.domain, path.value, path.value, snapshot.root, NO_SIBLINGS);
      if ProveFrom(source, snapshot.domain, path.value, path.value, snapshot.root, NO_SIBLINGS).Success? {
        NoSiblingsClear();
        assert path.value[0..] == path.value && path.value[..0] == [];
        ProveFromFolds(source, snapshot.domain, path.value, path.value, snapshot.root, NO_SIBLINGS);
      }
    }
  }
}
