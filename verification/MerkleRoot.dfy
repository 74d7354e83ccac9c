/** The transaction Merkle root: a level-by-level loop that computes a recursive tree hash, with
    separate hash domains for leaves and nodes. */
module MerkleRoot {
  import opened Prelude

  /** The domain-separated hash, free of collisions. */
  datatype RootHash<T> = LeafHash(txid: T) | NodeHash(left: RootHash<T>, right: RootHash<T>)

  datatype RootError = EmptyBlockTransactions

  ghost predicate IsPowerOfTwo(k: nat) {
    k == 1 || (k > 0 && k % 2 == 0 && IsPowerOfTwo(k / 2))
  }

  /** The largest power of two below `n`. */
  ghost function Split(n: nat): (k: nat)
    requires n >= 2
    ensures 1 <= k < n <= 2 * k && IsPowerOfTwo(k)
  {
    if n == 2 then 1 else 2 * Split((n + 1) / 2)
  }

  /** The tree over a list of hashes: the left subtree is the largest complete one. */
  ghost function Tree<T>(hashes: seq<RootHash<T>>): RootHash<T>
    requires hashes != []
    decreases |hashes|
  {
    if |hashes| == 1 then hashes[0]
    else
      var k := Split(|hashes|);
      NodeHash(Tree(hashes[..k]), Tree(hashes[k..]))
  }

  function Parent<T>(level: seq<RootHash<T>>, i: nat): RootHash<T>
    requires i < (|level| + 1) / 2
  {
    if 2 * i + 1 < |level| then NodeHash(level[2 * i], level[2 * i + 1]) else level[2 * i]
  }

  /** One level up: neighbours are paired, an odd last hash is carried over. */
  function NextLevel<T>(level: seq<RootHash<T>>): (next: seq<RootHash<T>>)
    ensures |next| == (|level| + 1) / 2
    ensures forall i | 0 <= i < |next| :: next[i] == Parent(level, i)
  {
    seq((|level| + 1) / 2, i requires 0 <= i < (|level| + 1) / 2 => Parent(level, i))
  }

  lemma NextLevelSplits<T>(level: seq<RootHash<T>>, half: nat)
    requires 2 * half <= |level|
    ensures NextLevel(level)[..half] == NextLevel(level[..2 * half])
    ensures NextLevel(level)[half..] == NextLevel(level[2 * half..])
  {
    var next, right := NextLevel(level), level[2 * half..];
    forall i | 0 <= i < |next| - half
      ensures next[half + i] == Parent(right, i)
    {
      assert next[half + i] == Parent(level, half + i);
    }
  }

  /** Going one level up does not change the tree. */
  lemma {:induction false} TreeOfNextLevel<T>(level: seq<RootHash<T>>)
    requires |level| >= 2
    ensures Tree(NextLevel(level)) == Tree(level)
    decreases |level|
  {
    var n := |level|;
    if n > 2 {
      var k := Split(n);
      var half := Split((n + 1) / 2);
      var left, right := level[..k], level[k..];
      NextLevelSplits(level, half);
      TreeOfNextLevel(left);
      if |right| >= 2 {
        TreeOfNextLevel(right);
      }
    } else {
      assert NextLevel(level) == [NodeHash(level[0], level[1])];
      assert level[..1] == [level[0]] && level[1..] == [level[1]];
    }
  }

  function LeafHashes<T>(txids: seq<T>): (hashes: seq<RootHash<T>>)
    ensures |hashes| == |txids|
    ensures forall i | 0 <= i < |txids| :: hashes[i] == LeafHash(txids[i])
  {
    seq(|txids|, i requires 0 <= i < |txids| => LeafHash(txids[i]))
  }

  method PairLevel<T>(level: seq<RootHash<T>>) returns (next: seq<RootHash<T>>)
    ensures next == NextLevel(level)
  {
    next := [];
    for i := 0 to |level| / 2
      invariant |next| == i && forall j | 0 <= j < i :: next[j] == Parent(level, j)
    {
      next := next + [NodeHash(level[2 * i], level[2 * i + 1])];
    }
    if |level| % 2 == 1 {
      next := next + [level[|level| - 1]];
    }
  }

  /** The loop computes the tree hash of the leaves. */
  method TransactionRoot<T>(txids: seq<T>) returns (r: Result<RootHash<T>, RootError>)
    ensures txids == [] ==> r == Failure(EmptyBlockTransactions)
    ensures txids != [] ==> r == Success(Tree(LeafHashes(txids)))
  {
    if txids == [] {
      return Failure(EmptyBlockTransactions);
    }
    var level := LeafHashes(txids);
    while |level| > 1
      invariant level != [] && Tree(level) == Tree(LeafHashes(txids))
      decreases |level|
    {
      TreeOfNextLevel(level);
      level := PairLevel(level);
    }
    return Success(level[0]);
  }

  // ----- Injectivity -----

  ghost function Leaves<T>(hash: RootHash<T>): seq<T> {
    match hash
    case LeafHash(txid) => [txid]
    case NodeHash(left, right) => Leaves(left) + Leaves(right)
  }

  lemma {:induction false} LeavesOfTree<T>(txids: seq<T>)
    requires txids != []
    ensures Leaves(Tree(LeafHashes(txids))) == txids
    decreases |txids|
  {
    var hashes := LeafHashes(txids);
    if |txids| > 1 {
      var k := Split(|txids|);
      assert hashes[..k] == LeafHashes(txids[..k]) && hashes[k..] == LeafHashes(txids[k..]);
      LeavesOfTree(txids[..k]);
      LeavesOfTree(txids[k..]);
    }
  }

  /** Equal roots have the same ordered list of transaction ids, whatever their lengths. */
  lemma RootInjective<T>(a: seq<T>, b: seq<T>)
    requires a != [] && b != [] && Tree(LeafHashes(a)) == Tree(LeafHashes(b))
    ensures a == b
  {
    LeavesOfTree(a);
    LeavesOfTree(b);
  }
}
