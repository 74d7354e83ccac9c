/** Domain-separated hashes of the sparse Merkle state tree.

    A hash is a free datatype: distinct preimages give distinct hashes, so collision
    freedom holds by construction.  `Foreign` stands for every other 32-byte string. */
module StateHash {
  import opened Prelude

  const SMT_DEPTH := 256
  const MAX_STATE_KEY_BYTES := 1_024
  const MAX_STATE_VALUE_BYTES := 1_048_576

  datatype Domain =
    NativeUtxo | Evm | Wasm | ExecutionAccounting | ExecutionReceipts | AsyncOutbox | AsyncConsumed | FeeState

  /** A 256-bit leaf position, most significant bit first. */
  type Path = p: seq<bool> | |p| == SMT_DEPTH witness seq(SMT_DEPTH, _ => false)

  /** The keyed hash from raw keys to leaf positions; nothing is assumed about it. */
  type KeyHash = (Domain, seq<byte>) -> Path

  datatype Hash =
    | EmptyHash(domain: Domain)
    | LeafHash(domain: Domain, path: seq<bool>, value: Hash)
    | BranchHash(domain: Domain, depth: nat, left: Hash, right: Hash)
    | ValueHash(domain: Domain, bytes: seq<byte>)
    | Foreign(bytes: seq<byte>)

  datatype StateError =
    | KeyTooLarge(length: nat)
    | ValueTooLarge(length: nat)
    | DepthOutOfRange(depth: nat)
    | NonCanonicalEmptyBranch(depth: nat)
    | MissingNode(hash: Hash)
    | NodeHashMismatch(hash: Hash)
    | NodeDepthMismatch(expected: nat, actual: nat)
    | UnexpectedLeaf
    | UnexpectedBranch
    | LeafPathMismatch(expectedPath: Path, actualPath: seq<bool>)
    | MissingValue(hash: Hash)
    | ValueHashMismatch(hash: Hash)
    | DuplicatePath(path: Path)
    | WriteSetTooLarge(count: nat)
    | ProofTooLarge(length: nat)
    | MalformedProof
    | RedundantDefaultSibling(depth: nat)
    | InvalidProof
    | DomainMismatch

  function PathKey(keyHash: KeyHash, domain: Domain, key: seq<byte>): Result<Path, StateError> {
    if |key| > MAX_STATE_KEY_BYTES then Failure(KeyTooLarge(|key|)) else Success(keyHash(domain, key))
  }

  function HashOfValue(domain: Domain, value: seq<byte>): Result<Hash, StateError> {
    if |value| > MAX_STATE_VALUE_BYTES then Failure(ValueTooLarge(|value|)) else Success(ValueHash(domain, value))
  }

  /** The hash of the default (empty) subtree rooted at `depth`. */
  function EmptyAt(domain: Domain, depth: nat): Hash
    requires depth <= SMT_DEPTH
    decreases SMT_DEPTH - depth
  {
    if depth == SMT_DEPTH then EmptyHash(domain)
    else BranchHash(domain, depth, EmptyAt(domain, depth + 1), EmptyAt(domain, depth + 1))
  }

  /** The table of default hashes, filled from the leaf level upwards. */
  method EmptyHashes(domain: Domain) returns (hashes: array<Hash>)
    ensures fresh(hashes)
    ensures hashes.Length == SMT_DEPTH + 1
    ensures forall d: nat | d <= SMT_DEPTH :: hashes[d] == EmptyAt(domain, d)
  {
    hashes := new Hash[SMT_DEPTH + 1](_ => EmptyHash(domain));
    for depth := SMT_DEPTH downto 0
      invariant forall d: nat | depth <= d <= SMT_DEPTH :: hashes[d] == EmptyAt(domain, d)
    {
      hashes[depth] := BranchHash(domain, depth, hashes[depth + 1], hashes[depth + 1]);
    }
  }

  datatype StateNode =
    | Leaf(path: seq<bool>, valueHash: Hash)
    | Branch(depth: nat, left: Hash, right: Hash)

  /** The commitment of a node; an explicit branch over two default children is refused. */
  function NodeHash(node: StateNode, domain: Domain): Result<Hash, StateError> {
    match node
    case Leaf(path, valueHash) => Success(LeafHash(domain, path, valueHash))
    case Branch(depth, left, right) =>
      if depth >= SMT_DEPTH then Failure(DepthOutOfRange(depth))
      else if left == EmptyAt(domain, depth + 1) && right == EmptyAt(domain, depth + 1) then
        Failure(NonCanonicalEmptyBranch(depth))
      else Success(BranchHash(domain, depth, left, right))
  }

  /** A store of nodes and values, keyed by the hash they claim to have.  Nothing about its
      contents is trusted. */
  datatype Source = Source(nodes: map<Hash, StateNode>, values: map<Hash, seq<byte>>)

  function LoadCheckedNode(source: Source, domain: Domain, requested: Hash, depth: nat): Result<StateNode, StateError>
    requires depth <= SMT_DEPTH
  {
    if requested !in source.nodes then Failure(MissingNode(requested))
    else
      var node := source.nodes[requested];
      var hash :- NodeHash(node, domain);
      if hash != requested then Failure(NodeHashMismatch(requested))
      else if node.Branch? then
        if depth == SMT_DEPTH then Failure(UnexpectedBranch)
        else if node.depth != depth then Failure(NodeDepthMismatch(depth, node.depth))
        else Success(node)
      else if depth < SMT_DEPTH then Failure(UnexpectedLeaf)
      else Success(node)
  }

  function LoadCheckedValue(source: Source, domain: Domain, committed: Hash): Result<seq<byte>, StateError> {
    if committed !in source.values then Failure(MissingValue(committed))
    else
      var value := source.values[committed];
      var hash :- HashOfValue(domain, value);
      if hash != committed then Failure(ValueHashMismatch(committed)) else Success(value)
  }
}
