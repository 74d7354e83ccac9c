/** The byte form of a sparse Merkle proof: a version, the bitmap and the listed siblings. */
module ProofCodec {
  import opened Prelude
  import opened StateHash
  import opened StateTransition
  import opened StateProof

  const HEADER_BYTES := 2 + SMT_PROOF_BITMAP_BYTES
  const MAX_SMT_SIBLINGS := 256
  const MAX_SMT_PROOF_BYTES := HEADER_BYTES + MAX_SMT_SIBLINGS * 32

  type Hash32 = h: seq<bv8> | |h| == 32 witness ZERO_BITMAP

  /** The default hashes of a domain, by depth. */
  type Defaults = e: seq<Hash32> | |e| == SMT_DEPTH + 1 witness seq(SMT_DEPTH + 1, _ => ZERO_BITMAP)

  /** How many depths above `depth` are marked: the position of its sibling in the list. */
  function Rank(bitmap: Bitmap, depth: nat): (n: nat)
    requires depth <= SMT_DEPTH
    ensures n <= depth
  {
    if depth == 0 then 0
    else Rank(bitmap, depth - 1) + if BitmapBit(bitmap, depth - 1) then 1 else 0
  }

  lemma {:induction false} RankGrows(bitmap: Bitmap, d: nat, e: nat)
    requires d <= e <= SMT_DEPTH
    ensures Rank(bitmap, d) <= Rank(bitmap, e)
    ensures d < e && BitmapBit(bitmap, d) ==> Rank(bitmap, d) < Rank(bitmap, e)
    decreases e
  {
    hide BitmapBit;
    if d < e {
      RankGrows(bitmap, d, e - 1);
    }
  }

  /** The marked depth whose sibling is the default hash, which a canonical proof would not list. */
  predicate ListsDefault(empties: Defaults, proof: Proof<Hash32>, depth: nat)
    requires depth < SMT_DEPTH
  {
    && BitmapBit(proof.bitmap, depth)
    && Rank(proof.bitmap, depth) < |proof.siblings|
    && proof.siblings[Rank(proof.bitmap, depth)] == empties[depth + 1]
  }

  /** One listed sibling per marked depth, none of them the default. */
  ghost predicate Canonical(empties: Defaults, proof: Proof<Hash32>) {
    && |proof.siblings| == Rank(proof.bitmap, SMT_DEPTH)
    && forall d: nat | d < SMT_DEPTH :: !ListsDefault(empties, proof, d)
  }

  // ----- Bytes -----

  function Flatten(hashes: seq<Hash32>): (bytes: seq<bv8>)
    ensures |bytes| == 32 * |hashes|
  {
    if hashes == [] then [] else Flatten(hashes[..|hashes| - 1]) + hashes[|hashes| - 1]
  }

  function Chunks(bytes: seq<bv8>): (hashes: seq<Hash32>)
    requires |bytes| % 32 == 0
    ensures |hashes| == |bytes| / 32
    decreases |bytes|
  {
    if bytes == [] then [] else Chunks(bytes[..|bytes| - 32]) + [bytes[|bytes| - 32..]]
  }

  lemma {:induction false} ChunksFlatten(hashes: seq<Hash32>)
    ensures Chunks(Flatten(hashes)) == hashes
  {
    if hashes != [] {
      var bytes := Flatten(hashes);
      ChunksFlatten(hashes[..|hashes| - 1]);
      assert bytes[..|bytes| - 32] == Flatten(hashes[..|hashes| - 1]);
      assert bytes[|bytes| - 32..] == hashes[|hashes| - 1];
    }
  }

  lemma {:induction false} FlattenChunks(bytes: seq<bv8>)
    requires |bytes| % 32 == 0
    ensures Flatten(Chunks(bytes)) == bytes
    decreases |bytes|
  {
    if bytes != [] {
      var front := bytes[..|bytes| - 32];
      FlattenChunks(front);
      assert Chunks(bytes)[..|Chunks(bytes)| - 1] == Chunks(front);
      assert bytes == front + bytes[|bytes| - 32..];
    }
  }

  lemma {:induction false} ChunkAt(bytes: seq<bv8>, k: nat)
    requires |bytes| % 32 == 0 && 32 * k + 32 <= |bytes|
    ensures Chunks(bytes)[k] == bytes[32 * k..32 * k + 32]
    decreases |bytes|
  {
    if 32 * k + 32 < |bytes| {
      ChunkAt(bytes[..|bytes| - 32], k);
      assert bytes[..|bytes| - 32][32 * k..32 * k + 32] == bytes[32 * k..32 * k + 32];
    }
  }

  function EncodeProof(proof: Proof<Hash32>): seq<bv8> {
    [1, 0] + proof.bitmap + Flatten(proof.siblings)
  }

  /** The set bits among the first `i` of a byte. */
  function OnesBelow(b: bv8, i: nat): nat
    requires i <= 8
  {
    if i == 0 then 0 else OnesBelow(b, i - 1) + if BitOf(b, i - 1) then 1 else 0
  }

  function CountOnes(b: bv8): nat {
    OnesBelow(b, 8)
  }

  function CountAllOnes(bytes: seq<bv8>): nat {
    if bytes == [] then 0 else CountAllOnes(bytes[..|bytes| - 1]) + CountOnes(bytes[|bytes| - 1])
  }

  lemma {:induction false} RankByte(bitmap: Bitmap, k: nat, i: nat)
    requires k < SMT_PROOF_BITMAP_BYTES && i <= 8
    ensures Rank(bitmap, 8 * k + i) == Rank(bitmap, 8 * k) + OnesBelow(bitmap[k], i)
  {
    hide BitOf;
    if i > 0 {
      RankByte(bitmap, k, i - 1);
      assert (8 * k + (i - 1)) / 8 == k && (8 * k + (i - 1)) % 8 == i - 1;
    }
  }

  lemma {:induction false} CountAllOnesIsRank(bitmap: Bitmap, k: nat)
    requires k <= SMT_PROOF_BITMAP_BYTES
    ensures CountAllOnes(bitmap[..k]) == Rank(bitmap, 8 * k)
  {
    hide BitOf;
    if k > 0 {
      CountAllOnesIsRank(bitmap, k - 1);
      assert bitmap[..k][..k - 1] == bitmap[..k - 1];
      RankByte(bitmap, k - 1, 8);
    }
  }

  /** The first depth above `depth` that lists a default sibling. */
  function FirstDefault(empties: Defaults, proof: Proof<Hash32>, depth: nat): Option<nat>
    requires depth <= SMT_DEPTH
  {
    if depth == 0 then None
    else
      var earlier := FirstDefault(empties, proof, depth - 1);
      if earlier.Some? then earlier
      else if ListsDefault(empties, proof, depth - 1) then Some(depth - 1)
      else None
  }

  lemma {:induction false} FirstDefaultNone(empties: Defaults, proof: Proof<Hash32>, depth: nat)
    requires depth <= SMT_DEPTH
    ensures FirstDefault(empties, proof, depth).None?
       <==> forall d: nat | d < depth :: !ListsDefault(empties, proof, d)
  {
    hide ListsDefault;
    if depth > 0 {
      FirstDefaultNone(empties, proof, depth - 1);
    }
  }

  function DecodeProof(empties: Defaults, bytes: seq<bv8>): Result<Proof<Hash32>, StateError> {
    if |bytes| > MAX_SMT_PROOF_BYTES then Failure(ProofTooLarge(|bytes|))
    else if |bytes| < HEADER_BYTES || (|bytes| - HEADER_BYTES) % 32 != 0 then Failure(MalformedProof)
    else if bytes[..2] != [1, 0] then Failure(MalformedProof)
    else
      var bitmap := bytes[2..HEADER_BYTES];
      var siblings := Chunks(bytes[HEADER_BYTES..]);
      if |siblings| != CountAllOnes(bitmap) then Failure(MalformedProof)
      else
        var proof := Proof(bitmap, siblings);
        var bad := FirstDefault(empties, proof, SMT_DEPTH);
        if bad.Some? then Failure(RedundantDefaultSibling(bad.value)) else Success(proof)
  }

  /** The largest proof has 8226 bytes. */
  lemma LongestProof(empties: Defaults, bytes: seq<bv8>)
    ensures |bytes| > 8_226 ==> DecodeProof(empties, bytes) == Failure(ProofTooLarge(|bytes|))
    ensures DecodeProof(empties, bytes).Success? ==> |bytes| <= 8_226
  {
  }

  lemma BitmapCount(bitmap: Bitmap)
    ensures CountAllOnes(bitmap) == Rank(bitmap, SMT_DEPTH) <= SMT_DEPTH
  {
    hide Rank, CountAllOnes;
    CountAllOnesIsRank(bitmap, SMT_PROOF_BITMAP_BYTES);
    assert bitmap[..SMT_PROOF_BITMAP_BYTES] == bitmap;
  }

  lemma EncodedParts(proof: Proof<Hash32>)
    ensures var bytes := EncodeProof(proof);
            && |bytes| == HEADER_BYTES + 32 * |proof.siblings|
            && bytes[..2] == [1, 0]
            && bytes[2..HEADER_BYTES] == proof.bitmap
            && bytes[HEADER_BYTES..] == Flatten(proof.siblings)
  {
    hide Flatten;
  }

  /** Decoding accepts exactly the encodings of canonical proofs, each as itself. */
  lemma DecodeInvertsEncode(empties: Defaults, bytes: seq<bv8>, proof: Proof<Hash32>)
    ensures DecodeProof(empties, bytes) == Success(proof) <==> Canonical(empties, proof) && bytes == EncodeProof(proof)
  {
    hide Rank, FirstDefault, ListsDefault, CountAllOnes, Chunks, Flatten, BitmapBit;
    FirstDefaultNone(empties, proof, SMT_DEPTH);
    if Canonical(empties, proof) && bytes == EncodeProof(proof) {
      EncodedParts(proof);
      BitmapCount(proof.bitmap);
      ChunksFlatten(proof.siblings);
    }
    if DecodeProof(empties, bytes) == Success(proof) {
      BitmapCount(proof.bitmap);
      FlattenChunks(bytes[HEADER_BYTES..]);
      assert bytes == bytes[..2] + bytes[2..HEADER_BYTES] + bytes[HEADER_BYTES..];
    }
  }

  // ----- The codec in imperative form -----

  method Encode(proof: Proof<Hash32>) returns (bytes: seq<bv8>)
    ensures bytes == EncodeProof(proof)
  {
    bytes := [1, 0] + proof.bitmap;
    assert bytes == bytes + Flatten(proof.siblings[..0]);
    for i := 0 to |proof.siblings|
      invariant bytes == [1, 0] + proof.bitmap + Flatten(proof.siblings[..i])
    {
      assert proof.siblings[..i + 1][..i] == proof.siblings[..i];
      bytes := bytes + proof.siblings[i];
    }
    assert proof.siblings[..|proof.siblings|] == proof.siblings;
  }

  lemma {:induction false} FirstStays(empties: Defaults, proof: Proof<Hash32>, d: nat, depth: nat)
    requires d < depth <= SMT_DEPTH
    requires FirstDefault(empties, proof, d) == None && ListsDefault(empties, proof, d)
    ensures FirstDefault(empties, proof, depth) == Some(d)
  {
    hide ListsDefault;
    if d + 1 < depth {
      FirstStays(empties, proof, d, depth - 1);
    }
  }

  /** The sibling loop.  It consumes the input exactly, so no trailing bytes can be left. */
  method DecodeSiblings(empties: Defaults, bitmap: Bitmap, bytes: seq<bv8>)
    returns (r: Result<Proof<Hash32>, StateError>)
    requires HEADER_BYTES <= |bytes| && (|bytes| - HEADER_BYTES) % 32 == 0
    requires |Chunks(bytes[HEADER_BYTES..])| == CountAllOnes(bitmap)
    ensures var proof := Proof(bitmap, Chunks(bytes[HEADER_BYTES..]));
            var bad := FirstDefault(empties, proof, SMT_DEPTH);
            r == if bad.Some? then Failure(RedundantDefaultSibling(bad.value)) else Success(proof)
  {
    hide Chunks, BitmapBit, CountAllOnes;
    ghost var proof := Proof(bitmap, Chunks(bytes[HEADER_BYTES..]));
    BitmapCount(bitmap);
    var siblings: seq<Hash32> := [];
    var offset := HEADER_BYTES;
    for depth := 0 to SMT_DEPTH
      invariant |siblings| == Rank(bitmap, depth) <= |proof.siblings|
      invariant siblings == proof.siblings[..|siblings|]
      invariant offset == HEADER_BYTES + 32 * |siblings|
      invariant FirstDefault(empties, proof, depth) == None
    {
      RankGrows(bitmap, depth, SMT_DEPTH);
      if BitmapBit(bitmap, depth) {
        ChunkAt(bytes[HEADER_BYTES..], |siblings|);
        assert bytes[HEADER_BYTES..][32 * |siblings|..32 * |siblings| + 32] == bytes[offset..offset + 32];
        var sibling := bytes[offset..offset + 32];
        offset := offset + 32;
        if sibling == empties[depth + 1] {
          FirstStays(empties, proof, depth, SMT_DEPTH);
          return Failure(RedundantDefaultSibling(depth));
        }
        siblings := siblings + [sibling];
      }
      RankGrows(bitmap, depth + 1, SMT_DEPTH);
    }
    assert offset == |bytes| && siblings == proof.siblings;
    return Success(Proof(bitmap, siblings));
  }

  method Decode(empties: Defaults, bytes: seq<bv8>) returns (r: Result<Proof<Hash32>, StateError>)
    ensures r == DecodeProof(empties, bytes)
  {
    hide Chunks, BitmapBit, CountAllOnes;
    if |bytes| > MAX_SMT_PROOF_BYTES {
      return Failure(ProofTooLarge(|bytes|));
    }
    if |bytes| < HEADER_BYTES || (|bytes| - HEADER_BYTES) % 32 != 0 {
      return Failure(MalformedProof);
    }
    if bytes[..2] != [1, 0] {
      return Failure(MalformedProof);
    }
    var bitmap := bytes[2..HEADER_BYTES];
    if (|bytes| - HEADER_BYTES) / 32 != CountAllOnes(bitmap) {
      return Failure(MalformedProof);
    }
    r := DecodeSiblings(empties, bitmap, bytes);
  }

  // ----- Proofs on their way -----

  ghost function Digests(digest: Hash -> Hash32, hashes: seq<Hash>): (bytes: seq<Hash32>)
    ensures |bytes| == |hashes| && forall i | 0 <= i < |hashes| :: bytes[i] == digest(hashes[i])
  {
    seq(|hashes|, i requires 0 <= i < |hashes| => digest(hashes[i]))
  }

  /** A proof as bytes, for a hash function. */
  ghost function AsBytes(digest: Hash -> Hash32, proof: Proof<Hash>): Proof<Hash32> {
    Proof<Hash32>.Proof(proof.bitmap, Digests(digest, proof.siblings))
  }

  ghost function EmptyList(domain: Domain): (hashes: seq<Hash>)
    ensures |hashes| == SMT_DEPTH + 1 && forall d | 0 <= d <= SMT_DEPTH :: hashes[d] == EmptyAt(domain, d)
  {
    seq(SMT_DEPTH + 1, d requires 0 <= d <= SMT_DEPTH => EmptyAt(domain, d))
  }

  ghost function DefaultBytes(digest: Hash -> Hash32, domain: Domain): Defaults {
    Digests(digest, EmptyList(domain))
  }

  /** No sibling of the proof collides with a default hash. */
  ghost predicate NoCollision(digest: Hash -> Hash32, domain: Domain, proof: Proof<Hash>) {
    forall i, d: nat | 0 <= i < |proof.siblings| && d <= SMT_DEPTH ::
      digest(proof.siblings[i]) == digest(EmptyAt(domain, d)) ==> proof.siblings[i] == EmptyAt(domain, d)
  }

  /** A fold that succeeds used one sibling per marked depth, and none of them was a default. */
  lemma {:induction false} FoldIsCanonical(domain: Domain, prefix: seq<bool>, proof: Proof<Hash>, current: Hash,
                                           index: nat)
    requires |prefix| <= SMT_DEPTH && index <= |proof.siblings|
             && FoldUp(domain, prefix, proof, current, index).Success?
    ensures index == Rank(proof.bitmap, |prefix|)
    ensures forall d: nat | d < |prefix| && BitmapBit(proof.bitmap, d) ::
              Rank(proof.bitmap, d) < |proof.siblings|
                  && proof.siblings[Rank(proof.bitmap, d)] != EmptyAt(domain, d + 1)
    decreases |prefix|
  {
    hide BitmapBit, EmptyAt, StepUp;
    if prefix != [] {
      var depth := |prefix| - 1;
      var taken := TakeSibling(domain, proof, depth, index).value;
      FoldIsCanonical(domain, prefix[..depth], proof, StepUp(domain, depth, prefix[depth], current, taken.0), taken.1);
    }
  }

  /** Whatever the verifier accepts has a canonical byte form: it decodes from its encoding. */
  lemma AcceptedProofTravels(keyHash: KeyHash, domain: Domain, key: seq<byte>, value: Option<seq<byte>>,
                             proof: Proof<Hash>, root: Hash, digest: Hash -> Hash32)
    requires Verify(keyHash, domain, key, value, proof, root).Success? && NoCollision(digest, domain, proof)
    ensures var sent := AsBytes(digest, proof);
            Canonical(DefaultBytes(digest, domain), sent)
            && DecodeProof(DefaultBytes(digest, domain), EncodeProof(sent)) == Success(sent)
  {
    hide FoldUp, LeafCommitment, Rank, BitmapBit, EmptyAt, DecodeProof, EncodeProof, EmptyList, Digests;
    var path := PathKey(keyHash, domain, key).value;
    FoldIsCanonical(domain, path, proof, LeafCommitment(domain, path, value).value, |proof.siblings|);
    var empties, sent := DefaultBytes(digest, domain), AsBytes(digest, proof);
    forall d: nat | d < SMT_DEPTH
      ensures !ListsDefault(empties, sent, d)
    {
      assert empties[d + 1] == digest(EmptyAt(domain, d + 1));
    }
    DecodeInvertsEncode(empties, EncodeProof(sent), sent);
  }

  /** From prover to verifier: a produced proof decodes from its encoding as it was sent, and the
      verifier accepts it for the value that was read. */
  lemma ProducedProofTravels(keyHash: KeyHash, source: Source, snapshot: DomainSnapshot, key: seq<byte>,
                             digest: Hash -> Hash32)
    requires Prove(keyHash, source, snapshot, key).Success?
    requires NoCollision(digest, snapshot.domain, Prove(keyHash, source, snapshot, key).value.1)
    ensures var (value, proof) := Prove(keyHash, source, snapshot, key).value;
            && ReadValue(keyHash, source, snapshot, key) == Success(value)
            && DecodeProof(DefaultBytes(digest, snapshot.domain), EncodeProof(AsBytes(digest, proof)))
              == Success(AsBytes(digest, proof))
            && Verify(keyHash, snapshot.domain, key, value, proof, snapshot.root) == Success(())
  {
    hide Prove, ReadValue, Verify, NoCollision, DecodeProof, EncodeProof;
    ProveComplete(keyHash, source, snapshot, key);
    var (value, proof) := Prove(keyHash, source, snapshot, key).value;
    AcceptedProofTravels(keyHash, snapshot.domain, key, value, proof, snapshot.root, digest);
  }
}
