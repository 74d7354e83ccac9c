/** Exactly what a read and an update need of a source that may lie or lack parts. */
module StateNeeds {
  import opened Prelude
  import opened StateHash
  import opened StateTree
  import opened WriteSets
  import opened StateTransition
  import opened StateRefinement
  import opened StateProof

  // ----- Nodes and values -----

  /** A position that is occupied is loaded if and only if the source holds its node. */
  lemma NodeLoads(source: Source, domain: Domain, m: StateMap, q: seq<bool>)
    requires |q| <= SMT_DEPTH && Occupied(m, q)
    ensures LoadCheckedNode(source, domain, NodeAt(domain, m, q), |q|).Success? <==> HoldsNode(source, domain, m, q)
    ensures HoldsNode(source, domain, m, q) ==>
              LoadCheckedNode(source, domain, NodeAt(domain, m, q), |q|).value == CanonicalNode(domain, m, q)
  {
    hide NodeAt, CanonicalNode, NodeHash, Occupied;
    LoadedNodeIsCanonical(source, domain, m, q);
  }

  lemma ValueLoads(source: Source, domain: Domain, m: StateMap, p: Path)
    requires p in m
    ensures LoadCheckedValue(source, domain, ValueHash(domain, m[p])).Success? <==> HoldsValue(source, domain, m, p)
  {
  }

  /** The source holds the nodes on the path from depth `from` on, as far as the path is occupied. */
  ghost predicate HoldsPath(source: Source, domain: Domain, m: StateMap, path: Path, from: nat) {
    forall d: nat | from <= d <= SMT_DEPTH :: HoldsNode(source, domain, m, path[..d])
  }

  lemma HoldsPathStep(source: Source, domain: Domain, m: StateMap, path: Path, from: nat)
    requires from < SMT_DEPTH
    ensures HoldsPath(source, domain, m, path, from) <==>
              HoldsNode(source, domain, m, path[..from]) && HoldsPath(source, domain, m, path, from + 1)
  {
    hide HoldsNode;
  }

  lemma HoldsPathEnd(source: Source, domain: Domain, m: StateMap, path: Path)
    ensures HoldsPath(source, domain, m, path, SMT_DEPTH) <==> HoldsNode(source, domain, m, path)
  {
    hide HoldsNode;
    assert path[..SMT_DEPTH] == path;
  }

  /** Below an unoccupied position nothing is needed. */
  lemma NothingNeeded(source: Source, domain: Domain, m: StateMap, path: Path, from: nat)
    requires from <= SMT_DEPTH && !Occupied(m, path[..from])
    ensures HoldsPath(source, domain, m, path, from) && path !in m
  {
    hide NodeAt, CanonicalNode;
    assert path[..from] <= path;
    assert forall d: nat | from <= d <= SMT_DEPTH :: path[..from] <= path[..d];
  }

  // ----- Reads -----

  lemma LeafReads(source: Source, domain: Domain, m: StateMap, path: Path)
    ensures LeafValue(source, domain, path, NodeAt(domain, m, path)).Success? <==>
              HoldsNode(source, domain, m, path) && HoldsValue(source, domain, m, path)
  {
    hide EmptyAt, LoadCheckedNode, LoadCheckedValue;
    EmptyIffUnoccupied(domain, m, path);
    if path in m {
      NodeLoads(source, domain, m, path);
      ValueLoads(source, domain, m, path);
    }
  }

  lemma AbsentIsHeld(source: Source, domain: Domain, m: StateMap, p: Path)
    requires p !in m
    ensures HoldsValue(source, domain, m, p)
  {
  }

  lemma {:induction false} ReadFromNeeds(source: Source, domain: Domain, m: StateMap, path: Path, rest: seq<bool>)
    requires |rest| <= SMT_DEPTH && path[SMT_DEPTH - |rest|..] == rest
    ensures ReadFrom(source, domain, path, rest, NodeAt(domain, m, path[..SMT_DEPTH - |rest|])).Success? <==>
              HoldsPath(source, domain, m, path, SMT_DEPTH - |rest|) && HoldsValue(source, domain, m, path)
    decreases |rest|
  {
    hide NodeAt, EmptyAt, Occupied, LoadCheckedNode, LeafValue, HoldsPath, HoldsNode, HoldsValue;
    var depth := SMT_DEPTH - |rest|;
    var prefix := path[..depth];
    if rest == [] {
      assert prefix == path;
      LeafReads(source, domain, m, path);
      HoldsPathEnd(source, domain, m, path);
    } else {
      EmptyIffUnoccupied(domain, m, prefix);
      HoldsPathStep(source, domain, m, path, depth);
      if Occupied(m, prefix) {
        NodeLoads(source, domain, m, prefix);
        assert prefix + [rest[0]] == path[..SMT_DEPTH - |rest[1..]|];
        ReadFromNeeds(source, domain, m, path, rest[1..]);
      } else {
        NothingNeeded(source, domain, m, path, depth);
        AbsentIsHeld(source, domain, m, path);
      }
    }
  }

  /** A read succeeds if and only if the key fits, the source holds the nodes on its path as far as the
      path is occupied, and its value if there is one. */
  lemma ReadNeeds(keyHash: KeyHash, source: Source, domain: Domain, m: StateMap, key: seq<byte>)
    ensures var path := keyHash(domain, key);
            ReadValue(keyHash, source, DomainSnapshot(domain, Root(domain, m)), key).Success? <==>
              && |key| <= MAX_STATE_KEY_BYTES
              && HoldsPath(source, domain, m, path, 0) && HoldsValue(source, domain, m, path)
  {
    hide NodeAt, ReadFrom, HoldsPath, HoldsValue;
    if |key| <= MAX_STATE_KEY_BYTES {
      var path := keyHash(domain, key);
      assert path[0..] == path && path[..0] == [];
      ReadFromNeeds(source, domain, m, path, path);
    }
  }

  // ----- Updates -----

  ghost predicate WriteNeeds(source: Source, domain: Domain, m: StateMap, w: PreparedWrite, from: nat) {
    HoldsPath(source, domain, m, w.path, from) && HoldsValue(source, domain, m, w.path) && NoClash(source, m, w)
  }

  ghost predicate AllNeeds(source: Source, domain: Domain, m: StateMap, writes: seq<PreparedWrite>, from: nat) {
    forall i | 0 <= i < |writes| :: WriteNeeds(source, domain, m, writes[i], from)
  }

  lemma OldValueNeeds(source: Source, domain: Domain, m: StateMap, path: Path)
    ensures var r := OldValueHash(source, domain, NodeAt(domain, m, path), path);
            && (r.Success? <==> HoldsNode(source, domain, m, path) && HoldsValue(source, domain, m, path))
            && (r.Success? ==> r.value == if path in m then Some(ValueHash(domain, m[path])) else None)
  {
    hide EmptyAt, LoadCheckedNode, LoadCheckedValue;
    EmptyIffUnoccupied(domain, m, path);
    if path in m {
      NodeLoads(source, domain, m, path);
      ValueLoads(source, domain, m, path);
    }
  }

  lemma RecordNeeds(source: Source, domain: Domain, hash: Hash, bytes: Value, acc: Source)
    requires hash == ValueHash(domain, bytes)
    ensures RecordValue(source, domain, hash, bytes, acc).Success? <==>
              (hash in source.values ==> source.values[hash] == bytes)
  {
  }

  lemma LeafNeeds(source: Source, domain: Domain, m: StateMap, w: PreparedWrite, acc: Source)
    requires WellFormed(domain, w)
    ensures ApplyLeaf(source, domain, NodeAt(domain, m, w.path), w, acc).Success? <==>
              WriteNeeds(source, domain, m, w, SMT_DEPTH)
  {
    hide NodeAt, OldValueHash, RecordValue, HoldsPath, HoldsNode, HoldsValue;
    OldValueNeeds(source, domain, m, w.path);
    HoldsPathEnd(source, domain, m, w.path);
    if w.value.Put? {
      RecordNeeds(source, domain, w.value.hash, w.value.bytes, acc);
    }
  }

  lemma ChildrenNeed(source: Source, domain: Domain, m: StateMap, prefix: seq<bool>)
    requires |prefix| < SMT_DEPTH
    ensures ChildrenOf(source, domain, NodeAt(domain, m, prefix), |prefix|).Success? <==>
              HoldsNode(source, domain, m, prefix)
  {
    hide NodeAt, EmptyAt, LoadCheckedNode, Occupied;
    EmptyIffUnoccupied(domain, m, prefix);
    if Occupied(m, prefix) {
      NodeLoads(source, domain, m, prefix);
    }
  }

  lemma NeedsStep(source: Source, domain: Domain, m: StateMap, w: PreparedWrite, prefix: seq<bool>)
    requires |prefix| < SMT_DEPTH && prefix <= w.path
    ensures WriteNeeds(source, domain, m, w, |prefix|) <==>
              HoldsNode(source, domain, m, prefix) && WriteNeeds(source, domain, m, w, |prefix| + 1)
  {
    hide HoldsPath, HoldsNode, HoldsValue, NoClash;
    assert w.path[..|prefix|] == prefix;
    HoldsPathStep(source, domain, m, w.path, |prefix|);
  }

  lemma AllStep(source: Source, domain: Domain, m: StateMap, writes: seq<PreparedWrite>, prefix: seq<bool>)
    requires |prefix| < SMT_DEPTH && writes != [] && Under(writes, prefix)
    ensures AllNeeds(source, domain, m, writes, |prefix|) <==>
              HoldsNode(source, domain, m, prefix) && AllNeeds(source, domain, m, writes, |prefix| + 1)
  {
    hide WriteNeeds, HoldsNode;
    forall i | 0 <= i < |writes|
      ensures WriteNeeds(source, domain, m, writes[i], |prefix|) <==>
                HoldsNode(source, domain, m, prefix) && WriteNeeds(source, domain, m, writes[i], |prefix| + 1)
    {
      NeedsStep(source, domain, m, writes[i], prefix);
    }
    assert WriteNeeds(source, domain, m, writes[0], |prefix|) ==> HoldsNode(source, domain, m, prefix);
  }

  lemma AllSplit(source: Source, domain: Domain, m: StateMap, writes: seq<PreparedWrite>, k: nat, from: nat)
    requires k <= |writes|
    ensures AllNeeds(source, domain, m, writes, from) <==>
              AllNeeds(source, domain, m, writes[..k], from) && AllNeeds(source, domain, m, writes[k..], from)
  {
    hide WriteNeeds;
    assert forall i | 0 <= i < k :: writes[..k][i] == writes[i];
    assert forall i | k <= i < |writes| :: writes[k..][i - k] == writes[i];
  }

  lemma SidesNeed(source: Source, domain: Domain, m: StateMap, writes: seq<PreparedWrite>, prefix: seq<bool>)
    requires |prefix| < SMT_DEPTH && writes != [] && Under(writes, prefix)
    ensures AllNeeds(source, domain, m, writes, |prefix|) <==>
              && HoldsNode(source, domain, m, prefix)
              && AllNeeds(source, domain, m, Side(writes, |prefix|, false), |prefix| + 1)
              && AllNeeds(source, domain, m, Side(writes, |prefix|, true), |prefix| + 1)
  {
    hide AllNeeds, HoldsNode, PartitionPoint, Under;
    AllStep(source, domain, m, writes, prefix);
    AllSplit(source, domain, m, writes, PartitionPoint(writes, |prefix|), |prefix| + 1);
  }

  lemma GoodIsUnder(domain: Domain, writes: seq<PreparedWrite>, prefix: seq<bool>)
    requires GoodWrites(domain, writes, prefix)
    ensures Under(writes, prefix)
  {
  }

  lemma NoNeeds(source: Source, domain: Domain, m: StateMap, from: nat)
    ensures AllNeeds(source, domain, m, [], from)
  {
  }

  lemma LeafUpdates(source: Source, domain: Domain, m: StateMap, m': StateMap, path: seq<bool>,
                    writes: seq<PreparedWrite>, acc: Source)
    requires |path| == SMT_DEPTH && writes != []
    requires GoodWrites(domain, writes, path) && Rewrites(m, m', writes, path)
    ensures ApplySubtree(source, domain, NodeAt(domain, m, path), |path|, writes, acc).Success? <==>
              AllNeeds(source, domain, m, writes, |path|)
  {
    hide WriteNeeds, ApplyLeaf, NodeAt, GoodWrites, Rewrites;
    OneWrite(domain, m, m', path, writes);
    LeafNeeds(source, domain, m, writes[0], acc);
  }

  lemma ChildrenFail(source: Source, domain: Domain, oldHash: Hash, depth: nat, writes: seq<PreparedWrite>, acc: Source)
    requires depth < SMT_DEPTH && writes != [] && ChildrenOf(source, domain, oldHash, depth).Failure?
    ensures ApplySubtree(source, domain, oldHash, depth, writes, acc).Failure?
  {
    hide ChildrenOf, Rejoin, PartitionPoint;
  }

  /** One level: the node here, and both sides. */
  lemma SidesDecide(source: Source, domain: Domain, m: StateMap, m': StateMap, prefix: seq<bool>,
                    writes: seq<PreparedWrite>, acc: Source)
    requires |prefix| < SMT_DEPTH && writes != []
    requires GoodWrites(domain, writes, prefix) && Rewrites(m, m', writes, prefix)
    ensures var left := ApplySubtree(source, domain, NodeAt(domain, m, prefix + [false]), |prefix| + 1,
                                     Side(writes, |prefix|, false), acc);
            ApplySubtree(source, domain, NodeAt(domain, m, prefix), |prefix|, writes, acc).Success? <==>
              && HoldsNode(source, domain, m, prefix) && left.Success?
              && ApplySubtree(source, domain, NodeAt(domain, m, prefix + [true]), |prefix| + 1,
                              Side(writes, |prefix|, true), left.value.1).Success?
  {
    hide ApplySubtree, NodeAt, GoodWrites, Rewrites, HoldsNode, ChildrenOf, Rejoin, PartitionPoint;
    ChildrenNeed(source, domain, m, prefix);
    ChildrenAreCanonical(source, domain, m, prefix);
    var children := ChildrenOf(source, domain, NodeAt(domain, m, prefix), |prefix|);
    var lw, rw := Side(writes, |prefix|, false), Side(writes, |prefix|, true);
    SideIsGood(domain, writes, prefix, false);
    SideIsGood(domain, writes, prefix, true);
    SideRewrites(domain, m, m', writes, prefix, false);
    SideRewrites(domain, m, m', writes, prefix, true);
    if children.Success? {
      SubtreeUnfolds(source, domain, NodeAt(domain, m, prefix), |prefix|, children.value, writes, acc);
      ApplySubtreeSound(source, domain, m, m', prefix + [false], lw, acc);
      var left := ApplySubtree(source, domain, NodeAt(domain, m, prefix + [false]), |prefix| + 1, lw, acc);
      if left.Success? {
        ApplySubtreeSound(source, domain, m, m', prefix + [true], rw, left.value.1);
        var right := ApplySubtree(source, domain, NodeAt(domain, m, prefix + [true]), |prefix| + 1, rw, left.value.1);
        if right.Success? {
          RejoinSound(domain, m, m', prefix, right.value.1);
        }
      }
    } else {
      ChildrenFail(source, domain, NodeAt(domain, m, prefix), |prefix|, writes, acc);
    }
  }

  lemma {:induction false} SubtreeNeeds(source: Source, domain: Domain, m: StateMap, m': StateMap, prefix: seq<bool>,
                                        writes: seq<PreparedWrite>, acc: Source)
    requires |prefix| <= SMT_DEPTH
    requires GoodWrites(domain, writes, prefix) && Rewrites(m, m', writes, prefix)
    ensures ApplySubtree(source, domain, NodeAt(domain, m, prefix), |prefix|, writes, acc).Success? <==>
              AllNeeds(source, domain, m, writes, |prefix|)
    decreases SMT_DEPTH - |prefix|
  {
    hide ApplySubtree, NodeAt, GoodWrites, Rewrites, AllNeeds, HoldsNode, Side;
    if writes == [] {
      NothingApplied(source, domain, m, m', prefix, acc);
      NoNeeds(source, domain, m, |prefix|);
    } else if |prefix| == SMT_DEPTH {
      LeafUpdates(source, domain, m, m', prefix, writes, acc);
    } else {
      var lw, rw := Side(writes, |prefix|, false), Side(writes, |prefix|, true);
      SideIsGood(domain, writes, prefix, false);
      SideIsGood(domain, writes, prefix, true);
      SideRewrites(domain, m, m', writes, prefix, false);
      SideRewrites(domain, m, m', writes, prefix, true);
      GoodIsUnder(domain, writes, prefix);
      SidesNeed(source, domain, m, writes, prefix);
      SidesDecide(source, domain, m, m', prefix, writes, acc);
      SubtreeNeeds(source, domain, m, m', prefix + [false], lw, acc);
      var left := ApplySubtree(source, domain, NodeAt(domain, m, prefix + [false]), |prefix| + 1, lw, acc);
      if left.Success? {
        SubtreeNeeds(source, domain, m, m', prefix + [true], rw, left.value.1);
      }
    }
  }

  /** An update succeeds if and only if it is for this domain and the source holds, for every write, the
      nodes on its path as far as the path is occupied and its old value if there is one, and has no
      other bytes under the hash of a value to be stored. */
  lemma UpdateNeeds(source: Source, snapshot: DomainSnapshot, m: StateMap, ws: WriteSet)
    requires ValidWriteSet(ws) && Sized(ws.writes) && snapshot.root == Root(snapshot.domain, m)
    ensures ApplyWriteSet(source, snapshot, ws).Success? <==>
              snapshot.domain == ws.domain && AllNeeds(source, ws.domain, m, ws.writes, 0)
    ensures snapshot.domain != ws.domain ==> ApplyWriteSet(source, snapshot, ws) == Failure(DomainMismatch)
  {
    hide ApplySubtree, NodeAt, GoodWrites, Rewrites, AllNeeds;
    ValidSetIsGood(ws);
    UpdatedRewrites(m, ws.writes);
    SubtreeNeeds(source, ws.domain, m, Updated(m, ws.writes), [], ws.writes, Source(map[], map[]));
  }
}
