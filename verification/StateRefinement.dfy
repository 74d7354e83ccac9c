/** The batch update refines map update.

    On a store that holds the tree of `m`, an accepted write set takes the root to the
    reference root of the updated map, and the store overlaid with what was emitted holds
    the updated tree.  The root therefore depends only on the final map. */
module StateRefinement {
  import opened Prelude
  import opened StateHash
  import opened StateTree
  import opened WriteSets
  import opened StateTransition

  // ----- Overlays -----

  /** Everything emitted is stored under its own hash. */
  ghost predicate Consistent(domain: Domain, emitted: Source) {
    && (forall h | h in emitted.nodes :: NodeHash(emitted.nodes[h], domain) == Success(h))
    && (forall h | h in emitted.values :: HashOfValue(domain, emitted.values[h]) == Success(h))
  }

  ghost predicate Extends(a: Source, b: Source) {
    && (forall h | h in a.nodes :: Get(b.nodes, h) == Some(a.nodes[h]))
    && (forall h | h in a.values :: Get(b.values, h) == Some(a.values[h]))
  }

  lemma ExtendsTransitive(a: Source, b: Source, c: Source)
    requires Extends(a, b) && Extends(b, c)
    ensures Extends(a, c)
  {
    forall h | h in a.nodes
      ensures Get(c.nodes, h) == Some(a.nodes[h])
    {
      assert h in b.nodes;
    }
    forall h | h in a.values
      ensures Get(c.values, h) == Some(a.values[h])
    {
      assert h in b.values;
    }
  }

  lemma NodeHashInjective(domain: Domain, a: StateNode, b: StateNode)
    requires NodeHash(a, domain).Success? && NodeHash(a, domain) == NodeHash(b, domain)
    ensures a == b
  {
    hide EmptyAt;
  }

  /** Overlaying consistent nodes and values never disturbs a tree the source already holds. */
  lemma OverlayKeepsNode(source: Source, emitted: Source, domain: Domain, m: StateMap, q: seq<bool>)
    requires Consistent(domain, emitted) && |q| <= SMT_DEPTH
    requires HoldsNode(source, domain, m, q)
    ensures HoldsNode(Overlaid(source, emitted), domain, m, q)
  {
    hide NodeAt, EmptyAt, Occupied, NodeHash, CanonicalNode;
    if Occupied(m, q) {
      CanonicalNodeHash(domain, m, q);
      var h := NodeAt(domain, m, q);
      if h in emitted.nodes {
        NodeHashInjective(domain, emitted.nodes[h], CanonicalNode(domain, m, q));
      }
    }
  }

  lemma OverlayKeepsTree(source: Source, emitted: Source, domain: Domain, m: StateMap, prefix: seq<bool>)
    requires Consistent(domain, emitted)
    requires Holds(source, domain, m, prefix)
    ensures Holds(Overlaid(source, emitted), domain, m, prefix)
  {
    hide NodeAt, EmptyAt, Occupied, NodeHash, HoldsNode;
    forall q: seq<bool> | prefix <= q && |q| <= SMT_DEPTH
      ensures HoldsNode(Overlaid(source, emitted), domain, m, q)
    {
      OverlayKeepsNode(source, emitted, domain, m, q);
    }
    forall p: Path | prefix <= p
      ensures HoldsValue(Overlaid(source, emitted), domain, m, p)
    {
      assert HoldsValue(source, domain, m, p);
    }
  }

  lemma HoldsBelow(source: Source, domain: Domain, m: StateMap, prefix: seq<bool>, bit: bool)
    requires |prefix| < SMT_DEPTH
    requires Holds(source, domain, m, prefix)
    ensures HoldsNode(source, domain, m, prefix)
    ensures Holds(source, domain, m, prefix + [bit])
  {
    hide HoldsNode, HoldsValue;
    assert forall q: seq<bool> | prefix + [bit] <= q && |q| <= SMT_DEPTH ::
                    prefix <= q && HoldsNode(source, domain, m, q);
    assert forall p: Path | prefix + [bit] <= p :: prefix <= p && HoldsValue(source, domain, m, p);
  }

  lemma HoldsFromChildren(source: Source, domain: Domain, m: StateMap, prefix: seq<bool>)
    requires |prefix| < SMT_DEPTH
    requires HoldsNode(source, domain, m, prefix)
    requires Holds(source, domain, m, prefix + [false])
    requires Holds(source, domain, m, prefix + [true])
    ensures Holds(source, domain, m, prefix)
  {
    hide HoldsNode, HoldsValue;
    forall q: seq<bool> | prefix <= q && |q| <= SMT_DEPTH
      ensures HoldsNode(source, domain, m, q)
    {
      if |q| == |prefix| {
        assert q == prefix;
      } else if q[|prefix|] {
        assert prefix + [true] <= q;
      } else {
        assert prefix + [false] <= q;
      }
    }
    forall p: Path | prefix <= p
      ensures HoldsValue(source, domain, m, p)
    {
      if p[|prefix|] {
        assert prefix + [true] <= p;
      } else {
        assert prefix + [false] <= p;
      }
    }
  }

  // ----- Completeness -----

  /** The only way an update over a store that holds the tree can fail: a value to be newly
      stored is already in the source under its hash, with different bytes. */
  ghost predicate NoClash(source: Source, m: StateMap, w: PreparedWrite) {
    (w.value.Put? && Get(m, w.path) != Some(w.value.bytes) && w.value.hash in source.values)
    ==> source.values[w.value.hash] == w.value.bytes
  }

  ghost predicate NoClashes(source: Source, m: StateMap, writes: seq<PreparedWrite>) {
    forall i | 0 <= i < |writes| :: NoClash(source, m, writes[i])
  }

  /** What one recursive call achieves over a store that holds the tree below `prefix`. */
  ghost predicate Achieves(source: Source, domain: Domain, m: StateMap, m': StateMap, prefix: seq<bool>,
                           writes: seq<PreparedWrite>, acc: Source, r: Result<(Hash, Source), StateError>)
    requires |prefix| <= SMT_DEPTH
  {
    && (r.Success? <==> NoClashes(source, m, writes))
    && (r.Success? ==>
          && r.value.0 == NodeAt(domain, m', prefix)
          && Consistent(domain, r.value.1)
          && Extends(acc, r.value.1)
          && Holds(Overlaid(source, r.value.1), domain, m', prefix))
  }

  lemma AgreesBelow(domain: Domain, m: StateMap, m': StateMap, prefix: seq<bool>, q: seq<bool>)
    requires prefix <= q && |q| <= SMT_DEPTH
    requires forall p: Path | prefix <= p :: Get(m', p) == Get(m, p)
    ensures NodeAt(domain, m', q) == NodeAt(domain, m, q)
    ensures Occupied(m', q) <==> Occupied(m, q)
  {
    forall p: Path | q <= p
      ensures Get(m', p) == Get(m, p)
    {
      assert prefix <= p;
    }
    AgreeingMaps(domain, m, m', q);
  }

  lemma AgreeingHolds(source: Source, domain: Domain, m: StateMap, m': StateMap, prefix: seq<bool>)
    requires |prefix| <= SMT_DEPTH
    requires forall p: Path | prefix <= p :: Get(m', p) == Get(m, p)
    requires Holds(source, domain, m, prefix)
    ensures Holds(source, domain, m', prefix)
  {
    forall q: seq<bool> | prefix <= q && |q| <= SMT_DEPTH
      ensures HoldsNode(source, domain, m', q)
    {
      AgreesBelow(domain, m, m', prefix, q);
      if |q| < SMT_DEPTH {
        AgreesBelow(domain, m, m', prefix, q + [false]);
        AgreesBelow(domain, m, m', prefix, q + [true]);
      }
      assert HoldsNode(source, domain, m, q);
    }
    forall p: Path | prefix <= p
      ensures HoldsValue(source, domain, m', p)
    {
      assert HoldsValue(source, domain, m, p) && Get(m', p) == Get(m, p);
    }
  }

  lemma EmptyWritesAchieve(source: Source, domain: Domain, m: StateMap, m': StateMap, prefix: seq<bool>, acc: Source)
    requires |prefix| <= SMT_DEPTH && Rewrites(m, m', [], prefix)
    requires Holds(source, domain, m, prefix) && Consistent(domain, acc)
    ensures Achieves(source, domain, m, m', prefix, [], acc,
                     ApplySubtree(source, domain, NodeAt(domain, m, prefix), |prefix|, [], acc))
  {
    NothingApplied(source, domain, m, m', prefix, acc);
    AgreeingHolds(source, domain, m, m', prefix);
    OverlayKeepsTree(source, acc, domain, m', prefix);
  }

  lemma ClashesSplit(source: Source, m: StateMap, writes: seq<PreparedWrite>, depth: nat)
    requires depth < SMT_DEPTH
    ensures NoClashes(source, m, writes)
       <==> NoClashes(source, m, Side(writes, depth, false)) && NoClashes(source, m, Side(writes, depth, true))
  {
    hide NoClash;
    var split := PartitionPoint(writes, depth);
    var left, right := Side(writes, depth, false), Side(writes, depth, true);
    assert forall i | 0 <= i < |left| :: left[i] == writes[i];
    assert forall i | 0 <= i < |right| :: right[i] == writes[split + i];
    assert forall i | split <= i < |writes| :: writes[i] == right[i - split];
  }

  lemma MapGrows<K, V>(s: map<K, V>, a: map<K, V>, b: map<K, V>)
    requires forall k | k in a :: Get(b, k) == Some(a[k])
    ensures (s + a) + b == s + b
  {
    assert forall k | k in a :: k in b && b[k] == a[k];
  }

  lemma OverlayGrows(source: Source, a: Source, b: Source, domain: Domain, m: StateMap, prefix: seq<bool>)
    requires Extends(a, b) && Consistent(domain, b)
    requires Holds(Overlaid(source, a), domain, m, prefix)
    ensures Holds(Overlaid(source, b), domain, m, prefix)
  {
    hide Holds, HoldsNode, Consistent;
    OverlayKeepsTree(Overlaid(source, a), b, domain, m, prefix);
    MapGrows(source.nodes, a.nodes, b.nodes);
    MapGrows(source.values, a.values, b.values);
  }

  /** Emitting a position's canonical node keeps what was emitted consistent and in place. */
  lemma EmittedNode(domain: Domain, m': StateMap, q: seq<bool>, before: Source, after: Source)
    requires |q| <= SMT_DEPTH && Consistent(domain, before)
    requires after == before
          || (Occupied(m', q)
              && after == before.(nodes := before.nodes[NodeAt(domain, m', q) := CanonicalNode(domain, m', q)]))
    ensures Consistent(domain, after) && Extends(before, after)
  {
    hide NodeAt, EmptyAt, Occupied, CanonicalNode, NodeHash;
    if after != before {
      CanonicalNodeHash(domain, m', q);
      var h := NodeAt(domain, m', q);
      if h in before.nodes {
        NodeHashInjective(domain, before.nodes[h], CanonicalNode(domain, m', q));
      }
    }
  }

  lemma RejoinedNode(source: Source, domain: Domain, m: StateMap, m': StateMap, q: seq<bool>, before: Source,
                     after: Source)
    requires |q| < SMT_DEPTH && HoldsNode(source, domain, m, q) && Consistent(domain, after)
    requires if Occupied(m', q) && NodeAt(domain, m', q) != NodeAt(domain, m, q)
             then after == before.(nodes := before.nodes[NodeAt(domain, m', q) := CanonicalNode(domain, m', q)])
             else after == before
    ensures HoldsNode(Overlaid(source, after), domain, m', q)
  {
    hide EmptyAt, Occupied, NodeHash, NodeAt;
    if Occupied(m', q) && NodeAt(domain, m', q) == NodeAt(domain, m, q) {
      EmptyIffUnoccupied(domain, m, q);
      EmptyIffUnoccupied(domain, m', q);
      NodeAtIsBranch(domain, m, q);
      NodeAtIsBranch(domain, m', q);
      assert HoldsNode(source, domain, m', q);
      OverlayKeepsNode(source, after, domain, m', q);
    }
  }

  lemma RejoinAchieves(source: Source, domain: Domain, m: StateMap, m': StateMap, prefix: seq<bool>,
                       acc: Source, left: Source, right: Source)
    requires |prefix| < SMT_DEPTH
    requires HoldsNode(source, domain, m, prefix)
    requires Extends(acc, left) && Extends(left, right) && Consistent(domain, left) && Consistent(domain, right)
    requires Holds(Overlaid(source, left), domain, m', prefix + [false])
    requires Holds(Overlaid(source, right), domain, m', prefix + [true])
    ensures var r := Rejoin(domain, NodeAt(domain, m, prefix), |prefix|,
                            (NodeAt(domain, m, prefix + [false]), NodeAt(domain, m, prefix + [true])),
                            NodeAt(domain, m', prefix + [false]), NodeAt(domain, m', prefix + [true]), right);
            && r.Success?
            && r.value.0 == NodeAt(domain, m', prefix)
            && Consistent(domain, r.value.1)
            && Extends(acc, r.value.1)
            && Holds(Overlaid(source, r.value.1), domain, m', prefix)
  {
    hide NodeAt, EmptyAt, Rejoin, Holds, HoldsNode, Occupied, CanonicalNode, NodeHash, Consistent, Extends;
    RejoinSound(domain, m, m', prefix, right);
    var final := Rejoin(domain, NodeAt(domain, m, prefix), |prefix|,
                        (NodeAt(domain, m, prefix + [false]), NodeAt(domain, m, prefix + [true])),
                        NodeAt(domain, m', prefix + [false]), NodeAt(domain, m', prefix + [true]), right).value.1;
    EmittedNode(domain, m', prefix, right, final);
    ExtendsTransitive(left, right, final);
    ExtendsTransitive(acc, left, final);
    OverlayGrows(source, left, final, domain, m', prefix + [false]);
    OverlayGrows(source, right, final, domain, m', prefix + [true]);
    RejoinedNode(source, domain, m, m', prefix, right, final);
    HoldsFromChildren(Overlaid(source, final), domain, m', prefix);
  }

  /** One level of the recursion, given what both sides achieve. */
  lemma BranchAchieves(source: Source, domain: Domain, m: StateMap, m': StateMap, prefix: seq<bool>,
                       writes: seq<PreparedWrite>, acc: Source)
    requires |prefix| < SMT_DEPTH && writes != []
    requires HoldsNode(source, domain, m, prefix)
    requires var left := ApplySubtree(source, domain, NodeAt(domain, m, prefix + [false]), |prefix| + 1,
                                      Side(writes, |prefix|, false), acc);
             && Achieves(source, domain, m, m', prefix + [false], Side(writes, |prefix|, false), acc, left)
             && (left.Success? ==>
                   var right := ApplySubtree(source, domain, NodeAt(domain, m, prefix + [true]), |prefix| + 1,
                                             Side(writes, |prefix|, true), left.value.1);
                   Achieves(source, domain, m, m', prefix + [true], Side(writes, |prefix|, true), left.value.1, right))
    ensures Achieves(source, domain, m, m', prefix, writes, acc,
                     ApplySubtree(source, domain, NodeAt(domain, m, prefix), |prefix|, writes, acc))
  {
    hide NodeAt, EmptyAt, Holds, HoldsNode, Consistent, Extends, NoClashes, Rejoin;
    ClashesSplit(source, m, writes, |prefix|);
    ChildrenAreCanonical(source, domain, m, prefix);
    var left := ApplySubtree(source, domain, NodeAt(domain, m, prefix + [false]), |prefix| + 1,
                             Side(writes, |prefix|, false), acc);
    if left.Success? {
      var right := ApplySubtree(source, domain, NodeAt(domain, m, prefix + [true]), |prefix| + 1,
                                Side(writes, |prefix|, true), left.value.1);
      if right.Success? {
        RejoinAchieves(source, domain, m, m', prefix, acc, left.value.1, right.value.1);
      }
    }
  }

  /** At full depth there is exactly one write, and it decides the value at the path. */
  lemma OneWrite(domain: Domain, m: StateMap, m': StateMap, path: seq<bool>, writes: seq<PreparedWrite>)
    requires |path| == SMT_DEPTH && writes != []
    requires GoodWrites(domain, writes, path) && Rewrites(m, m', writes, path)
    ensures |writes| == 1 && writes[0].path == path
    ensures Get(m', path) == Wanted(writes[0]) && WellFormed(domain, writes[0])
  {
    assert path <= writes[0].path;
    assert writes[0].path == path;
    if |writes| > 1 {
      assert path <= writes[1].path;
      assert writes[1].path == path;
      assert PathLess(writes[0].path, writes[1].path);
      PathOrder(path, path, path);
    }
  }

  lemma LeafOutcome(source: Source, domain: Domain, m: StateMap, w: PreparedWrite, acc: Source)
    requires WellFormed(domain, w)
    requires HoldsNode(source, domain, m, w.path) && HoldsValue(source, domain, m, w.path)
    ensures var r := ApplyLeaf(source, domain, NodeAt(domain, m, w.path), w, acc);
            && (r.Success? <==> NoClash(source, m, w))
            && (r.Success? ==>
                  if w.value.Put? && Get(m, w.path) != Some(w.value.bytes) then
                    r.value == (LeafHash(domain, w.path, w.value.hash),
                                Source(acc.nodes[LeafHash(domain, w.path, w.value.hash) := Leaf(w.path, w.value.hash)],
                                       if w.value.hash in source.values || w.value.hash in acc.values then acc.values
                                       else acc.values[w.value.hash := w.value.bytes]))
                  else r.value.1 == acc)
  {
    if w.path in m {
      LoadedNodeIsCanonical(source, domain, m, w.path);
    }
  }

  lemma LeafConsistent(source: Source, domain: Domain, m: StateMap, w: PreparedWrite, acc: Source, after: Source)
    requires WellFormed(domain, w) && Consistent(domain, acc)
    requires if w.value.Put? && Get(m, w.path) != Some(w.value.bytes) then
               after == Source(acc.nodes[LeafHash(domain, w.path, w.value.hash) := Leaf(w.path, w.value.hash)],
                               if w.value.hash in source.values || w.value.hash in acc.values then acc.values
                               else acc.values[w.value.hash := w.value.bytes])
             else after == acc
    ensures Consistent(domain, after) && Extends(acc, after)
  {
    if after != acc {
      var h, leaf := LeafHash(domain, w.path, w.value.hash), Leaf(w.path, w.value.hash);
      assert NodeHash(leaf, domain) == Success(h);
      hide EmptyAt, NodeHash;
      if h in acc.nodes {
        NodeHashInjective(domain, acc.nodes[h], leaf);
      }
    }
  }

  lemma LeafValueHeld(source: Source, domain: Domain, m: StateMap, m': StateMap, path: seq<bool>, w: PreparedWrite,
                  acc: Source, after: Source)
    requires |path| == SMT_DEPTH && w.path == path && WellFormed(domain, w) && Get(m', path) == Wanted(w)
    requires HoldsValue(source, domain, m, path)
    requires Consistent(domain, acc) && Consistent(domain, after) && NoClash(source, m, w)
    requires if w.value.Put? && Get(m, w.path) != Some(w.value.bytes) then
               after.values == (if w.value.hash in source.values || w.value.hash in acc.values then acc.values
                                else acc.values[w.value.hash := w.value.bytes])
             else after == acc
    ensures HoldsValue(Overlaid(source, after), domain, m', path)
  {
    hide NodeHash;
  }

  lemma HoldsAtLeaf(source: Source, domain: Domain, m: StateMap, path: seq<bool>)
    requires |path| == SMT_DEPTH && HoldsNode(source, domain, m, path) && HoldsValue(source, domain, m, path)
    ensures Holds(source, domain, m, path)
  {
    hide HoldsNode, HoldsValue;
    forall q: seq<bool> | path <= q && |q| <= SMT_DEPTH
      ensures HoldsNode(source, domain, m, q) && HoldsValue(source, domain, m, q)
    {
      assert q == path;
    }
  }

  lemma LeafHolds(source: Source, domain: Domain, m: StateMap, m': StateMap, path: seq<bool>, w: PreparedWrite,
                  acc: Source, after: Source)
    requires |path| == SMT_DEPTH && w.path == path && WellFormed(domain, w) && Get(m', path) == Wanted(w)
    requires HoldsNode(source, domain, m, path) && HoldsValue(source, domain, m, path)
    requires Consistent(domain, acc) && NoClash(source, m, w)
    requires if w.value.Put? && Get(m, w.path) != Some(w.value.bytes) then
               after == Source(acc.nodes[LeafHash(domain, path, w.value.hash) := Leaf(path, w.value.hash)],
                               if w.value.hash in source.values || w.value.hash in acc.values then acc.values
                               else acc.values[w.value.hash := w.value.bytes])
             else after == acc
    ensures Consistent(domain, after) && Extends(acc, after)
    ensures Holds(Overlaid(source, after), domain, m', path)
  {
    LeafConsistent(source, domain, m, w, acc, after);
    hide Consistent, Extends;
    if w.value.Put? && Get(m, w.path) != Some(w.value.bytes) {
      hide NoClash;
      assert HoldsNode(Overlaid(source, after), domain, m', path);
    } else {
      hide NodeHash;
      OverlayKeepsNode(source, after, domain, m, path);
    }
    assert HoldsValue(Overlaid(source, after), domain, m', path) by {
      LeafValueHeld(source, domain, m, m', path, w, acc, after);
    }
    hide HoldsNode, HoldsValue, NoClash;
    HoldsAtLeaf(Overlaid(source, after), domain, m', path);
  }

  lemma HoldsHere(source: Source, domain: Domain, m: StateMap, path: seq<bool>)
    requires |path| == SMT_DEPTH && Holds(source, domain, m, path)
    ensures HoldsNode(source, domain, m, path) && HoldsValue(source, domain, m, path)
  {
  }

  lemma LeafAchieves(source: Source, domain: Domain, m: StateMap, m': StateMap, path: seq<bool>,
                     writes: seq<PreparedWrite>, acc: Source)
    requires |path| == SMT_DEPTH && writes != []
    requires GoodWrites(domain, writes, path) && Rewrites(m, m', writes, path)
    requires Holds(source, domain, m, path) && Consistent(domain, acc)
    ensures Achieves(source, domain, m, m', path, writes, acc,
                     ApplySubtree(source, domain, NodeAt(domain, m, path), |path|, writes, acc))
  {
    hide NodeAt, EmptyAt, GoodWrites, Rewrites, HoldsNode, HoldsValue, NoClash, ApplyLeaf, Consistent, Extends;
    var w := writes[0];
    OneWrite(domain, m, m', path, writes);
    ApplyLeafSound(source, domain, m, m', path, writes, acc);
    HoldsHere(source, domain, m, path);
    hide Holds;
    var r := ApplySubtree(source, domain, NodeAt(domain, m, path), |path|, writes, acc);
    assert r == ApplyLeaf(source, domain, NodeAt(domain, m, path), w, acc);
    hide ApplySubtree;
    LeafOutcome(source, domain, m, w, acc);
    if r.Success? {
      LeafHolds(source, domain, m, m', path, w, acc, r.value.1);
    }
  }

  lemma {:induction false} ApplySubtreeAchieves(source: Source, domain: Domain, m: StateMap, m': StateMap,
                                                prefix: seq<bool>, writes: seq<PreparedWrite>, acc: Source)
    requires |prefix| <= SMT_DEPTH
    requires GoodWrites(domain, writes, prefix) && Rewrites(m, m', writes, prefix)
    requires Holds(source, domain, m, prefix) && Consistent(domain, acc)
    ensures Achieves(source, domain, m, m', prefix, writes, acc,
                     ApplySubtree(source, domain, NodeAt(domain, m, prefix), |prefix|, writes, acc))
    decreases SMT_DEPTH - |prefix|
  {
    hide ApplySubtree, NodeAt, EmptyAt, Holds, Consistent, Extends, GoodWrites, Rewrites, NoClashes;
    if writes == [] {
      EmptyWritesAchieve(source, domain, m, m', prefix, acc);
    } else if |prefix| == SMT_DEPTH {
      LeafAchieves(source, domain, m, m', prefix, writes, acc);
    } else {
      var lw, rw := Side(writes, |prefix|, false), Side(writes, |prefix|, true);
      SideIsGood(domain, writes, prefix, false);
      SideIsGood(domain, writes, prefix, true);
      SideRewrites(domain, m, m', writes, prefix, false);
      SideRewrites(domain, m, m', writes, prefix, true);
      HoldsBelow(source, domain, m, prefix, false);
      HoldsBelow(source, domain, m, prefix, true);
      ApplySubtreeAchieves(source, domain, m, m', prefix + [false], lw, acc);
      var left := ApplySubtree(source, domain, NodeAt(domain, m, prefix + [false]), |prefix| + 1, lw, acc);
      if left.Success? {
        ApplySubtreeAchieves(source, domain, m, m', prefix + [true], rw, left.value.1);
      }
      BranchAchieves(source, domain, m, m', prefix, writes, acc);
    }
  }

  // ----- Whole write sets -----

  /** The map after one write. */
  ghost function Written(m: StateMap, w: PreparedWrite): (m': StateMap)
    requires w.value.Put? ==> |w.value.bytes| <= MAX_STATE_VALUE_BYTES
    ensures forall p: Path :: Get(m', p) == if p == w.path then Wanted(w) else Get(m, p)
  {
    match w.value
    case Put(bytes, _) => m[w.path := bytes]
    case Delete => m - {w.path}
  }

  ghost predicate Sized(writes: seq<PreparedWrite>) {
    forall i | 0 <= i < |writes| && writes[i].value.Put? :: |writes[i].value.bytes| <= MAX_STATE_VALUE_BYTES
  }

  /** The map after the writes, in the order given. */
  ghost function Updated(m: StateMap, writes: seq<PreparedWrite>): StateMap
    requires Sized(writes)
  {
    if writes == [] then m
    else Written(Updated(m, writes[..|writes| - 1]), writes[|writes| - 1])
  }

  /** With distinct paths the order of the writes does not matter: each path gets its own write. */
  lemma {:induction false} UpdatedRewrites(m: StateMap, writes: seq<PreparedWrite>)
    requires Sized(writes) && DistinctPaths(writes)
    ensures Rewrites(m, Updated(m, writes), writes, [])
  {
    if writes != [] {
      var front, last := writes[..|writes| - 1], writes[|writes| - 1];
      UpdatedRewrites(m, front);
      var m', before := Updated(m, writes), Updated(m, front);
      forall i | 0 <= i < |writes|
        ensures Get(m', writes[i].path) == Wanted(writes[i])
      {
        if i < |front| {
          assert front[i] == writes[i] && writes[i].path != last.path;
        }
      }
      forall p: Path | [] <= p && !Touches(writes, p)
        ensures Get(m', p) == Get(m, p)
      {
        assert last.path != p;
        assert !Touches(front, p);
      }
    }
  }

  lemma TouchesPermutes(xs: seq<PreparedWrite>, ys: seq<PreparedWrite>, p: Path)
    requires multiset(xs) == multiset(ys)
    ensures Touches(xs, p) ==> Touches(ys, p)
  {
    if Touches(xs, p) {
      var i :| 0 <= i < |xs| && xs[i].path == p;
      assert xs[i] in multiset(ys);
      var j :| 0 <= j < |ys| && ys[j] == xs[i];
    }
  }

  lemma UpdatedPermutes(m: StateMap, xs: seq<PreparedWrite>, ys: seq<PreparedWrite>)
    requires Sized(xs) && Sized(ys) && DistinctPaths(xs) && multiset(xs) == multiset(ys)
    ensures Updated(m, xs) == Updated(m, ys)
  {
    DistinctPathsPermute(ys, xs);
    UpdatedRewrites(m, xs);
    UpdatedRewrites(m, ys);
    var a, b := Updated(m, xs), Updated(m, ys);
    forall p: Path
      ensures Get(a, p) == Get(b, p)
    {
      if Touches(xs, p) {
        var i :| 0 <= i < |xs| && xs[i].path == p;
        assert xs[i] in multiset(ys);
        var j :| 0 <= j < |ys| && ys[j] == xs[i];
      } else {
        TouchesPermutes(ys, xs, p);
      }
    }
    SameMap(a, b);
  }

  lemma ValidSetIsGood(ws: WriteSet)
    requires ValidWriteSet(ws)
    ensures GoodWrites(ws.domain, ws.writes, []) && Sized(ws.writes) && DistinctPaths(ws.writes)
  {
    forall a, b | 0 <= a < b < |ws.writes|
      ensures ws.writes[a].path != ws.writes[b].path
    {
      PathOrder(ws.writes[a].path, ws.writes[a].path, ws.writes[a].path);
    }
    assert forall i | 0 <= i < |ws.writes| :: WellFormed(ws.domain, ws.writes[i]) by {
      assert forall i | 0 <= i < |ws.writes| :: ws.writes[i] in ws.writes;
    }
  }

  /** The state transition theorem.  Whatever the source holds, a successful update takes the
      reference root of `m` to the reference root of the updated map.  Over a source that holds
      the tree of `m` it succeeds exactly when no new value clashes with a corrupt stored one,
      and the overlaid source then holds the updated tree. */
  lemma ApplyWriteSetRefines(source: Source, m: StateMap, ws: WriteSet)
    requires ValidWriteSet(ws) && Sized(ws.writes)
    ensures var r := ApplyWriteSet(source, DomainSnapshot(ws.domain, Root(ws.domain, m)), ws);
            && (r.Success? ==> r.value.newRoot == Root(ws.domain, Updated(m, ws.writes)))
            && (Holds(source, ws.domain, m, []) ==>
                  && (r.Success? <==> NoClashes(source, m, ws.writes))
                  && (r.Success? ==> Holds(Overlaid(source, r.value.emitted), ws.domain, Updated(m, ws.writes), [])))
  {
    hide ApplySubtree, NodeAt, Holds, GoodWrites, Rewrites, NoClashes;
    ValidSetIsGood(ws);
    UpdatedRewrites(m, ws.writes);
    var nothing := Source(map[], map[]);
    ApplySubtreeSound(source, ws.domain, m, Updated(m, ws.writes), [], ws.writes, nothing);
    if Holds(source, ws.domain, m, []) {
      ApplySubtreeAchieves(source, ws.domain, m, Updated(m, ws.writes), [], ws.writes, nothing);
    }
  }

  lemma ClashesPermute(source: Source, m: StateMap, xs: seq<PreparedWrite>, ys: seq<PreparedWrite>)
    requires multiset(xs) == multiset(ys) && NoClashes(source, m, xs)
    ensures NoClashes(source, m, ys)
  {
    hide NoClash;
    forall i | 0 <= i < |ys|
      ensures NoClash(source, m, ys[i])
    {
      assert ys[i] in multiset(xs);
      var j :| 0 <= j < |xs| && xs[j] == ys[i];
    }
  }

  /** The same for the raw writes a caller hands to `NewWriteSet`, in the order they were given. */
  lemma AcceptedWritesRefine(keyHash: KeyHash, domain: Domain, source: Source, m: StateMap, writes: seq<StateWrite>,
                             ws: WriteSet)
    requires Accepted(keyHash, domain, writes, ws)
    ensures var prepared := PreparedAll(keyHash, domain, writes);
            var r := ApplyWriteSet(source, DomainSnapshot(domain, Root(domain, m)), ws);
            && (r.Success? ==> r.value.newRoot == Root(domain, Updated(m, prepared)))
            && (Holds(source, domain, m, []) ==>
                  && (r.Success? <==> NoClashes(source, m, prepared))
                  && (r.Success? ==> Holds(Overlaid(source, r.value.emitted), domain, Updated(m, prepared), [])))
  {
    hide Holds, NoClashes, ApplyWriteSet, NodeAt, Updated;
    var prepared := PreparedAll(keyHash, domain, writes);
    ValidSetIsGood(ws);
    UpdatedPermutes(m, ws.writes, prepared);
    if NoClashes(source, m, prepared) {
      ClashesPermute(source, m, prepared, ws.writes);
    }
    if NoClashes(source, m, ws.writes) {
      ClashesPermute(source, m, ws.writes, prepared);
    }
    ApplyWriteSetRefines(source, m, ws);
  }

  // ----- Histories -----

  /** Write sets applied one after another, each over what the earlier ones emitted. */
  function RunSets(source: Source, domain: Domain, root: Hash, sets: seq<WriteSet>): Result<(Source, Hash),
      StateError> {
    if sets == [] then Success((source, root))
    else
      var before :- RunSets(source, domain, root, sets[..|sets| - 1]);
      var t :- ApplyWriteSet(before.0, DomainSnapshot(domain, before.1), sets[|sets| - 1]);
      Success((Overlaid(before.0, t.emitted), t.newRoot))
  }

  ghost predicate ValidSets(domain: Domain, sets: seq<WriteSet>) {
    forall i | 0 <= i < |sets| :: ValidWriteSet(sets[i]) && sets[i].domain == domain && Sized(sets[i].writes)
  }

  ghost function UpdatedAll(domain: Domain, m: StateMap, sets: seq<WriteSet>): StateMap
    requires ValidSets(domain, sets)
  {
    if sets == [] then m
    else Updated(UpdatedAll(domain, m, sets[..|sets| - 1]), sets[|sets| - 1].writes)
  }

  lemma {:induction false} RunSetsRefines(source: Source, domain: Domain, m: StateMap, sets: seq<WriteSet>)
    requires ValidSets(domain, sets)
    ensures var r := RunSets(source, domain, Root(domain, m), sets);
            && (r.Success? ==> r.value.1 == Root(domain, UpdatedAll(domain, m, sets)))
            && (r.Success? && Holds(source, domain, m, []) ==>
                  Holds(r.value.0, domain, UpdatedAll(domain, m, sets), []))
  {
    hide NodeAt, Holds, ApplyWriteSet, Updated;
    if sets != [] {
      var front, last := sets[..|sets| - 1], sets[|sets| - 1];
      RunSetsRefines(source, domain, m, front);
      var before := RunSets(source, domain, Root(domain, m), front);
      if before.Success? {
        ApplyWriteSetRefines(before.value.0, UpdatedAll(domain, m, front), last);
      }
    }
  }

  /** Two histories end at the same root exactly when they end at the same map. */
  lemma HistoryIndependence(domain: Domain, s1: Source, m1: StateMap, h1: seq<WriteSet>,
                            s2: Source, m2: StateMap, h2: seq<WriteSet>)
    requires ValidSets(domain, h1) && ValidSets(domain, h2)
    requires RunSets(s1, domain, Root(domain, m1), h1).Success?
    requires RunSets(s2, domain, Root(domain, m2), h2).Success?
    ensures RunSets(s1, domain, Root(domain, m1), h1).value.1 == RunSets(s2, domain, Root(domain, m2), h2).value.1
       <==> UpdatedAll(domain, m1, h1) == UpdatedAll(domain, m2, h2)
  {
    hide NodeAt, RunSets, UpdatedAll;
    RunSetsRefines(s1, domain, m1, h1);
    RunSetsRefines(s2, domain, m2, h2);
    RootCommits(domain, UpdatedAll(domain, m1, h1), UpdatedAll(domain, m2, h2));
  }
}
