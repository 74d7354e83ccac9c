/** The reference meaning of a state root, and what it means for a store to hold it.

    `NodeAt` commits to the part of a map below a path prefix.  `OracleSubtree` is the
    list-partitioning definition used by the vector generator; the two agree. */
module StateTree {
  import opened Prelude
  import opened StateHash

  type Value = v: seq<byte> | |v| <= MAX_STATE_VALUE_BYTES

  type StateMap = map<Path, Value>

  /** Some key of `m` lives at or below `prefix`. */
  ghost predicate Occupied(m: StateMap, prefix: seq<bool>): (b: bool)
    ensures |prefix| == SMT_DEPTH ==> (b <==> prefix in m)
  {
    assert forall p: Path | p in m && |prefix| == SMT_DEPTH && prefix <= p :: prefix == p;
    exists p: Path :: p in m && prefix <= p
  }

  /** The commitment to the entries of `m` below `prefix`. */
  ghost function NodeAt(domain: Domain, m: StateMap, prefix: seq<bool>): Hash
    requires |prefix| <= SMT_DEPTH
    decreases SMT_DEPTH - |prefix|
  {
    if !Occupied(m, prefix) then EmptyAt(domain, |prefix|)
    else if |prefix| == SMT_DEPTH then LeafHash(domain, prefix, ValueHash(domain, m[prefix]))
    else BranchHash(domain, |prefix|, NodeAt(domain, m, prefix + [false]), NodeAt(domain, m, prefix + [true]))
  }

  ghost function Root(domain: Domain, m: StateMap): Hash {
    NodeAt(domain, m, [])
  }

  lemma OccupiedSplit(m: StateMap, prefix: seq<bool>)
    requires |prefix| < SMT_DEPTH
    ensures Occupied(m, prefix) <==> Occupied(m, prefix + [false]) || Occupied(m, prefix + [true])
  {
    if Occupied(m, prefix) {
      var p: Path :| p in m && prefix <= p;
      assert prefix + [p[|prefix|]] <= p;
      assert p[|prefix|] == false || p[|prefix|] == true;
    }
  }

  /** Collapsing loses nothing: every inner position is the branch over its two children. */
  lemma NodeAtIsBranch(domain: Domain, m: StateMap, prefix: seq<bool>)
    requires |prefix| < SMT_DEPTH
    ensures NodeAt(domain, m, prefix)
         == BranchHash(domain, |prefix|, NodeAt(domain, m, prefix + [false]), NodeAt(domain, m, prefix + [true]))
  {
    OccupiedSplit(m, prefix);
  }

  /** The default hash at a position means precisely that no key lives below it. */
  lemma {:induction false} EmptyIffUnoccupied(domain: Domain, m: StateMap, prefix: seq<bool>)
    requires |prefix| <= SMT_DEPTH
    ensures NodeAt(domain, m, prefix) == EmptyAt(domain, |prefix|) <==> !Occupied(m, prefix)
    decreases SMT_DEPTH - |prefix|
  {
    if |prefix| < SMT_DEPTH {
      OccupiedSplit(m, prefix);
      EmptyIffUnoccupied(domain, m, prefix + [false]);
      EmptyIffUnoccupied(domain, m, prefix + [true]);
    }
  }

  /** Equal commitments below a prefix mean equal maps below it. */
  lemma {:induction false} NodeAtInjective(domain: Domain, m1: StateMap, m2: StateMap, prefix: seq<bool>, p: Path)
    requires |prefix| <= SMT_DEPTH && prefix <= p
    requires NodeAt(domain, m1, prefix) == NodeAt(domain, m2, prefix)
    ensures Get(m1, p) == Get(m2, p)
    decreases SMT_DEPTH - |prefix|
  {
    if |prefix| == SMT_DEPTH {
      assert prefix == p;
    } else {
      NodeAtIsBranch(domain, m1, prefix);
      NodeAtIsBranch(domain, m2, prefix);
      assert prefix + [p[|prefix|]] <= p;
      assert p[|prefix|] == false || p[|prefix|] == true;
      NodeAtInjective(domain, m1, m2, prefix + [p[|prefix|]], p);
    }
  }

  /** The root is a commitment: it determines the map, and the map determines it. */
  lemma RootCommits(domain: Domain, m1: StateMap, m2: StateMap)
    ensures Root(domain, m1) == Root(domain, m2) <==> m1 == m2
  {
    if Root(domain, m1) == Root(domain, m2) {
      forall p: Path
        ensures Get(m1, p) == Get(m2, p)
      {
        NodeAtInjective(domain, m1, m2, [], p);
      }
      assert forall p :: p in m1 ==> Get(m1, p) == Get(m2, p);
      assert forall p :: p in m2 ==> Get(m1, p) == Get(m2, p);
      assert m1 == m2;
    }
  }

  // ----- The list-partitioning oracle -----

  /** An item is a leaf position with its value. */
  function Filter(items: seq<(Path, Value)>, depth: nat, bit: bool): seq<(Path, Value)>
    requires depth < SMT_DEPTH
  {
    if items == [] then []
    else if items[0].0[depth] == bit then [items[0]] + Filter(items[1..], depth, bit)
    else Filter(items[1..], depth, bit)
  }

  lemma {:induction false} FilterKeeps(items: seq<(Path, Value)>, depth: nat, bit: bool, it: (Path, Value))
    requires depth < SMT_DEPTH
    ensures it in Filter(items, depth, bit) <==> it in items && it.0[depth] == bit
  {
    if items != [] {
      assert items == [items[0]] + items[1..];
      FilterKeeps(items[1..], depth, bit, it);
    }
  }

  function OracleSubtree(domain: Domain, items: seq<(Path, Value)>, depth: nat): Hash
    requires depth <= SMT_DEPTH
    decreases SMT_DEPTH - depth
  {
    if items == [] then EmptyAt(domain, depth)
    else if depth == SMT_DEPTH then LeafHash(domain, items[0].0, ValueHash(domain, items[0].1))
    else BranchHash(domain, depth,
                    OracleSubtree(domain, Filter(items, depth, false), depth + 1),
                    OracleSubtree(domain, Filter(items, depth, true), depth + 1))
  }

  /** `items` lists exactly the entries of `m` below `prefix`. */
  ghost predicate Lists(items: seq<(Path, Value)>, m: StateMap, prefix: seq<bool>) {
    && (forall it :: it in items ==> it.0 in m && m[it.0] == it.1 && prefix <= it.0)
    && (forall p: Path :: p in m && prefix <= p ==> (p, m[p]) in items)
  }

  lemma OracleStep(domain: Domain, items: seq<(Path, Value)>, m: StateMap, prefix: seq<bool>)
    requires |prefix| < SMT_DEPTH && items != []
    requires OracleSubtree(domain, Filter(items, |prefix|, false), |prefix| + 1) == NodeAt(domain, m, prefix + [false])
    requires OracleSubtree(domain, Filter(items, |prefix|, true), |prefix| + 1) == NodeAt(domain, m, prefix + [true])
    ensures OracleSubtree(domain, items, |prefix|) == NodeAt(domain, m, prefix)
  {
    NodeAtIsBranch(domain, m, prefix);
  }

  lemma ListsOccupied(items: seq<(Path, Value)>, m: StateMap, prefix: seq<bool>)
    requires |prefix| <= SMT_DEPTH
    requires Lists(items, m, prefix)
    ensures items == [] <==> !Occupied(m, prefix)
    ensures items != [] && |prefix| == SMT_DEPTH ==> items[0].0 == prefix && m[prefix] == items[0].1
  {
    if items != [] {
      assert items[0] in items;
      assert Occupied(m, prefix);
    }
  }

  lemma FilterLists(items: seq<(Path, Value)>, m: StateMap, prefix: seq<bool>, bit: bool)
    requires |prefix| < SMT_DEPTH
    requires Lists(items, m, prefix)
    ensures Lists(Filter(items, |prefix|, bit), m, prefix + [bit])
  {
    forall it: (Path, Value)
      ensures it in Filter(items, |prefix|, bit) <==> it in items && it.0[|prefix|] == bit
    {
      FilterKeeps(items, |prefix|, bit, it);
    }
    forall p: Path | p in m && prefix + [bit] <= p
      ensures (p, m[p]) in Filter(items, |prefix|, bit)
    {
      assert prefix <= p && p[|prefix|] == bit;
    }
  }

  /** The generator's oracle and the prefix form compute the same commitment. */
  lemma {:induction false} OracleMeetsNodeAt(domain: Domain, items: seq<(Path, Value)>, m: StateMap, prefix: seq<bool>)
    requires |prefix| <= SMT_DEPTH
    requires Lists(items, m, prefix)
    ensures OracleSubtree(domain, items, |prefix|) == NodeAt(domain, m, prefix)
    decreases SMT_DEPTH - |prefix|
  {
    ListsOccupied(items, m, prefix);
    if items == [] {
    } else if |prefix| < SMT_DEPTH {
      var left, right := Filter(items, |prefix|, false), Filter(items, |prefix|, true);
      FilterLists(items, m, prefix, false);
      FilterLists(items, m, prefix, true);
      OracleMeetsNodeAt(domain, left, m, prefix + [false]);
      OracleMeetsNodeAt(domain, right, m, prefix + [true]);
      OracleStep(domain, items, m, prefix);
    }
  }

  // ----- Stores that hold a tree -----

  ghost function CanonicalNode(domain: Domain, m: StateMap, q: seq<bool>): StateNode
    requires |q| <= SMT_DEPTH && Occupied(m, q)
  {
    if |q| == SMT_DEPTH then Leaf(q, ValueHash(domain, m[q]))
    else Branch(|q|, NodeAt(domain, m, q + [false]), NodeAt(domain, m, q + [true]))
  }

  ghost predicate HoldsNode(source: Source, domain: Domain, m: StateMap, q: seq<bool>)
    requires |q| <= SMT_DEPTH
  {
    Occupied(m, q) ==> Get(source.nodes, NodeAt(domain, m, q)) == Some(CanonicalNode(domain, m, q))
  }

  ghost predicate HoldsValue(source: Source, domain: Domain, m: StateMap, p: Path) {
    p in m ==> Get(source.values, ValueHash(domain, m[p])) == Some(m[p])
  }

  /** The source holds every node and value of `m` at and below `prefix`. */
  ghost predicate Holds(source: Source, domain: Domain, m: StateMap, prefix: seq<bool>) {
    && (forall q: seq<bool> | prefix <= q && |q| <= SMT_DEPTH :: HoldsNode(source, domain, m, q))
    && (forall p: Path | prefix <= p :: HoldsValue(source, domain, m, p))
  }

  /** A canonical node hashes to its own position's commitment, and nothing else does. */
  lemma CanonicalNodeHash(domain: Domain, m: StateMap, q: seq<bool>)
    requires |q| <= SMT_DEPTH && Occupied(m, q)
    ensures NodeHash(CanonicalNode(domain, m, q), domain) == Success(NodeAt(domain, m, q))
  {
    hide EmptyAt;
    if |q| < SMT_DEPTH {
      NodeAtIsBranch(domain, m, q);
      hide NodeAt, Occupied;
      OccupiedSplit(m, q);
      EmptyIffUnoccupied(domain, m, q + [false]);
      EmptyIffUnoccupied(domain, m, q + [true]);
    }
  }

  /** Whatever an untrusted source returns for a position's commitment is that position's node. */
  lemma LoadedNodeIsCanonical(source: Source, domain: Domain, m: StateMap, q: seq<bool>)
    requires |q| <= SMT_DEPTH && Occupied(m, q)
    ensures var r := LoadCheckedNode(source, domain, NodeAt(domain, m, q), |q|);
            && (r.Success? ==> r.value == CanonicalNode(domain, m, q))
            && (HoldsNode(source, domain, m, q) ==> r.Success?)
  {
    CanonicalNodeHash(domain, m, q);
  }
}
