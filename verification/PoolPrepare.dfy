/** The preparation of an admission in the program's own form: screening loops, worklist closures,
    the narrow ledger and the replay. */
module PoolPrepare {
  import opened Prelude
  import opened Ledger
  import opened PoolGraph
  import opened PoolClosure
  import opened PoolState
  import opened PoolCommit
  import opened PoolAdmission

  // ----- Screening and parents -----

  lemma {:induction false} ConflictStays(spenders: Spenders, inputs: seq<OutPoint<Txid>>, k: nat, n: nat)
    requires k <= n <= |inputs|
    ensures FirstConflict(spenders, inputs, k).Failure? ==>
              FirstConflict(spenders, inputs, n) == FirstConflict(spenders, inputs, k)
  {
    if k < n {
      ConflictStays(spenders, inputs, k, n - 1);
    }
  }

  method CheckConflicts(spenders: Spenders, claims: seq<OutPoint<Txid>>) returns (r: Result<(), MempoolError>)
    ensures r == FirstConflict(spenders, claims, |claims|)
  {
    for i := 0 to |claims|
      invariant FirstConflict(spenders, claims, i).Success?
    {
      if claims[i] in spenders {
        ConflictStays(spenders, claims, i + 1, |claims|);
        return Failure(Conflict(claims[i], spenders[claims[i]]));
      }
    }
    return Success(());
  }

  lemma {:induction false} ParentFailureStays(entries: Entries, utxos: Utxos<Txid>, inputs: seq<OutPoint<Txid>>,
                                              k: nat, n: nat)
    requires k <= n <= |inputs|
    ensures DirectParents(entries, utxos, inputs, k).Failure? ==>
              DirectParents(entries, utxos, inputs, n) == DirectParents(entries, utxos, inputs, k)
  {
    if k < n {
      ParentFailureStays(entries, utxos, inputs, k, n - 1);
    }
  }

  method FindParents(entries: Entries, utxos: Utxos<Txid>, claims: seq<OutPoint<Txid>>)
    returns (r: Result<set<Txid>, MempoolError>)
    ensures r == DirectParents(entries, utxos, claims, |claims|)
  {
    var parents: set<Txid> := {};
    for i := 0 to |claims|
      invariant DirectParents(entries, utxos, claims, i) == Success(parents)
    {
      ParentFailureStays(entries, utxos, claims, i + 1, |claims|);
      var o := claims[i];
      if o !in utxos {
        if o.txid !in entries {
          return Failure(MissingDependency(o));
        }
        if o.index >= |entries[o.txid].tx.outputs| {
          return Failure(InvalidParentOutput(o));
        }
        parents := parents + {entries[o.txid].tx.txid};
      }
    }
    return Success(parents);
  }

  // ----- Closure limits -----

  lemma DescendantRoom(pool: Pool, a: Txid)
    requires Valid(pool) && a in pool.entries
    ensures |DescendantsOf(pool.entries, a)| + 1 <= USIZE_MAX
  {
    hide Reaches, ClosureBounds, SpendersExact, Bytes;
    var below := DescendantsOf(pool.entries, a);
    assert a !in below;
    SubsetCount(below, pool.entries.Keys - {a});
  }

  lemma ValidLinks(pool: Pool)
    requires Valid(pool)
    ensures Symmetric(pool.entries) && Acyclic(pool.entries) && KeysMatch(pool.entries)
  {
  }

  /** Whether some ancestor has no room for one more descendant. */
  method CheckDescendants(pool: Pool, ancestors: set<Txid>) returns (r: Result<(), MempoolError>)
    requires Valid(pool) && ancestors <= pool.entries.Keys
    ensures r == if DescendantsFull(pool, ancestors) then Failure(TooManyDescendants) else Success(())
  {
    hide Valid, DescendantsOf, Symmetric, Acyclic;
    ValidLinks(pool);
    var todo := ancestors;
    while todo != {}
      invariant todo <= ancestors
      invariant forall a | a in ancestors && a !in todo ::
                  |DescendantsOf(pool.entries, a)| + 1 <= pool.config.maxDescendants
      decreases todo
    {
      var a :| a in todo;
      todo := todo - {a};
      MirroredDescendants(pool.entries, a);
      var below := DescendantClosure(pool.entries, a);
      DescendantRoom(pool, a);
      if |below.value| + 1 > USIZE_MAX {
        return Failure(InvariantViolation);
      }
      if |below.value| + 1 > pool.config.maxDescendants {
        return Failure(TooManyDescendants);
      }
    }
    return Success(());
  }

  // ----- The narrow ledger -----

  ghost predicate PartOf(narrow: Utxos<Txid>, utxos: Utxos<Txid>) {
    forall o | o in narrow :: o in utxos && narrow[o] == utxos[o]
  }

  /** Adds the chain entries a transaction spends. */
  method SeedInputs(tx: Tx<Txid>, utxos: Utxos<Txid>, seeded: Utxos<Txid>) returns (narrow: Utxos<Txid>)
    requires PartOf(seeded, utxos)
    ensures PartOf(narrow, utxos)
    ensures forall o :: o in narrow <==> o in seeded || (o in utxos && o in tx.inputs)
  {
    narrow := seeded;
    for i := 0 to |tx.inputs|
      invariant PartOf(narrow, utxos)
      invariant forall o :: o in narrow <==> o in seeded || (o in utxos && o in tx.inputs[..i])
    {
      var o := tx.inputs[i];
      if o in utxos {
        narrow := narrow[o := utxos[o]];
      }
    }
    assert tx.inputs[..|tx.inputs|] == tx.inputs;
  }

  ghost predicate SeededBy(entries: Entries, order: seq<Txid>, o: OutPoint<Txid>)
    requires Elements(order) <= entries.Keys
  {
    exists t :: t in Elements(order) && o in entries[t].tx.inputs
  }

  lemma NarrowIsExact(utxos: Utxos<Txid>, entries: Entries, order: seq<Txid>, ancestors: set<Txid>, tx: Tx<Txid>,
                      seeded: Utxos<Txid>, narrow: Utxos<Txid>)
    requires Elements(order) == ancestors <= entries.Keys
    requires PartOf(seeded, utxos)
    requires forall o :: o in seeded <==> (o in utxos && SeededBy(entries, order, o)) || (o in utxos && o in tx.inputs)
    requires narrow == seeded + map o | o in utxos && (o.txid in ancestors || o.txid == tx.txid) :: utxos[o]
    ensures narrow == Narrowed(utxos, entries, ancestors, tx)
  {
    forall o
      ensures o in narrow <==> o in utxos && Relevant(entries, ancestors, tx, o)
    {
    }
    assert PartOf(narrow, utxos);
  }

  lemma SeededStep(entries: Entries, order: seq<Txid>, i: nat)
    requires Elements(order) <= entries.Keys && i < |order|
    requires Elements(order[..i]) <= Elements(order)
    ensures Elements(order[..i + 1]) <= Elements(order)
    ensures forall o :: SeededBy(entries, order[..i + 1], o) <==>
              SeededBy(entries, order[..i], o) || o in entries[order[i]].tx.inputs
  {
    assert order[..i + 1] == order[..i] + [order[i]];
    ElementsSnoc(order[..i], order[i]);
    assert order[i] in Elements(order[..i + 1]);
  }

  /** The chain entries that replaying `order` and then `tx` can read. */
  method NarrowLedger(entries: Entries, order: seq<Txid>, ancestors: set<Txid>, tx: Tx<Txid>, utxos: Utxos<Txid>)
    returns (narrow: Utxos<Txid>)
    requires Elements(order) == ancestors <= entries.Keys
    ensures narrow == Narrowed(utxos, entries, ancestors, tx)
  {
    narrow := map[];
    for i := 0 to |order|
      invariant forall t | t in order[..i] :: t in Elements(order)
      invariant forall o :: o in narrow <==> o in utxos && SeededBy(entries, order[..i], o)
      invariant PartOf(narrow, utxos)
    {
      assert order[i] in Elements(order);
      SeededStep(entries, order, i);
      narrow := SeedInputs(entries[order[i]].tx, utxos, narrow);
    }
    assert order[..|order|] == order;
    narrow := SeedInputs(tx, utxos, narrow);
    var seeded := narrow;
    narrow := narrow + map o | o in utxos && (o.txid in ancestors || o.txid == tx.txid) :: utxos[o];
    NarrowIsExact(utxos, entries, order, ancestors, tx, seeded, narrow);
  }

  // ----- The replay -----

  lemma {:induction false} ReplayFailureStays(u: Utxos<Txid>, entries: Entries, order: seq<Txid>, height: nat,
                                              verify: Verifier<Txid>, k: nat)
    requires Elements(order) <= entries.Keys && k <= |order|
    ensures Elements(order[..k]) <= entries.Keys
    ensures Replay(u, entries, order[..k], height, verify).Failure? ==>
              Replay(u, entries, order, height, verify) == Replay(u, entries, order[..k], height, verify)
    decreases |order|
  {
    assert forall t | t in order[..k] :: t in Elements(order);
    if k == |order| {
      assert order[..k] == order;
    } else {
      var front := order[..|order| - 1];
      assert forall t | t in front :: t in Elements(order);
      ReplayFailureStays(u, entries, front, height, verify, k);
      assert front[..k] == order[..k];
    }
  }

  lemma ReplayNext(u: Utxos<Txid>, entries: Entries, order: seq<Txid>, height: nat, verify: Verifier<Txid>, k: nat,
                   before: Utxos<Txid>)
    requires Elements(order) <= entries.Keys && k < |order|
    requires Elements(order[..k]) <= entries.Keys && Replay(u, entries, order[..k], height, verify) == Success(before)
    ensures order[k] in entries && Elements(order[..k + 1]) <= entries.Keys
    ensures var fee := FeeOf(before, entries[order[k]].tx, height, verify);
            Replay(u, entries, order[..k + 1], height, verify)
            == if fee.Failure? then Failure(Utxo(fee.error))
               else if fee.value != entries[order[k]].fee then Failure(InvariantViolation)
               else Success(Effect(before, entries[order[k]].tx, height))
    ensures Replay(u, entries, order[..k + 1], height, verify).Failure? ==>
              Replay(u, entries, order, height, verify) == Replay(u, entries, order[..k + 1], height, verify)
  {
    hide FeeOf, Effect;
    assert order[k] in Elements(order);
    assert order[..k + 1][..k] == order[..k];
    ReplayFailureStays(u, entries, order, height, verify, k + 1);
  }

  lemma ReplayNothing(u: Utxos<Txid>, entries: Entries, order: seq<Txid>, height: nat, verify: Verifier<Txid>)
    ensures Elements(order[..0]) <= entries.Keys && Replay(u, entries, order[..0], height, verify) == Success(u)
  {
  }

  /** Replays `order` on a ledger object and applies `tx` to the result. */
  method ReplayFee(state: UtxoState<Txid>, entries: Entries, order: seq<Txid>, tx: Tx<Txid>, height: nat,
                   verify: Verifier<Txid>)
    returns (r: Result<nat, MempoolError>)
    requires Elements(order) <= entries.Keys
    modifies state
    ensures r == FeeAfterReplay(old(state.entries), entries, order, tx, height, verify)
  {
    hide FeeOf, Effect, Replay;
    ghost var u := state.entries;
    ReplayNothing(u, entries, order, height, verify);
    for i := 0 to |order|
      invariant Elements(order[..i]) <= entries.Keys
      invariant Replay(u, entries, order[..i], height, verify) == Success(state.entries)
    {
      ReplayNext(u, entries, order, height, verify, i, state.entries);
      var fee := state.ApplyNormalTransaction(entries[order[i]].tx, height, verify);
      if fee.Failure? {
        return Failure(Utxo(fee.error));
      }
      if fee.value != entries[order[i]].fee {
        return Failure(InvariantViolation);
      }
    }
    assert order[..|order|] == order;
    var fee := state.ApplyNormalTransaction(tx, height, verify);
    if fee.Failure? {
      return Failure(Utxo(fee.error));
    }
    return Success(fee.value);
  }

  // ----- Preparation -----

  method KeepOnly(order: seq<Txid>, ids: set<Txid>) returns (kept: seq<Txid>)
    ensures kept == Filtered(order, ids)
  {
    kept := [];
    for i := 0 to |order|
      invariant kept == Filtered(order[..i], ids)
    {
      assert order[..i + 1][..i] == order[..i];
      if order[i] in ids {
        kept := kept + [order[i]];
      }
    }
    assert order[..|order|] == order;
  }

  lemma ParentsInside(entries: Entries, utxos: Utxos<Txid>, inputs: seq<OutPoint<Txid>>)
    requires KeysMatch(entries) && DirectParents(entries, utxos, inputs, |inputs|).Success?
    ensures DirectParents(entries, utxos, inputs, |inputs|).value <= entries.Keys
    ensures UpClosure(entries, DirectParents(entries, utxos, inputs, |inputs|).value) <= entries.Keys
  {
    DirectParentsMean(entries, utxos, inputs, |inputs|);
  }

  lemma OrderCovers(entries: Entries, ids: set<Txid>)
    requires Symmetric(entries) && Acyclic(entries) && ids <= entries.Keys
    ensures Elements(Filtered(TheOrder(entries), ids)) == ids
    ensures |Filtered(TheOrder(entries), ids)| == |ids|
  {
    FilteredOnce(TheOrder(entries), ids);
    DistinctCount(Filtered(TheOrder(entries), ids));
  }

  /** Orders the ancestors, narrows the ledger to what they and the candidate can read, replays. */
  method CandidateFee(pool: Pool, tx: Tx<Txid>, ancestors: set<Txid>, utxos: Utxos<Txid>, height: nat,
                      verify: Verifier<Txid>)
    returns (r: Result<nat, MempoolError>)
    requires Valid(pool) && ancestors <= pool.entries.Keys
    ensures r == FeeAfterReplay(Narrowed(utxos, pool.entries, ancestors, tx), pool.entries,
                                Filtered(TheOrder(pool.entries), ancestors), tx, height, verify)
  {
    hide Valid, FeeAfterReplay, Narrowed, Symmetric, Acyclic, Filtered, LexLe;
    ValidLinks(pool);
    var full := TopologicalOrder(pool.entries);
    LeastOrderUnique(pool.entries, full.value, TheOrder(pool.entries));
    var order := KeepOnly(full.value, ancestors);
    OrderCovers(pool.entries, ancestors);
    if |order| != |ancestors| {
      return Failure(InvariantViolation);
    }
    var narrow := NarrowLedger(pool.entries, order, ancestors, tx, utxos);
    var state := new UtxoState(narrow);
    r := ReplayFee(state, pool.entries, order, tx, height, verify);
  }

  /** The whole preparation.  The closures, the order and the entry lookups cannot fail on a
      valid pool: their results are used without an error branch. */
  method PrepareAdmission(pool: Pool, tx: Tx<Txid>, base: ChainBase, utxos: Utxos<Txid>, verify: Verifier<Txid>)
    returns (r: Result<Candidate, MempoolError>)
    requires Valid(pool)
    ensures r == Prepare(pool, tx, base, utxos, verify)
  {
    hide Valid, FirstConflict, DirectParents, UpClosure, DescendantsFull, Filtered, FeeAfterReplay, Narrowed,
         CheckSkeleton, Symmetric, Acyclic;
    ValidLinks(pool);
    if base != pool.base {
      return Failure(StaleChainContext);
    }
    if base.tipHeight >= U64_MAX {
      return Failure(HeightOverflow);
    }
    var skeleton := CheckSkeleton(tx, NULL_TXID);
    if skeleton.Failure? {
      return Failure(Structural(skeleton.error));
    }
    if tx.txid in pool.entries {
      return Failure(AlreadyKnown(tx.txid));
    }
    var free := CheckConflicts(pool.spenders, tx.inputs);
    if free.Failure? {
      return Failure(free.error);
    }
    var parents := FindParents(pool.entries, utxos, tx.inputs);
    if parents.Failure? {
      return Failure(parents.error);
    }
    ParentsInside(pool.entries, utxos, tx.inputs);
    var ancestors := AncestorClosure(pool.entries, parents.value);
    if |ancestors.value| > pool.config.maxAncestors {
      return Failure(TooManyAncestors);
    }
    var room := CheckDescendants(pool, ancestors.value);
    if room.Failure? {
      return Failure(room.error);
    }
    var fee := CandidateFee(pool, tx, ancestors.value, utxos, base.tipHeight + 1, verify);
    if fee.Failure? {
      return Failure(fee.error);
    }
    return Success(Candidate(Entry(tx, fee.value, parents.value, {}), ancestors.value));
  }
}
