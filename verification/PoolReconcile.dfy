/** Reconciling the pool with a new active block or after a reorganization. */
module PoolReconcile {
  import opened Prelude
  import opened Ledger
  import opened PoolGraph
  import opened PoolState
  import opened PoolAdmission
  import opened PoolCapacity
  import opened PoolReplay
  import opened PoolRebuild

  lemma PartialWidens(former: Pool, pool: Pool, done: set<Txid>, base: ChainBase, utxos: Utxos<Txid>,
                      verify: Verifier<Txid>, t: Txid)
    requires Partial(former, pool, done, base, utxos, verify) && t in former.entries
    ensures Partial(former, pool, done + {t}, base, utxos, verify)
  {
    hide Valid, PoolOk;
  }

  lemma HeightStops(former: Pool, pool: Pool, done: set<Txid>, base: ChainBase, utxos: Utxos<Txid>,
                    verify: Verifier<Txid>, t: Txid)
    requires Partial(former, pool, done, base, utxos, verify) && t in former.entries && base.tipHeight >= U64_MAX
    ensures Valid(pool) && Admit(pool, former.entries[t].tx, base, utxos, verify) == Failure(HeightOverflow)
  {
    hide Valid, PoolOk;
  }

  lemma ReadmitOutcome(former: Pool, pool: Pool, done: set<Txid>, base: ChainBase, utxos: Utxos<Txid>,
                       verify: Verifier<Txid>, t: Txid)
    requires Partial(former, pool, done, base, utxos, verify) && t in former.entries && t !in done
    ensures Valid(pool)
    ensures var r := Readmit(pool, former.entries[t].tx, base, utxos, verify);
            && (r.Failure? <==> base.tipHeight >= U64_MAX)
            && (r.Failure? ==> r.error == HeightOverflow)
            && (r.Success? ==> Partial(former, r.value, done + {t}, base, utxos, verify))
  {
    hide Partial, Admit, Valid;
    PartialFacts(former, pool, done, base, utxos, verify, t);
    if base.tipHeight < U64_MAX {
      RebuildStep(former, pool, done, base, utxos, verify, t);
      PartialWidens(former, pool, done, base, utxos, verify, t);
    } else {
      HeightStops(former, pool, done, base, utxos, verify, t);
    }
  }

  lemma EmptyIsPartial(former: Pool, base: ChainBase, utxos: Utxos<Txid>, verify: Verifier<Txid>)
    requires Valid(former) && Valid(EmptyPool(base, former.config))
    ensures Partial(former, EmptyPool(base, former.config), {}, base, utxos, verify)
  {
  }

  /** The rebuild from the empty pool fails exactly when there is something to admit and no next
      height; otherwise every listed entry is carried over unchanged or dropped, and the new pool
      agrees with the new chain state. */
  lemma {:induction false} RebuildSucceeds(former: Pool, ids: seq<Txid>, base: ChainBase, utxos: Utxos<Txid>,
                                           verify: Verifier<Txid>)
    requires Valid(former) && NoRepeats(ids) && Elements(ids) <= former.entries.Keys
    requires Valid(EmptyPool(base, former.config))
    ensures var r := Rebuild(EmptyPool(base, former.config), former.entries, ids, base, utxos, verify);
            && (r.Failure? <==> ids != [] && base.tipHeight >= U64_MAX)
            && (r.Failure? ==> r.error == HeightOverflow)
            && (r.Success? ==> Partial(former, r.value, Elements(ids), base, utxos, verify))
  {
    hide Partial, Readmit, Valid, NoRepeats;
    if ids == [] {
      EmptyIsPartial(former, base, utxos, verify);
      assert Elements(ids) == {};
    } else {
      var front, last := ids[..|ids| - 1], ids[|ids| - 1];
      LastIsNew(ids);
      assert ids == front + [last];
      ElementsSnoc(front, last);
      RebuildSucceeds(former, front, base, utxos, verify);
      var before := Rebuild(EmptyPool(base, former.config), former.entries, front, base, utxos, verify);
      if before.Success? {
        ReadmitOutcome(former, before.value, Elements(front), base, utxos, verify, last);
      }
    }
  }

  // ----- A new active block -----

  function Confirmed(block: seq<Tx<Txid>>): set<Txid> {
    set tx | tx in block :: tx.txid
  }

  function SpentBy(block: seq<Tx<Txid>>): set<OutPoint<Txid>> {
    set tx, o | tx in block && o in tx.inputs :: o
  }

  /** The entries outside `confirmed` that spend one of the outpoints. */
  function Displaced(pool: Pool, confirmed: set<Txid>, outpoints: set<OutPoint<Txid>>): set<Txid> {
    set o | o in outpoints && o in pool.spenders && pool.spenders[o] !in confirmed :: pool.spenders[o]
  }

  /** The displaced entries and their descendants. */
  ghost function ExcludedFor(pool: Pool, confirmed: set<Txid>, outpoints: set<OutPoint<Txid>>): set<Txid> {
    var displaced := Displaced(pool, confirmed, outpoints);
    displaced + set t | t in pool.entries && exists root :: root in displaced && Reaches(pool.entries, root, t)
  }

  ghost function Excluded(pool: Pool, block: seq<Tx<Txid>>): set<Txid> {
    ExcludedFor(pool, Confirmed(block), SpentBy(block))
  }

  /** The entries a rebuild after `block` starts from, parents first. */
  ghost function Remaining(pool: Pool, block: seq<Tx<Txid>>): (ids: seq<Txid>)
    requires Valid(pool)
    ensures NoRepeats(ids)
    ensures Elements(ids) == pool.entries.Keys - Confirmed(block) - Excluded(pool, block)
  {
    var keep := pool.entries.Keys - Confirmed(block) - Excluded(pool, block);
    FilteredOnce(TheOrder(pool.entries), keep);
    Filtered(TheOrder(pool.entries), keep)
  }

  datatype Reconciled = Reconciled(pool: Pool, removed: set<Txid>, retained: nat)

  ghost function Rebase(pool: Pool, ids: seq<Txid>, base: ChainBase, utxos: Utxos<Txid>, verify: Verifier<Txid>)
    : Result<Reconciled, MempoolError>
    requires Valid(pool) && Elements(ids) <= pool.entries.Keys
  {
    EmptyPoolValid(base, pool.config);
    var rebuilt :- Rebuild(EmptyPool(base, pool.config), pool.entries, ids, base, utxos, verify);
    Success(Reconciled(rebuilt, pool.entries.Keys - rebuilt.entries.Keys, |rebuilt.entries|))
  }

  ghost function ReconcileBlock(pool: Pool, block: seq<Tx<Txid>>, base: ChainBase, utxos: Utxos<Txid>,
                                verify: Verifier<Txid>)
    : Result<Reconciled, MempoolError>
    requires Valid(pool)
  {
    Rebase(pool, Remaining(pool, block), base, utxos, verify)
  }

  ghost function ReconcileReorg(pool: Pool, base: ChainBase, utxos: Utxos<Txid>, verify: Verifier<Txid>)
    : Result<Reconciled, MempoolError>
    requires Valid(pool)
  {
    Rebase(pool, TheOrder(pool.entries), base, utxos, verify)
  }

  /** What every successful reconciliation leaves: a valid pool on the new base that holds old
      transactions only, each with the fee it pays on the new chain; retained and removed
      partition the old entries. */
  ghost predicate Rebased(pool: Pool, kept: set<Txid>, base: ChainBase, utxos: Utxos<Txid>, verify: Verifier<Txid>,
                          r: Reconciled) {
    && Valid(r.pool) && r.pool.base == base && r.pool.config == pool.config
    && r.pool.entries.Keys <= kept
    && (forall t | t in r.pool.entries :: t in pool.entries && r.pool.entries[t].tx == pool.entries[t].tx)
    && r.pool.entries.Keys !! r.removed && r.pool.entries.Keys + r.removed == pool.entries.Keys
    && r.retained == |r.pool.entries|
    && PoolOk(utxos, r.pool.entries, base.tipHeight + 1, verify)
  }

  lemma PartialIsRebased(pool: Pool, rebuilt: Pool, kept: set<Txid>, base: ChainBase, utxos: Utxos<Txid>,
                         verify: Verifier<Txid>)
    requires Partial(pool, rebuilt, kept, base, utxos, verify)
    ensures Rebased(pool, kept, base, utxos, verify,
                    Reconciled(rebuilt, pool.entries.Keys - rebuilt.entries.Keys, |rebuilt.entries|))
  {
    hide Valid, PoolOk;
    assert rebuilt.entries.Keys + (pool.entries.Keys - rebuilt.entries.Keys) == pool.entries.Keys;
  }

  lemma ConfigIsOk(pool: Pool)
    requires Valid(pool)
    ensures ConfigOk(pool.config)
  {
  }

  lemma RebaseOutcome(pool: Pool, ids: seq<Txid>, base: ChainBase, utxos: Utxos<Txid>, verify: Verifier<Txid>)
    requires Valid(pool) && NoRepeats(ids) && Elements(ids) <= pool.entries.Keys
    ensures var r := Rebase(pool, ids, base, utxos, verify);
            && (r.Failure? <==> ids != [] && base.tipHeight >= U64_MAX)
            && (r.Failure? ==> r.error == HeightOverflow)
            && (r.Success? ==> Rebased(pool, Elements(ids), base, utxos, verify, r.value))
  {
    hide Valid, Rebuild, Partial, Rebased, NoRepeats;
    EmptyPoolValid(base, pool.config) by {
      ConfigIsOk(pool);
    }
    RebuildSucceeds(pool, ids, base, utxos, verify);
    var rebuilt := Rebuild(EmptyPool(base, pool.config), pool.entries, ids, base, utxos, verify);
    if rebuilt.Success? {
      PartialIsRebased(pool, rebuilt.value, Elements(ids), base, utxos, verify);
    }
  }

  lemma RebasedKeys(pool: Pool, kept: set<Txid>, base: ChainBase, utxos: Utxos<Txid>, verify: Verifier<Txid>,
                    r: Reconciled)
    requires Rebased(pool, kept, base, utxos, verify, r)
    ensures forall t | t in r.pool.entries ::
              t in kept && t in pool.entries && r.pool.entries[t].tx == pool.entries[t].tx
    ensures Rebased(pool, pool.entries.Keys, base, utxos, verify, r)
  {
    hide Valid, PoolOk;
  }

  lemma NothingListed(ids: seq<Txid>)
    ensures ids == [] <==> Elements(ids) == {}
  {
    if ids != [] {
      assert ids[0] in Elements(ids);
    }
  }

  /** An entry outside the block that is not displaced spends nothing the block spends. */
  lemma SpendersStay(pool: Pool, block: seq<Tx<Txid>>, t: Txid, o: OutPoint<Txid>)
    requires Valid(pool) && t in pool.entries && o in pool.entries[t].tx.inputs
    requires t !in Confirmed(block) && t !in Excluded(pool, block)
    ensures o !in SpentBy(block)
  {
    hide GraphOk, ClosureBounds, Reaches, Confirmed, SpentBy;
    assert pool.spenders[o] == t;
  }

  /** After an active block no retained entry is in the block or spends what the block spends. */
  lemma ReconcileBlockOutcome(pool: Pool, block: seq<Tx<Txid>>, base: ChainBase, utxos: Utxos<Txid>,
                              verify: Verifier<Txid>)
    requires Valid(pool)
    ensures var r := ReconcileBlock(pool, block, base, utxos, verify);
            && (r.Failure? <==>
                  && base.tipHeight >= U64_MAX
                  && !(pool.entries.Keys <= Confirmed(block) + Excluded(pool, block)))
            && (r.Failure? ==> r.error == HeightOverflow)
            && (r.Success? ==>
                  && Rebased(pool, pool.entries.Keys, base, utxos, verify, r.value)
                  && forall t | t in r.value.pool.entries ::
                       t !in Confirmed(block) && forall o | o in r.value.pool.entries[t].tx.inputs ::
                             o !in SpentBy(block))
  {
    hide Valid, Rebased, Excluded, Confirmed, SpentBy, Rebase, NoRepeats, Elements, Remaining;
    var ids := Remaining(pool, block);
    RebaseOutcome(pool, ids, base, utxos, verify);
    var r := ReconcileBlock(pool, block, base, utxos, verify);
    NothingListed(ids);
    if r.Success? {
      RebasedKeys(pool, Elements(ids), base, utxos, verify, r.value);
      forall t, o | t in r.value.pool.entries && o in pool.entries[t].tx.inputs
        ensures o !in SpentBy(block)
      {
        SpendersStay(pool, block, t, o);
      }
    }
  }

  /** After a reorganization the same holds of every old entry. */
  lemma ReconcileReorgOutcome(pool: Pool, base: ChainBase, utxos: Utxos<Txid>, verify: Verifier<Txid>)
    requires Valid(pool)
    ensures var r := ReconcileReorg(pool, base, utxos, verify);
            && (r.Failure? <==> base.tipHeight >= U64_MAX && pool.entries != map[])
            && (r.Failure? ==> r.error == HeightOverflow)
            && (r.Success? ==> Rebased(pool, pool.entries.Keys, base, utxos, verify, r.value))
  {
    hide PoolOk, Rebase, Rebased, LexLe;
    var ids := TheOrder(pool.entries);
    RebaseOutcome(pool, ids, base, utxos, verify);
    NothingListed(ids);
    assert pool.entries == map[] <==> pool.entries.Keys == {};
  }
}
