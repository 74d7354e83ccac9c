/** When a pool that agrees with the chain state takes a transaction, and why it does not. */
module PoolAgreement {
  import opened Prelude
  import opened Ledger
  import opened LedgerTotals
  import opened PoolGraph
  import opened PoolClosure
  import opened PoolState
  import opened PoolCommit
  import opened PoolAdmission
  import opened PoolReplay
  import opened PoolJoin
  import opened PoolRebuild

  // ----- Reasons -----

  /** The transactions off the chain whose outputs it spends. */
  ghost function Producers(u: Utxos<Txid>, tx: Tx<Txid>): set<Txid> {
    set o | o in tx.inputs && o !in u :: o.txid
  }

  /** Its ancestors in the pool. */
  ghost function AncestorsFor(pool: Pool, u: Utxos<Txid>, tx: Tx<Txid>): set<Txid> {
    UpClosure(pool.entries, Producers(u, tx))
  }

  ghost predicate MissesInput(pool: Pool, u: Utxos<Txid>, tx: Tx<Txid>) {
    exists o :: o in tx.inputs && o !in u && !NamesOutput(pool.entries, o)
  }

  ghost predicate ExceedsLimits(pool: Pool, u: Utxos<Txid>, tx: Tx<Txid>) {
    || |AncestorsFor(pool, u, tx)| > pool.config.maxAncestors
    || exists a :: a in AncestorsFor(pool, u, tx) && |DescendantsOf(pool.entries, a)| + 1 > pool.config.maxDescendants
  }

  /** On the ledger that the chain and its ancestors leave, it may not be applied. */
  ghost predicate CannotApply(pool: Pool, u: Utxos<Txid>, tx: Tx<Txid>, height: nat, verify: Verifier<Txid>) {
    exists state :: Reflects(state, u, pool.entries, AncestorsFor(pool, u, tx), height)
        && !Applicable(state, tx, height, verify)
  }

  /** Why a transaction does not fit: it is malformed, an input is neither on the chain nor an output of
      an entry, a closure limit is in the way, or it may not be applied after its ancestors. */
  ghost predicate Reason(pool: Pool, u: Utxos<Txid>, tx: Tx<Txid>, height: nat, verify: Verifier<Txid>) {
    || CheckSkeleton(tx, NULL_TXID).Failure?
    || MissesInput(pool, u, tx)
    || ExceedsLimits(pool, u, tx)
    || CannotApply(pool, u, tx, height, verify)
  }

  lemma ReflectsOnce(a: Utxos<Txid>, b: Utxos<Txid>, u: Utxos<Txid>, entries: Entries, ids: set<Txid>, height: nat)
    requires Reflects(a, u, entries, ids, height) && Reflects(b, u, entries, ids, height)
    ensures a == b
  {
    hide After;
    SameMap(a, b);
  }

  lemma ParentsAreProducers(entries: Entries, u: Utxos<Txid>, tx: Tx<Txid>)
    requires KeysMatch(entries)
    ensures var r := DirectParents(entries, u, tx.inputs, |tx.inputs|);
            && (r.Success? <==> forall o | o in tx.inputs && o !in u :: NamesOutput(entries, o))
            && (r.Success? ==> r.value == Producers(u, tx) && r.value <= entries.Keys)
  {
    hide NamesOutput;
    DirectParentsMean(entries, u, tx.inputs, |tx.inputs|);
    var r := DirectParents(entries, u, tx.inputs, |tx.inputs|);
    if r.Success? {
      ParentsNamed(entries, u, tx.inputs);
    }
    if forall o | o in tx.inputs && o !in u :: NamesOutput(entries, o) {
      assert forall i | 0 <= i < |tx.inputs| :: tx.inputs[i] in tx.inputs;
    }
  }

  /** The screen of an admission. */
  ghost predicate Admissible(pool: Pool, tx: Tx<Txid>, base: ChainBase) {
    && base == pool.base && base.tipHeight < U64_MAX
    && tx.txid !in pool.entries && forall o | o in tx.inputs :: o !in pool.spenders
  }

  lemma ScreenMeans(pool: Pool, tx: Tx<Txid>, base: ChainBase)
    ensures Screen(pool, tx, base).Success? <==> Admissible(pool, tx, base) && CheckSkeleton(tx, NULL_TXID).Success?
  {
    hide CheckSkeleton;
    NoConflict(pool.spenders, tx.inputs, |tx.inputs|);
    assert forall i | 0 <= i < |tx.inputs| :: tx.inputs[i] in tx.inputs;
  }

  /** What is prepared: the transaction with its exact parents, its ancestors, and as its fee what it
      spends beyond what it makes. */
  ghost predicate PreparedAs(pool: Pool, u: Utxos<Txid>, tx: Tx<Txid>, cand: Candidate, state: Utxos<Txid>) {
    && cand.entry == Entry(tx, cand.entry.fee, Producers(u, tx), {})
    && cand.ancestors == AncestorsFor(pool, u, tx)
    && cand.entry.fee + Total(Made(tx)) == Total(Named(state, tx.inputs))
  }

  /** A transaction that is not known and conflicts with nothing is prepared if and only if there is no
      reason against it. */
  lemma PrepareExact(pool: Pool, tx: Tx<Txid>, base: ChainBase, u: Utxos<Txid>, verify: Verifier<Txid>)
    returns (state: Utxos<Txid>)
    requires Valid(pool) && PoolOk(u, pool.entries, base.tipHeight + 1, verify)
    ensures var r := Prepare(pool, tx, base, u, verify);
            && (r.Success? <==> Admissible(pool, tx, base) && !Reason(pool, u, tx, base.tipHeight + 1, verify))
            && (r.Success? ==>
                  && PreparedAs(pool, u, tx, r.value, state)
                  && Reflects(state, u, pool.entries, AncestorsFor(pool, u, tx), base.tipHeight + 1))
  {
    hide Valid, PoolOk, Screen, UpClosure, FeeAfterReplay, Narrowed, Reflects, FeeOf, TheOrder, DirectParents,
         NamesOutput, GraphOk, Filtered, Symmetric, Acyclic, KeysMatch, SpendersExact, IsTopological, Greedy,
             Applicable, Total, Named, Made, CheckSkeleton, Admissible, Producers, DescendantsOf;
    var height := base.tipHeight + 1;
    ValidFacts(pool);
    ScreenMeans(pool, tx, base);
    ParentsAreProducers(pool.entries, u, tx);
    state := map[];
    var parents := DirectParents(pool.entries, u, tx.inputs, |tx.inputs|);
    if parents.Success? {
      state := ReplayDecides(pool, tx, parents.value, u, height, verify);
      FeeMeans(state, tx, height, verify);
      forall other | Reflects(other, u, pool.entries, AncestorsFor(pool, u, tx), height)
        ensures other == state
      {
        ReflectsOnce(other, state, u, pool.entries, AncestorsFor(pool, u, tx), height);
      }
    }
  }
}
