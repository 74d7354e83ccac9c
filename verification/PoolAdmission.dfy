/** Admission as a value: screening, parents, limits, the narrow replay, and the fee. */
module PoolAdmission {
  import opened Prelude
  import opened Ledger
  import opened PoolGraph
  import opened PoolClosure
  import opened PoolState
  import opened PoolCommit

  const NULL_TXID: Txid := 0

  // ----- Screening -----

  /** The first of the first `k` inputs that another entry already spends. */
  function FirstConflict(spenders: Spenders, inputs: seq<OutPoint<Txid>>, k: nat): Result<(), MempoolError>
    requires k <= |inputs|
  {
    if k == 0 then Success(())
    else
      var _ :- FirstConflict(spenders, inputs, k - 1);
      if inputs[k - 1] in spenders then Failure(Conflict(inputs[k - 1], spenders[inputs[k - 1]])) else Success(())
  }

  /** The pool parents among the first `k` inputs; inputs found on the chain have none. */
  function DirectParents(entries: Entries, utxos: Utxos<Txid>, inputs: seq<OutPoint<Txid>>, k: nat)
    : Result<set<Txid>, MempoolError>
    requires k <= |inputs|
  {
    if k == 0 then Success({})
    else
      var parents :- DirectParents(entries, utxos, inputs, k - 1);
      var o := inputs[k - 1];
      if o in utxos then Success(parents)
      else if o.txid !in entries then Failure(MissingDependency(o))
      else if o.index >= |entries[o.txid].tx.outputs| then Failure(InvalidParentOutput(o))
      else Success(parents + {entries[o.txid].tx.txid})
  }

  function Screen(pool: Pool, tx: Tx<Txid>, base: ChainBase): Result<(), MempoolError> {
    if base != pool.base then Failure(StaleChainContext)
    else if base.tipHeight >= U64_MAX then Failure(HeightOverflow)
    else if CheckSkeleton(tx, NULL_TXID).Failure? then Failure(Structural(CheckSkeleton(tx, NULL_TXID).error))
    else if tx.txid in pool.entries then Failure(AlreadyKnown(tx.txid))
    else FirstConflict(pool.spenders, tx.inputs, |tx.inputs|)
  }

  lemma {:induction false} NoConflict(spenders: Spenders, inputs: seq<OutPoint<Txid>>, k: nat)
    requires k <= |inputs|
    ensures FirstConflict(spenders, inputs, k).Success? <==> forall i | 0 <= i < k :: inputs[i] !in spenders
  {
    if k > 0 {
      NoConflict(spenders, inputs, k - 1);
    }
  }

  /** An input names an existing output of a pool entry. */
  ghost predicate NamesOutput(entries: Entries, o: OutPoint<Txid>) {
    o.txid in entries && o.index < |entries[o.txid].tx.outputs|
  }

  /** Exactly the transactions whose outputs are claimed and are not on the chain. */
  lemma {:induction false} DirectParentsMean(entries: Entries, utxos: Utxos<Txid>, inputs: seq<OutPoint<Txid>>, k: nat)
    requires k <= |inputs| && KeysMatch(entries)
    ensures DirectParents(entries, utxos, inputs, k).Success?
       <==> forall i | 0 <= i < k :: inputs[i] in utxos || NamesOutput(entries, inputs[i])
    ensures DirectParents(entries, utxos, inputs, k).Success? ==>
              DirectParents(entries, utxos, inputs, k).value == set i | 0 <= i < k && inputs[i] !in utxos ::
                    inputs[i].txid
  {
    if k > 0 {
      DirectParentsMean(entries, utxos, inputs, k - 1);
    }
  }

  // ----- Replay -----

  /** Applies the listed entries in order; each must cost the fee it was admitted with. */
  function Replay(u: Utxos<Txid>, entries: Entries, order: seq<Txid>, height: nat, verify: Verifier<Txid>)
    : Result<Utxos<Txid>, MempoolError>
    requires Elements(order) <= entries.Keys
  {
    if order == [] then Success(u)
    else
      var front, last := order[..|order| - 1], order[|order| - 1];
      assert forall t | t in front :: t in Elements(order);
      assert last in Elements(order);
      var before :- Replay(u, entries, front, height, verify);
      var fee := FeeOf(before, entries[last].tx, height, verify);
      if fee.Failure? then Failure(Utxo(fee.error))
      else if fee.value != entries[last].fee then Failure(InvariantViolation)
      else Success(Effect(before, entries[last].tx, height))
  }

  /** The chain outputs a replay of `ids` and the candidate can read. */
  ghost predicate Relevant(entries: Entries, ids: set<Txid>, tx: Tx<Txid>, o: OutPoint<Txid>)
    requires ids <= entries.Keys
  {
    || o in tx.inputs
    || (exists a :: a in ids && o in entries[a].tx.inputs)
    || o.txid in ids
    || o.txid == tx.txid
  }

  ghost function Narrowed(utxos: Utxos<Txid>, entries: Entries, ids: set<Txid>, tx: Tx<Txid>): Utxos<Txid>
    requires ids <= entries.Keys
  {
    map o | o in utxos && Relevant(entries, ids, tx, o) :: utxos[o]
  }

  ghost predicate AgreeOn(entries: Entries, ids: set<Txid>, tx: Tx<Txid>, u1: Utxos<Txid>, u2: Utxos<Txid>)
    requires ids <= entries.Keys
  {
    forall o | Relevant(entries, ids, tx, o) :: Get(u1, o) == Get(u2, o)
  }

  /** The fee depends only on the inputs and on the ids of the outputs. */
  lemma {:induction false} ScanAgrees(u1: Utxos<Txid>, u2: Utxos<Txid>, tx: Tx<Txid>, height: nat,
                                      verify: Verifier<Txid>, k: nat)
    requires k <= |tx.inputs|
    requires forall o | o in tx.inputs :: Get(u1, o) == Get(u2, o)
    ensures ScanInputs(u1, tx, height, verify, k) == ScanInputs(u2, tx, height, verify, k)
  {
    if k > 0 {
      ScanAgrees(u1, u2, tx, height, verify, k - 1);
      assert tx.inputs[k - 1] in tx.inputs;
      assert Get(u1, tx.inputs[k - 1]) == Get(u2, tx.inputs[k - 1]);
    }
  }

  lemma {:induction false} CheckAgrees(u1: Utxos<Txid>, u2: Utxos<Txid>, tx: Tx<Txid>, k: nat)
    requires k <= |tx.outputs|
    requires forall o: OutPoint<Txid> | o.txid == tx.txid :: Get(u1, o) == Get(u2, o)
    ensures CheckOutputs(u1, tx, k) == CheckOutputs(u2, tx, k)
  {
    if k > 0 {
      CheckAgrees(u1, u2, tx, k - 1);
      assert Get(u1, OutPoint(tx.txid, k - 1)) == Get(u2, OutPoint(tx.txid, k - 1));
    }
  }

  lemma FeeAgrees(u1: Utxos<Txid>, u2: Utxos<Txid>, tx: Tx<Txid>, height: nat, verify: Verifier<Txid>)
    requires forall o | o in tx.inputs :: Get(u1, o) == Get(u2, o)
    requires forall o: OutPoint<Txid> | o.txid == tx.txid :: Get(u1, o) == Get(u2, o)
    ensures FeeOf(u1, tx, height, verify) == FeeOf(u2, tx, height, verify)
  {
    ScanAgrees(u1, u2, tx, height, verify, |tx.inputs|);
    CheckAgrees(u1, u2, tx, |tx.outputs|);
  }

  lemma EffectAgrees(u1: Utxos<Txid>, u2: Utxos<Txid>, tx: Tx<Txid>, height: nat, o: OutPoint<Txid>)
    requires Get(u1, o) == Get(u2, o)
    ensures Get(Effect(u1, tx, height), o) == Get(Effect(u2, tx, height), o)
  {
  }

  lemma StepAgrees(entries: Entries, ids: set<Txid>, tx: Tx<Txid>, u1: Utxos<Txid>, u2: Utxos<Txid>,
                   t: Txid, height: nat, verify: Verifier<Txid>)
    requires ids <= entries.Keys && KeysMatch(entries) && t in ids
    requires AgreeOn(entries, ids, tx, u1, u2)
    ensures FeeOf(u1, entries[t].tx, height, verify) == FeeOf(u2, entries[t].tx, height, verify)
    ensures AgreeOn(entries, ids, tx, Effect(u1, entries[t].tx, height), Effect(u2, entries[t].tx, height))
  {
    var e := entries[t].tx;
    forall o | o in e.inputs
      ensures Get(u1, o) == Get(u2, o)
    {
      assert Relevant(entries, ids, tx, o);
    }
    forall o: OutPoint<Txid> | o.txid == e.txid
      ensures Get(u1, o) == Get(u2, o)
    {
      assert Relevant(entries, ids, tx, o);
    }
    FeeAgrees(u1, u2, e, height, verify);
    forall o | Relevant(entries, ids, tx, o)
      ensures Get(Effect(u1, e, height), o) == Get(Effect(u2, e, height), o)
    {
      EffectAgrees(u1, u2, e, height, o);
    }
  }

  /** Replaying on the narrow view and on the whole chain state is the same replay. */
  lemma {:induction false} ReplayAgrees(entries: Entries, ids: set<Txid>, tx: Tx<Txid>, u1: Utxos<Txid>,
                                        u2: Utxos<Txid>, order: seq<Txid>, height: nat, verify: Verifier<Txid>)
    requires ids <= entries.Keys && KeysMatch(entries) && Elements(order) <= ids
    requires AgreeOn(entries, ids, tx, u1, u2)
    ensures var r1, r2 := Replay(u1, entries, order, height, verify), Replay(u2, entries, order, height, verify);
            && (r1.Failure? ==> r2 == r1)
            && (r1.Success? ==> r2.Success? && AgreeOn(entries, ids, tx, r1.value, r2.value))
  {
    hide AgreeOn, FeeOf, Effect, KeysMatch;
    if order != [] {
      var front, last := order[..|order| - 1], order[|order| - 1];
      assert forall t | t in front :: t in Elements(order);
      assert last in Elements(order);
      ReplayAgrees(entries, ids, tx, u1, u2, front, height, verify);
      var r1, r2 := Replay(u1, entries, front, height, verify), Replay(u2, entries, front, height, verify);
      if r1.Success? {
        StepAgrees(entries, ids, tx, r1.value, r2.value, last, height, verify);
      }
    }
  }

  /** The fee after replaying the ancestors on `u`. */
  function FeeAfterReplay(u: Utxos<Txid>, entries: Entries, order: seq<Txid>, tx: Tx<Txid>, height: nat,
                          verify: Verifier<Txid>)
    : Result<nat, MempoolError>
    requires Elements(order) <= entries.Keys
  {
    var state :- Replay(u, entries, order, height, verify);
    var fee := FeeOf(state, tx, height, verify);
    if fee.Failure? then Failure(Utxo(fee.error)) else Success(fee.value)
  }

  lemma CandidateAgrees(entries: Entries, ids: set<Txid>, tx: Tx<Txid>, u1: Utxos<Txid>, u2: Utxos<Txid>,
                        height: nat, verify: Verifier<Txid>)
    requires ids <= entries.Keys && AgreeOn(entries, ids, tx, u1, u2)
    ensures FeeOf(u1, tx, height, verify) == FeeOf(u2, tx, height, verify)
  {
    forall o | o in tx.inputs || o.txid == tx.txid
      ensures Get(u1, o) == Get(u2, o)
    {
      assert Relevant(entries, ids, tx, o);
    }
    FeeAgrees(u1, u2, tx, height, verify);
  }

  /** The narrow replay of an admission refines the replay on the whole chain state: same fee,
      same error. */
  lemma NarrowReplayRefines(entries: Entries, ids: set<Txid>, tx: Tx<Txid>, utxos: Utxos<Txid>, order: seq<Txid>,
                            height: nat, verify: Verifier<Txid>)
    requires ids <= entries.Keys && KeysMatch(entries) && Elements(order) <= ids
    ensures FeeAfterReplay(Narrowed(utxos, entries, ids, tx), entries, order, tx, height, verify)
         == FeeAfterReplay(utxos, entries, order, tx, height, verify)
  {
    var narrow := Narrowed(utxos, entries, ids, tx);
    assert AgreeOn(entries, ids, tx, narrow, utxos);
    ReplayAgrees(entries, ids, tx, narrow, utxos, order, height, verify);
    var r1, r2 := Replay(narrow, entries, order, height, verify), Replay(utxos, entries, order, height, verify);
    if r1.Success? {
      CandidateAgrees(entries, ids, tx, r1.value, r2.value, height, verify);
    }
  }

  // ----- Preparation -----

  function Filtered(order: seq<Txid>, ids: set<Txid>): (kept: seq<Txid>)
    ensures Elements(kept) == Elements(order) * ids
  {
    if order == [] then []
    else
      var front, last := order[..|order| - 1], order[|order| - 1];
      assert order == front + [last];
      assert Elements(order) == Elements(front) + {last};
      if last in ids then
        assert Elements(Filtered(front, ids) + [last]) == Elements(Filtered(front, ids)) + {last};
        Filtered(front, ids) + [last]
      else Filtered(front, ids)
  }

  lemma {:induction false} FilteredOnce(order: seq<Txid>, ids: set<Txid>)
    requires NoRepeats(order)
    ensures NoRepeats(Filtered(order, ids))
  {
    if order != [] {
      var front, last := order[..|order| - 1], order[|order| - 1];
      FilteredOnce(front, ids);
      LastIsNew(order);
      var kept := Filtered(front, ids);
      assert forall i | 0 <= i < |kept| :: kept[i] in Elements(kept);
    }
  }

  ghost predicate DescendantsFull(pool: Pool, ancestors: set<Txid>) {
    exists a :: a in ancestors && |DescendantsOf(pool.entries, a)| + 1 > pool.config.maxDescendants
  }

  /** The candidate entry with its ancestors, or why the transaction is refused. */
  ghost function Prepare(pool: Pool, tx: Tx<Txid>, base: ChainBase, utxos: Utxos<Txid>, verify: Verifier<Txid>)
    : Result<Candidate, MempoolError>
    requires Valid(pool)
  {
    var _ :- Screen(pool, tx, base);
    var parents :- DirectParents(pool.entries, utxos, tx.inputs, |tx.inputs|);
    var ancestors := UpClosure(pool.entries, parents);
    if |ancestors| > pool.config.maxAncestors then Failure(TooManyAncestors)
    else if DescendantsFull(pool, ancestors) then Failure(TooManyDescendants)
    else
      var order := Filtered(TheOrder(pool.entries), ancestors);
      var fee :- FeeAfterReplay(Narrowed(utxos, pool.entries, ancestors, tx), pool.entries, order, tx,
                                base.tipHeight + 1, verify);
      Success(Candidate(Entry(tx, fee, parents, {}), ancestors))
  }

  /** A prepared candidate satisfies everything a commit relies on. */
  lemma PreparedIsOk(pool: Pool, tx: Tx<Txid>, base: ChainBase, utxos: Utxos<Txid>, verify: Verifier<Txid>)
    requires Valid(pool)
    ensures Prepare(pool, tx, base, utxos, verify).Success?
        ==> CandidateOk(pool, Prepare(pool, tx, base, utxos, verify).value)
  {
    hide GraphOk, ClosureBounds, SpendersExact, Bytes, FeeAfterReplay, Narrowed, UpClosure, TheOrder;
    var r := Prepare(pool, tx, base, utxos, verify);
    if r.Success? {
      NoConflict(pool.spenders, tx.inputs, |tx.inputs|);
      DirectParentsMean(pool.entries, utxos, tx.inputs, |tx.inputs|);
      var parents := r.value.entry.parents;
      forall p | p in parents
        ensures p in pool.entries
        ensures exists o :: o in tx.inputs && o.txid == p && o.index < |pool.entries[p].tx.outputs|
      {
        var i :| 0 <= i < |tx.inputs| && tx.inputs[i] !in utxos && tx.inputs[i].txid == p;
        assert NamesOutput(pool.entries, tx.inputs[i]);
      }
    }
  }
}
