/** Rebuilding the pool against a new chain state: nothing is evicted, nothing conflicts, and the
    only error that can stop it is the height overflow. */
module PoolRebuild {
  import opened Prelude
  import opened Ledger
  import opened PoolGraph
  import opened PoolClosure
  import opened PoolState
  import opened PoolCommit
  import opened PoolAdmission
  import opened PoolCapacity
  import opened PoolReplay
  import opened PoolJoin

  predicate Filterable(e: MempoolError) {
    e.MissingDependency? || e.InvalidParentOutput? || e.TooManyAncestors? || e.TooManyDescendants?
    || e.CapacityRejected? || e.Structural? || e.Utxo?
  }

  /** Admits a transaction if it still fits, skips it if it does not. */
  ghost function Readmit(pool: Pool, tx: Tx<Txid>, base: ChainBase, utxos: Utxos<Txid>, verify: Verifier<Txid>)
    : (r: Result<Pool, MempoolError>)
    requires Valid(pool)
    ensures r.Success? ==> Valid(r.value)
  {
    AdmitKeepsValid(pool, tx, base, utxos, verify);
    var r := Admit(pool, tx, base, utxos, verify);
    if r.Success? then Success(r.value.pool)
    else if Filterable(r.error) then Success(pool)
    else Failure(r.error)
  }

  /** Readmits the listed entries' transactions one by one. */
  ghost function Rebuild(pool: Pool, source: Entries, ids: seq<Txid>, base: ChainBase, utxos: Utxos<Txid>,
                         verify: Verifier<Txid>)
    : (r: Result<Pool, MempoolError>)
    requires Valid(pool) && Elements(ids) <= source.Keys
    ensures r.Success? ==> Valid(r.value)
  {
    if ids == [] then Success(pool)
    else
      var front, last := ids[..|ids| - 1], ids[|ids| - 1];
      assert forall t | t in front :: t in Elements(ids);
      assert last in Elements(ids);
      var before :- Rebuild(pool, source, front, base, utxos, verify);
      Readmit(before, source[last].tx, base, utxos, verify)
  }

  ghost predicate Carries(former: Entries, entries: Entries, done: set<Txid>) {
    && entries.Keys <= done <= former.Keys
    && forall t | t in entries :: entries[t].tx == former[t].tx
  }

  /** The pool so far holds some of the old transactions in `done`, unchanged, and agrees with the
      new chain state. */
  ghost predicate Partial(former: Pool, pool: Pool, done: set<Txid>, base: ChainBase, utxos: Utxos<Txid>,
                          verify: Verifier<Txid>) {
    && Valid(former) && Valid(pool)
    && pool.config == former.config && pool.base == base
    && Carries(former.entries, pool.entries, done)
    && PoolOk(utxos, pool.entries, base.tipHeight + 1, verify)
  }

  lemma CarriesMeans(former: Entries, entries: Entries, done: set<Txid>)
    requires Carries(former, entries, done)
    ensures entries.Keys <= former.Keys
    ensures forall t | t in entries :: entries[t].tx == former[t].tx
  {
  }

  lemma CarriesGrows(former: Entries, entries: Entries, done: set<Txid>, candidate: Entry)
    requires Carries(former, entries, done) && candidate.tx.txid !in entries
    requires candidate.tx.txid in former && candidate.tx == former[candidate.tx.txid].tx
    ensures Carries(former, CommittedEntries(entries, candidate, {}), done + {candidate.tx.txid})
    ensures CommittedEntries(entries, candidate, {}).Keys == entries.Keys + {candidate.tx.txid}
  {
    hide CommittedEntries;
    CommittedKeys(entries, candidate, {});
  }

  // ----- Screening never reports a conflict -----

  lemma ClaimsAreFree(former: Pool, pool: Pool, t: Txid)
    requires SpendersExact(former.entries, former.spenders) && SpendersExact(pool.entries, pool.spenders)
    requires forall s | s in pool.entries :: s in former.entries && pool.entries[s].tx == former.entries[s].tx
    requires t in former.entries && t !in pool.entries
    ensures forall o | o in former.entries[t].tx.inputs :: o !in pool.spenders
  {
    forall o | o in pool.spenders
      ensures o in former.spenders && former.spenders[o] == pool.spenders[o]
    {
      var s := pool.spenders[o];
      assert s in former.entries && o in former.entries[s].tx.inputs;
    }
  }

  // ----- There is always room -----

  lemma RoomIsLeft(former: Pool, pool: Pool, cand: Candidate)
    requires Valid(former) && Valid(pool) && pool.config == former.config
    requires pool.entries.Keys <= former.entries.Keys
    requires forall s | s in pool.entries :: pool.entries[s].tx == former.entries[s].tx
    requires cand.entry.tx.txid in former.entries && cand.entry.tx.txid !in pool.entries
    requires cand.entry.tx == former.entries[cand.entry.tx.txid].tx
    ensures pool.totalBytes + cand.entry.tx.size <= USIZE_MAX && RoomFor(pool, cand, {})
  {
    hide GraphOk, ClosureBounds, SpendersExact, Bytes;
    var t, keys := cand.entry.tx.txid, pool.entries.Keys;
    BytesAgree(pool.entries, former.entries, keys);
    BytesRemove(former.entries, keys + {t}, t);
    assert (keys + {t}) - {t} == keys;
    BytesSubset(former.entries, keys + {t}, former.entries.Keys);
    SubsetCount(keys + {t}, former.entries.Keys);
    NoBytes(pool.entries);
  }

  // ----- The replay cannot contradict a recorded fee -----

  lemma AppendFirst(entries: Entries, order: seq<Txid>, t: Txid)
    requires ParentsFirst(entries, order) && t in entries && t !in Elements(order)
             && entries[t].parents <= Elements(order)
    ensures ParentsFirst(entries, order + [t])
  {
    ElementsSnoc(order, t);
    var next := order + [t];
    forall i | 0 <= i < |next|
      ensures entries[next[i]].parents <= Elements(next[..i])
    {
      assert next[..i] == order[..i];
      if i == |order| {
        assert order[..i] == order;
      }
    }
  }

  lemma AncestorsClosed(entries: Entries, parents: set<Txid>, t: Txid)
    requires Symmetric(entries) && t in UpClosure(entries, parents)
    ensures t in entries && entries[t].parents <= UpClosure(entries, parents)
  {
    forall p | p in entries[t].parents
      ensures p in UpClosure(entries, parents)
    {
      AboveParent(entries, parents, t, p);
    }
  }

  lemma {:induction false} FilteredFirst(entries: Entries, parents: set<Txid>, full: seq<Txid>, k: nat)
    requires Symmetric(entries) && IsTopological(entries, full) && k <= |full|
    ensures ParentsFirst(entries, Filtered(full[..k], UpClosure(entries, parents)))
  {
    hide LexLe, UpClosure;
    var ids := UpClosure(entries, parents);
    if k > 0 {
      FilteredFirst(entries, parents, full, k - 1);
      var front, last := full[..k - 1], full[k - 1];
      assert full[..k][..k - 1] == front;
      var kept := Filtered(front, ids);
      if last in ids {
        AncestorsClosed(entries, parents, last);
        assert last !in Elements(front);
        AppendFirst(entries, kept, last);
      }
    }
  }

  lemma AncestorOrder(entries: Entries, parents: set<Txid>)
    requires Symmetric(entries) && Acyclic(entries) && parents <= entries.Keys
    ensures var order := Filtered(TheOrder(entries), UpClosure(entries, parents));
            ParentsFirst(entries, order) && Elements(order) == UpClosure(entries, parents)
  {
    hide LexLe;
    var ids := UpClosure(entries, parents);
    var full := TheOrder(entries);
    assert Elements(full) * ids == ids;
    FilteredFirst(entries, parents, full, |full|);
    assert full[..|full|] == full;
  }

  lemma PoolKeysMatch(utxos: Utxos<Txid>, entries: Entries, height: nat, verify: Verifier<Txid>)
    requires PoolOk(utxos, entries, height, verify)
    ensures KeysMatch(entries)
  {
  }

  lemma UpClosureInside(entries: Entries, parents: set<Txid>)
    ensures UpClosure(entries, parents) <= entries.Keys
  {
  }

  /** The replay of the ancestors succeeds on the narrow view, so the candidate's own fee decides. */
  lemma ReplayDecides(pool: Pool, tx: Tx<Txid>, parents: set<Txid>, utxos: Utxos<Txid>, height: nat,
                      verify: Verifier<Txid>)
    returns (state: Utxos<Txid>)
    requires GraphOk(pool.entries) && PoolOk(utxos, pool.entries, height, verify) && parents <= pool.entries.Keys
    ensures var ids := UpClosure(pool.entries, parents);
            var fee := FeeOf(state, tx, height, verify);
            && Reflects(state, utxos, pool.entries, ids, height)
            && FeeAfterReplay(Narrowed(utxos, pool.entries, ids, tx), pool.entries,
                              Filtered(TheOrder(pool.entries), ids), tx, height, verify)
               == if fee.Failure? then Failure(Utxo(fee.error)) else Success(fee.value)
  {
    hide PoolOk, Reflects, FeeOf, Narrowed, UpClosure, ParentsFirst;
    var ids := UpClosure(pool.entries, parents);
    var order := Filtered(TheOrder(pool.entries), ids);
    AncestorOrder(pool.entries, parents);
    UpClosureInside(pool.entries, parents);
    NarrowReplayRefines(pool.entries, ids, tx, utxos, order, height, verify) by {
      PoolKeysMatch(utxos, pool.entries, height, verify);
    }
    ReplaySucceeds(utxos, pool.entries, order, height, verify);
    state := Replay(utxos, pool.entries, order, height, verify).value;
  }

  // ----- One step of the rebuild -----

  predicate RebuildError(e: MempoolError) {
    e.MissingDependency? || e.InvalidParentOutput? || e.TooManyAncestors? || e.TooManyDescendants? || e.Structural?
        || e.Utxo?
  }

  lemma {:induction false} ParentErrors(entries: Entries, utxos: Utxos<Txid>, inputs: seq<OutPoint<Txid>>, k: nat)
    requires k <= |inputs|
    ensures DirectParents(entries, utxos, inputs, k).Failure? ==>
              RebuildError(DirectParents(entries, utxos, inputs, k).error)
  {
    if k > 0 {
      ParentErrors(entries, utxos, inputs, k - 1);
    }
  }

  /** Screening an old transaction against a rebuilt pool can only find a structural fault. */
  lemma ScreenPasses(former: Pool, pool: Pool, done: set<Txid>, base: ChainBase, utxos: Utxos<Txid>,
                     verify: Verifier<Txid>, t: Txid)
    requires Partial(former, pool, done, base, utxos, verify) && base.tipHeight < U64_MAX
    requires t in former.entries && t !in done
    ensures Screen(pool, former.entries[t].tx, base).Failure? ==>
              Screen(pool, former.entries[t].tx, base).error.Structural?
  {
    hide GraphOk, ClosureBounds, Bytes, PoolOk, CheckSkeleton;
    ClaimsAreFree(former, pool, t);
    NoConflict(pool.spenders, former.entries[t].tx.inputs, |former.entries[t].tx.inputs|);
  }

  lemma ParentsNamed(entries: Entries, utxos: Utxos<Txid>, inputs: seq<OutPoint<Txid>>)
    requires KeysMatch(entries) && DirectParents(entries, utxos, inputs, |inputs|).Success?
    ensures var parents := DirectParents(entries, utxos, inputs, |inputs|).value;
            && parents <= entries.Keys
            && forall o | o in inputs && o !in utxos :: NamesOutput(entries, o) && o.txid in parents
  {
    DirectParentsMean(entries, utxos, inputs, |inputs|);
  }

  /** Preparing an old transaction against an agreeing pool. */
  lemma PrepareOutcome(pool: Pool, tx: Tx<Txid>, base: ChainBase, utxos: Utxos<Txid>, verify: Verifier<Txid>)
    returns (state: Utxos<Txid>)
    requires Valid(pool) && PoolOk(utxos, pool.entries, base.tipHeight + 1, verify)
    requires Screen(pool, tx, base).Failure? ==> Screen(pool, tx, base).error.Structural?
    ensures var r := Prepare(pool, tx, base, utxos, verify);
            && (r.Failure? ==> RebuildError(r.error))
            && (r.Success? ==>
                  && r.value.entry.tx == tx
                  && Settled(utxos, pool, r.value, state, base.tipHeight + 1, verify))
  {
    hide Valid, PoolOk, Screen, UpClosure, DescendantsFull, FeeAfterReplay, Narrowed, Reflects, FeeOf, TheOrder,
         DirectParents, NamesOutput, GraphOk, Filtered, Symmetric, Acyclic, KeysMatch, SpendersExact, IsTopological,
             Greedy;
    ValidFacts(pool);
    state := map[];
    var parents := DirectParents(pool.entries, utxos, tx.inputs, |tx.inputs|);
    ParentErrors(pool.entries, utxos, tx.inputs, |tx.inputs|);
    if parents.Success? {
      ParentsNamed(pool.entries, utxos, tx.inputs);
      state := ReplayDecides(pool, tx, parents.value, utxos, base.tipHeight + 1, verify);
    }
  }

  /** Nothing is evicted when the old pool had room for the candidate too. */
  lemma PlanRemovesNothing(former: Pool, pool: Pool, cand: Candidate)
    requires Valid(former) && Valid(pool) && pool.config == former.config && CandidateOk(pool, cand)
    requires pool.entries.Keys <= former.entries.Keys
    requires forall s | s in pool.entries :: pool.entries[s].tx == former.entries[s].tx
    requires cand.entry.tx.txid in former.entries && cand.entry.tx == former.entries[cand.entry.tx.txid].tx
    ensures RemoveOk(pool, cand, {})
    ensures PlanCapacity(pool, cand, {}) == Success(({}, VirtualBytes(pool, cand, {})))
  {
    ClaimsAreNew(pool, cand);
    hide Valid, CandidateOk, VirtualBytes;
    NothingRemoved(pool, cand);
    RoomIsLeft(former, pool, cand);
  }

  lemma CandidateJoins(former: Pool, pool: Pool, done: set<Txid>, base: ChainBase, utxos: Utxos<Txid>,
                       verify: Verifier<Txid>, cand: Candidate, state: Utxos<Txid>)
    requires Partial(former, pool, done, base, utxos, verify)
    requires cand.entry.tx.txid in former.entries && cand.entry.tx == former.entries[cand.entry.tx.txid].tx
    requires CandidateOk(pool, cand) && Settled(utxos, pool, cand, state, base.tipHeight + 1, verify)
    ensures cand.entry.tx.txid !in pool.entries
    ensures var next := Committed(pool, cand.entry, {}, VirtualBytes(pool, cand, {}));
            && next.entries.Keys == pool.entries.Keys + {cand.entry.tx.txid}
            && Partial(former, next, done + {cand.entry.tx.txid}, base, utxos, verify)
  {
    hide CandidateOk, Settled, RemoveOk, FitsAfter, Valid, PoolOk, VirtualBytes, CommittedEntries, CommittedSpenders,
         Carries;
    CarriesMeans(former.entries, pool.entries, done);
    ClaimsAreNew(pool, cand);
    NothingRemoved(pool, cand);
    RoomIsLeft(former, pool, cand);
    RoomFits(pool, cand, {});
    var totalBytes := VirtualBytes(pool, cand, {});
    CommitKeepsValid(pool, cand, {}, totalBytes);
    JoinKeepsOk(utxos, pool, cand, state, base.tipHeight + 1, verify);
    CarriesGrows(former.entries, pool.entries, done, cand.entry);
  }

  lemma PartialFacts(former: Pool, pool: Pool, done: set<Txid>, base: ChainBase, utxos: Utxos<Txid>,
                     verify: Verifier<Txid>, t: Txid)
    requires Partial(former, pool, done, base, utxos, verify) && t in former.entries && t !in done
    ensures Valid(former) && Valid(pool) && pool.config == former.config
    ensures pool.entries.Keys <= former.entries.Keys && t !in pool.entries
    ensures forall s | s in pool.entries :: pool.entries[s].tx == former.entries[s].tx
    ensures PoolOk(utxos, pool.entries, base.tipHeight + 1, verify)
    ensures former.entries[t].tx.txid == t
  {
  }

  /** Re-admitting an old transaction evicts nothing and never reports a conflict, a known
      transaction, a lack of capacity, a cycle or a broken invariant. */
  lemma RebuildStep(former: Pool, pool: Pool, done: set<Txid>, base: ChainBase, utxos: Utxos<Txid>,
                    verify: Verifier<Txid>, t: Txid)
    requires Partial(former, pool, done, base, utxos, verify) && base.tipHeight < U64_MAX
    requires t in former.entries && t !in done
    ensures var r := Admit(pool, former.entries[t].tx, base, utxos, verify);
            && (r.Failure? ==> RebuildError(r.error))
            && (r.Success? ==>
                  && r.value.evicted == {}
                  && r.value.pool.entries.Keys == pool.entries.Keys + {t}
                  && Partial(former, r.value.pool, done + {t}, base, utxos, verify))
  {
    hide Partial, Prepare, PlanCapacity, CandidateOk, Settled, RemoveOk, Valid, PoolOk, Screen, VirtualBytes, Committed;
    PartialFacts(former, pool, done, base, utxos, verify, t);
    ScreenPasses(former, pool, done, base, utxos, verify, t);
    var tx := former.entries[t].tx;
    var state := PrepareOutcome(pool, tx, base, utxos, verify);
    PreparedIsOk(pool, tx, base, utxos, verify);
    var prepared := Prepare(pool, tx, base, utxos, verify);
    if prepared.Success? {
      PlanRemovesNothing(former, pool, prepared.value);
      CandidateJoins(former, pool, done, base, utxos, verify, prepared.value, state);
    }
  }
}
