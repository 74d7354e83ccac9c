/** The pool object: construction, admission and reconciliation, each equal to its value-level
    specification; every reachable pool is valid. */
module PoolObject {
  import opened Prelude
  import opened Ledger
  import opened PoolGraph
  import opened PoolClosure
  import opened PoolState
  import opened PoolCommit
  import opened PoolAdmission
  import opened PoolCapacity
  import opened PoolPrepare
  import opened PoolUpdate
  import opened PoolMachine
  import opened PoolRebuild
  import opened PoolReconcile

  datatype AdmissionOutcome = AdmissionOutcome(txid: Txid, fee: nat, encodedBytes: nat, evicted: set<Txid>)

  datatype ReconcileReport = ReconcileReport(removed: set<Txid>, retained: nat)

  /** The object's new state and report are those of the specification; an error changes nothing. */
  ghost predicate Reported(before: Pool, spec: Result<Reconciled, MempoolError>, after: Pool,
                           r: Result<ReconcileReport, MempoolError>) {
    && (r.Failure? <==> spec.Failure?)
    && (r.Failure? ==> r.error == spec.error && after == before)
    && (r.Success? ==> after == spec.value.pool && r.value == ReconcileReport(spec.value.removed, spec.value.retained))
  }

  lemma NothingExcluded(pool: Pool, confirmed: set<Txid>)
    ensures ExcludedFor(pool, confirmed, {}) == {}
  {
  }

  lemma SpenderPresent(pool: Pool, o: OutPoint<Txid>)
    requires Valid(pool) && o in pool.spenders
    ensures pool.spenders[o] in pool.entries && !Reaches(pool.entries, pool.spenders[o], pool.spenders[o])
  {
  }

  lemma ExcludedStep(pool: Pool, confirmed: set<Txid>, seen: set<OutPoint<Txid>>, o: OutPoint<Txid>)
    ensures ExcludedFor(pool, confirmed, seen + {o})
         == ExcludedFor(pool, confirmed, seen)
            + if o in pool.spenders && pool.spenders[o] !in confirmed
              then {pool.spenders[o]} + DescendantsOf(pool.entries, pool.spenders[o]) else {}
  {
    hide Reaches;
    var more := if o in pool.spenders && pool.spenders[o] !in confirmed then {pool.spenders[o]} else {};
    assert Displaced(pool, confirmed, seen + {o}) == Displaced(pool, confirmed, seen) + more;
  }

  lemma SpentByStep(block: seq<Tx<Txid>>, i: nat)
    requires i < |block|
    ensures SpentBy(block[..i]) + (set o | o in block[i].inputs[..|block[i].inputs|]) == SpentBy(block[..i + 1])
  {
    assert block[..i + 1] == block[..i] + [block[i]];
    assert block[i].inputs[..|block[i].inputs|] == block[i].inputs;
    assert block[i] in block[..i + 1];
  }

  /** The entries displaced by the block's inputs, with their descendants. */
  method ExcludedBy(pool: Pool, block: seq<Tx<Txid>>) returns (excluded: set<Txid>)
    requires Valid(pool)
    ensures excluded == Excluded(pool, block)
  {
    hide Valid, ExcludedFor, Reaches;
    PoolPrepare.ValidLinks(pool);
    NothingExcluded(pool, Confirmed(block));
    excluded := {};
    ghost var seen: set<OutPoint<Txid>> := {};
    for i := 0 to |block|
      invariant seen == SpentBy(block[..i])
      invariant excluded == ExcludedFor(pool, Confirmed(block), seen)
    {
      for j := 0 to |block[i].inputs|
        invariant seen == SpentBy(block[..i]) + set o | o in block[i].inputs[..j]
        invariant excluded == ExcludedFor(pool, Confirmed(block), seen)
      {
        var o := block[i].inputs[j];
        ExcludedStep(pool, Confirmed(block), seen, o);
        seen := seen + {o};
        if o in pool.spenders && pool.spenders[o] !in Confirmed(block) {
          SpenderPresent(pool, o);
          MirroredDescendants(pool.entries, pool.spenders[o]);
          var below := DescendantClosure(pool.entries, pool.spenders[o]);
          excluded := excluded + {pool.spenders[o]} + below.value;
        }
      }
      SpentByStep(block, i);
    }
    assert block[..|block|] == block;
  }

  lemma KeysAreTxids(pool: Pool)
    requires Valid(pool)
    ensures forall t | t in pool.entries :: pool.entries[t].tx.txid == t
  {
  }

  lemma RebuildNothing(start: Pool, source: Entries, ids: seq<Txid>, base: ChainBase, utxos: Utxos<Txid>,
                       verify: Verifier<Txid>)
    requires Valid(start)
    ensures Elements(ids[..0]) <= source.Keys && Rebuild(start, source, ids[..0], base, utxos, verify) == Success(start)
  {
    hide Valid;
  }

  lemma {:induction false} RebuildFailureStays(start: Pool, source: Entries, ids: seq<Txid>, base: ChainBase,
                                               utxos: Utxos<Txid>, verify: Verifier<Txid>, k: nat)
    requires Valid(start) && Elements(ids) <= source.Keys && k <= |ids|
    ensures Elements(ids[..k]) <= source.Keys
    ensures Rebuild(start, source, ids[..k], base, utxos, verify).Failure? ==>
              Rebuild(start, source, ids, base, utxos, verify) == Rebuild(start, source, ids[..k], base, utxos, verify)
    decreases |ids|
  {
    hide Valid, Readmit;
    assert forall t | t in ids[..k] :: t in Elements(ids);
    if k == |ids| {
      assert ids[..k] == ids;
    } else {
      var front := ids[..|ids| - 1];
      assert forall t | t in front :: t in Elements(ids);
      RebuildFailureStays(start, source, front, base, utxos, verify, k);
      assert front[..k] == ids[..k];
    }
  }

  lemma RebuildNext(start: Pool, source: Entries, ids: seq<Txid>, base: ChainBase, utxos: Utxos<Txid>,
                    verify: Verifier<Txid>, k: nat, before: Pool)
    requires Valid(start) && Elements(ids) <= source.Keys && k < |ids|
    requires Elements(ids[..k]) <= source.Keys
             && Rebuild(start, source, ids[..k], base, utxos, verify) == Success(before)
    ensures ids[k] in source && Elements(ids[..k + 1]) <= source.Keys && Valid(before)
    ensures Rebuild(start, source, ids[..k + 1], base, utxos, verify)
         == Readmit(before, source[ids[k]].tx, base, utxos, verify)
    ensures Rebuild(start, source, ids[..k + 1], base, utxos, verify).Failure? ==>
              Rebuild(start, source, ids, base, utxos, verify)
                  == Rebuild(start, source, ids[..k + 1], base, utxos, verify)
  {
    hide Valid, Readmit;
    assert ids[k] in Elements(ids);
    assert ids[..k + 1][..k] == ids[..k];
    RebuildFailureStays(start, source, ids, base, utxos, verify, k + 1);
  }

  lemma ReadmitMeans(pool: Pool, tx: Tx<Txid>, base: ChainBase, utxos: Utxos<Txid>, verify: Verifier<Txid>)
    requires Valid(pool)
    ensures var r := Admit(pool, tx, base, utxos, verify);
            Readmit(pool, tx, base, utxos, verify)
            == if r.Success? then Success(r.value.pool) else if Filterable(r.error) then Success(pool)
                else Failure(r.error)
  {
    hide Valid, Admit;
  }

  lemma SurvivorsPresent(entries: Entries, remove: set<Txid>, done: set<Txid>, t: Txid)
    requires Symmetric(entries) && done <= remove && t in remove && t in entries && t !in done
    ensures t in Dropped(entries, remove, done) && Dropped(entries, remove, done)[t] == entries[t]
    ensures entries[t].parents - remove <= Dropped(entries, remove, done).Keys
  {
  }

  lemma SurvivingParents(entries: Entries, remove: set<Txid>, parents: set<Txid>)
    requires parents <= entries.Keys - remove
    ensures parents <= Dropped(entries, remove, remove).Keys
  {
  }

  lemma NothingDropped(entries: Entries, spenders: Spenders, remove: set<Txid>)
    ensures Dropped(entries, remove, {}) == entries && Freed(spenders, {}) == spenders
  {
    var same := Dropped(entries, remove, {});
    assert forall t | t in entries :: same[t] == entries[t] by {
      forall t | t in entries
        ensures same[t] == entries[t]
      {
        assert entries[t].children - {} == entries[t].children;
      }
    }
  }

  lemma CommitFacts(pool: Pool, cand: Candidate, remove: set<Txid>)
    requires Valid(pool) && CandidateOk(pool, cand) && RemoveOk(pool, cand, remove)
    ensures Symmetric(pool.entries) && SpendersExact(pool.entries, pool.spenders)
    ensures remove <= pool.entries.Keys && cand.entry.parents <= pool.entries.Keys - remove
  {
    hide CandidateOk;
    PlanFacts(pool, cand, remove);
  }

  lemma PreparedTx(pool: Pool, tx: Tx<Txid>, base: ChainBase, utxos: Utxos<Txid>, verify: Verifier<Txid>)
    requires Valid(pool)
    ensures Prepare(pool, tx, base, utxos, verify).Success? ==>
              Prepare(pool, tx, base, utxos, verify).value.entry.tx == tx
  {
    hide Valid, Screen, DirectParents, UpClosure, DescendantsFull, FeeAfterReplay, Narrowed, TheOrder, Filtered;
  }

  lemma CommittedCandidate(entries: Entries, candidate: Entry, remove: set<Txid>)
    ensures candidate.tx.txid in CommittedEntries(entries, candidate, remove)
    ensures CommittedEntries(entries, candidate, remove)[candidate.tx.txid] == candidate
  {
  }

  // ----- The object -----

  class Mempool {
    var config: Config
    var base: ChainBase
    var entries: Entries
    var spenders: Spenders
    var totalBytes: nat

    function View(): Pool
      reads this
    {
      Pool(config, base, entries, spenders, totalBytes)
    }

    constructor (base: ChainBase, config: Config)
      ensures View() == EmptyPool(base, config)
    {
      this.config, this.base := config, base;
      entries, spenders, totalBytes := map[], map[], 0;
    }

    /** A new pool, unless a limit is zero. */
    static method Open(base: ChainBase, config: Config) returns (r: Result<Mempool, MempoolError>)
      ensures r.Success? <==> ConfigOk(config)
      ensures r.Failure? ==> r.error == InvalidConfig
      ensures r.Success? ==> fresh(r.value) && r.value.View() == EmptyPool(base, config) && Valid(r.value.View())
    {
      if config.maxEntries == 0 || config.maxTotalBytes == 0 {
        return Failure(InvalidConfig);
      }
      var pool := new Mempool(base, config);
      EmptyPoolValid(base, config);
      return Success(pool);
    }

    /** Drops one entry of the plan and everything that refers to it. */
    method Drop(t: Txid, remove: set<Txid>, ghost before: Pool, ghost done: set<Txid>)
      requires Symmetric(before.entries) && SpendersExact(before.entries, before.spenders)
      requires done <= remove && t in remove && t !in done && t in before.entries
      requires entries == Dropped(before.entries, remove, done) && spenders == Freed(before.spenders, done)
      modifies this`entries, this`spenders
      ensures entries == Dropped(before.entries, remove, done + {t})
      ensures spenders == Freed(before.spenders, done + {t})
    {
      var entry := entries[t];
      var survivors := entry.parents - remove;
      SurvivorsPresent(before.entries, remove, done, t);
      hide Symmetric, SpendersExact, Dropped, Freed;
      entries := Unlink(entries, t, survivors);
      spenders := ReleaseClaims(spenders, entry.tx.inputs);
      DroppedStep(before.entries, remove, done, t, entries);
      FreedStep(before.entries, before.spenders, done, t, spenders);
      entries := entries - {t};
    }

    /** Carries out a plan that has passed its preflight. */
    method CommitAdmission(cand: Candidate, remove: set<Txid>, newTotal: nat) returns (r: AdmissionOutcome)
      requires Valid(View()) && CandidateOk(View(), cand) && RemoveOk(View(), cand, remove)
      modifies this
      ensures View() == Committed(old(View()), cand.entry, remove, newTotal)
      ensures r == AdmissionOutcome(cand.entry.tx.txid, cand.entry.fee, cand.entry.tx.size, remove)
    {
      hide Valid, CandidateOk, RemoveOk, Symmetric, SpendersExact, Dropped, Freed, CommittedEntries, CommittedSpenders;
      ghost var before := View();
      CommitFacts(before, cand, remove);
      NothingDropped(before.entries, before.spenders, remove);
      var todo := remove;
      assert remove - todo == {};
      while todo != {}
        invariant todo <= remove
        invariant entries == Dropped(before.entries, remove, remove - todo)
        invariant spenders == Freed(before.spenders, remove - todo)
        invariant config == before.config && base == before.base && totalBytes == before.totalBytes
        decreases todo
      {
        var t :| t in todo;
        assert remove - todo + {t} == remove - (todo - {t});
        Drop(t, remove, before, remove - todo);
        todo := todo - {t};
      }
      assert remove - todo == remove;
      SurvivingParents(before.entries, remove, cand.entry.parents);
      entries := LinkTo(entries, cand.entry.tx.txid, cand.entry.parents);
      spenders := ClaimInputs(spenders, cand.entry.tx.inputs, cand.entry.tx.txid);
      CommitResult(before, cand, remove, entries, spenders);
      entries := entries[cand.entry.tx.txid := cand.entry];
      totalBytes := newTotal;
      return AdmissionOutcome(cand.entry.tx.txid, cand.entry.fee, cand.entry.tx.size, remove);
    }

    /** Admits a transaction or refuses it; a refusal changes nothing, and the preflight of a
        planned admission never refuses. */
    method AdmitTransaction(tx: Tx<Txid>, chainBase: ChainBase, utxos: Utxos<Txid>, verify: Verifier<Txid>)
      returns (r: Result<AdmissionOutcome, MempoolError>)
      requires Valid(View())
      modifies this
      ensures Valid(View())
      ensures var spec := Admit(old(View()), tx, chainBase, utxos, verify);
              && (r.Failure? <==> spec.Failure?)
              && (r.Failure? ==> r.error == spec.error && View() == old(View()))
              && (r.Success? ==>
                    && View() == spec.value.pool && r.value.txid == tx.txid
                    && r.value.evicted == spec.value.evicted
                    && r.value.encodedBytes == tx.size
                    && tx.txid in entries && entries[tx.txid].fee == r.value.fee)
    {
      hide Valid, Prepare, PlanCapacity, CandidateOk, RemoveOk, FitsAfter, PreflightOk, CommittedEntries,
           CommittedSpenders;
      ghost var before := View();
      var prepared := PrepareAdmission(View(), tx, chainBase, utxos, verify);
      if prepared.Failure? {
        return Failure(prepared.error);
      }
      var cand := prepared.value;
      PreparedIsOk(before, tx, chainBase, utxos, verify);
      PreparedTx(before, tx, chainBase, utxos, verify);
      var plan := PlanRemovals(View(), cand);
      if plan.Failure? {
        return Failure(plan.error);
      }
      NothingRemoved(before, cand);
      PlanIsSound(before, cand, {});
      PlansPass(before, cand, plan.value.0, plan.value.1);
      var ok := Preflight(View(), cand, plan.value.0, plan.value.1);
      if ok.Failure? {
        return Failure(InvariantViolation);
      }
      CommitKeepsValid(before, cand, plan.value.0, plan.value.1);
      var outcome := CommitAdmission(cand, plan.value.0, plan.value.1);
      CommittedCandidate(before.entries, cand.entry, plan.value.0);
      return Success(outcome);
    }

    /** Admits the listed entries to a new pool on the new base. */
    method RebuildAgainstChain(ids: seq<Txid>, newBase: ChainBase, utxos: Utxos<Txid>, verify: Verifier<Txid>)
      returns (r: Result<Mempool, MempoolError>)
      requires Valid(View()) && Elements(ids) <= entries.Keys
      ensures Valid(EmptyPool(newBase, config))
      ensures var spec := Rebuild(EmptyPool(newBase, config), entries, ids, newBase, utxos, verify);
              && (r.Failure? <==> spec.Failure?)
              && (r.Failure? ==> r.error == spec.error)
              && (r.Success? ==> fresh(r.value) && r.value.View() == spec.value)
    {
      hide Valid, Rebuild, Readmit, KeysMatch;
      ConfigIsOk(View());
      KeysAreTxids(View());
      EmptyPoolValid(newBase, config);
      var rebuilt := new Mempool(newBase, config);
      ghost var start := EmptyPool(newBase, config);
      RebuildNothing(start, entries, ids, newBase, utxos, verify);
      for i := 0 to |ids|
        invariant fresh(rebuilt) && Valid(rebuilt.View())
        invariant Elements(ids[..i]) <= entries.Keys
        invariant Rebuild(start, entries, ids[..i], newBase, utxos, verify) == Success(rebuilt.View())
      {
        ghost var before := rebuilt.View();
        RebuildNext(start, entries, ids, newBase, utxos, verify, i, before);
        if entries[ids[i]].tx.txid != ids[i] {
          return Failure(InvariantViolation);
        }
        var admitted := rebuilt.AdmitTransaction(entries[ids[i]].tx, newBase, utxos, verify);
        ReadmitMeans(before, entries[ids[i]].tx, newBase, utxos, verify);
        if admitted.Failure? && !Filterable(admitted.error) {
          return Failure(admitted.error);
        }
      }
      assert ids[..|ids|] == ids;
      return Success(rebuilt);
    }

    /** Takes over a rebuilt pool and reports what was dropped. */
    method TakeOver(rebuilt: Mempool) returns (report: ReconcileReport)
      requires rebuilt != this
      modifies this
      ensures View() == old(rebuilt.View())
      ensures report == ReconcileReport(old(entries.Keys) - old(rebuilt.entries.Keys), |old(rebuilt.entries)|)
    {
      report := ReconcileReport(entries.Keys - rebuilt.entries.Keys, |rebuilt.entries|);
      config, base, entries, spenders, totalBytes :=
        rebuilt.config, rebuilt.base, rebuilt.entries, rebuilt.spenders, rebuilt.totalBytes;
    }

    /** After a block joined the active chain.  An error leaves the pool as it was. */
    method ReconcileActiveBlock(block: seq<Tx<Txid>>, newBase: ChainBase, utxos: Utxos<Txid>, verify: Verifier<Txid>)
      returns (r: Result<ReconcileReport, MempoolError>)
      requires Valid(View())
      modifies this
      ensures Valid(View())
      ensures Reported(old(View()), ReconcileBlock(old(View()), block, newBase, utxos, verify), View(), r)
    {
      hide Valid, Rebuild, Excluded, Confirmed, Filtered, Symmetric, Acyclic, LexLe;
      PoolPrepare.ValidLinks(View());
      var order := TopologicalOrder(entries);
      LeastOrderUnique(entries, order.value, TheOrder(entries));
      var confirmed := Confirmed(block);
      var excluded := ExcludedBy(View(), block);
      var ids := KeepOnly(order.value, entries.Keys - confirmed - excluded);
      ghost var listed := Remaining(View(), block);
      var rebuilt := RebuildAgainstChain(ids, newBase, utxos, verify);
      if rebuilt.Failure? {
        return Failure(rebuilt.error);
      }
      var report := TakeOver(rebuilt.value);
      return Success(report);
    }

    /** After a reorganization of the active chain.  An error leaves the pool as it was. */
    method ReconcileReorganization(newBase: ChainBase, utxos: Utxos<Txid>, verify: Verifier<Txid>)
      returns (r: Result<ReconcileReport, MempoolError>)
      requires Valid(View())
      modifies this
      ensures Valid(View())
      ensures Reported(old(View()), ReconcileReorg(old(View()), newBase, utxos, verify), View(), r)
    {
      hide Valid, Rebuild, Symmetric, Acyclic, LexLe;
      PoolPrepare.ValidLinks(View());
      var order := TopologicalOrder(entries);
      LeastOrderUnique(entries, order.value, TheOrder(entries));
      var rebuilt := RebuildAgainstChain(order.value, newBase, utxos, verify);
      if rebuilt.Failure? {
        return Failure(rebuilt.error);
      }
      var report := TakeOver(rebuilt.value);
      return Success(report);
    }
  }
}
