/** Eviction planning: which entries make room for a candidate. */
module PoolCapacity {
  import opened Prelude
  import opened Ledger
  import opened PoolGraph
  import opened PoolClosure
  import opened PoolState
  import opened PoolCommit
  import opened PoolEviction
  import opened PoolAdmission

  /** The entry not yet removed that is evicted before the candidate and before every other. */
  ghost predicate IsWeakest(entries: Entries, remove: set<Txid>, candidate: Entry, root: Txid) {
    && root in entries && root !in remove
    && EvictedBefore(entries[root], candidate)
    && forall t | t in entries && t !in remove && t != root :: EvictedBefore(entries[root], entries[t])
  }

  ghost predicate HasWeaker(entries: Entries, remove: set<Txid>, candidate: Entry) {
    exists t :: t in entries && t !in remove && EvictedBefore(entries[t], candidate)
  }

  lemma WeakestUnique(entries: Entries, remove: set<Txid>, candidate: Entry, a: Txid, b: Txid)
    requires IsWeakest(entries, remove, candidate, a) && IsWeakest(entries, remove, candidate, b)
    ensures a == b
  {
    EvictionTotal(entries[a], entries[b]);
  }

  /** Scanning `keys` finds the weakest of them, or that none is weaker than the candidate. */
  lemma {:induction false} WeakestOf(entries: Entries, candidate: Entry, keys: set<Txid>) returns (root: Txid)
    requires KeysMatch(entries) && keys <= entries.Keys
    requires exists t :: t in keys && EvictedBefore(entries[t], candidate)
    ensures root in keys && EvictedBefore(entries[root], candidate)
    ensures forall t | t in keys && t != root :: EvictedBefore(entries[root], entries[t])
    decreases keys
  {
    hide EvictedBefore;
    var x :| x in keys && EvictedBefore(entries[x], candidate);
    var rest := keys - {x};
    if exists t :: t in rest && EvictedBefore(entries[t], candidate) {
      root := WeakestOf(entries, candidate, rest);
      EvictionTotal(entries[x], entries[root]);
      if EvictedBefore(entries[x], entries[root]) {
        forall t | t in keys && t != x
          ensures EvictedBefore(entries[x], entries[t])
        {
          if t != root {
            EvictionTransitive(entries[x], entries[root], entries[t]);
          }
        }
        root := x;
      }
    } else {
      root := x;
      forall t | t in keys && t != x
        ensures EvictedBefore(entries[x], entries[t])
      {
        assert t in rest;
        EvictionTotal(entries[x], entries[t]);
        if !EvictedBefore(entries[x], entries[t]) {
          EvictionTransitive(entries[t], entries[x], candidate);
        }
      }
    }
  }

  lemma WeakestExists(entries: Entries, remove: set<Txid>, candidate: Entry)
    requires KeysMatch(entries) && HasWeaker(entries, remove, candidate)
    ensures exists root :: IsWeakest(entries, remove, candidate, root)
  {
    hide EvictedBefore;
    var keys := entries.Keys - remove;
    var t :| t in entries && t !in remove && EvictedBefore(entries[t], candidate);
    assert t in keys;
    var root := WeakestOf(entries, candidate, keys);
    assert forall x | x in entries && x !in remove :: x in keys;
    assert IsWeakest(entries, remove, candidate, root);
  }

  ghost function Weakest(entries: Entries, remove: set<Txid>, candidate: Entry): (root: Txid)
    requires KeysMatch(entries) && HasWeaker(entries, remove, candidate)
    ensures IsWeakest(entries, remove, candidate, root)
  {
    WeakestExists(entries, remove, candidate);
    var root :| IsWeakest(entries, remove, candidate, root);
    root
  }

  /** A root and its descendants, added to what is already to be removed. */
  ghost function Grown(entries: Entries, remove: set<Txid>, root: Txid): set<Txid> {
    remove + {root} + DescendantsOf(entries, root)
  }

  lemma DescendantsAvoid(entries: Entries, parents: set<Txid>, root: Txid, d: Txid)
    requires root in entries && Reaches(entries, root, d)
    ensures d in UpClosure(entries, parents) ==> root in UpClosure(entries, parents)
  {
    if d in UpClosure(entries, parents) {
      var p :| p in parents && (d == p || Reaches(entries, d, p));
      if d != p {
        ReachesTransitive(entries, root, d, p);
      }
      assert Above(entries, parents, root);
    }
  }

  lemma GrownCloses(entries: Entries, remove: set<Txid>, root: Txid)
    requires Symmetric(entries) && ClosedUnderChildrenOf(entries, remove) && root in entries
    ensures ClosedUnderChildrenOf(entries, Grown(entries, remove, root))
  {
    var grown := Grown(entries, remove, root);
    forall t, c | t in grown && c in entries[t].children
      ensures c in grown
    {
      if t !in remove {
        assert c in entries && t in entries[c].parents;
        if t == root {
          ReachesParent(entries, root, c);
        } else {
          ReachesStep(entries, root, t, c);
        }
      }
    }
  }

  lemma GrownIsOk(pool: Pool, cand: Candidate, remove: set<Txid>, root: Txid)
    requires Symmetric(pool.entries) && cand.ancestors == UpClosure(pool.entries, cand.entry.parents)
    requires RemoveOk(pool, cand, remove)
    requires root in pool.entries && root !in remove && root !in cand.ancestors
    ensures RemoveOk(pool, cand, Grown(pool.entries, remove, root))
    ensures DescendantsOf(pool.entries, root) !! cand.ancestors
    ensures |pool.entries.Keys - Grown(pool.entries, remove, root)| < |pool.entries.Keys - remove|
  {
    var grown := Grown(pool.entries, remove, root);
    GrownCloses(pool.entries, remove, root);
    forall d | d in DescendantsOf(pool.entries, root)
      ensures d !in cand.ancestors
    {
      DescendantsAvoid(pool.entries, cand.entry.parents, root, d);
    }
    var left, less := pool.entries.Keys - remove, pool.entries.Keys - grown;
    assert less <= left - {root};
    SubsetCount(less, left - {root});
  }

  ghost function VirtualBytes(pool: Pool, cand: Candidate, remove: set<Txid>): nat
    requires Valid(pool) && remove <= pool.entries.Keys
  {
    BytesSubset(pool.entries, remove, pool.entries.Keys);
    pool.totalBytes + cand.entry.tx.size - Bytes(pool.entries, remove)
  }

  ghost predicate RoomFor(pool: Pool, cand: Candidate, remove: set<Txid>)
    requires Valid(pool) && remove <= pool.entries.Keys
  {
    && |pool.entries| + 1 - |remove| <= pool.config.maxEntries
    && VirtualBytes(pool, cand, remove) <= pool.config.maxTotalBytes
  }

  /** The entries to remove and the resulting byte total, or why the candidate is refused. */
  ghost function PlanCapacity(pool: Pool, cand: Candidate, remove: set<Txid>): Result<(set<Txid>, nat), MempoolError>
    requires Valid(pool) && CandidateOk(pool, cand) && RemoveOk(pool, cand, remove)
    decreases |pool.entries.Keys - remove|
  {
    if pool.totalBytes + cand.entry.tx.size > USIZE_MAX then Failure(InvariantViolation)
    else if RoomFor(pool, cand, remove) then
      Success((remove, VirtualBytes(pool, cand, remove)))
    else if !HasWeaker(pool.entries, remove, cand.entry) then Failure(CapacityRejected)
    else
      var root := Weakest(pool.entries, remove, cand.entry);
      if root in cand.ancestors then Failure(CapacityRejected)
      else
        GrownIsOk(pool, cand, remove, root);
        PlanCapacity(pool, cand, Grown(pool.entries, remove, root))
  }

  /** `t` is evicted before the candidate, or descends from a removed entry that is. */
  ghost predicate Justified(pool: Pool, cand: Candidate, remove: set<Txid>, t: Txid) {
    exists root :: root in remove && root in pool.entries && EvictedBefore(pool.entries[root], cand.entry)
                   && (t == root || Reaches(pool.entries, root, t))
  }

  ghost predicate AllJustified(pool: Pool, cand: Candidate, remove: set<Txid>) {
    forall t | t in remove :: Justified(pool, cand, remove, t)
  }

  lemma GrownJustified(pool: Pool, cand: Candidate, remove: set<Txid>, root: Txid)
    requires AllJustified(pool, cand, remove)
    requires root in pool.entries && EvictedBefore(pool.entries[root], cand.entry)
    ensures AllJustified(pool, cand, Grown(pool.entries, remove, root))
  {
    hide EvictedBefore, Reaches;
    var grown := Grown(pool.entries, remove, root);
    forall t | t in grown
      ensures Justified(pool, cand, grown, t)
    {
      if t in remove {
        assert Justified(pool, cand, remove, t);
        var r :| r in remove && r in pool.entries && EvictedBefore(pool.entries[r], cand.entry)
                 && (t == r || Reaches(pool.entries, r, t));
        assert r in grown;
      } else {
        assert root in grown;
      }
    }
  }

  lemma AncestorsOfCandidate(pool: Pool, cand: Candidate)
    requires Valid(pool) && CandidateOk(pool, cand)
    ensures cand.ancestors == UpClosure(pool.entries, cand.entry.parents)
    ensures Symmetric(pool.entries) && KeysMatch(pool.entries)
  {
  }

  lemma RoomFits(pool: Pool, cand: Candidate, remove: set<Txid>)
    requires Valid(pool) && remove <= pool.entries.Keys && RoomFor(pool, cand, remove)
    ensures FitsAfter(pool, cand, remove, VirtualBytes(pool, cand, remove))
  {
  }

  /** Planning terminates; what it returns is closed under children, spares the candidate's
      ancestors, removes nothing that is not justified by a weaker entry, and makes room. */
  lemma {:induction false} PlanIsSound(pool: Pool, cand: Candidate, remove: set<Txid>)
    requires Valid(pool) && CandidateOk(pool, cand) && RemoveOk(pool, cand, remove)
    requires AllJustified(pool, cand, remove)
    ensures var r := PlanCapacity(pool, cand, remove);
            r.Success? ==>
              && remove <= r.value.0
              && RemoveOk(pool, cand, r.value.0)
              && FitsAfter(pool, cand, r.value.0, r.value.1)
              && AllJustified(pool, cand, r.value.0)
    decreases |pool.entries.Keys - remove|
  {
    hide CandidateOk, AllJustified, Valid, VirtualBytes;
    AncestorsOfCandidate(pool, cand);
    if pool.totalBytes + cand.entry.tx.size <= USIZE_MAX {
      if RoomFor(pool, cand, remove) {
        RoomFits(pool, cand, remove);
      } else if HasWeaker(pool.entries, remove, cand.entry) {
        var root := Weakest(pool.entries, remove, cand.entry);
        if root !in cand.ancestors {
          GrownIsOk(pool, cand, remove, root);
          GrownJustified(pool, cand, remove, root);
          PlanIsSound(pool, cand, Grown(pool.entries, remove, root));
        }
      }
    }
  }

  // ----- Admission as a whole -----

  datatype Admitted = Admitted(pool: Pool, evicted: set<Txid>)

  ghost function Admit(pool: Pool, tx: Tx<Txid>, base: ChainBase, utxos: Utxos<Txid>, verify: Verifier<Txid>)
    : Result<Admitted, MempoolError>
    requires Valid(pool)
  {
    var cand :- Prepare(pool, tx, base, utxos, verify);
    PreparedIsOk(pool, tx, base, utxos, verify);
    var plan :- PlanCapacity(pool, cand, {});
    Success(Admitted(Committed(pool, cand.entry, plan.0, plan.1), plan.0))
  }

  lemma NothingRemoved(pool: Pool, cand: Candidate)
    ensures RemoveOk(pool, cand, {}) && AllJustified(pool, cand, {})
  {
  }

  lemma AdmittedKeys(pool: Pool, cand: Candidate, remove: set<Txid>, totalBytes: nat)
    requires CandidateOk(pool, cand) && RemoveOk(pool, cand, remove)
    ensures Committed(pool, cand.entry, remove, totalBytes).entries.Keys
         == (pool.entries.Keys - remove) + {cand.entry.tx.txid}
    ensures remove <= pool.entries.Keys && cand.entry.tx.txid !in pool.entries
  {
    PlanFacts(pool, cand, remove);
    hide CandidateOk, RemoveOk;
    CommittedKeys(pool.entries, cand.entry, remove);
  }

  /** Every admission keeps the invariant, and removes only what eviction order justifies. */
  lemma AdmitKeepsValid(pool: Pool, tx: Tx<Txid>, base: ChainBase, utxos: Utxos<Txid>, verify: Verifier<Txid>)
    requires Valid(pool)
    ensures var r := Admit(pool, tx, base, utxos, verify);
            r.Success? ==>
              && Valid(r.value.pool)
              && r.value.pool.entries.Keys == (pool.entries.Keys - r.value.evicted) + {tx.txid}
              && r.value.evicted <= pool.entries.Keys
              && tx.txid !in pool.entries
  {
    hide Valid, Committed, RemoveOk, FitsAfter, CandidateOk;
    var prepared := Prepare(pool, tx, base, utxos, verify);
    if prepared.Success? {
      PreparedIsOk(pool, tx, base, utxos, verify);
      var cand := prepared.value;
      NothingRemoved(pool, cand);
      PlanIsSound(pool, cand, {});
      var plan := PlanCapacity(pool, cand, {});
      if plan.Success? {
        CommitKeepsValid(pool, cand, plan.value.0, plan.value.1);
        AdmittedKeys(pool, cand, plan.value.0, plan.value.1);
      }
    }
  }
}
