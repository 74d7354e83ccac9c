/** The commit of an admission plan in the program's own form. */
module PoolUpdate {
  import opened Prelude
  import opened Ledger
  import opened PoolGraph
  import opened PoolState
  import opened PoolCommit
  import opened PoolClosure

  // ----- Preflight -----

  predicate RemovableFrom(pool: Pool, remove: set<Txid>, t: Txid) {
    && t in pool.entries
    && (forall o | o in pool.entries[t].tx.inputs :: o in pool.spenders && pool.spenders[o] == t)
    && pool.entries[t].children <= remove
  }

  /** What is checked before anything is changed. */
  ghost predicate PreflightOk(pool: Pool, cand: Candidate, remove: set<Txid>, totalBytes: nat) {
    && remove !! cand.ancestors
    && (forall p | p in cand.entry.parents :: p in cand.ancestors && p !in remove && p in pool.entries)
    && (forall a | a in cand.ancestors :: a !in remove && a in pool.entries)
    && (forall o | o in cand.entry.tx.inputs :: o !in pool.spenders)
    && (forall t | t in remove :: RemovableFrom(pool, remove, t))
    && FitsAfter(pool, cand, remove, totalBytes)
  }

  lemma RemovalBounds(pool: Pool, remove: set<Txid>)
    requires Valid(pool) && remove <= pool.entries.Keys
    ensures Bytes(pool.entries, remove) <= pool.totalBytes <= pool.config.maxTotalBytes
    ensures |remove| <= |pool.entries| <= pool.config.maxEntries
  {
    hide GraphOk, ClosureBounds, SpendersExact;
    BytesSubset(pool.entries, remove, pool.entries.Keys);
    SubsetCount(remove, pool.entries.Keys);
  }

  /** The bytes of the entries to remove. */
  method RemovedBytes(pool: Pool, remove: set<Txid>) returns (r: Result<nat, MempoolError>)
    requires Valid(pool) && remove <= pool.entries.Keys
    ensures r == Success(Bytes(pool.entries, remove))
  {
    hide Valid, Bytes;
    var sum, todo := 0, remove;
    NoBytes(pool.entries);
    assert remove - todo == {};
    while todo != {}
      invariant todo <= remove && sum == Bytes(pool.entries, remove - todo)
      decreases todo
    {
      var t :| t in todo;
      assert (remove - (todo - {t})) - {t} == remove - todo;
      BytesRemove(pool.entries, remove - (todo - {t}), t);
      RemovalBounds(pool, remove - (todo - {t}));
      if sum + pool.entries[t].tx.size > USIZE_MAX {
        return Failure(InvariantViolation);
      }
      sum, todo := sum + pool.entries[t].tx.size, todo - {t};
    }
    assert remove - todo == remove;
    return Success(sum);
  }

  /** The preflight is exact: it refuses a plan if and only if one of its conditions fails. */
  method Preflight(pool: Pool, cand: Candidate, remove: set<Txid>, totalBytes: nat)
    returns (r: Result<(), MempoolError>)
    requires Valid(pool)
    ensures r == if PreflightOk(pool, cand, remove, totalBytes) then Success(()) else Failure(InvariantViolation)
  {
    hide Valid, Bytes;
    if exists t | t in remove :: t in cand.ancestors {
      return Failure(InvariantViolation);
    }
    if exists p | p in cand.entry.parents :: p !in cand.ancestors || p in remove || p !in pool.entries {
      return Failure(InvariantViolation);
    }
    if exists a | a in cand.ancestors :: a in remove || a !in pool.entries {
      return Failure(InvariantViolation);
    }
    if exists o | o in cand.entry.tx.inputs :: o in pool.spenders {
      return Failure(InvariantViolation);
    }
    if exists t | t in remove :: !RemovableFrom(pool, remove, t) {
      return Failure(InvariantViolation);
    }
    assert remove <= pool.entries.Keys;
    var removed := RemovedBytes(pool, remove);
    RemovalBounds(pool, remove);
    var expectedBytes := pool.totalBytes - removed.value + cand.entry.tx.size;
    if expectedBytes > USIZE_MAX {
      return Failure(InvariantViolation);
    }
    if expectedBytes != totalBytes || expectedBytes > pool.config.maxTotalBytes {
      return Failure(InvariantViolation);
    }
    if |pool.entries| - |remove| + 1 > pool.config.maxEntries {
      return Failure(InvariantViolation);
    }
    return Success(());
  }

  lemma AncestorsInPool(pool: Pool, cand: Candidate)
    requires CandidateOk(pool, cand)
    ensures cand.entry.parents <= cand.ancestors <= pool.entries.Keys
  {
    forall p | p in cand.entry.parents
      ensures p in cand.ancestors
    {
      DirectAbove(pool.entries, cand.entry.parents, p);
    }
  }

  /** Every plan that capacity planning returns passes, so no lookup of the commit can miss. */
  lemma PlansPass(pool: Pool, cand: Candidate, remove: set<Txid>, totalBytes: nat)
    requires Valid(pool) && CandidateOk(pool, cand) && RemoveOk(pool, cand, remove)
    requires FitsAfter(pool, cand, remove, totalBytes)
    ensures PreflightOk(pool, cand, remove, totalBytes)
  {
    hide CandidateOk, Bytes, GraphOk, ClosureBounds, FitsAfter;
    PlanFacts(pool, cand, remove);
    ClaimsAreNew(pool, cand);
    AncestorsInPool(pool, cand);
  }

  // ----- The pieces of the commit -----

  /** Removes `t` from the children of each listed entry. */
  method Unlink(entries: Entries, t: Txid, parents: set<Txid>) returns (r: Entries)
    requires parents <= entries.Keys
    ensures r.Keys == entries.Keys
    ensures forall x | x in entries ::
              r[x] == if x in parents then entries[x].(children := entries[x].children - {t}) else entries[x]
  {
    r := entries;
    var todo := parents;
    while todo != {}
      invariant todo <= parents && r.Keys == entries.Keys
      invariant forall x | x in entries ::
                  r[x] == if x in parents && x !in todo then entries[x].(children := entries[x].children - {t})
                      else entries[x]
      decreases todo
    {
      var p :| p in todo;
      r, todo := r[p := r[p].(children := r[p].children - {t})], todo - {p};
    }
  }

  /** Adds `t` to the children of each listed entry. */
  method LinkTo(entries: Entries, t: Txid, parents: set<Txid>) returns (r: Entries)
    requires parents <= entries.Keys
    ensures r.Keys == entries.Keys
    ensures forall x | x in entries ::
              r[x] == if x in parents then entries[x].(children := entries[x].children + {t}) else entries[x]
  {
    r := entries;
    var todo := parents;
    while todo != {}
      invariant todo <= parents && r.Keys == entries.Keys
      invariant forall x | x in entries ::
                  r[x] == if x in parents && x !in todo then entries[x].(children := entries[x].children + {t})
                      else entries[x]
      decreases todo
    {
      var p :| p in todo;
      r, todo := r[p := r[p].(children := r[p].children + {t})], todo - {p};
    }
  }

  method ReleaseClaims(spenders: Spenders, inputs: seq<OutPoint<Txid>>) returns (r: Spenders)
    ensures forall o :: o in r <==> o in spenders && o !in inputs
    ensures forall o | o in r :: r[o] == spenders[o]
  {
    r := spenders;
    for i := 0 to |inputs|
      invariant forall o :: o in r <==> o in spenders && o !in inputs[..i]
      invariant forall o | o in r :: r[o] == spenders[o]
    {
      r := r - {inputs[i]};
    }
    assert inputs[..|inputs|] == inputs;
  }

  method ClaimInputs(spenders: Spenders, inputs: seq<OutPoint<Txid>>, t: Txid) returns (r: Spenders)
    ensures forall o :: o in r <==> o in spenders || o in inputs
    ensures forall o | o in r :: r[o] == if o in inputs then t else spenders[o]
  {
    r := spenders;
    for i := 0 to |inputs|
      invariant forall o :: o in r <==> o in spenders || o in inputs[..i]
      invariant forall o | o in r :: r[o] == if o in inputs[..i] then t else spenders[o]
    {
      r := r[inputs[i] := t];
    }
    assert inputs[..|inputs|] == inputs;
  }

  // ----- The removals, one by one -----

  /** The entries once `done`, a part of `remove`, is gone: survivors have forgotten those children. */
  ghost function Dropped(entries: Entries, remove: set<Txid>, done: set<Txid>): Entries {
    map t | t in entries && t !in done ::
      if t in remove then entries[t] else entries[t].(children := entries[t].children - done)
  }

  ghost function Freed(spenders: Spenders, done: set<Txid>): Spenders {
    map o | o in spenders && spenders[o] !in done :: spenders[o]
  }

  lemma DroppedStep(entries: Entries, remove: set<Txid>, done: set<Txid>, t: Txid, unlinked: Entries)
    requires Symmetric(entries) && done <= remove && t in remove && t in entries && t !in done
    requires unlinked.Keys == Dropped(entries, remove, done).Keys
    requires forall x | x in unlinked ::
               var was := Dropped(entries, remove, done)[x];
               unlinked[x] == if x in entries[t].parents - remove then was.(children := was.children - {t}) else was
    ensures unlinked - {t} == Dropped(entries, remove, done + {t})
  {
    var now, next := unlinked - {t}, Dropped(entries, remove, done + {t});
    assert now.Keys == next.Keys;
    forall x | x in next
      ensures now[x] == next[x]
    {
      if x !in remove {
        assert t in entries[x].children ==> x in entries[t].parents;
        assert entries[x].children - (done + {t}) == entries[x].children - done - {t};
      }
    }
  }

  lemma FreedStep(entries: Entries, spenders: Spenders, done: set<Txid>, t: Txid, released: Spenders)
    requires SpendersExact(entries, spenders) && t in entries && t !in done
    requires forall o :: o in released <==> o in Freed(spenders, done) && o !in entries[t].tx.inputs
    requires forall o | o in released :: released[o] == Freed(spenders, done)[o]
    ensures released == Freed(spenders, done + {t})
  {
    forall o
      ensures o in released <==> o in Freed(spenders, done + {t})
    {
    }
  }

  lemma EntriesResult(entries: Entries, e: Entry, remove: set<Txid>, linked: Entries)
    requires linked.Keys == Dropped(entries, remove, remove).Keys
    requires forall x | x in linked ::
               var was := Dropped(entries, remove, remove)[x];
               linked[x] == if x in e.parents then was.(children := was.children + {e.tx.txid}) else was
    ensures linked[e.tx.txid := e] == CommittedEntries(entries, e, remove)
  {
    var now, next := linked[e.tx.txid := e], CommittedEntries(entries, e, remove);
    assert now.Keys == next.Keys;
    forall x | x in now
      ensures now[x] == next[x]
    {
      if x != e.tx.txid {
        SurvivorSame(entries, e, remove, x);
      }
    }
  }

  lemma SpendersResult(spenders: Spenders, e: Entry, remove: set<Txid>, claimed: Spenders)
    requires forall o :: o in claimed <==> o in Freed(spenders, remove) || o in e.tx.inputs
    requires forall o | o in claimed :: claimed[o] == if o in e.tx.inputs then e.tx.txid else Freed(spenders, remove)[o]
    ensures claimed == CommittedSpenders(spenders, e, remove)
  {
    var next := CommittedSpenders(spenders, e, remove);
    forall o
      ensures o in claimed <==> o in next
    {
      assert o in e.tx.inputs <==> o in Spent(e.tx);
    }
  }

  lemma CommitResult(pool: Pool, cand: Candidate, remove: set<Txid>, linked: Entries, claimed: Spenders)
    requires CandidateOk(pool, cand) && remove <= pool.entries.Keys
    requires linked.Keys == Dropped(pool.entries, remove, remove).Keys
    requires forall x | x in linked ::
               var was := Dropped(pool.entries, remove, remove)[x];
               linked[x] == if x in cand.entry.parents then was.(children := was.children + {cand.entry.tx.txid})
                   else was
    requires forall o :: o in claimed <==> o in Freed(pool.spenders, remove) || o in cand.entry.tx.inputs
    requires forall o | o in claimed ::
               claimed[o] == if o in cand.entry.tx.inputs then cand.entry.tx.txid else Freed(pool.spenders, remove)[o]
    ensures linked[cand.entry.tx.txid := cand.entry] == CommittedEntries(pool.entries, cand.entry, remove)
    ensures claimed == CommittedSpenders(pool.spenders, cand.entry, remove)
  {
    hide CandidateOk;
    EntriesResult(pool.entries, cand.entry, remove, linked);
    SpendersResult(pool.spenders, cand.entry, remove, claimed);
  }
}
