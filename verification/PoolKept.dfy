/** A reconciliation removes an entry only for a reason. */
module PoolKept {
  import opened Prelude
  import opened Ledger
  import opened LedgerTotals
  import opened PoolGraph
  import opened PoolClosure
  import opened PoolState
  import opened PoolCommit
  import opened PoolAdmission
  import opened PoolCapacity
  import opened PoolReplay
  import opened PoolJoin
  import opened PoolRebuild
  import opened PoolReconcile
  import opened PoolAgreement

  // ----- A part of a pool -----

  ghost predicate SameLinks(a: Entry, b: Entry) {
    a.tx == b.tx && a.fee == b.fee && a.parents == b.parents
  }

  /** The entries of `part` stand in `whole` with the same transaction, fee and parents, and their
      parents are in `part`. */
  ghost predicate PartOf(part: Entries, whole: Entries) {
    && part.Keys <= whole.Keys
    && (forall t | t in part :: SameLinks(part[t], whole[t]))
    && (forall t | t in part :: part[t].parents <= part.Keys)
  }

  lemma {:induction false} ChainInside(part: Entries, whole: Entries, s: seq<Txid>)
    requires PartOf(part, whole) && IsChain(whole, s) && s != [] && s[|s| - 1] in part
    ensures IsChain(part, s)
  {
    if |s| > 1 {
      assert s[|s| - 2] in part;
      ChainInside(part, whole, s[..|s| - 1]);
    }
  }

  lemma PartReaches(part: Entries, whole: Entries, a: Txid, t: Txid)
    requires PartOf(part, whole)
    ensures Reaches(part, a, t) <==> t in part && Reaches(whole, a, t)
  {
    if Reaches(part, a, t) {
      var s :| Link(part, s, a, t);
      assert Link(whole, s, a, t);
    }
    if t in part && Reaches(whole, a, t) {
      var s :| Link(whole, s, a, t);
      ChainInside(part, whole, s);
      assert Link(part, s, a, t);
    }
  }

  lemma ReachesEnds(entries: Entries, a: Txid, t: Txid)
    requires Reaches(entries, a, t)
    ensures a in entries && t in entries
  {
    var s :| Link(entries, s, a, t);
  }

  lemma SameClosure(part: Entries, whole: Entries, direct: set<Txid>)
    requires PartOf(part, whole) && direct <= part.Keys
    ensures UpClosure(part, direct) == UpClosure(whole, direct)
  {
    hide Reaches;
    forall a, p | p in direct
      ensures Reaches(part, a, p) <==> Reaches(whole, a, p)
      ensures Reaches(part, a, p) ==> a in part
    {
      PartReaches(part, whole, a, p);
      if Reaches(part, a, p) {
        ReachesEnds(part, a, p);
      }
    }
    assert forall a :: Above(part, direct, a) <==> Above(whole, direct, a);
  }

  lemma SameReflection(part: Entries, whole: Entries, ids: set<Txid>, u: Utxos<Txid>, state: Utxos<Txid>, height: nat)
    requires PartOf(part, whole) && ids <= part.Keys
    ensures Reflects(state, u, part, ids, height) <==> Reflects(state, u, whole, ids, height)
  {
    forall o
      ensures After(u, part, ids, height, o) == After(u, whole, ids, height, o)
    {
      assert Claimed(part, ids, o) <==> Claimed(whole, ids, o);
    }
  }

  lemma MoreDescendants(part: Entries, whole: Entries, a: Txid)
    requires PartOf(part, whole)
    ensures DescendantsOf(part, a) <= DescendantsOf(whole, a)
    ensures |DescendantsOf(part, a)| <= |DescendantsOf(whole, a)|
  {
    hide Reaches;
    forall t | t in DescendantsOf(part, a)
      ensures t in DescendantsOf(whole, a)
    {
      PartReaches(part, whole, a, t);
    }
    SubsetCount(DescendantsOf(part, a), DescendantsOf(whole, a));
  }

  lemma PartTransitive(a: Entries, b: Entries, c: Entries)
    requires PartOf(a, b) && PartOf(b, c)
    ensures PartOf(a, c)
  {
  }

  // ----- One step of a rebuild -----

  lemma JoinIsPart(entries: Entries, candidate: Entry)
    requires candidate.tx.txid !in entries && Symmetric(entries)
    ensures PartOf(entries, CommittedEntries(entries, candidate, {}))
  {
  }

  lemma PartIsAdmissible(former: Pool, pool: Pool, done: set<Txid>, base: ChainBase, u: Utxos<Txid>,
                         verify: Verifier<Txid>, t: Txid)
    requires Partial(former, pool, done, base, u, verify) && base.tipHeight < U64_MAX
    requires t in former.entries && t !in done
    ensures Admissible(pool, former.entries[t].tx, base)
  {
    hide GraphOk, ClosureBounds, Bytes, PoolOk;
    ClaimsAreFree(former, pool, t);
  }

  /** What re-admitting one entry does. */
  ghost predicate Stepped(former: Pool, pool: Pool, next: Pool, base: ChainBase, u: Utxos<Txid>,
                          verify: Verifier<Txid>, t: Txid)
    requires t in former.entries
  {
    var tx := former.entries[t].tx;
    && PartOf(pool.entries, next.entries)
    && if Reason(pool, u, tx, base.tipHeight + 1, verify) then next == pool
       else
         && next.entries.Keys == pool.entries.Keys + {t}
         && next.entries[t].parents == Producers(u, tx)
         && exists state ::
              && Reflects(state, u, pool.entries, AncestorsFor(pool, u, tx), base.tipHeight + 1)
              && next.entries[t].fee + Total(Made(tx)) == Total(Named(state, tx.inputs))
  }

  lemma StillItself(entries: Entries)
    requires Symmetric(entries)
    ensures PartOf(entries, entries)
  {
  }

  lemma StepTaken(former: Pool, pool: Pool, cand: Candidate, state: Utxos<Txid>, base: ChainBase, u: Utxos<Txid>,
                  verify: Verifier<Txid>, t: Txid, totalBytes: nat)
    requires t in former.entries && t !in pool.entries && former.entries[t].tx.txid == t && Symmetric(pool.entries)
    requires PreparedAs(pool, u, former.entries[t].tx, cand, state)
    requires Reflects(state, u, pool.entries, AncestorsFor(pool, u, former.entries[t].tx), base.tipHeight + 1)
    requires !Reason(pool, u, former.entries[t].tx, base.tipHeight + 1, verify)
    ensures Stepped(former, pool, Committed(pool, cand.entry, {}, totalBytes), base, u, verify, t)
  {
    hide CommittedEntries, CommittedSpenders, Reason, PartOf, Reflects, AncestorsFor, Producers, Total, Named, Made,
         Symmetric;
    JoinIsPart(pool.entries, cand.entry);
    CommittedKeys(pool.entries, cand.entry, {});
  }

  lemma StepSkipped(former: Pool, pool: Pool, base: ChainBase, u: Utxos<Txid>, verify: Verifier<Txid>, t: Txid)
    requires t in former.entries && Symmetric(pool.entries)
    requires Reason(pool, u, former.entries[t].tx, base.tipHeight + 1, verify)
    ensures Stepped(former, pool, pool, base, u, verify, t)
  {
    hide Reason, PartOf, Symmetric;
    StillItself(pool.entries);
  }

  lemma AdmitTakes(former: Pool, pool: Pool, base: ChainBase, u: Utxos<Txid>, verify: Verifier<Txid>, t: Txid)
    requires Valid(former) && Valid(pool) && pool.config == former.config && t in former.entries
    requires pool.entries.Keys <= former.entries.Keys && former.entries[t].tx.txid == t
    requires forall s | s in pool.entries :: pool.entries[s].tx == former.entries[s].tx
    requires Prepare(pool, former.entries[t].tx, base, u, verify).Success?
    requires Prepare(pool, former.entries[t].tx, base, u, verify).value.entry.tx == former.entries[t].tx
    ensures var cand := Prepare(pool, former.entries[t].tx, base, u, verify).value;
            Admit(pool, former.entries[t].tx, base, u, verify)
            == Success(Admitted(Committed(pool, cand.entry, {}, VirtualBytes(pool, cand, {})), {}))
  {
    hide Prepare, CandidateOk, RemoveOk, Valid, VirtualBytes, Committed, PlanCapacity;
    var cand := Prepare(pool, former.entries[t].tx, base, u, verify).value;
    PreparedIsOk(pool, former.entries[t].tx, base, u, verify);
    PlanRemovesNothing(former, pool, cand);
  }

  /** An old entry is re-admitted exactly when there is no reason against it. */
  lemma StepExact(former: Pool, pool: Pool, done: set<Txid>, base: ChainBase, u: Utxos<Txid>, verify: Verifier<Txid>,
                  t: Txid)
    requires Partial(former, pool, done, base, u, verify) && base.tipHeight < U64_MAX
    requires t in former.entries && t !in done
    ensures Valid(pool)
    ensures var r := Readmit(pool, former.entries[t].tx, base, u, verify);
            r.Success? && Stepped(former, pool, r.value, base, u, verify, t)
  {
    hide Partial, Prepare, PlanCapacity, Valid, PoolOk, VirtualBytes, Committed, Stepped, Reason, Admissible, Reflects,
         AncestorsFor, Producers, Total, Named, Made, Symmetric, Acyclic, GraphOk, KeysMatch, SpendersExact;
    PartialFacts(former, pool, done, base, u, verify, t);
    PartIsAdmissible(former, pool, done, base, u, verify, t);
    var tx := former.entries[t].tx;
    var state := PrepareExact(pool, tx, base, u, verify);
    ValidFacts(pool);
    var prepared := Prepare(pool, tx, base, u, verify);
    if prepared.Success? {
      AdmitTakes(former, pool, base, u, verify, t);
      StepTaken(former, pool, prepared.value, state, base, u, verify, t, VirtualBytes(pool, prepared.value, {}));
    } else {
      RebuildStep(former, pool, done, base, u, verify, t);
      StepSkipped(former, pool, base, u, verify, t);
    }
  }

  // ----- Why an entry is gone -----

  /** An input of the old entry is neither on the chain nor an output of a parent that is still there. */
  ghost predicate Orphaned(former: Pool, pool: Pool, u: Utxos<Txid>, t: Txid)
    requires t in former.entries
  {
    exists o :: o in former.entries[t].tx.inputs && o !in u
                && !(NamesOutput(pool.entries, o) && o.txid in former.entries[t].parents)
  }

  /** The reasons for which an old entry is not in the new pool, read off the new pool: it is
      malformed, an input has no source, a closure limit is in the way, or it may not be applied after
      the ancestors it would have. */
  ghost predicate Dropped(former: Pool, pool: Pool, u: Utxos<Txid>, t: Txid, height: nat, verify: Verifier<Txid>)
    requires t in former.entries
  {
    var tx := former.entries[t].tx;
    || CheckSkeleton(tx, NULL_TXID).Failure?
    || Orphaned(former, pool, u, t)
    || ExceedsLimits(pool, u, tx)
    || CannotApply(pool, u, tx, height, verify)
  }

  lemma ReasonDrops(former: Pool, pool: Pool, u: Utxos<Txid>, t: Txid, height: nat, verify: Verifier<Txid>)
    requires t in former.entries && Reason(pool, u, former.entries[t].tx, height, verify)
    ensures Dropped(former, pool, u, t, height, verify)
  {
    hide CheckSkeleton, ExceedsLimits, CannotApply, NamesOutput;
  }

  lemma WiderClosure(part: Entries, whole: Entries, direct: set<Txid>)
    requires PartOf(part, whole)
    ensures UpClosure(part, direct) <= UpClosure(whole, direct)
    ensures |UpClosure(part, direct)| <= |UpClosure(whole, direct)|
  {
    hide Reaches;
    forall a | a in UpClosure(part, direct)
      ensures a in UpClosure(whole, direct)
    {
      var p :| p in direct && (a == p || Reaches(part, a, p));
      PartReaches(part, whole, a, p);
      assert Above(whole, direct, a);
    }
    SubsetCount(UpClosure(part, direct), UpClosure(whole, direct));
  }

  lemma LimitsStay(pool: Pool, next: Pool, u: Utxos<Txid>, tx: Tx<Txid>)
    requires PartOf(pool.entries, next.entries) && next.config == pool.config && ExceedsLimits(pool, u, tx)
    ensures ExceedsLimits(next, u, tx)
  {
    hide PartOf, UpClosure, DescendantsOf, Producers;
    WiderClosure(pool.entries, next.entries, Producers(u, tx));
    if |AncestorsFor(pool, u, tx)| <= pool.config.maxAncestors {
      var a :| a in AncestorsFor(pool, u, tx) && |DescendantsOf(pool.entries, a)| + 1 > pool.config.maxDescendants;
      MoreDescendants(pool.entries, next.entries, a);
      assert a in AncestorsFor(next, u, tx);
    }
  }

  lemma SourcesInside(former: Pool, pool: Pool, u: Utxos<Txid>, t: Txid)
    requires t in former.entries && !Orphaned(former, pool, u, t)
    ensures Producers(u, former.entries[t].tx) <= pool.entries.Keys
  {
  }

  lemma ApplyStays(pool: Pool, next: Pool, u: Utxos<Txid>, tx: Tx<Txid>, height: nat, verify: Verifier<Txid>)
    requires PartOf(pool.entries, next.entries) && Producers(u, tx) <= pool.entries.Keys
    requires CannotApply(pool, u, tx, height, verify)
    ensures CannotApply(next, u, tx, height, verify)
  {
    hide PartOf, UpClosure, Reflects, Applicable, Producers;
    SameClosure(pool.entries, next.entries, Producers(u, tx));
    UpClosureInside(pool.entries, Producers(u, tx));
    var state :| Reflects(state, u, pool.entries, AncestorsFor(pool, u, tx), height)
        && !Applicable(state, tx, height, verify);
    SameReflection(pool.entries, next.entries, AncestorsFor(pool, u, tx), u, state, height);
  }

  lemma OrphanStays(former: Pool, pool: Pool, next: Pool, u: Utxos<Txid>, t: Txid, last: Txid)
    requires PartOf(pool.entries, next.entries) && next.entries.Keys <= pool.entries.Keys + {last}
    requires t in former.entries && last !in former.entries[t].parents
    requires Orphaned(former, pool, u, t)
    ensures Orphaned(former, next, u, t)
  {
    var o :| o in former.entries[t].tx.inputs && o !in u
             && !(NamesOutput(pool.entries, o) && o.txid in former.entries[t].parents);
  }

  /** A reason that held when `t` was passed over still holds when more entries have joined. */
  lemma ReasonStays(former: Pool, pool: Pool, next: Pool, u: Utxos<Txid>, t: Txid, height: nat, verify: Verifier<Txid>,
                    last: Txid)
    requires PartOf(pool.entries, next.entries) && next.config == pool.config
    requires next.entries.Keys <= pool.entries.Keys + {last}
    requires t in former.entries && last !in former.entries[t].parents
    requires Dropped(former, pool, u, t, height, verify)
    ensures Dropped(former, next, u, t, height, verify)
  {
    hide PartOf, CheckSkeleton, ExceedsLimits, CannotApply, Orphaned;
    var tx := former.entries[t].tx;
    if Orphaned(former, pool, u, t) {
      OrphanStays(former, pool, next, u, t, last);
    } else if ExceedsLimits(pool, u, tx) {
      LimitsStay(pool, next, u, tx);
    } else if CannotApply(pool, u, tx, height, verify) {
      SourcesInside(former, pool, u, t);
      ApplyStays(pool, next, u, tx, height, verify);
    }
  }

  // ----- The whole rebuild -----

  /** No entry is listed after one of its children. */
  ghost predicate InOrder(entries: Entries, ids: seq<Txid>) {
    forall i, s | 0 <= i < |ids| && s in ids[..i] && s in entries :: ids[i] !in entries[s].parents
  }

  ghost predicate AllDropped(former: Pool, pool: Pool, ids: seq<Txid>, u: Utxos<Txid>, height: nat,
                             verify: Verifier<Txid>) {
    forall t | t in ids && t in former.entries && t !in pool.entries :: Dropped(former, pool, u, t, height, verify)
  }

  lemma InOrderFront(entries: Entries, ids: seq<Txid>)
    requires InOrder(entries, ids) && ids != []
    ensures InOrder(entries, ids[..|ids| - 1])
    ensures forall s | s in ids[..|ids| - 1] && s in entries :: ids[|ids| - 1] !in entries[s].parents
  {
    var front := ids[..|ids| - 1];
    forall i, s | 0 <= i < |front| && s in front[..i] && s in entries
      ensures front[i] !in entries[s].parents
    {
      assert front[..i] == ids[..i];
    }
  }

  lemma InOrderSnoc(entries: Entries, ids: seq<Txid>, t: Txid)
    requires InOrder(entries, ids) && forall s | s in ids && s in entries :: t !in entries[s].parents
    ensures InOrder(entries, ids + [t])
  {
    var all := ids + [t];
    forall i, s | 0 <= i < |all| && s in all[..i] && s in entries
      ensures all[i] !in entries[s].parents
    {
      if i < |ids| {
        assert all[..i] == ids[..i];
      } else {
        assert all[..i] == ids;
      }
    }
  }

  lemma {:induction false} FilteredInOrder(entries: Entries, order: seq<Txid>, ids: set<Txid>)
    requires InOrder(entries, order)
    ensures InOrder(entries, Filtered(order, ids))
  {
    if order != [] {
      var front, last := order[..|order| - 1], order[|order| - 1];
      InOrderFront(entries, order);
      FilteredInOrder(entries, front, ids);
      var kept := Filtered(front, ids);
      forall s | s in kept
        ensures s in front
      {
        assert s in Elements(kept);
      }
      if last in ids {
        InOrderSnoc(entries, kept, last);
      }
    }
  }

  lemma TopologicalInOrder(entries: Entries, order: seq<Txid>)
    requires IsTopological(entries, order)
    ensures InOrder(entries, order)
  {
    forall i, s | 0 <= i < |order| && s in order[..i] && s in entries
      ensures order[i] !in entries[s].parents
    {
      var j :| 0 <= j < i && order[j] == s;
      assert entries[s].parents <= Elements(order[..j]);
    }
  }

  lemma SteppedConfig(former: Pool, pool: Pool, next: Pool, base: ChainBase, u: Utxos<Txid>, verify: Verifier<Txid>,
                      t: Txid)
    requires t in former.entries && Stepped(former, pool, next, base, u, verify, t)
    ensures PartOf(pool.entries, next.entries) && next.entries.Keys <= pool.entries.Keys + {t}
    ensures t !in next.entries ==> next == pool && Reason(pool, u, former.entries[t].tx, base.tipHeight + 1, verify)
  {
    hide PartOf, Reason, Reflects, Total, Named, Made, AncestorsFor, Producers;
  }

  lemma PartKeys(part: Entries, whole: Entries)
    requires PartOf(part, whole)
    ensures part.Keys <= whole.Keys
  {
  }

  lemma AllDroppedNext(former: Pool, pool: Pool, next: Pool, front: seq<Txid>, last: Txid, base: ChainBase,
                       u: Utxos<Txid>, verify: Verifier<Txid>)
    requires AllDropped(former, pool, front, u, base.tipHeight + 1, verify) && next.config == pool.config
    requires last in former.entries && Stepped(former, pool, next, base, u, verify, last)
    requires forall s | s in front && s in former.entries :: last !in former.entries[s].parents
    ensures AllDropped(former, next, front + [last], u, base.tipHeight + 1, verify)
  {
    hide PartOf, Reason, Dropped, Stepped;
    SteppedConfig(former, pool, next, base, u, verify, last);
    forall t | t in front + [last] && t in former.entries && t !in next.entries
      ensures Dropped(former, next, u, t, base.tipHeight + 1, verify)
    {
      if t in front {
        assert t !in pool.entries by {
          PartKeys(pool.entries, next.entries);
        }
        ReasonStays(former, pool, next, u, t, base.tipHeight + 1, verify, last);
      } else {
        ReasonDrops(former, next, u, t, base.tipHeight + 1, verify);
      }
    }
  }

  lemma PartialConfig(former: Pool, pool: Pool, done: set<Txid>, base: ChainBase, u: Utxos<Txid>,
                      verify: Verifier<Txid>)
    requires Partial(former, pool, done, base, u, verify)
    ensures pool.config == former.config && Valid(pool)
  {
    hide Valid, PoolOk;
  }

  lemma NoneDropped(former: Pool, pool: Pool, u: Utxos<Txid>, height: nat, verify: Verifier<Txid>)
    ensures AllDropped(former, pool, [], u, height, verify)
  {
  }

  /** A rebuild that gets through keeps every listed entry there is no reason to drop. */
  lemma {:induction false} RebuildKeeps(former: Pool, ids: seq<Txid>, base: ChainBase, u: Utxos<Txid>,
                                        verify: Verifier<Txid>)
    requires Valid(former) && NoRepeats(ids) && Elements(ids) <= former.entries.Keys && InOrder(former.entries, ids)
    requires Valid(EmptyPool(base, former.config)) && base.tipHeight < U64_MAX
    ensures var r := Rebuild(EmptyPool(base, former.config), former.entries, ids, base, u, verify);
            r.Success? && AllDropped(former, r.value, ids, u, base.tipHeight + 1, verify)
  {
    hide Valid, Partial, Readmit, Stepped, AllDropped, InOrder, NoRepeats;
    RebuildSucceeds(former, ids, base, u, verify);
    if ids == [] {
      assert AllDropped(former, EmptyPool(base, former.config), ids, u, base.tipHeight + 1, verify) by {
        NoneDropped(former, EmptyPool(base, former.config), u, base.tipHeight + 1, verify);
      }
    } else {
      var front, last := ids[..|ids| - 1], ids[|ids| - 1];
      assert ids == front + [last];
      LastIsNew(ids);
      ElementsSnoc(front, last);
      InOrderFront(former.entries, ids);
      RebuildKeeps(former, front, base, u, verify);
      RebuildSucceeds(former, front, base, u, verify);
      var before := Rebuild(EmptyPool(base, former.config), former.entries, front, base, u, verify).value;
      var after := Rebuild(EmptyPool(base, former.config), former.entries, ids, base, u, verify).value;
      PartialConfig(former, before, Elements(front), base, u, verify);
      PartialConfig(former, after, Elements(ids), base, u, verify);
      StepExact(former, before, Elements(front), base, u, verify, last);
      AllDroppedNext(former, before, after, front, last, base, u, verify);
    }
  }

  lemma RebaseKeeps(pool: Pool, ids: seq<Txid>, base: ChainBase, u: Utxos<Txid>, verify: Verifier<Txid>)
    requires Valid(pool) && NoRepeats(ids) && Elements(ids) <= pool.entries.Keys && InOrder(pool.entries, ids)
    ensures var r := Rebase(pool, ids, base, u, verify);
            r.Success? ==> forall t | t in r.value.removed && t in Elements(ids) && t in pool.entries ::
              Dropped(pool, r.value.pool, u, t, base.tipHeight + 1, verify)
  {
    hide Valid, Rebuild, Dropped, NoRepeats, InOrder;
    EmptyPoolValid(base, pool.config) by {
      ConfigIsOk(pool);
    }
    if ids != [] && Rebase(pool, ids, base, u, verify).Success? {
      RebuildSucceeds(pool, ids, base, u, verify);
      RebuildKeeps(pool, ids, base, u, verify);
    }
  }

  /** A reorganization removes an entry only for a reason. */
  lemma ReorgKeeps(pool: Pool, base: ChainBase, u: Utxos<Txid>, verify: Verifier<Txid>)
    requires Valid(pool)
    ensures var r := ReconcileReorg(pool, base, u, verify);
            r.Success? ==> forall t | t in r.value.removed ::
              t in pool.entries && Dropped(pool, r.value.pool, u, t, base.tipHeight + 1, verify)
  {
    hide Valid, Rebuild, Dropped, InOrder, Symmetric, Acyclic, GraphOk, SpendersExact, KeysMatch, LexLe, Greedy;
    ValidFacts(pool);
    var ids := TheOrder(pool.entries);
    TopologicalInOrder(pool.entries, ids);
    RebaseKeeps(pool, ids, base, u, verify);
  }

  lemma RemainingInOrder(pool: Pool, block: seq<Tx<Txid>>)
    requires Valid(pool)
    ensures InOrder(pool.entries, Remaining(pool, block))
  {
    hide Valid, InOrder, Excluded, Confirmed, Symmetric, Acyclic, GraphOk, SpendersExact, KeysMatch, LexLe, Greedy;
    ValidFacts(pool);
    TopologicalInOrder(pool.entries, TheOrder(pool.entries));
    FilteredInOrder(pool.entries, TheOrder(pool.entries), pool.entries.Keys - Confirmed(block) - Excluded(pool, block));
  }

  ghost predicate InBlock(block: seq<Tx<Txid>>, t: Txid) {
    exists tx :: tx in block && tx.txid == t
  }

  /** The entry is not in the block but spends an output that the block spends. */
  ghost predicate Clashes(pool: Pool, block: seq<Tx<Txid>>, t: Txid) {
    && t in pool.entries && !InBlock(block, t)
    && exists tx, o :: tx in block && o in tx.inputs && o in pool.entries[t].tx.inputs
  }

  /** It is such an entry or descends from one. */
  ghost predicate Swept(pool: Pool, block: seq<Tx<Txid>>, t: Txid) {
    t in pool.entries && exists root :: Clashes(pool, block, root) && (t == root || Reaches(pool.entries, root, t))
  }

  lemma DisplacedClash(pool: Pool, block: seq<Tx<Txid>>, t: Txid)
    requires Valid(pool)
    ensures t in Displaced(pool, Confirmed(block), SpentBy(block)) <==> Clashes(pool, block, t)
    ensures t in Confirmed(block) <==> InBlock(block, t)
  {
    hide GraphOk, ClosureBounds, Bytes, KeysMatch;
    if Clashes(pool, block, t) {
      var tx, o :| tx in block && o in tx.inputs && o in pool.entries[t].tx.inputs;
      assert o in SpentBy(block) && pool.spenders[o] == t;
    }
  }

  lemma ClashInside(pool: Pool, block: seq<Tx<Txid>>, t: Txid)
    ensures Clashes(pool, block, t) ==> t in pool.entries
  {
  }

  lemma ExcludedSwept(pool: Pool, block: seq<Tx<Txid>>, t: Txid)
    requires Valid(pool)
    ensures t in Excluded(pool, block) <==> Swept(pool, block, t)
  {
    hide Valid, Reaches, Displaced, Confirmed, SpentBy, Clashes;
    forall root
      ensures root in Displaced(pool, Confirmed(block), SpentBy(block)) <==> Clashes(pool, block, root)
      ensures Clashes(pool, block, root) ==> root in pool.entries
    {
      DisplacedClash(pool, block, root);
      ClashInside(pool, block, root);
    }
  }

  /** A new active block removes every entry that is in the block, spends what the block spends or
      descends from an entry that does; any other entry it removes only for a reason. */
  lemma BlockKeeps(pool: Pool, block: seq<Tx<Txid>>, base: ChainBase, u: Utxos<Txid>, verify: Verifier<Txid>)
    requires Valid(pool)
    ensures var r := ReconcileBlock(pool, block, base, u, verify);
            r.Success? ==>
              && r.value.removed <= pool.entries.Keys
              && forall t | t in pool.entries ::
                   if InBlock(block, t) || Swept(pool, block, t) then t in r.value.removed
                   else t in r.value.removed ==> Dropped(pool, r.value.pool, u, t, base.tipHeight + 1, verify)
  {
    hide Valid, Rebuild, Dropped, InOrder, Excluded, Confirmed, NoRepeats, Elements, Swept, InBlock, Rebased;
    RemainingInOrder(pool, block);
    RebaseKeeps(pool, Remaining(pool, block), base, u, verify);
    RebaseOutcome(pool, Remaining(pool, block), base, u, verify);
    var r := ReconcileBlock(pool, block, base, u, verify);
    if r.Success? {
      RebasedKeys(pool, Elements(Remaining(pool, block)), base, u, verify, r.value);
      forall t | t in pool.entries
        ensures t in Excluded(pool, block) <==> Swept(pool, block, t)
        ensures t in Confirmed(block) <==> InBlock(block, t)
      {
        ExcludedSwept(pool, block, t);
        DisplacedClash(pool, block, t);
      }
    }
  }
}
