/** A pool that agrees with its chain state: admissions and reconciliations keep it so, and
    reconciling it again with the same chain state changes nothing. */
module PoolSteady {
  import opened Prelude
  import opened Ledger
  import opened LedgerTotals
  import opened PoolGraph
  import opened PoolClosure
  import opened PoolState
  import opened PoolCommit
  import opened PoolAdmission
  import opened PoolCapacity
  import opened PoolReplay
  import opened PoolJoin
  import opened PoolRebuild
  import opened PoolReconcile
  import opened PoolAgreement
  import opened PoolKept
  import opened PoolRun

  /** Every entry is well formed and linked to exactly the pool transactions it spends off the chain. */
  ghost predicate Sourced(u: Utxos<Txid>, entries: Entries) {
    forall t | t in entries :: entries[t].parents == Producers(u, entries[t].tx)
                               && CheckSkeleton(entries[t].tx, NULL_TXID).Success?
  }

  ghost predicate Agrees(pool: Pool, u: Utxos<Txid>, verify: Verifier<Txid>) {
    && Valid(pool)
    && PoolOk(u, pool.entries, pool.base.tipHeight + 1, verify)
    && Sourced(u, pool.entries)
    && (pool.entries != map[] ==> pool.base.tipHeight < U64_MAX)
  }

  // ----- Evictions -----

  lemma PartClears(part: Entries, whole: Entries, t: Txid, o: OutPoint<Txid>)
    requires PartOf(part, whole) && t in part && ClearedByAncestor(whole, t, o)
    ensures ClearedByAncestor(part, t, o)
  {
    hide Reaches;
    var a :| a in whole && Reaches(whole, a, t) && o in whole[a].tx.inputs;
    PartReaches(part, whole, a, t);
    ReachesEnds(part, a, t);
  }

  lemma PartNames(part: Entries, whole: Entries, u: Utxos<Txid>, t: Txid, height: nat, verify: Verifier<Txid>,
                  o: OutPoint<Txid>)
    requires PartOf(part, whole) && t in part && EntryOk(u, whole, t, height, verify)
    requires o in part[t].tx.inputs && o !in u
    ensures NamesOutput(part, o) && NamesOutput(whole, o) && o.txid in part[t].parents
            && part[o.txid].tx == whole[o.txid].tx
  {
    hide LocalFee, NoCollision;
  }

  lemma EntryFee(u: Utxos<Txid>, entries: Entries, t: Txid, height: nat, verify: Verifier<Txid>)
    requires t in entries && EntryOk(u, entries, t, height, verify)
    ensures LocalFee(u, entries, entries[t].tx, height, verify) == Success(entries[t].fee)
    ensures NoCollision(u, entries, t)
  {
    hide LocalFee, NoCollision;
  }

  lemma PartFee(part: Entries, whole: Entries, u: Utxos<Txid>, t: Txid, height: nat, verify: Verifier<Txid>)
    requires PartOf(part, whole) && t in part && EntryOk(u, whole, t, height, verify)
    ensures LocalFee(u, part, part[t].tx, height, verify) == Success(part[t].fee)
  {
    hide NoCollision, ScanInputs, SumOutputs, EntryOk;
    var tx := part[t].tx;
    forall o | o in Spent(tx) && o !in u
      ensures NamesOutput(part, o) && NamesOutput(whole, o) && part[o.txid].tx == whole[o.txid].tx
    {
      PartNames(part, whole, u, t, height, verify, o);
    }
    assert LocalView(u, part, tx, height) == LocalView(u, whole, tx, height);
    EntryFee(u, whole, t, height, verify);
  }

  lemma PartFields(part: Entries, whole: Entries, t: Txid)
    requires PartOf(part, whole) && t in part
    ensures t in whole && SameLinks(part[t], whole[t])
  {
  }

  lemma PartEntryOk(part: Entries, whole: Entries, u: Utxos<Txid>, t: Txid, height: nat, verify: Verifier<Txid>)
    requires PartOf(part, whole) && t in part && EntryOk(u, whole, t, height, verify)
    ensures EntryOk(u, part, t, height, verify)
  {
    hide LocalFee, ClearedByAncestor, PartOf;
    PartFields(part, whole, t);
    PartFee(part, whole, u, t, height, verify);
    EntryFee(u, whole, t, height, verify);
    forall o | o in part[t].tx.inputs && o !in u
      ensures NamesOutput(part, o) && o.txid in part[t].parents
    {
      PartNames(part, whole, u, t, height, verify, o);
    }
    forall i: nat | i < |part[t].tx.outputs|
      ensures OutPoint(t, i) !in u || ClearedByAncestor(part, t, OutPoint(t, i))
    {
      if OutPoint(t, i) in u {
        PartClears(part, whole, t, OutPoint(t, i));
      }
    }
  }

  /** A part that keeps its parents agrees with the chain state if the whole does. */
  lemma PartIsOk(part: Entries, whole: Entries, u: Utxos<Txid>, height: nat, verify: Verifier<Txid>)
    requires PartOf(part, whole) && PoolOk(u, whole, height, verify)
    ensures PoolOk(u, part, height, verify)
  {
    hide EntryOk, Reaches;
    forall t | t in part
      ensures EntryOk(u, part, t, height, verify)
    {
      PartEntryOk(part, whole, u, t, height, verify);
    }
    forall t | t in part
      ensures !Reaches(part, t, t)
    {
      PartReaches(part, whole, t, t);
    }
  }

  lemma EvictedIsPart(entries: Entries, candidate: Entry, remove: set<Txid>)
    requires candidate.tx.txid !in entries && Symmetric(CommittedEntries(entries, candidate, remove))
    ensures PartOf(CommittedEntries(entries, candidate, remove), CommittedEntries(entries, candidate, {}))
  {
  }

  lemma SourcedNext(u: Utxos<Txid>, entries: Entries, candidate: Entry, remove: set<Txid>)
    requires Sourced(u, entries) && candidate.parents == Producers(u, candidate.tx)
    requires CheckSkeleton(candidate.tx, NULL_TXID).Success?
    ensures Sourced(u, CommittedEntries(entries, candidate, remove))
  {
    hide Producers, CheckSkeleton;
  }

  lemma AgreesFacts(pool: Pool, u: Utxos<Txid>, verify: Verifier<Txid>)
    requires Agrees(pool, u, verify)
    ensures Valid(pool) && PoolOk(u, pool.entries, pool.base.tipHeight + 1, verify) && Sourced(u, pool.entries)
    ensures pool.entries != map[] ==> pool.base.tipHeight < U64_MAX
  {
    hide Valid, PoolOk, Sourced;
  }

  lemma PreparedHere(pool: Pool, tx: Tx<Txid>, base: ChainBase, u: Utxos<Txid>, verify: Verifier<Txid>)
    requires Valid(pool) && Prepare(pool, tx, base, u, verify).Success?
    ensures base == pool.base && base.tipHeight < U64_MAX && Screen(pool, tx, base).Success?
    ensures CheckSkeleton(tx, NULL_TXID).Success?
  {
    hide Valid, CheckSkeleton, DirectParents, FeeAfterReplay, Narrowed, UpClosure, DescendantsFull, Filtered;
  }

  lemma AgreesNow(pool: Pool, u: Utxos<Txid>, verify: Verifier<Txid>)
    requires Valid(pool) && PoolOk(u, pool.entries, pool.base.tipHeight + 1, verify) && Sourced(u, pool.entries)
    requires pool.entries != map[] ==> pool.base.tipHeight < U64_MAX
    ensures Agrees(pool, u, verify)
  {
    hide Valid, PoolOk, Sourced;
  }

  /** An admission against the chain state the pool agrees with, whatever it evicts. */
  lemma CommitAgrees(pool: Pool, cand: Candidate, remove: set<Txid>, totalBytes: nat, state: Utxos<Txid>,
                     u: Utxos<Txid>, verify: Verifier<Txid>)
    requires Agrees(pool, u, verify) && pool.base.tipHeight < U64_MAX
    requires CandidateOk(pool, cand) && RemoveOk(pool, cand, remove)
    requires Settled(u, pool, cand, state, pool.base.tipHeight + 1, verify)
    requires cand.entry.parents == Producers(u, cand.entry.tx) && CheckSkeleton(cand.entry.tx, NULL_TXID).Success?
    requires Valid(Committed(pool, cand.entry, remove, totalBytes))
    ensures Agrees(Committed(pool, cand.entry, remove, totalBytes), u, verify)
  {
    hide Agrees, Valid, PoolOk, Sourced, CandidateOk, RemoveOk, Settled, Producers, CheckSkeleton, CommittedEntries,
         CommittedSpenders, Symmetric, Acyclic, GraphOk, SpendersExact, KeysMatch, PartOf;
    AgreesFacts(pool, u, verify);
    ClaimsAreNew(pool, cand);
    JoinKeepsOk(u, pool, cand, state, pool.base.tipHeight + 1, verify);
    ValidFacts(Committed(pool, cand.entry, remove, totalBytes));
    EvictedIsPart(pool.entries, cand.entry, remove);
    PartIsOk(CommittedEntries(pool.entries, cand.entry, remove), CommittedEntries(pool.entries, cand.entry, {}), u,
             pool.base.tipHeight + 1, verify);
    SourcedNext(u, pool.entries, cand.entry, remove);
    AgreesNow(Committed(pool, cand.entry, remove, totalBytes), u, verify);
  }

  lemma AdmitAgrees(pool: Pool, tx: Tx<Txid>, base: ChainBase, u: Utxos<Txid>, verify: Verifier<Txid>)
    requires Agrees(pool, u, verify)
    ensures Valid(pool)
    ensures var r := Admit(pool, tx, base, u, verify);
            r.Success? ==> Agrees(r.value.pool, u, verify) && r.value.pool.base == pool.base
  {
    hide Agrees, Valid, PoolOk, Sourced, CandidateOk, RemoveOk, Settled, Producers, CheckSkeleton, Prepare,
         PlanCapacity, FitsAfter, AllJustified, Screen, CommittedEntries, CommittedSpenders, Reflects, AncestorsFor,
             Total, Made, Named;
    AgreesFacts(pool, u, verify);
    if Admit(pool, tx, base, u, verify).Success? {
      PreparedHere(pool, tx, base, u, verify);
      PreparedIsOk(pool, tx, base, u, verify);
      var cand := Prepare(pool, tx, base, u, verify).value;
      var state := PrepareOutcome(pool, tx, base, u, verify);
      var other := PrepareExact(pool, tx, base, u, verify);
      NothingRemoved(pool, cand);
      PlanIsSound(pool, cand, {});
      AdmitKeepsValid(pool, tx, base, u, verify);
      var plan := PlanCapacity(pool, cand, {}).value;
      CommitAgrees(pool, cand, plan.0, plan.1, state, u, verify);
    }
  }

  // ----- Reconciliations -----

  lemma SteppedSourced(former: Pool, pool: Pool, next: Pool, base: ChainBase, u: Utxos<Txid>, verify: Verifier<Txid>,
                       t: Txid)
    requires t in former.entries && Stepped(former, pool, next, base, u, verify, t) && Sourced(u, pool.entries)
    requires t in next.entries ==> next.entries[t].tx == former.entries[t].tx
    ensures Sourced(u, next.entries)
  {
    hide CheckSkeleton, Producers, MissesInput, ExceedsLimits, CannotApply, Reflects, AncestorsFor, Total, Made, Named;
    forall s | s in next.entries
      ensures next.entries[s].parents == Producers(u, next.entries[s].tx)
      ensures CheckSkeleton(next.entries[s].tx, NULL_TXID).Success?
    {
      if s in pool.entries {
        assert SameLinks(pool.entries[s], next.entries[s]);
      }
    }
  }

  lemma NothingSourced(u: Utxos<Txid>, base: ChainBase, config: Config)
    ensures Sourced(u, EmptyPool(base, config).entries)
  {
  }

  lemma PartialCarries(former: Pool, pool: Pool, done: set<Txid>, base: ChainBase, u: Utxos<Txid>,
                       verify: Verifier<Txid>)
    requires Partial(former, pool, done, base, u, verify)
    ensures pool.entries.Keys <= former.entries.Keys
    ensures forall t | t in pool.entries :: pool.entries[t].tx == former.entries[t].tx
    ensures PoolOk(u, pool.entries, base.tipHeight + 1, verify) && Valid(pool) && pool.base == base
    ensures pool.config == former.config
  {
    hide Valid, PoolOk;
  }

  lemma {:induction false} RebuildSourced(former: Pool, ids: seq<Txid>, base: ChainBase, u: Utxos<Txid>,
                                          verify: Verifier<Txid>)
    requires Valid(former) && NoRepeats(ids) && Elements(ids) <= former.entries.Keys
    requires Valid(EmptyPool(base, former.config)) && base.tipHeight < U64_MAX
    ensures var r := Rebuild(EmptyPool(base, former.config), former.entries, ids, base, u, verify);
            r.Success? && Sourced(u, r.value.entries)
  {
    hide Valid, Partial, Readmit, Stepped, Sourced, NoRepeats, PoolOk;
    RebuildSucceeds(former, ids, base, u, verify);
    if ids == [] {
      NothingSourced(u, base, former.config);
    } else {
      var front, last := ids[..|ids| - 1], ids[|ids| - 1];
      assert ids == front + [last];
      LastIsNew(ids);
      ElementsSnoc(front, last);
      RebuildSourced(former, front, base, u, verify);
      RebuildSucceeds(former, front, base, u, verify);
      var before := Rebuild(EmptyPool(base, former.config), former.entries, front, base, u, verify).value;
      var after := Rebuild(EmptyPool(base, former.config), former.entries, ids, base, u, verify).value;
      PartialConfig(former, before, Elements(front), base, u, verify);
      PartialCarries(former, after, Elements(ids), base, u, verify);
      StepExact(former, before, Elements(front), base, u, verify, last);
      SteppedSourced(former, before, after, base, u, verify, last);
    }
  }

  lemma RebuildNothing(pool: Pool, source: Entries, base: ChainBase, u: Utxos<Txid>, verify: Verifier<Txid>)
    requires Valid(pool) && Elements([]) <= source.Keys
    ensures Rebuild(pool, source, [], base, u, verify) == Success(pool)
  {
    hide Valid;
  }

  lemma RebaseAgrees(pool: Pool, ids: seq<Txid>, base: ChainBase, u: Utxos<Txid>, verify: Verifier<Txid>)
    requires Valid(pool) && NoRepeats(ids) && Elements(ids) <= pool.entries.Keys
    ensures var r := Rebase(pool, ids, base, u, verify);
            r.Success? ==> Agrees(r.value.pool, u, verify) && r.value.pool.base == base
  {
    hide Valid, Rebuild, Partial, Sourced, NoRepeats, PoolOk, Agrees;
    EmptyPoolValid(base, pool.config) by {
      ConfigIsOk(pool);
    }
    RebuildSucceeds(pool, ids, base, u, verify);
    var r := Rebuild(EmptyPool(base, pool.config), pool.entries, ids, base, u, verify);
    if r.Success? {
      PartialCarries(pool, r.value, Elements(ids), base, u, verify);
      if ids == [] {
        RebuildNothing(EmptyPool(base, pool.config), pool.entries, base, u, verify);
        NothingSourced(u, base, pool.config);
      } else {
        RebuildSourced(pool, ids, base, u, verify);
      }
      AgreesNow(r.value, u, verify);
    }
  }

  // ----- The same chain state again -----

  lemma AncestorReaches(entries: Entries, t: Txid, a: Txid)
    requires t in entries && a in UpClosure(entries, entries[t].parents)
    ensures Reaches(entries, a, t) && a in entries
  {
    hide Reaches;
    var p :| p in entries[t].parents && (a == p || Reaches(entries, a, p));
    if a == p {
      ReachesParent(entries, a, t);
    } else {
      ReachesStep(entries, a, p, t);
    }
  }

  lemma LimitsHold(pool: Pool, part: Pool, t: Txid, a: Txid)
    requires ClosureBounds(pool.entries, pool.config) && t in pool.entries && t !in part.entries
    requires PartOf(part.entries, pool.entries) && a in UpClosure(pool.entries, pool.entries[t].parents)
    ensures |DescendantsOf(part.entries, a)| + 1 <= pool.config.maxDescendants
  {
    hide Reaches, PartOf;
    AncestorReaches(pool.entries, t, a);
    MoreDescendants(part.entries, pool.entries, a);
    var less := DescendantsOf(part.entries, a);
    assert less + {t} <= DescendantsOf(pool.entries, a);
    SubsetCount(less + {t}, DescendantsOf(pool.entries, a));
  }

  lemma FewAncestors(pool: Pool, t: Txid)
    requires ClosureBounds(pool.entries, pool.config) && t in pool.entries
    ensures |UpClosure(pool.entries, pool.entries[t].parents)| <= pool.config.maxAncestors
  {
    hide Reaches;
    var up := UpClosure(pool.entries, pool.entries[t].parents);
    forall a | a in up
      ensures a in AncestorsOf(pool.entries, t)
    {
      AncestorReaches(pool.entries, t, a);
    }
    SubsetCount(up, AncestorsOf(pool.entries, t));
  }

  lemma ParentsAbove(entries: Entries, t: Txid)
    requires t in entries && entries[t].parents <= entries.Keys && Acyclic(entries)
    ensures entries[t].parents <= UpClosure(entries, entries[t].parents)
    ensures t !in UpClosure(entries, entries[t].parents)
  {
    hide Reaches;
    forall p | p in entries[t].parents
      ensures p in UpClosure(entries, entries[t].parents)
    {
      DirectAbove(entries, entries[t].parents, p);
    }
    if t in UpClosure(entries, entries[t].parents) {
      AncestorReaches(entries, t, t);
    }
  }

  /** After its ancestors an entry of an agreeing pool costs its recorded fee. */
  lemma FeeAgain(pool: Pool, u: Utxos<Txid>, t: Txid, state: Utxos<Txid>, height: nat, verify: Verifier<Txid>)
    requires Valid(pool) && PoolOk(u, pool.entries, height, verify) && t in pool.entries
    requires Reflects(state, u, pool.entries, UpClosure(pool.entries, pool.entries[t].parents), height)
    ensures FeeOf(state, pool.entries[t].tx, height, verify) == Success(pool.entries[t].fee)
  {
    hide PoolOk, Reflects, FeeOf, Valid, UpClosure, ParentsFirst, GraphOk, SpendersExact, KeysMatch, Symmetric, Acyclic;
    ValidFacts(pool);
    ChildrenInside(pool.entries, t);
    ParentsAbove(pool.entries, t);
    AncestorOrder(pool.entries, pool.entries[t].parents);
    var order := Filtered(TheOrder(pool.entries), UpClosure(pool.entries, pool.entries[t].parents));
    NextFee(u, pool.entries, order, t, state, height, verify);
  }

  lemma SourcesStand(part: Entries, whole: Entries, u: Utxos<Txid>, t: Txid, height: nat, verify: Verifier<Txid>)
    requires PartOf(part, whole) && t in whole && whole[t].parents <= part.Keys && EntryOk(u, whole, t, height, verify)
    ensures forall o | o in whole[t].tx.inputs && o !in u :: NamesOutput(part, o)
  {
    hide LocalFee, NoCollision;
  }

  lemma BoundsOf(pool: Pool)
    requires Valid(pool)
    ensures ClosureBounds(pool.entries, pool.config)
  {
  }

  lemma OkOf(u: Utxos<Txid>, entries: Entries, height: nat, verify: Verifier<Txid>, t: Txid)
    requires PoolOk(u, entries, height, verify) && t in entries
    ensures EntryOk(u, entries, t, height, verify)
  {
  }

  /** There is no reason against the next entry of an agreeing pool. */
  lemma NoReason(pool: Pool, part: Pool, u: Utxos<Txid>, t: Txid, height: nat, verify: Verifier<Txid>)
    requires Valid(pool) && PoolOk(u, pool.entries, height, verify) && Sourced(u, pool.entries)
    requires PartOf(part.entries, pool.entries) && part.config == pool.config
    requires t in pool.entries && t !in part.entries && pool.entries[t].parents <= part.entries.Keys
    ensures !Reason(part, u, pool.entries[t].tx, height, verify)
    ensures forall state | Reflects(state, u, part.entries, AncestorsFor(part, u, pool.entries[t].tx), height) ::
              FeeOf(state, pool.entries[t].tx, height, verify) == Success(pool.entries[t].fee)
  {
    hide PoolOk, Reflects, FeeOf, Valid, UpClosure, PartOf, Producers, ClosureBounds, EntryOk, CheckSkeleton,
         Applicable, DescendantsOf, NamesOutput, Total, Made, Named;
    var tx, up := pool.entries[t].tx, UpClosure(pool.entries, pool.entries[t].parents);
    BoundsOf(pool);
    SameClosure(part.entries, pool.entries, pool.entries[t].parents);
    assert AncestorsFor(part, u, tx) == up;
    FewAncestors(pool, t);
    forall a | a in up
      ensures |DescendantsOf(part.entries, a)| + 1 <= pool.config.maxDescendants
    {
      LimitsHold(pool, part, t, a);
    }
    OkOf(u, pool.entries, height, verify, t);
    SourcesStand(part.entries, pool.entries, u, t, height, verify);
    UpClosureInside(part.entries, pool.entries[t].parents);
    forall state | Reflects(state, u, part.entries, up, height)
      ensures FeeOf(state, tx, height, verify) == Success(pool.entries[t].fee) && Applicable(state, tx, height, verify)
    {
      SameReflection(part.entries, pool.entries, up, u, state, height);
      FeeAgain(pool, u, t, state, height, verify);
      FeeMeans(state, tx, height, verify);
    }
  }

  lemma NextPart(pool: Pool, part: Pool, next: Pool, u: Utxos<Txid>, t: Txid, base: ChainBase, verify: Verifier<Txid>)
    requires Valid(pool) && PoolOk(u, pool.entries, base.tipHeight + 1, verify) && Sourced(u, pool.entries)
    requires PartOf(part.entries, pool.entries) && part.config == pool.config
    requires t in pool.entries && t !in part.entries && pool.entries[t].parents <= part.entries.Keys
    requires Stepped(pool, part, next, base, u, verify, t)
    requires t in next.entries ==> next.entries[t].tx == pool.entries[t].tx
    ensures PartOf(next.entries, pool.entries) && next.entries.Keys == part.entries.Keys + {t}
  {
    hide PoolOk, Reflects, FeeOf, Valid, Producers, AncestorsFor, Reason, CheckSkeleton, Applicable, Total, Made, Named;
    var tx := pool.entries[t].tx;
    NoReason(pool, part, u, t, base.tipHeight + 1, verify);
    var state :| Reflects(state, u, part.entries, AncestorsFor(part, u, tx), base.tipHeight + 1)
                 && next.entries[t].fee + Total(Made(tx)) == Total(Named(state, tx.inputs));
    FeeMeans(state, tx, base.tipHeight + 1, verify);
    assert SameLinks(next.entries[t], pool.entries[t]);
    forall s | s in part.entries
      ensures SameLinks(next.entries[s], pool.entries[s])
    {
      assert SameLinks(part.entries[s], next.entries[s]);
      assert SameLinks(part.entries[s], pool.entries[s]);
    }
  }

  lemma EmptyIsPart(base: ChainBase, config: Config, entries: Entries)
    ensures PartOf(EmptyPool(base, config).entries, entries)
  {
  }

  /** Rebuilding from the first `k` entries of the order keeps them all. */
  lemma {:induction false} RebuildAgain(pool: Pool, order: seq<Txid>, k: nat, base: ChainBase, u: Utxos<Txid>,
                                        verify: Verifier<Txid>)
    requires Valid(pool) && PoolOk(u, pool.entries, base.tipHeight + 1, verify) && Sourced(u, pool.entries)
    requires ParentsFirst(pool.entries, order) && k <= |order| && Elements(order[..k]) <= pool.entries.Keys
    requires Valid(EmptyPool(base, pool.config)) && base.tipHeight < U64_MAX
    ensures var r := Rebuild(EmptyPool(base, pool.config), pool.entries, order[..k], base, u, verify);
            && r.Success? && PartOf(r.value.entries, pool.entries)
            && r.value.entries.Keys == Elements(order[..k])
            && r.value.config == pool.config && r.value.base == base
  {
    hide Valid, Partial, Readmit, Stepped, Sourced, PoolOk, PartOf;
    var ids := order[..k];
    assert NoRepeats(ids);
    RebuildSucceeds(pool, ids, base, u, verify);
    var after := Rebuild(EmptyPool(base, pool.config), pool.entries, ids, base, u, verify).value;
    PartialCarries(pool, after, Elements(ids), base, u, verify);
    if k == 0 {
      EmptyIsPart(base, pool.config, pool.entries);
      assert ids == [];
    } else {
      var front, last := order[..k - 1], order[k - 1];
      assert ids[..|ids| - 1] == front && ids == front + [last];
      ElementsSnoc(front, last);
      LastIsNew(ids);
      RebuildAgain(pool, order, k - 1, base, u, verify);
      RebuildSucceeds(pool, front, base, u, verify);
      var before := Rebuild(EmptyPool(base, pool.config), pool.entries, front, base, u, verify).value;
      PartialConfig(pool, before, Elements(front), base, u, verify);
      StepExact(pool, before, Elements(front), base, u, verify, last);
      NextPart(pool, before, after, u, last, base, verify);
    }
  }

  lemma SameChildren(part: Entries, whole: Entries, t: Txid)
    requires Symmetric(part) && Symmetric(whole) && PartOf(part, whole) && part.Keys == whole.Keys && t in whole
    ensures part[t] == whole[t]
  {
    assert SameLinks(part[t], whole[t]);
    forall c
      ensures c in part[t].children <==> c in whole[t].children
    {
      if c in part {
        assert SameLinks(part[c], whole[c]);
      }
    }
    assert part[t].children == whole[t].children;
  }

  lemma SameEntries(part: Entries, whole: Entries)
    requires Symmetric(part) && Symmetric(whole) && PartOf(part, whole) && part.Keys == whole.Keys
    ensures part == whole
  {
    hide Symmetric, PartOf;
    forall t | t in whole
      ensures part[t] == whole[t]
    {
      SameChildren(part, whole, t);
    }
  }

  lemma SameSpenders(entries: Entries, a: Spenders, b: Spenders)
    requires SpendersExact(entries, a) && SpendersExact(entries, b)
    ensures a == b
  {
    assert forall o :: o in a <==> o in b;
  }

  lemma ValidBytes(pool: Pool)
    requires Valid(pool)
    ensures pool.totalBytes == Bytes(pool.entries, pool.entries.Keys)
  {
  }

  lemma WholePart(part: Pool, pool: Pool)
    requires Valid(part) && Valid(pool) && PartOf(part.entries, pool.entries) && part.entries.Keys == pool.entries.Keys
    ensures part.entries == pool.entries && part.spenders == pool.spenders && part.totalBytes == pool.totalBytes
  {
    ValidFacts(part);
    ValidFacts(pool);
    ValidBytes(part);
    ValidBytes(pool);
    hide Valid, PartOf, Symmetric, Acyclic, GraphOk, SpendersExact, KeysMatch, Bytes;
    SameEntries(part.entries, pool.entries);
    SameSpenders(pool.entries, part.spenders, pool.spenders);
  }

  lemma OrderIsFirst(entries: Entries)
    requires Symmetric(entries) && Acyclic(entries)
    ensures ParentsFirst(entries, TheOrder(entries)) && Elements(TheOrder(entries)) == entries.Keys
  {
    hide LexLe, Greedy;
  }

  lemma RebaseAgain(pool: Pool, base: ChainBase, u: Utxos<Txid>, verify: Verifier<Txid>)
    requires Valid(pool) && PoolOk(u, pool.entries, base.tipHeight + 1, verify) && Sourced(u, pool.entries)
    requires base.tipHeight < U64_MAX
    ensures ReconcileReorg(pool, base, u, verify) == Success(Reconciled(pool.(base := base), {}, |pool.entries|))
  {
    hide Valid, PoolOk, Sourced, PartOf, Rebuild, Symmetric, Acyclic, GraphOk, SpendersExact, KeysMatch, ParentsFirst;
    ValidFacts(pool);
    OrderIsFirst(pool.entries);
    EmptyPoolValid(base, pool.config) by {
      ConfigIsOk(pool);
    }
    var order := TheOrder(pool.entries);
    assert order[..|order|] == order;
    RebuildAgain(pool, order, |order|, base, u, verify);
    var rebuilt := Rebuild(EmptyPool(base, pool.config), pool.entries, order, base, u, verify).value;
    WholePart(rebuilt, pool);
    assert rebuilt == pool.(base := base);
    assert pool.entries.Keys - rebuilt.entries.Keys == {};
  }

  lemma EmptyEntries(pool: Pool)
    requires Valid(pool) && pool.entries == map[]
    ensures pool == EmptyPool(pool.base, pool.config) && Elements(TheOrder(pool.entries)) == {}
  {
    NoBytes(pool.entries);
    assert pool.spenders == map[];
  }

  /** Reconciling a pool with a chain state it already agrees with keeps every entry, fee and link. */
  lemma SteadyReorg(pool: Pool, base: ChainBase, u: Utxos<Txid>, verify: Verifier<Txid>)
    requires Agrees(pool, u, verify) && base.tipHeight == pool.base.tipHeight
    ensures Valid(pool)
    ensures ReconcileReorg(pool, base, u, verify) == Success(Reconciled(pool.(base := base), {}, |pool.entries|))
  {
    hide Agrees, Valid, PoolOk, Sourced, Rebuild;
    AgreesFacts(pool, u, verify);
    if pool.entries == map[] {
      EmptyEntries(pool);
      NothingListed(TheOrder(pool.entries));
      EmptyPoolValid(base, pool.config) by {
        ConfigIsOk(pool);
      }
      RebuildNothing(EmptyPool(base, pool.config), pool.entries, base, u, verify);
      assert pool.entries.Keys - pool.entries.Keys == {};
      assert pool.(base := base) == EmptyPool(base, pool.config);
    } else {
      RebaseAgain(pool, base, u, verify);
    }
  }

  // ----- Whole runs -----

  /** Every call is made against the chain state its base names. */
  ghost predicate Faithful(events: seq<Event>, chain: ChainBase -> Utxos<Txid>, verifier: ChainBase -> Verifier<Txid>) {
    forall i | 0 <= i < |events| :: events[i].utxos == chain(events[i].base)
        && events[i].verify == verifier(events[i].base)
  }

  lemma StaleIsRefused(pool: Pool, tx: Tx<Txid>, base: ChainBase, u: Utxos<Txid>, verify: Verifier<Txid>)
    requires Valid(pool) && base != pool.base
    ensures Admit(pool, tx, base, u, verify).Failure?
  {
    hide Valid;
  }

  lemma OrderFacts(pool: Pool)
    requires Valid(pool)
    ensures Symmetric(pool.entries) && Acyclic(pool.entries)
    ensures NoRepeats(TheOrder(pool.entries)) && Elements(TheOrder(pool.entries)) <= pool.entries.Keys
  {
    hide LexLe, Greedy, SpendersExact, ClosureBounds, Bytes;
  }

  lemma FollowingAgrees(pool: Pool, event: Event, chain: ChainBase -> Utxos<Txid>,
                        verifier: ChainBase -> Verifier<Txid>)
    requires Agrees(pool, chain(pool.base), verifier(pool.base))
    requires event.utxos == chain(event.base) && event.verify == verifier(event.base)
    ensures Valid(pool)
    ensures var next := Following(pool, event); Agrees(next, chain(next.base), verifier(next.base))
  {
    hide Agrees, Valid, Admit, Rebase, NoRepeats, Elements;
    AgreesFacts(pool, chain(pool.base), verifier(pool.base));
    match event
    case Offer(tx, base, utxos, verify) =>
      if base == pool.base {
        AdmitAgrees(pool, tx, base, utxos, verify);
      } else {
        StaleIsRefused(pool, tx, base, utxos, verify);
      }
    case BlockJoined(block, base, utxos, verify) =>
      RebaseAgrees(pool, Remaining(pool, block), base, utxos, verify);
    case ChainSwitched(base, utxos, verify) =>
      OrderFacts(pool);
      RebaseAgrees(pool, TheOrder(pool.entries), base, utxos, verify);
  }

  lemma EmptyAgrees(base: ChainBase, config: Config, u: Utxos<Txid>, verify: Verifier<Txid>)
    requires Valid(EmptyPool(base, config))
    ensures Agrees(EmptyPool(base, config), u, verify)
  {
  }

  /** Every pool reachable from the empty one agrees with the chain state of its base; so reconciling
      it with that chain state changes nothing. */
  lemma {:induction false} RunAgrees(base: ChainBase, config: Config, events: seq<Event>,
                                     chain: ChainBase -> Utxos<Txid>, verifier: ChainBase -> Verifier<Txid>)
    requires Valid(EmptyPool(base, config)) && Faithful(events, chain, verifier)
    ensures var end := Run(EmptyPool(base, config), events);
            && Agrees(end, chain(end.base), verifier(end.base))
            && ReconcileReorg(end, end.base, chain(end.base), verifier(end.base))
              == Success(Reconciled(end, {}, |end.entries|))
  {
    hide Agrees, Valid, Following, ReconcileReorg;
    if events == [] {
      EmptyAgrees(base, config, chain(base), verifier(base));
    } else {
      var front := events[..|events| - 1];
      RunAgrees(base, config, front, chain, verifier);
      FollowingAgrees(Run(EmptyPool(base, config), front), events[|events| - 1], chain, verifier);
    }
    var end := Run(EmptyPool(base, config), events);
    SteadyReorg(end, end.base, chain(end.base), verifier(end.base));
    assert end.(base := end.base) == end;
  }
}
