/** Committing an admission plan keeps the pool invariant. */
module PoolCommit {
  import opened Ledger
  import opened PoolGraph
  import opened PoolClosure
  import opened PoolState

  datatype Candidate = Candidate(entry: Entry, ancestors: set<Txid>)

  // ----- The effect of a commit -----

  function CommittedEntry(entry: Entry, t: Txid, candidate: Entry, remove: set<Txid>): Entry {
    entry.(children := (entry.children - remove) + if t in candidate.parents then {candidate.tx.txid} else {})
  }

  function CommittedEntries(entries: Entries, candidate: Entry, remove: set<Txid>): Entries {
    (map t | t in entries && t !in remove :: CommittedEntry(entries[t], t, candidate, remove))
      [candidate.tx.txid := candidate]
  }

  /** The claims of the removed entries go, the candidate's claims come. */
  function CommittedSpenders(spenders: Spenders, candidate: Entry, remove: set<Txid>): Spenders {
    map o | o in spenders.Keys + Spent(candidate.tx) && (o in candidate.tx.inputs || spenders[o] !in remove)
      :: if o in candidate.tx.inputs then candidate.tx.txid else spenders[o]
  }

  function Committed(pool: Pool, candidate: Entry, remove: set<Txid>, totalBytes: nat): Pool {
    pool.(entries := CommittedEntries(pool.entries, candidate, remove),
          spenders := CommittedSpenders(pool.spenders, candidate, remove),
          totalBytes := totalBytes)
  }

  // ----- What a plan guarantees -----

  ghost predicate ClosedUnderChildrenOf(entries: Entries, remove: set<Txid>) {
    && remove <= entries.Keys
    && forall t, c | t in remove && c in entries[t].children :: c in remove
  }

  /** The candidate is new, its links and claims are consistent with the pool, and it fits the
      closure limits. */
  ghost predicate CandidateOk(pool: Pool, cand: Candidate) {
    var e := cand.entry;
    && e.tx.txid !in pool.entries
    && e.children == {}
    && e.parents <= pool.entries.Keys
    && (forall p | p in e.parents :: exists o ::
          o in e.tx.inputs && o.txid == p && o.index < |pool.entries[p].tx.outputs|)
    && (forall o | o in e.tx.inputs :: o !in pool.spenders)
    && cand.ancestors == UpClosure(pool.entries, e.parents)
    && |cand.ancestors| <= pool.config.maxAncestors
    && (forall a | a in cand.ancestors :: |DescendantsOf(pool.entries, a)| + 1 <= pool.config.maxDescendants)
  }

  ghost predicate RemoveOk(pool: Pool, cand: Candidate, remove: set<Txid>) {
    ClosedUnderChildrenOf(pool.entries, remove) && remove !! cand.ancestors
  }

  ghost predicate FitsAfter(pool: Pool, cand: Candidate, remove: set<Txid>, totalBytes: nat)
    requires remove <= pool.entries.Keys
  {
    && totalBytes == pool.totalBytes + cand.entry.tx.size - Bytes(pool.entries, remove)
    && totalBytes <= pool.config.maxTotalBytes
    && |pool.entries| + 1 - |remove| <= pool.config.maxEntries
  }

  // ----- The graph after a commit -----

  lemma PlanFacts(pool: Pool, cand: Candidate, remove: set<Txid>)
    requires CandidateOk(pool, cand) && RemoveOk(pool, cand, remove)
    ensures cand.entry.tx.txid !in pool.entries && cand.entry.children == {}
    ensures cand.entry.parents <= pool.entries.Keys - remove
    ensures remove <= pool.entries.Keys
  {
    forall p | p in cand.entry.parents
      ensures p in cand.ancestors
    {
      DirectAbove(pool.entries, cand.entry.parents, p);
    }
  }

  lemma SurvivorsKeepParents(entries: Entries, remove: set<Txid>, t: Txid)
    requires Symmetric(entries) && ClosedUnderChildrenOf(entries, remove)
    requires t in entries && t !in remove
    ensures entries[t].parents !! remove && entries[t].parents <= entries.Keys
  {
    forall p | p in entries[t].parents
      ensures p !in remove && p in entries
    {
      assert t in entries[p].children;
    }
  }

  lemma RemoveCloses(pool: Pool, cand: Candidate, remove: set<Txid>)
    requires RemoveOk(pool, cand, remove)
    ensures ClosedUnderChildrenOf(pool.entries, remove)
  {
  }

  lemma SymmetricAfter(old_: Entries, e: Entry, remove: set<Txid>)
    requires Symmetric(old_) && ClosedUnderChildrenOf(old_, remove)
    requires e.tx.txid !in old_ && e.children == {} && e.parents <= old_.Keys - remove
    ensures Symmetric(CommittedEntries(old_, e, remove))
  {
    var new_ := CommittedEntries(old_, e, remove);
    forall t, p | t in new_ && p in new_[t].parents
      ensures p in new_ && t in new_[p].children
    {
      if t != e.tx.txid {
        SurvivorsKeepParents(old_, remove, t);
        assert t in old_[p].children;
      }
    }
    forall t, c | t in new_ && c in new_[t].children
      ensures c in new_ && t in new_[c].parents
    {
      if c != e.tx.txid {
        assert c in old_[t].children && c !in remove;
      }
    }
  }

  lemma CommitSymmetric(pool: Pool, cand: Candidate, remove: set<Txid>)
    requires Symmetric(pool.entries) && CandidateOk(pool, cand) && RemoveOk(pool, cand, remove)
    ensures Symmetric(CommittedEntries(pool.entries, cand.entry, remove))
  {
    PlanFacts(pool, cand, remove);
    RemoveCloses(pool, cand, remove);
    hide CandidateOk, RemoveOk;
    SymmetricAfter(pool.entries, cand.entry, remove);
  }

  /** A survivor keeps everything but children. */
  lemma SurvivorSame(entries: Entries, candidate: Entry, remove: set<Txid>, t: Txid)
    requires t in CommittedEntries(entries, candidate, remove) && t != candidate.tx.txid
    ensures t in entries && t !in remove
    ensures CommittedEntries(entries, candidate, remove)[t] == CommittedEntry(entries[t], t, candidate, remove)
  {
  }

  lemma CandidateHasNoChild(pool: Pool, cand: Candidate, remove: set<Txid>, t: Txid)
    requires Symmetric(pool.entries) && CandidateOk(pool, cand) && RemoveOk(pool, cand, remove)
    requires t in CommittedEntries(pool.entries, cand.entry, remove)
    ensures cand.entry.tx.txid !in CommittedEntries(pool.entries, cand.entry, remove)[t].parents
  {
    PlanFacts(pool, cand, remove);
    hide CandidateOk, RemoveOk;
    if t != cand.entry.tx.txid {
      SurvivorSame(pool.entries, cand.entry, remove, t);
      ChildrenInside(pool.entries, t);
    }
  }

  /** A chain after the commit that does not end at the candidate was a chain before. */
  lemma OldChain(pool: Pool, cand: Candidate, remove: set<Txid>, s: seq<Txid>)
    requires Symmetric(pool.entries) && CandidateOk(pool, cand) && RemoveOk(pool, cand, remove)
    requires IsChain(CommittedEntries(pool.entries, cand.entry, remove), s)
    requires s != [] && s[|s| - 1] != cand.entry.tx.txid
    ensures IsChain(pool.entries, s)
  {
    hide Symmetric, CandidateOk, RemoveOk, CommittedEntries;
    var new_ := CommittedEntries(pool.entries, cand.entry, remove);
    forall i | 0 <= i < |s|
      ensures s[i] in pool.entries && new_[s[i]].parents == pool.entries[s[i]].parents
    {
      if i < |s| - 1 {
        CandidateHasNoChild(pool, cand, remove, s[i + 1]);
        assert s[i] in new_[s[i + 1]].parents;
      }
      SurvivorSame(pool.entries, cand.entry, remove, s[i]);
    }
  }

  lemma OldReaches(pool: Pool, cand: Candidate, remove: set<Txid>, a: Txid, t: Txid)
    requires Symmetric(pool.entries) && CandidateOk(pool, cand) && RemoveOk(pool, cand, remove)
    requires Reaches(CommittedEntries(pool.entries, cand.entry, remove), a, t)
    ensures if t == cand.entry.tx.txid then a in cand.ancestors else Reaches(pool.entries, a, t)
    ensures a != cand.entry.tx.txid
  {
    var new_ := CommittedEntries(pool.entries, cand.entry, remove);
    var s :| Link(new_, s, a, t);
    if t != cand.entry.tx.txid {
      OldChain(pool, cand, remove, s);
      assert Link(pool.entries, s, a, t);
    } else {
      var front := s[..|s| - 1];
      var p := front[|front| - 1];
      assert p in new_[t].parents;
      assert IsChain(new_, front);
      OldChain(pool, cand, remove, front);
      if |front| > 1 {
        assert Link(pool.entries, front, a, p);
      }
      assert Above(pool.entries, cand.entry.parents, a);
    }
    var c := ReachesFirst(new_, a, t);
    CandidateHasNoChild(pool, cand, remove, c);
  }

  lemma ParentOrigin(pool: Pool, cand: Candidate, remove: set<Txid>, t: Txid, p: Txid)
    requires GraphOk(pool.entries) && CandidateOk(pool, cand) && RemoveOk(pool, cand, remove)
    requires var new_ := CommittedEntries(pool.entries, cand.entry, remove);
             t in new_ && p in new_[t].parents && p in new_
    ensures var new_ := CommittedEntries(pool.entries, cand.entry, remove);
            exists o :: o in new_[t].tx.inputs && o.txid == p && o.index < |new_[p].tx.outputs|
  {
    CandidateHasNoChild(pool, cand, remove, t);
    if t == cand.entry.tx.txid {
      var o :| o in cand.entry.tx.inputs && o.txid == p && o.index < |pool.entries[p].tx.outputs|;
    } else {
      var o :| o in pool.entries[t].tx.inputs && o.txid == p && o.index < |pool.entries[p].tx.outputs|;
    }
  }

  lemma CommitGraphOk(pool: Pool, cand: Candidate, remove: set<Txid>)
    requires GraphOk(pool.entries) && CandidateOk(pool, cand) && RemoveOk(pool, cand, remove)
    ensures GraphOk(CommittedEntries(pool.entries, cand.entry, remove))
  {
    var new_ := CommittedEntries(pool.entries, cand.entry, remove);
    CommitSymmetric(pool, cand, remove);
    forall t | t in new_
      ensures !Reaches(new_, t, t)
    {
      if Reaches(new_, t, t) {
        OldReaches(pool, cand, remove, t, t);
      }
    }
    forall t, p | t in new_ && p in new_[t].parents
      ensures exists o :: o in new_[t].tx.inputs && o.txid == p && o.index < |new_[p].tx.outputs|
    {
      ParentOrigin(pool, cand, remove, t, p);
    }
  }

  lemma CandidateBound(pool: Pool, cand: Candidate)
    requires CandidateOk(pool, cand)
    ensures |cand.ancestors| <= pool.config.maxAncestors
    ensures forall a | a in cand.ancestors :: |DescendantsOf(pool.entries, a)| + 1 <= pool.config.maxDescendants
  {
  }

  lemma BoundAncestors(pool: Pool, cand: Candidate, remove: set<Txid>, t: Txid)
    requires GraphOk(pool.entries) && CandidateOk(pool, cand) && RemoveOk(pool, cand, remove)
    requires ClosureBounds(pool.entries, pool.config)
    requires t in CommittedEntries(pool.entries, cand.entry, remove)
    ensures |AncestorsOf(CommittedEntries(pool.entries, cand.entry, remove), t)| <= pool.config.maxAncestors
  {
    hide CandidateOk, RemoveOk, Reaches, Acyclic, Symmetric, CommittedEntry;
    var new_ := CommittedEntries(pool.entries, cand.entry, remove);
    var bound := if t == cand.entry.tx.txid then cand.ancestors else AncestorsOf(pool.entries, t);
    forall a | a in AncestorsOf(new_, t)
      ensures a in bound
    {
      OldReaches(pool, cand, remove, a, t);
    }
    SubsetCount(AncestorsOf(new_, t), bound);
    CandidateBound(pool, cand);
  }

  lemma BoundDescendants(pool: Pool, cand: Candidate, remove: set<Txid>, t: Txid)
    requires GraphOk(pool.entries) && CandidateOk(pool, cand) && RemoveOk(pool, cand, remove)
    requires ClosureBounds(pool.entries, pool.config)
    requires t in CommittedEntries(pool.entries, cand.entry, remove)
    ensures |DescendantsOf(CommittedEntries(pool.entries, cand.entry, remove), t)| <= pool.config.maxDescendants
  {
    hide CandidateOk, RemoveOk, Reaches, Acyclic, Symmetric, CommittedEntry;
    var new_ := CommittedEntries(pool.entries, cand.entry, remove);
    var c := cand.entry.tx.txid;
    var extra := if t in cand.ancestors then {c} else {};
    var bound := (if t == c then {} else DescendantsOf(pool.entries, t)) + extra;
    forall d | d in DescendantsOf(new_, t)
      ensures d in bound
    {
      OldReaches(pool, cand, remove, t, d);
    }
    SubsetCount(DescendantsOf(new_, t), bound);
    CandidateBound(pool, cand);
  }

  lemma CommitBounds(pool: Pool, cand: Candidate, remove: set<Txid>)
    requires GraphOk(pool.entries) && CandidateOk(pool, cand) && RemoveOk(pool, cand, remove)
    requires ClosureBounds(pool.entries, pool.config)
    ensures ClosureBounds(CommittedEntries(pool.entries, cand.entry, remove), pool.config)
  {
    var new_ := CommittedEntries(pool.entries, cand.entry, remove);
    forall t | t in new_
      ensures |AncestorsOf(new_, t)| <= pool.config.maxAncestors
      ensures |DescendantsOf(new_, t)| <= pool.config.maxDescendants
    {
      BoundAncestors(pool, cand, remove, t);
      BoundDescendants(pool, cand, remove, t);
    }
  }

  // ----- The other parts -----

  lemma SpendersAfter(entries: Entries, before: Spenders, e: Entry, remove: set<Txid>)
    requires SpendersExact(entries, before) && e.tx.txid !in entries
    requires forall o | o in e.tx.inputs :: o !in before
    ensures SpendersExact(CommittedEntries(entries, e, remove), CommittedSpenders(before, e, remove))
  {
    var new_, spenders := CommittedEntries(entries, e, remove), CommittedSpenders(before, e, remove);
    forall t, o | t in new_ && o in new_[t].tx.inputs
      ensures o in spenders && spenders[o] == t
    {
      if t == e.tx.txid {
        assert o in Spent(e.tx);
      } else {
        SurvivorSame(entries, e, remove, t);
        assert o in before && before[o] == t;
      }
    }
    forall o | o in spenders
      ensures spenders[o] in new_ && o in new_[spenders[o]].tx.inputs
    {
      if o !in e.tx.inputs {
        assert o in before && before[o] in entries;
      }
    }
  }

  lemma ClaimsAreNew(pool: Pool, cand: Candidate)
    requires CandidateOk(pool, cand)
    ensures cand.entry.tx.txid !in pool.entries
    ensures forall o | o in cand.entry.tx.inputs :: o !in pool.spenders
  {
  }

  lemma CommitSpenders(pool: Pool, cand: Candidate, remove: set<Txid>)
    requires SpendersExact(pool.entries, pool.spenders)
    requires CandidateOk(pool, cand) && RemoveOk(pool, cand, remove)
    ensures SpendersExact(CommittedEntries(pool.entries, cand.entry, remove),
                          CommittedSpenders(pool.spenders, cand.entry, remove))
  {
    ClaimsAreNew(pool, cand);
    hide CandidateOk, RemoveOk;
    SpendersAfter(pool.entries, pool.spenders, cand.entry, remove);
  }

  lemma CommittedKeys(entries: Entries, candidate: Entry, remove: set<Txid>)
    requires remove <= entries.Keys && candidate.tx.txid !in entries
    ensures var new_ := CommittedEntries(entries, candidate, remove);
            && new_.Keys == (entries.Keys - remove) + {candidate.tx.txid}
            && |new_| == |entries| - |remove| + 1
            && new_[candidate.tx.txid] == candidate
            && forall t | t in entries && t !in remove :: new_[t].tx == entries[t].tx
  {
    var new_ := CommittedEntries(entries, candidate, remove);
    assert new_.Keys == (entries.Keys - remove) + {candidate.tx.txid};
    assert |new_| == |new_.Keys|;
  }

  lemma CommitBytes(pool: Pool, cand: Candidate, remove: set<Txid>)
    requires remove <= pool.entries.Keys && cand.entry.tx.txid !in pool.entries
    ensures var new_ := CommittedEntries(pool.entries, cand.entry, remove);
            && Bytes(new_, new_.Keys)
               == Bytes(pool.entries, pool.entries.Keys) - Bytes(pool.entries, remove) + cand.entry.tx.size
            && |new_| == |pool.entries| - |remove| + 1
  {
    hide Bytes;
    var new_ := CommittedEntries(pool.entries, cand.entry, remove);
    var c, kept := cand.entry.tx.txid, pool.entries.Keys - remove;
    CommittedKeys(pool.entries, cand.entry, remove);
    hide CommittedEntries;
    BytesRemove(new_, new_.Keys, c);
    assert new_.Keys - {c} == kept;
    BytesAgree(new_, pool.entries, kept);
    BytesSubset(pool.entries, remove, pool.entries.Keys);
  }

  /** Whole-run safety: an admission that follows its plan keeps every part of the invariant. */
  lemma CommitKeepsValid(pool: Pool, cand: Candidate, remove: set<Txid>, totalBytes: nat)
    requires Valid(pool) && CandidateOk(pool, cand) && RemoveOk(pool, cand, remove)
    requires FitsAfter(pool, cand, remove, totalBytes)
    ensures Valid(Committed(pool, cand.entry, remove, totalBytes))
  {
    hide GraphOk, ClosureBounds, SpendersExact, CommittedSpenders, Bytes;
    CommitGraphOk(pool, cand, remove);
    CommitBounds(pool, cand, remove);
    CommitSpenders(pool, cand, remove);
    CommitBytes(pool, cand, remove);
  }
}
