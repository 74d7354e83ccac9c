/** A candidate admitted to a pool that agrees with the chain state leaves a pool that agrees. */
module PoolJoin {
  import opened Prelude
  import opened Ledger
  import opened PoolGraph
  import opened PoolClosure
  import opened PoolState
  import opened PoolCommit
  import opened PoolAdmission
  import opened PoolReplay

  lemma SpendersDisjoint(entries: Entries, spenders: Spenders)
    requires SpendersExact(entries, spenders)
    ensures Disjoint(entries)
  {
    forall s, t, o | s in entries && t in entries && o in entries[s].tx.inputs && o in entries[t].tx.inputs
      ensures s == t
    {
      assert spenders[o] == s && spenders[o] == t;
    }
  }

  // ----- The candidate joins an agreeing pool -----

  /** Without removals every chain of the pool is still a chain. */
  lemma ReachesGrows(entries: Entries, candidate: Entry, a: Txid, t: Txid)
    requires candidate.tx.txid !in entries && Reaches(entries, a, t)
    ensures Reaches(CommittedEntries(entries, candidate, {}), a, t)
  {
    var s :| Link(entries, s, a, t);
    assert Link(CommittedEntries(entries, candidate, {}), s, a, t);
  }

  /** An output of a pool entry that the chain already holds is claimed by another pool entry. */
  lemma NamedIsClaimed(utxos: Utxos<Txid>, entries: Entries, spenders: Spenders, o: OutPoint<Txid>, height: nat,
                       verify: Verifier<Txid>)
    requires PoolOk(utxos, entries, height, verify) && SpendersExact(entries, spenders)
    requires o in utxos && NamesOutput(entries, o)
    ensures o in spenders
  {
    hide Reaches, LocalFee;
    assert EntryOk(utxos, entries, o.txid, height, verify);
    assert OutPoint(o.txid, o.index) == o;
    assert ClearedByAncestor(entries, o.txid, o);
  }

  /** What a candidate's inputs show in the replayed ledger is its local view. */
  lemma CandidateInputs(utxos: Utxos<Txid>, entries: Entries, spenders: Spenders, parents: set<Txid>, o: OutPoint<Txid>,
                        height: nat, verify: Verifier<Txid>)
    requires PoolOk(utxos, entries, height, verify) && SpendersExact(entries, spenders) && o !in spenders
    requires o !in utxos ==> NamesOutput(entries, o) && o.txid in parents
    ensures After(utxos, entries, UpClosure(entries, parents), height, o)
         == if o in utxos then Some(utxos[o]) else Some(UtxoEntry(entries[o.txid].tx.outputs[o.index], height, false))
  {
    hide Reaches, LocalFee, EntryOk;
    var ids := UpClosure(entries, parents);
    assert !Claimed(entries, ids, o);
    if o !in utxos {
      DirectAbove(entries, parents, o.txid);
    } else if NamesOutput(entries, o) {
      NamedIsClaimed(utxos, entries, spenders, o, height, verify);
    }
  }

  lemma CandidateLocalFee(utxos: Utxos<Txid>, entries: Entries, spenders: Spenders, candidate: Entry,
                          state: Utxos<Txid>, height: nat, verify: Verifier<Txid>)
    requires PoolOk(utxos, entries, height, verify) && SpendersExact(entries, spenders)
    requires forall o | o in candidate.tx.inputs :: o !in spenders
    requires forall o | o in candidate.tx.inputs && o !in utxos ::
               NamesOutput(entries, o) && o.txid in candidate.parents
    requires Reflects(state, utxos, entries, UpClosure(entries, candidate.parents), height)
    requires FeeOf(state, candidate.tx, height, verify) == Success(candidate.fee)
    ensures LocalFee(utxos, entries, candidate.tx, height, verify) == Success(candidate.fee)
  {
    hide PoolOk, SpendersExact, UpClosure, After;
    var tx := candidate.tx;
    var view := LocalView(utxos, entries, tx, height);
    forall o | o in tx.inputs
      ensures Get(state, o) == Get(view, o)
    {
      CandidateInputs(utxos, entries, spenders, candidate.parents, o, height, verify);
      assert o in Spent(tx);
    }
    ScanAgrees(state, view, tx, height, verify, |tx.inputs|);
  }

  lemma CandidateReached(pool: Pool, cand: Candidate, a: Txid)
    requires Symmetric(pool.entries) && CandidateOk(pool, cand) && a in cand.ancestors
    ensures Reaches(CommittedEntries(pool.entries, cand.entry, {}), a, cand.entry.tx.txid)
  {
    var t, grown := cand.entry.tx.txid, CommittedEntries(pool.entries, cand.entry, {});
    var p :| p in cand.entry.parents && (a == p || Reaches(pool.entries, a, p));
    assert p in grown && p in grown[t].parents;
    if a == p {
      ReachesParent(grown, p, t);
    } else {
      ReachesGrows(pool.entries, cand.entry, a, p);
      ReachesStep(grown, a, p, t);
    }
  }

  lemma CandidateCollisions(utxos: Utxos<Txid>, pool: Pool, cand: Candidate, state: Utxos<Txid>, height: nat,
                            verify: Verifier<Txid>)
    requires Symmetric(pool.entries) && CandidateOk(pool, cand)
    requires Reflects(state, utxos, pool.entries, cand.ancestors, height)
    requires FeeOf(state, cand.entry.tx, height, verify).Success?
    ensures NoCollision(utxos, CommittedEntries(pool.entries, cand.entry, {}), cand.entry.tx.txid)
  {
    hide Reaches;
    var t, tx := cand.entry.tx.txid, cand.entry.tx;
    var grown := CommittedEntries(pool.entries, cand.entry, {});
    CheckMeans(state, tx, |tx.outputs|);
    forall i: nat | i < |tx.outputs|
      ensures OutPoint(t, i) !in utxos || ClearedByAncestor(grown, t, OutPoint(t, i))
    {
      var o := OutPoint(t, i);
      assert Get(state, o) == None == After(utxos, pool.entries, cand.ancestors, height, o);
      if o in utxos {
        var a :| a in cand.ancestors && a in pool.entries && o in pool.entries[a].tx.inputs;
        CandidateReached(pool, cand, a);
        assert a in grown && o in grown[a].tx.inputs;
      }
    }
  }

  lemma SurvivorFields(entries: Entries, candidate: Entry, s: Txid)
    requires candidate.tx.txid !in entries && s in entries
    ensures var grown := CommittedEntries(entries, candidate, {});
            s in grown && grown[s].tx == entries[s].tx && grown[s].fee == entries[s].fee
                && grown[s].parents == entries[s].parents
  {
  }

  lemma NoCollisionStays(utxos: Utxos<Txid>, entries: Entries, candidate: Entry, s: Txid)
    requires candidate.tx.txid !in entries && s in entries && NoCollision(utxos, entries, s)
    ensures s in CommittedEntries(entries, candidate, {})
    ensures NoCollision(utxos, CommittedEntries(entries, candidate, {}), s)
  {
    hide Reaches, CommittedEntries, CommittedEntry;
    var grown := CommittedEntries(entries, candidate, {});
    SurvivorFields(entries, candidate, s);
    forall i: nat | i < |entries[s].tx.outputs|
      ensures OutPoint(s, i) !in utxos || ClearedByAncestor(grown, s, OutPoint(s, i))
    {
      if OutPoint(s, i) in utxos {
        var a :| a in entries && Reaches(entries, a, s) && OutPoint(s, i) in entries[a].tx.inputs;
        ReachesGrows(entries, candidate, a, s);
        SurvivorFields(entries, candidate, a);
      }
    }
  }

  lemma FeeStays(utxos: Utxos<Txid>, entries: Entries, candidate: Entry, tx: Tx<Txid>, height: nat,
                 verify: Verifier<Txid>)
    requires candidate.tx.txid !in entries
    requires forall o | o in tx.inputs && o !in utxos :: NamesOutput(entries, o)
    ensures var grown := CommittedEntries(entries, candidate, {});
            && (forall o | o in tx.inputs && o !in utxos :: NamesOutput(grown, o))
            && LocalFee(utxos, grown, tx, height, verify) == LocalFee(utxos, entries, tx, height, verify)
  {
    hide CommittedEntries, ScanInputs, SumOutputs;
    var grown := CommittedEntries(entries, candidate, {});
    forall o | NamesOutput(entries, o)
      ensures NamesOutput(grown, o) && grown[o.txid].tx == entries[o.txid].tx
    {
      SurvivorFields(entries, candidate, o.txid);
    }
    assert forall o | o in Spent(tx) :: o in tx.inputs;
    assert LocalView(utxos, grown, tx, height) == LocalView(utxos, entries, tx, height);
  }

  /** An entry that agreed with the chain state still does when the candidate has joined. */
  lemma EntryStaysOk(utxos: Utxos<Txid>, entries: Entries, candidate: Entry, s: Txid, height: nat,
                     verify: Verifier<Txid>)
    requires candidate.tx.txid !in entries && s in entries
    requires EntryOk(utxos, entries, s, height, verify)
    ensures EntryOk(utxos, CommittedEntries(entries, candidate, {}), s, height, verify)
  {
    hide LocalFee, NoCollision, CommittedEntries, CommittedEntry;
    SurvivorFields(entries, candidate, s);
    FeeStays(utxos, entries, candidate, entries[s].tx, height, verify);
    NoCollisionStays(utxos, entries, candidate, s);
  }

  /** What a successful preparation establishes: the candidate's fee follows from the replay of
      its ancestors, and its parents are the pool transactions it claims outputs of. */
  ghost predicate Settled(utxos: Utxos<Txid>, pool: Pool, cand: Candidate, state: Utxos<Txid>, height: nat,
                          verify: Verifier<Txid>) {
    && (forall o | o in cand.entry.tx.inputs && o !in utxos ::
          NamesOutput(pool.entries, o) && o.txid in cand.entry.parents)
    && cand.ancestors == UpClosure(pool.entries, cand.entry.parents)
    && Reflects(state, utxos, pool.entries, cand.ancestors, height)
    && FeeOf(state, cand.entry.tx, height, verify) == Success(cand.entry.fee)
  }

  lemma SettledMeans(utxos: Utxos<Txid>, pool: Pool, cand: Candidate, state: Utxos<Txid>, height: nat,
                     verify: Verifier<Txid>)
    requires Settled(utxos, pool, cand, state, height, verify)
    ensures forall o | o in cand.entry.tx.inputs && o !in utxos ::
              NamesOutput(pool.entries, o) && o.txid in cand.entry.parents
    ensures Reflects(state, utxos, pool.entries, UpClosure(pool.entries, cand.entry.parents), height)
    ensures Reflects(state, utxos, pool.entries, cand.ancestors, height)
    ensures FeeOf(state, cand.entry.tx, height, verify) == Success(cand.entry.fee)
  {
  }

  lemma CandidateEntryOk(utxos: Utxos<Txid>, pool: Pool, cand: Candidate, state: Utxos<Txid>, height: nat,
                         verify: Verifier<Txid>)
    requires Symmetric(pool.entries) && SpendersExact(pool.entries, pool.spenders)
             && PoolOk(utxos, pool.entries, height, verify)
    requires CandidateOk(pool, cand) && Settled(utxos, pool, cand, state, height, verify)
    ensures EntryOk(utxos, CommittedEntries(pool.entries, cand.entry, {}), cand.entry.tx.txid, height, verify)
  {
    hide CandidateOk, PoolOk, SpendersExact, Reflects, FeeOf, Settled, NoCollision, LocalFee, Symmetric, NamesOutput,
         UpClosure, CommittedEntries;
    ClaimsAreNew(pool, cand);
    SettledMeans(utxos, pool, cand, state, height, verify);
    CommittedKeys(pool.entries, cand.entry, {});
    CandidateLocalFee(utxos, pool.entries, pool.spenders, cand.entry, state, height, verify);
    CandidateCollisions(utxos, pool, cand, state, height, verify);
    FeeStays(utxos, pool.entries, cand.entry, cand.entry.tx, height, verify);
  }

  lemma PoolEntriesOk(utxos: Utxos<Txid>, entries: Entries, height: nat, verify: Verifier<Txid>)
    requires PoolOk(utxos, entries, height, verify)
    ensures forall s | s in entries :: EntryOk(utxos, entries, s, height, verify)
  {
  }

  lemma ValidFacts(pool: Pool)
    requires Valid(pool)
    ensures Symmetric(pool.entries) && Acyclic(pool.entries) && GraphOk(pool.entries)
    ensures SpendersExact(pool.entries, pool.spenders) && KeysMatch(pool.entries)
  {
  }

  lemma NoRemovals(pool: Pool, cand: Candidate)
    ensures RemoveOk(pool, cand, {})
  {
  }

  lemma KeysGrow(entries: Entries, candidate: Entry)
    requires KeysMatch(entries) && candidate.tx.txid !in entries
    ensures KeysMatch(CommittedEntries(entries, candidate, {}))
  {
  }

  /** The pool still agrees with the chain state when the candidate has joined. */
  lemma JoinKeepsOk(utxos: Utxos<Txid>, pool: Pool, cand: Candidate, state: Utxos<Txid>, height: nat,
                    verify: Verifier<Txid>)
    requires Valid(pool) && PoolOk(utxos, pool.entries, height, verify)
    requires CandidateOk(pool, cand) && Settled(utxos, pool, cand, state, height, verify)
    ensures GraphOk(CommittedEntries(pool.entries, cand.entry, {}))
    ensures PoolOk(utxos, CommittedEntries(pool.entries, cand.entry, {}), height, verify)
  {
    hide CandidateOk, Settled, EntryOk, Valid, SpendersExact, CommittedEntries, Symmetric, Acyclic, Disjoint, KeysMatch,
         CommittedSpenders, RemoveOk;
    var grown := CommittedEntries(pool.entries, cand.entry, {});
    ClaimsAreNew(pool, cand);
    PoolEntriesOk(utxos, pool.entries, height, verify);
    ValidFacts(pool);
    assert RemoveOk(pool, cand, {}) by {
      NoRemovals(pool, cand);
    }
    CommitGraphOk(pool, cand, {});
    CommitSpenders(pool, cand, {});
    KeysGrow(pool.entries, cand.entry);
    SpendersDisjoint(grown, CommittedSpenders(pool.spenders, cand.entry, {}));
    forall s | s in grown
      ensures EntryOk(utxos, grown, s, height, verify)
    {
      if s == cand.entry.tx.txid {
        CandidateEntryOk(utxos, pool, cand, state, height, verify);
      } else {
        SurvivorSame(pool.entries, cand.entry, {}, s);
        EntryStaysOk(utxos, pool.entries, cand.entry, s, height, verify);
      }
    }
  }
}
