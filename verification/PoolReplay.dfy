/** Replaying pool entries over a fixed chain state.

    When every entry was admitted against the same chain state, replaying any set of entries in
    any parents-first order succeeds, charges each its recorded fee, and leaves a ledger that
    depends only on the set. */
module PoolReplay {
  import opened Prelude
  import opened Ledger
  import opened PoolGraph
  import opened PoolState
  import opened PoolAdmission

  /** What an entry's inputs are worth: the chain's entry if there is one, else the parent's output. */
  ghost function LocalView(u: Utxos<Txid>, entries: Entries, tx: Tx<Txid>, height: nat): Utxos<Txid> {
    map o | o in Spent(tx) && (o in u || NamesOutput(entries, o)) ::
      if o in u then u[o] else UtxoEntry(entries[o.txid].tx.outputs[o.index], height, false)
  }

  /** An output of `t` that is already on the chain is spent there by an ancestor of `t`. */
  ghost predicate ClearedByAncestor(entries: Entries, t: Txid, o: OutPoint<Txid>) {
    exists a :: a in entries && Reaches(entries, a, t) && o in entries[a].tx.inputs
  }

  ghost predicate NoCollision(u: Utxos<Txid>, entries: Entries, t: Txid)
    requires t in entries
  {
    && |entries[t].tx.outputs| <= U32_MAX + 1
    && forall i: nat | i < |entries[t].tx.outputs| ::
         OutPoint(t, i) !in u || ClearedByAncestor(entries, t, OutPoint(t, i))
  }

  /** The fee computed from what the inputs are worth. */
  ghost function LocalFee(u: Utxos<Txid>, entries: Entries, tx: Tx<Txid>, height: nat, verify: Verifier<Txid>)
    : Result<nat, UtxoError<Txid>>
  {
    var inputSum :- ScanInputs(LocalView(u, entries, tx, height), tx, height, verify, |tx.inputs|);
    var outputSum :- SumOutputs(tx.outputs);
    if outputSum > inputSum then Failure(OutputValueExceedsInput) else Success(inputSum - outputSum)
  }

  /** An entry that agrees with the chain state: its parents are the pool transactions whose
      outputs it claims off-chain, and its fee is what its inputs are worth. */
  ghost predicate EntryOk(u: Utxos<Txid>, entries: Entries, t: Txid, height: nat, verify: Verifier<Txid>)
    requires t in entries
  {
    && (forall o | o in entries[t].tx.inputs && o !in u :: NamesOutput(entries, o) && o.txid in entries[t].parents)
    && LocalFee(u, entries, entries[t].tx, height, verify) == Success(entries[t].fee)
    && NoCollision(u, entries, t)
  }

  ghost predicate ChainOk(u: Utxos<Txid>, entries: Entries, height: nat, verify: Verifier<Txid>) {
    forall t | t in entries :: EntryOk(u, entries, t, height, verify)
  }

  /** No two entries claim one outpoint. */
  ghost predicate Disjoint(entries: Entries) {
    forall s, t, o | s in entries && t in entries && o in entries[s].tx.inputs && o in entries[t].tx.inputs :: s == t
  }

  ghost predicate Claimed(entries: Entries, ids: set<Txid>, o: OutPoint<Txid>) {
    exists t :: t in ids && t in entries && o in entries[t].tx.inputs
  }

  ghost predicate Produced(entries: Entries, ids: set<Txid>, o: OutPoint<Txid>) {
    o.txid in ids && NamesOutput(entries, o)
  }

  /** The ledger entry at `o` once exactly `ids` have been applied. */
  ghost function After(u: Utxos<Txid>, entries: Entries, ids: set<Txid>, height: nat,
                       o: OutPoint<Txid>): Option<UtxoEntry> {
    if Produced(entries, ids, o) then
      if o !in u && Claimed(entries, ids, o) then None
      else Some(UtxoEntry(entries[o.txid].tx.outputs[o.index], height, false))
    else if Claimed(entries, ids, o) then None
    else Get(u, o)
  }

  ghost predicate Reflects(state: Utxos<Txid>, u: Utxos<Txid>, entries: Entries, ids: set<Txid>, height: nat) {
    forall o :: Get(state, o) == After(u, entries, ids, height, o)
  }

  /** A parents-first list of entries. */
  ghost predicate ParentsFirst(entries: Entries, order: seq<Txid>) {
    && NoRepeats(order)
    && Elements(order) <= entries.Keys
    && forall i | 0 <= i < |order| :: entries[order[i]].parents <= Elements(order[..i])
  }

  lemma PrefixParentsFirst(entries: Entries, order: seq<Txid>)
    requires ParentsFirst(entries, order) && order != []
    ensures var front, last := order[..|order| - 1], order[|order| - 1];
            && ParentsFirst(entries, front) && Elements(front) <= entries.Keys
            && last in entries && last !in Elements(front)
            && entries[last].parents <= Elements(front)
            && Elements(order) == Elements(front) + {last}
  {
    var front, last := order[..|order| - 1], order[|order| - 1];
    assert order == front + [last];
    ElementsSnoc(front, last);
    hide Elements;
    forall i | 0 <= i < |front|
      ensures entries[front[i]].parents <= Elements(front[..i])
    {
      assert front[..i] == order[..i];
    }
    LastIsNew(order);
    assert order[..|order| - 1] == front;
  }

  /** A parents-first list contains the ancestors of its members, before them. */
  lemma AncestorsInside(entries: Entries, order: seq<Txid>, a: Txid, t: Txid)
    requires ParentsFirst(entries, order) && t in entries
    requires entries[t].parents <= Elements(order) && Reaches(entries, a, t)
    ensures a in Elements(order)
  {
    var p := ReachesLast(entries, a, t);
    if a != p {
      var s :| Link(entries, s, a, p);
      forall x, q | x in Elements(order) && x in entries && q in entries[x].parents
        ensures q in Elements(order)
      {
        var i :| 0 <= i < |order| && order[i] == x;
        assert q in Elements(order[..i]);
      }
      ClosedUnderParents(entries, Elements(order), s);
    }
  }

  /** Whoever spends an on-chain output of a pool entry is an ancestor of that entry. */
  lemma SpenderReaches(u: Utxos<Txid>, entries: Entries, t: Txid, height: nat, verify: Verifier<Txid>,
                       o: OutPoint<Txid>)
    requires KeysMatch(entries) && Disjoint(entries) && ChainOk(u, entries, height, verify)
    requires t in entries && o in entries[t].tx.inputs && o in u && NamesOutput(entries, o)
    ensures Reaches(entries, t, o.txid)
  {
    assert EntryOk(u, entries, o.txid, height, verify);
    assert ClearedByAncestor(entries, o.txid, OutPoint(o.txid, o.index));
    var a :| a in entries && Reaches(entries, a, o.txid) && o in entries[a].tx.inputs;
    assert a == t;
  }

  /** When `t` is next, the ledger shows its inputs as its local view does. */
  lemma InputsVisible(u: Utxos<Txid>, entries: Entries, ids: set<Txid>, t: Txid, height: nat, verify: Verifier<Txid>,
                      o: OutPoint<Txid>)
    requires KeysMatch(entries) && Disjoint(entries) && ChainOk(u, entries, height, verify)
    requires ids <= entries.Keys && t in entries && t !in ids && o in entries[t].tx.inputs
    requires entries[t].parents <= ids
    requires forall s | s in ids && s in entries :: !Reaches(entries, t, s)
    ensures After(u, entries, ids, height, o) == Get(LocalView(u, entries, entries[t].tx, height), o)
  {
    assert o in Spent(entries[t].tx);
    assert !Claimed(entries, ids, o);
    assert EntryOk(u, entries, t, height, verify);
    if o in u && NamesOutput(entries, o) {
      SpenderReaches(u, entries, t, height, verify, o);
    }
  }

  /** When `t` is next, none of its outputs is in the ledger. */
  lemma OutputsAbsent(u: Utxos<Txid>, entries: Entries, order: seq<Txid>, t: Txid, height: nat, verify: Verifier<Txid>,
                      i: nat)
    requires KeysMatch(entries) && ChainOk(u, entries, height, verify)
    requires ParentsFirst(entries, order) && t in entries && t !in Elements(order)
    requires entries[t].parents <= Elements(order) && i < |entries[t].tx.outputs|
    ensures After(u, entries, Elements(order), height, OutPoint(t, i)) == None
  {
    var o, ids := OutPoint(t, i), Elements(order);
    assert EntryOk(u, entries, t, height, verify);
    if o in u {
      var a :| a in entries && Reaches(entries, a, t) && o in entries[a].tx.inputs;
      AncestorsInside(entries, order, a, t);
      assert Claimed(entries, ids, o);
    }
  }

  // ----- Replays succeed -----

  ghost predicate PoolOk(u: Utxos<Txid>, entries: Entries, height: nat, verify: Verifier<Txid>) {
    KeysMatch(entries) && Disjoint(entries) && Acyclic(entries) && ChainOk(u, entries, height, verify)
  }

  lemma NoLaterAncestor(entries: Entries, order: seq<Txid>, t: Txid)
    requires ParentsFirst(entries, order) && t in entries && t !in Elements(order)
    ensures forall s | s in Elements(order) :: !Reaches(entries, t, s)
  {
    forall s | s in Elements(order)
      ensures !Reaches(entries, t, s)
    {
      if Reaches(entries, t, s) {
        var i :| 0 <= i < |order| && order[i] == s;
        assert entries[s].parents <= Elements(order[..i]) <= Elements(order) by {
          assert forall x | x in order[..i] :: x in order;
        }
        AncestorsInside(entries, order, t, s);
      }
    }
  }

  /** The next entry of a parents-first list may be applied, for its recorded fee. */
  lemma NextFee(u: Utxos<Txid>, entries: Entries, order: seq<Txid>, t: Txid, state: Utxos<Txid>, height: nat,
                verify: Verifier<Txid>)
    requires PoolOk(u, entries, height, verify)
    requires ParentsFirst(entries, order) && t in entries && t !in Elements(order)
             && entries[t].parents <= Elements(order)
    requires Reflects(state, u, entries, Elements(order), height)
    ensures FeeOf(state, entries[t].tx, height, verify) == Success(entries[t].fee)
  {
    hide Reaches, After, LocalView, Acyclic, Disjoint;
    var tx, ids := entries[t].tx, Elements(order);
    assert EntryOk(u, entries, t, height, verify);
    NoLaterAncestor(entries, order, t);
    forall o | o in tx.inputs
      ensures Get(state, o) == Get(LocalView(u, entries, tx, height), o)
    {
      InputsVisible(u, entries, ids, t, height, verify, o);
    }
    ScanAgrees(state, LocalView(u, entries, tx, height), tx, height, verify, |tx.inputs|);
    forall i: nat | i < |tx.outputs|
      ensures OutPoint(t, i) !in state
    {
      OutputsAbsent(u, entries, order, t, height, verify, i);
      assert Get(state, OutPoint(t, i)) == None;
    }
    CheckMeans(state, tx, |tx.outputs|);
  }

  lemma PoolKeys(u: Utxos<Txid>, entries: Entries, height: nat, verify: Verifier<Txid>, t: Txid)
    requires PoolOk(u, entries, height, verify) && t in entries
    ensures entries[t].tx.txid == t
  {
  }

  ghost predicate ParentClosed(entries: Entries, ids: set<Txid>) {
    ids <= entries.Keys && forall s | s in ids :: entries[s].parents <= ids
  }

  /** Nobody claims a fresh output before its producer has been applied. */
  lemma NotClaimedYet(u: Utxos<Txid>, entries: Entries, ids: set<Txid>, t: Txid, height: nat,
                      verify: Verifier<Txid>, o: OutPoint<Txid>)
    requires PoolOk(u, entries, height, verify) && t in ids
    requires ParentClosed(entries, ids - {t}) && t in entries && entries[t].parents <= ids - {t}
    requires o.txid == t && o !in u
    ensures !Claimed(entries, ids, o)
  {
    hide Reaches, LocalFee, NoCollision;
    forall s | s in ids && s in entries
      ensures o !in entries[s].tx.inputs
    {
      assert EntryOk(u, entries, s, height, verify);
    }
  }

  lemma ClosedHasAncestors(entries: Entries, ids: set<Txid>, a: Txid, t: Txid)
    requires ParentClosed(entries, ids) && t in ids && Reaches(entries, a, t)
    ensures a in ids
  {
    var s :| Link(entries, s, a, t);
    ClosedUnderParents(entries, ids, s);
  }

  /** An on-chain output the next entry spends has not been produced again. */
  lemma NotProducedYet(u: Utxos<Txid>, entries: Entries, ids: set<Txid>, t: Txid, height: nat,
                       verify: Verifier<Txid>, o: OutPoint<Txid>)
    requires PoolOk(u, entries, height, verify) && ParentClosed(entries, ids)
    requires t in entries && t !in ids && o in entries[t].tx.inputs && o in u
    ensures !Produced(entries, ids, o)
  {
    hide EntryOk, Reaches;
    if Produced(entries, ids, o) {
      SpenderReaches(u, entries, t, height, verify, o);
      ClosedHasAncestors(entries, ids, t, o.txid);
    }
  }

  lemma EffectGet(state: Utxos<Txid>, tx: Tx<Txid>, height: nat, o: OutPoint<Txid>)
    ensures Get(Effect(state, tx, height), o)
         == if o.txid == tx.txid && o.index < |tx.outputs| then Some(UtxoEntry(tx.outputs[o.index], height, false))
            else if o in tx.inputs then None
            else Get(state, o)
  {
  }

  lemma ClaimedStep(entries: Entries, ids: set<Txid>, t: Txid, o: OutPoint<Txid>)
    requires t in entries
    ensures Claimed(entries, ids + {t}, o) <==> Claimed(entries, ids, o) || o in entries[t].tx.inputs
  {
    if Claimed(entries, ids, o) {
      var s :| s in ids && s in entries && o in entries[s].tx.inputs;
      assert s in ids + {t};
    }
    if o in entries[t].tx.inputs {
      assert t in ids + {t};
    }
  }

  lemma EffectAt(u: Utxos<Txid>, entries: Entries, ids: set<Txid>, t: Txid, state: Utxos<Txid>, height: nat,
                 verify: Verifier<Txid>, o: OutPoint<Txid>)
    requires PoolOk(u, entries, height, verify)
    requires ParentClosed(entries, ids) && t in entries && t !in ids && entries[t].parents <= ids
    requires Get(state, o) == After(u, entries, ids, height, o)
    ensures Get(Effect(state, entries[t].tx, height), o) == After(u, entries, ids + {t}, height, o)
  {
    hide Reaches, EntryOk, Disjoint, PoolOk, ParentClosed, Claimed, Effect;
    var tx := entries[t].tx;
    assert tx.txid == t by {
      PoolKeys(u, entries, height, verify, t);
    }
    EffectGet(state, tx, height, o);
    ClaimedStep(entries, ids, t, o);
    if o.txid == t && o.index < |tx.outputs| {
      if o !in u {
        assert (ids + {t}) - {t} == ids;
        NotClaimedYet(u, entries, ids + {t}, t, height, verify, o);
      }
    } else if o in tx.inputs && o in u {
      NotProducedYet(u, entries, ids, t, height, verify, o);
    }
  }

  /** Applying the next entry moves the ledger to what the larger set leaves. */
  lemma NextEffect(u: Utxos<Txid>, entries: Entries, ids: set<Txid>, t: Txid, state: Utxos<Txid>, height: nat,
                   verify: Verifier<Txid>)
    requires PoolOk(u, entries, height, verify)
    requires ParentClosed(entries, ids) && t in entries && t !in ids && entries[t].parents <= ids
    requires Reflects(state, u, entries, ids, height)
    ensures Reflects(Effect(state, entries[t].tx, height), u, entries, ids + {t}, height)
  {
    var tx := entries[t].tx;
    var after := Effect(state, tx, height);
    forall o
      ensures Get(after, o) == After(u, entries, ids + {t}, height, o)
    {
      EffectAt(u, entries, ids, t, state, height, verify, o);
    }
  }

  lemma FirstIsClosed(entries: Entries, order: seq<Txid>)
    requires ParentsFirst(entries, order)
    ensures ParentClosed(entries, Elements(order))
  {
    forall s | s in Elements(order)
      ensures entries[s].parents <= Elements(order)
    {
      var i :| 0 <= i < |order| && order[i] == s;
      assert forall x | x in order[..i] :: x in order;
    }
  }

  lemma ElementsOfNothing(order: seq<Txid>)
    requires order == []
    ensures Elements(order) == {}
  {
  }

  lemma NothingReplayed(u: Utxos<Txid>, entries: Entries, height: nat)
    ensures Reflects(u, u, entries, {}, height)
  {
  }

  /** Replaying a parents-first list succeeds and leaves the ledger its set determines. */
  lemma {:induction false} ReplaySucceeds(u: Utxos<Txid>, entries: Entries, order: seq<Txid>, height: nat,
                                          verify: Verifier<Txid>)
    requires PoolOk(u, entries, height, verify) && ParentsFirst(entries, order)
    ensures Replay(u, entries, order, height, verify).Success?
    ensures Reflects(Replay(u, entries, order, height, verify).value, u, entries, Elements(order), height)
  {
    hide PoolOk, ParentsFirst, Reflects, FeeOf, Effect;
    if order == [] {
      NothingReplayed(u, entries, height);
      ElementsOfNothing(order);
    } else {
      var front, last := order[..|order| - 1], order[|order| - 1];
      PrefixParentsFirst(entries, order);
      ReplaySucceeds(u, entries, front, height, verify);
      var state := Replay(u, entries, front, height, verify).value;
      NextFee(u, entries, front, last, state, height, verify);
      FirstIsClosed(entries, front);
      NextEffect(u, entries, Elements(front), last, state, height, verify);
    }
  }
}
