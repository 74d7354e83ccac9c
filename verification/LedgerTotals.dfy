/** The money in a ledger, and what a transaction does to it. */
module LedgerTotals {
  import opened Prelude
  import opened Ledger

  lemma Smaller<I>(u: Utxos<I>, o: OutPoint<I>)
    requires o in u
    ensures |u - {o}| == |u| - 1
  {
    assert (u - {o}).Keys == u.Keys - {o};
    assert |(u - {o}).Keys| == |u - {o}| && |u.Keys| == |u|;
  }

  /** The sum of all entries. */
  ghost function Total<I(!new)>(u: Utxos<I>): nat
    decreases |u|
  {
    if u == map[] then 0
    else
      var o :| o in u;
      Smaller(u, o);
      u[o].output.value + Total(u - {o})
  }

  /** The order in which entries are taken does not matter. */
  lemma {:induction false} TotalTake<I(!new)>(u: Utxos<I>, o: OutPoint<I>)
    requires o in u
    ensures Total(u) == u[o].output.value + Total(u - {o})
    decreases |u|
  {
    var p :| p in u && Total(u) == u[p].output.value + Total(u - {p});
    if p != o {
      Smaller(u, p);
      Smaller(u, o);
      TotalTake(u - {p}, o);
      TotalTake(u - {o}, p);
      assert u - {p} - {o} == u - {o} - {p};
    }
  }

  lemma TotalOfNothing<I(!new)>()
    ensures Total<I>(map[]) == 0
  {
  }

  lemma TotalAdd<I(!new)>(u: Utxos<I>, o: OutPoint<I>, entry: UtxoEntry)
    requires o !in u
    ensures Total(u[o := entry]) == Total(u) + entry.output.value
  {
    TotalTake(u[o := entry], o);
    assert u[o := entry] - {o} == u;
  }

  lemma UnionStep<I>(a: Utxos<I>, b: Utxos<I>, o: OutPoint<I>)
    requires a.Keys !! b.Keys && o in b
    ensures var rest := b - {o};
            a.Keys !! rest.Keys && o !in a + rest && a + b == (a + rest)[o := b[o]]
  {
  }

  lemma {:induction false} TotalUnion<I(!new)>(a: Utxos<I>, b: Utxos<I>)
    requires a.Keys !! b.Keys
    ensures Total(a + b) == Total(a) + Total(b)
    decreases |b|
  {
    hide Total;
    if b == map[] {
      TotalOfNothing<I>();
      assert a + b == a;
    } else {
      var o :| o in b;
      var rest := b - {o};
      Smaller(b, o);
      TotalUnion(a, rest);
      TotalTake(b, o);
      UnionStep(a, b, o);
      TotalAdd(a + rest, o, b[o]);
    }
  }

  /** The entries of the ledger that a transaction names. */
  ghost function Named<I(!new)>(u: Utxos<I>, inputs: seq<OutPoint<I>>): Utxos<I> {
    map o | o in u && o in inputs :: u[o]
  }

  lemma TotalSplits<I(!new)>(u: Utxos<I>, tx: Tx<I>)
    ensures Total(u) == Total(u - Spent(tx)) + Total(Named(u, tx.inputs))
  {
    TotalUnion(u - Spent(tx), Named(u, tx.inputs));
    assert u == (u - Spent(tx)) + Named(u, tx.inputs);
  }

  /** Inputs that are distinct and present are worth the entries they name. */
  lemma {:induction false} InputsAreWorth<I(!new)>(u: Utxos<I>, inputs: seq<OutPoint<I>>)
    requires forall i, j | 0 <= i < j < |inputs| :: inputs[i] != inputs[j]
    requires forall o | o in inputs :: o in u
    ensures InputValue(u, inputs) == Total(Named(u, inputs))
  {
    if inputs == [] {
      assert Named(u, inputs) == map[];
    } else {
      var front, last := inputs[..|inputs| - 1], inputs[|inputs| - 1];
      InputsAreWorth(u, front);
      TotalAdd(Named(u, front), last, u[last]);
      assert forall o | o in inputs :: o in front || o == last;
      assert Named(u, inputs) == Named(u, front)[last := u[last]];
    }
  }

  /** The entries that the outputs of a transaction make. */
  ghost function Made<I(!new)>(tx: Tx<I>): Utxos<I> {
    Created(tx, 0, false, |tx.outputs|)
  }

  /** One more output is worth its value. */
  lemma OneMoreOutput<I(!new)>(tx: Tx<I>, height: nat, isCoinbase: bool, k: nat)
    requires 0 < k <= |tx.outputs|
    ensures Total(Created(tx, height, isCoinbase, k))
         == Total(Created(tx, height, isCoinbase, k - 1)) + tx.outputs[k - 1].value
  {
    hide Total;
    var before, o := Created(tx, height, isCoinbase, k - 1), OutPoint(tx.txid, k - 1);
    TotalAdd(before, o, UtxoEntry(tx.outputs[k - 1], height, isCoinbase));
  }

  lemma NothingCreated<I(!new)>(tx: Tx<I>, height: nat, isCoinbase: bool)
    ensures Total(Created(tx, height, isCoinbase, 0)) == 0
  {
  }

  lemma {:induction false} SameWorth<I(!new)>(tx: Tx<I>, height: nat, isCoinbase: bool, k: nat)
    requires k <= |tx.outputs|
    ensures Total(Created(tx, height, isCoinbase, k)) == Total(Created(tx, 0, false, k))
  {
    hide Total, Created;
    if k == 0 {
      NothingCreated(tx, height, isCoinbase);
      NothingCreated(tx, 0, false);
    } else {
      SameWorth(tx, height, isCoinbase, k - 1);
      OneMoreOutput(tx, height, isCoinbase, k);
      OneMoreOutput(tx, 0, false, k);
    }
  }

  /** The first output and the others. */
  lemma {:induction false} WorthSplits<I(!new)>(tx: Tx<I>, rest: Tx<I>, k: nat)
    requires k < |tx.outputs| && rest.outputs == tx.outputs[1..]
    ensures Total(Created(tx, 0, false, k + 1)) == tx.outputs[0].value + Total(Created(rest, 0, false, k))
  {
    hide Total, Created;
    OneMoreOutput(tx, 0, false, k + 1);
    if k == 0 {
      NothingCreated(tx, 0, false);
      NothingCreated(rest, 0, false);
    } else {
      WorthSplits(tx, rest, k - 1);
      OneMoreOutput(rest, 0, false, k);
    }
  }

  /** The outputs are summed exactly, or their sum does not fit. */
  lemma {:induction false} SumMeans<I(!new)>(tx: Tx<I>, k: nat)
    requires k <= |tx.outputs|
    ensures var worth := Total(Created(tx, 0, false, k));
            SumOutputs<I>(tx.outputs[..k]) == if worth <= U64_MAX then Success(worth) else Failure(AmountOverflow)
  {
    hide Total, Created;
    if k == 0 {
      NothingCreated(tx, 0, false);
    } else {
      SumMeans(tx, k - 1);
      OneMoreOutput(tx, 0, false, k);
      assert tx.outputs[..k][..k - 1] == tx.outputs[..k - 1];
    }
  }

  /** When a transaction may be applied: its inputs pass, what it spends and what it makes are amounts
      that fit, it makes no more than it spends, and none of its outputs exists yet. */
  ghost predicate Applicable<I(!new)>(u: Utxos<I>, tx: Tx<I>, height: nat, verify: Verifier<I>) {
    && InputsOk(u, tx, height, verify, |tx.inputs|)
    && Total(Made(tx)) <= Total(Named(u, tx.inputs)) <= U64_MAX
    && |tx.outputs| <= U32_MAX + 1 && forall i: nat | i < |tx.outputs| :: OutPoint(tx.txid, i) !in u
  }

  /** The fee exists if and only if the transaction may be applied, and is what it spends beyond what
      it makes. */
  lemma FeeMeans<I(!new)>(u: Utxos<I>, tx: Tx<I>, height: nat, verify: Verifier<I>)
    ensures FeeOf(u, tx, height, verify).Success? <==> Applicable(u, tx, height, verify)
    ensures FeeOf(u, tx, height, verify).Success? ==>
              FeeOf(u, tx, height, verify).value + Total(Made(tx)) == Total(Named(u, tx.inputs))
  {
    hide ScanInputs, SumOutputs, CheckOutputs, Created, Total;
    ScanMeans(u, tx, height, verify, |tx.inputs|);
    SumMeans(tx, |tx.outputs|);
    CheckMeans(u, tx, |tx.outputs|);
    assert tx.inputs[..|tx.inputs|] == tx.inputs && tx.outputs[..|tx.outputs|] == tx.outputs;
    if InputsOk(u, tx, height, verify, |tx.inputs|) {
      InputsAreWorth(u, tx.inputs);
    }
  }

  /** Conservation: money leaves the ledger only as the fee. */
  lemma EffectConserves<I(!new)>(u: Utxos<I>, tx: Tx<I>, height: nat, verify: Verifier<I>)
    requires FeeOf(u, tx, height, verify).Success?
    ensures Total(Effect(u, tx, height)) + FeeOf(u, tx, height, verify).value == Total(u)
  {
    hide FeeOf, Total;
    FeeMeans(u, tx, height, verify);
    TotalSplits(u, tx);
    SameWorth(tx, height, false, |tx.outputs|);
    TotalUnion(u - Spent(tx), Created(tx, height, false, |tx.outputs|));
  }
}
