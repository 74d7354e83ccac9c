/** Whole runs of the pool: every pool reachable by admissions and reconciliations is valid. */
module PoolRun {
  import opened Ledger
  import opened PoolGraph
  import opened PoolState
  import opened PoolCapacity
  import opened PoolReconcile

  /** A call, with the chain state it is made against. */
  datatype Event =
    | Offer(tx: Tx<Txid>, base: ChainBase, utxos: Utxos<Txid>, verify: Verifier<Txid>)
    | BlockJoined(block: seq<Tx<Txid>>, base: ChainBase, utxos: Utxos<Txid>, verify: Verifier<Txid>)
    | ChainSwitched(base: ChainBase, utxos: Utxos<Txid>, verify: Verifier<Txid>)

  /** The pool after a call, whether it was refused or not. */
  ghost function Following(pool: Pool, event: Event): (next: Pool)
    requires Valid(pool)
    ensures Valid(next)
  {
    match event
    case Offer(tx, base, utxos, verify) =>
      AdmitKeepsValid(pool, tx, base, utxos, verify);
      var r := Admit(pool, tx, base, utxos, verify);
      if r.Success? then r.value.pool else pool
    case BlockJoined(block, base, utxos, verify) =>
      ReconcileBlockOutcome(pool, block, base, utxos, verify);
      var r := ReconcileBlock(pool, block, base, utxos, verify);
      if r.Success? then r.value.pool else pool
    case ChainSwitched(base, utxos, verify) =>
      ReconcileReorgOutcome(pool, base, utxos, verify);
      var r := ReconcileReorg(pool, base, utxos, verify);
      if r.Success? then r.value.pool else pool
  }

  /** A run of calls.  Whatever they are, the pool at the end is valid: the spender index is exact,
      links are mirrored and acyclic, bytes and counts add up and stay within both limits, and no
      entry exceeds the ancestor or descendant limit. */
  ghost function Run(pool: Pool, events: seq<Event>): (end: Pool)
    requires Valid(pool)
    ensures Valid(end)
  {
    if events == [] then pool else Following(Run(pool, events[..|events| - 1]), events[|events| - 1])
  }
}
