/** The pool as a value, what every reachable pool satisfies, and the effect of one commit. */
module PoolState {
  import opened Prelude
  import opened Ledger
  import opened PoolGraph

  const USIZE_MAX := U64_MAX

  datatype Config = Config(maxEntries: u64, maxTotalBytes: u64, maxAncestors: u64, maxDescendants: u64)

  datatype ChainBase = ChainBase(tipId: nat, tipHeight: u64)

  type Spenders = map<OutPoint<Txid>, Txid>

  datatype Pool = Pool(config: Config, base: ChainBase, entries: Entries, spenders: Spenders, totalBytes: nat)

  /** The bytes of the entries in `keys`. */
  ghost function Bytes(entries: Entries, keys: set<Txid>): nat
    requires keys <= entries.Keys
  {
    if keys == {} then 0
    else
      var t :| t in keys;
      entries[t].tx.size + Bytes(entries, keys - {t})
  }

  lemma NoBytes(entries: Entries)
    ensures Bytes(entries, {}) == 0
  {
  }

  lemma {:induction false} BytesRemove(entries: Entries, keys: set<Txid>, t: Txid)
    requires keys <= entries.Keys && t in keys
    ensures Bytes(entries, keys) == entries[t].tx.size + Bytes(entries, keys - {t})
    decreases keys
  {
    var x :| x in keys && Bytes(entries, keys) == entries[x].tx.size + Bytes(entries, keys - {x});
    if x != t {
      BytesRemove(entries, keys - {x}, t);
      BytesRemove(entries, keys - {t}, x);
      assert keys - {x} - {t} == keys - {t} - {x};
    }
  }

  lemma {:induction false} BytesSplit(entries: Entries, a: set<Txid>, b: set<Txid>)
    requires a <= entries.Keys && b <= entries.Keys && a !! b
    ensures Bytes(entries, a + b) == Bytes(entries, a) + Bytes(entries, b)
    decreases a
  {
    if a == {} {
      assert a + b == b;
    } else {
      var t :| t in a;
      BytesRemove(entries, a, t);
      BytesRemove(entries, a + b, t);
      assert (a + b) - {t} == (a - {t}) + b;
      BytesSplit(entries, a - {t}, b);
    }
  }

  lemma BytesSubset(entries: Entries, a: set<Txid>, b: set<Txid>)
    requires a <= b <= entries.Keys
    ensures Bytes(entries, b) == Bytes(entries, a) + Bytes(entries, b - a)
  {
    BytesSplit(entries, a, b - a);
    assert a + (b - a) == b;
  }

  /** Only the transactions' sizes matter. */
  lemma {:induction false} BytesAgree(e1: Entries, e2: Entries, keys: set<Txid>)
    requires keys <= e1.Keys && keys <= e2.Keys
    requires forall t | t in keys :: e1[t].tx.size == e2[t].tx.size
    ensures Bytes(e1, keys) == Bytes(e2, keys)
    decreases keys
  {
    if keys != {} {
      var t :| t in keys;
      BytesRemove(e1, keys, t);
      BytesRemove(e2, keys, t);
      BytesAgree(e1, e2, keys - {t});
    }
  }

  // ----- The pool invariant -----

  /** `spenders` maps each entry's inputs to that entry, and nothing else. */
  ghost predicate SpendersExact(entries: Entries, spenders: Spenders) {
    && (forall t, o | t in entries && o in entries[t].tx.inputs :: o in spenders && spenders[o] == t)
    && (forall o | o in spenders :: spenders[o] in entries && o in entries[spenders[o]].tx.inputs)
  }

  ghost predicate KeysMatch(entries: Entries) {
    forall t | t in entries :: entries[t].tx.txid == t
  }

  /** The links of the graph are mirrored, acyclic, and come from the transactions' inputs. */
  ghost predicate GraphOk(entries: Entries) {
    && Symmetric(entries)
    && Acyclic(entries)
    && forall t, p | t in entries && p in entries[t].parents ::
         exists o :: o in entries[t].tx.inputs && o.txid == p && o.index < |entries[p].tx.outputs|
  }

  ghost predicate ClosureBounds(entries: Entries, config: Config) {
    forall t | t in entries ::
      |AncestorsOf(entries, t)| <= config.maxAncestors && |DescendantsOf(entries, t)| <= config.maxDescendants
  }

  predicate ConfigOk(config: Config) {
    0 < config.maxEntries && 0 < config.maxTotalBytes
  }

  ghost predicate Valid(pool: Pool) {
    && ConfigOk(pool.config)
    && KeysMatch(pool.entries)
    && GraphOk(pool.entries)
    && SpendersExact(pool.entries, pool.spenders)
    && pool.totalBytes == Bytes(pool.entries, pool.entries.Keys)
    && |pool.entries| <= pool.config.maxEntries
    && pool.totalBytes <= pool.config.maxTotalBytes
    && ClosureBounds(pool.entries, pool.config)
  }

  function EmptyPool(base: ChainBase, config: Config): Pool {
    Pool(config, base, map[], map[], 0)
  }

  lemma EmptyPoolValid(base: ChainBase, config: Config)
    requires ConfigOk(config)
    ensures Valid(EmptyPool(base, config))
  {
  }
}
