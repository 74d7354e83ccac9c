/** Eviction in terms of fees and sizes: who is evicted for a candidate, and when it is refused. */
module PoolBidding {
  import opened Prelude
  import opened Ledger
  import opened PoolGraph
  import opened PoolClosure
  import opened PoolState
  import opened PoolCommit
  import opened PoolEviction
  import opened PoolAdmission
  import opened PoolCapacity

  // ----- The order -----

  /** The fee per byte. */
  ghost function Rate(e: Entry): real {
    e.fee as real / e.tx.size as real
  }

  /** `a` pays less per byte than `b`, or the same per byte and less in all, or the same of both and
      has the smaller id. */
  ghost predicate Cheaper(a: Entry, b: Entry) {
    || Rate(a) < Rate(b)
    || (Rate(a) == Rate(b) && a.fee < b.fee)
    || (Rate(a) == Rate(b) && a.fee == b.fee && a.tx.txid < b.tx.txid)
  }

  lemma PositiveFactor(x: real, y: real, k: real)
    requires k > 0.0
    ensures x < y <==> x * k < y * k
    ensures x == y <==> x * k == y * k
  {
  }

  lemma CrossIsRate(fa: real, sa: real, fb: real, sb: real)
    requires sa > 0.0 && sb > 0.0
    ensures fa / sa < fb / sb <==> fa * sb < fb * sa
    ensures fa / sa == fb / sb <==> fa * sb == fb * sa
  {
    var x, y := fa / sa, fb / sb;
    assert fa == x * sa && fb == y * sb;
    assert fa * sb == x * (sa * sb) && fb * sa == y * (sa * sb);
    PositiveFactor(x, y, sa * sb);
  }

  lemma RealProduct(a: nat, b: nat)
    ensures (a * b) as real == a as real * b as real
  {
  }

  /** The eviction order is the order of bids. */
  lemma EvictionMeans(a: Entry, b: Entry)
    ensures EvictedBefore(a, b) <==> Cheaper(a, b)
  {
    RealProduct(a.fee, b.tx.size);
    RealProduct(b.fee, a.tx.size);
    CrossIsRate(a.fee as real, a.tx.size as real, b.fee as real, b.tx.size as real);
  }

  // ----- The auction -----

  /** The roots and all their descendants. */
  ghost function Under(entries: Entries, roots: seq<Txid>): set<Txid> {
    set t | t in entries && exists r :: r in roots && (t == r || Reaches(entries, r, t))
  }

  /** Room for the candidate beside what is left. */
  ghost predicate Fits(pool: Pool, cand: Candidate, gone: set<Txid>) {
    && |pool.entries.Keys - gone| + 1 <= pool.config.maxEntries
    && Bytes(pool.entries, pool.entries.Keys - gone) + cand.entry.tx.size <= pool.config.maxTotalBytes
  }

  /** Of what is left, `root` bids least, and less than the candidate. */
  ghost predicate Cheapest(pool: Pool, cand: Candidate, gone: set<Txid>, root: Txid) {
    && root in pool.entries && root !in gone && Cheaper(pool.entries[root], cand.entry)
    && forall t | t in pool.entries && t !in gone && t != root :: Cheaper(pool.entries[root], pool.entries[t])
  }

  /** Each root was the cheapest when its turn came, there was no room yet, and the candidate does not
      depend on it. */
  ghost predicate Turns(pool: Pool, cand: Candidate, roots: seq<Txid>) {
    forall i | 0 <= i < |roots| ::
      var gone := Under(pool.entries, roots[..i]);
      !Fits(pool, cand, gone) && Cheapest(pool, cand, gone, roots[i]) && roots[i] !in cand.ancestors
  }

  /** Nothing left bids less than the candidate, or the least of it is an ancestor. */
  ghost predicate Outbid(pool: Pool, cand: Candidate, gone: set<Txid>) {
    || (forall t | t in pool.entries && t !in gone :: !Cheaper(pool.entries[t], cand.entry))
    || (exists root :: Cheapest(pool, cand, gone, root) && root in cand.ancestors)
  }

  lemma UnderSnoc(entries: Entries, roots: seq<Txid>, root: Txid)
    requires root in entries
    ensures Under(entries, roots + [root]) == Grown(entries, Under(entries, roots), root)
  {
    hide Reaches;
    forall t | t in entries
      ensures t in Under(entries, roots + [root]) <==> t in Grown(entries, Under(entries, roots), root)
    {
      assert forall r | r in roots :: r in roots + [root];
      assert root in roots + [root];
    }
  }

  lemma NothingUnder(entries: Entries)
    ensures Under(entries, []) == {}
  {
  }

  lemma FitsIsRoom(pool: Pool, cand: Candidate, gone: set<Txid>)
    requires Valid(pool) && gone <= pool.entries.Keys
    ensures Fits(pool, cand, gone) <==> RoomFor(pool, cand, gone)
    ensures VirtualBytes(pool, cand, gone) == Bytes(pool.entries, pool.entries.Keys - gone) + cand.entry.tx.size
  {
    hide GraphOk, SpendersExact, ClosureBounds;
    BytesSubset(pool.entries, gone, pool.entries.Keys);
    assert |pool.entries.Keys - gone| == |pool.entries.Keys| - |gone|;
    assert |pool.entries.Keys| == |pool.entries|;
  }

  lemma CheapestIsWeakest(pool: Pool, cand: Candidate, gone: set<Txid>, root: Txid)
    ensures IsWeakest(pool.entries, gone, cand.entry, root) <==> Cheapest(pool, cand, gone, root)
  {
    hide EvictedBefore, Cheaper;
    if root in pool.entries {
      EvictionMeans(pool.entries[root], cand.entry);
      forall t | t in pool.entries
        ensures EvictedBefore(pool.entries[root], pool.entries[t]) <==> Cheaper(pool.entries[root], pool.entries[t])
      {
        EvictionMeans(pool.entries[root], pool.entries[t]);
      }
    }
  }

  lemma WeakerIsCheaper(pool: Pool, cand: Candidate, gone: set<Txid>)
    ensures HasWeaker(pool.entries, gone, cand.entry)
       <==> exists t :: t in pool.entries && t !in gone && Cheaper(pool.entries[t], cand.entry)
  {
    hide EvictedBefore, Cheaper;
    forall t | t in pool.entries
      ensures EvictedBefore(pool.entries[t], cand.entry) <==> Cheaper(pool.entries[t], cand.entry)
    {
      EvictionMeans(pool.entries[t], cand.entry);
    }
  }

  lemma TurnsSnoc(pool: Pool, cand: Candidate, roots: seq<Txid>, root: Txid)
    requires Turns(pool, cand, roots)
    requires var gone := Under(pool.entries, roots);
             !Fits(pool, cand, gone) && Cheapest(pool, cand, gone, root) && root !in cand.ancestors
    ensures Turns(pool, cand, roots + [root])
  {
    hide Under, Fits, Cheapest;
    var all := roots + [root];
    forall i | 0 <= i < |all|
      ensures var gone := Under(pool.entries, all[..i]);
              !Fits(pool, cand, gone) && Cheapest(pool, cand, gone, all[i]) && all[i] !in cand.ancestors
    {
      if i < |roots| {
        assert all[..i] == roots[..i];
      } else {
        assert all[..i] == roots;
      }
    }
  }

  /** How planning ends: with room, or outbid. */
  ghost predicate Settles(pool: Pool, cand: Candidate, roots: seq<Txid>, r: Result<(set<Txid>, nat), MempoolError>) {
    var gone := Under(pool.entries, roots);
    && Turns(pool, cand, roots)
    && if Fits(pool, cand, gone) then
         r == Success((gone, Bytes(pool.entries, pool.entries.Keys - gone) + cand.entry.tx.size))
       else r == Failure(CapacityRejected) && Outbid(pool, cand, gone)
  }

  lemma UnderInside(entries: Entries, roots: seq<Txid>)
    ensures Under(entries, roots) <= entries.Keys
  {
  }

  lemma CheapestFacts(pool: Pool, cand: Candidate, gone: set<Txid>, root: Txid)
    requires Cheapest(pool, cand, gone, root)
    ensures root in pool.entries && root !in gone
  {
    hide Cheaper;
  }

  /** One round: there is room, or nothing to evict, or the cheapest entry is next. */
  lemma Round(pool: Pool, cand: Candidate, gone: set<Txid>) returns (root: Txid)
    requires Valid(pool) && CandidateOk(pool, cand) && pool.totalBytes + cand.entry.tx.size <= USIZE_MAX
    requires RemoveOk(pool, cand, gone) && gone <= pool.entries.Keys
    ensures var r := PlanCapacity(pool, cand, gone);
            if Fits(pool, cand, gone) then
              r == Success((gone, Bytes(pool.entries, pool.entries.Keys - gone) + cand.entry.tx.size))
            else
              || (r == Failure(CapacityRejected) && Outbid(pool, cand, gone))
              || (&& Cheapest(pool, cand, gone, root) && root !in cand.ancestors && root in pool.entries
                  && root !in gone
                  && RemoveOk(pool, cand, Grown(pool.entries, gone, root))
                  && |pool.entries.Keys - Grown(pool.entries, gone, root)| < |pool.entries.Keys - gone|
                  && r == PlanCapacity(pool, cand, Grown(pool.entries, gone, root)))
  {
    hide Valid, CandidateOk, RoomFor, VirtualBytes, Fits, Cheapest, EvictedBefore, Cheaper, IsWeakest, HasWeaker,
         RemoveOk, Grown, Bytes, UpClosure, Symmetric, KeysMatch;
    AncestorsOfCandidate(pool, cand);
    FitsIsRoom(pool, cand, gone);
    WeakerIsCheaper(pool, cand, gone);
    root := 0;
    if !Fits(pool, cand, gone) && HasWeaker(pool.entries, gone, cand.entry) {
      root := Weakest(pool.entries, gone, cand.entry);
      CheapestIsWeakest(pool, cand, gone, root);
      CheapestFacts(pool, cand, gone, root);
      if root !in cand.ancestors {
        GrownIsOk(pool, cand, gone, root);
      }
    }
  }

  lemma {:induction false} PlanSettles(pool: Pool, cand: Candidate, roots: seq<Txid>) returns (all: seq<Txid>)
    requires Valid(pool) && CandidateOk(pool, cand) && pool.totalBytes + cand.entry.tx.size <= USIZE_MAX
    requires RemoveOk(pool, cand, Under(pool.entries, roots)) && Turns(pool, cand, roots)
    ensures Settles(pool, cand, all, PlanCapacity(pool, cand, Under(pool.entries, roots)))
    decreases |pool.entries.Keys - Under(pool.entries, roots)|
  {
    hide Valid, CandidateOk, Under, Turns, Fits, Cheapest, Outbid, RemoveOk, PlanCapacity, Grown;
    var gone := Under(pool.entries, roots);
    UnderInside(pool.entries, roots);
    var root := Round(pool, cand, gone);
    all := roots;
    if !Settles(pool, cand, roots, PlanCapacity(pool, cand, gone)) {
      UnderSnoc(pool.entries, roots, root);
      TurnsSnoc(pool, cand, roots, root);
      all := PlanSettles(pool, cand, roots + [root]);
    }
  }

  ghost function PlanFor(pool: Pool, cand: Candidate): Result<(set<Txid>, nat), MempoolError>
    requires Valid(pool) && CandidateOk(pool, cand)
  {
    NothingRemoved(pool, cand);
    PlanCapacity(pool, cand, {})
  }

  lemma NoTurns(pool: Pool, cand: Candidate)
    ensures Turns(pool, cand, [])
  {
  }

  /** Capacity planning is an auction: while there is no room, the cheapest entry left goes with its
      descendants, if it bids less than the candidate and the candidate does not depend on it. */
  lemma PlanIsAuction(pool: Pool, cand: Candidate) returns (roots: seq<Txid>)
    requires Valid(pool) && CandidateOk(pool, cand)
    ensures if pool.totalBytes + cand.entry.tx.size > USIZE_MAX then PlanFor(pool, cand) == Failure(InvariantViolation)
            else Settles(pool, cand, roots, PlanFor(pool, cand))
  {
    hide Valid, CandidateOk, Settles, RemoveOk, Turns;
    NothingUnder(pool.entries);
    NothingRemoved(pool, cand);
    roots := [];
    if pool.totalBytes + cand.entry.tx.size <= USIZE_MAX {
      NoTurns(pool, cand);
      roots := PlanSettles(pool, cand, []);
    }
  }

  /** What an admission evicts is or descends from an evicted root that bids less than the candidate;
      with room for it nothing is evicted. */
  lemma EvictionsAreOutbid(pool: Pool, tx: Tx<Txid>, base: ChainBase, utxos: Utxos<Txid>, verify: Verifier<Txid>)
    requires Valid(pool) && Admit(pool, tx, base, utxos, verify).Success?
    ensures Prepare(pool, tx, base, utxos, verify).Success?
    ensures var cand, evicted := Prepare(pool, tx, base, utxos, verify).value,
                                 Admit(pool, tx, base, utxos, verify).value.evicted;
            && (Fits(pool, cand, {}) ==> evicted == {}) && Fits(pool, cand, evicted)
            && forall t | t in evicted :: exists root ::
                 && root in evicted && root in pool.entries && (t == root || Reaches(pool.entries, root, t))
                 && Cheaper(pool.entries[root], cand.entry)
  {
    hide Valid, CandidateOk, Prepare, Fits, Cheaper, Committed, PlanCapacity;
    PreparedIsOk(pool, tx, base, utxos, verify);
    var cand := Prepare(pool, tx, base, utxos, verify).value;
    var roots := PlanIsAuction(pool, cand);
    if roots != [] {
      assert roots[..0] == [];
      NothingUnder(pool.entries);
      assert !Fits(pool, cand, Under(pool.entries, roots[..0]));
    }
    NothingUnder(pool.entries);
    var evicted := Admit(pool, tx, base, utxos, verify).value.evicted;
    forall t | t in evicted
      ensures exists root :: root in evicted && root in pool.entries && (t == root || Reaches(pool.entries, root, t))
                             && Cheaper(pool.entries[root], cand.entry)
    {
      var r :| r in roots && (t == r || Reaches(pool.entries, r, t));
      var i :| 0 <= i < |roots| && roots[i] == r;
      assert Cheapest(pool, cand, Under(pool.entries, roots[..i]), roots[i]);
    }
  }

  // ----- Refusals -----

  lemma {:induction false} ConflictErrors(spenders: Spenders, inputs: seq<OutPoint<Txid>>, k: nat)
    requires k <= |inputs|
    ensures FirstConflict(spenders, inputs, k) != Failure(CapacityRejected)
  {
    if k > 0 {
      ConflictErrors(spenders, inputs, k - 1);
    }
  }

  lemma {:induction false} SourceErrors(entries: Entries, utxos: Utxos<Txid>, inputs: seq<OutPoint<Txid>>, k: nat)
    requires k <= |inputs|
    ensures DirectParents(entries, utxos, inputs, k) != Failure(CapacityRejected)
  {
    if k > 0 {
      SourceErrors(entries, utxos, inputs, k - 1);
    }
  }

  lemma {:induction false} ReplayErrors(u: Utxos<Txid>, entries: Entries, order: seq<Txid>, height: nat,
                                        verify: Verifier<Txid>)
    requires Elements(order) <= entries.Keys
    ensures Replay(u, entries, order, height, verify) != Failure(CapacityRejected)
  {
    hide FeeOf, Effect;
    if order != [] {
      var front := order[..|order| - 1];
      assert forall t | t in front :: t in Elements(order);
      ReplayErrors(u, entries, front, height, verify);
    }
  }

  lemma FeeErrors(u: Utxos<Txid>, entries: Entries, order: seq<Txid>, tx: Tx<Txid>, height: nat, verify: Verifier<Txid>)
    requires Elements(order) <= entries.Keys
    ensures FeeAfterReplay(u, entries, order, tx, height, verify) != Failure(CapacityRejected)
  {
    hide Replay, FeeOf;
    ReplayErrors(u, entries, order, height, verify);
  }

  lemma FeeRefusal(pool: Pool, tx: Tx<Txid>, utxos: Utxos<Txid>, parents: set<Txid>, height: nat,
                   verify: Verifier<Txid>)
    requires Valid(pool)
    ensures Symmetric(pool.entries) && Acyclic(pool.entries)
    ensures var ancestors := UpClosure(pool.entries, parents);
            FeeAfterReplay(Narrowed(utxos, pool.entries, ancestors, tx), pool.entries,
                           Filtered(TheOrder(pool.entries), ancestors), tx, height, verify) != Failure(CapacityRejected)
  {
    hide ClosureBounds, SpendersExact, Bytes, FeeAfterReplay, Narrowed, Filtered, Symmetric, Acyclic, Above, KeysMatch;
    var ancestors := UpClosure(pool.entries, parents);
    FeeErrors(Narrowed(utxos, pool.entries, ancestors, tx), pool.entries, Filtered(TheOrder(pool.entries), ancestors),
              tx, height, verify);
  }

  lemma PrepareErrors(pool: Pool, tx: Tx<Txid>, base: ChainBase, utxos: Utxos<Txid>, verify: Verifier<Txid>)
    requires Valid(pool)
    ensures Prepare(pool, tx, base, utxos, verify) != Failure(CapacityRejected)
  {
    hide Valid, FirstConflict, CheckSkeleton, DirectParents, UpClosure, DescendantsFull, Filtered, Narrowed,
         FeeAfterReplay;
    ConflictErrors(pool.spenders, tx.inputs, |tx.inputs|);
    SourceErrors(pool.entries, utxos, tx.inputs, |tx.inputs|);
    var parents := DirectParents(pool.entries, utxos, tx.inputs, |tx.inputs|);
    if parents.Success? {
      FeeRefusal(pool, tx, utxos, parents.value, base.tipHeight + 1, verify);
    }
  }

  /** A candidate is refused for capacity only when, after evicting every cheaper root in turn, there is
      still no room and nothing left bids less, or the least bid left is an ancestor's. */
  lemma RefusedIsOutbid(pool: Pool, tx: Tx<Txid>, base: ChainBase, utxos: Utxos<Txid>, verify: Verifier<Txid>)
    returns (roots: seq<Txid>)
    requires Valid(pool) && Admit(pool, tx, base, utxos, verify) == Failure(CapacityRejected)
    ensures Prepare(pool, tx, base, utxos, verify).Success?
    ensures var cand := Prepare(pool, tx, base, utxos, verify).value;
            var gone := Under(pool.entries, roots);
            Turns(pool, cand, roots) && !Fits(pool, cand, gone) && Outbid(pool, cand, gone)
  {
    hide Valid, CandidateOk, Prepare, Fits, Committed, PlanCapacity, Turns, Outbid, Under;
    PrepareErrors(pool, tx, base, utxos, verify);
    PreparedIsOk(pool, tx, base, utxos, verify);
    roots := PlanIsAuction(pool, Prepare(pool, tx, base, utxos, verify).value);
  }
}
