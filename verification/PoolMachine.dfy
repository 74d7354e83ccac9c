/** Capacity planning in the program's own form. */
module PoolMachine {
  import opened Prelude
  import opened PoolGraph
  import opened PoolClosure
  import opened PoolState
  import opened PoolCommit
  import opened PoolEviction
  import opened PoolCapacity
  import opened PoolUpdate

  // ----- Capacity planning -----

  /** `root` is evicted before the candidate and before the other scanned entries. */
  ghost predicate ScannedWeakest(entries: Entries, remove: set<Txid>, candidate: Entry, seen: set<Txid>, root: Txid) {
    && root in entries && root in seen && root !in remove
    && EvictedBefore(entries[root], candidate)
    && forall t | t in entries && t in seen && t !in remove && t != root :: EvictedBefore(entries[root], entries[t])
  }

  lemma NewWeakest(entries: Entries, remove: set<Txid>, candidate: Entry, seen: set<Txid>, r: Option<Txid>, t: Txid)
    requires KeysMatch(entries) && t in entries && t !in remove && t !in seen
    requires r.None? ==> forall x | x in entries && x in seen && x !in remove :: !EvictedBefore(entries[x], candidate)
    requires r.None? ==> EvictedBefore(entries[t], candidate)
    requires r.Some? ==>
               && ScannedWeakest(entries, remove, candidate, seen, r.value)
               && EvictedBefore(entries[t], entries[r.value])
    ensures ScannedWeakest(entries, remove, candidate, seen + {t}, t)
  {
    hide EvictedBefore;
    if r.Some? {
      EvictionTransitive(entries[t], entries[r.value], candidate);
    }
    forall x | x in entries && x in seen && x !in remove
      ensures EvictedBefore(entries[t], entries[x])
    {
      if r.Some? {
        if x != r.value {
          EvictionTransitive(entries[t], entries[r.value], entries[x]);
        }
      } else {
        EvictionTotal(entries[t], entries[x]);
        if EvictedBefore(entries[x], entries[t]) {
          EvictionTransitive(entries[x], entries[t], candidate);
        }
      }
    }
  }

  /** Scans the entries for the one evicted first, starting from the candidate. */
  method SelectWeakest(entries: Entries, remove: set<Txid>, candidate: Entry) returns (r: Option<Txid>)
    requires KeysMatch(entries)
    ensures r.None? <==> !HasWeaker(entries, remove, candidate)
    ensures r.Some? ==> HasWeaker(entries, remove, candidate) && r.value == Weakest(entries, remove, candidate)
  {
    hide EvictedBefore;
    r := None;
    var todo := entries.Keys;
    while todo != {}
      invariant todo <= entries.Keys
      invariant r.None? ==> forall t | t in entries && t !in todo && t !in remove ::
                  !EvictedBefore(entries[t], candidate)
      invariant r.Some? ==> ScannedWeakest(entries, remove, candidate, entries.Keys - todo, r.value)
      decreases todo
    {
      var t :| t in todo;
      todo := todo - {t};
      if t !in remove {
        var selected := if r.None? then candidate else entries[r.value];
        if EvictedBefore(entries[t], selected) {
          NewWeakest(entries, remove, candidate, entries.Keys - todo - {t}, r, t);
          assert entries.Keys - todo - {t} + {t} == entries.Keys - todo;
          r := Some(t);
        } else if r.Some? {
          EvictionTotal(entries[t], entries[r.value]);
        }
      }
    }
    if r.Some? {
      assert IsWeakest(entries, remove, candidate, r.value);
      WeakestUnique(entries, remove, candidate, r.value, Weakest(entries, remove, candidate));
    }
  }

  datatype PlanStep = Fits(totalBytes: nat) | Refused(error: MempoolError) | Grow(remove: set<Txid>)

  /** One round: the plan is done, refused, or continues with a larger removal set. */
  ghost predicate Rounds(pool: Pool, cand: Candidate, remove: set<Txid>, step: PlanStep)
    requires Valid(pool) && CandidateOk(pool, cand) && RemoveOk(pool, cand, remove)
  {
    var plan := PlanCapacity(pool, cand, remove);
    match step
    case Fits(totalBytes) => plan == Success((remove, totalBytes))
    case Refused(error) => plan == Failure(error)
    case Grow(grown) =>
      && RemoveOk(pool, cand, grown) && PlanCapacity(pool, cand, grown) == plan
      && |pool.entries.Keys - grown| < |pool.entries.Keys - remove|
  }

  lemma RemoveInside(pool: Pool, cand: Candidate, remove: set<Txid>)
    requires RemoveOk(pool, cand, remove)
    ensures remove <= pool.entries.Keys
  {
  }

  lemma NotOwnDescendant(pool: Pool, root: Txid)
    requires Valid(pool) && root in pool.entries
    ensures Symmetric(pool.entries) && !Reaches(pool.entries, root, root)
  {
  }

  lemma RoundOverflows(pool: Pool, cand: Candidate, remove: set<Txid>)
    requires Valid(pool) && CandidateOk(pool, cand) && RemoveOk(pool, cand, remove)
    requires pool.totalBytes + cand.entry.tx.size > USIZE_MAX
    ensures Rounds(pool, cand, remove, Refused(InvariantViolation))
  {
  }

  lemma RoundFits(pool: Pool, cand: Candidate, remove: set<Txid>)
    requires Valid(pool) && CandidateOk(pool, cand) && RemoveOk(pool, cand, remove)
    requires pool.totalBytes + cand.entry.tx.size <= USIZE_MAX
    requires |pool.entries| + 1 - |remove| <= pool.config.maxEntries
    requires pool.totalBytes + cand.entry.tx.size - Bytes(pool.entries, remove) <= pool.config.maxTotalBytes
    ensures Bytes(pool.entries, remove) <= pool.totalBytes + cand.entry.tx.size
    ensures Rounds(pool, cand, remove, Fits(pool.totalBytes + cand.entry.tx.size - Bytes(pool.entries, remove)))
  {
    hide Valid, CandidateOk;
    RemovalBounds(pool, remove);
  }

  lemma RoundRefuses(pool: Pool, cand: Candidate, remove: set<Txid>)
    requires Valid(pool) && CandidateOk(pool, cand) && RemoveOk(pool, cand, remove) && KeysMatch(pool.entries)
    requires pool.totalBytes + cand.entry.tx.size <= USIZE_MAX && !RoomFor(pool, cand, remove)
    requires HasWeaker(pool.entries, remove, cand.entry) ==> Weakest(pool.entries, remove, cand.entry) in cand.ancestors
    ensures Rounds(pool, cand, remove, Refused(CapacityRejected))
  {
    hide Valid, CandidateOk, HasWeaker, Weakest, RoomFor;
  }

  lemma WeakestNew(entries: Entries, remove: set<Txid>, candidate: Entry)
    requires KeysMatch(entries) && HasWeaker(entries, remove, candidate)
    ensures Weakest(entries, remove, candidate) in entries && Weakest(entries, remove, candidate) !in remove
  {
  }

  lemma RoundGrows(pool: Pool, cand: Candidate, remove: set<Txid>)
    requires Valid(pool) && CandidateOk(pool, cand) && RemoveOk(pool, cand, remove) && KeysMatch(pool.entries)
    requires pool.totalBytes + cand.entry.tx.size <= USIZE_MAX && !RoomFor(pool, cand, remove)
    requires HasWeaker(pool.entries, remove, cand.entry) && Weakest(pool.entries, remove, cand.entry) !in cand.ancestors
    ensures Rounds(pool, cand, remove, Grow(Grown(pool.entries, remove, Weakest(pool.entries, remove, cand.entry))))
  {
    hide Valid, CandidateOk, HasWeaker, Weakest, RoomFor, Grown, RemoveOk;
    AncestorsOfCandidate(pool, cand);
    WeakestNew(pool.entries, remove, cand.entry);
    GrownIsOk(pool, cand, remove, Weakest(pool.entries, remove, cand.entry));
  }

  method PlanRound(pool: Pool, cand: Candidate, remove: set<Txid>) returns (step: PlanStep)
    requires Valid(pool) && CandidateOk(pool, cand) && RemoveOk(pool, cand, remove)
    ensures Rounds(pool, cand, remove, step)
  {
    hide Valid, CandidateOk, RemoveOk, Bytes, Rounds, HasWeaker, Weakest, Symmetric, KeysMatch, UpClosure,
         DescendantsOf;
    AncestorsOfCandidate(pool, cand);
    RemoveInside(pool, cand, remove);
    var removed := RemovedBytes(pool, remove);
    RemovalBounds(pool, remove);
    if pool.totalBytes + cand.entry.tx.size > USIZE_MAX {
      RoundOverflows(pool, cand, remove);
      return Refused(InvariantViolation);
    }
    var virtualEntries := |pool.entries| + 1 - |remove|;
    var virtualBytes := pool.totalBytes + cand.entry.tx.size - removed.value;
    if virtualEntries <= pool.config.maxEntries && virtualBytes <= pool.config.maxTotalBytes {
      RoundFits(pool, cand, remove);
      return Fits(virtualBytes);
    }
    var selected := SelectWeakest(pool.entries, remove, cand.entry);
    if selected.None? || selected.value in cand.ancestors {
      RoundRefuses(pool, cand, remove);
      return Refused(CapacityRejected);
    }
    WeakestNew(pool.entries, remove, cand.entry);
    NotOwnDescendant(pool, selected.value);
    // Neither the root nor a descendant is an ancestor or already removed, by RoundGrows.
    MirroredDescendants(pool.entries, selected.value);
    var descendants := DescendantClosure(pool.entries, selected.value);
    RoundGrows(pool, cand, remove);
    return Grow(remove + {selected.value} + descendants.value);
  }

  /** Grows the removal set until the candidate fits, or finds that it may not. */
  method PlanRemovals(pool: Pool, cand: Candidate) returns (r: Result<(set<Txid>, nat), MempoolError>)
    requires Valid(pool) && CandidateOk(pool, cand)
    ensures RemoveOk(pool, cand, {})
    ensures r == PlanCapacity(pool, cand, {})
  {
    hide Valid, CandidateOk, RemoveOk, PlanCapacity;
    NothingRemoved(pool, cand);
    var remove: set<Txid> := {};
    while true
      invariant RemoveOk(pool, cand, remove)
      invariant PlanCapacity(pool, cand, {}) == PlanCapacity(pool, cand, remove)
      decreases |pool.entries.Keys - remove|
    {
      var step := PlanRound(pool, cand, remove);
      match step
      case Fits(totalBytes) => return Success((remove, totalBytes));
      case Refused(error) => return Failure(error);
      case Grow(grown) => remove := grown;
    }
  }
}
