/** Write sets: size checks, sorting by leaf position, and rejection of colliding paths. */
module WriteSets {
  import opened Prelude
  import opened StateHash

  const MAX_STATE_WRITE_SET_ENTRIES := 65_536

  datatype StateWrite = StateWrite(key: seq<byte>, value: Option<seq<byte>>)

  datatype PreparedValue = Put(bytes: seq<byte>, hash: Hash) | Delete

  datatype PreparedWrite = PreparedWrite(path: Path, value: PreparedValue)

  datatype WriteSet = WriteSet(domain: Domain, writes: seq<PreparedWrite>)

  /** Big-endian order of leaf positions. */
  predicate PathLess(a: seq<bool>, b: seq<bool>)
    requires |a| == |b|
  {
    a != [] && (if a[0] == b[0] then PathLess(a[1..], b[1..]) else b[0])
  }

  ghost predicate StrictlySorted(writes: seq<PreparedWrite>) {
    forall i, j | 0 <= i < j < |writes| :: PathLess(writes[i].path, writes[j].path)
  }

  /** The order is a strict total one. */
  lemma {:induction false} PathOrder(a: seq<bool>, b: seq<bool>, c: seq<bool>)
    requires |a| == |b| == |c|
    ensures !PathLess(a, a)
    ensures a == b || PathLess(a, b) || PathLess(b, a)
    ensures !(PathLess(a, b) && PathLess(b, a))
    ensures PathLess(a, b) && PathLess(b, c) ==> PathLess(a, c)
  {
    if a != [] {
      PathOrder(a[1..], b[1..], c[1..]);
      assert a == [a[0]] + a[1..];
      assert b == [b[0]] + b[1..];
    }
  }

  /** Positions that agree up to a bit are ordered by that bit. */
  lemma {:induction false} PathLessBit(a: seq<bool>, b: seq<bool>, depth: nat)
    requires depth < |a| == |b|
    requires a[..depth] == b[..depth]
    requires PathLess(a, b)
    ensures a[depth] ==> b[depth]
  {
    if depth > 0 {
      assert a[..depth][0] == b[..depth][0];
      assert a[1..][..depth - 1] == a[..depth][1..];
      assert b[1..][..depth - 1] == b[..depth][1..];
      PathLessBit(a[1..], b[1..], depth - 1);
    }
  }

  function PrepareWrite(keyHash: KeyHash, domain: Domain, write: StateWrite): Result<PreparedWrite, StateError> {
    var path :- PathKey(keyHash, domain, write.key);
    match write.value
    case Some(bytes) =>
      var hash :- HashOfValue(domain, bytes);
      Success(PreparedWrite(path, Put(bytes, hash)))
    case None => Success(PreparedWrite(path, Delete))
  }

  function Insert(w: PreparedWrite, sorted: seq<PreparedWrite>): seq<PreparedWrite> {
    if sorted == [] || PathLess(w.path, sorted[0].path) then [w] + sorted
    else [sorted[0]] + Insert(w, sorted[1..])
  }

  /** The writes in path order, keeping the order of equal paths. */
  function SortByPath(writes: seq<PreparedWrite>): seq<PreparedWrite> {
    if writes == [] then []
    else Insert(writes[|writes| - 1], SortByPath(writes[..|writes| - 1]))
  }

  ghost predicate Sorted(writes: seq<PreparedWrite>) {
    forall i, j | 0 <= i < j < |writes| :: !PathLess(writes[j].path, writes[i].path)
  }

  lemma {:induction false} InsertSorts(w: PreparedWrite, sorted: seq<PreparedWrite>)
    requires Sorted(sorted)
    ensures Sorted(Insert(w, sorted))
    ensures multiset(Insert(w, sorted)) == multiset(sorted) + multiset{w}
  {
    if sorted == [] {
    } else if PathLess(w.path, sorted[0].path) {
      forall j | 0 <= j < |sorted|
        ensures !PathLess(sorted[j].path, w.path)
      {
        PathOrder(sorted[j].path, w.path, sorted[0].path);
        PathOrder(w.path, sorted[0].path, w.path);
      }
    } else {
      assert sorted == [sorted[0]] + sorted[1..];
      InsertSorts(w, sorted[1..]);
      var rest := Insert(w, sorted[1..]);
      forall j | 0 <= j < |rest|
        ensures !PathLess(rest[j].path, sorted[0].path)
      {
        assert rest[j] in multiset(sorted[1..]) + multiset{w};
        if rest[j] in sorted[1..] {
          var k :| 0 <= k < |sorted[1..]| && sorted[1..][k] == rest[j];
          assert sorted[k + 1] == rest[j];
        }
      }
    }
  }

  lemma {:induction false} SortSorts(writes: seq<PreparedWrite>)
    ensures Sorted(SortByPath(writes))
    ensures multiset(SortByPath(writes)) == multiset(writes)
  {
    if writes != [] {
      var front := writes[..|writes| - 1];
      assert writes == front + [writes[|writes| - 1]];
      SortSorts(front);
      InsertSorts(writes[|writes| - 1], SortByPath(front));
    }
  }

  /** What a prepared write makes of the value at its path. */
  function Wanted(w: PreparedWrite): Option<seq<byte>> {
    match w.value
    case Put(bytes, _) => Some(bytes)
    case Delete => None
  }

  predicate WellFormed(domain: Domain, w: PreparedWrite) {
    w.value.Put? ==> |w.value.bytes| <= MAX_STATE_VALUE_BYTES && w.value.hash == ValueHash(domain, w.value.bytes)
  }

  /** What `NewWriteSet` establishes and nothing later changes. */
  ghost predicate ValidWriteSet(ws: WriteSet) {
    && StrictlySorted(ws.writes)
    && forall w | w in ws.writes :: WellFormed(ws.domain, w)
  }

  predicate WriteFits(write: StateWrite) {
    |write.key| <= MAX_STATE_KEY_BYTES && (write.value.Some? ==> |write.value.value| <= MAX_STATE_VALUE_BYTES)
  }

  ghost predicate AllFit(writes: seq<StateWrite>) {
    forall i | 0 <= i < |writes| :: WriteFits(writes[i])
  }

  function Prepared(keyHash: KeyHash, domain: Domain, write: StateWrite): PreparedWrite {
    PreparedWrite(keyHash(domain, write.key),
                  match write.value
                  case Some(bytes) => Put(bytes, ValueHash(domain, bytes))
                  case None => Delete)
  }

  function PreparedAll(keyHash: KeyHash, domain: Domain, writes: seq<StateWrite>): seq<PreparedWrite> {
    seq(|writes|, i requires 0 <= i < |writes| => Prepared(keyHash, domain, writes[i]))
  }

  /** No two writes fall on one leaf position. */
  ghost predicate DistinctPaths(writes: seq<PreparedWrite>) {
    forall a, b | 0 <= a < b < |writes| :: writes[a].path != writes[b].path
  }

  /** Why a write that does not fit is refused: its key first, then its value. */
  function Fault(write: StateWrite): StateError
    requires !WriteFits(write)
  {
    if |write.key| > MAX_STATE_KEY_BYTES then KeyTooLarge(|write.key|) else ValueTooLarge(|write.value.value|)
  }

  /** The first write that does not fit, and why. */
  ghost predicate FirstFault(writes: seq<StateWrite>, e: StateError) {
    exists i :: 0 <= i < |writes| && AllFit(writes[..i]) && !WriteFits(writes[i]) && e == Fault(writes[i])
  }

  /** Two writes fall on `path`. */
  ghost predicate Shared(writes: seq<PreparedWrite>, path: Path) {
    exists a, b :: 0 <= a < b < |writes| && writes[a].path == path && writes[b].path == path
  }

  method PrepareAll(keyHash: KeyHash, domain: Domain, writes: seq<StateWrite>)
    returns (r: Result<seq<PreparedWrite>, StateError>)
    ensures r.Success? <==> AllFit(writes)
    ensures r.Success? ==> r.value == PreparedAll(keyHash, domain, writes)
    ensures r.Failure? ==> FirstFault(writes, r.error)
  {
    var prepared: seq<PreparedWrite> := [];
    for i := 0 to |writes|
      invariant |prepared| == i
      invariant forall k | 0 <= k < i :: WriteFits(writes[k]) && prepared[k] == Prepared(keyHash, domain, writes[k])
    {
      var p := PrepareWrite(keyHash, domain, writes[i]);
      if p.Failure? {
        assert AllFit(writes[..i]) && p.error == Fault(writes[i]);
        return Failure(p.error);
      }
      prepared := prepared + [p.value];
    }
    return Success(prepared);
  }

  /** A write set is accepted precisely when it is small enough, every key and value fits and no
      two keys fall on one path; it then holds the given writes, in path order. */
  /** The write set made of raw writes that were accepted: each prepared, and all in order of path. */
  ghost predicate Accepted(keyHash: KeyHash, domain: Domain, writes: seq<StateWrite>, ws: WriteSet) {
    && |writes| <= MAX_STATE_WRITE_SET_ENTRIES && AllFit(writes) && DistinctPaths(PreparedAll(keyHash, domain, writes))
    && ValidWriteSet(ws) && ws.domain == domain && multiset(ws.writes) == multiset(PreparedAll(keyHash, domain, writes))
  }

  lemma PreparedWellFormed(keyHash: KeyHash, domain: Domain, writes: seq<StateWrite>, sorted: seq<PreparedWrite>)
    requires AllFit(writes)
    requires multiset(sorted) == multiset(PreparedAll(keyHash, domain, writes))
    ensures forall w | w in sorted :: WellFormed(domain, w)
  {
    forall w | w in sorted
      ensures WellFormed(domain, w)
    {
      assert w in multiset(PreparedAll(keyHash, domain, writes));
      var i :| 0 <= i < |writes| && PreparedAll(keyHash, domain, writes)[i] == w;
      assert WriteFits(writes[i]);
    }
  }

  lemma SecondPlace(s: seq<PreparedWrite>, a: nat) returns (b: nat)
    requires a < |s| && multiset(s)[s[a]] >= 2
    ensures b < |s| && b != a && s[b] == s[a]
  {
    var others := s[..a] + s[a + 1..];
    assert s == s[..a] + [s[a]] + s[a + 1..];
    assert multiset(others)[s[a]] >= 1;
    var k :| 0 <= k < |others| && others[k] == s[a];
    b := if k < a then k else k + 1;
  }

  lemma CountTwo<T>(s: seq<T>, i: nat, j: nat)
    requires i < j < |s| && s[i] == s[j]
    ensures multiset(s)[s[i]] >= 2
  {
    assert s == s[..i] + [s[i]] + s[i + 1..j] + [s[j]] + s[j + 1..];
  }

  lemma DuplicateSurvivesSort(prepared: seq<PreparedWrite>, sorted: seq<PreparedWrite>, i: nat)
    requires multiset(prepared) == multiset(sorted)
    requires 1 <= i < |sorted| && sorted[i - 1].path == sorted[i].path
    ensures !DistinctPaths(prepared) && Shared(prepared, sorted[i].path)
  {
    var x, y := sorted[i - 1], sorted[i];
    assert x in multiset(prepared) && y in multiset(prepared);
    var a :| 0 <= a < |prepared| && prepared[a] == x;
    var b :| 0 <= b < |prepared| && prepared[b] == y;
    if x == y {
      CountTwo(sorted, i - 1, i);
      b := SecondPlace(prepared, a);
    }
    assert a < b || b < a;
  }

  lemma {:induction false} AdjacentLess(sorted: seq<PreparedWrite>, i: nat, j: nat)
    requires i < j < |sorted|
    requires Sorted(sorted)
    requires forall k | 1 <= k < |sorted| :: sorted[k - 1].path != sorted[k].path
    ensures PathLess(sorted[i].path, sorted[j].path)
  {
    var a, b := sorted[j - 1].path, sorted[j].path;
    PathOrder(a, b, a);
    assert sorted[j - 1].path != sorted[j].path;
    if i < j - 1 {
      AdjacentLess(sorted, i, j - 1);
      PathOrder(sorted[i].path, a, b);
    }
  }

  lemma AdjacentDistinct(sorted: seq<PreparedWrite>)
    requires Sorted(sorted)
    requires forall k | 1 <= k < |sorted| :: sorted[k - 1].path != sorted[k].path
    ensures StrictlySorted(sorted) && DistinctPaths(sorted)
  {
    forall i, j | 0 <= i < j < |sorted|
      ensures PathLess(sorted[i].path, sorted[j].path) && sorted[i].path != sorted[j].path
    {
      AdjacentLess(sorted, i, j);
      PathOrder(sorted[i].path, sorted[i].path, sorted[i].path);
    }
  }

  lemma DistinctCount(s: seq<PreparedWrite>, i: nat)
    requires i < |s| && DistinctPaths(s)
    ensures multiset(s)[s[i]] == 1
  {
    assert s == s[..i] + [s[i]] + s[i + 1..];
    assert s[i] !in s[..i] && s[i] !in s[i + 1..];
  }

  lemma DistinctPathsPermute(xs: seq<PreparedWrite>, ys: seq<PreparedWrite>)
    requires multiset(xs) == multiset(ys)
    requires DistinctPaths(ys)
    ensures DistinctPaths(xs)
  {
    forall a, b | 0 <= a < b < |xs|
      ensures xs[a].path != xs[b].path
    {
      assert xs[a] in multiset(ys) && xs[b] in multiset(ys);
      var i :| 0 <= i < |ys| && ys[i] == xs[a];
      var j :| 0 <= j < |ys| && ys[j] == xs[b];
      DistinctCount(ys, i);
      if i == j {
        CountTwo(xs, a, b);
      }
    }
  }

  method NewWriteSet(keyHash: KeyHash, domain: Domain, writes: seq<StateWrite>)
    returns (r: Result<WriteSet, StateError>)
    ensures r.Success? <==>
      |writes| <= MAX_STATE_WRITE_SET_ENTRIES && AllFit(writes) && DistinctPaths(PreparedAll(keyHash, domain, writes))
    ensures r.Success? ==> Accepted(keyHash, domain, writes, r.value)
    ensures |writes| > MAX_STATE_WRITE_SET_ENTRIES ==> r == Failure(WriteSetTooLarge(|writes|))
    ensures |writes| <= MAX_STATE_WRITE_SET_ENTRIES && !AllFit(writes) ==> r.Failure? && FirstFault(writes, r.error)
    ensures |writes| <= MAX_STATE_WRITE_SET_ENTRIES && AllFit(writes) && r.Failure? ==>
              r.error.DuplicatePath? && Shared(PreparedAll(keyHash, domain, writes), r.error.path)
  {
    if |writes| > MAX_STATE_WRITE_SET_ENTRIES {
      return Failure(WriteSetTooLarge(|writes|));
    }
    var attempt := PrepareAll(keyHash, domain, writes);
    if attempt.Failure? {
      return Failure(attempt.error);
    }
    var sorted := SortByPath(attempt.value);
    SortSorts(attempt.value);
    var i := 1;
    while i < |sorted|
      invariant 1 <= i
      invariant forall k | 1 <= k < i && k < |sorted| :: sorted[k - 1].path != sorted[k].path
    {
      if sorted[i - 1].path == sorted[i].path {
        DuplicateSurvivesSort(attempt.value, sorted, i);
        return Failure(DuplicatePath(sorted[i].path));
      }
      i := i + 1;
    }
    AdjacentDistinct(sorted);
    DistinctPathsPermute(attempt.value, sorted);
    PreparedWellFormed(keyHash, domain, writes, sorted);
    return Success(WriteSet(domain, sorted));
  }
}
