/** The dependency graph of the transaction pool: reachability, closures, and the
    lexicographically least topological order. */
module PoolGraph {
  import opened Prelude
  import opened Ledger

  type Txid = nat

  datatype Entry = Entry(tx: Tx<Txid>, fee: nat, parents: set<Txid>, children: set<Txid>)

  type Entries = map<Txid, Entry>

  datatype MempoolError =
    | InvalidConfig
    | HeightOverflow
    | AlreadyKnown(txid: Txid)
    | StaleChainContext
    | Conflict(outpoint: OutPoint<Txid>, existing: Txid)
    | MissingDependency(outpoint: OutPoint<Txid>)
    | InvalidParentOutput(outpoint: OutPoint<Txid>)
    | TooManyAncestors
    | TooManyDescendants
    | CapacityRejected
    | DependencyCycle
    | InvariantViolation
    | Structural(kind: StructuralError)
    | Utxo(error: UtxoError<Txid>)

  /** Parent and child sets stay inside the pool and mirror each other. */
  ghost predicate Symmetric(entries: Entries) {
    && (forall t, p | t in entries && p in entries[t].parents :: p in entries && t in entries[p].children)
    && (forall t, c | t in entries && c in entries[t].children :: c in entries && t in entries[c].parents)
  }

  // ----- Reachability -----

  /** Each element is a parent of the next. */
  ghost predicate IsChain(entries: Entries, s: seq<Txid>) {
    && (forall i | 0 <= i < |s| :: s[i] in entries)
    && (forall i | 0 <= i < |s| - 1 :: s[i] in entries[s[i + 1]].parents)
  }

  ghost predicate Link(entries: Entries, s: seq<Txid>, a: Txid, t: Txid) {
    |s| >= 2 && s[0] == a && s[|s| - 1] == t && IsChain(entries, s)
  }

  /** `a` is a proper ancestor of `t`. */
  ghost predicate Reaches(entries: Entries, a: Txid, t: Txid) {
    exists s :: Link(entries, s, a, t)
  }

  ghost predicate Acyclic(entries: Entries) {
    forall t | t in entries :: !Reaches(entries, t, t)
  }

  ghost function AncestorsOf(entries: Entries, t: Txid): set<Txid> {
    set a | a in entries && Reaches(entries, a, t)
  }

  ghost function DescendantsOf(entries: Entries, a: Txid): set<Txid> {
    set t | t in entries && Reaches(entries, a, t)
  }

  lemma ReachesParent(entries: Entries, p: Txid, t: Txid)
    requires t in entries && p in entries && p in entries[t].parents
    ensures Reaches(entries, p, t)
  {
    assert Link(entries, [p, t], p, t);
  }

  lemma ReachesStep(entries: Entries, a: Txid, p: Txid, t: Txid)
    requires Reaches(entries, a, p)
    requires t in entries && p in entries[t].parents
    ensures Reaches(entries, a, t)
  {
    var s :| Link(entries, s, a, p);
    assert Link(entries, s + [t], a, t);
  }

  lemma ReachesCons(entries: Entries, a: Txid, c: Txid, t: Txid)
    requires a in entries && c in entries && a in entries[c].parents
    requires Reaches(entries, c, t)
    ensures Reaches(entries, a, t)
  {
    var s :| Link(entries, s, c, t);
    assert Link(entries, [a] + s, a, t);
  }

  /** A proper ancestor is a parent or a proper ancestor of a parent. */
  lemma ReachesLast(entries: Entries, a: Txid, t: Txid) returns (p: Txid)
    requires Reaches(entries, a, t)
    ensures t in entries && a in entries && p in entries && p in entries[t].parents
            && (a == p || Reaches(entries, a, p))
  {
    var s :| Link(entries, s, a, t);
    p := s[|s| - 2];
    if |s| > 2 {
      assert Link(entries, s[..|s| - 1], a, p);
    }
  }

  lemma ReachesFirst(entries: Entries, a: Txid, t: Txid) returns (c: Txid)
    requires Reaches(entries, a, t)
    ensures t in entries && a in entries && c in entries && a in entries[c].parents
            && (c == t || Reaches(entries, c, t))
  {
    var s :| Link(entries, s, a, t);
    c := s[1];
    if |s| > 2 {
      assert Link(entries, s[1..], c, t);
    }
  }

  lemma ReachesTransitive(entries: Entries, a: Txid, b: Txid, c: Txid)
    requires Reaches(entries, a, b) && Reaches(entries, b, c)
    ensures Reaches(entries, a, c)
  {
    var s :| Link(entries, s, a, b);
    var u :| Link(entries, u, b, c);
    var w := s + u[1..];
    forall i | 0 <= i < |w| - 1
      ensures w[i] in entries && w[i] in entries[w[i + 1]].parents
    {
      if i >= |s| - 1 {
        assert w[i] == u[i - (|s| - 1)];
        assert w[i + 1] == u[i + 1 - (|s| - 1)];
      }
    }
    assert Link(entries, w, a, c);
  }

  /** A set closed under parents contains every ancestor of its members. */
  lemma {:induction false} ClosedUnderParents(entries: Entries, closed: set<Txid>, s: seq<Txid>)
    requires IsChain(entries, s) && s != [] && s[|s| - 1] in closed
    requires forall t, p | t in closed && t in entries && p in entries[t].parents :: p in closed
    ensures s[0] in closed
  {
    if |s| > 1 {
      assert s[|s| - 2] in entries[s[|s| - 1]].parents;
      ClosedUnderParents(entries, closed, s[..|s| - 1]);
    }
  }

  lemma {:induction false} ClosedUnderChildren(entries: Entries, closed: set<Txid>, s: seq<Txid>)
    requires Symmetric(entries)
    requires IsChain(entries, s) && s != [] && s[0] in closed
    requires forall t, c | t in closed && t in entries && c in entries[t].children :: c in closed
    ensures s[|s| - 1] in closed
  {
    if |s| > 1 {
      assert s[0] in entries[s[1]].parents;
      assert s[1] in entries[s[0]].children;
      ClosedUnderChildren(entries, closed, s[1..]);
    }
  }

  // ----- Topological orders -----

  ghost predicate NoRepeats(s: seq<Txid>) {
    forall i, j | 0 <= i < j < |s| :: s[i] != s[j]
  }

  function Elements(s: seq<Txid>): set<Txid> {
    set t | t in s
  }

  /** A permutation of the entries with every parent before its children. */
  ghost predicate IsTopological(entries: Entries, order: seq<Txid>) {
    && NoRepeats(order)
    && Elements(order) == entries.Keys
    && forall i | 0 <= i < |order| :: entries[order[i]].parents <= Elements(order[..i])
  }

  /** The entries not in `done` whose parents all are. */
  ghost function Ready(entries: Entries, done: set<Txid>): set<Txid> {
    set t | t in entries && t !in done && entries[t].parents <= done
  }

  ghost predicate IsLeast(s: set<Txid>, t: Txid) {
    t in s && forall x | x in s :: t <= x
  }

  /** Each element is the least one that was ready. */
  ghost predicate Greedy(entries: Entries, order: seq<Txid>) {
    forall i | 0 <= i < |order| :: IsLeast(Ready(entries, Elements(order[..i])), order[i])
  }

  /** `a` comes no later than `b` in the lexicographic order. */
  ghost predicate LexLe(a: seq<Txid>, b: seq<Txid>) {
    exists k :: 0 <= k <= |a| && k <= |b| && a[..k] == b[..k] && (k == |a| || (k < |b| && a[k] < b[k]))
  }

  lemma {:induction false} LeastExists(s: set<Txid>)
    requires s != {}
    ensures exists t :: IsLeast(s, t)
  {
    var x :| x in s;
    if s == {x} {
      assert IsLeast(s, x);
    } else {
      LeastExists(s - {x});
      var t :| IsLeast(s - {x}, t);
      assert forall y | y in s :: y == x || y in s - {x};
      assert IsLeast(s, if x < t then x else t);
    }
  }

  lemma {:induction false} GreedyBelow(entries: Entries, order: seq<Txid>, other: seq<Txid>, k: nat)
    requires Greedy(entries, order) && IsTopological(entries, other)
    requires k <= |order| && k <= |other| && order[..k] == other[..k]
    requires |order| == |other|
    ensures LexLe(order, other)
    decreases |order| - k
  {
    if k < |order| {
      assert other[k] in entries;
      assert other[k] !in other[..k];
      assert other[k] in Ready(entries, Elements(order[..k]));
      if order[k] == other[k] {
        assert order[..k + 1] == order[..k] + [order[k]];
        assert other[..k + 1] == other[..k] + [other[k]];
        GreedyBelow(entries, order, other, k + 1);
      }
    }
  }

  lemma {:induction false} DistinctCount(s: seq<Txid>)
    requires NoRepeats(s)
    ensures |Elements(s)| == |s|
  {
    if s != [] {
      var front, last := s[..|s| - 1], s[|s| - 1];
      DistinctCount(front);
      assert s == front + [last];
      assert Elements(s) == Elements(front) + {last};
    }
  }

  /** The greedy order comes first among all topological orders. */
  lemma GreedyIsLeast(entries: Entries, order: seq<Txid>, other: seq<Txid>)
    requires Greedy(entries, order) && IsTopological(entries, order) && IsTopological(entries, other)
    ensures LexLe(order, other)
  {
    DistinctCount(order);
    DistinctCount(other);
    GreedyBelow(entries, order, other, 0);
  }

  lemma {:induction false} ChainAscends(entries: Entries, order: seq<Txid>, s: seq<Txid>, j: nat)
    requires IsTopological(entries, order) && IsChain(entries, s) && |s| >= 2
    requires j < |order| && order[j] == s[|s| - 1]
    ensures s[0] in order[..j]
  {
    var p := s[|s| - 2];
    assert p in entries[s[|s| - 1]].parents;
    assert p in order[..j];
    var i :| 0 <= i < j && order[..j][i] == p;
    if |s| > 2 {
      ChainAscends(entries, order, s[..|s| - 1], i);
      assert order[..i] == order[..j][..i];
    }
  }

  lemma TopologicalIsAcyclic(entries: Entries, order: seq<Txid>)
    requires IsTopological(entries, order)
    ensures Acyclic(entries)
  {
    forall t | t in entries
      ensures !Reaches(entries, t, t)
    {
      if Reaches(entries, t, t) {
        var s :| Link(entries, s, t, t);
        var j :| 0 <= j < |order| && order[j] == t;
        ChainAscends(entries, order, s, j);
      }
    }
  }

  /** From any member of a set whose members all have a parent in it, a chain of any length. */
  lemma {:induction false} LongChain(entries: Entries, r: set<Txid>, n: nat) returns (s: seq<Txid>)
    requires r != {} && r <= entries.Keys
    requires forall t | t in r :: entries[t].parents * r != {}
    ensures |s| == n + 1 && IsChain(entries, s) && forall i | 0 <= i < |s| :: s[i] in r
  {
    if n == 0 {
      var t :| t in r;
      s := [t];
    } else {
      var rest := LongChain(entries, r, n - 1);
      var p :| p in entries[rest[0]].parents * r;
      s := [p] + rest;
    }
  }

  lemma {:induction false} SubsetCount(a: set<Txid>, b: set<Txid>)
    requires a <= b
    ensures |a| <= |b|
  {
    if a != {} {
      var x :| x in a;
      SubsetCount(a - {x}, b - {x});
    }
  }

  lemma {:induction false} Pigeonhole(s: seq<Txid>, r: set<Txid>)
    requires |s| > |r| && forall i | 0 <= i < |s| :: s[i] in r
    ensures !NoRepeats(s)
  {
    if NoRepeats(s) {
      DistinctCount(s);
      SubsetCount(Elements(s), r);
    }
  }

  /** A nonempty set in which every entry has a parent contains a cycle. */
  lemma StuckIsCyclic(entries: Entries, r: set<Txid>)
    requires r != {} && r <= entries.Keys
    requires forall t | t in r :: entries[t].parents * r != {}
    ensures !Acyclic(entries)
  {
    var s := LongChain(entries, r, |r|);
    Pigeonhole(s, r);
    var i, j :| 0 <= i < j < |s| && s[i] == s[j];
    assert Link(entries, s[i..j + 1], s[i], s[i]);
  }

  // ----- The algorithms -----

  predicate LinksOk(entries: Entries, t: Txid)
    requires t in entries
  {
    && (forall p | p in entries[t].parents :: p in entries && t in entries[p].children)
    && (forall c | c in entries[t].children :: c in entries && t in entries[c].parents)
  }

  /** Every entry's links point inside the pool and are mirrored. */
  method CheckLinks(entries: Entries) returns (ok: bool)
    ensures ok <==> Symmetric(entries)
  {
    var todo := entries.Keys;
    while todo != {}
      invariant todo <= entries.Keys
      invariant forall t | t in entries && t !in todo :: LinksOk(entries, t)
      decreases todo
    {
      var t :| t in todo;
      if !LinksOk(entries, t) {
        return false;
      }
      todo := todo - {t};
    }
    return true;
  }

  /** What has been emitted is a greedy start of a topological order. */
  ghost predicate Emitted(entries: Entries, emitted: seq<Txid>) {
    && NoRepeats(emitted)
    && Elements(emitted) <= entries.Keys
    && Greedy(entries, emitted)
  }

  /** How many parents of `x` are still to come. */
  ghost function Waiting(entries: Entries, done: set<Txid>, x: Txid): nat
    requires x in entries
  {
    |entries[x].parents - done|
  }

  ghost predicate Progress(entries: Entries, emitted: seq<Txid>, indegree: map<Txid, nat>, ready: set<Txid>) {
    && Symmetric(entries)
    && Emitted(entries, emitted)
    && indegree.Keys == entries.Keys
    && (forall t | t in entries :: indegree[t] == Waiting(entries, Elements(emitted), t))
    && ready == Ready(entries, Elements(emitted))
  }

  lemma NothingDone(entries: Entries, t: Txid)
    requires t in entries
    ensures Waiting(entries, {}, t) == |entries[t].parents|
    ensures |entries[t].parents| == 0 <==> entries[t].parents <= {}
  {
    assert entries[t].parents - {} == entries[t].parents;
  }

  lemma StartsEmpty(entries: Entries, indegree: map<Txid, nat>, ready: set<Txid>)
    requires Symmetric(entries)
    requires indegree == map t | t in entries :: |entries[t].parents|
    requires ready == set t | t in entries && indegree[t] == 0
    ensures Progress(entries, [], indegree, ready)
  {
    hide Symmetric, Waiting;
    assert Elements([]) == {};
    forall t | t in entries
      ensures Waiting(entries, {}, t) == |entries[t].parents|
      ensures |entries[t].parents| == 0 <==> entries[t].parents <= {}
    {
      NothingDone(entries, t);
    }
  }

  lemma ElementsSnoc(s: seq<Txid>, t: Txid)
    ensures Elements(s + [t]) == Elements(s) + {t}
  {
  }

  lemma EmitStep(entries: Entries, emitted: seq<Txid>, t: Txid)
    requires Emitted(entries, emitted) && IsLeast(Ready(entries, Elements(emitted)), t)
    ensures Emitted(entries, emitted + [t])
  {
    var next := emitted + [t];
    ElementsSnoc(emitted, t);
    forall i | 0 <= i < |next|
      ensures IsLeast(Ready(entries, Elements(next[..i])), next[i])
    {
      assert next[..i] == emitted[..i];
      if i == |emitted| {
        assert next[..i] == emitted;
      }
    }
  }

  lemma {:induction false} SameSize(a: set<Txid>, b: set<Txid>)
    requires a <= b && |a| == |b|
    ensures a == b
  {
    if a != {} {
      var x :| x in a;
      SameSize(a - {x}, b - {x});
    }
  }

  lemma EmittedBound(entries: Entries, emitted: seq<Txid>)
    requires Emitted(entries, emitted)
    ensures |emitted| <= |entries|
    ensures |emitted| == |entries| ==> Elements(emitted) == entries.Keys
  {
    DistinctCount(emitted);
    SubsetCount(Elements(emitted), entries.Keys);
    if |emitted| == |entries| {
      SameSize(Elements(emitted), entries.Keys);
    }
  }

  lemma ProgressStep(entries: Entries, emitted: seq<Txid>, t: Txid, indegree: map<Txid, nat>, ready: set<Txid>,
                     indegree': map<Txid, nat>, ready': set<Txid>)
    requires Progress(entries, emitted, indegree, ready) && IsLeast(ready, t)
    requires indegree'.Keys == entries.Keys
    requires forall x | x in entries :: indegree'[x] == Waiting(entries, Elements(emitted + [t]), x)
    requires ready' == Ready(entries, Elements(emitted + [t]))
    ensures Progress(entries, emitted + [t], indegree', ready')
    ensures |emitted| < |emitted + [t]| <= |entries|
  {
    hide Symmetric, Waiting, Ready, Emitted;
    EmitStep(entries, emitted, t);
    EmittedBound(entries, emitted + [t]);
  }

  lemma FullOrder(entries: Entries, emitted: seq<Txid>)
    requires Emitted(entries, emitted) && |emitted| == |entries|
    ensures IsTopological(entries, emitted) && Acyclic(entries)
  {
    EmittedBound(entries, emitted);
    assert IsTopological(entries, emitted);
    TopologicalIsAcyclic(entries, emitted);
  }

  lemma NoDifference(a: set<Txid>, b: set<Txid>)
    requires a <= b
    ensures b - a == {} ==> a == b
  {
    if b - a == {} {
      assert forall x | x in b :: x in b - a || x in a;
    }
  }

  lemma StuckOrder(entries: Entries, emitted: seq<Txid>)
    requires Symmetric(entries) && Emitted(entries, emitted) && |emitted| != |entries|
    requires Ready(entries, Elements(emitted)) == {}
    ensures !Acyclic(entries)
  {
    var rest := entries.Keys - Elements(emitted);
    DistinctCount(emitted);
    NoDifference(Elements(emitted), entries.Keys);
    forall t | t in rest
      ensures entries[t].parents * rest != {}
    {
      assert t !in Ready(entries, Elements(emitted));
      var p :| p in entries[t].parents && p !in Elements(emitted);
      assert p in entries[t].parents * rest;
    }
    StuckIsCyclic(entries, rest);
  }

  lemma StuckMeansDone(entries: Entries, emitted: seq<Txid>, indegree: map<Txid, nat>)
    requires Progress(entries, emitted, indegree, {})
    ensures Symmetric(entries) && Greedy(entries, emitted)
    ensures |emitted| != |entries| ==> !Acyclic(entries)
    ensures |emitted| == |entries| ==> IsTopological(entries, emitted) && Acyclic(entries)
  {
    if |emitted| != |entries| {
      StuckOrder(entries, emitted);
    } else {
      FullOrder(entries, emitted);
    }
  }

  /** Emitting `t` takes one off the waiting count of each of its children and of nobody else. */
  lemma WaitingStep(entries: Entries, done: set<Txid>, t: Txid, x: Txid)
    requires Symmetric(entries) && t in entries && t !in done && x in entries
    ensures Waiting(entries, done, x) == Waiting(entries, done + {t}, x) + if x in entries[t].children then 1 else 0
  {
    var before, after := entries[x].parents - done, entries[x].parents - (done + {t});
    if x in entries[t].children {
      assert t in entries[x].parents;
      assert before == after + {t};
    } else {
      assert t !in entries[x].parents;
      assert before == after;
    }
  }

  lemma ChildrenInside(entries: Entries, t: Txid)
    requires Symmetric(entries) && t in entries
    ensures entries[t].children <= entries.Keys && entries[t].parents <= entries.Keys
  {
  }

  lemma ReleaseFacts(entries: Entries, emitted: seq<Txid>, t: Txid, indegree: map<Txid, nat>, ready: set<Txid>)
    requires Progress(entries, emitted, indegree, ready) && t in ready
    ensures indegree.Keys == entries.Keys && t in entries && t !in Elements(emitted)
    ensures entries[t].children <= entries.Keys
    ensures forall x | x in entries ::
      indegree[x] == Waiting(entries, Elements(emitted) + {t}, x) + if x in entries[t].children then 1 else 0
  {
    hide Emitted, Waiting, Elements;
    assert entries[t].children <= entries.Keys by {
      ChildrenInside(entries, t);
    }
    hide Symmetric;
    forall x | x in entries
      ensures indegree[x] == Waiting(entries, Elements(emitted) + {t}, x) + if x in entries[t].children then 1 else 0
    {
      WaitingStep(entries, Elements(emitted), t, x);
    }
  }

  lemma DoneIsClosed(entries: Entries, emitted: seq<Txid>, x: Txid)
    requires Emitted(entries, emitted) && x in Elements(emitted)
    ensures entries[x].parents <= Elements(emitted)
  {
    var i :| 0 <= i < |emitted| && emitted[i] == x;
    assert x in Ready(entries, Elements(emitted[..i]));
  }

  /** Only children of `t` become ready when it is emitted: those that wait for nothing else. */
  lemma ReadyStep(entries: Entries, emitted: seq<Txid>, t: Txid, x: Txid)
    requires Symmetric(entries) && Emitted(entries, emitted) && t in Ready(entries, Elements(emitted)) && x in entries
    ensures x in Ready(entries, Elements(emitted) + {t})
       <==> ((x in Ready(entries, Elements(emitted)) && x != t)
             || (x in entries[t].children && Waiting(entries, Elements(emitted) + {t}, x) == 0))
  {
    var done := Elements(emitted);
    if x in entries[t].children {
      assert t in entries[x].parents;
      if x in done {
        DoneIsClosed(entries, emitted, x);
      }
    } else {
      assert t !in entries[x].parents;
    }
    if Waiting(entries, done + {t}, x) == 0 {
      assert entries[x].parents - (done + {t}) == {};
    }
  }

  lemma Released(entries: Entries, emitted: seq<Txid>, t: Txid, indegree0: map<Txid, nat>, before: set<Txid>,
                 indegree: map<Txid, nat>, after: set<Txid>)
    requires t in entries && entries[t].children <= entries.Keys && indegree.Keys == entries.Keys
    requires forall x | x in entries :: indegree[x] == Waiting(entries, Elements(emitted) + {t}, x)
    requires forall x :: x in after <==>
      (x in before && x != t) || (x in entries[t].children && Waiting(entries, Elements(emitted) + {t}, x) == 0)
    requires Progress(entries, emitted, indegree0, before) && t in before
    ensures forall x | x in entries :: indegree[x] == Waiting(entries, Elements(emitted + [t]), x)
    ensures after == Ready(entries, Elements(emitted + [t]))
  {
    hide Symmetric, Waiting, Emitted, Elements;
    ElementsSnoc(emitted, t);
    ChildrenInside(entries, t);
    forall x | x in entries
      ensures x in after <==> x in Ready(entries, Elements(emitted) + {t})
    {
      ReadyStep(entries, emitted, t, x);
    }
    assert forall x | x in after :: x in entries;
  }

  /** Takes `t` off the ready set and counts it off its children's indegrees. */
  method Release(entries: Entries, ghost emitted: seq<Txid>, t: Txid, indegree0: map<Txid, nat>, ready0: set<Txid>)
    returns (indegree: map<Txid, nat>, ready: set<Txid>)
    requires Progress(entries, emitted, indegree0, ready0) && t in ready0
    ensures indegree.Keys == entries.Keys
    ensures forall x | x in entries :: indegree[x] == Waiting(entries, Elements(emitted + [t]), x)
    ensures ready == Ready(entries, Elements(emitted + [t]))
  {
    hide Progress, Ready, Waiting, Symmetric, Emitted, Elements;
    ghost var done := Elements(emitted);
    ReleaseFacts(entries, emitted, t, indegree0, ready0);
    var children := entries[t].children;
    indegree, ready := indegree0, ready0 - {t};
    var todo := children;
    while todo != {}
      invariant todo <= children
      invariant indegree.Keys == entries.Keys
      invariant forall x | x in entries ::
        indegree[x] == Waiting(entries, done + {t}, x) + if x in todo then 1 else 0
      invariant forall x :: x in ready <==>
        (x in ready0 && x != t) || (x in children && x !in todo && Waiting(entries, done + {t}, x) == 0)
      decreases todo
    {
      var c :| c in todo;
      indegree := indegree[c := indegree[c] - 1];
      if indegree[c] == 0 {
        ready := ready + {c};
      }
      todo := todo - {c};
    }
    assert forall x | x in entries :: indegree[x] == Waiting(entries, done + {t}, x);
    Released(entries, emitted, t, indegree0, ready0, indegree, ready);
  }

  /** Kahn's algorithm, always taking the smallest ready entry.  It succeeds exactly on an acyclic
      graph with mirrored links, and returns the lexicographically least topological order. */
  method TopologicalOrder(entries: Entries) returns (r: Result<seq<Txid>, MempoolError>)
    ensures !Symmetric(entries) ==> r == Failure(InvariantViolation)
    ensures Symmetric(entries) && !Acyclic(entries) ==> r == Failure(DependencyCycle)
    ensures Symmetric(entries) && Acyclic(entries) ==>
              && r.Success?
              && IsTopological(entries, r.value)
              && forall other | IsTopological(entries, other) :: LexLe(r.value, other)
  {
    hide Progress, Ready, Emitted, Symmetric, IsTopological, Acyclic, LexLe;
    var linked := CheckLinks(entries);
    if !linked {
      return Failure(InvariantViolation);
    }
    var indegree: map<Txid, nat> := map t | t in entries :: |entries[t].parents|;
    var ready := set t | t in entries && indegree[t] == 0;
    var emitted: seq<Txid> := [];
    StartsEmpty(entries, indegree, ready);
    while ready != {}
      invariant Progress(entries, emitted, indegree, ready)
      decreases |entries| - |emitted|
    {
      LeastExists(ready);
      var t :| t in ready && forall x | x in ready :: t <= x;
      var indegree', ready' := Release(entries, emitted, t, indegree, ready);
      ProgressStep(entries, emitted, t, indegree, ready, indegree', ready');
      indegree, ready, emitted := indegree', ready', emitted + [t];
    }
    StuckMeansDone(entries, emitted, indegree);
    if |emitted| != |entries| {
      return Failure(DependencyCycle);
    }
    forall other | IsTopological(entries, other)
      ensures LexLe(emitted, other)
    {
      GreedyIsLeast(entries, emitted, other);
    }
    return Success(emitted);
  }

  // ----- The order as a value -----

  ghost predicate IsLeastOrder(entries: Entries, order: seq<Txid>) {
    IsTopological(entries, order) && forall other | IsTopological(entries, other) :: LexLe(order, other)
  }

  lemma LexLeAntisymmetric(a: seq<Txid>, b: seq<Txid>)
    requires LexLe(a, b) && LexLe(b, a) && |a| == |b|
    ensures a == b
  {
    var k :| 0 <= k <= |a| && k <= |b| && a[..k] == b[..k] && (k == |a| || (k < |b| && a[k] < b[k]));
    var j :| 0 <= j <= |b| && j <= |a| && b[..j] == a[..j] && (j == |b| || (j < |a| && b[j] < a[j]));
    if k < |a| && j < |a| {
      if k < j {
        assert a[..j][k] == b[..j][k];
      } else if j < k {
        assert a[..k][j] == b[..k][j];
      }
    }
  }

  lemma LeastOrderUnique(entries: Entries, a: seq<Txid>, b: seq<Txid>)
    requires IsLeastOrder(entries, a) && IsLeastOrder(entries, b)
    ensures a == b
  {
    DistinctCount(a);
    DistinctCount(b);
    LexLeAntisymmetric(a, b);
  }

  lemma {:induction false} GreedyCompletes(entries: Entries, emitted: seq<Txid>) returns (order: seq<Txid>)
    requires Symmetric(entries) && Acyclic(entries) && Emitted(entries, emitted)
    ensures Emitted(entries, order) && |order| == |entries|
    decreases |entries| - |emitted|
  {
    EmittedBound(entries, emitted);
    if |emitted| == |entries| {
      order := emitted;
    } else {
      if Ready(entries, Elements(emitted)) == {} {
        StuckOrder(entries, emitted);
      }
      LeastExists(Ready(entries, Elements(emitted)));
      var t :| IsLeast(Ready(entries, Elements(emitted)), t);
      EmitStep(entries, emitted, t);
      EmittedBound(entries, emitted + [t]);
      order := GreedyCompletes(entries, emitted + [t]);
    }
  }

  lemma LeastOrderExists(entries: Entries)
    requires Symmetric(entries) && Acyclic(entries)
    ensures exists order :: IsLeastOrder(entries, order)
  {
    var order := GreedyCompletes(entries, []);
    FullOrder(entries, order);
    forall other | IsTopological(entries, other)
      ensures LexLe(order, other)
    {
      GreedyIsLeast(entries, order, other);
    }
    assert IsLeastOrder(entries, order);
  }

  /** The order the algorithm returns. */
  ghost function TheOrder(entries: Entries): (order: seq<Txid>)
    requires Symmetric(entries) && Acyclic(entries)
    ensures IsLeastOrder(entries, order)
  {
    LeastOrderExists(entries);
    var order :| IsLeastOrder(entries, order);
    order
  }

  lemma LastIsNew(order: seq<Txid>)
    requires NoRepeats(order) && order != []
    ensures NoRepeats(order[..|order| - 1]) && order[|order| - 1] !in Elements(order[..|order| - 1])
  {
  }
}
