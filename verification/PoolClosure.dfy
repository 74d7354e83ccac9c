/** Ancestor and descendant closures by worklist. */
module PoolClosure {
  import opened Prelude
  import opened PoolGraph

  lemma ElementsCons(t: Txid, rest: seq<Txid>)
    ensures Elements([t] + rest) == {t} + Elements(rest)
  {
  }

  /** The ids in ascending order. */
  function Ascending(s: set<Txid>): (order: seq<Txid>)
    ensures Elements(order) == s
  {
    if s == {} then []
    else
      LeastExists(s);
      var t :| t in s && forall x | x in s :: t <= x;
      var rest := Ascending(s - {t});
      ElementsCons(t, rest);
      [t] + rest
  }

  /** The given ids and all their ancestors. */
  ghost predicate Above(entries: Entries, direct: set<Txid>, a: Txid) {
    exists p :: p in direct && (a == p || Reaches(entries, a, p))
  }

  ghost function UpClosure(entries: Entries, direct: set<Txid>): set<Txid> {
    set a | a in entries && Above(entries, direct, a)
  }

  lemma AboveParent(entries: Entries, direct: set<Txid>, t: Txid, p: Txid)
    requires Above(entries, direct, t) && t in entries && p in entries && p in entries[t].parents
    ensures Above(entries, direct, p)
  {
    var q :| q in direct && (t == q || Reaches(entries, t, q));
    if t == q {
      ReachesParent(entries, p, t);
    } else {
      ReachesCons(entries, p, t, q);
    }
  }

  ghost predicate UpInvariant(entries: Entries, direct: set<Txid>, closure: set<Txid>, pending: seq<Txid>) {
    && closure <= entries.Keys
    && (forall t, p | t in closure && p in entries[t].parents :: p in closure || p in pending)
    && (forall d | d in direct :: d in closure || d in pending)
    && (forall t | t in closure :: Above(entries, direct, t))
    && (forall x | x in pending :: x in direct || exists t :: t in closure && x in entries[t].parents)
  }

  lemma DirectAbove(entries: Entries, direct: set<Txid>, t: Txid)
    requires t in direct
    ensures Above(entries, direct, t)
  {
  }

  lemma UpStep(entries: Entries, direct: set<Txid>, closure: set<Txid>, pending: seq<Txid>, t: Txid, more: seq<Txid>)
    requires UpInvariant(entries, direct, closure, pending + [t]) && t in entries && t !in closure
    requires Elements(more) == entries[t].parents
    ensures UpInvariant(entries, direct, closure + {t}, pending + more)
  {
    hide Above;
    assert t in pending + [t];
    assert Above(entries, direct, t) by {
      if t in direct {
        DirectAbove(entries, direct, t);
      } else {
        var c :| c in closure && t in entries[c].parents;
        AboveParent(entries, direct, c, t);
      }
    }
    var closure', pending' := closure + {t}, pending + more;
    forall x, p | x in closure' && p in entries[x].parents
      ensures p in closure' || p in pending'
    {
      if x == t {
        assert p in Elements(more);
      } else {
        assert p in closure || p in pending + [t];
      }
    }
    forall d | d in direct
      ensures d in closure' || d in pending'
    {
      assert d in closure || d in pending + [t];
    }
    forall x | x in pending'
      ensures x in direct || exists c :: c in closure' && x in entries[c].parents
    {
      if x in pending {
        assert x in pending + [t];
        if x !in direct {
          var c :| c in closure && x in entries[c].parents;
          assert c in closure';
        }
      } else {
        assert x in Elements(more) && t in closure';
      }
    }
  }

  lemma UpSkip(entries: Entries, direct: set<Txid>, closure: set<Txid>, pending: seq<Txid>, t: Txid)
    requires UpInvariant(entries, direct, closure, pending + [t]) && t in closure
    ensures UpInvariant(entries, direct, closure, pending)
  {
    hide Above;
    assert forall x | x in pending :: x in pending + [t];
    assert forall x | x in pending + [t] :: x in pending || x == t;
  }

  lemma UpDone(entries: Entries, direct: set<Txid>, closure: set<Txid>)
    requires UpInvariant(entries, direct, closure, [])
    ensures closure == UpClosure(entries, direct) && direct <= entries.Keys
  {
    forall a | a in entries && Above(entries, direct, a)
      ensures a in closure
    {
      var p :| p in direct && (a == p || Reaches(entries, a, p));
      assert p in closure;
      if a != p {
        var s :| Link(entries, s, a, p);
        ClosedUnderParents(entries, closure, s);
      }
    }
  }

  lemma AllEmitted(entries: Entries, order: seq<Txid>, closure: set<Txid>, emitted: set<Txid>)
    requires closure <= entries.Keys && emitted == (set t | t in order && t in closure)
    ensures IsTopological(entries, order) ==> emitted == closure
  {
    if IsTopological(entries, order) {
      assert forall t | t in closure :: t in Elements(order);
    }
  }

  lemma UpStart(entries: Entries, direct: set<Txid>, pending: seq<Txid>)
    requires Elements(pending) == direct
    ensures UpInvariant(entries, direct, {}, pending)
  {
    assert forall x | x in pending :: x in Elements(pending);
    assert forall x | x in direct :: x in Elements(pending);
  }

  lemma UpMissing(entries: Entries, direct: set<Txid>, closure: set<Txid>, pending: seq<Txid>, t: Txid)
    requires UpInvariant(entries, direct, closure, pending) && t in pending && t !in entries
    ensures !(direct <= entries.Keys) || !Symmetric(entries)
  {
    if t in direct {
      assert !(direct <= entries.Keys);
    } else {
      var c :| c in closure && t in entries[c].parents;
      assert c in entries;
    }
  }

  lemma Shrinks(keys: set<Txid>, closure: set<Txid>, t: Txid)
    requires t in keys && t !in closure
    ensures |keys - (closure + {t})| < |keys - closure|
  {
    assert keys - closure == (keys - (closure + {t})) + {t};
  }

  /** The worklist: the parents and all their ancestors, unless one is missing. */
  method CollectAncestors(entries: Entries, direct: set<Txid>) returns (r: Result<set<Txid>, MempoolError>)
    ensures r.Failure? ==> r == Failure(InvariantViolation) && (!(direct <= entries.Keys) || !Symmetric(entries))
    ensures r.Success? ==> direct <= entries.Keys && r.value == UpClosure(entries, direct) && r.value <= entries.Keys
  {
    hide Symmetric, UpInvariant, UpClosure;
    var closure: set<Txid>, pending := {}, Ascending(direct);
    UpStart(entries, direct, pending);
    while pending != []
      invariant UpInvariant(entries, direct, closure, pending)
      invariant closure <= entries.Keys
      decreases |entries.Keys - closure|, |pending|
    {
      var t := pending[|pending| - 1];
      var popped := pending[..|pending| - 1];
      assert pending == popped + [t];
      if t !in entries {
        UpMissing(entries, direct, closure, pending, t);
        return Failure(InvariantViolation);
      }
      if t in closure {
        UpSkip(entries, direct, closure, popped, t);
        pending := popped;
      } else {
        UpStep(entries, direct, closure, popped, t, Ascending(entries[t].parents));
        Shrinks(entries.Keys, closure, t);
        closure, pending := closure + {t}, popped + Ascending(entries[t].parents);
      }
    }
    UpDone(entries, direct, closure);
    return Success(closure);
  }

  /** The ancestor set of a candidate with the given parents.  It is computed exactly when the
      parents are in the pool and the pool's links are mirrored and acyclic; a parent that is missing
      or a link that is not mirrored is reported before a cycle. */
  method AncestorClosure(entries: Entries, direct: set<Txid>) returns (r: Result<set<Txid>, MempoolError>)
    ensures !(direct <= entries.Keys) || !Symmetric(entries) ==> r == Failure(InvariantViolation)
    ensures direct <= entries.Keys && Symmetric(entries) ==>
              r == if Acyclic(entries) then Success(UpClosure(entries, direct)) else Failure(DependencyCycle)
  {
    hide Symmetric, Acyclic, UpClosure, IsTopological, LexLe;
    var closure := CollectAncestors(entries, direct);
    if closure.Failure? {
      return Failure(closure.error);
    }
    var order := TopologicalOrder(entries);
    if order.Failure? {
      return Failure(order.error);
    }
    var emitted := set t | t in order.value && t in closure.value;
    AllEmitted(entries, order.value, closure.value, emitted);
    if |emitted| != |closure.value| {
      return Failure(DependencyCycle);
    }
    return closure;
  }

  // ----- Descendants -----

  /** Each element lists the next as a child; only the last may be missing from the pool. */
  ghost predicate DownLink(entries: Entries, s: seq<Txid>, a: Txid, t: Txid) {
    && |s| >= 2 && s[0] == a && s[|s| - 1] == t
    && forall i | 0 <= i < |s| - 1 :: s[i] in entries && s[i + 1] in entries[s[i]].children
  }

  /** `t` is reached from `a` by child links, whatever the parent links say. */
  ghost predicate DownReaches(entries: Entries, a: Txid, t: Txid) {
    exists s :: DownLink(entries, s, a, t)
  }

  lemma DownChild(entries: Entries, root: Txid, t: Txid, c: Txid)
    requires t in entries && c in entries[t].children && (t == root || DownReaches(entries, root, t))
    ensures DownReaches(entries, root, c)
  {
    if t == root {
      assert DownLink(entries, [root, c], root, c);
    } else {
      var s :| DownLink(entries, s, root, t);
      assert DownLink(entries, s + [c], root, c);
    }
  }

  ghost predicate DownInvariant(entries: Entries, root: Txid, closure: set<Txid>, pending: seq<Txid>)
    requires root in entries
  {
    && closure <= entries.Keys
    && (forall t, c | t in closure && c in entries[t].children :: c in closure || c in pending)
    && (forall c | c in entries[root].children :: c in closure || c in pending)
    && (forall t | t in closure :: DownReaches(entries, root, t))
    && (forall x | x in pending :: DownReaches(entries, root, x))
  }

  lemma ChildrenReach(entries: Entries, root: Txid, t: Txid, more: seq<Txid>)
    requires t in entries && Elements(more) == entries[t].children && (t == root || DownReaches(entries, root, t))
    ensures forall x | x in more :: DownReaches(entries, root, x)
  {
    forall x | x in more
      ensures DownReaches(entries, root, x)
    {
      assert x in Elements(more);
      DownChild(entries, root, t, x);
    }
  }

  lemma DownStep(entries: Entries, root: Txid, closure: set<Txid>, pending: seq<Txid>, t: Txid, more: seq<Txid>)
    requires root in entries && t !in closure && DownInvariant(entries, root, closure, pending + [t])
    requires t in entries && Elements(more) == entries[t].children
    ensures DownInvariant(entries, root, closure + {t}, pending + more)
  {
    hide DownReaches;
    assert t in pending + [t];
    ChildrenReach(entries, root, t, more);
    var closure', pending' := closure + {t}, pending + more;
    forall x, c | x in closure' && c in entries[x].children
      ensures c in closure' || c in pending'
    {
      if x == t {
        assert c in Elements(more);
      } else {
        assert c in closure || c in pending + [t];
      }
    }
    forall c | c in entries[root].children
      ensures c in closure' || c in pending'
    {
      assert c in closure || c in pending + [t];
    }
    forall x | x in pending'
      ensures DownReaches(entries, root, x)
    {
      if x in pending {
        assert x in pending + [t];
      }
    }
  }

  lemma DownSkip(entries: Entries, root: Txid, closure: set<Txid>, pending: seq<Txid>, t: Txid)
    requires root in entries && DownInvariant(entries, root, closure, pending + [t]) && t in closure
    ensures DownInvariant(entries, root, closure, pending)
  {
    hide DownReaches;
    assert forall x | x in pending :: x in pending + [t];
    assert forall x | x in pending + [t] :: x in pending || x == t;
  }

  lemma DownStart(entries: Entries, root: Txid, pending: seq<Txid>)
    requires root in entries && Elements(pending) == entries[root].children
    ensures DownInvariant(entries, root, {}, pending)
  {
    hide DownReaches;
    ChildrenReach(entries, root, root, pending);
    assert forall c | c in entries[root].children :: c in Elements(pending);
  }

  lemma {:induction false} ClosedDownwards(entries: Entries, root: Txid, closure: set<Txid>, s: seq<Txid>, t: Txid)
    requires root in entries && DownInvariant(entries, root, closure, []) && DownLink(entries, s, root, t)
    ensures t in closure
    decreases |s|
  {
    hide DownReaches;
    var front, p := s[..|s| - 1], s[|s| - 2];
    assert p in entries && s[|s| - 2 + 1] in entries[p].children;
    if |s| > 2 {
      ClosedDownwards(entries, root, closure, front, p);
    }
  }

  /** When the worklist is empty, it has found everything that child links reach. */
  lemma DownDone(entries: Entries, root: Txid, closure: set<Txid>)
    requires root in entries && DownInvariant(entries, root, closure, [])
    ensures forall t :: t in closure <==> DownReaches(entries, root, t)
  {
    forall t | DownReaches(entries, root, t)
      ensures t in closure
    {
      var s :| DownLink(entries, s, root, t);
      ClosedDownwards(entries, root, closure, s, t);
    }
  }

  ghost predicate DownInside(entries: Entries, root: Txid) {
    forall t | DownReaches(entries, root, t) :: t in entries
  }

  ghost function DownClosure(entries: Entries, root: Txid): set<Txid> {
    set t | t in entries && DownReaches(entries, root, t)
  }

  lemma DownMissing(entries: Entries, root: Txid, closure: set<Txid>, pending: seq<Txid>, t: Txid)
    requires root in entries && DownInvariant(entries, root, closure, pending) && t in pending && t !in entries
    ensures !DownInside(entries, root)
  {
    hide DownReaches;
  }

  /** Everything reached from an entry by child links; a missing entry is reported before a cycle. */
  method DescendantClosure(entries: Entries, root: Txid) returns (r: Result<set<Txid>, MempoolError>)
    ensures r == if root !in entries || !DownInside(entries, root) then Failure(InvariantViolation)
                 else if DownReaches(entries, root, root) then Failure(DependencyCycle)
                 else Success(DownClosure(entries, root))
  {
    hide DownInvariant, DownReaches;
    if root !in entries {
      return Failure(InvariantViolation);
    }
    var closure: set<Txid>, pending := {}, Ascending(entries[root].children);
    DownStart(entries, root, pending);
    while pending != []
      invariant DownInvariant(entries, root, closure, pending) && closure <= entries.Keys
      decreases |entries.Keys - closure|, |pending|
    {
      var t := pending[|pending| - 1];
      var popped := pending[..|pending| - 1];
      assert pending == popped + [t];
      if t !in entries {
        DownMissing(entries, root, closure, pending, t);
        return Failure(InvariantViolation);
      }
      if t in closure {
        DownSkip(entries, root, closure, popped, t);
        pending := popped;
      } else {
        DownStep(entries, root, closure, popped, t, Ascending(entries[t].children));
        Shrinks(entries.Keys, closure, t);
        closure, pending := closure + {t}, popped + Ascending(entries[t].children);
      }
    }
    DownDone(entries, root, closure);
    assert closure == DownClosure(entries, root);
    if root in closure {
      return Failure(DependencyCycle);
    }
    return Success(closure);
  }

  lemma DownIsChain(entries: Entries, s: seq<Txid>, a: Txid, t: Txid)
    requires Symmetric(entries) && DownLink(entries, s, a, t)
    ensures IsChain(entries, s)
  {
    forall i | 0 <= i < |s|
      ensures s[i] in entries
    {
      if i > 0 {
        assert s[i - 1] in entries && s[i - 1 + 1] in entries[s[i - 1]].children;
      }
    }
  }

  lemma ChainIsDown(entries: Entries, s: seq<Txid>)
    requires Symmetric(entries) && IsChain(entries, s)
    ensures forall i | 0 <= i < |s| - 1 :: s[i] in entries && s[i + 1] in entries[s[i]].children
  {
  }

  /** On mirrored links these are the descendants, and a loop is a cycle through the entry. */
  lemma MirroredDescendants(entries: Entries, root: Txid)
    requires Symmetric(entries)
    ensures DownInside(entries, root) && DownClosure(entries, root) == DescendantsOf(entries, root)
    ensures DownReaches(entries, root, root) <==> Reaches(entries, root, root)
  {
    forall t
      ensures DownReaches(entries, root, t) <==> Reaches(entries, root, t)
      ensures Reaches(entries, root, t) ==> t in entries
    {
      if DownReaches(entries, root, t) {
        var s :| DownLink(entries, s, root, t);
        DownIsChain(entries, s, root, t);
        assert Link(entries, s, root, t);
      }
      if Reaches(entries, root, t) {
        var s :| Link(entries, s, root, t);
        ChainIsDown(entries, s);
        assert DownLink(entries, s, root, t);
      }
    }
  }
}
