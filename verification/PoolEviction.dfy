/** The eviction order: fee per byte, then fee, then transaction id. */
module PoolEviction {
  import opened Arithmetic
  import opened PoolGraph

  /** Whether `a` is evicted before `b`.  Fee rates are compared by cross multiplication. */
  predicate EvictedBefore(a: Entry, b: Entry) {
    var left, right := a.fee * b.tx.size, b.fee * a.tx.size;
    left < right || (left == right && (a.fee < b.fee || (a.fee == b.fee && a.tx.txid < b.tx.txid)))
  }

  lemma CrossLess(fa: nat, sa: nat, fb: nat, sb: nat, fc: nat, sc: nat)
    requires sa > 0 && sb > 0 && sc > 0
    requires fa * sb <= fb * sa && fb * sc <= fc * sb
    ensures fa * sc <= fc * sa
    ensures fa * sb < fb * sa || fb * sc < fc * sb ==> fa * sc < fc * sa
  {
    MulMonotone(fa * sb, fb * sa, sc);
    MulMonotone(fb * sc, fc * sb, sa);
    assert fa * sb * sc == fa * sc * sb && fb * sa * sc == fb * sc * sa && fc * sb * sa == fc * sa * sb;
    if fa * sc > fc * sa {
      MulStrict(fc * sa, fa * sc, sb);
    }
    if fa * sb < fb * sa {
      MulStrict(fa * sb, fb * sa, sc);
      if fa * sc >= fc * sa {
        MulMonotone(fc * sa, fa * sc, sb);
      }
    }
    if fb * sc < fc * sb {
      MulStrict(fb * sc, fc * sb, sa);
      if fa * sc >= fc * sa {
        MulMonotone(fc * sa, fa * sc, sb);
      }
    }
  }

  /** The order is a strict total one on entries with distinct ids. */
  lemma EvictionTotal(a: Entry, b: Entry)
    ensures !EvictedBefore(a, a)
    ensures !(EvictedBefore(a, b) && EvictedBefore(b, a))
    ensures a.tx.txid != b.tx.txid ==> EvictedBefore(a, b) || EvictedBefore(b, a)
  {
  }

  lemma EvictionTransitive(a: Entry, b: Entry, c: Entry)
    requires EvictedBefore(a, b) && EvictedBefore(b, c)
    ensures EvictedBefore(a, c)
  {
    CrossLess(a.fee, a.tx.size, b.fee, b.tx.size, c.fee, c.tx.size);
    if a.fee * b.tx.size == b.fee * a.tx.size && b.fee * c.tx.size == c.fee * b.tx.size {
      CrossLess(c.fee, c.tx.size, b.fee, b.tx.size, a.fee, a.tx.size);
    }
  }
}
