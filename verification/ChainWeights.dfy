/** How much the branches weigh: above a clock that has jumped ahead blocks are as light as the first
    one, and on a branch that runs ahead of its schedule two blocks outweigh a whole window of them. */
module ChainWeights {
  import opened Arithmetic
  import opened ChainTypes
  import opened ChainReorg
  import opened ChainConsensus
  import opened ChainSamples
  import Asert

  /** From here on the prefix is fifteen half-lives ahead. */
  const EARLY_BLOCKS := 1_083

  lemma WorkShrinks(a: Bits256, b: Bits256)
    requires 0 < a <= b
    ensures BlockWork(b) <= BlockWork(a)
  {
    var p, q := BlockWork(a), BlockWork(b);
    QuotientBounds(Asert.U256_LIMIT, a + 1);
    QuotientBounds(Asert.U256_LIMIT, b + 1);
    MulMonotone(a + 1, b + 1, q);
    Compare(a + 1, q, p, Asert.U256_LIMIT);
  }

  lemma Regrouped(k: nat, a: nat, q: nat)
    ensures k * a * q == a * (k * q)
  {
  }

  /** A target that many times smaller is worth that many times more work. */
  lemma WorkMultiplies(a: Bits256, b: Bits256, k: nat)
    requires 0 < a && 0 < b && k * (a + 1) <= b + 1
    ensures k * BlockWork(b) <= BlockWork(a)
  {
    var p, q := BlockWork(a), BlockWork(b);
    QuotientBounds(Asert.U256_LIMIT, a + 1);
    QuotientBounds(Asert.U256_LIMIT, b + 1);
    MulMonotone(k * (a + 1), b + 1, q);
    Regrouped(k, a + 1, q);
    Compare(a + 1, k * q, p, Asert.U256_LIMIT);
  }

  // ----- Light blocks -----

  lemma LateTarget(w: World, n: nat, h: nat)
    requires Fits(w, n) && w.late >= 300 * n && w.fork < h < n
    ensures TargetAbove(w.params, w.genesis, h, Main(w, h).block.header.timestamp) >= w.params.initialTarget
  {
    hide Main, Asert.TargetAt, Asert.Exponent;
    MainFacts(w, h);
    var drift := Asert.Drift(h + 1, Main(w, h).block.header.timestamp, w.genesis);
    Asert.ExponentMonotone(0, drift);
    Asert.TargetMonotone(Asert.Exponent(0), Asert.Exponent(drift), w.params);
    Asert.InitialKept(w.params);
  }

  /** Each light block adds at most the work of the initial target. */
  lemma {:induction false} LightWork(w: World, n: nat, h: nat)
    requires Fits(w, n) && w.late >= 300 * n && w.fork < h <= n
    ensures Main(w, h).work <= Main(w, w.fork + 1).work + (h - w.fork - 1) * BlockWork(w.params.initialTarget)
  {
    hide BlockWork, Child, TargetAbove;
    if h > w.fork + 1 {
      LightWork(w, n, h - 1);
      LateTarget(w, n, h - 1);
      MainFacts(w, h - 1);
      ChildFacts(w, Main(w, h - 1), Clock(w, h + w.late), 0, []);
      var unit, target := BlockWork(w.params.initialTarget),
                          TargetAbove(w.params, w.genesis, h - 1, Main(w, h - 1).block.header.timestamp);
      WorkShrinks(w.params.initialTarget, target);
      assert (h - w.fork - 1) * unit == (h - w.fork - 2) * unit + unit;
    }
  }

  // ----- Heavy blocks -----

  lemma FifteenHalfLives()
    ensures Asert.Exponent(-324_000) == -15 * Asert.RADIX
  {
  }

  lemma EarlyTarget(w: World, n: nat)
    requires Fits(w, n) && w.fork >= EARLY_BLOCKS && w.params.initialTarget >= 16_384
    ensures var target := TargetAbove(w.params, w.genesis, w.fork + 1, FirstSide(w).block.header.timestamp);
            REORG_WINDOW * (target + 1) <= w.params.initialTarget + 1
  {
    hide Main, Child, Asert.TargetAt, Asert.Exponent;
    SideFacts(w);
    var drift := Asert.Drift(w.fork + 2, FirstSide(w).block.header.timestamp, w.genesis);
    assert drift == -299 * (w.fork + 1) <= -324_000;
    Asert.ExponentMonotone(drift, -324_000);
    FifteenHalfLives();
    Asert.TargetMonotone(Asert.Exponent(drift), -15 * Asert.RADIX, w.params);
    Asert.FifteenHalvings(w.params);
  }

  lemma {:induction false} MainGrows(w: World, a: nat, b: nat)
    requires a <= b
    ensures Main(w, a).work <= Main(w, b).work
    decreases b - a
  {
    hide BlockWork, Child;
    if a < b {
      MainGrows(w, a, b - 1);
      ChildFacts(w, Main(w, b - 1), Clock(w, b + if b > w.fork then w.late else 0), 0, []);
    }
  }

  /** The two side blocks outweigh a main branch of a whole window. */
  lemma SideOutweighs(w: World, n: nat)
    requires Fits(w, n) && w.late >= 300 * n && n == w.fork + REORG_WINDOW
    requires w.fork >= EARLY_BLOCKS && w.params.initialTarget >= 16_384
    ensures FirstSide(w).work <= Main(w, n).work < SecondSide(w).work
  {
    hide BlockWork, Child, TargetAbove, Main;
    LightWork(w, n, n);
    EarlyTarget(w, n);
    SameWork(w);
    SideFacts(w);
    ChildFacts(w, FirstSide(w), Clock(w, w.fork + 2), 1, []);
    var unit, target := BlockWork(w.params.initialTarget),
                        TargetAbove(w.params, w.genesis, w.fork + 1, FirstSide(w).block.header.timestamp);
    WorkMultiplies(target, w.params.initialTarget, REORG_WINDOW);
    assert SecondSide(w).work == FirstSide(w).work + BlockWork(target);
    assert (n - w.fork - 1) * unit + unit == REORG_WINDOW * unit;
    MainGrows(w, w.fork + 1, n);
  }
}
