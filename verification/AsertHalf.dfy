/** Half a half-life: twice of it is a doubling of the target. */
module AsertHalf {
  import opened Prelude
  import opened Arithmetic
  import opened Asert
  import opened AsertPower

  const HALF_STEP := 32_768
  const HALF_HALF_LIFE := 10_800

  // ----- Factors -----

  /** `b` is the root of two times `a`: the square of `b` is twice that of `a`, within one part in
      1500. */
  ghost predicate Rooted(b: int, a: int) {
    2_999 * (b * b) <= 3_001 * (2 * (a * a)) && 2_999 * (2 * (a * a)) <= 3_001 * (b * b)
  }

  /** The factor half a step on, doubled past the radix. */
  ghost function NextFactor(f: nat): nat {
    if f < HALF_STEP then Factor(f + HALF_STEP) else 2 * Factor(f - HALF_STEP)
  }

  lemma BothClose(low: int, high: int, twice: int)
    requires Close(low, twice) && Close(high, 2 * twice)
    ensures 2_999 * high <= 3_001 * (2 * low) && 2_999 * (2 * low) <= 3_001 * high
  {
  }

  lemma FactorRoots(f: nat)
    requires f < HALF_STEP
    ensures Rooted(Factor(f + HALF_STEP), Factor(f))
  {
    hide Factor, Close;
    EarlyFactor(f);
    LateFactor(f);
    BothClose(Factor(f) * Factor(f), Factor(f + HALF_STEP) * Factor(f + HALF_STEP), RADIX * Factor(2 * f));
  }

  lemma RootedTwice(b: int, a: int)
    requires Rooted(b, a)
    ensures Rooted(2 * a, b)
  {
    assert (2 * a) * (2 * a) == 4 * (a * a);
  }

  lemma NextRoots(f: nat)
    requires f < RADIX
    ensures Rooted(NextFactor(f), Factor(f))
  {
    hide Factor, Rooted;
    if f < HALF_STEP {
      FactorRoots(f);
    } else {
      FactorRoots(f - HALF_STEP);
      RootedTwice(Factor(f), Factor(f - HALF_STEP));
    }
  }

  // ----- Targets -----

  lemma RootedScales(c: nat, b: int, a: int)
    requires Rooted(b, a)
    ensures Rooted(c * b, c * a)
  {
    SquareOfProduct(c, b);
    SquareOfProduct(c, a);
    MulMonotone(2_999 * (b * b), 3_001 * (2 * (a * a)), c * c);
    MulMonotone(2_999 * (2 * (a * a)), 3_001 * (b * b), c * c);
  }

  /** The same of two whole numbers that were rounded down. */
  ghost predicate RootedDown(b: nat, a: nat) {
    2_999 * (b * b) <= 3_001 * (2 * ((a + 1) * (a + 1))) && 2_999 * (2 * (a * a)) <= 3_001 * ((b + 1) * (b + 1))
  }

  lemma SquareBetween(n: nat, d: nat)
    requires d > 0
    ensures (d * d) * ((n / d) * (n / d)) <= n * n <= (d * d) * ((n / d + 1) * (n / d + 1))
  {
    var q := n / d;
    QuotientBounds(n, d);
    MulBoth(d * q, n, d * q, n);
    MulBoth(n, d * (q + 1), n, d * (q + 1));
    SquareOfProduct(d, q);
    SquareOfProduct(d, q + 1);
  }

  /** A bound between two multiples of `k` holds between what they are multiples of. */
  lemma Cancel(k: nat, m: nat, low: int, x: int, n: nat, y: int, high: int)
    requires k > 0 && k * low <= x && m * x <= n * y && y <= k * high
    ensures m * low <= n * high
  {
    MulMonotone(k * low, x, m);
    MulMonotone(y, k * high, n);
    Associates(m, k, low);
    Associates(n, k, high);
    Associates(k, m, low);
    Associates(k, n, high);
    if m * low > n * high {
      MulStrict(n * high, m * low, k);
    }
  }

  lemma FromSquares(k: nat, p: int, b: int, p': int, q: int, a: int, q': int)
    requires k > 0 && k * p <= b <= k * p' && k * q <= a <= k * q'
    requires 2_999 * b <= 3_001 * (2 * a) && 2_999 * (2 * a) <= 3_001 * b
    ensures 2_999 * p <= 3_001 * (2 * q') && 2_999 * (2 * q) <= 3_001 * p'
  {
    Cancel(k, 2_999, p, b, 6_002, a, q');
    Cancel(k, 5_998, q, a, 3_001, b, p');
  }

  lemma RootedQuotients(b: nat, a: nat, d: nat)
    requires d > 0 && Rooted(b, a)
    ensures RootedDown(b / d, a / d)
  {
    SquareBetween(b, d);
    SquareBetween(a, d);
    var p, q := b / d, a / d;
    FromSquares(d * d, p * p, b * b, (p + 1) * (p + 1), q * q, a * a, (q + 1) * (q + 1));
  }

  lemma Reordered(t: nat, f: nat, p: nat)
    ensures t * f * p == t * p * f
  {
  }

  lemma NextNumerator(target: nat, exponent: int, m: nat)
    requires exponent / RADIX + m >= 0
    ensures var next := exponent + HALF_STEP;
            target * Factor(next % RADIX) * Pow2(next / RADIX + m)
            == target * Pow2(exponent / RADIX + m) * NextFactor(exponent % RADIX)
  {
    hide Factor;
    var f, s, next := exponent % RADIX, exponent / RADIX, exponent + HALF_STEP;
    assert exponent == RADIX * s + f;
    if f < HALF_STEP {
      assert next / RADIX == s && next % RADIX == f + HALF_STEP;
      Reordered(target, Factor(f + HALF_STEP), Pow2(s + m));
    } else {
      assert next / RADIX == s + 1 && next % RADIX == f - HALF_STEP;
      Reordered(target, Factor(f - HALF_STEP), Pow2(s + 1 + m));
      Regroup(target, Pow2(s + m), Factor(f - HALF_STEP));
    }
  }

  lemma NextScale(target: nat, exponent: int)
    ensures var next := exponent + HALF_STEP;
            RootedDown(Scale(target, Factor(next % RADIX), next / RADIX),
                       Scale(target, Factor(exponent % RADIX), exponent / RADIX))
  {
    hide Factor, Scale, Pow2, Rooted, RootedDown;
    var f, s := exponent % RADIX, exponent / RADIX;
    var next := exponent + HALF_STEP;
    var m: nat := if s < 0 then -s else 0;
    ScaleIs(target, Factor(f), s, m);
    ScaleIs(target, Factor(next % RADIX), next / RADIX, m);
    NextRoots(f);
    var c := target * Pow2(s + m);
    RootedScales(c, NextFactor(f), Factor(f));
    NextNumerator(target, exponent, m);
    Reordered(target, Factor(f), Pow2(s + m));
    RootedQuotients(c * NextFactor(f), c * Factor(f), Pow2(m) * RADIX);
  }

  lemma HugeScale(target: Target, factor: nat, shifts: int)
    requires RADIX <= factor <= 2 * RADIX && shifts >= 256
    ensures Scale(target, factor, shifts) >= U256_LIMIT
  {
    hide Scale;
    ScaleHuge(target, factor);
    DoublingLaw(target, factor, 255);
    if shifts > 256 {
      ScaleMonotone(target, factor, factor, 256, shifts);
    }
  }

  lemma TinyScale(target: Target, factor: nat, shifts: int)
    requires RADIX <= factor <= 2 * RADIX && shifts <= -257
    ensures Scale(target, factor, shifts) <= 1
  {
    hide Scale;
    ScaleTiny(target, factor);
    ScaleMonotone(target, factor, factor, shifts, -256);
  }

  /** The cut-offs for large shifts are what the clamps give anyway. */
  lemma TargetIsClamped(exponent: int, params: Params)
    ensures TargetAt(exponent, params)
         == Clamped(Scale(params.initialTarget, Factor(exponent % RADIX), exponent / RADIX), params.powLimit)
  {
    hide Scale, Factor;
    var f, s := exponent % RADIX, exponent / RADIX;
    FactorMonotone(f, f);
    if s >= 256 {
      HugeScale(params.initialTarget, Factor(f), s);
    } else if s <= -257 {
      TinyScale(params.initialTarget, Factor(f), s);
    }
  }

  /** `b` is the root of two times `a`, but for rounding down and the limit. */
  ghost predicate RootedWithin(b: nat, a: nat, limit: nat) {
    && 2_999 * (b * b) <= 3_001 * (2 * ((a + 1) * (a + 1)))
    && (b < limit ==> 2_999 * (2 * (a * a)) <= 3_001 * ((b + 1) * (b + 1)))
  }

  lemma SquareGrows(x: nat, y: nat)
    requires x <= y
    ensures x * x <= y * y
  {
    MulBoth(x, y, x, y);
  }

  lemma ClampedRoots(b: nat, a: nat, limit: Target)
    requires RootedDown(b, a)
    ensures RootedWithin(Clamped(b, limit), Clamped(a, limit), limit)
  {
    var t, s := Clamped(b, limit), Clamped(a, limit);
    SquareGrows(s, s + 1);
    SquareGrows(2, t + 1);
    SquareGrows(2, s + 1);
    if t <= b {
      SquareGrows(t, b);
    }
    if t <= s {
      SquareGrows(t, s + 1);
    }
    if a <= s {
      SquareGrows(a + 1, s + 1);
    }
    if s <= a {
      SquareGrows(s, a);
    }
    if b <= t {
      SquareGrows(b + 1, t + 1);
    }
  }

  lemma TargetRoots(exponent: int, params: Params)
    ensures RootedWithin(TargetAt(exponent + HALF_STEP, params), TargetAt(exponent, params), params.powLimit)
  {
    hide Scale, Factor, TargetAt, RootedWithin, RootedDown, Clamped;
    TargetIsClamped(exponent, params);
    TargetIsClamped(exponent + HALF_STEP, params);
    NextScale(params.initialTarget, exponent);
    ClampedRoots(Scale(params.initialTarget, Factor((exponent + HALF_STEP) % RADIX), (exponent + HALF_STEP) / RADIX),
                 Scale(params.initialTarget, Factor(exponent % RADIX), exponent / RADIX), params.powLimit);
  }

  // ----- Times -----

  predicate ShiftsHalf(drift: int) {
    drift >= 0 || drift <= -HALF_HALF_LIFE || (drift * RADIX) % HALF_LIFE_SECONDS == 0
  }

  lemma SplitQuotient(p: int, k: nat)
    requires 0 <= p <= HALF_LIFE_SECONDS * k
    ensures (HALF_LIFE_SECONDS * k - p) / HALF_LIFE_SECONDS
         == k - p / HALF_LIFE_SECONDS - if p % HALF_LIFE_SECONDS == 0 then 0 else 1
    ensures p % HALF_LIFE_SECONDS == 0 <==> (-p) % HALF_LIFE_SECONDS == 0
  {
    var q, r := p / HALF_LIFE_SECONDS, p % HALF_LIFE_SECONDS;
    assert p == HALF_LIFE_SECONDS * q + r;
    QuotientIs(HALF_LIFE_SECONDS * k - p, HALF_LIFE_SECONDS, if r == 0 then k - q else k - q - 1);
  }

  /** Half a half-life more raises the exponent by exactly half a doubling, unless rounding toward zero
      gets in the way; then it is one step less. */
  lemma HalfShift(drift: int)
    ensures Exponent(drift + HALF_HALF_LIFE) == Exponent(drift) + if ShiftsHalf(drift) then HALF_STEP else HALF_STEP - 1
  {
    var n := drift * RADIX;
    assert HALF_HALF_LIFE * RADIX == HALF_LIFE_SECONDS * HALF_STEP;
    if drift >= 0 {
      ShiftedQuotient(n, HALF_STEP);
    } else if drift <= -HALF_HALF_LIFE {
      ShiftedQuotient(-n - HALF_LIFE_SECONDS * HALF_STEP, HALF_STEP);
    } else {
      SplitQuotient(-n, HALF_STEP);
    }
  }

  /** The target `b` half a half-life after `a`: never more than the root of two times larger, and no less
      where the exponent is not rounded and the limit not reached. */
  ghost predicate RootedTargets(b: Result<Target, ConsensusError>, a: Result<Target, ConsensusError>, limit: nat,
                                exact: bool) {
    && a.Success? && b.Success?
    && 2_999 * (b.value * b.value) <= 3_001 * (2 * ((a.value + 1) * (a.value + 1)))
    && (exact && b.value < limit ==>
          2_999 * (2 * (a.value * a.value)) <= 3_001 * ((b.value + 1) * (b.value + 1)))
  }

  /** Half a half-life later the target is the root of two times larger, within one part in 2999; so
      half a half-life twice is a doubling. */
  lemma RequiredTargetRoots(height: u64, parentTime: u64, genesisTime: u64, params: Params)
    requires height >= 2 && parentTime + HALF_HALF_LIFE <= U64_MAX
    ensures RootedTargets(RequiredTarget(height, parentTime + HALF_HALF_LIFE, genesisTime, params),
                          RequiredTarget(height, parentTime, genesisTime, params), params.powLimit,
                          ShiftsHalf(Drift(height, parentTime, genesisTime)))
  {
    hide RequiredTarget, TargetAt, Exponent, ShiftsHalf;
    var drift := Drift(height, parentTime, genesisTime);
    NeverFails(height, parentTime, genesisTime, params);
    NeverFails(height, parentTime + HALF_HALF_LIFE, genesisTime, params);
    HalfShift(drift);
    var e, late := Exponent(drift), Exponent(drift + HALF_HALF_LIFE);
    TargetRoots(e, params);
    TargetMonotone(late, e + HALF_STEP, params);
    SquareGrows(TargetAt(late, params), TargetAt(e + HALF_STEP, params));
  }

  lemma MiddleFactor()
    ensures Factor(HALF_STEP) == 92_674
  {
    hide Times;
    TimesIs(32_768, 32_768);
    TimesIs(1_073_741_824, 32_768);
  }

  /** Half a half-life behind schedule, from an initial target of a million. */
  lemma HalfLate(genesisTime: u64)
    requires genesisTime + 11_100 <= U64_MAX
    ensures RequiredTarget(2, genesisTime + 11_100, genesisTime, Params(10_000_000, 1_000_000)) == Success(1_414_093)
  {
    hide RequiredTarget, Times, Factor, Pow2;
    var params := Params(10_000_000, 1_000_000);
    NeverFails(2, genesisTime + 11_100, genesisTime, params);
    MiddleFactor();
    Pow2Small();
    TimesIs(1_000_000, 92_674);
    TimesIs(1_000_000 * 92_674, 1);
    assert Exponent(10_800) == 32_768;
  }
}
