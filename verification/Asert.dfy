/** The difficulty target: a fixed-point exponential of how far the chain is from its schedule,
    in the style of the "Target computation" section of the aserti3-2d specification. */
module Asert {
  import opened Prelude
  import opened Arithmetic

  const TARGET_BLOCK_SECONDS := 300
  const HALF_LIFE_SECONDS := 21_600
  const RADIX := 65_536
  const I128_LIMIT := 0x8000_0000_0000_0000_0000_0000_0000_0000
  const U256_LIMIT := 0x1_0000_0000_0000_0000_0000_0000_0000_0000_0000_0000_0000_0000_0000_0000_0000_0000

  type Target = t: nat | 1 <= t < U256_LIMIT witness 1

  datatype ConsensusError =
    | InvalidHeight
    | ArithmeticOverflow
    | ZeroTarget
    | TargetExceeds256Bits
    | InitialTargetAbovePowLimit
    | PreviousBlockMismatch
    | InvalidMtpWindow
    | TimestampNotAfterMtp
    | TargetAbovePowLimit
    | UnexpectedTarget

  datatype Params = Params(powLimit: Target, initialTarget: Target)

  /** What the parameters of every node satisfy. */
  predicate ParamsOk(params: Params) {
    params.initialTarget <= params.powLimit
  }

  function NewParams(powLimit: Target, initialTarget: Target): (r: Result<Params, ConsensusError>)
    ensures r.Success? <==> initialTarget <= powLimit
    ensures r.Success? ==> ParamsOk(r.value)
  {
    if initialTarget > powLimit then Failure(InitialTargetAbovePowLimit) else Success(Params(powLimit, initialTarget))
  }

  // ----- The computation -----

  /** A signed 128-bit result, or an overflow. */
  function Checked(n: int): Result<int, ConsensusError> {
    if -I128_LIMIT <= n < I128_LIMIT then Success(n) else Failure(ArithmeticOverflow)
  }

  /** Division that rounds toward zero. */
  function TruncatedDiv(a: int, b: nat): int
    requires b > 0
  {
    if a >= 0 then a / b else -((-a) / b)
  }

  function Pow2(k: nat): (n: nat)
    ensures n > 0
  {
    if k == 0 then 1 else 2 * Pow2(k - 1)
  }

  function FromNumber(n: nat): Result<Target, ConsensusError> {
    if n == 0 then Failure(ZeroTarget) else if n >= U256_LIMIT then Failure(TargetExceeds256Bits) else Success(n)
  }

  /** A product of two unknowns, as repeated addition: what is proved about it below then never
      meets non-linear arithmetic unasked. `TimesIs` says it is the product. */
  function Times(n: nat, m: nat): nat {
    if m == 0 then 0 else Times(n, m - 1) + n
  }

  lemma {:induction false} TimesIs(n: nat, m: nat)
    ensures Times(n, m) == n * m
  {
    if m > 0 {
      TimesIs(n, m - 1);
      assert n * m == n * (m - 1) + n;
    }
  }

  function Polynomial(frac: nat): Result<int, ConsensusError> {
    var term1 :- Checked(195_766_423_245_049 * frac);
    var frac2 :- Checked(Times(frac, frac));
    var frac3 :- Checked(Times(frac2, frac));
    var term2 :- Checked(971_821_376 * frac2);
    var term3 :- Checked(5_127 * frac3);
    var sum :- Checked(term1 + term2);
    var more :- Checked(sum + term3);
    Checked(more + 0x8000_0000_0000)
  }

  function Over(n: nat, m: nat): nat
    requires m > 0
  {
    n / m
  }

  function Shifted(n: nat, shifts: int): nat {
    if shifts < 0 then Over(n, Pow2(-shifts)) else Times(n, Pow2(shifts))
  }

  /** Scales by `factor`, shifts, drops the radix. */
  function Scale(target: nat, factor: nat, shifts: int): nat {
    Over(Shifted(Times(target, factor), shifts), RADIX)
  }

  function RequiredTarget(height: u64, parentTime: u64, genesisTime: u64, params: Params): Result<Target,
      ConsensusError> {
    if height == 0 then Failure(InvalidHeight)
    else if height == 1 then Success(params.initialTarget)
    else
      var next :- Checked(height - 2 + 1);
      var ideal :- Checked(TARGET_BLOCK_SECONDS * next);
      var drift :- Checked(parentTime - genesisTime - ideal);
      var product :- Checked(drift * RADIX);
      var exponent := TruncatedDiv(product, HALF_LIFE_SECONDS);
      var shifts := exponent / RADIX;
      var whole :- Checked(shifts * RADIX);
      var frac :- Checked(exponent - whole);
      if !(0 <= frac < RADIX) then Failure(ArithmeticOverflow)
      else
        var polynomial :- Polynomial(frac);
        var factor := polynomial / 0x1_0000_0000_0000 + RADIX;
        if !(0 <= factor <= U64_MAX) then Failure(ArithmeticOverflow)
        else if shifts >= 256 then Success(params.powLimit)
        else if shifts <= -257 then FromNumber(1)
        else
          var candidate := Scale(params.initialTarget, factor, shifts);
          if candidate == 0 then FromNumber(1)
          else if candidate > params.powLimit then Success(params.powLimit)
          else FromNumber(candidate)
  }

  // ----- The same without overflow checks -----

  function Drift(height: nat, parentTime: nat, genesisTime: nat): int {
    parentTime - genesisTime - TARGET_BLOCK_SECONDS * (height - 1)
  }

  function Exponent(drift: int): int {
    TruncatedDiv(drift * RADIX, HALF_LIFE_SECONDS)
  }

  function Poly(frac: nat): nat {
    195_766_423_245_049 * frac + 971_821_376 * Times(frac, frac) + 5_127 * Times(Times(frac, frac),
            frac) + 0x8000_0000_0000
  }

  /** 65536 times 2 to the power `frac` / 65536, rounded. */
  function Factor(frac: nat): nat {
    Poly(frac) / 0x1_0000_0000_0000 + RADIX
  }

  function Clamped(n: nat, powLimit: Target): (t: nat)
    ensures 1 <= t <= powLimit
  {
    if n == 0 then 1 else if n > powLimit then powLimit else n
  }

  function TargetAt(exponent: int, params: Params): (t: nat)
    ensures 1 <= t <= params.powLimit
  {
    var shifts := exponent / RADIX;
    if shifts >= 256 then params.powLimit
    else if shifts <= -257 then 1
    else Clamped(Scale(params.initialTarget, Factor(exponent % RADIX), shifts), params.powLimit)
  }

  lemma TimesMonotone(a: nat, b: nat, c: nat, d: nat)
    requires a <= b && c <= d
    ensures Times(a, c) <= b * d
    ensures Times(a, c) <= Times(b, d)
  {
    TimesIs(a, c);
    TimesIs(b, d);
    MulBoth(a, b, c, d);
  }

  lemma FractionBounds(frac: nat)
    requires frac < RADIX
    ensures Times(frac, frac) <= 4_294_836_225 && Times(Times(frac, frac), frac) <= 281_462_092_005_375
  {
    TimesMonotone(frac, 65_535, frac, 65_535);
    TimesMonotone(Times(frac, frac), 4_294_836_225, frac, 65_535);
  }

  lemma PolynomialIsExact(frac: nat)
    requires frac < RADIX
    ensures Polynomial(frac) == Success(Poly(frac)) && Factor(frac) <= U64_MAX
  {
    FractionBounds(frac);
  }

  lemma DriftBounds(height: u64, parentTime: u64, genesisTime: u64)
    requires height >= 2
    ensures var drift := Drift(height, parentTime, genesisTime);
            -0x200 * 0x1_0000_0000_0000_0000 < drift < 0x1_0000_0000_0000_0000
  {
  }

  lemma ExponentBounds(drift: int)
    requires -0x200 * 0x1_0000_0000_0000_0000 < drift < 0x1_0000_0000_0000_0000
    ensures -0x800 * 0x1_0000_0000_0000_0000 < Exponent(drift) < 4 * 0x1_0000_0000_0000_0000
  {
  }

  /** For every height of at least 1 and all 64-bit times no check fails; the result is at least 1,
      and within the limit for the parameters of a node. */
  lemma NeverFails(height: u64, parentTime: u64, genesisTime: u64, params: Params)
    requires height >= 1
    ensures RequiredTarget(height, parentTime, genesisTime, params)
         == Success(if height == 1 then params.initialTarget
                    else TargetAt(Exponent(Drift(height, parentTime, genesisTime)), params))
    ensures ParamsOk(params) ==> RequiredTarget(height, parentTime, genesisTime, params).value <= params.powLimit
  {
    hide Polynomial, Poly, Scale;
    if height >= 2 {
      var drift := Drift(height, parentTime, genesisTime);
      DriftBounds(height, parentTime, genesisTime);
      ExponentBounds(drift);
      var exponent := Exponent(drift);
      var frac := exponent % RADIX;
      assert exponent - exponent / RADIX * RADIX == frac;
      PolynomialIsExact(frac);
    }
  }

  lemma {:induction false} Pow2Sum(a: nat, b: nat)
    ensures Pow2(a + b) == Pow2(a) * Pow2(b)
  {
    if a > 0 {
      Pow2Sum(a - 1, b);
    }
  }

  // ----- Monotonicity -----

  lemma PolyMonotone(f: nat, g: nat)
    requires f <= g
    ensures Poly(f) <= Poly(g)
  {
    TimesMonotone(f, g, f, g);
    TimesMonotone(Times(f, f), Times(g, g), f, g);
  }

  /** The factor grows with the fraction and stays within one doubling. */
  lemma FactorMonotone(f: nat, g: nat)
    requires f <= g < RADIX
    ensures RADIX <= Factor(f) <= Factor(g) <= 2 * RADIX
  {
    hide Times;
    PolyMonotone(f, g);
    FractionBounds(g);
    DivMonotone(Poly(f), Poly(g), 0x1_0000_0000_0000);
  }

  /** A shifted target as one division over a common denominator. */
  lemma ScaleIs(target: nat, factor: nat, shifts: int, m: nat)
    requires shifts + m >= 0
    ensures Scale(target, factor, shifts) == (target * factor * Pow2(shifts + m)) / (Pow2(m) * RADIX)
  {
    hide Pow2, Times;
    var x := target * factor;
    TimesIs(target, factor);
    if shifts >= 0 {
      Pow2Sum(shifts, m);
      TimesIs(x, Pow2(shifts));
      Associates(x, Pow2(shifts), Pow2(m));
      DivCancel(x * Pow2(shifts), RADIX, Pow2(m));
    } else {
      var a := -shifts;
      Pow2Sum(a, m - a);
      DivDiv(x, Pow2(a), RADIX);
      DivCancel(x, Pow2(a) * RADIX, Pow2(m - a));
      Associates(RADIX, Pow2(a), Pow2(m - a));
    }
  }

  lemma {:induction false} Pow2Grows(a: nat, b: nat)
    requires a < b
    ensures 2 * Pow2(a) <= Pow2(b)
  {
    if a + 1 < b {
      Pow2Grows(a, b - 1);
    }
  }

  lemma Regroup(t: nat, g: nat, p: nat)
    ensures t * (2 * g) * p == t * g * (2 * p)
  {
  }

  lemma NumeratorMonotone(target: nat, f: nat, g: nat, a: nat, b: nat)
    requires RADIX <= g && f <= 2 * RADIX
    requires (a == b && f <= g) || a < b
    ensures target * f * Pow2(a) <= target * g * Pow2(b)
  {
    hide Pow2;
    if a == b {
      MulBoth(target, target, f, g);
      MulBoth(target * f, target * g, Pow2(a), Pow2(a));
    } else {
      Pow2Grows(a, b);
      MulBoth(target, target, f, 2 * g);
      MulBoth(target * f, target * (2 * g), Pow2(a), Pow2(a));
      MulBoth(target * g, target * g, 2 * Pow2(a), Pow2(b));
      Regroup(target, g, Pow2(a));
    }
  }

  lemma ScaleMonotone(target: nat, f: nat, g: nat, s: int, t: int)
    requires RADIX <= g && f <= 2 * RADIX
    requires (s == t && f <= g) || s < t
    ensures Scale(target, f, s) <= Scale(target, g, t)
  {
    hide Scale, Pow2;
    var m: nat := if s < 0 then -s else 0;
    ScaleIs(target, f, s, m);
    ScaleIs(target, g, t, m);
    NumeratorMonotone(target, f, g, s + m, t + m);
    DivMonotone(target * f * Pow2(s + m), target * g * Pow2(t + m), Pow2(m) * RADIX);
  }

  /** Across the shift boundary too: a larger exponent never gives a smaller target. */
  lemma TargetMonotone(e: int, f: int, params: Params)
    requires e <= f
    ensures TargetAt(e, params) <= TargetAt(f, params)
  {
    hide Scale, Factor;
    var s, t := e / RADIX, f / RADIX;
    assert s <= t && (s == t ==> e % RADIX <= f % RADIX);
    if -257 < s && t < 256 {
      FactorMonotone(e % RADIX, e % RADIX);
      FactorMonotone(f % RADIX, f % RADIX);
      if s == t {
        FactorMonotone(e % RADIX, f % RADIX);
      }
      ScaleMonotone(params.initialTarget, Factor(e % RADIX), Factor(f % RADIX), s, t);
    }
  }

  lemma ExponentMonotone(d: int, e: int)
    requires d <= e
    ensures Exponent(d) <= Exponent(e)
  {
  }

  /** Both computations succeed, the second with a target at least as large. */
  predicate NoHarder(a: Result<Target, ConsensusError>, b: Result<Target, ConsensusError>) {
    a.Success? && b.Success? && a.value <= b.value
  }

  /** A later parent never makes the next block harder. */
  lemma RequiredTargetMonotone(height: u64, early: u64, late: u64, genesisTime: u64, params: Params)
    requires height >= 1 && early <= late
    ensures NoHarder(RequiredTarget(height, early, genesisTime, params),
                     RequiredTarget(height, late, genesisTime, params))
  {
    hide RequiredTarget, TargetAt, Exponent;
    NeverFails(height, early, genesisTime, params);
    NeverFails(height, late, genesisTime, params);
    var d, e := Drift(height, early, genesisTime), Drift(height, late, genesisTime);
    ExponentMonotone(d, e);
    TargetMonotone(Exponent(d), Exponent(e), params);
  }

  lemma NoFraction()
    ensures Factor(0) == RADIX
  {
  }

  /** At exponent 0 the target is the initial one. */
  lemma InitialKept(params: Params)
    requires ParamsOk(params)
    ensures Exponent(0) == 0 && TargetAt(0, params) == params.initialTarget
  {
    hide Times;
    NoFraction();
    TimesIs(params.initialTarget, RADIX);
    TimesIs(params.initialTarget * RADIX, 1);
    assert Scale(params.initialTarget, RADIX, 0) == params.initialTarget;
  }

  /** Exactly on schedule the initial target is kept. */
  lemma OnSchedule(height: u64, parentTime: u64, genesisTime: u64, params: Params)
    requires height >= 1 && ParamsOk(params)
    requires parentTime == genesisTime + TARGET_BLOCK_SECONDS * (height - 1)
    ensures RequiredTarget(height, parentTime, genesisTime, params) == Success(params.initialTarget)
  {
    hide RequiredTarget, TargetAt, Exponent;
    NeverFails(height, parentTime, genesisTime, params);
    InitialKept(params);
  }

  lemma Pow2Fifteen()
    ensures Pow2(0) == 1 && Pow2(15) == 32_768
  {
    Pow2Sum(5, 5);
    Pow2Sum(5, 10);
    assert Pow2(5) == 32;
  }

  /** Fifteen doublings down, 8064 blocks of the initial target weigh less than one. */
  lemma FifteenHalvings(params: Params)
    requires params.initialTarget >= 16_384
    ensures 8_064 * (TargetAt(-15 * RADIX, params) + 1) <= params.initialTarget + 1
  {
    hide Scale, Factor, Pow2;
    var t: nat := params.initialTarget;
    NoFraction();
    Pow2Fifteen();
    ScaleIs(t, RADIX, -15, 15);
    DivCancel(t, 32_768, RADIX);
    assert Scale(t, RADIX, -15) == t / 32_768;
  }

  // ----- The half-life law -----

  predicate ShiftsWhole(drift: int) {
    drift >= 0 || drift <= -HALF_LIFE_SECONDS || (drift * RADIX) % HALF_LIFE_SECONDS == 0
  }

  lemma ShiftedQuotient(n: nat, k: nat)
    ensures (n + HALF_LIFE_SECONDS * k) / HALF_LIFE_SECONDS == n / HALF_LIFE_SECONDS + k
  {
    QuotientIs(n + HALF_LIFE_SECONDS * k, HALF_LIFE_SECONDS, n / HALF_LIFE_SECONDS + k);
  }

  lemma MixedQuotient(p: int, k: nat)
    requires 0 <= p <= HALF_LIFE_SECONDS * k
    ensures (HALF_LIFE_SECONDS * k - p) / HALF_LIFE_SECONDS == k - p / HALF_LIFE_SECONDS <==> p % HALF_LIFE_SECONDS == 0
    ensures p % HALF_LIFE_SECONDS == 0 <==> (-p) % HALF_LIFE_SECONDS == 0
  {
    var q, r := p / HALF_LIFE_SECONDS, p % HALF_LIFE_SECONDS;
    assert p == HALF_LIFE_SECONDS * q + r;
    if r == 0 {
      QuotientIs(HALF_LIFE_SECONDS * k - p, HALF_LIFE_SECONDS, k - q);
    } else {
      QuotientIs(HALF_LIFE_SECONDS * k - p, HALF_LIFE_SECONDS, k - q - 1);
    }
  }

  /** One half-life more raises the exponent by exactly one doubling, unless rounding toward zero
      gets in the way: that happens precisely for drifts strictly inside the last half-life before
      the schedule that are not a whole number of exponent steps. */
  lemma HalfLifeShift(drift: int)
    ensures Exponent(drift + HALF_LIFE_SECONDS) == Exponent(drift) + RADIX
       <==> ShiftsWhole(drift)
  {
    var n := drift * RADIX;
    if drift >= 0 {
      ShiftedQuotient(n, RADIX);
    } else if drift <= -HALF_LIFE_SECONDS {
      ShiftedQuotient(-n - HALF_LIFE_SECONDS * RADIX, RADIX);
    } else {
      MixedQuotient(-n, RADIX);
    }
  }

  lemma HalfLifeShiftCanFail()
    ensures Exponent(-1 + HALF_LIFE_SECONDS) != Exponent(-1) + RADIX
  {
  }

  lemma Doubled(a: nat, b: nat)
    requires b > 0
    ensures 2 * (a / b) <= (2 * a) / b <= 2 * (a / b) + 1
  {
    QuotientBounds(a, b);
    QuotientBounds(2 * a, b);
    var q, d := a / b, (2 * a) / b;
    assert b * (2 * q) <= 2 * a < b * (2 * q + 2);
    if d < 2 * q {
      MulMonotone(d + 1, 2 * q, b);
    } else if d > 2 * q + 1 {
      MulMonotone(2 * q + 2, d, b);
    }
  }

  /** One doubling of the exponent doubles the scaled target, up to the bit that shifting drops. */
  lemma DoublingLaw(target: nat, factor: nat, shifts: int)
    ensures 2 * Scale(target, factor, shifts) <= Scale(target, factor, shifts + 1)
            <= 2 * Scale(target, factor, shifts) + 1
  {
    hide Scale;
    var m: nat := if shifts < 0 then -shifts else 0;
    ScaleIs(target, factor, shifts, m);
    ScaleIs(target, factor, shifts + 1, m);
    var a, b := target * factor * Pow2(shifts + m), Pow2(m) * RADIX;
    assert target * factor * Pow2(shifts + 1 + m) == 2 * a;
    Doubled(a, b);
  }

  function AtMost(n: nat, limit: nat): nat {
    if n > limit then limit else n
  }

  /** `b` is twice `a`, but for a dropped bit and the two clamps. */
  predicate Doubles(a: nat, b: nat, limit: nat) {
    b == AtMost(2 * a, limit) || b == AtMost(2 * a + 1, limit) || a == b == 1
  }

  lemma Pow2Small()
    ensures Pow2(0) == 1 && Pow2(1) == 2 && Pow2(16) == RADIX
  {
    assert Pow2(4) == 16;
    Pow2Sum(4, 4);
    Pow2Sum(8, 8);
  }

  lemma TopPowers()
    ensures Pow2(256) == U256_LIMIT && 2 * Pow2(255) == U256_LIMIT
  {
    hide Pow2;
    Pow2Small();
    Pow2Sum(16, 16);
    Pow2Sum(32, 32);
    Pow2Sum(64, 64);
    Pow2Sum(128, 128);
    Pow2Sum(1, 255);
  }

  lemma TinyProduct(target: Target, factor: nat)
    requires factor <= 2 * RADIX
    ensures target * factor <= U256_LIMIT * RADIX + (U256_LIMIT * RADIX - 1)
  {
    MulBoth(target, U256_LIMIT - 1, factor, 2 * RADIX);
  }

  /** Shifted down by all its bits a target is gone, but for one. */
  lemma ScaleTiny(target: Target, factor: nat)
    requires factor <= 2 * RADIX
    ensures Scale(target, factor, -256) <= 1
  {
    hide Scale, Pow2, Times;
    ScaleIs(target, factor, -256, 256);
    TopPowers();
    Pow2Small();
    TinyProduct(target, factor);
    var d := U256_LIMIT * RADIX;
    DivMonotone(target * factor, d + (d - 1), d);
  }

  /** Shifted up by 255 bits it has all of them. */
  lemma ScaleHuge(target: Target, factor: nat)
    requires factor >= RADIX
    ensures 2 * Scale(target, factor, 255) >= U256_LIMIT
  {
    hide Scale, Pow2, Times;
    ScaleIs(target, factor, 255, 0);
    TopPowers();
    Pow2Small();
    MulBoth(1, target, RADIX, factor);
    MulBoth(RADIX, target * factor, Pow2(255), Pow2(255));
    DivMonotone(RADIX * Pow2(255), target * factor * Pow2(255), RADIX);
    QuotientIs(RADIX * Pow2(255), RADIX, Pow2(255));
  }

  lemma TargetDoubles(exponent: int, params: Params)
    ensures Doubles(TargetAt(exponent, params), TargetAt(exponent + RADIX, params), params.powLimit)
  {
    hide Scale, Factor;
    var s, f := exponent / RADIX, Factor(exponent % RADIX);
    assert (exponent + RADIX) / RADIX == s + 1 && (exponent + RADIX) % RADIX == exponent % RADIX;
    FactorMonotone(exponent % RADIX, exponent % RADIX);
    if s == -257 {
      ScaleTiny(params.initialTarget, f);
    } else if s == 255 {
      ScaleHuge(params.initialTarget, f);
    } else if -257 < s < 255 {
      DoublingLaw(params.initialTarget, f, s);
    }
  }

  predicate DoublesTarget(a: Result<Target, ConsensusError>, b: Result<Target, ConsensusError>, limit: nat) {
    a.Success? && b.Success? && Doubles(a.value, b.value, limit)
  }

  /** One half-life later the required target has doubled, but for a dropped bit and the clamps,
      wherever the exponent is not rounded. */
  lemma HalfLifeDoubles(height: u64, parentTime: u64, genesisTime: u64, params: Params)
    requires height >= 2 && parentTime + HALF_LIFE_SECONDS <= U64_MAX
    requires ShiftsWhole(Drift(height, parentTime, genesisTime))
    ensures DoublesTarget(RequiredTarget(height, parentTime, genesisTime, params),
                          RequiredTarget(height, parentTime + HALF_LIFE_SECONDS, genesisTime, params), params.powLimit)
  {
    hide RequiredTarget, TargetAt, Exponent, Doubles, ShiftsWhole;
    NeverFails(height, parentTime, genesisTime, params);
    NeverFails(height, parentTime + HALF_LIFE_SECONDS, genesisTime, params);
    var drift := Drift(height, parentTime, genesisTime);
    HalfLifeShift(drift);
    TargetDoubles(Exponent(drift), params);
  }

  lemma LastFactors()
    ensures Factor(65_532) == 131_067 && Factor(65_533) == 131_068
  {
    hide Times;
    TimesIs(65_532, 65_532);
    TimesIs(4_294_443_024, 65_532);
    TimesIs(65_533, 65_533);
    TimesIs(4_294_574_089, 65_533);
  }

  /** It does not double one second before the schedule. */
  lemma HalfLifeCanMiss(genesisTime: u64)
    requires genesisTime + 21_899 <= U64_MAX
    ensures var params := Params(U256_LIMIT - 1, 2 * RADIX);
            !DoublesTarget(RequiredTarget(2, genesisTime + 299, genesisTime, params),
                           RequiredTarget(2, genesisTime + 21_899, genesisTime, params), params.powLimit)
  {
    hide RequiredTarget, Times, Factor, Pow2;
    var params := Params(U256_LIMIT - 1, 2 * RADIX);
    NeverFails(2, genesisTime + 299, genesisTime, params);
    NeverFails(2, genesisTime + 21_899, genesisTime, params);
    LastFactors();
    Pow2Small();
    TimesIs(2 * RADIX, 131_068);
    TimesIs(2 * RADIX, 131_067);
    TimesIs(2 * RADIX * 131_067, 1);
    assert Exponent(-1) == -3 && Exponent(21_599) == 65_532;
  }
}
