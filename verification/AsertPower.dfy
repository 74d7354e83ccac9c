/** The cubic of the difficulty target behaves like a power of two. */
module AsertPower {
  import opened Arithmetic
  import opened Asert

  // ----- Polynomials -----

  datatype Coefficients = Zero | Term(low: int, rest: Coefficients)

  function Value(p: Coefficients, x: int): int {
    if p.Zero? then 0 else p.low + x * Value(p.rest, x)
  }

  function Plus(p: Coefficients, q: Coefficients): Coefficients {
    if p.Zero? then q else if q.Zero? then p else Term(p.low + q.low, Plus(p.rest, q.rest))
  }

  function Scaled(k: int, p: Coefficients): Coefficients {
    if p.Zero? then Zero else Term(k * p.low, Scaled(k, p.rest))
  }

  function Product(p: Coefficients, q: Coefficients): Coefficients {
    if p.Zero? then Zero else Plus(Scaled(p.low, q), Term(0, Product(p.rest, q)))
  }

  /** `p` of `k * x`. */
  function Stretched(p: Coefficients, k: int): Coefficients {
    if p.Zero? then Zero else Term(p.low, Scaled(k, Stretched(p.rest, k)))
  }

  /** `p` of `x + h`. */
  function Moved(p: Coefficients, h: int): Coefficients {
    if p.Zero? then Zero
    else
      var rest := Moved(p.rest, h);
      if rest.Zero? then Term(p.low, Zero) else Plus(Term(p.low, rest), Scaled(h, rest))
  }

  lemma {:induction false} PlusIs(p: Coefficients, q: Coefficients, x: int)
    ensures Value(Plus(p, q), x) == Value(p, x) + Value(q, x)
  {
    if p.Term? && q.Term? {
      PlusIs(p.rest, q.rest, x);
      assert x * (Value(p.rest, x) + Value(q.rest, x)) == x * Value(p.rest, x) + x * Value(q.rest, x);
    }
  }

  lemma Swap(x: int, y: int, z: int)
    ensures x * (y * z) == y * (x * z)
  {
  }

  lemma {:induction false} ScaledIs(k: int, p: Coefficients, x: int)
    ensures Value(Scaled(k, p), x) == k * Value(p, x)
  {
    if p.Term? {
      ScaledIs(k, p.rest, x);
      Swap(x, k, Value(p.rest, x));
      assert k * (p.low + x * Value(p.rest, x)) == k * p.low + k * (x * Value(p.rest, x));
    }
  }

  lemma {:induction false} ProductIs(p: Coefficients, q: Coefficients, x: int)
    ensures Value(Product(p, q), x) == Value(p, x) * Value(q, x)
  {
    if p.Term? {
      ProductIs(p.rest, q, x);
      PlusIs(Scaled(p.low, q), Term(0, Product(p.rest, q)), x);
      ScaledIs(p.low, q, x);
      Associates(x, Value(p.rest, x), Value(q, x));
      Distributes(p.low, x * Value(p.rest, x), Value(q, x));
    }
  }

  lemma {:induction false} StretchedIs(p: Coefficients, k: int, x: int)
    ensures Value(Stretched(p, k), x) == Value(p, k * x)
  {
    if p.Term? {
      StretchedIs(p.rest, k, x);
      ScaledIs(k, Stretched(p.rest, k), x);
      Swap(x, k, Value(p.rest, k * x));
      Associates(k, x, Value(p.rest, k * x));
    }
  }

  lemma {:induction false} MovedIs(p: Coefficients, h: int, x: int)
    ensures Value(Moved(p, h), x) == Value(p, x + h)
  {
    if p.Term? {
      MovedIs(p.rest, h, x);
      var rest := Moved(p.rest, h);
      PlusIs(Term(p.low, rest), Scaled(h, rest), x);
      ScaledIs(h, rest, x);
      Distributes(x, h, Value(rest, x));
    }
  }

  // ----- Where a polynomial is not negative -----

  function Size(p: Coefficients): nat {
    if p.Zero? then 0 else 1 + Size(p.rest)
  }

  /** The quotient by `x - h`. */
  function Quotient(p: Coefficients, h: int): Coefficients {
    if p.Zero? || p.rest.Zero? then Zero else Term(Value(p.rest, h), Quotient(p.rest, h))
  }

  lemma {:induction false} QuotientShrinks(p: Coefficients, h: int)
    requires p.Term?
    ensures Size(Quotient(p, h)) == Size(p) - 1
  {
    if p.rest.Term? {
      QuotientShrinks(p.rest, h);
    }
  }

  lemma Rebuilt(x: int, h: int, v: int, q: int)
    ensures x * (v + (x - h) * q) == h * v + (x - h) * (v + x * q)
  {
    assert x * ((x - h) * q) == (x - h) * (x * q);
    assert x * v == h * v + (x - h) * v;
    assert (x - h) * (v + x * q) == (x - h) * v + (x - h) * (x * q);
    assert x * (v + (x - h) * q) == x * v + x * ((x - h) * q);
  }

  lemma {:induction false} Divides(p: Coefficients, h: int, x: int)
    ensures Value(p, x) == Value(p, h) + (x - h) * Value(Quotient(p, h), x)
  {
    if p.Term? && p.rest.Term? {
      Divides(p.rest, h, x);
      Rebuilt(x, h, Value(p.rest, h), Value(Quotient(p.rest, h), x));
    }
  }

  /** A lower bound of the values from `h` to `h + w`, by dividing up to `n` times. */
  function Least(p: Coefficients, h: int, w: nat, n: nat): int
    decreases n
  {
    if n == 0 || p.Zero? then 0
    else
      var rest := Least(Quotient(p, h), h, w, n - 1);
      Value(p, h) + if rest < 0 then rest * w else 0
  }

  lemma AtLeastStep(d: nat, w: nat, value: int, least: int)
    requires d <= w && value >= least
    ensures d * value >= if least < 0 then least * w else 0
  {
    if value < 0 {
      MulMonotone(d, w, -value);
      MulMonotone(-value, -least, w);
    }
  }

  lemma {:induction false} AtLeast(p: Coefficients, h: int, w: nat, n: nat, x: int)
    requires h <= x <= h + w && Size(p) <= n
    ensures Value(p, x) >= Least(p, h, w, n)
    decreases n
  {
    if p.Term? {
      QuotientShrinks(p, h);
      AtLeast(Quotient(p, h), h, w, n - 1, x);
      Divides(p, h, x);
      AtLeastStep(x - h, w, Value(Quotient(p, h), x), Least(Quotient(p, h), h, w, n - 1));
    }
  }

  // ----- The cubic -----

  /** 2 to the 64th times 2 to the power `x` / 65536, nearly. */
  function Curve(): Coefficients {
    Term(0x1_0000_0000_0000_0000, Term(195_766_423_245_049, Term(971_821_376, Term(5_127, Zero))))
  }

  /** The curve at `2 * x`, times `m`. */
  function Twice(m: int): Coefficients {
    Scaled(m, Stretched(Curve(), 2))
  }

  function Above(square: Coefficients, twice: Coefficients): Coefficients {
    Plus(Scaled(3_271, twice), Scaled(-3_270, square))
  }

  function Below(square: Coefficients, twice: Coefficients): Coefficients {
    Plus(Scaled(3_270, square), Scaled(-3_269, twice))
  }

  function EarlyAbove(): Coefficients {
    Term(340_282_366_920_938_463_463_374_607_431_768_211_456,
         Term(7_222_506_215_653_846_898_633_282_963_898_368,
              Term(-8_007_193_653_441_371_191_912_534_728_166,
                   Term(612_111_729_289_642_868_079_380_736,
                        Term(-9_652_470_008_933_219_237_940,
                             Term(-32_585_734_393_678_080, Term(-85_955_641_830, Zero)))))))
  }

  function EarlyBelow(): Coefficients {
    Term(340_282_366_920_938_463_463_374_607_431_768_211_456,
         Term(7_222_506_215_653_846_898_633_282_963_898_368,
              Term(8_150_609_175_108_829_286_918_967_877_094,
                   Term(-610_598_505_979_788_326_141_217_024,
                        Term(9_652_470_008_933_219_237_940,
                             Term(32_585_734_393_678_080, Term(85_955_641_830, Zero)))))))
  }

  function LateAbove(): Coefficients {
    Term(1_045_983_876_970_865_132_506_850_226_407_821_279_232,
         Term(169_234_986_678_351_500_925_321_931_927_453_696,
              Term(-31_705_510_110_828_999_970_672_108_461_542,
                   Term(1_411_447_338_997_755_092_409_829_632,
                        Term(-16_375_729_246_617_959_333_940,
                             Term(-49_485_301_222_590_720, Term(-85_955_641_830, Zero)))))))
  }

  function LateBelow(): Coefficients {
    Term(315_145_590_712_888_721_346_648_203_319_251_566_592,
         Term(-140_344_961_815_736_113_330_788_800_071_860_224,
              Term(31_992_341_154_163_916_160_684_974_759_398,
                   Term(-1_408_420_892_378_046_008_533_502_208,
                        Term(16_375_729_246_617_959_333_940,
                             Term(49_485_301_222_590_720, Term(85_955_641_830, Zero)))))))
  }

  lemma EarlyPolynomials()
    ensures EarlyAbove() == Above(Product(Curve(), Curve()), Twice(0x1_0000_0000_0000_0000))
    ensures EarlyBelow() == Below(Product(Curve(), Curve()), Twice(0x1_0000_0000_0000_0000))
  {
  }

  lemma LatePolynomials()
    ensures LateAbove() == Above(Product(Moved(Curve(), 32_768), Moved(Curve(), 32_768)),
                                 Twice(0x2_0000_0000_0000_0000))
    ensures LateBelow() == Below(Product(Moved(Curve(), 32_768), Moved(Curve(), 32_768)),
                                 Twice(0x2_0000_0000_0000_0000))
  {
  }

  // ----- Each on pieces that cover the first half of the radix -----

  lemma EarlyAboveFirst()
    ensures Least(EarlyAbove(), 0, 6_912, 7) >= 0
  {
  }

  lemma EarlyAboveSecond()
    ensures Least(EarlyAbove(), 6_912, 6_400, 7) >= 0
  {
  }

  lemma EarlyAboveThird()
    ensures Least(EarlyAbove(), 13_312, 19_456, 7) >= 0
  {
  }

  lemma EarlyAboveHolds(x: nat)
    requires x <= 32_768
    ensures Value(EarlyAbove(), x) >= 0
  {
    hide Least, Value;
    if x <= 6_912 {
      EarlyAboveFirst();
      AtLeast(EarlyAbove(), 0, 6_912, 7, x);
    } else if x <= 13_312 {
      EarlyAboveSecond();
      AtLeast(EarlyAbove(), 6_912, 6_400, 7, x);
    } else {
      EarlyAboveThird();
      AtLeast(EarlyAbove(), 13_312, 19_456, 7, x);
    }
  }

  lemma EarlyBelowFirst()
    ensures Least(EarlyBelow(), 0, 16_128, 7) >= 0
  {
  }

  lemma EarlyBelowSecond()
    ensures Least(EarlyBelow(), 16_128, 8_960, 7) >= 0
  {
  }

  lemma EarlyBelowThird()
    ensures Least(EarlyBelow(), 25_088, 3_072, 7) >= 0
  {
  }

  lemma EarlyBelowFourth()
    ensures Least(EarlyBelow(), 28_160, 4_608, 7) >= 0
  {
  }

  lemma EarlyBelowHolds(x: nat)
    requires x <= 32_768
    ensures Value(EarlyBelow(), x) >= 0
  {
    hide Least, Value;
    if x <= 16_128 {
      EarlyBelowFirst();
      AtLeast(EarlyBelow(), 0, 16_128, 7, x);
    } else if x <= 25_088 {
      EarlyBelowSecond();
      AtLeast(EarlyBelow(), 16_128, 8_960, 7, x);
    } else if x <= 28_160 {
      EarlyBelowThird();
      AtLeast(EarlyBelow(), 25_088, 3_072, 7, x);
    } else {
      EarlyBelowFourth();
      AtLeast(EarlyBelow(), 28_160, 4_608, 7, x);
    }
  }

  lemma LateAboveFirst()
    ensures Least(LateAbove(), 0, 8_960, 7) >= 0
  {
  }

  lemma LateAboveSecond()
    ensures Least(LateAbove(), 8_960, 7_424, 7) >= 0
  {
  }

  lemma LateAboveThird()
    ensures Least(LateAbove(), 16_384, 6_912, 7) >= 0
  {
  }

  lemma LateAboveFourth()
    ensures Least(LateAbove(), 23_296, 9_472, 7) >= 0
  {
  }

  lemma LateAboveHolds(x: nat)
    requires x <= 32_768
    ensures Value(LateAbove(), x) >= 0
  {
    hide Least, Value;
    if x <= 8_960 {
      LateAboveFirst();
      AtLeast(LateAbove(), 0, 8_960, 7, x);
    } else if x <= 16_384 {
      LateAboveSecond();
      AtLeast(LateAbove(), 8_960, 7_424, 7, x);
    } else if x <= 23_296 {
      LateAboveThird();
      AtLeast(LateAbove(), 16_384, 6_912, 7, x);
    } else {
      LateAboveFourth();
      AtLeast(LateAbove(), 23_296, 9_472, 7, x);
    }
  }

  lemma LateBelowFirst()
    ensures Least(LateBelow(), 0, 2_048, 7) >= 0
  {
  }

  lemma LateBelowSecond()
    ensures Least(LateBelow(), 2_048, 5_632, 7) >= 0
  {
  }

  lemma LateBelowThird()
    ensures Least(LateBelow(), 7_680, 17_152, 7) >= 0
  {
  }

  lemma LateBelowFourth()
    ensures Least(LateBelow(), 24_832, 7_936, 7) >= 0
  {
  }

  lemma LateBelowHolds(x: nat)
    requires x <= 32_768
    ensures Value(LateBelow(), x) >= 0
  {
    hide Least, Value;
    if x <= 2_048 {
      LateBelowFirst();
      AtLeast(LateBelow(), 0, 2_048, 7, x);
    } else if x <= 7_680 {
      LateBelowSecond();
      AtLeast(LateBelow(), 2_048, 5_632, 7, x);
    } else if x <= 24_832 {
      LateBelowThird();
      AtLeast(LateBelow(), 7_680, 17_152, 7, x);
    } else {
      LateBelowFourth();
      AtLeast(LateBelow(), 24_832, 7_936, 7, x);
    }
  }

  // ----- The curve and its double -----

  const UNIT := 0x1_0000_0000_0000
  const ONE := 0x1_0000_0000_0000_0000

  ghost function At(x: int): int {
    Value(Curve(), x)
  }

  lemma MixedIs(j: int, square: Coefficients, k: int, twice: Coefficients, x: int)
    ensures Value(Plus(Scaled(j, square), Scaled(k, twice)), x) == j * Value(square, x) + k * Value(twice, x)
  {
    PlusIs(Scaled(j, square), Scaled(k, twice), x);
    ScaledIs(j, square, x);
    ScaledIs(k, twice, x);
  }

  lemma TwiceIs(m: int, x: int)
    ensures Value(Twice(m), x) == m * At(2 * x)
  {
    hide Curve, Value;
    ScaledIs(m, Stretched(Curve(), 2), x);
    StretchedIs(Curve(), 2, x);
  }

  /** `square` is `twice`, within one part in 3270. */
  ghost predicate Near(square: int, twice: int) {
    3_269 * twice <= 3_270 * square <= 3_271 * twice
  }

  lemma EarlyPower(x: nat)
    requires x <= 32_768
    ensures Near(At(x) * At(x), ONE * At(2 * x))
  {
    hide Value, Curve, Product, Twice, EarlyAbove, EarlyBelow;
    var square, twice := Product(Curve(), Curve()), Twice(ONE);
    EarlyPolynomials();
    EarlyAboveHolds(x);
    EarlyBelowHolds(x);
    MixedIs(3_271, twice, -3_270, square, x);
    MixedIs(3_270, square, -3_269, twice, x);
    ProductIs(Curve(), Curve(), x);
    TwiceIs(ONE, x);
  }

  lemma LatePower(x: nat)
    requires x <= 32_768
    ensures Near(At(x + 32_768) * At(x + 32_768), 2 * ONE * At(2 * x))
  {
    hide Value, Curve, Product, Twice, LateAbove, LateBelow, Moved;
    var late := Moved(Curve(), 32_768);
    var square, twice := Product(late, late), Twice(2 * ONE);
    LatePolynomials();
    LateAboveHolds(x);
    LateBelowHolds(x);
    MixedIs(3_271, twice, -3_270, square, x);
    MixedIs(3_270, square, -3_269, twice, x);
    ProductIs(late, late, x);
    MovedIs(Curve(), 32_768, x);
    TwiceIs(2 * ONE, x);
  }

  // ----- The rounded factor -----

  lemma Cubic(a: int, b: int, c: int, x: int)
    ensures x * (a + x * (b + x * c)) == a * x + b * (x * x) + c * (x * x * x)
  {
    assert x * (b + x * c) == b * x + c * (x * x);
    assert x * (a + (b * x + c * (x * x))) == a * x + b * (x * x) + c * (x * x * x);
  }

  lemma ValueOf(low: int, rest: Coefficients, x: int)
    ensures Value(Term(low, rest), x) == low + x * Value(rest, x)
    ensures Value(Zero, x) == 0
  {
  }

  lemma CurveValue(x: int)
    ensures At(x) == ONE + x * (195_766_423_245_049 + x * (971_821_376 + x * 5_127))
  {
    hide Value;
    var cubic := Term(5_127, Zero);
    var square := Term(971_821_376, cubic);
    var line := Term(195_766_423_245_049, square);
    ValueOf(5_127, Zero, x);
    ValueOf(971_821_376, cubic, x);
    ValueOf(195_766_423_245_049, square, x);
    ValueOf(ONE, line, x);
  }

  lemma CurveIs(x: nat)
    ensures At(x) == Poly(x) + ONE - 0x8000_0000_0000
  {
    hide Times;
    TimesIs(x, x);
    TimesIs(x * x, x);
    Cubic(195_766_423_245_049, 971_821_376, 5_127, x);
    CurveValue(x);
  }

  /** The factor is the curve, rounded. */
  lemma FactorRounds(x: nat)
    ensures -0x8000_0000_0000 <= UNIT * Factor(x) - At(x) <= 0x8000_0000_0000
    ensures At(x) >= ONE
  {
    hide Times;
    CurveIs(x);
    QuotientBounds(Poly(x), UNIT);
  }

  lemma SquareOfSum(g: nat, e: int)
    requires g >= 0x1_0000_0000_0000_0000 && -0x8000_0000_0000 <= e <= 0x8000_0000_0000
    ensures g * g - UNIT * g <= (g + e) * (g + e) <= g * g + UNIT * g + 0x4000_0000_0000 * UNIT
    ensures g * g >= ONE * g
  {
    assert (g + e) * (g + e) == g * g + 2 * (e * g) + e * e;
    MulMonotone(e, 0x8000_0000_0000, g);
    MulMonotone(-0x8000_0000_0000, e, g);
    MulMonotone(ONE, g, g);
    if e >= 0 {
      MulBoth(e, 0x8000_0000_0000, e, 0x8000_0000_0000);
    } else {
      MulBoth(-e, 0x8000_0000_0000, -e, 0x8000_0000_0000);
      assert (-e) * (-e) == e * e;
    }
  }

  lemma Margins(g: int, square: int, shaken: int, twice: int, rounded: int)
    requires g >= ONE && square >= ONE * g && Near(square, twice)
    requires square - UNIT * g <= shaken <= square + UNIT * g + 0x4000_0000_0000 * UNIT
    requires -715 * UNIT * g <= 1_000 * (rounded - twice) <= 715 * UNIT * g
    ensures 2_999 * rounded <= 3_000 * shaken <= 3_001 * rounded
  {
  }

  /** Rounding both sides leaves one part in 3000. */
  lemma Rounded(g: nat, e: int, twice: int, rounded: int)
    requires g >= ONE && -0x8000_0000_0000 <= e <= 0x8000_0000_0000 && Near(g * g, twice)
    requires -715 * UNIT * g <= 1_000 * (rounded - twice) <= 715 * UNIT * g
    ensures 2_999 * rounded <= 3_000 * ((g + e) * (g + e)) <= 3_001 * rounded
  {
    SquareOfSum(g, e);
    Margins(g, g * g, (g + e) * (g + e), twice, rounded);
  }

  /** `square` is `twice`, within one part in 3000. */
  ghost predicate Close(square: int, twice: int) {
    2_999 * twice <= 3_000 * square <= 3_001 * twice
  }

  lemma Unscaled(k: nat, square: int, twice: int)
    requires k > 0 && Close(k * square, k * twice)
    ensures Close(square, twice)
  {
    if 2_999 * twice > 3_000 * square {
      MulStrict(3_000 * square, 2_999 * twice, k);
    }
    if 3_000 * square > 3_001 * twice {
      MulStrict(3_001 * twice, 3_000 * square, k);
    }
  }

  lemma SquareOfProduct(k: int, f: int)
    ensures (k * f) * (k * f) == k * k * (f * f)
  {
  }

  lemma HalfwayAt(x: nat)
    requires x >= 32_768
    ensures At(x) >= 26_085_493_763_171_188_736
  {
    hide Times;
    CurveIs(x);
    CurveIs(32_768);
    PolyMonotone(32_768, x);
    TimesIs(32_768, 32_768);
    TimesIs(32_768 * 32_768, 32_768);
  }

  /** The factor at `f` twice: the factor at `2 * f`, or past the radix the doubled factor at what is
      left. */
  ghost function FactorOfTwice(f: nat): nat {
    if 2 * f < RADIX then RADIX * Factor(2 * f) else 2 * RADIX * Factor(2 * f - RADIX)
  }

  lemma EarlyFactor(f: nat)
    requires f <= 32_768
    ensures Close(Factor(f) * Factor(f), RADIX * Factor(2 * f))
  {
    hide Factor, At, Near;
    EarlyPower(f);
    FactorRounds(f);
    FactorRounds(2 * f);
    var e := UNIT * Factor(f) - At(f);
    Rounded(At(f), e, ONE * At(2 * f), ONE * (UNIT * Factor(2 * f)));
    SquareOfProduct(UNIT, Factor(f));
    Unscaled(UNIT * UNIT, Factor(f) * Factor(f), RADIX * Factor(2 * f));
  }

  lemma LateFactor(f: nat)
    requires f <= 32_768
    ensures Close(Factor(f + 32_768) * Factor(f + 32_768), 2 * RADIX * Factor(2 * f))
  {
    hide Factor, At, Near;
    LatePower(f);
    FactorRounds(f + 32_768);
    FactorRounds(2 * f);
    HalfwayAt(f + 32_768);
    var e := UNIT * Factor(f + 32_768) - At(f + 32_768);
    Rounded(At(f + 32_768), e, 2 * ONE * At(2 * f), 2 * ONE * (UNIT * Factor(2 * f)));
    SquareOfProduct(UNIT, Factor(f + 32_768));
    Unscaled(UNIT * UNIT, Factor(f + 32_768) * Factor(f + 32_768), 2 * RADIX * Factor(2 * f));
  }

  /** The factor is a power of two: for every fraction its square is the factor of twice the fraction,
      within one part in 3000. */
  lemma FactorIsPower(f: nat)
    requires f < RADIX
    ensures Close(Factor(f) * Factor(f), FactorOfTwice(f))
  {
    hide Factor, Close;
    if 2 * f < RADIX {
      EarlyFactor(f);
    } else {
      LateFactor(f - 32_768);
    }
  }
}
