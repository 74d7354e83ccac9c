/** The execution weight meter: per-domain unit counters, rounded-up ratios, one shared budget. */
module WeightMetering {
  import opened Prelude
  import opened Arithmetic

  datatype Domain = Native | Evm | Wasm

  datatype Ratio = Ratio(numerator: u64, denominator: u64) {
    ghost predicate Ok() {
      numerator > 0 && denominator > 0
    }
  }

  datatype ResourceError =
    | UnsupportedVersion(version: u16) | InvalidRatio | InvalidBudget | WeightOverflow | WeightExhausted

  datatype Schedule = Schedule(native: Ratio, evm: Ratio, wasm: Ratio) {
    ghost predicate Ok() {
      native.Ok() && evm.Ok() && wasm.Ok()
    }

    function RatioOf(domain: Domain): (ratio: Ratio)
      requires Ok()
      ensures ratio.Ok()
    {
      match domain
      case Native => native
      case Evm => evm
      case Wasm => wasm
    }
  }

  /** Where the ratios of a schedule come from. */
  function NewRatio(numerator: u64, denominator: u64): (r: Result<Ratio, ResourceError>)
    ensures r.Success? <==> numerator > 0 && denominator > 0
    ensures r.Success? ==> r.value.Ok()
  {
    if numerator == 0 || denominator == 0 then Failure(InvalidRatio) else Success(Ratio(numerator, denominator))
  }

  /** The least whole number that is at least `units` times the ratio. */
  ghost function Ceiling(ratio: Ratio, units: nat): nat
    requires ratio.Ok()
  {
    (units * ratio.numerator + ratio.denominator - 1) / ratio.denominator
  }

  lemma RoundingUp(n: nat, d: nat)
    requires d > 0
    ensures (n + d - 1) / d == n / d + if n % d != 0 then 1 else 0
  {
    var q, r := n / d, n % d;
    assert n == d * q + r;
    if r == 0 {
      QuotientIs(n + d - 1, d, q);
    } else {
      assert d * (q + 1) == d * q + d;
      assert d * (q + 2) == d * q + 2 * d;
      QuotientIs(n + d - 1, d, q + 1);
    }
  }

  function NormalizedWeight(ratio: Ratio, units: u64): (r: Result<u64, ResourceError>)
    requires ratio.Ok()
    ensures Ceiling(ratio, units) <= U64_MAX ==> r == Success(Ceiling(ratio, units))
    ensures Ceiling(ratio, units) > U64_MAX ==> r == Failure(WeightOverflow)
  {
    var product := units * ratio.numerator;
    var quotient, remainder := product / ratio.denominator, product % ratio.denominator;
    var rounded := quotient + if remainder != 0 then 1 else 0;
    RoundingUp(product, ratio.denominator);
    if rounded > U64_MAX then Failure(WeightOverflow) else Success(rounded)
  }

  lemma CeilingIsLeast(ratio: Ratio, units: nat, w: nat)
    requires ratio.Ok()
    ensures Ceiling(ratio, units) <= w <==> units * ratio.numerator <= w * ratio.denominator
  {
    var n, d := units * ratio.numerator, ratio.denominator;
    var q := (n + d - 1) / d;
    QuotientBounds(n + d - 1, d);
    if q <= w {
      MulMonotone(q, w, d);
    } else {
      MulMonotone(w + 1, q, d);
    }
  }

  lemma CeilingMonotone(ratio: Ratio, a: nat, b: nat)
    requires ratio.Ok() && a <= b
    ensures Ceiling(ratio, a) <= Ceiling(ratio, b)
  {
    MulMonotone(a, b, ratio.numerator);
    var d := ratio.denominator;
    var m, n := a * ratio.numerator + d - 1, b * ratio.numerator + d - 1;
    assert d * (m / d) <= m && n < d * (n / d + 1);
    Compare(d, m / d, n / d, n);
  }

  // ----- The meter as a value -----

  datatype Meter = Meter(native: u64, evm: u64, wasm: u64, consumed: u64, exhausted: bool) {
    function Counter(domain: Domain): u64 {
      match domain
      case Native => native
      case Evm => evm
      case Wasm => wasm
    }

    function With(domain: Domain, units: u64): Meter {
      match domain
      case Native => this.(native := units)
      case Evm => this.(evm := units)
      case Wasm => this.(wasm := units)
    }
  }

  datatype Charge = Units(domain: Domain, units: u64) | Common(weight: u64)

  function Exhaust(meter: Meter, maxWeight: u64): Meter {
    meter.(consumed := maxWeight, exhausted := true)
  }

  function ChargeUnits(meter: Meter, schedule: Schedule, maxWeight: u64, domain: Domain, units: u64): Meter
    requires schedule.Ok() && meter.consumed <= maxWeight
  {
    if meter.exhausted || units == 0 then meter
    else if meter.Counter(domain) + units > U64_MAX then Exhaust(meter, maxWeight)
    else
      var before := NormalizedWeight(schedule.RatioOf(domain), meter.Counter(domain));
      var after := NormalizedWeight(schedule.RatioOf(domain), meter.Counter(domain) + units);
      if before.Failure? || after.Failure? then Exhaust(meter, maxWeight)
      else if after.value < before.value then Exhaust(meter, maxWeight)
      else if after.value - before.value > maxWeight - meter.consumed then Exhaust(meter, maxWeight)
      else meter.With(domain, meter.Counter(domain) + units).(consumed := meter.consumed + (after.value - before.value))
  }

  function ChargeCommon(meter: Meter, maxWeight: u64, weight: u64): Meter
    requires meter.consumed <= maxWeight
  {
    if meter.exhausted then meter
    else if weight > maxWeight - meter.consumed then Exhaust(meter, maxWeight)
    else meter.(consumed := meter.consumed + weight)
  }

  function Apply(meter: Meter, schedule: Schedule, maxWeight: u64, charge: Charge): (next: Meter)
    requires schedule.Ok() && meter.consumed <= maxWeight
    ensures meter.consumed <= next.consumed <= maxWeight
    ensures next.exhausted && !meter.exhausted ==> next.consumed == maxWeight
    ensures meter.exhausted ==> next == meter
  {
    match charge
    case Units(domain, units) => ChargeUnits(meter, schedule, maxWeight, domain, units)
    case Common(weight) => ChargeCommon(meter, maxWeight, weight)
  }

  function Started(intrinsic: u64): Meter {
    Meter(0, 0, 0, intrinsic, false)
  }

  function Run(intrinsic: u64, schedule: Schedule, maxWeight: u64, charges: seq<Charge>): (meter: Meter)
    requires schedule.Ok() && intrinsic <= maxWeight
    ensures intrinsic <= meter.consumed <= maxWeight
    ensures meter.exhausted ==> meter.consumed == maxWeight
  {
    if charges == [] then Started(intrinsic)
    else Apply(Run(intrinsic, schedule, maxWeight, charges[..|charges| - 1]), schedule, maxWeight,
               charges[|charges| - 1])
  }

  // ----- What a run has asked for -----

  ghost function UnitsOf(charges: seq<Charge>, domain: Domain): nat {
    if charges == [] then 0
    else UnitsOf(charges[..|charges| - 1], domain)
         + match charges[|charges| - 1]
           case Units(d, units) => if d == domain then units else 0
           case Common(_) => 0
  }

  ghost function CommonOf(charges: seq<Charge>): nat {
    if charges == [] then 0
    else CommonOf(charges[..|charges| - 1])
         + match charges[|charges| - 1]
           case Units(_, _) => 0
           case Common(weight) => weight
  }

  /** The weight of everything asked for, each domain rounded up once. */
  ghost function Asked(intrinsic: nat, schedule: Schedule, charges: seq<Charge>): nat
    requires schedule.Ok()
  {
    intrinsic + CommonOf(charges)
    + Ceiling(schedule.native, UnitsOf(charges, Native))
    + Ceiling(schedule.evm, UnitsOf(charges, Evm))
    + Ceiling(schedule.wasm, UnitsOf(charges, Wasm))
  }

  ghost predicate CountersFit(charges: seq<Charge>) {
    forall domain: Domain :: UnitsOf(charges, domain) <= U64_MAX
  }

  ghost predicate Affordable(intrinsic: nat, schedule: Schedule, maxWeight: nat, charges: seq<Charge>)
    requires schedule.Ok()
  {
    CountersFit(charges) && Asked(intrinsic, schedule, charges) <= maxWeight
  }

  lemma CeilingOfNothing(ratio: Ratio)
    requires ratio.Ok()
    ensures Ceiling(ratio, 0) == 0
  {
    QuotientIs(ratio.denominator - 1, ratio.denominator, 0);
  }

  lemma NothingAsked(schedule: Schedule, intrinsic: nat)
    requires schedule.Ok()
    ensures Asked(intrinsic, schedule, []) == intrinsic && CountersFit([])
  {
    CeilingOfNothing(schedule.native);
    CeilingOfNothing(schedule.evm);
    CeilingOfNothing(schedule.wasm);
  }

  /** The meter's state after an affordable run. */
  ghost predicate Tracks(meter: Meter, intrinsic: nat, schedule: Schedule, charges: seq<Charge>)
    requires schedule.Ok()
  {
    && !meter.exhausted
    && meter.consumed == Asked(intrinsic, schedule, charges)
    && meter.native == UnitsOf(charges, Native) && meter.evm == UnitsOf(charges, Evm)
       && meter.wasm == UnitsOf(charges, Wasm)
  }

  lemma FitsStep(charges: seq<Charge>, domain: Domain, units: u64)
    requires UnitsOf(charges, Native) <= U64_MAX && UnitsOf(charges, Evm) <= U64_MAX
             && UnitsOf(charges, Wasm) <= U64_MAX
    requires UnitsOf(charges, domain) + units <= U64_MAX
    ensures CountersFit(charges + [Units(domain, units)])
  {
    var all := charges + [Units(domain, units)];
    assert all[..|all| - 1] == charges;
    forall d: Domain
      ensures UnitsOf(all, d) <= U64_MAX
    {
      assert UnitsOf(all, d) == UnitsOf(charges, d) + if d == domain then units else 0;
      assert d == Native || d == Evm || d == Wasm;
    }
  }

  lemma AskedStep(intrinsic: nat, schedule: Schedule, charges: seq<Charge>, domain: Domain, units: u64)
    requires schedule.Ok()
    ensures var all := charges + [Units(domain, units)];
            var counter := UnitsOf(charges, domain);
            && UnitsOf(all, domain) == counter + units
            && (forall d: Domain | d != domain :: UnitsOf(all, d) == UnitsOf(charges, d))
            && Asked(intrinsic, schedule, all)
               == Asked(intrinsic, schedule, charges) + Ceiling(schedule.RatioOf(domain), counter + units)
                  - Ceiling(schedule.RatioOf(domain), counter)
  {
    hide Ceiling;
    var all := charges + [Units(domain, units)];
    assert all[..|all| - 1] == charges && all[|all| - 1] == Units(domain, units);
  }

  lemma UnitsStep(meter: Meter, intrinsic: u64, schedule: Schedule, maxWeight: u64, charges: seq<Charge>,
                  domain: Domain, units: u64)
    requires schedule.Ok() && Tracks(meter, intrinsic, schedule, charges) && meter.consumed <= maxWeight
    ensures var all := charges + [Units(domain, units)];
            var next := ChargeUnits(meter, schedule, maxWeight, domain, units);
            && (next.exhausted <==> !Affordable(intrinsic, schedule, maxWeight, all))
            && (!next.exhausted ==> Tracks(next, intrinsic, schedule, all))
  {
    hide Ceiling;
    var all := charges + [Units(domain, units)];
    AskedStep(intrinsic, schedule, charges, domain, units);
    var ratio, counter := schedule.RatioOf(domain), meter.Counter(domain);
    CeilingMonotone(ratio, counter, counter + units);
    assert UnitsOf(all, domain) == counter + units;
    if counter + units <= U64_MAX {
      FitsStep(charges, domain, units);
    } else {
      assert !CountersFit(all);
    }
  }

  lemma CommonTotals(charges: seq<Charge>, weight: u64)
    ensures var all := charges + [Common(weight)];
            CommonOf(all) == CommonOf(charges) + weight && forall d: Domain :: UnitsOf(all, d) == UnitsOf(charges, d)
  {
    var all := charges + [Common(weight)];
    assert all[..|all| - 1] == charges && all[|all| - 1] == Common(weight);
  }

  lemma CommonStep(meter: Meter, intrinsic: u64, schedule: Schedule, maxWeight: u64, charges: seq<Charge>, weight: u64)
    requires schedule.Ok() && Tracks(meter, intrinsic, schedule, charges) && meter.consumed <= maxWeight
             && CountersFit(charges)
    ensures var all := charges + [Common(weight)];
            var next := ChargeCommon(meter, maxWeight, weight);
            && (next.exhausted <==> !Affordable(intrinsic, schedule, maxWeight, all))
            && (!next.exhausted ==> Tracks(next, intrinsic, schedule, all))
  {
    hide Ceiling, UnitsOf, CommonOf;
    var all := charges + [Common(weight)];
    CommonTotals(charges, weight);
    assert CountersFit(all);
  }

  /** Asking for less was affordable too. */
  lemma PrefixAffordable(intrinsic: nat, schedule: Schedule, maxWeight: nat, charges: seq<Charge>)
    requires schedule.Ok() && charges != [] && Affordable(intrinsic, schedule, maxWeight, charges)
    ensures Affordable(intrinsic, schedule, maxWeight, charges[..|charges| - 1])
  {
    hide Ceiling;
    var front := charges[..|charges| - 1];
    forall d: Domain
      ensures UnitsOf(front, d) <= UnitsOf(charges, d) <= U64_MAX
    {
    }
    CeilingMonotone(schedule.native, UnitsOf(front, Native), UnitsOf(charges, Native));
    CeilingMonotone(schedule.evm, UnitsOf(front, Evm), UnitsOf(charges, Evm));
    CeilingMonotone(schedule.wasm, UnitsOf(front, Wasm), UnitsOf(charges, Wasm));
  }

  lemma RunStarts(intrinsic: u64, schedule: Schedule, maxWeight: u64)
    requires schedule.Ok() && intrinsic <= maxWeight
    ensures Affordable(intrinsic, schedule, maxWeight, []) && Tracks(Started(intrinsic), intrinsic, schedule, [])
  {
    NothingAsked(schedule, intrinsic);
  }

  lemma CountersFitNow(intrinsic: nat, schedule: Schedule, maxWeight: nat, charges: seq<Charge>)
    requires schedule.Ok() && Affordable(intrinsic, schedule, maxWeight, charges)
    ensures CountersFit(charges)
  {
  }

  /** A run is unexhausted if and only if everything it asked for, each domain rounded up once over
      its total, fits the budget and the counters; then the meter shows exactly that weight. */
  lemma {:induction false} RunIsExact(intrinsic: u64, schedule: Schedule, maxWeight: u64, charges: seq<Charge>)
    requires schedule.Ok() && intrinsic <= maxWeight
    ensures var meter := Run(intrinsic, schedule, maxWeight, charges);
            && (meter.exhausted <==> !Affordable(intrinsic, schedule, maxWeight, charges))
            && (!meter.exhausted ==> Tracks(meter, intrinsic, schedule, charges))
  {
    hide Ceiling, Tracks, Affordable, ChargeUnits, ChargeCommon;
    if charges == [] {
      RunStarts(intrinsic, schedule, maxWeight);
    } else {
      var front, last := charges[..|charges| - 1], charges[|charges| - 1];
      RunIsExact(intrinsic, schedule, maxWeight, front);
      var before := Run(intrinsic, schedule, maxWeight, front);
      assert charges == front + [last];
      if before.exhausted {
        if Affordable(intrinsic, schedule, maxWeight, charges) {
          PrefixAffordable(intrinsic, schedule, maxWeight, charges);
        }
      } else {
        match last
        case Units(domain, units) => UnitsStep(before, intrinsic, schedule, maxWeight, front, domain, units);
        case Common(weight) =>
          CountersFitNow(intrinsic, schedule, maxWeight, front);
          CommonStep(before, intrinsic, schedule, maxWeight, front, weight);
      }
    }
  }

  /** How a total is split into charges, and in which order, does not matter. */
  lemma SplitIndependent(intrinsic: u64, schedule: Schedule, maxWeight: u64, a: seq<Charge>, b: seq<Charge>)
    requires schedule.Ok() && intrinsic <= maxWeight
    requires CommonOf(a) == CommonOf(b) && forall domain: Domain :: UnitsOf(a, domain) == UnitsOf(b, domain)
    ensures var m, n := Run(intrinsic, schedule, maxWeight, a), Run(intrinsic, schedule, maxWeight, b);
            && m.exhausted == n.exhausted && m.consumed == n.consumed
            && (!m.exhausted ==> m == n)
  {
    hide Ceiling, Run;
    RunIsExact(intrinsic, schedule, maxWeight, a);
    RunIsExact(intrinsic, schedule, maxWeight, b);
  }

  /** Exhaustion is permanent and shows the whole budget. */
  lemma {:induction false} ExhaustionIsPermanent(intrinsic: u64, schedule: Schedule, maxWeight: u64,
                                                 charges: seq<Charge>, more: seq<Charge>)
    requires schedule.Ok() && intrinsic <= maxWeight && Run(intrinsic, schedule, maxWeight, charges).exhausted
    ensures Run(intrinsic, schedule, maxWeight, charges + more) == Run(intrinsic, schedule, maxWeight, charges)
    ensures Run(intrinsic, schedule, maxWeight, charges).consumed == maxWeight
    decreases more
  {
    if more == [] {
      assert charges + more == charges;
    } else {
      var front := more[..|more| - 1];
      ExhaustionIsPermanent(intrinsic, schedule, maxWeight, charges, front);
      assert (charges + more)[..|charges + more| - 1] == charges + front;
    }
  }

  // ----- The object -----

  class WeightMeter {
    const schedule: Schedule
    const maxWeight: u64
    const counters: array<u64>
    var consumed: u64
    var exhausted: bool

    ghost predicate Valid()
      reads this, counters
    {
      schedule.Ok() && counters.Length == 3 && consumed <= maxWeight && (exhausted ==> consumed == maxWeight)
    }

    ghost function View(): Meter
      requires Valid()
      reads this, counters
    {
      Meter(counters[0], counters[1], counters[2], consumed, exhausted)
    }

    constructor (schedule: Schedule, maxWeight: u64, intrinsic: u64)
      requires schedule.Ok() && intrinsic <= maxWeight
      ensures Valid() && fresh(counters) && this.schedule == schedule && this.maxWeight == maxWeight
      ensures View() == Started(intrinsic)
    {
      this.schedule, this.maxWeight := schedule, maxWeight;
      counters := new u64[3](_ => 0);
      consumed, exhausted := intrinsic, false;
    }

    static method Open(schedule: Schedule, maxWeight: u64, intrinsic: u64)
      returns (r: Result<WeightMeter, ResourceError>)
      requires schedule.Ok()
      ensures r.Failure? <==> maxWeight == 0 || intrinsic > maxWeight
      ensures r.Failure? ==> r.error == InvalidBudget
      ensures r.Success? ==>
                && fresh(r.value) && fresh(r.value.counters) && r.value.Valid()
                && r.value.schedule == schedule
                && r.value.maxWeight == maxWeight && r.value.View() == Started(intrinsic)
    {
      if maxWeight == 0 || intrinsic > maxWeight {
        return Failure(InvalidBudget);
      }
      var meter := new WeightMeter(schedule, maxWeight, intrinsic);
      return Success(meter);
    }

    static function IndexOf(domain: Domain): (i: nat)
      ensures i < 3
    {
      match domain
      case Native => 0
      case Evm => 1
      case Wasm => 2
    }

    method Drain() returns (r: Result<(), ResourceError>)
      requires Valid()
      modifies this
      ensures Valid() && View() == Exhaust(old(View()), maxWeight) && r == Failure(WeightExhausted)
    {
      consumed, exhausted := maxWeight, true;
      return Failure(WeightExhausted);
    }

    /** Charges a domain; the call fails exactly when the meter is exhausted afterwards. */
    method Take(domain: Domain, units: u64) returns (r: Result<(), ResourceError>)
      requires Valid()
      modifies this, counters
      ensures Valid() && View() == Apply(old(View()), schedule, maxWeight, Units(domain, units))
      ensures r == if exhausted then Failure(WeightExhausted) else Success(())
    {
      if exhausted {
        return Failure(WeightExhausted);
      }
      if units == 0 {
        return Success(());
      }
      var i := IndexOf(domain);
      if counters[i] + units > U64_MAX {
        r := Drain();
        return;
      }
      var before := NormalizedWeight(schedule.RatioOf(domain), counters[i]);
      var after := NormalizedWeight(schedule.RatioOf(domain), counters[i] + units);
      if before.Failure? || after.Failure? {
        r := Drain();
        return;
      }
      if after.value < before.value {
        r := Drain();
        return;
      }
      if after.value - before.value > maxWeight - consumed {
        r := Drain();
        return;
      }
      counters[i] := counters[i] + units;
      consumed := consumed + (after.value - before.value);
      return Success(());
    }

    method TakeCommon(weight: u64) returns (r: Result<(), ResourceError>)
      requires Valid()
      modifies this
      ensures Valid() && View() == Apply(old(View()), schedule, maxWeight, Common(weight))
      ensures r == if exhausted then Failure(WeightExhausted) else Success(())
    {
      if exhausted {
        return Failure(WeightExhausted);
      }
      if weight > maxWeight - consumed {
        r := Drain();
        return;
      }
      consumed := consumed + weight;
      return Success(());
    }
  }
}
