/** What one request is estimated to cost on a tuple (gpucall/costing.py). Floats are reals. */
module Costing {
  import opened Wrappers

  datatype Surface = IaasVm | ManagedEndpoint | FunctionRuntime | LocalRuntime | OtherSurface

  datatype BillingModel =
    | VmLease | RunpodManagedEndpoint | RunpodFunction | FunctionBilling | LocalBilling | GenericBilling

  datatype Spec = Spec(
    adapter: string, surface: Surface, costPerSecond: real,
    coldStart: Option<nat>, expectedRuntime: Option<real>,
    prefillRate: Option<real>, decodeRate: Option<real>, overhead: Option<real>, multiplier: Option<real>,
    scaledown: Option<real>, minBillable: Option<real>, granularity: Option<real>,
    standingRate: Option<real>, standingWindow: Option<real>, endpointRate: Option<real>, endpointWindow: Option<real>)

  /** What the two estimate fallbacks read of a recipe. */
  datatype Defaults = Defaults(coldStart: Option<nat>, expectedRuntime: Option<real>)

  datatype Estimate = Estimate(cold: real, runtime: real, idle: real, raw: real, billable: real,
                               coldCost: real, runtimeCost: real, idleCost: real,
                               marginal: real, fixed: real, total: real, reservation: real)

  predicate Amount(x: Option<real>) { x.Some? ==> x.value >= 0.0 }

  /** The non-negativity the specification types enforce. */
  predicate SpecOk(s: Spec) {
    && s.costPerSecond >= 0.0
    && Amount(s.expectedRuntime) && Amount(s.prefillRate) && Amount(s.decodeRate) && Amount(s.overhead)
    && Amount(s.multiplier) && Amount(s.scaledown) && Amount(s.minBillable) && Amount(s.granularity)
    && Amount(s.standingRate) && Amount(s.standingWindow) && Amount(s.endpointRate) && Amount(s.endpointWindow)
  }

  /** `x or 0` */
  function OrZero(x: Option<real>): real { if x.Some? then x.value else 0.0 }

  /** `x or 1.0`: a zero counts as missing. */
  function OrOne(x: Option<real>): real { if x.Some? && x.value != 0.0 then x.value else 1.0 }

  function Min(x: real, y: real): real { if y < x then y else x }

  function Max(x: real, y: real): real { if y > x then y else x }

  /** Products and quotients are named so that most proofs need not look inside them. */
  function Times(x: real, y: real): real { x * y }

  function Over(x: real, y: real): real
    requires y != 0.0
  {
    x / y
  }

  function Ceil(x: real): int { -((-x).Floor) }

  function Lower(s: string): string {
    seq(|s|, k requires 0 <= k < |s| => if 'A' <= s[k] <= 'Z' then (s[k] as int + 32) as char else s[k])
  }

  function BillingModelOf(s: Spec): BillingModel {
    var adapter := Lower(s.adapter);
    if s.surface.IaasVm? || adapter == "hyperstack" then VmLease
    else if "runpod" <= adapter && s.surface.ManagedEndpoint? then RunpodManagedEndpoint
    else if "runpod" <= adapter then RunpodFunction
    else if adapter == "modal" || s.surface.FunctionRuntime? then FunctionBilling
    else if s.surface.LocalRuntime? then LocalBilling
    else GenericBilling
  }

  function ColdSeconds(s: Spec, d: Defaults): real {
    if s.coldStart.Some? && s.coldStart.value != 0 then s.coldStart.value as real
    else if d.coldStart.Some? then d.coldStart.value as real else 0.0
  }

  function Tokens(count: Option<int>): real {
    if count.Some? then Max(count.value as real, 0.0) else 0.0
  }

  predicate HasRates(s: Spec) {
    OrZero(s.prefillRate) > 0.0 || OrZero(s.decodeRate) > 0.0
  }

  /** A missing rate is replaced by the other one. */
  function Rates(s: Spec): (r: (real, real))
    requires HasRates(s)
    ensures r.0 > 0.0 && r.1 > 0.0
  {
    var prefill, decode := OrZero(s.prefillRate), OrZero(s.decodeRate);
    (if prefill <= 0.0 then decode else prefill, if decode <= 0.0 then prefill else decode)
  }

  function UnscaledSeconds(s: Spec, input: Option<int>, output: Option<int>): real
    requires HasRates(s)
  {
    Max(0.0, OrZero(s.overhead) + Over(Tokens(input), Rates(s).0) + Over(Tokens(output), Rates(s).1))
  }

  /** The throughput estimate before it is clamped, when there is one. */
  function TokenSeconds(s: Spec, input: Option<int>, output: Option<int>): Option<real> {
    if (input.None? && output.None?) || !HasRates(s) then None
    else Some(Times(UnscaledSeconds(s, input, output), Max(OrOne(s.multiplier), 0.0)))
  }

  function RuntimeSeconds(s: Spec, d: Defaults, timeout: nat, input: Option<int>, output: Option<int>): real {
    var tokens := TokenSeconds(s, input, output);
    if tokens.Some? then Min(tokens.value, timeout as real)
    else if s.expectedRuntime.Some? then Min(s.expectedRuntime.value, timeout as real)
    else if d.expectedRuntime.Some? then Min(d.expectedRuntime.value, timeout as real)
    else timeout as real
  }

  function IdleSeconds(s: Spec): real {
    if BillingModelOf(s) in {FunctionBilling, RunpodFunction, RunpodManagedEndpoint} then 0.0 else OrZero(s.scaledown)
  }

  function AtLeastMinimum(s: Spec, raw: real): real {
    if s.minBillable.Some? then Max(raw, s.minBillable.value) else raw
  }

  /** How many granules are billed. */
  function Granules(s: Spec, raw: real): int
    requires OrZero(s.granularity) != 0.0
  {
    Ceil(Over(AtLeastMinimum(s, raw), OrZero(s.granularity)))
  }

  function Billable(s: Spec, raw: real): real {
    if OrZero(s.granularity) != 0.0 then Times(Granules(s, raw) as real, OrZero(s.granularity)) else AtLeastMinimum(s, raw)
  }

  function FixedCost(s: Spec): real {
    Times(OrZero(s.standingRate), OrZero(s.standingWindow)) + Times(OrZero(s.endpointRate), OrZero(s.endpointWindow))
  }

  function EstimateCost(s: Spec, d: Defaults, timeout: nat, input: Option<int>, output: Option<int>): Estimate {
    var cold, runtime, idle := ColdSeconds(s, d), RuntimeSeconds(s, d, timeout, input, output), IdleSeconds(s);
    var billable := Billable(s, cold + runtime + idle);
    var marginal := Times(s.costPerSecond, billable);
    Estimate(cold, runtime, idle, cold + runtime + idle, billable,
             Times(s.costPerSecond, cold), Times(s.costPerSecond, runtime), Times(s.costPerSecond, idle),
             marginal, FixedCost(s), marginal + FixedCost(s), marginal)
  }

  // ---------------------------------------------------------------- arithmetic

  lemma CeilIsLeast(x: real, k: int)
    ensures Ceil(x) as real >= x && Ceil(x) as real < x + 1.0
    ensures k as real >= x <==> k >= Ceil(x)
  {}

  lemma TimesMonotone(x: real, y: real, z: real)
    requires x <= y && z >= 0.0
    ensures Times(x, z) <= Times(y, z) && Times(z, x) <= Times(z, y)
  {}

  lemma TimesStrictly(x: real, y: real, z: real)
    requires x < y && z > 0.0
    ensures Times(x, z) < Times(y, z)
  {}

  lemma TimesDistributes(x: real, y: real, z: real)
    ensures Times(x + y, z) == Times(x, z) + Times(y, z) && Times(z, x + y) == Times(z, x) + Times(z, y)
    ensures Times(1.0, z) == z
  {}

  lemma OverMonotone(x: real, y: real, z: real)
    requires x <= y && z > 0.0
    ensures Over(x, z) <= Over(y, z)
  {}

  lemma OverTimes(x: real, z: real)
    requires z != 0.0
    ensures Times(Over(x, z), z) == x
  {}

  /** Rounding `need` up to granules of length `g`. */
  lemma RoundUp(need: real, g: real, granules: int)
    requires g > 0.0
    ensures need <= Times(Ceil(Over(need, g)) as real, g) < need + g
    ensures Times(granules as real, g) >= need <==> granules >= Ceil(Over(need, g))
  {
    hide Times, Over;
    var q := Over(need, g);
    OverTimes(need, g);
    CeilIsLeast(q, granules);
    TimesMonotone(q, Ceil(q) as real, g);
    TimesStrictly(Ceil(q) as real, q + 1.0, g);
    TimesDistributes(q, 1.0, g);
    if granules >= Ceil(q) {
      TimesMonotone(q, granules as real, g);
    } else {
      TimesStrictly(granules as real, q, g);
    }
  }

  // ---------------------------------------------------------------- billable seconds

  /** Billable seconds cover both the raw seconds and the minimum; with a granularity they are the least whole
      number of granules that does, less than one granule more than needed. */
  lemma BillableIsLeastCover(s: Spec, raw: real, granules: int)
    requires SpecOk(s)
    ensures var b, g, need := Billable(s, raw), OrZero(s.granularity), AtLeastMinimum(s, raw);
      && b >= raw && (s.minBillable.Some? ==> b >= s.minBillable.value)
      && (g == 0.0 ==> b == need)
      && (g > 0.0 ==> b == Times(Granules(s, raw) as real, g) && b < need + g && (Times(granules as real, g) >= need <==> granules >= Granules(s, raw)))
  {
    hide Times, Over, Ceil;
    if OrZero(s.granularity) > 0.0 {
      RoundUp(AtLeastMinimum(s, raw), OrZero(s.granularity), granules);
    }
  }

  lemma BillableMonotone(s: Spec, raw: real, more: real)
    requires SpecOk(s) && raw <= more
    ensures Billable(s, raw) <= Billable(s, more)
  {
    hide Times, Over, Ceil;
    var g := OrZero(s.granularity);
    if g > 0.0 {
      BillableIsLeastCover(s, more, 0);
      BillableIsLeastCover(s, raw, Granules(s, more));
      TimesMonotone(Granules(s, raw) as real, Granules(s, more) as real, g);
    }
  }

  // ---------------------------------------------------------------- runtime

  lemma RuntimeWithinTimeout(s: Spec, d: Defaults, timeout: nat, input: Option<int>, output: Option<int>)
    ensures RuntimeSeconds(s, d, timeout, input, output) <= timeout as real
  {}

  lemma UnscaledMonotone(s: Spec, input: Option<int>, output: Option<int>, input': Option<int>, output': Option<int>)
    requires HasRates(s) && Tokens(input) <= Tokens(input') && Tokens(output) <= Tokens(output')
    ensures UnscaledSeconds(s, input, output) <= UnscaledSeconds(s, input', output')
  {
    hide Tokens, Rates, HasRates, Over;
    var (p, q) := Rates(s);
    OverMonotone(Tokens(input), Tokens(input'), p);
    OverMonotone(Tokens(output), Tokens(output'), q);
  }

  lemma TokenSecondsMonotone(s: Spec, input: Option<int>, output: Option<int>, input': Option<int>, output': Option<int>)
    requires input.None? && output.None? <==> input'.None? && output'.None?
    requires Tokens(input) <= Tokens(input') && Tokens(output) <= Tokens(output')
    ensures TokenSeconds(s, input, output).Some? <==> TokenSeconds(s, input', output').Some?
    ensures TokenSeconds(s, input, output).Some? ==> TokenSeconds(s, input, output).value <= TokenSeconds(s, input', output').value
  {
    if TokenSeconds(s, input, output).Some? {
      UnscaledMonotone(s, input, output, input', output');
      hide Tokens, UnscaledSeconds, HasRates, Times;
      TimesMonotone(UnscaledSeconds(s, input, output), UnscaledSeconds(s, input', output'), Max(OrOne(s.multiplier), 0.0));
    }
  }

  lemma RuntimeMonotone(s: Spec, d: Defaults, timeout: nat, input: Option<int>, output: Option<int>, input': Option<int>, output': Option<int>)
    requires SpecOk(s) && (input.None? && output.None? <==> input'.None? && output'.None?)
    requires Tokens(input) <= Tokens(input') && Tokens(output) <= Tokens(output')
    ensures RuntimeSeconds(s, d, timeout, input, output) <= RuntimeSeconds(s, d, timeout, input', output')
  {
    TokenSecondsMonotone(s, input, output, input', output');
    hide TokenSeconds, SpecOk, Tokens;
  }

  /** Which rate goes with which count: as many input tokens as the prefill rate works off in `x` seconds, and as many
      output tokens as the decode rate works off in `y` seconds, take `x` and `y` seconds on top of the overhead. A
      rate that is missing is the other one. */
  lemma RatesPairUp(s: Spec, x: real, y: real, input: nat, output: nat)
    requires SpecOk(s) && HasRates(s) && x >= 0.0 && y >= 0.0
    requires input as real == Times(x, if OrZero(s.prefillRate) > 0.0 then OrZero(s.prefillRate) else OrZero(s.decodeRate))
    requires output as real == Times(y, if OrZero(s.decodeRate) > 0.0 then OrZero(s.decodeRate) else OrZero(s.prefillRate))
    ensures UnscaledSeconds(s, Some(input), Some(output)) == OrZero(s.overhead) + x + y
    ensures UnscaledSeconds(s, None, Some(output)) == OrZero(s.overhead) + y
    ensures UnscaledSeconds(s, Some(input), None) == OrZero(s.overhead) + x
  {
    var (p, d) := Rates(s);
    TimesOver(x, p);
    TimesOver(y, d);
    TimesOver(0.0, p);
    TimesOver(0.0, d);
    assert Times(0.0, p) == 0.0 && Times(0.0, d) == 0.0;
    hide Times, Over;
  }

  lemma TimesOver(x: real, z: real)
    requires z != 0.0
    ensures Over(Times(x, z), z) == x
  {}

  // ---------------------------------------------------------------- the estimate

  /** More tokens never cost less: the reservation and the total grow together, the fixed part and the
      separately capped parts do not depend on the request. */
  lemma CostMonotone(s: Spec, d: Defaults, timeout: nat, input: Option<int>, output: Option<int>, input': Option<int>, output': Option<int>)
    requires SpecOk(s) && (input.None? && output.None? <==> input'.None? && output'.None?)
    requires Tokens(input) <= Tokens(input') && Tokens(output) <= Tokens(output')
    ensures var e, e' := EstimateCost(s, d, timeout, input, output), EstimateCost(s, d, timeout, input', output');
      && e.reservation <= e'.reservation && e.total <= e'.total && e.billable <= e'.billable
      && e.total - e.reservation == e'.total - e'.reservation
      && e.coldCost == e'.coldCost && e.idleCost == e'.idleCost
  {
    assert s.costPerSecond >= 0.0 && OrZero(s.granularity) >= 0.0;
    hide Billable, RuntimeSeconds, IdleSeconds, ColdSeconds, SpecOk, Tokens, FixedCost, Granules, AtLeastMinimum, Times;
    RuntimeMonotone(s, d, timeout, input, output, input', output');
    var e, e' := EstimateCost(s, d, timeout, input, output), EstimateCost(s, d, timeout, input', output');
    BillableMonotone(s, e.raw, e'.raw);
    TimesMonotone(e.billable, e'.billable, s.costPerSecond);
  }

  /** No request can reserve more than a full timeout, rounded up by less than one granule. */
  lemma ReservationBound(s: Spec, d: Defaults, timeout: nat, input: Option<int>, output: Option<int>)
    requires SpecOk(s)
    ensures EstimateCost(s, d, timeout, input, output).reservation
         <= Times(s.costPerSecond, AtLeastMinimum(s, ColdSeconds(s, d) + timeout as real + IdleSeconds(s)) + OrZero(s.granularity))
  {
    assert s.costPerSecond >= 0.0 && OrZero(s.granularity) >= 0.0;
    hide Billable, RuntimeSeconds, IdleSeconds, ColdSeconds, SpecOk, Tokens, FixedCost, Granules, AtLeastMinimum, Times;
    var e := EstimateCost(s, d, timeout, input, output);
    var worst := ColdSeconds(s, d) + timeout as real + IdleSeconds(s);
    RuntimeWithinTimeout(s, d, timeout, input, output);
    BillableMonotone(s, e.raw, worst);
    BillableIsLeastCover(s, worst, 0);
    TimesMonotone(e.billable, AtLeastMinimum(s, worst) + OrZero(s.granularity), s.costPerSecond);
  }

  /** Rounding never bills less than was used: the parts shown separately add up to at most the reservation,
      and the reservation leaves out exactly the fixed cost. */
  lemma PartsWithinReservation(s: Spec, d: Defaults, timeout: nat, input: Option<int>, output: Option<int>)
    requires SpecOk(s)
    ensures var e := EstimateCost(s, d, timeout, input, output);
      && e.coldCost + e.runtimeCost + e.idleCost <= e.reservation == e.total - e.fixed
  {
    assert s.costPerSecond >= 0.0 && OrZero(s.granularity) >= 0.0;
    hide Billable, RuntimeSeconds, IdleSeconds, ColdSeconds, SpecOk, Tokens, FixedCost, Granules, AtLeastMinimum, Times;
    var e := EstimateCost(s, d, timeout, input, output);
    BillableIsLeastCover(s, e.raw, 0);
    TimesMonotone(e.raw, e.billable, s.costPerSecond);
    TimesDistributes(e.cold, e.runtime, s.costPerSecond);
    TimesDistributes(e.cold + e.runtime, e.idle, s.costPerSecond);
  }
}
