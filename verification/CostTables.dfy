/** What each part of an estimate is, read off the fields of the tuple and the recipe alone. */
module CostTables {
  import opened Wrappers
  import opened Costing

  predicate Whole(x: real) { x == x.Floor as real }

  /** `x` is given and positive. */
  predicate Positive(x: Option<real>) { x.Some? && x.value > 0.0 }

  /** Lower-casing puts for every capital the small letter at the same place of the alphabet, and leaves every other
      character. */
  lemma LowerByAlphabet(s: string, k: nat)
    requires k < |s|
    ensures |Lower(s)| == |s|
    ensures 'A' <= s[k] <= 'Z' ==> 'a' <= Lower(s)[k] <= 'z' && Lower(s)[k] as int - 'a' as int == s[k] as int - 'A' as int
    ensures s[k] < 'A' || s[k] > 'Z' ==> Lower(s)[k] == s[k]
  {
    assert Lower(s)[k] == if 'A' <= s[k] <= 'Z' then (s[k] as int + 32) as char else s[k];
  }

  /** Every amount a tuple may give. */
  function Amounts(s: Spec): seq<Option<real>> {
    [s.expectedRuntime, s.prefillRate, s.decodeRate, s.overhead, s.multiplier, s.scaledown, s.minBillable, s.granularity,
     s.standingRate, s.standingWindow, s.endpointRate, s.endpointWindow]
  }

  lemma SpecRefusedIff(s: Spec)
    ensures !SpecOk(s) <==>
      s.costPerSecond < 0.0 || exists k | 0 <= k < |Amounts(s)| :: Amounts(s)[k].Some? && Amounts(s)[k].value < 0.0
  {
    var all := Amounts(s);
    assert forall k | 0 <= k < |all| :: all[k].Some? && all[k].value < 0.0 <==> !Amount(all[k]);
    assert !Amount(all[0]) || !Amount(all[1]) || !Amount(all[2]) || !Amount(all[3]) || !Amount(all[4]) || !Amount(all[5])
      || !Amount(all[6]) || !Amount(all[7]) || !Amount(all[8]) || !Amount(all[9]) || !Amount(all[10]) || !Amount(all[11])
      || forall k | 0 <= k < |all| :: Amount(all[k]);
  }

  /** A virtual machine is leased whatever else is said of it; RunPod goes by its endpoint; Modal and function runtimes
      are functions; what is left is local or generic. */
  lemma BillingTable(s: Spec)
    ensures var a, vm := Lower(s.adapter), s.surface == IaasVm || Lower(s.adapter) == "hyperstack";
      && (BillingModelOf(s) == VmLease <==> vm)
      && (BillingModelOf(s) == RunpodManagedEndpoint <==> s.surface == ManagedEndpoint && |a| >= 6 && a[..6] == "runpod")
      && (BillingModelOf(s) == RunpodFunction <==> !vm && s.surface != ManagedEndpoint && |a| >= 6 && a[..6] == "runpod")
      && (BillingModelOf(s) == FunctionBilling <==> !vm && (a == "modal" || (s.surface == FunctionRuntime && (|a| < 6 || a[..6] != "runpod"))))
      && (BillingModelOf(s) == LocalBilling <==>
           a != "hyperstack" && a != "modal" && s.surface == LocalRuntime && (|a| < 6 || a[..6] != "runpod"))
  {
    var a := Lower(s.adapter);
    assert "runpod" <= a <==> |a| >= 6 && a[..6] == "runpod";
    assert "hyperstack"[0] != "runpod"[0] && |"modal"| == 5;
  }

  /** Idle time is charged as the scale-down window, except to serverless routes, which pay for none. */
  lemma IdleByFields(s: Spec)
    ensures var a := Lower(s.adapter);
      var serverless := s.surface != IaasVm && a != "hyperstack" && (a == "modal" || s.surface == FunctionRuntime || (|a| >= 6 && a[..6] == "runpod"));
      IdleSeconds(s) == if serverless || s.scaledown == None then 0.0 else s.scaledown.value
  {
    BillingTable(s);
    hide BillingModelOf;
  }

  /** A cold start of zero on the tuple counts as not given; the recipe's is then used as it is. */
  lemma ColdByFields(s: Spec, d: Defaults, c: nat)
    ensures s.coldStart == Some(c) && c > 0 ==> ColdSeconds(s, d) == c as real
    ensures s.coldStart in {None, Some(0)} && d.coldStart == Some(c) ==> ColdSeconds(s, d) == c as real
    ensures s.coldStart in {None, Some(0)} && d.coldStart == None ==> ColdSeconds(s, d) == 0.0
  {
    assert Some(0).value == 0;
  }

  /** The throughput decides the runtime exactly when a count and a positive rate are given: a multiplier that is
      missing or zero is one, and the timeout bounds the product. The counts are given as the seconds `x` and `y` they
      take at their own rates. */
  lemma RuntimeByThroughput(s: Spec, d: Defaults, timeout: nat, x: real, y: real, input: nat, output: nat, factor: real)
    requires SpecOk(s) && (Positive(s.prefillRate) || Positive(s.decodeRate)) && x >= 0.0 && y >= 0.0
    requires input as real == Times(x, if Positive(s.prefillRate) then s.prefillRate.value else s.decodeRate.value)
    requires output as real == Times(y, if Positive(s.decodeRate) then s.decodeRate.value else s.prefillRate.value)
    requires if s.multiplier in {None, Some(0.0)} then factor == 1.0 else s.multiplier == Some(factor)
    ensures var product := Times((if s.overhead.Some? then s.overhead.value else 0.0) + x + y, factor);
      RuntimeSeconds(s, d, timeout, Some(input), Some(output)) == if product <= timeout as real then product else timeout as real
    ensures x == 0.0 ==> RuntimeSeconds(s, d, timeout, None, Some(output)) == RuntimeSeconds(s, d, timeout, Some(input), Some(output))
    ensures y == 0.0 ==> RuntimeSeconds(s, d, timeout, Some(input), None) == RuntimeSeconds(s, d, timeout, Some(input), Some(output))
  {
    FactorIs(s, factor);
    RatesPairUp(s, x, y, input, output);
    ThroughputOf(s, Some(input), Some(output), factor);
    ThroughputOf(s, None, Some(output), factor);
    ThroughputOf(s, Some(input), None, factor);
    hide UnscaledSeconds, SpecOk, OrOne, Times, TokenSeconds, HasRates;
  }

  lemma FactorIs(s: Spec, factor: real)
    requires SpecOk(s) && if s.multiplier in {None, Some(0.0)} then factor == 1.0 else s.multiplier == Some(factor)
    ensures OrOne(s.multiplier) == factor && factor >= 0.0
  {
    if s.multiplier.Some? && s.multiplier != Some(0.0) {
      assert s.multiplier.value != 0.0;
    }
  }

  lemma ThroughputOf(s: Spec, input: Option<int>, output: Option<int>, factor: real)
    requires HasRates(s) && (input.Some? || output.Some?) && OrOne(s.multiplier) == factor && factor >= 0.0
    ensures TokenSeconds(s, input, output) == Some(Times(UnscaledSeconds(s, input, output), factor))
  {
    hide UnscaledSeconds, OrOne, Times;
    assert Max(factor, 0.0) == factor;
  }

  /** Counts below zero are zero. */
  lemma NegativeCountsAreZero(s: Spec, n: int, other: Option<int>)
    requires n < 0
    ensures TokenSeconds(s, Some(n), other) == TokenSeconds(s, Some(0), other)
    ensures TokenSeconds(s, other, Some(n)) == TokenSeconds(s, other, Some(0))
  {
    assert Tokens(Some(n)) == Tokens(Some(0));
    hide Tokens, Over;
  }

  /** Without a throughput the tuple's expected runtime is used, then the recipe's, then the timeout. */
  lemma RuntimeWithoutThroughput(s: Spec, d: Defaults, timeout: nat, input: Option<int>, output: Option<int>, r: real)
    requires (input == None && output == None) || (!Positive(s.prefillRate) && !Positive(s.decodeRate))
    ensures var runtime := RuntimeSeconds(s, d, timeout, input, output);
      && (s.expectedRuntime == Some(r) ==> runtime == if r <= timeout as real then r else timeout as real)
      && (s.expectedRuntime == None && d.expectedRuntime == Some(r) ==> runtime == if r <= timeout as real then r else timeout as real)
      && (s.expectedRuntime == None && d.expectedRuntime == None ==> runtime == timeout as real)
  {
    hide UnscaledSeconds;
  }

  /** Billed time is the longer of use and minimum; with a granularity it is the least multiple of it that covers both. */
  lemma BillableByFields(s: Spec, raw: real, n: int)
    requires SpecOk(s)
    ensures var b, none := Billable(s, raw), s.granularity in {None, Some(0.0)};
      && b >= raw && (s.minBillable.Some? ==> b >= s.minBillable.value)
      && (none ==> Some(b) in {Some(raw), s.minBillable})
      && (!none ==> Whole(Over(b, s.granularity.value))
                    && (Times(n as real, s.granularity.value) >= b <==>
                          Times(n as real, s.granularity.value) >= raw
                          && (s.minBillable.Some? ==> Times(n as real, s.granularity.value) >= s.minBillable.value)))
  {
    BillableIsLeastCover(s, raw, n);
    assert OrZero(s.granularity) == 0.0 <==> s.granularity in {None, Some(0.0)} by {
      if s.granularity.Some? && s.granularity.value == 0.0 { assert s.granularity == Some(0.0); }
    }
    if OrZero(s.granularity) > 0.0 {
      var k := Granules(s, raw);
      hide Granules, Billable;
      var g := OrZero(s.granularity);
      TimesOver(k as real, g);
      assert Over(Billable(s, raw), g) == k as real;
      if n >= k { TimesMonotone(k as real, n as real, g); }
    }
  }

  /** What the parts cost: use is billed at the tuple's rate, standing capacity and endpoint each at their own rate over
      their own window, and only the first is reserved. */
  lemma CostByFields(s: Spec, d: Defaults, timeout: nat, input: Option<int>, output: Option<int>)
    ensures var e, rate := EstimateCost(s, d, timeout, input, output), s.costPerSecond;
      && e.cold == ColdSeconds(s, d) && e.runtime == RuntimeSeconds(s, d, timeout, input, output) && e.idle == IdleSeconds(s)
      && e.raw == e.cold + e.runtime + e.idle && e.billable == Billable(s, e.raw)
      && e.coldCost == rate * e.cold && e.runtimeCost == rate * e.runtime && e.idleCost == rate * e.idle
      && e.marginal == e.reservation == rate * e.billable && e.total == e.reservation + e.fixed
      && (s.standingRate.None? || s.standingWindow.None? ==> s.endpointRate.Some? && s.endpointWindow.Some? ==> e.fixed == s.endpointRate.value * s.endpointWindow.value)
      && (s.endpointRate.None? || s.endpointWindow.None? ==> s.standingRate.Some? && s.standingWindow.Some? ==> e.fixed == s.standingRate.value * s.standingWindow.value)
      && ((s.standingRate.None? || s.standingWindow.None?) && (s.endpointRate.None? || s.endpointWindow.None?) ==> e.fixed == 0.0)
      && (s.standingRate.Some? && s.standingWindow.Some? && s.endpointRate.Some? && s.endpointWindow.Some? ==>
            e.fixed == s.standingRate.value * s.standingWindow.value + s.endpointRate.value * s.endpointWindow.value)
  {
    hide Billable, RuntimeSeconds, IdleSeconds, ColdSeconds;
  }
}
