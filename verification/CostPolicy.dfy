/** The cost gate (gpucall/cost_policy.py). */
module CostGate {
  import opened Wrappers
  import opened Costing

  datatype CostPolicy = CostPolicy(maxTotal: Option<real>, maxCold: Option<real>, maxIdle: Option<real>,
                                   requireBudget: Option<bool>, threshold: Option<real>, requireFresh: Option<bool>)

  datatype Freshness = Fresh | Stale | UnknownPrice

  datatype Refusal = ColdStartCost | IdleCost | TotalCost | HighCostWithoutBudget | PriceNotFresh

  function Either<T>(first: Option<T>, second: Option<T>): Option<T> {
    if first.Some? then first else second
  }

  /** The recipe's setting where it has one, the operator's elsewhere. */
  function Effective(policy: CostPolicy, recipe: Option<CostPolicy>): CostPolicy {
    match recipe
    case None => policy
    case Some(r) =>
      CostPolicy(Either(r.maxTotal, policy.maxTotal), Either(r.maxCold, policy.maxCold), Either(r.maxIdle, policy.maxIdle),
                 Either(r.requireBudget, policy.requireBudget), Either(r.threshold, policy.threshold), Either(r.requireFresh, policy.requireFresh))
  }

  predicate Explicit(p: CostPolicy) { p.maxTotal.Some? || p.maxCold.Some? || p.maxIdle.Some? }

  predicate Exceeds(amount: real, cap: Option<real>) { cap.Some? && amount > cap.value }

  function Gate(p: CostPolicy, freshness: Freshness, e: Estimate): Option<Refusal> {
    var requireBudget := if p.requireBudget.Some? then p.requireBudget.value else true;
    var threshold := if p.threshold.Some? then p.threshold.value else 5.0;
    if Exceeds(e.coldCost, p.maxCold) then Some(ColdStartCost)
    else if Exceeds(e.idleCost, p.maxIdle) then Some(IdleCost)
    else if Exceeds(e.total, p.maxTotal) then Some(TotalCost)
    else if requireBudget && !Explicit(p) && e.total > threshold then Some(HighCostWithoutBudget)
    else if p.requireFresh == Some(true) && freshness != Fresh && Explicit(p) then Some(PriceNotFresh)
    else None
  }

  predicate Accepts(p: CostPolicy, freshness: Freshness, e: Estimate) { Gate(p, freshness, e).None? }

  /** The cap in force: the recipe's if it sets one, otherwise the operator's, otherwise none. */
  predicate RespectsCap(amount: real, operator: Option<real>, recipe: Option<real>) {
    match recipe
    case Some(cap) => amount <= cap
    case None => operator.Some? ==> amount <= operator.value
  }

  function CapOf(recipe: Option<CostPolicy>, cap: CostPolicy -> Option<real>): Option<real> {
    if recipe.Some? then cap(recipe.value) else None
  }

  /** An accepted estimate respects every cap in force. */
  lemma AcceptedRespectsCaps(policy: CostPolicy, recipe: Option<CostPolicy>, freshness: Freshness, e: Estimate)
    requires Accepts(Effective(policy, recipe), freshness, e)
    ensures RespectsCap(e.total, policy.maxTotal, CapOf(recipe, (p: CostPolicy) => p.maxTotal))
    ensures RespectsCap(e.coldCost, policy.maxCold, CapOf(recipe, (p: CostPolicy) => p.maxCold))
    ensures RespectsCap(e.idleCost, policy.maxIdle, CapOf(recipe, (p: CostPolicy) => p.maxIdle))
  {
    var p := Effective(policy, recipe);
    assert !Exceeds(e.total, p.maxTotal) && !Exceeds(e.coldCost, p.maxCold) && !Exceeds(e.idleCost, p.maxIdle);
  }

  // ---------------------------------------------------------------- monotonicity

  /** Acceptance is downward closed in tokens: what is accepted stays accepted for a smaller request. */
  lemma SmallerRequestStaysAccepted(p: CostPolicy, freshness: Freshness, s: Spec, d: Defaults, timeout: nat,
                                    input: nat, output: nat, input': nat, output': nat)
    requires SpecOk(s) && input <= input' && output <= output'
    requires Accepts(p, freshness, EstimateCost(s, d, timeout, Some(input'), Some(output')))
    ensures Accepts(p, freshness, EstimateCost(s, d, timeout, Some(input), Some(output)))
  {
    CostMonotone(s, d, timeout, Some(input), Some(output), Some(input'), Some(output'));
    hide EstimateCost, SpecOk;
  }

  predicate NoHigher(q: Option<real>, p: Option<real>) { p.Some? ==> q.Some? && q.value <= p.value }

  /** q keeps every cap and limit of p, possibly lower, relaxes no flag, and sets a cap only if p has one. */
  predicate Stricter(q: CostPolicy, p: CostPolicy) {
    && NoHigher(q.maxTotal, p.maxTotal) && NoHigher(q.maxCold, p.maxCold) && NoHigher(q.maxIdle, p.maxIdle)
    && NoHigher(q.threshold, Some(if p.threshold.Some? then p.threshold.value else 5.0))
    && (p.requireBudget != Some(false) ==> q.requireBudget != Some(false))
    && (p.requireFresh == Some(true) ==> q.requireFresh == Some(true))
    && (Explicit(q) ==> Explicit(p))
  }

  /** Lowering caps that are set, and adding caps beside one that is set, only refuses more. */
  lemma StricterAcceptsLess(p: CostPolicy, q: CostPolicy, freshness: Freshness, e: Estimate)
    requires Stricter(q, p) && Accepts(q, freshness, e)
    ensures Accepts(p, freshness, e)
  {}

  // ---------------------------------------------------------------- comparing policies

  /** What bounds the total: the cap, or the high-cost threshold while no cap at all is set. */
  function TotalBound(p: CostPolicy): Option<real> {
    if p.maxTotal.Some? then p.maxTotal
    else if !Explicit(p) && p.requireBudget != Some(false) then Some(if p.threshold.Some? then p.threshold.value else 5.0)
    else None
  }

  predicate NeedsFresh(p: CostPolicy) { p.requireFresh == Some(true) && Explicit(p) }

  lemma AcceptsIff(p: CostPolicy, freshness: Freshness, e: Estimate)
    ensures Accepts(p, freshness, e) <==>
      && !Exceeds(e.coldCost, p.maxCold) && !Exceeds(e.idleCost, p.maxIdle) && !Exceeds(e.total, TotalBound(p))
      && (NeedsFresh(p) ==> freshness == Fresh)
  {}

  function Amounts(cold: real, idle: real, total: real): Estimate {
    Estimate(0.0, 0.0, 0.0, 0.0, 0.0, cold, 0.0, idle, total, 0.0, total, total)
  }

  function Lowest(cap: Option<real>, other: Option<real>): real {
    if cap.Some? && other.Some? then Min(cap.value, other.value) else if cap.Some? then cap.value else if other.Some? then other.value else 0.0
  }

  function Highest(cap: Option<real>, other: Option<real>): real {
    if cap.Some? then cap.value else if other.Some? then other.value + 1.0 else 0.0
  }

  /** Exactly when one policy never accepts what another refuses, over every estimate and price freshness:
      it bounds each amount at least as tightly, the total by its cap or else by the threshold, and it insists
      on fresh prices if the other does. */
  lemma NeverLooserIff(q: CostPolicy, p: CostPolicy)
    ensures (forall freshness, e :: Accepts(q, freshness, e) ==> Accepts(p, freshness, e)) <==>
      && NoHigher(q.maxCold, p.maxCold) && NoHigher(q.maxIdle, p.maxIdle) && NoHigher(TotalBound(q), TotalBound(p))
      && (NeedsFresh(p) ==> NeedsFresh(q))
  {
    var tight := NoHigher(q.maxCold, p.maxCold) && NoHigher(q.maxIdle, p.maxIdle) && NoHigher(TotalBound(q), TotalBound(p))
                 && (NeedsFresh(p) ==> NeedsFresh(q));
    var e := Amounts(Highest(q.maxCold, p.maxCold), Highest(q.maxIdle, p.maxIdle), Highest(TotalBound(q), TotalBound(p)));
    var lowest := Amounts(Lowest(q.maxCold, p.maxCold), Lowest(q.maxIdle, p.maxIdle), Lowest(TotalBound(q), TotalBound(p)));
    AcceptsIff(q, Fresh, e);
    AcceptsIff(p, Fresh, e);
    AcceptsIff(q, Stale, lowest);
    AcceptsIff(p, Stale, lowest);
    forall freshness, x | tight && Accepts(q, freshness, x) ensures Accepts(p, freshness, x) {
      AcceptsIff(q, freshness, x);
      AcceptsIff(p, freshness, x);
    }
    hide Accepts, TotalBound, NeedsFresh;
  }

  /** Setting the first cap is different: it switches the high-cost threshold off. Exactly which refused
      estimates it lets through. */
  lemma FirstCapAcceptsMoreIff(p: CostPolicy, q: CostPolicy, freshness: Freshness, e: Estimate)
    requires !Explicit(p) && Explicit(q) && q.(maxTotal := None, maxCold := None, maxIdle := None) == p
    ensures !Accepts(p, freshness, e) && Accepts(q, freshness, e) <==>
      && p.requireBudget != Some(false)
      && e.total > (if p.threshold.Some? then p.threshold.value else 5.0)
      && (q.maxTotal.Some? ==> e.total <= q.maxTotal.value)
      && (q.maxCold.Some? ==> e.coldCost <= q.maxCold.value)
      && (q.maxIdle.Some? ==> e.idleCost <= q.maxIdle.value)
      && (p.requireFresh == Some(true) ==> freshness == Fresh)
  {}

  /** A ten-dollar estimate is refused by default and accepted once a cold-start cap is set. */
  lemma FirstCapCanAccept(e: Estimate)
    requires e.total == 10.0 && e.coldCost == 0.0
    ensures var p := CostPolicy(None, None, None, None, None, None);
      Gate(p, Fresh, e) == Some(HighCostWithoutBudget) && Accepts(p.(maxCold := Some(0.0)), Fresh, e)
  {}
}
