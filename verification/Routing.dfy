/** Eligibility, ranking and recipe selection (gpucall/compiler.py; `rank` in gpucall/registry.py).

    What other files decide is a field of the gateway: route and request checks, token estimates, observed
    scores, quality failures and circuit breakers, all read at the moment of compilation.
  */
module Routing {
  import opened Wrappers
  import opened Costing
  import opened CostGate
  import opened Ordering

  datatype Request = Request(task: string, recipe: Option<string>, requested: Option<string>, bypassCircuit: bool, timeout: Option<nat>, leaseTtl: Option<nat>,
                             maxTokens: Option<nat>, hasIntent: bool, structured: bool, strictSchema: bool)

  datatype Recipe = Recipe(name: string, task: string, qualityRank: nat, classification: nat, minVram: nat, contextBudget: nat,
                           timeout: nat, leaseTtl: nat, maxOutput: Option<nat>, defaults: Defaults, costs: Option<CostPolicy>)

  datatype TupleInfo = TupleInfo(spec: Spec, local: bool, vram: nat, maxModelLen: nat)

  datatype Score = Score(samples: nat, success: real, latency: Option<real>, costPerSuccess: Option<real>)

  datatype Gateway = Gateway(
    tuples: map<string, TupleInfo>, policy: CostPolicy, maxTimeout: nat, maxLeaseTtl: nat, largeContext: nat,
    recipeRefused: (Request, Recipe) -> bool, invalid: (Request, Recipe) -> bool,
    requiredLen: (Request, Recipe) -> nat,
    routeRefused: (Request, Recipe, string, bool) -> bool, unvalidated: (Request, Recipe, string) -> bool,
    freshness: string -> Freshness,
    available: string -> bool, score: string -> Score, qualityFailures: (Request, Recipe, string) -> nat)

  predicate Unique<T(==)>(xs: seq<T>) { forall j, k | 0 <= j < k < |xs| :: xs[j] != xs[k] }

  // ---------------------------------------------------------------- cost of a tuple for a request

  function OrElse(x: Option<nat>, y: nat): nat { if x.Some? && x.value != 0 then x.value else y }

  function Least(x: nat, y: nat): nat { if y < x then y else x }

  function Timeout(g: Gateway, q: Request, r: Recipe): nat { Least(OrElse(q.timeout, r.timeout), g.maxTimeout) }

  /** The estimate for a request with a given timeout, as attested in its plan. */
  function CostEstimate(g: Gateway, q: Request, r: Recipe, t: TupleInfo, timeout: nat): Estimate {
    var required, output := g.requiredLen(q, r), OrElse(q.maxTokens, 0);
    EstimateCost(t.spec, r.defaults, timeout, Some(if required < output then 0 else required - output), Some(output))
  }

  /** The estimate the gate makes, from inputs it computes on its own before any plan exists. */
  function GateEstimate(g: Gateway, q: Request, r: Recipe, t: TupleInfo): Estimate {
    var asked := if q.timeout.Some? && q.timeout.value > 0 then q.timeout.value else r.timeout;
    var timeout := if asked <= g.maxTimeout then asked else g.maxTimeout;
    var required := g.requiredLen(q, r);
    var output: nat := if q.maxTokens.Some? then q.maxTokens.value else 0;
    var input: int := required - output;
    EstimateCost(t.spec, r.defaults, timeout, Some(if input > 0 then input else 0), Some(output))
  }

  /** The gate judges exactly the estimate that a plan for the tuple would attest. */
  lemma GateSeesAttestedEstimate(g: Gateway, q: Request, r: Recipe, t: TupleInfo)
    ensures GateEstimate(g, q, r, t) == CostEstimate(g, q, r, t, Timeout(g, q, r))
  {
    hide EstimateCost;
  }

  datatype Rejection = RouteRefused | CircuitOpen | NotValidated | Cost(refusal: Refusal)

  function CostRejection(g: Gateway, q: Request, r: Recipe, name: string, automatic: bool): Option<Refusal>
    requires name in g.tuples
  {
    if !automatic then None else Gate(Effective(g.policy, r.costs), g.freshness(name), GateEstimate(g, q, r, g.tuples[name]))
  }

  predicate Passes(g: Gateway, q: Request, r: Recipe, automatic: bool, name: string) {
    && name in g.tuples && !g.routeRefused(q, r, name, automatic)
    && !(automatic && g.unvalidated(q, r, name))
    && CostRejection(g, q, r, name, automatic).None?
  }

  // ---------------------------------------------------------------- eligibility

  function Eligible(g: Gateway, q: Request, r: Recipe, automatic: bool, candidates: seq<string>): seq<string> {
    if candidates == [] then []
    else
      var n := |candidates| - 1;
      var before, name := Eligible(g, q, r, automatic, candidates[..n]), candidates[n];
      if name != "" && name !in candidates[..n] && Passes(g, q, r, automatic, name) then before + [name] else before
  }

  /** Each passing candidate once, in candidate order. */
  lemma {:induction false} EligibleIsSelection(g: Gateway, q: Request, r: Recipe, automatic: bool, candidates: seq<string>, name: string)
    ensures name in Eligible(g, q, r, automatic, candidates) <==> name in candidates && name != "" && Passes(g, q, r, automatic, name)
    ensures Unique(Eligible(g, q, r, automatic, candidates))
  {
    if candidates != [] {
      var n := |candidates| - 1;
      EligibleIsSelection(g, q, r, automatic, candidates[..n], name);
      EligibleIsSelection(g, q, r, automatic, candidates[..n], candidates[n]);
      assert candidates == candidates[..n] + [candidates[n]];
      hide Passes;
    }
  }

  method EligibleTuples(g: Gateway, q: Request, r: Recipe, automatic: bool, candidates: seq<string>) returns (eligible: seq<string>)
    ensures eligible == Eligible(g, q, r, automatic, candidates)
  {
    eligible := [];
    var seen: set<string> := {};
    for k := 0 to |candidates|
      invariant eligible == Eligible(g, q, r, automatic, candidates[..k])
      invariant forall name :: name in seen <==> name in candidates[..k] && name != ""
    {
      var name := candidates[k];
      assert candidates[..k + 1][..k] == candidates[..k];
      if name == "" || name in seen {
        continue;
      }
      seen := seen + {name};
      if name !in g.tuples || g.routeRefused(q, r, name, automatic) {
        continue;
      }
      if automatic && g.unvalidated(q, r, name) {
        continue;
      }
      if CostRejection(g, q, r, name, automatic).Some? {
        continue;
      }
      eligible := eligible + [name];
    }
    assert candidates[..|candidates|] == candidates;
  }

  /** The reasons reported when nothing is routable. */
  function Rejected(g: Gateway, q: Request, r: Recipe, name: string): Option<Rejection>
    requires name in g.tuples
  {
    if g.routeRefused(q, r, name, true) then Some(RouteRefused)
    else if !g.available(name) then Some(CircuitOpen)
    else if g.unvalidated(q, r, name) then Some(NotValidated)
    else match CostRejection(g, q, r, name, true) case Some(refusal) => Some(Cost(refusal)) case None => None
  }

  // ---------------------------------------------------------------- fit key and rank

  function FitKey(g: Gateway, q: Request, r: Recipe, name: string): Key {
    if name !in g.tuples then [0.0, 0.0, 0.0, 0.0, 0.0, 0.0]
    else
      var t, required := g.tuples[name], g.requiredLen(q, r);
      var remote := if required > g.largeContext then t.local else !t.local;
      [if remote then 1.0 else 0.0,
       if q.strictSchema then Least(g.qualityFailures(q, r, name), 99) as real else 0.0,
       if g.score(name).samples == 0 then 1.0 else if g.score(name).success >= 0.5 then 0.0 else 2.0,
       t.vram as real,
       (t.maxModelLen - required) as real,
       CostEstimate(g, q, r, t, Timeout(g, q, r)).reservation]
  }

  function FitNameKey(g: Gateway, q: Request, r: Recipe): string -> Key {
    (name: string) => FitKey(g, q, r, name) + Codes(name)
  }

  function ScoreKey(g: Gateway, name: string): Key {
    var s := g.score(name);
    [-s.success, if s.latency.Some? then s.latency.value else 0.0, if s.costPerSuccess.Some? then s.costPerSuccess.value else 0.0]
  }

  function IndexIn(group: seq<string>, name: string): nat {
    if group == [] then 0
    else if group[|group| - 1] == name then |group| - 1
    else IndexIn(group[..|group| - 1], name)
  }

  function RankKey(g: Gateway, group: seq<string>): string -> Key {
    (name: string) => ScoreKey(g, name) + [IndexIn(group, name) as real]
  }

  function Available(g: Gateway, group: seq<string>): seq<string> {
    if group == [] then []
    else Available(g, group[..|group| - 1]) + if g.available(group[|group| - 1]) then [group[|group| - 1]] else []
  }

  /** `ObservedRegistry.rank`. */
  function Rank(g: Gateway, group: seq<string>): seq<string> {
    Sorted(Available(g, group), RankKey(g, group))
  }

  // ---------------------------------------------------------------- grouped ranking

  /** Length of the first block of equal fit. */
  function BlockLength(fit: string -> Key, ordered: seq<string>): (n: nat)
    ensures n <= |ordered| && (ordered != [] ==> n > 0)
    ensures forall k | 0 <= k < n :: fit(ordered[k]) == fit(ordered[0])
    ensures n < |ordered| ==> fit(ordered[n]) != fit(ordered[0])
  {
    if ordered == [] then 0
    else if |ordered| == 1 || fit(ordered[1]) != fit(ordered[0]) then 1
    else 1 + BlockLength(fit, ordered[1..])
  }

  /** Rank each block of equal fit, blocks in order. */
  function RankBlocks(fit: string -> Key, rank: seq<string> -> seq<string>, ordered: seq<string>): seq<string>
    decreases |ordered|
  {
    if ordered == [] then []
    else
      var n := BlockLength(fit, ordered);
      rank(ordered[..n]) + RankBlocks(fit, rank, ordered[n..])
  }

  lemma {:induction false} BlockLengthIs(fit: string -> Key, ordered: seq<string>, n: nat)
    requires 0 < n <= |ordered| && (forall k | 0 <= k < n :: fit(ordered[k]) == fit(ordered[0]))
    requires n < |ordered| ==> fit(ordered[n]) != fit(ordered[0])
    ensures BlockLength(fit, ordered) == n
  {}

  /** The loop's state before element i: blocks already ranked, and the start of the current one. */
  predicate Grouped(fit: string -> Key, rank: seq<string> -> seq<string>, ordered: seq<string>, i: nat,
                    ranked: seq<string>, group: seq<string>, key: Option<Key>) {
    && i <= |ordered| && (forall name | name in group :: key == Some(fit(name)))
    && RankBlocks(fit, rank, ordered) == ranked + RankBlocks(fit, rank, group + ordered[i..])
  }

  lemma FirstBlock(fit: string -> Key, rank: seq<string> -> seq<string>, group: seq<string>, rest: seq<string>, key: Key)
    requires group != [] && (forall name | name in group :: fit(name) == key) && (rest != [] ==> fit(rest[0]) != key)
    ensures RankBlocks(fit, rank, group + rest) == rank(group) + RankBlocks(fit, rank, rest)
  {
    var all, n := group + rest, |group|;
    assert all[..n] == group && all[n..] == rest;
    assert forall k | 0 <= k < n :: all[k] in group;
    BlockLengthIs(fit, all, n);
    hide BlockLength;
  }

  lemma BlockDone(fit: string -> Key, rank: seq<string> -> seq<string>, ordered: seq<string>, i: nat,
                  ranked: seq<string>, group: seq<string>, key: Key)
    requires Grouped(fit, rank, ordered, i, ranked, group, Some(key)) && group != []
    requires i < |ordered| ==> fit(ordered[i]) != key
    ensures Grouped(fit, rank, ordered, i, ranked + rank(group), [], Some(key))
    ensures i == |ordered| ==> RankBlocks(fit, rank, ordered) == ranked + rank(group)
  {
    NoBlocks(fit, rank);
    hide RankBlocks;
    FirstBlock(fit, rank, group, ordered[i..], key);
    assert [] + ordered[i..] == ordered[i..];
    var left, right := rank(group), RankBlocks(fit, rank, ordered[i..]);
    Reassociate(ranked, left, right);
    if i == |ordered| {
      assert ordered[i..] == [];
      assert ranked + left + [] == ranked + left;
    }
  }

  lemma Reassociate(a: seq<string>, b: seq<string>, c: seq<string>)
    ensures a + (b + c) == (a + b) + c
  {}

  lemma NoBlocks(fit: string -> Key, rank: seq<string> -> seq<string>)
    ensures RankBlocks(fit, rank, []) == []
  {}

  lemma BlockGrows(fit: string -> Key, rank: seq<string> -> seq<string>, ordered: seq<string>, i: nat,
                   ranked: seq<string>, group: seq<string>, key: Option<Key>)
    requires Grouped(fit, rank, ordered, i, ranked, group, key) && i < |ordered|
    requires group == [] || key == Some(fit(ordered[i]))
    ensures Grouped(fit, rank, ordered, i + 1, ranked, group + [ordered[i]], Some(fit(ordered[i])))
  {
    hide RankBlocks;
    assert group + ordered[i..] == (group + [ordered[i]]) + ordered[i + 1..];
  }

  /** The loop over ordered tuples, for any fit key and any ranking of a group. */
  method RankByFit(fit: string -> Key, rank: seq<string> -> seq<string>, ordered: seq<string>) returns (ranked: seq<string>)
    ensures ranked == RankBlocks(fit, rank, ordered)
  {
    ranked := [];
    var currentKey: Option<Key> := None;
    var group: seq<string> := [];
    NoBlocks(fit, rank);
    assert Grouped(fit, rank, ordered, 0, ranked, group, currentKey) by {
      assert [] + ordered[0..] == ordered && [] + RankBlocks(fit, rank, ordered) == RankBlocks(fit, rank, ordered);
    }
    hide RankBlocks, BlockLength, Grouped;
    for i := 0 to |ordered|
      invariant (group == [] <==> i == 0) && (currentKey.Some? <==> i > 0)
      invariant Grouped(fit, rank, ordered, i, ranked, group, currentKey)
    {
      var fitKey := fit(ordered[i]);
      if currentKey.Some? && fitKey != currentKey.value {
        BlockDone(fit, rank, ordered, i, ranked, group, currentKey.value);
        ranked := ranked + rank(group);
        group := [];
      }
      BlockGrows(fit, rank, ordered, i, ranked, group, currentKey);
      currentKey := Some(fitKey);
      group := group + [ordered[i]];
    }
    if group != [] {
      BlockDone(fit, rank, ordered, |ordered|, ranked, group, currentKey.value);
      ranked := ranked + rank(group);
    }
  }

  // ---------------------------------------------------------------- tuple chain

  function FitOf(g: Gateway, q: Request, r: Recipe): string -> Key { (name: string) => FitKey(g, q, r, name) }

  function RankOf(g: Gateway): seq<string> -> seq<string> { (group: seq<string>) => Rank(g, group) }

  function NameKey(): string -> Key { (name: string) => Codes(name) }

  function Ordered(g: Gateway, q: Request, r: Recipe, names: seq<string>): seq<string> {
    Sorted(Eligible(g, q, r, true, Sorted(names, NameKey())), FitNameKey(g, q, r))
  }

  function Ranked(g: Gateway, q: Request, r: Recipe, names: seq<string>): seq<string> {
    RankBlocks(FitOf(g, q, r), RankOf(g), Ordered(g, q, r, names))
  }

  datatype RouteError = UnsupportedTask | UnknownRecipe | TaskMismatch | NoRecipe | Invalid | NotEligible | Unavailable | NoTuple | ContextExceeded | TimeoutOverTtl

  predicate Requested(q: Request) { q.requested.Some? && q.requested.value != "" }

  /** `names` is the iteration order of the tuple dictionary. */
  function TupleChain(g: Gateway, q: Request, r: Recipe, names: seq<string>): Result<seq<string>, RouteError> {
    if Requested(q) then
      var name := q.requested.value;
      if name !in Eligible(g, q, r, false, [name]) then Err(NotEligible)
      else if !q.bypassCircuit && !g.available(name) then Err(Unavailable)
      else Ok([name])
    else if Ranked(g, q, r, names) == [] then Err(NoTuple)
    else Ok(Ranked(g, q, r, names))
  }

  // ---------------------------------------------------------------- recipe

  function WithDefaults(q: Request, r: Recipe): Request {
    if q.maxTokens.Some? || r.maxOutput.None? then q else q.(maxTokens := r.maxOutput)
  }

  function RecipeKey(q: Request): Recipe -> Key {
    (r: Recipe) =>
      [if q.hasIntent && !q.structured then 0.0 else r.qualityRank as real,
       r.classification as real, r.minVram as real, r.contextBudget as real] + Codes(r.name)
  }

  function Candidates(g: Gateway, q: Request, recipes: seq<Recipe>): seq<Recipe> {
    if recipes == [] then []
    else Candidates(g, q, recipes[..|recipes| - 1]) + if g.recipeRefused(q, recipes[|recipes| - 1]) then [] else [recipes[|recipes| - 1]]
  }

  predicate Serves(g: Gateway, q: Request, names: seq<string>, r: Recipe) {
    Eligible(g, WithDefaults(q, r), r, true, Sorted(names, NameKey())) != []
  }

  function FirstServing(g: Gateway, q: Request, names: seq<string>, ordered: seq<Recipe>): Option<Recipe> {
    if ordered == [] then None
    else if Serves(g, q, names, ordered[0]) then Some(ordered[0])
    else FirstServing(g, q, names, ordered[1..])
  }

  /** `recipes` and `names` are the iteration orders of the two dictionaries. */
  function SelectedRecipe(g: Gateway, q: Request, recipes: seq<Recipe>, names: seq<string>): Result<Recipe, RouteError> {
    var ordered := Sorted(Candidates(g, q, recipes), RecipeKey(q));
    if ordered == [] then Err(NoRecipe)
    else
      var serving := FirstServing(g, q, names, ordered);
      Ok(if serving.Some? then serving.value else ordered[0])
  }

  method SelectRecipe(g: Gateway, q: Request, recipes: seq<Recipe>, names: seq<string>) returns (choice: Result<Recipe, RouteError>)
    ensures choice == SelectedRecipe(g, q, recipes, names)
  {
    var candidates: seq<Recipe> := [];
    for k := 0 to |recipes|
      invariant candidates == Candidates(g, q, recipes[..k])
    {
      assert recipes[..k + 1][..k] == recipes[..k];
      if !g.recipeRefused(q, recipes[k]) {
        candidates := candidates + [recipes[k]];
      }
    }
    assert recipes[..|recipes|] == recipes;
    var ordered := Sorted(candidates, RecipeKey(q));
    if ordered == [] {
      return Err(NoRecipe);
    }
    assert ordered[0..] == ordered;
    for k := 0 to |ordered|
      invariant FirstServing(g, q, names, ordered) == FirstServing(g, q, names, ordered[k..])
    {
      assert ordered[k..][1..] == ordered[k + 1..];
      var eligible := EligibleTuples(g, WithDefaults(q, ordered[k]), ordered[k], true, Sorted(names, NameKey()));
      if eligible != [] {
        return Ok(ordered[k]);
      }
    }
    choice := Ok(ordered[0]);
  }

  // ---------------------------------------------------------------- what a chain contains

  lemma {:induction false} AvailableIs(g: Gateway, group: seq<string>, name: string)
    ensures name in Available(g, group) <==> name in group && g.available(name)
  {
    if group != [] {
      var n := |group| - 1;
      AvailableIs(g, group[..n], name);
      assert group == group[..n] + [group[n]];
    }
  }

  lemma RankIs(g: Gateway, group: seq<string>, name: string)
    ensures name in Rank(g, group) <==> name in group && g.available(name)
  {
    AvailableIs(g, group, name);
    SortedAscending(Available(g, group), RankKey(g, group));
    assert name in Rank(g, group) <==> name in multiset(Available(g, group));
  }

  lemma {:induction false} RankBlocksIs(g: Gateway, fit: string -> Key, ordered: seq<string>, name: string)
    ensures name in RankBlocks(fit, RankOf(g), ordered) <==> name in ordered && g.available(name)
    decreases |ordered|
  {
    if ordered != [] {
      var n := BlockLength(fit, ordered);
      RankIs(g, ordered[..n], name);
      RankBlocksIs(g, fit, ordered[n..], name);
      assert ordered == ordered[..n] + ordered[n..];
      hide Rank, BlockLength;
    }
  }

  /** An unrequested chain holds exactly the catalog's tuples that pass every gate and are available. */
  lemma RankedIs(g: Gateway, q: Request, r: Recipe, names: seq<string>, name: string)
    ensures name in Ranked(g, q, r, names) <==>
      name in names && name != "" && Passes(g, q, r, true, name) && g.available(name)
  {
    var sorted := Sorted(names, NameKey());
    var eligible := Eligible(g, q, r, true, sorted);
    SortedAscending(names, NameKey());
    SortedAscending(eligible, FitNameKey(g, q, r));
    EligibleIsSelection(g, q, r, true, sorted, name);
    RankBlocksIs(g, FitOf(g, q, r), Ordered(g, q, r, names), name);
    assert name in sorted <==> name in multiset(names);
    assert name in Ordered(g, q, r, names) <==> name in multiset(eligible);
    hide Passes, Sorted, RankBlocks, Eligible;
  }

  lemma ChainIsRoutable(g: Gateway, q: Request, r: Recipe, names: seq<string>)
    ensures var chain := TupleChain(g, q, r, names);
      chain.Ok? ==> chain.value != [] && forall name | name in chain.value :: name in g.tuples
  {
    if Requested(q) {
      EligibleIsSelection(g, q, r, false, [q.requested.value], q.requested.value);
      hide Eligible;
    } else {
      forall name | name in Ranked(g, q, r, names) ensures name in g.tuples {
        RankedIs(g, q, r, names, name);
      }
      hide Ranked;
    }
  }

  // ---------------------------------------------------------------- compilation

  datatype Plan = Plan(recipe: Recipe, chain: seq<string>, timeout: nat, leaseTtl: nat, estimate: Estimate)

  const SUPPORTED_TASKS := {"infer", "vision", "transcribe", "convert", "train", "fine-tune", "split-infer"}

  /** The recipe under a name; the dictionary's keys are the recipes' own names. */
  function Named(recipes: seq<Recipe>, name: string): Option<Recipe> {
    if recipes == [] then None else if recipes[0].name == name then Some(recipes[0]) else Named(recipes[1..], name)
  }

  /** The recipe a request names, or else the one selected for it. */
  function RecipeFor(g: Gateway, q: Request, recipes: seq<Recipe>, names: seq<string>): Result<Recipe, RouteError> {
    if q.task !in SUPPORTED_TASKS then Err(UnsupportedTask)
    else if q.recipe.None? then SelectedRecipe(g, q, recipes, names)
    else match Named(recipes, q.recipe.value)
      case None => Err(UnknownRecipe)
      case Some(r) => if r.task != q.task then Err(TaskMismatch) else Ok(r)
  }

  function CompileWith(g: Gateway, request: Request, r: Recipe, names: seq<string>): Result<Plan, RouteError> {
    var q := WithDefaults(request, r);
    if g.invalid(q, r) then Err(Invalid)
    else match TupleChain(g, q, r, names)
      case Err(e) => Err(e)
      case Ok(chain) =>
        var timeout, ttl := Timeout(g, q, r), Least(OrElse(q.leaseTtl, r.leaseTtl), g.maxLeaseTtl);
        if g.requiredLen(q, r) > r.contextBudget then Err(ContextExceeded)
        else if timeout > ttl then Err(TimeoutOverTtl)
        else
          ChainIsRoutable(g, q, r, names);
          Ok(Plan(r, chain, timeout, ttl, CostEstimate(g, q, r, g.tuples[chain[0]], timeout)))
  }

  /** `GovernanceCompiler.compile`, for requests that name their recipe and for those that do not. */
  function Compile(g: Gateway, request: Request, recipes: seq<Recipe>, names: seq<string>): Result<Plan, RouteError> {
    match RecipeFor(g, request, recipes, names)
    case Err(e) => Err(e)
    case Ok(r) => CompileWith(g, request, r, names)
  }
}
