/** Which of two tuples, and which of two recipes, comes first, told by their own data. */
module RoutingOrder {
  import opened Wrappers
  import opened Costing
  import opened CostGate
  import opened Ordering
  import opened Routing
  import opened RoutingProperties

  /** Of two distinct names, `x` comes first: at the first difference it has the smaller character, or it ends. */
  ghost predicate NameFirst(x: string, y: string) {
    exists k :: 0 <= k <= |x| && k <= |y| && x[..k] == y[..k] && (if k < |x| && k < |y| then x[k] < y[k] else k == |x| && k < |y|)
  }

  lemma {:induction false} CodesOrderNames(x: string, y: string)
    requires x != y && Lex(Codes(x), Codes(y))
    ensures NameFirst(x, y)
  {
    if x == [] {
      assert x[..0] == y[..0] && 0 < |y|;
    } else {
      assert Codes(x)[0] == x[0] as int as real && Codes(y) != [] && Codes(y)[0] == y[0] as int as real;
      if x[0] < y[0] {
        assert x[..0] == y[..0];
      } else {
        assert Codes(x)[1..] == Codes(x[1..]) && Codes(y)[1..] == Codes(y[1..]);
        assert x == [x[0]] + x[1..] && y == [y[0]] + y[1..];
        CodesOrderNames(x[1..], y[1..]);
        var k :| 0 <= k <= |x[1..]| && k <= |y[1..]| && x[1..][..k] == y[1..][..k]
          && (if k < |x[1..]| && k < |y[1..]| then x[1..][k] < y[1..][k] else k == |x[1..]| && k < |y[1..]|);
        assert x[..k + 1] == [x[0]] + x[1..][..k] && y[..k + 1] == [y[0]] + y[1..][..k];
      }
    }
  }

  // ---------------------------------------------------------------- tuples

  /** How a tuple has been observed to behave. */
  datatype Reliability = Reliable | Unobserved | Unreliable

  function Observed(s: Score): Reliability {
    if s.samples == 0 then Unobserved else if s.success >= 0.5 then Reliable else Unreliable
  }

  predicate MoreReliable(x: Reliability, y: Reliability) { (x.Reliable? && !y.Reliable?) || (x.Unobserved? && y.Unreliable?) }

  /** Large requests go to remote tuples first, others to local ones. */
  predicate BetterPlaced(g: Gateway, q: Request, r: Recipe, x: TupleInfo, y: TupleInfo) {
    if g.requiredLen(q, r) > g.largeContext then !x.local && y.local else x.local && !y.local
  }

  /** Malformed outputs seen, counted up to 99, and only where strict schema output is asked for. */
  function Malformed(g: Gateway, q: Request, r: Recipe, name: string): nat {
    if !q.strictSchema then 0 else if g.qualityFailures(q, r, name) > 99 then 99 else g.qualityFailures(q, r, name)
  }

  function Reserves(g: Gateway, q: Request, r: Recipe, t: TupleInfo): real { CostEstimate(g, q, r, t, Timeout(g, q, r)).reservation }

  function Latency(s: Score): real { if s.latency.Some? then s.latency.value else 0.0 }

  function CostPerSuccess(s: Score): real { if s.costPerSuccess.Some? then s.costPerSuccess.value else 0.0 }

  /** Between two tuples that fit alike: higher success rate, then lower latency, then lower cost per success, then name. */
  ghost predicate BetterObserved(g: Gateway, x: string, y: string) {
    var s, t := g.score(x), g.score(y);
    || s.success > t.success
    || (s.success == t.success && (
        || Latency(s) < Latency(t)
        || (Latency(s) == Latency(t) && (
            || CostPerSuccess(s) < CostPerSuccess(t)
            || (CostPerSuccess(s) == CostPerSuccess(t) && NameFirst(x, y))))))
  }

  /** `x` is tried before `y`: better placed, then fewer malformed outputs, then more reliable, then less memory, then
      less context to spare, then a lower reservation, then better observed. */
  ghost predicate Preferred(g: Gateway, q: Request, r: Recipe, x: string, y: string)
    requires x in g.tuples && y in g.tuples
  {
    var s, t := g.tuples[x], g.tuples[y];
    var sMalformed, tMalformed := Malformed(g, q, r, x), Malformed(g, q, r, y);
    var sReliable, tReliable := Observed(g.score(x)), Observed(g.score(y));
    || BetterPlaced(g, q, r, s, t)
    || (s.local == t.local && (
        || sMalformed < tMalformed
        || (sMalformed == tMalformed && (
            || MoreReliable(sReliable, tReliable)
            || (sReliable == tReliable && (
                || s.vram < t.vram
                || (s.vram == t.vram && (
                    || s.maxModelLen < t.maxModelLen
                    || (s.maxModelLen == t.maxModelLen && (
                        || Reserves(g, q, r, s) < Reserves(g, q, r, t)
                        || (Reserves(g, q, r, s) == Reserves(g, q, r, t) && BetterObserved(g, x, y))))))))))))
  }

  lemma LexStep(a: Key, b: Key)
    requires a != [] && b != []
    ensures Lex(a, b) <==> a[0] < b[0] || (a[0] == b[0] && Lex(a[1..], b[1..]))
  {}

  /** Comparing six numbers one after the other. */
  lemma LexSix(a: Key, b: Key)
    requires |a| == |b| == 6
    ensures Lex(a, b) <==>
      || a[0] < b[0]
      || (a[0] == b[0] && (a[1] < b[1] || (a[1] == b[1] && (a[2] < b[2] || (a[2] == b[2] && (
          a[3] < b[3] || (a[3] == b[3] && (a[4] < b[4] || (a[4] == b[4] && a[5] <= b[5])))))))))
  {
    LexStep(a, b);
    LexStep(a[1..], b[1..]);
    LexStep(a[2..], b[2..]);
    LexStep(a[3..], b[3..]);
    LexStep(a[4..], b[4..]);
    LexStep(a[5..], b[5..]);
    assert a[1..][1..] == a[2..] && a[2..][1..] == a[3..] && a[3..][1..] == a[4..] && a[4..][1..] == a[5..] && a[5..][1..] == [];
    assert b[1..][1..] == b[2..] && b[2..][1..] == b[3..] && b[3..][1..] == b[4..] && b[4..][1..] == b[5..] && b[5..][1..] == [];
    LexReflexive([]);
    hide Lex;
  }

  lemma LexThree(a: Key, b: Key)
    requires |a| == |b| == 3
    ensures Lex(a, b) <==> a[0] < b[0] || (a[0] == b[0] && (a[1] < b[1] || (a[1] == b[1] && a[2] <= b[2])))
  {
    LexStep(a, b);
    LexStep(a[1..], b[1..]);
    LexStep(a[2..], b[2..]);
    assert a[1..][1..] == a[2..] && a[2..][1..] == [] && b[1..][1..] == b[2..] && b[2..][1..] == [];
    LexReflexive([]);
    hide Lex;
  }

  lemma ScoreOrder(g: Gateway, x: string, y: string)
    requires x != y && Lex(ScoreKey(g, x) + Codes(x), ScoreKey(g, y) + Codes(y))
    ensures BetterObserved(g, x, y)
  {
    LexConcat(ScoreKey(g, x), ScoreKey(g, y), Codes(x), Codes(y));
    LexThree(ScoreKey(g, x), ScoreKey(g, y));
    if ScoreKey(g, x) == ScoreKey(g, y) {
      CodesOrderNames(x, y);
      assert ScoreKey(g, x)[0] == ScoreKey(g, y)[0] && ScoreKey(g, x)[1] == ScoreKey(g, y)[1] && ScoreKey(g, x)[2] == ScoreKey(g, y)[2];
    } else if ScoreKey(g, x)[0] == ScoreKey(g, y)[0] && ScoreKey(g, x)[1] == ScoreKey(g, y)[1] {
      assert ScoreKey(g, x)[2] != ScoreKey(g, y)[2];
    }
    hide Lex, NameFirst, Codes;
  }

  lemma FitOrder(g: Gateway, q: Request, r: Recipe, x: string, y: string)
    requires x != y && x in g.tuples && y in g.tuples && Lex(GlobalKey(g, q, r)(x), GlobalKey(g, q, r)(y))
    ensures Preferred(g, q, r, x, y)
  {
    var a, b := FitKey(g, q, r, x), FitKey(g, q, r, y);
    LexConcat(a, b, ScoreKey(g, x) + Codes(x), ScoreKey(g, y) + Codes(y));
    LexSix(a, b);
    if a == b {
      ScoreOrder(g, x, y);
    }
    hide Lex, ScoreKey, Codes, BetterObserved, CostEstimate;
    if a != b && a[0] == b[0] && a[1] == b[1] && a[2] == b[2] && a[3] == b[3] && a[4] == b[4] {
      assert a[5] != b[5];
    }
  }

  /** The order of a chain, by the tuples' own data: of any two members of an unrequested chain the earlier one is
      preferred. */
  lemma ChainOrderByData(g: Gateway, q: Request, r: Recipe, names: seq<string>, j: nat, k: nat)
    requires j < k < |Ranked(g, q, r, names)|
    ensures var chain := Ranked(g, q, r, names);
      chain[j] in g.tuples && chain[k] in g.tuples && Preferred(g, q, r, chain[j], chain[k])
  {
    var chain := Ranked(g, q, r, names);
    var eligible := Eligible(g, q, r, true, Sorted(names, NameKey()));
    EligibleIsSelection(g, q, r, true, Sorted(names, NameKey()), "");
    SortedAscending(eligible, FitNameKey(g, q, r));
    UniqueCount(eligible);
    CountUnique(Ordered(g, q, r, names));
    BlocksAscendGlobally(g, q, r, Ordered(g, q, r, names));
    RankedIs(g, q, r, names, chain[j]);
    RankedIs(g, q, r, names, chain[k]);
    assert Lex(GlobalKey(g, q, r)(chain[j]), GlobalKey(g, q, r)(chain[k])) && chain[j] != chain[k];
    hide Ranked, Preferred, GlobalKey, Lex, Eligible, Sorted;
    FitOrder(g, q, r, chain[j], chain[k]);
  }

  // ---------------------------------------------------------------- recipes

  /** `x` is considered before `y`: better quality (unless an intent without structured output makes all alike), then
      lower classification, then less memory, then a smaller context, then name. */
  ghost predicate RecipePreferred(q: Request, x: Recipe, y: Recipe) {
    var byQuality := !(q.hasIntent && !q.structured);
    || (byQuality && x.qualityRank < y.qualityRank)
    || ((byQuality ==> x.qualityRank == y.qualityRank) && (
        || x.classification < y.classification
        || (x.classification == y.classification && (
            || x.minVram < y.minVram
            || (x.minVram == y.minVram && (
                || x.contextBudget < y.contextBudget
                || (x.contextBudget == y.contextBudget && NameFirst(x.name, y.name))))))))
  }

  lemma LexFour(a: Key, b: Key)
    requires |a| == |b| == 4
    ensures Lex(a, b) <==>
      a[0] < b[0] || (a[0] == b[0] && (a[1] < b[1] || (a[1] == b[1] && (a[2] < b[2] || (a[2] == b[2] && a[3] <= b[3])))))
  {
    LexStep(a, b);
    LexThree(a[1..], b[1..]);
    hide Lex;
  }

  lemma RecipeKeyOrder(q: Request, x: Recipe, y: Recipe)
    requires x.name != y.name && Lex(RecipeKey(q)(x), RecipeKey(q)(y))
    ensures RecipePreferred(q, x, y)
  {
    var a, b := RecipeKey(q)(x)[..4], RecipeKey(q)(y)[..4];
    assert RecipeKey(q)(x) == a + Codes(x.name) && RecipeKey(q)(y) == b + Codes(y.name);
    LexConcat(a, b, Codes(x.name), Codes(y.name));
    LexFour(a, b);
    if a == b {
      CodesOrderNames(x.name, y.name);
    }
    hide Lex, Codes, NameFirst;
    if a != b && a[0] == b[0] && a[1] == b[1] && a[2] == b[2] {
      assert a[3] != b[3];
    }
  }

  /** The chosen recipe, by the recipes' own data: no other acceptable recipe that could be served is preferred to it,
      nor any other acceptable recipe at all when it cannot be served itself. */
  lemma ChosenRecipeByData(g: Gateway, q: Request, recipes: seq<Recipe>, names: seq<string>, other: Recipe)
    requires SelectedRecipe(g, q, recipes, names).Ok? && other in recipes && !g.recipeRefused(q, other)
    requires other.name != SelectedRecipe(g, q, recipes, names).value.name
    requires Serves(g, q, names, other) || !Serves(g, q, names, SelectedRecipe(g, q, recipes, names).value)
    ensures RecipePreferred(q, SelectedRecipe(g, q, recipes, names).value, other)
  {
    ChosenRecipeIsLeast(g, q, recipes, names, other);
    RecipeKeyOrder(q, SelectedRecipe(g, q, recipes, names).value, other);
    hide Lex, SelectedRecipe, Serves;
  }
}
