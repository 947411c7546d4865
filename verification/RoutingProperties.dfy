/** Routing depends on the catalog as a set, is one global sort, and keeps every cost cap. */
module RoutingProperties {
  import opened Wrappers
  import opened Costing
  import opened CostGate
  import opened Ordering
  import opened Routing

  // ---------------------------------------------------------------- order of the catalog

  /** The chain does not depend on the order in which the tuple dictionary is iterated. */
  lemma ChainForgetsCatalogOrder(g: Gateway, q: Request, r: Recipe, names: seq<string>, names': seq<string>)
    requires multiset(names) == multiset(names')
    ensures TupleChain(g, q, r, names) == TupleChain(g, q, r, names')
    ensures Sorted(names, NameKey()) == Sorted(names', NameKey())
  {
    forall a, b | a in names && b in names && NameKey()(a) == NameKey()(b) ensures a == b {
      CodesInjective(a, b);
    }
    SortedForgetsOrder(names, names', NameKey());
    hide Sorted, Eligible, RankBlocks;
  }

  lemma {:induction false} CandidateCount(g: Gateway, q: Request, recipes: seq<Recipe>, r: Recipe)
    ensures multiset(Candidates(g, q, recipes))[r] == if g.recipeRefused(q, r) then 0 else multiset(recipes)[r]
  {
    if recipes != [] {
      var n := |recipes| - 1;
      CandidateCount(g, q, recipes[..n], r);
      assert recipes == recipes[..n] + [recipes[n]];
    }
  }

  predicate DistinctNames(recipes: seq<Recipe>) {
    forall a, b | a in recipes && b in recipes && a.name == b.name :: a == b
  }

  lemma RecipeKeyInjective(q: Request, a: Recipe, b: Recipe)
    requires RecipeKey(q)(a) == RecipeKey(q)(b)
    ensures a.name == b.name
  {
    assert RecipeKey(q)(a)[4..] == Codes(a.name) && RecipeKey(q)(b)[4..] == Codes(b.name);
    CodesInjective(a.name, b.name);
  }

  lemma CandidatesOf(g: Gateway, q: Request, recipes: seq<Recipe>, recipes': seq<Recipe>)
    requires multiset(recipes) == multiset(recipes') && DistinctNames(recipes)
    ensures multiset(Candidates(g, q, recipes)) == multiset(Candidates(g, q, recipes'))
    ensures Injective(Candidates(g, q, recipes), RecipeKey(q))
  {
    var c, c' := Candidates(g, q, recipes), Candidates(g, q, recipes');
    forall r ensures multiset(c)[r] == multiset(c')[r] {
      CandidateCount(g, q, recipes, r);
      CandidateCount(g, q, recipes', r);
    }
    forall a, b | a in c && b in c && RecipeKey(q)(a) == RecipeKey(q)(b) ensures a == b {
      CandidateCount(g, q, recipes, a);
      CandidateCount(g, q, recipes, b);
      assert a in multiset(c) && b in multiset(c);
      assert a in multiset(recipes) && b in multiset(recipes);
      RecipeKeyInjective(q, a, b);
    }
  }

  /** Nor does the choice of a recipe, when no two recipes share a name. */
  lemma RecipeForgetsCatalogOrder(g: Gateway, q: Request, recipes: seq<Recipe>, recipes': seq<Recipe>, names: seq<string>, names': seq<string>)
    requires multiset(recipes) == multiset(recipes') && multiset(names) == multiset(names') && DistinctNames(recipes)
    ensures SelectedRecipe(g, q, recipes, names) == SelectedRecipe(g, q, recipes', names')
  {
    var c, c' := Candidates(g, q, recipes), Candidates(g, q, recipes');
    CandidatesOf(g, q, recipes, recipes');
    SortedForgetsOrder(c, c', RecipeKey(q));
    SameServing(g, q, names, names', Sorted(c, RecipeKey(q)));
    hide Sorted, Candidates, FirstServing;
  }

  lemma {:induction false} SameServing(g: Gateway, q: Request, names: seq<string>, names': seq<string>, ordered: seq<Recipe>)
    requires multiset(names) == multiset(names')
    ensures FirstServing(g, q, names, ordered) == FirstServing(g, q, names', ordered)
  {
    if ordered != [] {
      SameServing(g, q, names, names', ordered[1..]);
      ChainForgetsCatalogOrder(g, WithDefaults(q, ordered[0]), ordered[0], names, names');
      hide Sorted, Eligible;
    }
  }

  lemma {:induction false} NamedIs(recipes: seq<Recipe>, name: string)
    ensures var r := Named(recipes, name);
      if r.Some? then r.value in recipes && r.value.name == name else forall other | other in recipes :: other.name != name
  {
    if recipes != [] {
      NamedIs(recipes[1..], name);
      assert recipes == [recipes[0]] + recipes[1..];
    }
  }

  lemma NamedForgetsOrder(recipes: seq<Recipe>, recipes': seq<Recipe>, name: string)
    requires multiset(recipes) == multiset(recipes') && DistinctNames(recipes)
    ensures Named(recipes, name) == Named(recipes', name)
  {
    NamedIs(recipes, name);
    NamedIs(recipes', name);
    forall r: Recipe ensures r in recipes <==> r in recipes' {
      assert r in multiset(recipes) <==> r in multiset(recipes');
    }
    hide Named;
  }

  /** So a whole compilation is a function of the catalog as a set, whether the request names its recipe or not. */
  lemma CompileForgetsCatalogOrder(g: Gateway, q: Request, recipes: seq<Recipe>, recipes': seq<Recipe>, names: seq<string>, names': seq<string>)
    requires multiset(recipes) == multiset(recipes') && multiset(names) == multiset(names') && DistinctNames(recipes)
    ensures Compile(g, q, recipes, names) == Compile(g, q, recipes', names')
  {
    RecipeForgetsCatalogOrder(g, q, recipes, recipes', names, names');
    if q.recipe.Some? {
      NamedForgetsOrder(recipes, recipes', q.recipe.value);
    }
    var choice := RecipeFor(g, q, recipes, names);
    assert choice == RecipeFor(g, q, recipes', names');
    if choice.Ok? {
      ChainForgetsCatalogOrder(g, WithDefaults(q, choice.value), choice.value, names, names');
    }
    hide RecipeFor, TupleChain;
  }

  // ---------------------------------------------------------------- which recipe

  lemma {:induction false} FirstServingIs(g: Gateway, q: Request, names: seq<string>, ordered: seq<Recipe>)
    ensures var first := FirstServing(g, q, names, ordered);
      && (first.None? <==> forall k | 0 <= k < |ordered| :: !Serves(g, q, names, ordered[k]))
      && (first.Some? ==> exists k :: 0 <= k < |ordered| && ordered[k] == first.value && Serves(g, q, names, first.value)
                                      && forall j | 0 <= j < k :: !Serves(g, q, names, ordered[j]))
  {
    if ordered != [] {
      FirstServingIs(g, q, names, ordered[1..]);
      hide Serves;
      var rest := FirstServing(g, q, names, ordered[1..]);
      if Serves(g, q, names, ordered[0]) {
        assert ordered[0] == FirstServing(g, q, names, ordered).value;
      } else if rest.Some? {
        var k :| 0 <= k < |ordered[1..]| && ordered[1..][k] == rest.value && forall j | 0 <= j < k :: !Serves(g, q, names, ordered[1..][j]);
        assert ordered[k + 1] == rest.value;
        forall j | 0 <= j < k + 1 ensures !Serves(g, q, names, ordered[j]) {
          assert j > 0 ==> ordered[j] == ordered[1..][j - 1];
        }
      } else {
        forall j | 0 <= j < |ordered| ensures !Serves(g, q, names, ordered[j]) {
          assert j > 0 ==> ordered[j] == ordered[1..][j - 1];
        }
      }
    }
  }

  /** The chosen recipe is acceptable, and no acceptable recipe with a smaller key could have been served:
      it is the least serving one, or the least of all when none can be served. */
  lemma ChosenRecipeIsLeast(g: Gateway, q: Request, recipes: seq<Recipe>, names: seq<string>, other: Recipe)
    requires SelectedRecipe(g, q, recipes, names).Ok? && other in recipes && !g.recipeRefused(q, other)
    ensures var choice := SelectedRecipe(g, q, recipes, names).value;
      && choice in recipes && !g.recipeRefused(q, choice)
      && (Serves(g, q, names, other) ==> Serves(g, q, names, choice))
      && (Serves(g, q, names, other) || !Serves(g, q, names, choice) ==> Lex(RecipeKey(q)(choice), RecipeKey(q)(other)))
  {
    var c := Candidates(g, q, recipes);
    var ordered := Sorted(c, RecipeKey(q));
    SortedAscending(c, RecipeKey(q));
    FirstServingIs(g, q, names, ordered);
    var choice := SelectedRecipe(g, q, recipes, names).value;
    hide Sorted, Candidates, FirstServing, Serves, Lex;
    assert choice in ordered;
    CandidateCount(g, q, recipes, choice);
    CandidateCount(g, q, recipes, other);
    assert choice in multiset(ordered);
    assert other in multiset(recipes);
    assert other in multiset(ordered);
    var k :| 0 <= k < |ordered| && ordered[k] == other;
    assert Lex(RecipeKey(q)(ordered[0]), RecipeKey(q)(ordered[k]));
  }

  // ---------------------------------------------------------------- grouped ranking, any rank

  /** What `RankByFit` relies on: a ranking returns some of its input, each once. */
  ghost predicate Selects(rank: seq<string> -> seq<string>) {
    forall group: seq<string> | Unique(group) :: Unique(rank(group)) && forall name | name in rank(group) :: name in group
  }

  lemma FitApart(fit: string -> Key, ordered: seq<string>, a: string, b: string)
    requires ordered != [] && Ascending(ordered, fit)
    requires var n := BlockLength(fit, ordered); a in ordered[..n] && b in ordered[n..]
    ensures Lex(fit(a), fit(b)) && fit(a) != fit(b)
  {
    var n := BlockLength(fit, ordered);
    var j :| 0 <= j < n && ordered[j] == a;
    var k :| 0 <= k < |ordered| - n && ordered[n..][k] == b;
    assert ordered[n + k] == b;
    assert Lex(fit(ordered[j]), fit(ordered[n])) && Lex(fit(ordered[n]), fit(ordered[n + k])) && Lex(fit(ordered[j]), fit(ordered[n + k]));
    LexTotal(fit(a), fit(ordered[n]));
  }

  /** For any ranking that selects: the grouped result is a duplicate-free selection whose fit keys ascend. */
  lemma {:induction false} GroupsAscend(fit: string -> Key, rank: seq<string> -> seq<string>, ordered: seq<string>)
    requires Selects(rank) && Unique(ordered) && Ascending(ordered, fit)
    ensures Unique(RankBlocks(fit, rank, ordered)) && Ascending(RankBlocks(fit, rank, ordered), fit)
    ensures forall name | name in RankBlocks(fit, rank, ordered) :: name in ordered
    decreases |ordered|
  {
    if ordered != [] {
      var n := BlockLength(fit, ordered);
      var block, rest := ordered[..n], ordered[n..];
      GroupsAscend(fit, rank, rest);
      var left, right := rank(block), RankBlocks(fit, rank, rest);
      forall a, b | a in left && b in right ensures Lex(fit(a), fit(b)) && a != b {
        FitApart(fit, ordered, a, b);
      }
      forall a, b | a in left && b in left ensures Lex(fit(a), fit(b)) {
        LexReflexive(fit(a));
      }
      hide Lex, BlockLength;
      assert RankBlocks(fit, rank, ordered) == left + right;
      JoinAscending(fit, left, right);
    }
  }

  lemma JoinAscending(key: string -> Key, left: seq<string>, right: seq<string>)
    requires Unique(left) && Unique(right) && Ascending(left, key) && Ascending(right, key)
    requires forall a, b | a in left && b in right :: Lex(key(a), key(b)) && a != b
    ensures Unique(left + right) && Ascending(left + right, key)
  {
    hide Lex;
    var all, n := left + right, |left|;
    forall j, k | 0 <= j <= k < |all| ensures Lex(key(all[j]), key(all[k])) && (j < k ==> all[j] != all[k]) {
      if k < n {
        assert all[j] == left[j] && all[k] == left[k];
      } else if j >= n {
        assert all[j] == right[j - n] && all[k] == right[k - n];
      } else {
        assert all[j] in left && all[k] in right;
      }
    }
  }

  // ---------------------------------------------------------------- grouped ranking is one sort

  /** Fit first, then observed score, then name. */
  function GlobalKey(g: Gateway, q: Request, r: Recipe): string -> Key {
    (name: string) => FitKey(g, q, r, name) + (ScoreKey(g, name) + Codes(name))
  }

  lemma {:induction false} AvailableCount(g: Gateway, group: seq<string>, name: string)
    ensures multiset(Available(g, group))[name] == if g.available(name) then multiset(group)[name] else 0
  {
    if group != [] {
      var n := |group| - 1;
      AvailableCount(g, group[..n], name);
      assert group == group[..n] + [group[n]];
    }
  }

  lemma RankCount(g: Gateway, group: seq<string>, name: string)
    ensures multiset(Rank(g, group))[name] == if g.available(name) then multiset(group)[name] else 0
  {
    AvailableCount(g, group, name);
    SortedAscending(Available(g, group), RankKey(g, group));
    hide Available, Sorted, Ascending;
  }

  lemma CountConcat(xs: seq<string>, ys: seq<string>, name: string)
    ensures multiset(xs + ys)[name] == multiset(xs)[name] + multiset(ys)[name]
  {}

  lemma RankBlocksSplit(fit: string -> Key, rank: seq<string> -> seq<string>, ordered: seq<string>)
    requires ordered != []
    ensures var n := BlockLength(fit, ordered);
      0 < n <= |ordered| && RankBlocks(fit, rank, ordered) == rank(ordered[..n]) + RankBlocks(fit, rank, ordered[n..])
  {}

  lemma {:induction false} RankBlocksCount(g: Gateway, fit: string -> Key, ordered: seq<string>, name: string)
    ensures multiset(RankBlocks(fit, RankOf(g), ordered))[name] == if g.available(name) then multiset(ordered)[name] else 0
    decreases |ordered|
  {
    if ordered != [] {
      RankBlocksSplit(fit, RankOf(g), ordered);
      hide Rank, BlockLength, RankBlocks;
      var n := BlockLength(fit, ordered);
      var block, rest := ordered[..n], ordered[n..];
      RankCount(g, block, name);
      RankBlocksCount(g, fit, rest, name);
      CountConcat(RankOf(g)(block), RankBlocks(fit, RankOf(g), rest), name);
      CountConcat(block, rest, name);
      assert ordered == block + rest;
    }
  }

  lemma {:induction false} IndexIs(group: seq<string>, k: nat)
    requires Unique(group) && k < |group|
    ensures IndexIn(group, group[k]) == k
  {
    if k < |group| - 1 {
      IndexIs(group[..|group| - 1], k);
    }
  }

  /** Within a block, ranking orders by score and then by name. */
  lemma RankPair(g: Gateway, q: Request, r: Recipe, group: seq<string>, a: string, b: string)
    requires Unique(group) && Ascending(group, FitNameKey(g, q, r)) && a in group && b in group
    requires FitKey(g, q, r, a) == FitKey(g, q, r, b) && Lex(RankKey(g, group)(a), RankKey(g, group)(b))
    ensures Lex(GlobalKey(g, q, r)(a), GlobalKey(g, q, r)(b))
  {
    var j :| 0 <= j < |group| && group[j] == a;
    var k :| 0 <= k < |group| && group[k] == b;
    IndexIs(group, j);
    IndexIs(group, k);
    LexConcat(ScoreKey(g, a), ScoreKey(g, b), [j as real], [k as real]);
    LexConcat(ScoreKey(g, a), ScoreKey(g, b), Codes(a), Codes(b));
    LexConcat(FitKey(g, q, r, a), FitKey(g, q, r, b), ScoreKey(g, a) + Codes(a), ScoreKey(g, b) + Codes(b));
    LexConcat(FitKey(g, q, r, a), FitKey(g, q, r, b), Codes(a), Codes(b));
    if ScoreKey(g, a) == ScoreKey(g, b) {
      assert j <= k;
      assert Lex(FitNameKey(g, q, r)(group[j]), FitNameKey(g, q, r)(group[k]));
    }
  }

  lemma FitFirst(g: Gateway, q: Request, r: Recipe, a: string, b: string)
    ensures Lex(FitNameKey(g, q, r)(a), FitNameKey(g, q, r)(b)) ==> Lex(FitKey(g, q, r, a), FitKey(g, q, r, b))
    ensures Lex(FitKey(g, q, r, a), FitKey(g, q, r, b)) && FitKey(g, q, r, a) != FitKey(g, q, r, b) ==>
              Lex(GlobalKey(g, q, r)(a), GlobalKey(g, q, r)(b))
  {
    LexConcat(FitKey(g, q, r, a), FitKey(g, q, r, b), Codes(a), Codes(b));
    LexConcat(FitKey(g, q, r, a), FitKey(g, q, r, b), ScoreKey(g, a) + Codes(a), ScoreKey(g, b) + Codes(b));
    LexReflexive(FitKey(g, q, r, a));
  }

  lemma RankOfGroup(g: Gateway, group: seq<string>)
    requires Unique(group)
    ensures Unique(Rank(g, group)) && forall name | name in Rank(g, group) :: name in group
  {
    UniqueCount(group);
    forall name ensures multiset(Rank(g, group))[name] <= multiset(group)[name] {
      RankCount(g, group, name);
    }
    CountUnique(Rank(g, group));
    forall name | name in Rank(g, group) ensures name in group { RankIs(g, group, name); }
  }

  lemma RankSelects(g: Gateway)
    ensures Selects(RankOf(g))
  {
    forall group: seq<string> | Unique(group) ensures Unique(RankOf(g)(group)) && forall name | name in RankOf(g)(group) :: name in group {
      RankOfGroup(g, group);
    }
  }

  lemma {:induction false} UniqueCount(xs: seq<string>)
    requires Unique(xs)
    ensures forall x :: multiset(xs)[x] <= 1
  {
    if xs != [] {
      UniqueCount(xs[1..]);
      assert xs == [xs[0]] + xs[1..];
      assert xs[0] !in xs[1..];
    }
  }

  lemma {:induction false} CountUnique(xs: seq<string>)
    requires forall x :: multiset(xs)[x] <= 1
    ensures Unique(xs)
  {
    if xs != [] {
      assert xs == [xs[0]] + xs[1..];
      forall x ensures multiset(xs[1..])[x] <= 1 { assert multiset(xs)[x] <= 1; }
      assert multiset(xs)[xs[0]] == 1;
      assert xs[0] !in multiset(xs[1..]);
      CountUnique(xs[1..]);
      forall j, k | 0 <= j < k < |xs| ensures xs[j] != xs[k] {
        assert xs[k] == xs[1..][k - 1] && xs[k] in multiset(xs[1..]);
        assert j > 0 ==> xs[j] == xs[1..][j - 1];
      }
    }
  }

  lemma {:induction false} BlocksAscendGlobally(g: Gateway, q: Request, r: Recipe, ordered: seq<string>)
    requires Unique(ordered) && Ascending(ordered, FitNameKey(g, q, r))
    ensures var ranked := RankBlocks(FitOf(g, q, r), RankOf(g), ordered);
      Unique(ranked) && Ascending(ranked, GlobalKey(g, q, r)) && forall name | name in ranked :: name in ordered
    decreases |ordered|
  {
    if ordered != [] {
      var n := BlockLength(FitOf(g, q, r), ordered);
      var block, rest := ordered[..n], ordered[n..];
      BlocksAscendGlobally(g, q, r, rest);
      OneBlockMore(g, q, r, ordered, n, RankBlocks(FitOf(g, q, r), RankOf(g), rest));
      assert RankBlocks(FitOf(g, q, r), RankOf(g), ordered) == Rank(g, block) + RankBlocks(FitOf(g, q, r), RankOf(g), rest);
      hide Rank, BlockLength, RankBlocks, Unique, Ascending;
    }
  }

  lemma OneBlockMore(g: Gateway, q: Request, r: Recipe, ordered: seq<string>, n: nat, right: seq<string>)
    requires Unique(ordered) && Ascending(ordered, FitNameKey(g, q, r)) && ordered != [] && n == BlockLength(FitOf(g, q, r), ordered)
    requires Unique(right) && Ascending(right, GlobalKey(g, q, r)) && forall name | name in right :: name in ordered[n..]
    ensures var ranked := Rank(g, ordered[..n]) + right;
      Unique(ranked) && Ascending(ranked, GlobalKey(g, q, r)) && forall name | name in ranked :: name in ordered
  {
    var key, block := GlobalKey(g, q, r), ordered[..n];
    FitAscends(g, q, r, ordered);
    RankOfGroup(g, block);
    BlockRankAscends(g, q, r, block);
    hide Lex, Rank, FitKey, GlobalKey, BlockLength, Unique, Ascending;
    forall a, b | a in Rank(g, block) && b in right ensures Lex(key(a), key(b)) && a != b {
      BlocksApart(g, q, r, ordered, a, b);
    }
    JoinAscending(key, Rank(g, block), right);
  }

  lemma BlocksApart(g: Gateway, q: Request, r: Recipe, ordered: seq<string>, a: string, b: string)
    requires ordered != [] && Ascending(ordered, FitOf(g, q, r))
    requires var n := BlockLength(FitOf(g, q, r), ordered); a in ordered[..n] && b in ordered[n..]
    ensures Lex(GlobalKey(g, q, r)(a), GlobalKey(g, q, r)(b)) && a != b
  {
    hide FitKey, Lex, BlockLength, Ascending;
    FitApart(FitOf(g, q, r), ordered, a, b);
    FitFirst(g, q, r, a, b);
  }

  lemma FitAscends(g: Gateway, q: Request, r: Recipe, ordered: seq<string>)
    requires Ascending(ordered, FitNameKey(g, q, r))
    ensures Ascending(ordered, FitOf(g, q, r))
  {
    forall j, k | 0 <= j <= k < |ordered| ensures Lex(FitKey(g, q, r, ordered[j]), FitKey(g, q, r, ordered[k])) {
      FitFirst(g, q, r, ordered[j], ordered[k]);
    }
  }

  lemma BlockRankAscends(g: Gateway, q: Request, r: Recipe, block: seq<string>)
    requires Unique(block) && Ascending(block, FitNameKey(g, q, r))
    requires forall k | 0 <= k < |block| :: FitKey(g, q, r, block[k]) == FitKey(g, q, r, block[0])
    ensures Ascending(Rank(g, block), GlobalKey(g, q, r))
  {
    var ranked := Rank(g, block);
    SortedAscending(Available(g, block), RankKey(g, block));
    forall j, k | 0 <= j <= k < |ranked| ensures Lex(GlobalKey(g, q, r)(ranked[j]), GlobalKey(g, q, r)(ranked[k])) {
      RankIs(g, block, ranked[j]);
      RankIs(g, block, ranked[k]);
      assert Lex(RankKey(g, block)(ranked[j]), RankKey(g, block)(ranked[k]));
      RankPair(g, q, r, block, ranked[j], ranked[k]);
    }
  }

  /** Ordering by fit, grouping, ranking every group and joining the groups is exactly one sort of the
      available eligible tuples by fit, then observed score, then name. */
  lemma GroupedRankingIsOneSort(g: Gateway, q: Request, r: Recipe, names: seq<string>)
    ensures var eligible := Eligible(g, q, r, true, Sorted(names, NameKey()));
      Ranked(g, q, r, names) == Sorted(Available(g, eligible), GlobalKey(g, q, r))
  {
    var eligible := Eligible(g, q, r, true, Sorted(names, NameKey()));
    var ordered, ranked := Ordered(g, q, r, names), Ranked(g, q, r, names);
    EligibleIsSelection(g, q, r, true, Sorted(names, NameKey()), "");
    SortedAscending(eligible, FitNameKey(g, q, r));
    UniqueCount(eligible);
    CountUnique(ordered);
    BlocksAscendGlobally(g, q, r, ordered);
    forall name ensures multiset(ranked)[name] == multiset(Available(g, eligible))[name] {
      RankBlocksCount(g, FitOf(g, q, r), ordered, name);
      AvailableCount(g, eligible, name);
    }
    assert multiset(ranked) == multiset(Available(g, eligible));
    var sorted := Sorted(Available(g, eligible), GlobalKey(g, q, r));
    SortedAscending(Available(g, eligible), GlobalKey(g, q, r));
    forall a, b | a in ranked && b in ranked && GlobalKey(g, q, r)(a) == GlobalKey(g, q, r)(b) ensures a == b {
      GlobalKeyNames(g, q, r, a, b);
    }
    AscendingUnique(ranked, sorted, GlobalKey(g, q, r));
  }

  lemma GlobalKeyNames(g: Gateway, q: Request, r: Recipe, a: string, b: string)
    requires GlobalKey(g, q, r)(a) == GlobalKey(g, q, r)(b)
    ensures a == b
  {
    assert GlobalKey(g, q, r)(a)[9..] == Codes(a) && GlobalKey(g, q, r)(b)[9..] == Codes(b);
    CodesInjective(a, b);
  }

  // ---------------------------------------------------------------- caps and rejections

  /** The estimate of a tuple for a request respects every cap the recipe or else the operator sets. */
  predicate WithinCaps(g: Gateway, r: Recipe, e: Estimate) {
    && RespectsCap(e.total, g.policy.maxTotal, CapOf(r.costs, (p: CostPolicy) => p.maxTotal))
    && RespectsCap(e.coldCost, g.policy.maxCold, CapOf(r.costs, (p: CostPolicy) => p.maxCold))
    && RespectsCap(e.idleCost, g.policy.maxIdle, CapOf(r.costs, (p: CostPolicy) => p.maxIdle))
  }

  /** What the attested estimate of a tuple for a request would be. */
  function Attested(g: Gateway, q: Request, r: Recipe, name: string): Estimate
    requires name in g.tuples
  {
    CostEstimate(g, q, r, g.tuples[name], Timeout(g, q, r))
  }

  lemma PassingKeepsCaps(g: Gateway, q: Request, r: Recipe, name: string)
    requires Passes(g, q, r, true, name)
    ensures WithinCaps(g, r, Attested(g, q, r, name))
  {
    GateSeesAttestedEstimate(g, q, r, g.tuples[name]);
    AcceptedRespectsCaps(g.policy, r.costs, g.freshness(name), Attested(g, q, r, name));
    hide CostEstimate, GateEstimate;
  }

  /** For any recipe, named or selected: the estimate attested in a plan without a requested tuple is within the
      caps, and so is that of every tuple the dispatcher may fall back to; the chain has no duplicates, its
      tuples pass every gate and are available, and the plan fits its recipe's context and its lease. */
  lemma PlanWithKeepsCaps(g: Gateway, request: Request, r: Recipe, names: seq<string>)
    requires CompileWith(g, request, r, names).Ok? && !Requested(request)
    ensures var plan, q := CompileWith(g, request, r, names).value, WithDefaults(request, r);
      && plan.recipe == r && plan.chain != [] && Unique(plan.chain)
      && plan.chain[0] in g.tuples && plan.estimate == Attested(g, q, r, plan.chain[0]) && WithinCaps(g, r, plan.estimate)
      && (forall name | name in plan.chain ::
            && name in names && Passes(g, q, r, true, name) && g.available(name)
            && WithinCaps(g, r, Attested(g, q, r, name)))
      && plan.timeout <= plan.leaseTtl && g.requiredLen(q, r) <= r.contextBudget
  {
    var plan, q := CompileWith(g, request, r, names).value, WithDefaults(request, r);
    ChainIsRoutable(g, q, r, names);
    ChainUnique(g, q, r, names);
    assert plan.chain == Ranked(g, q, r, names) && plan.estimate == Attested(g, q, r, plan.chain[0]);
    forall name | name in plan.chain
      ensures name in names && Passes(g, q, r, true, name) && g.available(name) && WithinCaps(g, r, Attested(g, q, r, name))
    {
      RankedIs(g, q, r, names, name);
      PassingKeepsCaps(g, q, r, name);
    }
    hide Ranked, WithinCaps, Passes, CostEstimate;
  }

  /** Every plan without a requested tuple, whether its request names a recipe or has one selected. */
  lemma PlanKeepsCaps(g: Gateway, request: Request, recipes: seq<Recipe>, names: seq<string>)
    requires Compile(g, request, recipes, names).Ok? && !Requested(request)
    ensures var plan := Compile(g, request, recipes, names).value;
            var q := WithDefaults(request, plan.recipe);
      && plan.chain != [] && Unique(plan.chain)
      && plan.chain[0] in g.tuples && plan.estimate == Attested(g, q, plan.recipe, plan.chain[0]) && WithinCaps(g, plan.recipe, plan.estimate)
      && (forall name | name in plan.chain ::
            && name in names && Passes(g, q, plan.recipe, true, name) && g.available(name)
            && WithinCaps(g, plan.recipe, Attested(g, q, plan.recipe, name)))
      && plan.timeout <= plan.leaseTtl && g.requiredLen(q, plan.recipe) <= plan.recipe.contextBudget
  {
    PlanWithKeepsCaps(g, request, RecipeFor(g, request, recipes, names).value, names);
    hide RecipeFor, CompileWith, WithinCaps, Passes, Attested;
  }

  lemma ChainUnique(g: Gateway, q: Request, r: Recipe, names: seq<string>)
    ensures Unique(Ranked(g, q, r, names))
  {
    var eligible := Eligible(g, q, r, true, Sorted(names, NameKey()));
    EligibleIsSelection(g, q, r, true, Sorted(names, NameKey()), "");
    SortedAscending(eligible, FitNameKey(g, q, r));
    UniqueCount(eligible);
    CountUnique(Ordered(g, q, r, names));
    BlocksAscendGlobally(g, q, r, Ordered(g, q, r, names));
  }

  /** A requested tuple is not put through the cost gate: the chain is the same under every cost policy. */
  lemma RequestedTupleSkipsGate(g: Gateway, q: Request, r: Recipe, names: seq<string>, policy: CostPolicy, costs: Option<CostPolicy>)
    requires Requested(q)
    requires var name := q.requested.value; g.routeRefused(q, r, name, false) == g.routeRefused(q, r.(costs := costs), name, false)
    ensures TupleChain(g, q, r, names) == TupleChain(g.(policy := policy), q, r.(costs := costs), names)
  {
    var name := q.requested.value;
    EligibleIsSelection(g, q, r, false, [name], name);
    EligibleIsSelection(g.(policy := policy), q, r.(costs := costs), false, [name], name);
    hide Eligible;
  }

  predicate CapRefusal(answer: Option<Refusal>) {
    answer in {Some(ColdStartCost), Some(IdleCost), Some(TotalCost)}
  }

  lemma CapRefusalIff(g: Gateway, q: Request, r: Recipe, name: string)
    requires name in g.tuples
    ensures CapRefusal(CostRejection(g, q, r, name, true)) <==> !WithinCaps(g, r, Attested(g, q, r, name))
  {
    GateSeesAttestedEstimate(g, q, r, g.tuples[name]);
    var p, e := Effective(g.policy, r.costs), Attested(g, q, r, name);
    assert CapRefusal(Gate(p, g.freshness(name), e)) <==> Exceeds(e.coldCost, p.maxCold) || Exceeds(e.idleCost, p.maxIdle) || Exceeds(e.total, p.maxTotal);
    hide CostEstimate, GateEstimate, Gate;
  }

  /** Exactly when a compiled plan's attested estimate is within the caps, under every policy: always without a
      requested tuple; with one, if and only if the gate it skipped would not have refused it for a cap. */
  lemma PlanWithinCapsIff(g: Gateway, request: Request, recipes: seq<Recipe>, names: seq<string>)
    requires Compile(g, request, recipes, names).Ok?
    ensures var plan := Compile(g, request, recipes, names).value;
      && plan.chain != [] && plan.chain[0] in g.tuples
      && (WithinCaps(g, plan.recipe, plan.estimate) <==>
            || !Requested(request)
            || !CapRefusal(CostRejection(g, WithDefaults(request, plan.recipe), plan.recipe, request.requested.value, true)))
  {
    var plan := Compile(g, request, recipes, names).value;
    var r, q := plan.recipe, WithDefaults(request, plan.recipe);
    ChainIsRoutable(g, q, r, names);
    if Requested(request) {
      assert plan.chain == [request.requested.value];
      CapRefusalIff(g, q, r, plan.chain[0]);
    } else {
      PlanKeepsCaps(g, request, recipes, names);
    }
    hide RecipeFor, Ranked, WithinCaps, CostRejection, CostEstimate, Eligible;
  }

  // ---------------------------------------------------------------- a requested tuple over its cap

  const PLAIN_SPEC := Spec("echo", OtherSurface, 0.0, None, None, None, None, None, None, None, None, None, None, None, None, None)

  const SMALL_RECIPE := Recipe("r", "infer", 0, 0, 0, 1, 1, 1, None, Defaults(None, None), None)

  function AskingFor(name: Option<string>): Request {
    Request("infer", Some("r"), name, false, None, None, None, false, false, false)
  }

  /** One tuple that costs a dollar a second more than the operator's cap, and nothing else in its way. */
  function Overpriced(cap: real): Gateway {
    Gateway(map["t" := TupleInfo(PLAIN_SPEC.(costPerSecond := cap + 1.0), false, 0, 1)],
            CostPolicy(Some(cap), None, None, None, None, None), 1, 1, 0,
            (_, _) => false, (_, _) => false, (_, _) => 0, (_, _, _, _) => false, (_, _, _) => false, (_) => Fresh,
            (_) => true, (_) => Score(0, 0.0, None, None), (_, _, _) => 0)
  }

  /** Whatever the cap, a request for the tuple by name compiles, and attests an estimate over the cap; the same
      request without the name is refused. */
  lemma RequestedPlanOverCap(cap: real)
    requires cap >= 0.0
    ensures var g, plan := Overpriced(cap), Compile(Overpriced(cap), AskingFor(Some("t")), [SMALL_RECIPE], ["t"]);
      && plan.Ok? && plan.value.chain == ["t"] && plan.value.estimate.total == cap + 1.0
      && !WithinCaps(g, plan.value.recipe, plan.value.estimate)
      && Compile(g, AskingFor(None), [SMALL_RECIPE], ["t"]) == Err(NoTuple)
  {
    var g := Overpriced(cap);
    OverpricedRequested(cap);
    OverpricedUnrequested(cap);
    OverpricedEstimate(cap, Some("t"));
    assert "infer" in SUPPORTED_TASKS && Named([SMALL_RECIPE], "r") == Some(SMALL_RECIPE);
    assert RecipeFor(g, AskingFor(Some("t")), [SMALL_RECIPE], ["t"]) == Ok(SMALL_RECIPE) == RecipeFor(g, AskingFor(None), [SMALL_RECIPE], ["t"]);
    hide RecipeFor, TupleChain, CostEstimate, Passes;
  }

  lemma OverpricedEstimate(cap: real, name: Option<string>)
    ensures var e := Attested(Overpriced(cap), AskingFor(name), SMALL_RECIPE, "t");
      e.total == cap + 1.0 && !WithinCaps(Overpriced(cap), SMALL_RECIPE, e)
  {
    PlainEstimate(cap + 1.0);
    hide EstimateCost;
  }

  lemma OverpricedRequested(cap: real)
    ensures TupleChain(Overpriced(cap), AskingFor(Some("t")), SMALL_RECIPE, ["t"]) == Ok(["t"])
  {
    EligibleIsSelection(Overpriced(cap), AskingFor(Some("t")), SMALL_RECIPE, false, ["t"], "t");
    hide Eligible, Ranked, Gate, GateEstimate;
  }

  lemma OverpricedUnrequested(cap: real)
    requires cap >= 0.0
    ensures TupleChain(Overpriced(cap), AskingFor(None), SMALL_RECIPE, ["t"]) == Err(NoTuple)
  {
    var g := Overpriced(cap);
    OverpricedEstimate(cap, None);
    CapRefusalIff(g, AskingFor(None), SMALL_RECIPE, "t");
    var ranked := Ranked(g, AskingFor(None), SMALL_RECIPE, ["t"]);
    hide Eligible, Ranked, WithinCaps, CostEstimate, CostRejection, Overpriced;
    if ranked != [] {
      RankedIs(g, AskingFor(None), SMALL_RECIPE, ["t"], ranked[0]);
    }
  }

  lemma PlainEstimate(price: real)
    ensures EstimateCost(PLAIN_SPEC.(costPerSecond := price), Defaults(None, None), 1, Some(0), Some(0)).total == price
  {
    assert Lower("echo") == "echo";
  }

  /** The reported reasons are complete: a named tuple of the catalog is in the chain exactly when no reason
      is reported for it, so an empty chain always comes with a reason for every tuple. */
  lemma RejectionsExplainChain(g: Gateway, q: Request, r: Recipe, names: seq<string>, name: string)
    requires name in g.tuples && name in names && name != ""
    ensures name in Ranked(g, q, r, names) <==> Rejected(g, q, r, name).None?
    ensures !Requested(q) && TupleChain(g, q, r, names) == Err(NoTuple) ==> Rejected(g, q, r, name).Some?
  {
    RankedIs(g, q, r, names, name);
    hide Ranked, CostRejection;
  }
}
