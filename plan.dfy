/** Post-processing of optimizeMealPlan (optimizer.ts:86-107): one row per
    food with its serving and cost rounded to cents, only the rows whose
    rounded serving exceeds 0.01, dearest first, then the total and the
    nutrients rounded for display. */
module Plan {
  import opened Foods
  import opened Nutrition
  import opened Ranking
  import opened Rounding

  /** The row the `map` at optimizer.ts:88-92 builds for a food eaten `x`
      times: both numbers whole cents, within half a cent of the exact serving
      and of the exact cost, which fixes them as the roundings to cents. */
  function Entry(food: FoodItem, x: real): (e: PlanItem)
    ensures e.food == food
    ensures x - 0.005 < e.servings <= x + 0.005
    ensures food.cost * x - 0.005 < e.cost <= food.cost * x + 0.005
    ensures WholeCents(e.servings) && WholeCents(e.cost)
  {
    PlanItem(food, Round2(x), Round2(food.cost * x))
  }

  /** The `filter` at optimizer.ts:93, on the rounded serving. */
  predicate Kept(x: real)
  {
    Round2(x) > 0.01
  }

  /** Positions `< m` whose row survives the filter, in catalog order. */
  function KeptIndices(s: seq<real>, m: nat): (r: seq<nat>)
    requires m <= |s|
    ensures |r| <= m
    ensures forall k :: 0 <= k < |r| ==> r[k] < m && Kept(s[r[k]])
    ensures forall i :: 0 <= i < m && Kept(s[i]) ==> i in r
    ensures forall k, l :: 0 <= k < l < |r| ==> r[k] < r[l]
    decreases m
  {
    if m == 0 then []
    else
      var r := KeptIndices(s, m - 1);
      if Kept(s[m - 1]) then r + [m - 1] else r
  }

  /** The rounded costs of the kept rows, in catalog order: the sort key. */
  function KeptCosts(foods: seq<FoodItem>, s: seq<real>, kept: seq<nat>): (r: seq<real>)
    requires |s| == |foods| && forall k :: 0 <= k < |kept| ==> kept[k] < |foods|
    ensures |r| == |kept|
  {
    seq(|kept|, k requires 0 <= k < |kept| => Entry(foods[kept[k]], s[kept[k]]).cost)
  }

  /** The catalog position of each row of the plan, in the order of the rows:
      the kept positions reordered by the stable descending sort on cost at
      optimizer.ts:94. */
  function PlanIndices(foods: seq<FoodItem>, s: seq<real>): (r: seq<nat>)
    requires |s| == |foods|
    ensures forall k :: 0 <= k < |r| ==> r[k] < |foods|
  {
    var kept := KeptIndices(s, |s|);
    var order := Rank(KeptCosts(foods, s, kept));
    seq(|order|, k requires 0 <= k < |order| => kept[order[k]])
  }

  function MealPlan(foods: seq<FoodItem>, s: seq<real>): (plan: seq<PlanItem>)
    requires |s| == |foods|
  {
    var idx := PlanIndices(foods, s);
    seq(|idx|, k requires 0 <= k < |idx| => Entry(foods[idx[k]], s[idx[k]]))
  }

  /** The `reduce` at optimizer.ts:96: the row costs added from the front. */
  function SumCosts(plan: seq<PlanItem>): real
    decreases |plan|
  {
    if |plan| == 0 then 0.0
    else SumCosts(plan[..|plan| - 1]) + plan[|plan| - 1].cost
  }

  /** The nutrients reported, each rounded to one decimal (optimizer.ts:101-106):
      whole tenths, within 0.05 of the exact value. */
  function RoundNutrients(n: Nutrients): (r: Nutrients)
    ensures n.calories - 0.05 < r.calories <= n.calories + 0.05
    ensures n.protein - 0.05 < r.protein <= n.protein + 0.05
    ensures n.fat - 0.05 < r.fat <= n.fat + 0.05
    ensures n.carbs - 0.05 < r.carbs <= n.carbs + 0.05
    ensures forall which: Nutrient :: (Amount(r, which) * 10.0).Floor as real == Amount(r, which) * 10.0
  {
    Nutrients(Round1(n.calories), Round1(n.protein), Round1(n.fat), Round1(n.carbs))
  }

  /** Every row's rounded serving exceeds 0.01 and is at most half a cent
      over its food's cap. */
  predicate RowsWithinCaps(plan: seq<PlanItem>)
  {
    forall k :: 0 <= k < |plan| ==> 0.01 < plan[k].servings <= Cap(plan[k].food) + 0.005
  }

  /** Rows are ordered by non-increasing cost. */
  predicate DearestFirst(plan: seq<PlanItem>)
  {
    forall k, l :: 0 <= k < l < |plan| ==> plan[k].cost >= plan[l].cost
  }

  /** The value optimizeMealPlan returns for the final serving vector `s`. */
  function BuildResult(foods: seq<FoodItem>, c: NutrientConstraints, s: seq<real>): OptimizationResult
    requires |s| == |foods|
  {
    var plan := MealPlan(foods, s);
    OptimizationResult(plan, Round2(SumCosts(plan)), RoundNutrients(CalculateNutrients(foods, s)), c)
  }

  /** The row positions are the kept positions, each exactly once: food `i`
      has a row exactly when its rounded serving exceeds 0.01, no food has two
      rows, and so the plan is no longer than the catalog. */
  lemma PlanIndicesFilter(foods: seq<FoodItem>, s: seq<real>)
    requires |s| == |foods|
    ensures var idx := PlanIndices(foods, s);
      && |idx| <= |foods|
      && (forall i :: 0 <= i < |foods| ==> (i in idx <==> Kept(s[i])))
      && (forall k, l :: 0 <= k < l < |idx| ==> idx[k] != idx[l])
  {
    var kept := KeptIndices(s, |s|);
    var costs := KeptCosts(foods, s, kept);
    var idx := PlanIndices(foods, s);
    Reordered(kept, costs, idx);
    forall i | 0 <= i < |foods| && Kept(s[i]) ensures i in idx {
      assert i in kept;
    }
  }

  /** Reordering a strictly increasing list of positions by a ranking keeps
      exactly its entries and keeps them distinct. */
  lemma Reordered(kept: seq<nat>, costs: seq<real>, idx: seq<nat>)
    requires |costs| == |kept|
    requires forall k, l :: 0 <= k < l < |kept| ==> kept[k] < kept[l]
    requires var order := Rank(costs);
      |idx| == |order| && forall k :: 0 <= k < |idx| ==> idx[k] == kept[order[k]]
    ensures forall x :: x in kept ==> x in idx
    ensures forall k, l :: 0 <= k < l < |idx| ==> idx[k] != idx[l]
  {
    var order := Rank(costs);
    forall x | x in kept ensures x in idx {
      var j :| 0 <= j < |kept| && kept[j] == x;
      assert j in order;
      var k :| 0 <= k < |order| && order[k] == j;
      assert idx[k] == x;
    }
    forall k, l | 0 <= k < l < |idx| ensures idx[k] != idx[l] {
      RankDistinct(costs, k, l);
      if order[k] < order[l] {
        assert kept[order[k]] < kept[order[l]];
      } else {
        assert kept[order[l]] < kept[order[k]];
      }
    }
  }

  /** Rows come dearest first, and rows of equal cost keep catalog order:
      what a stable sort with comparator `b.cost - a.cost` yields. */
  lemma PlanSorted(foods: seq<FoodItem>, s: seq<real>)
    requires |s| == |foods|
    ensures var plan := MealPlan(foods, s);
      var idx := PlanIndices(foods, s);
      && |plan| == |idx|
      && (forall k :: 0 <= k < |plan| ==> plan[k] == Entry(foods[idx[k]], s[idx[k]]) && Kept(s[idx[k]]))
      && (forall k, l :: 0 <= k < l < |plan| ==> plan[k].cost >= plan[l].cost)
      && (forall k, l :: 0 <= k < l < |plan| && plan[k].cost == plan[l].cost ==> idx[k] < idx[l])
  {
    var kept := KeptIndices(s, |s|);
    var costs := KeptCosts(foods, s, kept);
    var order := Rank(costs);
    var idx := PlanIndices(foods, s);
    var plan := MealPlan(foods, s);
    assert forall k :: 0 <= k < |idx| ==> idx[k] == kept[order[k]];
    assert forall k :: 0 <= k < |plan| ==> plan[k].cost == costs[order[k]];
  }

  /** Rows of non-negative cost add up to a non-negative total that is at
      least any one row's cost. */
  lemma {:induction false} SumCostsNonNegative(plan: seq<PlanItem>)
    requires forall k :: 0 <= k < |plan| ==> plan[k].cost >= 0.0
    ensures SumCosts(plan) >= 0.0
    ensures forall k :: 0 <= k < |plan| ==> SumCosts(plan) >= plan[k].cost
    decreases |plan|
  {
    if |plan| > 0 {
      var n := |plan| - 1;
      SumCostsNonNegative(plan[..n]);
      assert forall k :: 0 <= k < n ==> plan[..n][k] == plan[k];
    }
  }

  /** Row costs that are whole numbers of cents add up to a whole number of
      cents. */
  lemma {:induction false} SumCostsWholeCents(plan: seq<PlanItem>)
    requires forall k :: 0 <= k < |plan| ==> WholeCents(plan[k].cost)
    ensures WholeCents(SumCosts(plan))
    decreases |plan|
  {
    if |plan| > 0 {
      var n := |plan| - 1;
      assert forall k :: 0 <= k < n ==> plan[..n][k] == plan[k];
      SumCostsWholeCents(plan[..n]);
      WholeCentsAdd(SumCosts(plan[..n]), plan[n].cost);
    }
  }

  /** For a serving vector within the caps, each row is the food at its
      catalog position with a rounded serving above 0.01 and at most half a
      cent over the cap, and a cost that is the exact cost of the unrounded
      serving rounded to cents, hence non-negative. */
  lemma PlanRowBounds(foods: seq<FoodItem>, s: seq<real>)
    requires ValidCatalog(foods) && WithinCaps(foods, s)
    ensures var plan := MealPlan(foods, s);
      var idx := PlanIndices(foods, s);
      && |plan| == |idx|
      && forall k :: 0 <= k < |idx| ==>
           && plan[k].food == foods[idx[k]]
           && 0.01 < plan[k].servings <= Cap(plan[k].food) + 0.005
           && plan[k].cost == Round2(foods[idx[k]].cost * s[idx[k]])
           && plan[k].cost >= 0.0
  {
    var plan := MealPlan(foods, s);
    var idx := PlanIndices(foods, s);
    PlanSorted(foods, s);
    forall k | 0 <= k < |idx|
      ensures && plan[k].food == foods[idx[k]]
              && 0.01 < plan[k].servings <= Cap(plan[k].food) + 0.005
              && plan[k].cost == Round2(foods[idx[k]].cost * s[idx[k]])
              && plan[k].cost >= 0.0
    {
      var i := idx[k];
      assert plan[k] == Entry(foods[i], s[i]);
      RowBounds(foods[i], s[i]);
    }
  }

  /** The row of a food eaten `x` times, within its cap, that passes the
      filter. */
  lemma RowBounds(food: FoodItem, x: real)
    requires ValidFood(food) && 0.0 <= x <= Cap(food) && Kept(x)
    ensures var e := Entry(food, x);
      && e.food == food
      && 0.01 < e.servings <= Cap(food) + 0.005
      && e.cost == Round2(food.cost * x)
      && e.cost >= 0.0
  {
    RowServing(food, x);
    RowCost(food, x);
  }

  lemma RowServing(food: FoodItem, x: real)
    requires x <= Cap(food) && Kept(x)
    ensures 0.01 < Entry(food, x).servings <= Cap(food) + 0.005
  {
    assert Entry(food, x).servings == Round2(x);
  }

  lemma RowCost(food: FoodItem, x: real)
    requires food.cost > 0.0 && x >= 0.0
    ensures Entry(food, x).food == food
    ensures Entry(food, x).cost == Round2(food.cost * x) >= 0.0
  {
    var q := food.cost * x;
    assert Entry(food, x).cost == Round2(q);
    NonNegativeProduct(food.cost, x);
    Round2NonNegative(q);
  }

  /** The result for a serving vector within the caps echoes the constraints,
      has the rows above, and a non-negative total that is exactly the sum of
      the row costs: each row cost is already whole cents, so the final
      rounding changes nothing. */
  lemma ResultShape(foods: seq<FoodItem>, c: NutrientConstraints, s: seq<real>)
    requires ValidCatalog(foods) && WithinCaps(foods, s)
    ensures var r := BuildResult(foods, c, s);
      && r.constraints == c
      && r.mealPlan == MealPlan(foods, s)
      && r.totalCost >= 0.0
      && r.totalCost == SumCosts(r.mealPlan)
  {
    var plan := MealPlan(foods, s);
    PlanRowBounds(foods, s);
    SumCostsNonNegative(plan);
    SumCostsWholeCents(plan);
    Round2OfWholeCents(SumCosts(plan));
  }

  /** The reported nutrients are the exact sums rounded to one decimal: each
      a whole number of tenths within 0.05 of the exact sum. */
  lemma ResultNutrients(foods: seq<FoodItem>, c: NutrientConstraints, s: seq<real>)
    requires |s| == |foods|
    ensures var r := BuildResult(foods, c, s).nutrients;
      var n := CalculateNutrients(foods, s);
      forall which: Nutrient ::
        && Amount(n, which) - 0.05 < Amount(r, which) <= Amount(n, which) + 0.05
        && (Amount(r, which) * 10.0).Floor as real == Amount(r, which) * 10.0
  {
    var r := BuildResult(foods, c, s).nutrients;
    var n := CalculateNutrients(foods, s);
    assert r == RoundNutrients(n);
  }

  /** An empty catalog gives an empty plan, a total of 0 and zero nutrients. */
  lemma EmptyCatalog(c: NutrientConstraints)
    ensures BuildResult([], c, []) == OptimizationResult([], 0.0, Zero, c)
  {
    NutrientsOfZeros([]);
    assert Zeros(0) == [];
    Round2NonNegative(0.0);
    Round1OfZero();
  }

  lemma NonNegativeProduct(a: real, b: real)
    requires a >= 0.0 && b >= 0.0
    ensures a * b >= 0.0
  {
  }
}
