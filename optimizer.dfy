/** optimizeMealPlan (optimizer.ts:3-109): the serving array is updated in
    place by four loops, then turned into the returned plan. Each loop keeps
    "finishing the walk from here gives the pass's result" as its invariant,
    so the method returns exactly the result of the pass functions of module
    Passes followed by the post-processing of module Plan. */
module Optimizer {
  import opened Foods
  import opened Nutrition
  import opened Ranking
  import opened Passes
  import opened Plan
  import opened Rounding

  /** The loop at optimizer.ts:28-39 over the foods in the order `order`,
      starting from calorie target `target`; returns what is left of the
      target. */
  method SeedCalories(foods: seq<FoodItem>, order: seq<nat>, servings: array<real>, target: real)
    returns (remaining: real)
    requires servings.Length == |foods| && OrderInRange(foods, order)
    modifies servings
    ensures Seeding(servings[..], remaining) == SeedWalk(foods, order, 0, old(servings[..]), target)
  {
    var targetCalories := target;
    var k := 0;
    while k < |order|
      invariant 0 <= k <= |order|
      invariant SeedWalk(foods, order, k, servings[..], targetCalories) == SeedWalk(foods, order, 0, old(servings[..]), target)
    {
      var idx := order[k];
      var food := foods[idx];
      var maxAllowed := Cap(food);
      ghost var s0, t0 := servings[..], targetCalories;
      if targetCalories > 0.0 && food.calories > 0.0 {
        var needed := targetCalories / food.calories;
        var serving := Min(needed, maxAllowed);
        servings[idx] := serving;
        targetCalories := Max(0.0, targetCalories - food.calories * serving);
        assert servings[..] == s0[idx := serving];
        assert t0 > 0.0 && foods[order[k]].calories > 0.0;
        assert serving == Min(t0 / foods[order[k]].calories, Cap(foods[order[k]]));
        assert targetCalories == Max(0.0, t0 - foods[order[k]].calories * serving);
        SeedWalkFires(foods, order, k, s0, t0, serving, servings[..], targetCalories);
      } else {
        SeedWalkSkips(foods, order, k, s0, t0);
      }
      k := k + 1;
    }
    remaining := targetCalories;
  }

  /** The loops at optimizer.ts:43-55 (protein, by protein per cost) and
      57-69 (calories, in catalog order): before each food the gap to the
      minimum is read from the current nutrients, and a food with room under
      its cap gets the servings that close it, capped. */
  method ChaseNutrient(foods: seq<FoodItem>, which: Nutrient, minimum: real, order: seq<nat>, servings: array<real>)
    requires servings.Length == |foods| && OrderInRange(foods, order)
    modifies servings
    ensures servings[..] == ChaseWalk(foods, which, minimum, order, 0, old(servings[..]))
  {
    var nutrients := CalculateNutrients(foods, servings[..]);
    var k := 0;
    while k < |order|
      invariant 0 <= k <= |order|
      invariant nutrients == CalculateNutrients(foods, servings[..])
      invariant ChaseWalk(foods, which, minimum, order, k, servings[..]) == ChaseWalk(foods, which, minimum, order, 0, old(servings[..]))
    {
      var idx := order[k];
      var food := foods[idx];
      var maxAllowed := Cap(food);
      var gap := Max(0.0, minimum - Amount(nutrients, which));
      if gap > 0.0 && PerServing(food, which) > 0.0 && servings[idx] < maxAllowed {
        var needed := gap / PerServing(food, which);
        var canAdd := Min(needed, maxAllowed - servings[idx]);
        servings[idx] := servings[idx] + canAdd;
        nutrients := CalculateNutrients(foods, servings[..]);
      }
      k := k + 1;
    }
  }

  /** The block at optimizer.ts:71-84: the carb gap is read once; each food
      with carbs and room under its cap is topped up by it, capped, and the
      loop stops as soon as the carbs reach the minimum. */
  method TopUpCarbs(foods: seq<FoodItem>, minCarbs: real, servings: array<real>)
    requires servings.Length == |foods|
    modifies servings
    ensures servings[..] == CarbPass(foods, minCarbs, old(servings[..]))
  {
    var nutrients := CalculateNutrients(foods, servings[..]);
    var carbsGap := Max(0.0, minCarbs - nutrients.carbs);
    if carbsGap > 0.0 {
      var i := 0;
      while i < |foods|
        invariant 0 <= i <= |foods|
        invariant CarbWalk(foods, carbsGap, minCarbs, i, servings[..]) == CarbWalk(foods, carbsGap, minCarbs, 0, old(servings[..]))
      {
        var food := foods[i];
        var maxAllowed := Cap(food);
        if food.carbs > 0.0 && servings[i] < maxAllowed {
          var needed := carbsGap / food.carbs;
          var canAdd := Min(needed, maxAllowed - servings[i]);
          servings[i] := servings[i] + canAdd;
          nutrients := CalculateNutrients(foods, servings[..]);
          if nutrients.carbs >= minCarbs {
            break;
          }
        }
        i := i + 1;
      }
    }
  }

  method OptimizeMealPlan(foods: seq<FoodItem>, constraints: NutrientConstraints) returns (result: OptimizationResult)
    requires ValidCatalog(foods)
    ensures result == BuildResult(foods, constraints, Greedy(foods, constraints))
    ensures result.constraints == constraints
    ensures RowsWithinCaps(result.mealPlan) && DearestFirst(result.mealPlan)
    ensures result.totalCost >= 0.0 && result.totalCost == SumCosts(result.mealPlan)
    ensures foods == [] ==> result == OptimizationResult([], 0.0, Zero, constraints)
  {
    var n := |foods|;
    var servings := new real[n](_ => 0.0);
    var sortedByProteinCost := Rank(Scores(foods, Protein));
    var sortedByCalorieCost := Rank(Scores(foods, Calories));
    assert servings[..] == Zeros(n);

    var remaining := SeedCalories(foods, sortedByCalorieCost, servings, CalorieTarget(constraints));
    assert servings[..] == AfterSeeding(foods, constraints).servings;
    ChaseNutrient(foods, Protein, constraints.minProtein, sortedByProteinCost, servings);
    assert servings[..] == AfterProtein(foods, constraints);
    ChaseNutrient(foods, Calories, constraints.minCalories, CatalogOrder(n), servings);
    assert servings[..] == AfterCalories(foods, constraints);
    TopUpCarbs(foods, constraints.minCarbs, servings);
    assert servings[..] == Greedy(foods, constraints);

    // Post-processing.
    var finalServings := servings[..];
    var finalNutrients := CalculateNutrients(foods, finalServings);
    var mealPlan := MealPlan(foods, finalServings);
    var totalCost := SumCosts(mealPlan);
    result := OptimizationResult(mealPlan, Round2(totalCost), RoundNutrients(finalNutrients), constraints);

    GreedyResultShape(foods, constraints);
  }

  /** What the returned value promises: the constraints come back unchanged;
      every row has a rounded serving above 0.01 and at most half a cent over
      its food's cap; rows come dearest first; the total is not negative and is
      exactly the sum of the row costs; and an empty catalog gives an empty
      plan, a total of 0 and zero nutrients. */
  lemma GreedyResultShape(foods: seq<FoodItem>, constraints: NutrientConstraints)
    requires ValidCatalog(foods)
    ensures var result := BuildResult(foods, constraints, Greedy(foods, constraints));
      && result.constraints == constraints
      && RowsWithinCaps(result.mealPlan)
      && DearestFirst(result.mealPlan)
      && result.totalCost >= 0.0
      && result.totalCost == SumCosts(result.mealPlan)
      && (foods == [] ==> result == OptimizationResult([], 0.0, Zero, constraints))
  {
    var s := Greedy(foods, constraints);
    GreedySound(foods, constraints);
    ResultPromises(foods, constraints, s);
    if foods == [] {
      assert s == [];
      EmptyCatalog(constraints);
    }
  }

  lemma ResultPromises(foods: seq<FoodItem>, c: NutrientConstraints, s: seq<real>)
    requires ValidCatalog(foods) && WithinCaps(foods, s)
    ensures var result := BuildResult(foods, c, s);
      && result.constraints == c
      && RowsWithinCaps(result.mealPlan)
      && DearestFirst(result.mealPlan)
      && result.totalCost >= 0.0
      && result.totalCost == SumCosts(result.mealPlan)
  {
    var plan := MealPlan(foods, s);
    PlanRowBounds(foods, s);
    PlanSorted(foods, s);
    ResultShape(foods, c, s);
    assert BuildResult(foods, c, s).mealPlan == plan;
  }
}
