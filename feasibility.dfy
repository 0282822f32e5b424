/** The two helpers beside the optimizer that its exported path does not
    call: the feasibility test with a 5% band (checkConstraints,
    optimizer.ts:123-137) and the cost-per-value score (getCostEfficiency,
    optimizer.ts:139-153). */
module Feasibility {
  import opened Foods
  import opened Nutrition

  function MinOf(c: NutrientConstraints, which: Nutrient): real
  {
    match which
    case Calories => c.minCalories
    case Protein => c.minProtein
    case Fat => c.minFat
    case Carbs => c.minCarbs
  }

  function MaxOf(c: NutrientConstraints, which: Nutrient): real
  {
    match which
    case Calories => c.maxCalories
    case Protein => c.maxProtein
    case Fat => c.maxFat
    case Carbs => c.maxCarbs
  }

  /** The 5% feasibility band, one bound at a time. */
  predicate CheckConstraints(n: Nutrients, c: NutrientConstraints)
  {
    && n.calories >= c.minCalories * 0.95
    && n.calories <= c.maxCalories * 1.05
    && n.protein >= c.minProtein * 0.95
    && n.protein <= c.maxProtein * 1.05
    && n.fat >= c.minFat * 0.95
    && n.fat <= c.maxFat * 1.05
    && n.carbs >= c.minCarbs * 0.95
    && n.carbs <= c.maxCarbs * 1.05
  }

  /** The test holds exactly when every nutrient lies within
      `[0.95 * minimum, 1.05 * maximum]`. */
  lemma CheckConstraintsBand(n: Nutrients, c: NutrientConstraints)
    ensures CheckConstraints(n, c) <==> forall which: Nutrient ::
      0.95 * MinOf(c, which) <= Amount(n, which) <= 1.05 * MaxOf(c, which)
  {
    assert Amount(n, Calories) == n.calories && Amount(n, Protein) == n.protein;
    assert Amount(n, Fat) == n.fat && Amount(n, Carbs) == n.carbs;
  }

  /** With non-negative bounds the band only widens the box: nutrients that
      meet every bound exactly are accepted. */
  lemma ExactlyFeasibleAccepted(n: Nutrients, c: NutrientConstraints)
    requires forall which: Nutrient :: 0.0 <= MinOf(c, which) <= Amount(n, which) <= MaxOf(c, which)
    ensures CheckConstraints(n, c)
  {
    CheckConstraintsBand(n, c);
    forall which: Nutrient
      ensures 0.95 * MinOf(c, which) <= Amount(n, which) <= 1.05 * MaxOf(c, which)
    {
      assert 0.0 <= MinOf(c, which) <= Amount(n, which) <= MaxOf(c, which);
    }
  }

  /** For a negative minimum the factor 0.95 tightens the bound instead of
      loosening it: a value that meets the minimum can fail the check. */
  lemma NegativeMinimumRejected()
    ensures var c := NutrientConstraints(-100.0, 0.0, 0.0, 0.0, 0.0, 0.0, 0.0, 0.0);
      !CheckConstraints(Nutrients(-99.0, 0.0, 0.0, 0.0), c)
  {
    var c := NutrientConstraints(-100.0, 0.0, 0.0, 0.0, 0.0, 0.0, 0.0, 0.0);
    assert Amount(Nutrients(-99.0, 0.0, 0.0, 0.0), Calories) < 0.95 * MinOf(c, Calories);
  }

  /** In general: a value between a negative minimum and 0.95 times that
      minimum meets the minimum and still fails the check. */
  lemma NegativeMinimumRejectedAll(n: Nutrients, c: NutrientConstraints, which: Nutrient)
    requires MinOf(c, which) < 0.0 && MinOf(c, which) <= Amount(n, which) < 0.95 * MinOf(c, which)
    ensures !CheckConstraints(n, c)
  {
    CheckConstraintsBand(n, c);
  }

  /** The weighted value of a food: each nutrient relative to its minimum,
      a minimum below 1 counting as 1, protein weighted 1.5. */
  function TotalValue(food: FoodItem, c: NutrientConstraints): real
  {
    food.calories / Max(1.0, c.minCalories)
      + food.protein / Max(1.0, c.minProtein) * 1.5
      + food.fat / Max(1.0, c.minFat)
      + food.carbs / Max(1.0, c.minCarbs)
  }

  /** Cost per unit of weighted value; the bare cost when the value is not
      positive. */
  function CostEfficiency(food: FoodItem, c: NutrientConstraints): (r: real)
    ensures TotalValue(food, c) > 0.0 ==> r * TotalValue(food, c) == food.cost
    ensures TotalValue(food, c) <= 0.0 ==> r == food.cost
  {
    var totalValue := TotalValue(food, c);
    if totalValue > 0.0 then food.cost / totalValue else food.cost
  }

  /** Minimums below 1 are read as 1: raising them to 1 changes nothing. */
  lemma CostEfficiencyClamp(food: FoodItem, c: NutrientConstraints)
    ensures var d := c.(minCalories := Max(1.0, c.minCalories), minProtein := Max(1.0, c.minProtein),
                       minFat := Max(1.0, c.minFat), minCarbs := Max(1.0, c.minCarbs));
      CostEfficiency(food, d) == CostEfficiency(food, c)
  {
    var d := c.(minCalories := Max(1.0, c.minCalories), minProtein := Max(1.0, c.minProtein),
                minFat := Max(1.0, c.minFat), minCarbs := Max(1.0, c.minCarbs));
    assert TotalValue(food, d) == TotalValue(food, c);
  }

  /** For a food of positive price and positive value, more protein at the
      same price gives a lower (better) cost per value. */
  lemma MoreProteinCheaper(food: FoodItem, c: NutrientConstraints, extra: real)
    requires food.cost > 0.0 && TotalValue(food, c) > 0.0 && extra >= 0.0
    ensures CostEfficiency(food.(protein := food.protein + extra), c) <= CostEfficiency(food, c)
  {
    var richer := food.(protein := food.protein + extra);
    var m := Max(1.0, c.minProtein);
    assert (food.protein + extra) / m == food.protein / m + extra / m;
    assert extra / m >= 0.0;
    assert TotalValue(richer, c) == TotalValue(food, c) + extra / m * 1.5;
    QuotientAntitone(food.cost, TotalValue(food, c), TotalValue(richer, c));
  }

  lemma QuotientAntitone(a: real, x: real, y: real)
    requires a > 0.0 && 0.0 < x <= y
    ensures a / y <= a / x
  {
    assert a / y * y == a == a / x * x;
    assert a / x * y >= a / x * x;
  }
}
