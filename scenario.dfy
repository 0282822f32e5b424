/** A worked catalog: rice (cost 20, 130 kcal, 2.7 g protein, 0.3 g fat,
    28 g carbs, at most 3 servings) and eggs (cost 15, 155 kcal, 13 g
    protein, 11 g fat, 1.1 g carbs, at most 4 servings), 2000 to 2500 kcal
    and loose bounds on everything else. Eggs give more calories per cost and
    are seeded first; both reach their caps while calorie target is still
    left, and the calorie top-up finds no room under either cap. The plan
    falls short of the calorie floor, which the optimizer reports rather
    than rejects. */
module Scenario {
  import opened Foods
  import opened Nutrition
  import opened Ranking
  import opened Passes
  import opened Plan
  import opened Rounding

  const Rice := FoodItem("rice", "Rice", 20.0, 130.0, 2.7, 0.3, 28.0, Some(3.0))
  const Eggs := FoodItem("eggs", "Eggs", 15.0, 155.0, 13.0, 11.0, 1.1, Some(4.0))
  const Limits := NutrientConstraints(2000.0, 2500.0, 0.0, 1000.0, 0.0, 1000.0, 0.0, 1000.0)

  /** Eggs are seeded first; rice and eggs end at their caps of 3 and 4. */
  lemma RiceAndEggsServings()
    ensures Rank(Scores([Rice, Eggs], Calories)) == [1, 0]
    ensures AfterSeeding([Rice, Eggs], Limits) == Seeding([3.0, 4.0], 1240.0)
    ensures Greedy([Rice, Eggs], Limits) == [3.0, 4.0]
  {
    var foods := [Rice, Eggs];
    var byCalories := Scores(foods, Calories);
    assert byCalories[0] == 6.5 && byCalories[1] == 155.0 / 15.0;
    assert Before(byCalories, 1, 0);
    assert RankPrefix(byCalories, 1) == [0];
    var order := Rank(byCalories);
    assert order == [1, 0];
    var z := Zeros(2);
    assert z == [0.0, 0.0];
    assert SeedStepOf(foods, 1, z, 2250.0) == Seeding([0.0, 4.0], 1630.0);
    assert SeedStepOf(foods, 0, [0.0, 4.0], 1630.0) == Seeding([3.0, 4.0], 1240.0);
    assert SeedWalk(foods, order, 2, [3.0, 4.0], 1240.0) == Seeding([3.0, 4.0], 1240.0);
    assert SeedWalk(foods, order, 1, [0.0, 4.0], 1630.0) == Seeding([3.0, 4.0], 1240.0);
    assert SeedWalk(foods, order, 0, z, 2250.0) == Seeding([3.0, 4.0], 1240.0);
    var s := [3.0, 4.0];
    PlateOfRiceAndEggs();
    var byProtein := Rank(Scores(foods, Protein));
    assert |byProtein| == 2;
    assert ChaseWalk(foods, Protein, 0.0, byProtein, 2, s) == s;
    assert ChaseWalk(foods, Protein, 0.0, byProtein, 1, s) == s;
    assert ChaseWalk(foods, Protein, 0.0, byProtein, 0, s) == s;
    var catalog := CatalogOrder(2);
    assert ChaseWalk(foods, Calories, 2000.0, catalog, 2, s) == s;
    assert ChaseWalk(foods, Calories, 2000.0, catalog, 1, s) == s;
    assert ChaseWalk(foods, Calories, 2000.0, catalog, 0, s) == s;
  }

  /** The exact nutrients of 3 servings of rice and 4 of eggs. */
  lemma PlateOfRiceAndEggs()
    ensures CalculateNutrients([Rice, Eggs], [3.0, 4.0]) == Nutrients(1010.0, 60.1, 44.9, 88.4)
  {
    TwoFoods(Rice, Eggs, 3.0, 4.0, Calories);
    TwoFoods(Rice, Eggs, 3.0, 4.0, Protein);
    TwoFoods(Rice, Eggs, 3.0, 4.0, Fat);
    TwoFoods(Rice, Eggs, 3.0, 4.0, Carbs);
  }

  lemma TwoFoods(a: FoodItem, b: FoodItem, x: real, y: real, which: Nutrient)
    ensures Dot([a, b], [x, y], which) == PerServing(a, which) * x + PerServing(b, which) * y
  {
    assert [a, b][..1] == [a] && [x, y][..1] == [x];
    assert [a][..0] == [] && [x][..0] == [];
    assert Dot([a], [x], which) == PerServing(a, which) * x;
  }

  /** Both servings and both costs are already whole cents. */
  lemma RiceAndEggsRows()
    ensures Entry(Rice, 3.0) == PlanItem(Rice, 3.0, 60.0)
    ensures Entry(Eggs, 4.0) == PlanItem(Eggs, 4.0, 60.0)
  {
    assert (3.0 * 100.0 + 0.5).Floor == 300;
    assert (4.0 * 100.0 + 0.5).Floor == 400;
    assert (60.0 * 100.0 + 0.5).Floor == 6000;
  }

  /** Both servings survive the filter. */
  lemma RiceAndEggsKept()
    ensures KeptIndices([3.0, 4.0], 2) == [0, 1]
  {
    RiceAndEggsRows();
    assert Kept(3.0) && Kept(4.0);
    assert KeptIndices([3.0, 4.0], 0) == [];
    assert KeptIndices([3.0, 4.0], 1) == [0];
  }

  /** Both rows cost 60.00 and the tie keeps catalog order, so rice comes
      first. */
  lemma PlanOfRiceAndEggs()
    ensures MealPlan([Rice, Eggs], [3.0, 4.0]) == [PlanItem(Rice, 3.0, 60.0), PlanItem(Eggs, 4.0, 60.0)]
  {
    var foods := [Rice, Eggs];
    var s := [3.0, 4.0];
    RiceAndEggsRows();
    RiceAndEggsKept();
    var kept := KeptIndices(s, 2);
    var costs := KeptCosts(foods, s, kept);
    assert costs == [60.0, 60.0];
    TieKeepsOrder(costs);
    var idx := PlanIndices(foods, s);
    assert idx == [0, 1];
    var plan := MealPlan(foods, s);
    assert plan[0] == Entry(Rice, 3.0) && plan[1] == Entry(Eggs, 4.0);
  }

  lemma TieKeepsOrder(costs: seq<real>)
    requires costs == [60.0, 60.0]
    ensures Rank(costs) == [0, 1]
  {
    assert !Before(costs, 1, 0);
    assert RankPrefix(costs, 1) == [0];
  }

  /** The whole result: the two rows, a total of 120.00, and the exact
      nutrients, which are already whole tenths. */
  lemma RiceAndEggsResult()
    ensures BuildResult([Rice, Eggs], Limits, Greedy([Rice, Eggs], Limits))
         == OptimizationResult([PlanItem(Rice, 3.0, 60.0), PlanItem(Eggs, 4.0, 60.0)], 120.0,
                               Nutrients(1010.0, 60.1, 44.9, 88.4), Limits)
  {
    var plan := [PlanItem(Rice, 3.0, 60.0), PlanItem(Eggs, 4.0, 60.0)];
    RiceAndEggsServings();
    PlateOfRiceAndEggs();
    PlanOfRiceAndEggs();
    assert plan[..1] == [PlanItem(Rice, 3.0, 60.0)] && plan[..1][..0] == [];
    assert SumCosts(plan[..1]) == 60.0;
    assert SumCosts(plan) == 120.0;
    assert Round2(120.0) == 120.0 by {
      assert (120.0 * 100.0 + 0.5).Floor == 12000;
    }
    assert RoundNutrients(Nutrients(1010.0, 60.1, 44.9, 88.4)) == Nutrients(1010.0, 60.1, 44.9, 88.4) by {
      assert (1010.0 * 10.0 + 0.5).Floor == 10100;
      assert (60.1 * 10.0 + 0.5).Floor == 601;
      assert (44.9 * 10.0 + 0.5).Floor == 449;
      assert (88.4 * 10.0 + 0.5).Floor == 884;
    }
  }
}
