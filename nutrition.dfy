/** The nutrient sum of a serving vector (calculateNutrients, optimizer.ts:111-121). */
module Nutrition {
  import opened Foods

  const Zero := Nutrients(0.0, 0.0, 0.0, 0.0)

  /** The nutrient a pass aims at, or a field of the sum. */
  datatype Nutrient = Calories | Protein | Fat | Carbs

  function Amount(n: Nutrients, which: Nutrient): real
  {
    match which
    case Calories => n.calories
    case Protein => n.protein
    case Fat => n.fat
    case Carbs => n.carbs
  }

  function PerServing(food: FoodItem, which: Nutrient): real
  {
    match which
    case Calories => food.calories
    case Protein => food.protein
    case Fat => food.fat
    case Carbs => food.carbs
  }

  /** One field of the source's `reduce`: starting from 0, food by food from
      the front, add the food's amount of the nutrient times its serving. */
  function Dot(foods: seq<FoodItem>, servings: seq<real>, which: Nutrient): real
    requires |servings| == |foods|
    decreases |foods|
  {
    if |foods| == 0 then 0.0
    else
      var n := |foods| - 1;
      Dot(foods[..n], servings[..n], which) + PerServing(foods[n], which) * servings[n]
  }

  /** The source folds all four fields in one pass over the catalog; each field
      of the accumulator only ever reads that same field, so the fold is the
      four sums side by side. */
  function CalculateNutrients(foods: seq<FoodItem>, servings: seq<real>): Nutrients
    requires |servings| == |foods|
  {
    Nutrients(Dot(foods, servings, Calories), Dot(foods, servings, Protein),
              Dot(foods, servings, Fat), Dot(foods, servings, Carbs))
  }

  /** Reading one field of the sum is that field's dot product. */
  lemma AmountOfSum(foods: seq<FoodItem>, s: seq<real>, which: Nutrient)
    requires |s| == |foods|
    ensures Amount(CalculateNutrients(foods, s), which) == Dot(foods, s, which)
  {
  }

  /** An empty catalog or an all-zero vector gives all-zero nutrients. */
  lemma NutrientsOfZeros(foods: seq<FoodItem>)
    ensures CalculateNutrients(foods, Zeros(|foods|)) == Zero
  {
    DotOfZeros(foods, Calories);
    DotOfZeros(foods, Protein);
    DotOfZeros(foods, Fat);
    DotOfZeros(foods, Carbs);
  }

  lemma {:induction false} DotOfZeros(foods: seq<FoodItem>, which: Nutrient)
    ensures Dot(foods, Zeros(|foods|), which) == 0.0
    decreases |foods|
  {
    if |foods| > 0 {
      var n := |foods| - 1;
      assert Zeros(|foods|)[..n] == Zeros(n);
      DotOfZeros(foods[..n], which);
    }
  }

  /** Changing one serving from `s[i]` to `v` changes the total of the
      nutrient by exactly that food's amount times `v - s[i]`. */
  lemma {:induction false} DotUpdate(foods: seq<FoodItem>, s: seq<real>, i: nat, v: real, which: Nutrient)
    requires |s| == |foods| && i < |foods|
    ensures Dot(foods, s[i := v], which) == Dot(foods, s, which) + PerServing(foods[i], which) * (v - s[i])
    decreases |foods|
  {
    var n := |foods| - 1;
    var t := s[i := v];
    if i == n {
      assert t[..n] == s[..n];
      Distrib(PerServing(foods[n], which), s[n], v - s[n]);
    } else {
      assert t[..n] == s[..n][i := v];
      DotUpdate(foods[..n], s[..n], i, v, which);
    }
  }

  /** What `d` more servings of `food` add to the nutrient. */
  function Rise(food: FoodItem, which: Nutrient, d: real): real
  {
    PerServing(food, which) * d
  }

  /** The same fact read through the nutrient record. */
  lemma AmountUpdate(foods: seq<FoodItem>, s: seq<real>, i: nat, v: real, which: Nutrient)
    requires |s| == |foods| && i < |foods|
    ensures Amount(CalculateNutrients(foods, s[i := v]), which)
         == Amount(CalculateNutrients(foods, s), which) + Rise(foods[i], which, v - s[i])
  {
    DotUpdate(foods, s, i, v, which);
    AmountOfSum(foods, s, which);
    AmountOfSum(foods, s[i := v], which);
  }

  /** The serving vector `u` that is `s + t` entry by entry has the sum of
      their nutrients: the nutrient sum is additive in the servings. */
  lemma {:induction false} DotAdditive(foods: seq<FoodItem>, s: seq<real>, t: seq<real>, u: seq<real>, which: Nutrient)
    requires |s| == |foods| && |t| == |foods| && |u| == |foods|
    requires forall i :: 0 <= i < |u| ==> u[i] == s[i] + t[i]
    ensures Dot(foods, u, which) == Dot(foods, s, which) + Dot(foods, t, which)
    decreases |foods|
  {
    if |foods| > 0 {
      var n := |foods| - 1;
      assert forall i :: 0 <= i < n ==> u[..n][i] == s[..n][i] + t[..n][i];
      DotAdditive(foods[..n], s[..n], t[..n], u[..n], which);
      Distrib(PerServing(foods[n], which), s[n], t[n]);
    }
  }

  /** The serving vector `u` that is `k` times `s` entry by entry has `k`
      times its nutrients. */
  lemma {:induction false} DotScale(foods: seq<FoodItem>, s: seq<real>, k: real, u: seq<real>, which: Nutrient)
    requires |s| == |foods| && |u| == |foods|
    requires forall i :: 0 <= i < |u| ==> u[i] == k * s[i]
    ensures Dot(foods, u, which) == k * Dot(foods, s, which)
    decreases |foods|
  {
    if |foods| > 0 {
      var n := |foods| - 1;
      assert forall i :: 0 <= i < n ==> u[..n][i] == k * s[..n][i];
      DotScale(foods[..n], s[..n], k, u[..n], which);
      ScaleSum(k, Dot(foods[..n], s[..n], which), PerServing(foods[n], which), s[n]);
    }
  }

  lemma Distrib(a: real, x: real, y: real)
    ensures a * (x + y) == a * x + a * y
  {
  }

  lemma ScaleSum(k: real, a: real, f: real, x: real)
    ensures k * (a + f * x) == k * a + f * (k * x)
  {
  }
}
