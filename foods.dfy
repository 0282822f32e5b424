/** The records the optimizer consumes and produces (src/types.ts), and the
    small numeric helpers shared by every pass. */
module Foods {

  datatype Option<+T> = None | Some(value: T)

  /** A catalog entry. Nutrients and cost are per serving; `maxServings` is the
      optional per-food serving cap. */
  datatype FoodItem = FoodItem(
    id: string,
    name: string,
    cost: real,
    calories: real,
    protein: real,
    fat: real,
    carbs: real,
    maxServings: Option<real>)

  /** Eight caller-supplied bounds; nothing forces min <= max. */
  datatype NutrientConstraints = NutrientConstraints(
    minCalories: real, maxCalories: real,
    minProtein: real, maxProtein: real,
    minFat: real, maxFat: real,
    minCarbs: real, maxCarbs: real)

  /** A nutrient summary, as accumulated by the nutrient sum and reported in the result. */
  datatype Nutrients = Nutrients(calories: real, protein: real, fat: real, carbs: real)

  /** One row of the returned plan. */
  datatype PlanItem = PlanItem(food: FoodItem, servings: real, cost: real)

  datatype OptimizationResult = OptimizationResult(
    mealPlan: seq<PlanItem>,
    totalCost: real,
    nutrients: Nutrients,
    constraints: NutrientConstraints)

  function Min(a: real, b: real): (r: real)
    ensures r <= a && r <= b && (r == a || r == b)
  {
    if a <= b then a else b
  }

  function Max(a: real, b: real): (r: real)
    ensures r >= a && r >= b && (r == a || r == b)
  {
    if a >= b then a else b
  }

  /** `food.maxServings || 10`: an absent or zero cap falls back to 10, any
      other value, a negative one included, is kept. */
  function Cap(food: FoodItem): (r: real)
    ensures food.maxServings.None? ==> r == 10.0
    ensures food.maxServings == Some(0.0) ==> r == 10.0
    ensures food.maxServings.Some? && food.maxServings.value != 0.0 ==> r == food.maxServings.value
    ensures CapNonNegative(food) ==> r > 0.0
  {
    match food.maxServings
    case None => 10.0
    case Some(m) => if m == 0.0 then 10.0 else m
  }

  /** A cap that is absent or non-negative. A negative cap would make the
      seeding pass assign negative servings. */
  predicate CapNonNegative(food: FoodItem)
  {
    food.maxServings.Some? ==> food.maxServings.value >= 0.0
  }

  /** The caller-side validity filter: a named food with a positive price. */
  predicate ValidFood(food: FoodItem)
  {
    |food.name| > 0 && food.cost > 0.0
  }

  /** What the optimizer needs of its catalog. */
  predicate ValidCatalog(foods: seq<FoodItem>)
  {
    forall i :: 0 <= i < |foods| ==> ValidFood(foods[i]) && CapNonNegative(foods[i])
  }

  /** Every serving lies between zero and its food's cap. */
  predicate WithinCaps(foods: seq<FoodItem>, s: seq<real>)
  {
    |s| == |foods| && forall i :: 0 <= i < |s| ==> 0.0 <= s[i] <= Cap(foods[i])
  }

  /** No serving of `s` is smaller than the matching serving of `t`. */
  predicate PointwiseLe(s: seq<real>, t: seq<real>)
  {
    |s| == |t| && forall i :: 0 <= i < |s| ==> s[i] <= t[i]
  }

  /** The all-zero serving vector the optimizer starts from. */
  function Zeros(n: nat): (s: seq<real>)
    ensures |s| == n && forall i :: 0 <= i < n ==> s[i] == 0.0
  {
    seq(n, _ => 0.0)
  }
}
