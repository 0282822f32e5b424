/** The four greedy passes of optimizeMealPlan (optimizer.ts:7-84), each as a
    function from the serving vector before the pass to the one after it. The
    walks are written as recursion on the position reached, so that a loop
    over the same positions can keep "what is left to do gives the final
    answer" as its invariant. */
module Passes {
  import opened Foods
  import opened Nutrition
  import opened Ranking

  /** Ranking score of a food: nutrient per unit of cost, 0 for a food without
      that nutrient (optimizer.ts:12 and 19). */
  function Score(food: FoodItem, which: Nutrient): real
    requires food.cost > 0.0
  {
    if PerServing(food, which) > 0.0 then PerServing(food, which) / food.cost else 0.0
  }

  function Scores(foods: seq<FoodItem>, which: Nutrient): (r: seq<real>)
    requires ValidCatalog(foods)
    ensures |r| == |foods| && forall i :: 0 <= i < |foods| ==> r[i] == Score(foods[i], which)
  {
    seq(|foods|, i requires 0 <= i < |foods| => Score(foods[i], which))
  }

  /** The catalog order `0, 1, ..., n - 1` of passes 3 and 4. */
  function CatalogOrder(n: nat): (r: seq<nat>)
    ensures |r| == n && forall i :: 0 <= i < n ==> r[i] == i
  {
    seq(n, i => i)
  }

  predicate OrderInRange(foods: seq<FoodItem>, order: seq<nat>)
  {
    forall k :: 0 <= k < |order| ==> order[k] < |foods|
  }

  /** Each position of `order` names a different food. */
  predicate Distinct(order: seq<nat>)
  {
    forall k, l :: 0 <= k < l < |order| ==> order[k] != order[l]
  }

  /** The amount added by a top-up: what closes `gap` at `per` per serving, but
      no more than the room left under the cap (`Math.min(needed, maxAllowed - servings[i])`). */
  function TopUp(x: real, gap: real, per: real, cap: real): real
    requires per > 0.0
  {
    x + Min(gap / per, cap - x)
  }

  // ---------------------------------------------------------------------------
  // Pass 1: calorie seeding (optimizer.ts:23, 28-39)

  /** The serving vector and the calorie target still left to fill. */
  datatype Seeding = Seeding(servings: seq<real>, remaining: real)

  /** One step of the seeding walk at food `idx`: when target and calories
      are both positive, the food gets `min(target / calories, cap)` servings
      and the target drops by their calories, floored at 0. */
  function SeedStepOf(foods: seq<FoodItem>, idx: nat, s: seq<real>, t: real): (r: Seeding)
    requires |s| == |foods| && idx < |foods|
    ensures |r.servings| == |foods|
  {
    var food := foods[idx];
    if t > 0.0 && food.calories > 0.0 then
      var serving := Min(t / food.calories, Cap(food));
      Seeding(s[idx := serving], Max(0.0, t - food.calories * serving))
    else
      Seeding(s, t)
  }

  function SeedWalk(foods: seq<FoodItem>, order: seq<nat>, k: nat, s: seq<real>, t: real): (r: Seeding)
    requires |s| == |foods| && k <= |order| && OrderInRange(foods, order)
    ensures |r.servings| == |foods|
    decreases |order| - k
  {
    if k == |order| then Seeding(s, t)
    else
      var st := SeedStepOf(foods, order[k], s, t);
      SeedWalk(foods, order, k + 1, st.servings, st.remaining)
  }

  /** The walk at a food it serves: the food gets `serving` and the target
      drops by its calories, floored at 0. */
  lemma SeedWalkFires(foods: seq<FoodItem>, order: seq<nat>, k: nat, s: seq<real>, t: real,
                      serving: real, s': seq<real>, t': real)
    requires |s| == |foods| && k < |order| && OrderInRange(foods, order)
    requires t > 0.0 && foods[order[k]].calories > 0.0
    requires serving == Min(t / foods[order[k]].calories, Cap(foods[order[k]]))
    requires s' == s[order[k] := serving] && t' == Max(0.0, t - foods[order[k]].calories * serving)
    ensures SeedWalk(foods, order, k, s, t) == SeedWalk(foods, order, k + 1, s', t')
  {
    assert SeedStepOf(foods, order[k], s, t) == Seeding(s', t');
  }

  /** The walk at a food it passes over. */
  lemma SeedWalkSkips(foods: seq<FoodItem>, order: seq<nat>, k: nat, s: seq<real>, t: real)
    requires |s| == |foods| && k < |order| && OrderInRange(foods, order)
    requires !(t > 0.0 && foods[order[k]].calories > 0.0)
    ensures SeedWalk(foods, order, k, s, t) == SeedWalk(foods, order, k + 1, s, t)
  {
    assert SeedStepOf(foods, order[k], s, t) == Seeding(s, t);
  }

  /** Seeding from positions `k ..` of a duplicate-free order whose foods are
      still at 0 servings: every serving stays within `[0, cap]` and none
      decreases; the calories on the plate plus the remaining target stay
      constant, so the calories added are exactly the part of the target used
      up; a non-negative target stays non-negative; and a target that is not
      positive changes nothing. */
  lemma {:induction false} SeedWalkSound(foods: seq<FoodItem>, order: seq<nat>, k: nat, s: seq<real>, t: real)
    requires ValidCatalog(foods) && WithinCaps(foods, s)
    requires k <= |order| && OrderInRange(foods, order) && Distinct(order)
    requires forall j :: k <= j < |order| ==> s[order[j]] == 0.0
    ensures var r := SeedWalk(foods, order, k, s, t);
      && WithinCaps(foods, r.servings)
      && PointwiseLe(s, r.servings)
      && CalculateNutrients(foods, r.servings).calories + r.remaining
           == CalculateNutrients(foods, s).calories + t
      && (t >= 0.0 ==> 0.0 <= r.remaining <= t)
      && (t <= 0.0 ==> r == Seeding(s, t))
    decreases |order| - k
  {
    if k < |order| {
      var idx := order[k];
      var st := SeedStepOf(foods, idx, s, t);
      SeedStep(foods, s, idx, t);
      assert forall j :: k + 1 <= j < |order| ==> st.servings[order[j]] == 0.0 by {
        forall j | k + 1 <= j < |order| ensures st.servings[order[j]] == 0.0 {
          assert order[j] != idx;
          assert st.servings[order[j]] == s[order[j]];
        }
      }
      SeedWalkSound(foods, order, k + 1, st.servings, st.remaining);
      PointwiseLeTrans(s, st.servings, SeedWalk(foods, order, k + 1, st.servings, st.remaining).servings);
    }
  }

  /** One seeding step on a food still at 0 servings keeps the caps, raises
      only that food, keeps "calories on the plate plus target" constant and
      keeps a non-negative target non-negative. */
  lemma SeedStep(foods: seq<FoodItem>, s: seq<real>, idx: nat, t: real)
    requires ValidCatalog(foods) && WithinCaps(foods, s)
    requires idx < |foods| && s[idx] == 0.0
    ensures var r := SeedStepOf(foods, idx, s, t);
      && WithinCaps(foods, r.servings)
      && PointwiseLe(s, r.servings)
      && (forall j :: 0 <= j < |foods| && j != idx ==> r.servings[j] == s[j])
      && (t >= 0.0 ==> 0.0 <= r.remaining <= t)
      && (t <= 0.0 ==> r == Seeding(s, t))
      && CalculateNutrients(foods, r.servings).calories + r.remaining == CalculateNutrients(foods, s).calories + t
  {
    SeedStepCaps(foods, s, idx, t);
    SeedStepCalories(foods, s, idx, t);
  }

  lemma SeedStepCaps(foods: seq<FoodItem>, s: seq<real>, idx: nat, t: real)
    requires ValidCatalog(foods) && WithinCaps(foods, s)
    requires idx < |foods| && s[idx] == 0.0
    ensures var r := SeedStepOf(foods, idx, s, t);
      && WithinCaps(foods, r.servings)
      && PointwiseLe(s, r.servings)
      && (forall j :: 0 <= j < |foods| && j != idx ==> r.servings[j] == s[j])
      && (t <= 0.0 ==> r == Seeding(s, t))
  {
    var food := foods[idx];
    if t > 0.0 && food.calories > 0.0 {
      SeedServing(food.calories, t, Cap(food));
    }
  }

  lemma SeedStepCalories(foods: seq<FoodItem>, s: seq<real>, idx: nat, t: real)
    requires ValidCatalog(foods) && idx < |foods| && |s| == |foods| && s[idx] == 0.0
    ensures var r := SeedStepOf(foods, idx, s, t);
      && (t >= 0.0 ==> 0.0 <= r.remaining <= t)
      && CalculateNutrients(foods, r.servings).calories + r.remaining == CalculateNutrients(foods, s).calories + t
  {
    if t > 0.0 && foods[idx].calories > 0.0 {
      SeedFires(foods, s, idx, t);
    }
  }

  /** The accounting of a seeding step that assigns servings. */
  lemma SeedFires(foods: seq<FoodItem>, s: seq<real>, idx: nat, t: real)
    requires ValidCatalog(foods) && idx < |foods| && |s| == |foods| && s[idx] == 0.0
    requires t > 0.0 && foods[idx].calories > 0.0
    ensures var r := SeedStepOf(foods, idx, s, t);
      0.0 <= r.remaining <= t && CalculateNutrients(foods, r.servings).calories + r.remaining == CalculateNutrients(foods, s).calories + t
  {
    var food := foods[idx];
    var serving := Min(t / food.calories, Cap(food));
    assert SeedStepOf(foods, idx, s, t) == Seeding(s[idx := serving], Max(0.0, t - food.calories * serving));
    SeedServing(food.calories, t, Cap(food));
    AmountUpdate(foods, s, idx, serving, Calories);
  }

  lemma SeedServing(c: real, t: real, cap: real)
    requires c > 0.0 && t > 0.0 && cap > 0.0
    ensures 0.0 < Min(t / c, cap) <= cap
    ensures 0.0 < c * Min(t / c, cap) <= t
  {
    MulBelowQuotient(c, Min(t / c, cap), t);
  }

  // ---------------------------------------------------------------------------
  // Passes 2 and 3: top-ups that re-read the gap before every food
  // (optimizer.ts:43-55 for protein, 57-69 for calories)

  function ChaseWalk(foods: seq<FoodItem>, which: Nutrient, minimum: real, order: seq<nat>, k: nat, s: seq<real>): (r: seq<real>)
    requires |s| == |foods| && k <= |order| && OrderInRange(foods, order)
    ensures |r| == |foods|
    decreases |order| - k
  {
    if k == |order| then s
    else
      var idx := order[k];
      var food := foods[idx];
      var cap := Cap(food);
      var gap := Max(0.0, minimum - Amount(CalculateNutrients(foods, s), which));
      if gap > 0.0 && PerServing(food, which) > 0.0 && s[idx] < cap then
        ChaseWalk(foods, which, minimum, order, k + 1, s[idx := TopUp(s[idx], gap, PerServing(food, which), cap)])
      else
        ChaseWalk(foods, which, minimum, order, k + 1, s)
  }

  /** A chasing top-up keeps every serving within `[0, cap]`, never lowers a
      serving, never lowers the targeted nutrient, and never lifts it above the
      larger of the minimum and its value before the pass. */
  lemma {:induction false} ChaseWalkSound(foods: seq<FoodItem>, which: Nutrient, minimum: real, order: seq<nat>, k: nat, s: seq<real>)
    requires WithinCaps(foods, s) && k <= |order| && OrderInRange(foods, order)
    ensures var r := ChaseWalk(foods, which, minimum, order, k, s);
      var before := Amount(CalculateNutrients(foods, s), which);
      && WithinCaps(foods, r)
      && PointwiseLe(s, r)
      && before <= Amount(CalculateNutrients(foods, r), which) <= Max(minimum, before)
    decreases |order| - k
  {
    if k < |order| {
      var idx := order[k];
      var food := foods[idx];
      var cap := Cap(food);
      var before := Amount(CalculateNutrients(foods, s), which);
      var gap := Max(0.0, minimum - before);
      var per := PerServing(food, which);
      if gap > 0.0 && per > 0.0 && s[idx] < cap {
        var x := TopUp(s[idx], gap, per, cap);
        ChaseStep(foods, which, minimum, s, idx);
        assert ChaseWalk(foods, which, minimum, order, k, s) == ChaseWalk(foods, which, minimum, order, k + 1, s[idx := x]);
        ChaseWalkSound(foods, which, minimum, order, k + 1, s[idx := x]);
        PointwiseLeTrans(s, s[idx := x], ChaseWalk(foods, which, minimum, order, k + 1, s[idx := x]));
      } else {
        assert ChaseWalk(foods, which, minimum, order, k, s) == ChaseWalk(foods, which, minimum, order, k + 1, s);
        ChaseWalkSound(foods, which, minimum, order, k + 1, s);
      }
    }
  }

  /** One chasing step that fires: it stays within the cap, strictly raises
      the serving, and strictly raises the nutrient, to at most the minimum. */
  lemma ChaseStep(foods: seq<FoodItem>, which: Nutrient, minimum: real, s: seq<real>, idx: nat)
    requires WithinCaps(foods, s) && idx < |foods|
    requires var before := Amount(CalculateNutrients(foods, s), which);
      minimum - before > 0.0 && PerServing(foods[idx], which) > 0.0 && s[idx] < Cap(foods[idx])
    ensures var food := foods[idx];
      var before := Amount(CalculateNutrients(foods, s), which);
      var x := TopUp(s[idx], Max(0.0, minimum - before), PerServing(food, which), Cap(food));
      var after := Amount(CalculateNutrients(foods, s[idx := x]), which);
      && WithinCaps(foods, s[idx := x])
      && PointwiseLe(s, s[idx := x])
      && s[idx] < x
      && before < after <= minimum
  {
    var food := foods[idx];
    var n := CalculateNutrients(foods, s);
    var before := Amount(n, which);
    var gap := Max(0.0, minimum - before);
    var per := PerServing(food, which);
    var x := TopUp(s[idx], gap, per, Cap(food));
    TopUpBounds(s[idx], gap, per, Cap(food));
    var d := x - s[idx];
    assert 0.0 < per * d <= gap == minimum - before;
    assert Rise(food, which, d) == per * d;
    BoundedRise(foods, which, minimum, s, idx, x);
  }

  /** Adding servings worth a positive amount of the nutrient, at most the
      gap to the minimum, strictly raises the nutrient, to at most the minimum. */
  lemma BoundedRise(foods: seq<FoodItem>, which: Nutrient, minimum: real, s: seq<real>, idx: nat, x: real)
    requires |s| == |foods| && idx < |foods|
    requires var before := Amount(CalculateNutrients(foods, s), which);
      0.0 < Rise(foods[idx], which, x - s[idx]) <= minimum - before
    ensures var before := Amount(CalculateNutrients(foods, s), which);
      before < Amount(CalculateNutrients(foods, s[idx := x]), which) <= minimum
  {
    var before := Amount(CalculateNutrients(foods, s), which);
    var after := Amount(CalculateNutrients(foods, s[idx := x]), which);
    var rise := Rise(foods[idx], which, x - s[idx]);
    AmountUpdate(foods, s, idx, x, which);
    assert after == before + rise;
    assert 0.0 < rise <= minimum - before;
  }

  // ---------------------------------------------------------------------------
  // Pass 4: carbohydrate top-up with a gap read once and an early exit
  // (optimizer.ts:71-84)

  function CarbWalk(foods: seq<FoodItem>, gap: real, minCarbs: real, i: nat, s: seq<real>): (r: seq<real>)
    requires |s| == |foods| && i <= |foods|
    ensures |r| == |foods|
    decreases |foods| - i
  {
    if i == |foods| then s
    else
      var food := foods[i];
      var cap := Cap(food);
      if food.carbs > 0.0 && s[i] < cap then
        var s' := s[i := TopUp(s[i], gap, food.carbs, cap)];
        if CalculateNutrients(foods, s').carbs >= minCarbs then s'
        else CarbWalk(foods, gap, minCarbs, i + 1, s')
      else
        CarbWalk(foods, gap, minCarbs, i + 1, s)
  }

  function CarbPass(foods: seq<FoodItem>, minCarbs: real, s: seq<real>): (r: seq<real>)
    requires |s| == |foods|
    ensures |r| == |foods|
  {
    var gap := Max(0.0, minCarbs - CalculateNutrients(foods, s).carbs);
    if gap > 0.0 then CarbWalk(foods, gap, minCarbs, 0, s) else s
  }

  /** What one food's serving becomes if the carb walk reaches it. */
  function CarbTopUp(food: FoodItem, x: real, gap: real): real
  {
    if food.carbs > 0.0 && x < Cap(food) then TopUp(x, gap, food.carbs, Cap(food)) else x
  }

  /** The serving vector after the carb walk has topped up the foods before `j`. */
  function TopUpPrefix(foods: seq<FoodItem>, s: seq<real>, gap: real, j: nat): (p: seq<real>)
    requires |s| == |foods|
    ensures |p| == |foods|
    ensures forall i :: 0 <= i < |foods| ==> p[i] == if i < j then CarbTopUp(foods[i], s[i], gap) else s[i]
  {
    seq(|foods|, i requires 0 <= i < |foods| => if i < j then CarbTopUp(foods[i], s[i], gap) else s[i])
  }

  /** The carbs on the plate only grow as the walk proceeds. */
  lemma {:induction false} PrefixCarbsMonotone(foods: seq<FoodItem>, s: seq<real>, gap: real, i: nat, j: nat)
    requires |s| == |foods| && gap >= 0.0 && i <= j <= |foods|
    ensures CalculateNutrients(foods, TopUpPrefix(foods, s, gap, i)).carbs
         <= CalculateNutrients(foods, TopUpPrefix(foods, s, gap, j)).carbs
    decreases j - i
  {
    if i < j {
      PrefixCarbsMonotone(foods, s, gap, i, j - 1);
      PrefixStep(foods, s, gap, j - 1);
    }
  }

  /** Topping up food `j` moves the prefix vector from `j` to `j + 1` and adds
      a non-negative amount of carbs. */
  lemma PrefixStep(foods: seq<FoodItem>, s: seq<real>, gap: real, j: nat)
    requires |s| == |foods| && gap >= 0.0 && j < |foods|
    ensures TopUpPrefix(foods, s, gap, j)[j] == s[j]
    ensures TopUpPrefix(foods, s, gap, j + 1)
         == TopUpPrefix(foods, s, gap, j)[j := CarbTopUp(foods[j], s[j], gap)]
    ensures CalculateNutrients(foods, TopUpPrefix(foods, s, gap, j)).carbs
         <= CalculateNutrients(foods, TopUpPrefix(foods, s, gap, j + 1)).carbs
  {
    var p := TopUpPrefix(foods, s, gap, j);
    var x := CarbTopUp(foods[j], s[j], gap);
    assert TopUpPrefix(foods, s, gap, j + 1) == p[j := x];
    AmountUpdate(foods, p, j, x, Carbs);
    if foods[j].carbs > 0.0 && s[j] < Cap(foods[j]) {
      TopUpGrows(s[j], gap, foods[j].carbs, Cap(foods[j]));
    }
  }

  /** The carb pass in closed form: food `j` is topped up exactly when the foods
      before it have not yet brought the carbs to the minimum, and is left as it
      was otherwise. */
  function CarbClosedForm(foods: seq<FoodItem>, s: seq<real>, gap: real, minCarbs: real): (r: seq<real>)
    requires |s| == |foods|
    ensures |r| == |foods|
  {
    seq(|foods|, j requires 0 <= j < |foods| =>
      if CalculateNutrients(foods, TopUpPrefix(foods, s, gap, j)).carbs < minCarbs
      then CarbTopUp(foods[j], s[j], gap) else s[j])
  }

  lemma {:induction false} CarbWalkClosedForm(foods: seq<FoodItem>, s: seq<real>, gap: real, minCarbs: real, k: nat)
    requires |s| == |foods| && gap > 0.0 && k <= |foods|
    requires CalculateNutrients(foods, TopUpPrefix(foods, s, gap, k)).carbs < minCarbs
    ensures CarbWalk(foods, gap, minCarbs, k, TopUpPrefix(foods, s, gap, k)) == CarbClosedForm(foods, s, gap, minCarbs)
    decreases |foods| - k
  {
    var n := |foods|;
    var p := TopUpPrefix(foods, s, gap, k);
    var c := CarbClosedForm(foods, s, gap, minCarbs);
    if k == n {
      forall j | 0 <= j < n ensures p[j] == c[j] {
        PrefixCarbsMonotone(foods, s, gap, j, n);
      }
    } else {
      PrefixStep(foods, s, gap, k);
      var q := TopUpPrefix(foods, s, gap, k + 1);
      var food := foods[k];
      if food.carbs > 0.0 && p[k] < Cap(food) {
        assert p[k := TopUp(p[k], gap, food.carbs, Cap(food))] == q;
        if CalculateNutrients(foods, q).carbs >= minCarbs {
          forall j | 0 <= j < n ensures q[j] == c[j] {
            if j <= k {
              PrefixCarbsMonotone(foods, s, gap, j, k);
            } else {
              PrefixCarbsMonotone(foods, s, gap, k + 1, j);
            }
          }
        } else {
          CarbWalkClosedForm(foods, s, gap, minCarbs, k + 1);
        }
      } else {
        assert q == p;
        CarbWalkClosedForm(foods, s, gap, minCarbs, k + 1);
      }
    }
  }

  /** Pass 4 leaves the vector alone when the carbs already reach the minimum;
      otherwise, with the gap fixed before the walk, it tops up each food in
      catalog order until the carbs reach the minimum and touches no food after
      that point. */
  lemma CarbPassClosedForm(foods: seq<FoodItem>, minCarbs: real, s: seq<real>)
    requires |s| == |foods|
    ensures CalculateNutrients(foods, s).carbs >= minCarbs ==> CarbPass(foods, minCarbs, s) == s
    ensures var gap := minCarbs - CalculateNutrients(foods, s).carbs;
      gap > 0.0 ==> CarbPass(foods, minCarbs, s) == CarbClosedForm(foods, s, gap, minCarbs)
  {
    var gap := minCarbs - CalculateNutrients(foods, s).carbs;
    if gap > 0.0 {
      assert TopUpPrefix(foods, s, gap, 0) == s;
      CarbWalkClosedForm(foods, s, gap, minCarbs, 0);
    }
  }

  /** Pass 4 stops at the first food after which the carbs reach the
      minimum: once the foods before `j` have brought the carbs there, food
      `j` and every food after it keep their servings. */
  lemma CarbPassStops(foods: seq<FoodItem>, minCarbs: real, s: seq<real>, j: nat)
    requires |s| == |foods| && j < |foods|
    requires var gap := minCarbs - CalculateNutrients(foods, s).carbs;
      gap > 0.0 && CalculateNutrients(foods, TopUpPrefix(foods, s, gap, j)).carbs >= minCarbs
    ensures forall i :: j <= i < |foods| ==> CarbPass(foods, minCarbs, s)[i] == s[i]
  {
    var gap := minCarbs - CalculateNutrients(foods, s).carbs;
    CarbPassClosedForm(foods, minCarbs, s);
    forall i | j <= i < |foods| ensures CarbPass(foods, minCarbs, s)[i] == s[i] {
      PrefixCarbsMonotone(foods, s, gap, j, i);
    }
  }

  /** Pass 4 keeps every serving within `[0, cap]` and never lowers one. */
  lemma CarbPassSound(foods: seq<FoodItem>, minCarbs: real, s: seq<real>)
    requires WithinCaps(foods, s)
    ensures WithinCaps(foods, CarbPass(foods, minCarbs, s))
    ensures PointwiseLe(s, CarbPass(foods, minCarbs, s))
  {
    CarbPassClosedForm(foods, minCarbs, s);
    var gap := minCarbs - CalculateNutrients(foods, s).carbs;
    if gap > 0.0 {
      forall j | 0 <= j < |foods| ensures s[j] <= CarbTopUp(foods[j], s[j], gap) <= Cap(foods[j]) {
        if foods[j].carbs > 0.0 && s[j] < Cap(foods[j]) {
          TopUpBounds(s[j], gap, foods[j].carbs, Cap(foods[j]));
        }
      }
    }
  }

  // ---------------------------------------------------------------------------
  // The four passes in sequence

  /** The calorie target of pass 1: the midpoint of the calorie bounds. */
  function CalorieTarget(c: NutrientConstraints): real
  {
    (c.minCalories + c.maxCalories) / 2.0
  }

  function AfterSeeding(foods: seq<FoodItem>, c: NutrientConstraints): Seeding
    requires ValidCatalog(foods)
  {
    var order := Rank(Scores(foods, Calories));
    SeedWalk(foods, order, 0, Zeros(|foods|), CalorieTarget(c))
  }

  function AfterProtein(foods: seq<FoodItem>, c: NutrientConstraints): seq<real>
    requires ValidCatalog(foods)
  {
    var order := Rank(Scores(foods, Protein));
    var s := AfterSeeding(foods, c).servings;
    ChaseWalk(foods, Protein, c.minProtein, order, 0, s)
  }

  function AfterCalories(foods: seq<FoodItem>, c: NutrientConstraints): seq<real>
    requires ValidCatalog(foods)
  {
    var s := AfterProtein(foods, c);
    ChaseWalk(foods, Calories, c.minCalories, CatalogOrder(|foods|), 0, s)
  }

  /** The serving vector after all four passes. */
  function Greedy(foods: seq<FoodItem>, c: NutrientConstraints): (s: seq<real>)
    requires ValidCatalog(foods)
    ensures |s| == |foods|
  {
    var s := AfterCalories(foods, c);
    CarbPass(foods, c.minCarbs, s)
  }

  /** The calorie walk visits every food once. */
  lemma CalorieOrderDistinct(foods: seq<FoodItem>)
    requires ValidCatalog(foods)
    ensures Distinct(Rank(Scores(foods, Calories)))
  {
    var scores := Scores(foods, Calories);
    var order := Rank(scores);
    forall k, l | 0 <= k < l < |order| ensures order[k] != order[l] {
      RankDistinct(scores, k, l);
    }
  }

  /** After pass 1 every serving lies within `[0, cap]`, the calories on the
      plate plus what is left of the target make up the target, and the
      calories on the plate lie between 0 and the larger of 0 and the target. */
  lemma SeedingSound(foods: seq<FoodItem>, c: NutrientConstraints)
    requires ValidCatalog(foods)
    ensures var s1 := AfterSeeding(foods, c);
      var t := CalorieTarget(c);
      var cal1 := CalculateNutrients(foods, s1.servings).calories;
      && WithinCaps(foods, s1.servings)
      && cal1 + s1.remaining == t
      && 0.0 <= cal1 <= Max(0.0, t)
  {
    var n := |foods|;
    var order := Rank(Scores(foods, Calories));
    CalorieOrderDistinct(foods);
    NutrientsOfZeros(foods);
    SeedWalkSound(foods, order, 0, Zeros(n), CalorieTarget(c));
  }

  /** Pass 2 keeps the caps, lowers no serving, and raises protein to no more
      than the larger of the minimum and its value after pass 1. */
  lemma ProteinPassSound(foods: seq<FoodItem>, c: NutrientConstraints)
    requires ValidCatalog(foods)
    ensures var s1 := AfterSeeding(foods, c).servings;
      var s2 := AfterProtein(foods, c);
      var p1 := CalculateNutrients(foods, s1).protein;
      && WithinCaps(foods, s2) && PointwiseLe(s1, s2)
      && p1 <= CalculateNutrients(foods, s2).protein <= Max(c.minProtein, p1)
  {
    SeedingSound(foods, c);
    ChaseWalkSound(foods, Protein, c.minProtein, Rank(Scores(foods, Protein)), 0, AfterSeeding(foods, c).servings);
  }

  /** Pass 3 keeps the caps, lowers no serving, and raises calories to no more
      than the larger of the minimum and their value after pass 2. */
  lemma CaloriePassSound(foods: seq<FoodItem>, c: NutrientConstraints)
    requires ValidCatalog(foods)
    ensures var s2 := AfterProtein(foods, c);
      var s3 := AfterCalories(foods, c);
      var k2 := CalculateNutrients(foods, s2).calories;
      && WithinCaps(foods, s3) && PointwiseLe(s2, s3)
      && k2 <= CalculateNutrients(foods, s3).calories <= Max(c.minCalories, k2)
  {
    ProteinPassSound(foods, c);
    ChaseWalkSound(foods, Calories, c.minCalories, CatalogOrder(|foods|), 0, AfterProtein(foods, c));
  }

  /** The final servings lie within `[0, cap]` and none is lower than after
      any earlier pass. */
  lemma GreedySound(foods: seq<FoodItem>, c: NutrientConstraints)
    requires ValidCatalog(foods)
    ensures WithinCaps(foods, Greedy(foods, c))
    ensures PointwiseLe(AfterCalories(foods, c), Greedy(foods, c))
    ensures PointwiseLe(AfterSeeding(foods, c).servings, Greedy(foods, c))
  {
    ProteinPassSound(foods, c);
    CaloriePassSound(foods, c);
    CarbPassSound(foods, c.minCarbs, AfterCalories(foods, c));
    PointwiseLeTrans(AfterSeeding(foods, c).servings, AfterProtein(foods, c), AfterCalories(foods, c));
    PointwiseLeTrans(AfterSeeding(foods, c).servings, AfterCalories(foods, c), Greedy(foods, c));
  }

  // ---------------------------------------------------------------------------
  // Helpers

  lemma PointwiseLeTrans(a: seq<real>, b: seq<real>, c: seq<real>)
    requires PointwiseLe(a, b) && PointwiseLe(b, c)
    ensures PointwiseLe(a, c)
  {
  }

  lemma MulBelowQuotient(c: real, x: real, g: real)
    requires c > 0.0 && x <= g / c
    ensures c * x <= g
  {
    assert c * x <= c * (g / c);
  }

  /** A top-up with a positive gap on a food below its cap adds a positive
      amount, stays within the cap, and adds at most the gap's worth of the
      nutrient. */
  lemma TopUpBounds(x: real, gap: real, per: real, cap: real)
    requires per > 0.0 && gap > 0.0 && x < cap
    ensures x < TopUp(x, gap, per, cap) <= cap
    ensures 0.0 < per * (TopUp(x, gap, per, cap) - x) <= gap
  {
    var d := Min(gap / per, cap - x);
    assert d > 0.0;
    MulBelowQuotient(per, d, gap);
    assert TopUp(x, gap, per, cap) - x == d;
  }

  lemma TopUpGrows(x: real, gap: real, per: real, cap: real)
    requires per > 0.0 && gap >= 0.0 && x < cap
    ensures x <= TopUp(x, gap, per, cap)
    ensures per * (TopUp(x, gap, per, cap) - x) >= 0.0
  {
    var d := Min(gap / per, cap - x);
    assert d >= 0.0;
    assert TopUp(x, gap, per, cap) - x == d;
  }
}
