# Greedy meal-plan optimizer, modelled in Dafny

`optimizeMealPlan` (src/utils/optimizer.ts) picks servings of foods from a
catalog so that a day's calories, protein and carbohydrates come near
caller-given bounds at low cost. It starts from zero servings of every food
and runs four greedy passes over one serving array:

1. **Calorie seeding.** Foods are taken highest calories-per-cost first. Each
   one gets the servings that fill the remaining calorie target (the midpoint
   of the calorie bounds), capped at the food's serving cap.
2. **Protein top-up.** Foods are taken highest protein-per-cost first. Before
   each food the protein shortfall is read from the current plate.
3. **Calorie top-up.** The same as pass 2, with calories, in catalog order.
4. **Carbohydrate top-up.** The shortfall is read once. Foods are topped up in
   catalog order, and the walk stops once carbohydrates reach the minimum.

The serving array then becomes the returned plan. Each row has its serving
and cost rounded to cents. Rows whose rounded serving is at most 0.01 are
dropped. The rest are sorted dearest first, and the result carries the total
cost, the nutrients rounded to one decimal, and the constraints. Beside it
sit a nutrient-sum helper, a feasibility test with a 5% band, and a
cost-per-value score.

Layout:

- `foods.dfy` (module `Foods`): the records of src/types.ts, `Min`/`Max`,
  and the serving cap `maxServings || 10`.
- `nutrition.dfy` (`Nutrition`): the nutrient sum as four dot products, and
  its algebra (one-entry update, additivity, scaling, zero vector).
- `ranking.dfy` (`Ranking`): the stable descending sort used for both
  rankings and for the plan order.
- `rounding.dfy` (`Rounding`): `Math.round(x * 100) / 100` and the
  one-decimal version.
- `passes.dfy` (`Passes`): each pass as a function on serving vectors, with
  its soundness lemmas, and a closed form of the carbohydrate pass.
- `plan.dfy` (`Plan`): post-processing (map, filter, sort, total, rounding)
  and what the result promises.
- `feasibility.dfy` (`Feasibility`): `checkConstraints` and
  `getCostEfficiency`.
- `optimizer.dfy` (`Optimizer`): `optimizeMealPlan` as a method. It updates
  an `array<real>` in place with three methods for the source's four loops
  (passes 2 and 3 share `ChaseNutrient`), including the early `break`. Each loop method states its new array, through
  `old(...)`, as the walk function of module `Passes` applied to the old one,
  and the properties of the passes are proved on those walks; the whole
  method is proved to return exactly what the pass functions and the
  post-processing compute. Pass 3 re-reads the calorie gap before every food
  (src/utils/optimizer.ts:62), as pass 2 does, and the model does the same.
- `scenario.dfy` (`Scenario`): a worked catalog of rice and eggs, computed
  end to end.

Doubles are modelled as exact reals. Rounding is `Floor(x * scale + 1/2) /
scale`, which is `Math.round`'s round-half-up. The catalog must satisfy
`ValidCatalog`: every food is named, costs more than 0 (the ranking scores
divide by the cost), and has no negative serving cap. The first two
conditions are the caller's food filter (src/components/InputSection.tsx:53).

## Model

| member | source | states |
|---|---|---|
| Foods.Min | src/utils/optimizer.ts:35 | `Math.min` on two values: the result is one of them and at most both |
| Foods.Max | src/utils/optimizer.ts:37 | `Math.max` on two values: the result is one of them and at least both |
| Foods.Zeros | src/utils/optimizer.ts:7 | the starting serving vector: one entry per food, all 0 |
| Foods.Cap | src/utils/optimizer.ts:31 | an absent or zero cap is 10; any other value is kept as given; a non-negative cap yields a positive bound |
| Nutrition.Dot | src/utils/optimizer.ts:112-119 | definition: one field of the `reduce`, starting from 0 and adding each food's amount times its serving, front to back; it has no ensures, and its properties are the lemmas below |
| Nutrition.CalculateNutrients | src/utils/optimizer.ts:111-121 | definition: the four fields of the `reduce` side by side, each field reading only itself; no ensures |
| Nutrition.NutrientsOfZeros | src/utils/optimizer.ts:111-121 | the all-zero serving vector, including the empty catalog, has all-zero nutrients |
| Nutrition.DotOfZeros | src/utils/optimizer.ts:112-119 | one nutrient's fold over an all-zero vector is 0 |
| Nutrition.DotUpdate | src/utils/optimizer.ts:112-119 | changing one serving from `s[i]` to `v` changes the nutrient by exactly that food's amount times `v - s[i]` |
| Nutrition.AmountUpdate | src/utils/optimizer.ts:111-121 | the same one-entry update law, read through the nutrient record |
| Nutrition.DotAdditive | src/utils/optimizer.ts:112-119 | the sum is additive: the nutrients of `s + t` are those of `s` plus those of `t` |
| Nutrition.DotScale | src/utils/optimizer.ts:112-119 | the sum is homogeneous: the nutrients of `k * s` are `k` times those of `s` |
| Ranking.Before | src/utils/optimizer.ts:14 | definition: the order a stable sort by `b.score - a.score` puts two positions in (higher score first, then earlier position); no ensures |
| Ranking.Insert | src/utils/optimizer.ts:14 | inserting a new position keeps the list ranked, adds exactly that position, and adds one to the length |
| Ranking.RankPrefix | src/utils/optimizer.ts:9-21 | the ranking of the first `m` positions holds each of them exactly once, in ranked order |
| Ranking.Rank | src/utils/optimizer.ts:9-21 | the order holds every position once, by non-increasing score, with ties in position order, as a stable descending sort gives |
| Ranking.RankDistinct | src/utils/optimizer.ts:16-21 | no position appears twice in the ranking, so it is a permutation |
| Rounding.Round2 | src/utils/optimizer.ts:90-91 | the result is within half a cent of the input (rounding half up) and is a whole number of cents |
| Rounding.Round1 | src/utils/optimizer.ts:102-105 | the result is within 0.05 of the input and is a whole number of tenths |
| Rounding.Round2Monotone | src/utils/optimizer.ts:91 | rounding to cents preserves order |
| Rounding.Round2OfWholeCents | src/utils/optimizer.ts:100 | an amount that is a whole number of cents is its own rounding |
| Rounding.Round2Idempotent | src/utils/optimizer.ts:90-91 | rounding an amount that is already rounded changes nothing |
| Rounding.Round2NonNegative | src/utils/optimizer.ts:91 | a non-negative amount rounds to a non-negative one, and zero rounds to zero |
| Rounding.Round1OfZero | src/utils/optimizer.ts:102-105 | zero rounds to zero at one decimal |
| Passes.Score | src/utils/optimizer.ts:12 | definition: nutrient per cost, or 0 for a food without the nutrient (the same expression at line 19 for calories); no ensures |
| Passes.Scores | src/utils/optimizer.ts:9-20 | definition: the score of every food, in catalog order; its ensures give only the length and the entries |
| Passes.TopUp | src/utils/optimizer.ts:50-52 | definition: `servings + min(gap / per, cap - servings)`, the update at lines 50-52, 64-66 and 77-79; no ensures, its properties are `TopUpBounds` and `TopUpGrows` |
| Passes.CatalogOrder | src/utils/optimizer.ts:58 | definition: positions 0 to n-1 in order; its ensures give only the length and the entries |
| Passes.SeedStepOf | src/utils/optimizer.ts:33-37 | definition: one iteration of the seeding loop; ensures only the vector length |
| Passes.SeedWalk | src/utils/optimizer.ts:28-39 | definition: the seeding loop from position `k` of the order to the end, with the remaining target; ensures only the vector length |
| Passes.SeedWalkFires | src/utils/optimizer.ts:33-37 | at a food where target and calories are positive, the walk sets its serving to `min(target / calories, cap)` and lowers the target by those calories, floored at 0 |
| Passes.SeedWalkSkips | src/utils/optimizer.ts:33 | at any other food the walk changes nothing |
| Passes.SeedWalkSound | src/utils/optimizer.ts:28-39 | over a duplicate-free order of unseeded foods: servings stay in `[0, cap]` and never drop; calories on the plate plus the remaining target stay constant; a non-negative target stays in `[0, target]`; a non-positive target changes nothing |
| Passes.SeedStep | src/utils/optimizer.ts:33-37 | one seeding step keeps the caps, changes only its own food, keeps calories plus target constant, and keeps the target in `[0, target]` |
| Passes.SeedStepCaps | src/utils/optimizer.ts:31-36 | one seeding step keeps every serving in `[0, cap]` and changes only its own food |
| Passes.SeedStepCalories | src/utils/optimizer.ts:36-37 | one seeding step moves exactly the calories it adds from the target onto the plate |
| Passes.SeedFires | src/utils/optimizer.ts:34-37 | a step that assigns servings uses up at most the remaining target and keeps the accounting exact |
| Passes.SeedServing | src/utils/optimizer.ts:34-35 | the assigned serving is positive, at most the cap, and its calories are positive and at most the target |
| Passes.ChaseWalk | src/utils/optimizer.ts:43-55 | definition: the top-up walk that re-reads the gap before each food, used for protein (lines 43-55) and calories (lines 57-69); ensures only the vector length |
| Passes.ChaseWalkSound | src/utils/optimizer.ts:43-55 | the protein (or calorie) top-up keeps servings in `[0, cap]`, lowers none, never lowers the nutrient, and never lifts it above the larger of the minimum and its value before the pass |
| Passes.ChaseStep | src/utils/optimizer.ts:47-53 | one top-up that fires keeps the cap, strictly raises the serving, and strictly raises the nutrient, to at most the minimum |
| Passes.BoundedRise | src/utils/optimizer.ts:50-53 | adding servings worth a positive amount of nutrient, at most the gap, ends at or below the minimum |
| Passes.TopUpBounds | src/utils/optimizer.ts:50-52 | `servings + min(gap / per, cap - servings)` raises a serving below its cap, stays within the cap, and adds at most the gap's worth of nutrient |
| Passes.TopUpGrows | src/utils/optimizer.ts:77-79 | a top-up with a non-negative gap never lowers the serving or the nutrient |
| Passes.CarbWalk | src/utils/optimizer.ts:73-83 | definition: the carb loop from food `i` with the gap fixed, stopping after the first food that brings carbs to the minimum; ensures only the vector length |
| Passes.CarbPass | src/utils/optimizer.ts:71-84 | definition: pass 4, reading the gap once and walking only when it is positive; ensures only the vector length |
| Passes.CarbTopUp | src/utils/optimizer.ts:76-79 | definition: what a food's serving becomes when the carb walk reaches it; no ensures |
| Passes.TopUpPrefix | src/utils/optimizer.ts:73-80 | definition: the vector after the carb walk has topped up the foods before `j`; its ensures give the entries |
| Passes.CarbClosedForm | src/utils/optimizer.ts:71-84 | definition: the independent description of pass 4 (food `j` is topped up iff the foods before it leave carbs below the minimum); ensures only the length |
| Passes.PrefixCarbsMonotone | src/utils/optimizer.ts:76-80 | carbohydrates on the plate never decrease as the carb walk advances |
| Passes.PrefixStep | src/utils/optimizer.ts:76-80 | topping up food `j` advances the prefix vector by one food and adds non-negative carbs |
| Passes.CarbWalkClosedForm | src/utils/optimizer.ts:73-83 | while carbs are below the minimum, the rest of the walk equals the closed form: food `j` is topped up iff the foods before it leave carbs below the minimum |
| Passes.CarbPassClosedForm | src/utils/optimizer.ts:71-84 | carbs already at the minimum change nothing; otherwise, with the gap read once, the pass equals the closed form |
| Passes.CarbPassStops | src/utils/optimizer.ts:81 | once the foods before `j` bring carbs to the minimum, food `j` and every later food keep their servings |
| Passes.CarbPassSound | src/utils/optimizer.ts:75-79 | the carb pass keeps servings in `[0, cap]` and lowers none |
| Passes.CalorieTarget | src/utils/optimizer.ts:23 | definition: the midpoint of the calorie bounds; no ensures |
| Passes.AfterSeeding | src/utils/optimizer.ts:7-39 | definition: pass 1 from the all-zero vector in the calorie ranking; no ensures |
| Passes.AfterProtein | src/utils/optimizer.ts:41-55 | definition: pass 2 in the protein ranking; no ensures |
| Passes.AfterCalories | src/utils/optimizer.ts:57-69 | definition: pass 3 in catalog order; no ensures |
| Passes.Greedy | src/utils/optimizer.ts:7-84 | definition: the four passes in sequence; ensures only the vector length |
| Passes.CalorieOrderDistinct | src/utils/optimizer.ts:16-21 | the calorie ranking names every food at most once, so seeding visits each food once from 0 |
| Passes.SeedingSound | src/utils/optimizer.ts:23-39 | after pass 1: servings in `[0, cap]`; calories allocated plus the remaining target equal the midpoint target; calories allocated lie in `[0, max(0, target)]` |
| Passes.ProteinPassSound | src/utils/optimizer.ts:43-55 | pass 2 keeps the caps, lowers no serving, and ends protein between its value after pass 1 and the larger of that value and the minimum |
| Passes.CaloriePassSound | src/utils/optimizer.ts:57-69 | pass 3 keeps the caps, lowers no serving, and ends calories between their value after pass 2 and the larger of that value and the minimum |
| Passes.GreedySound | src/utils/optimizer.ts:7-84 | the final servings lie in `[0, cap]`, and none is below its value after pass 1 or after pass 3 |
| Plan.Kept | src/utils/optimizer.ts:93 | definition: the filter on the rounded serving; no ensures |
| Plan.Entry | src/utils/optimizer.ts:88-92 | a row carries its food, and a serving and a cost that are whole cents within half a cent of the exact serving and the exact cost, which fixes them as their roundings to cents |
| Plan.KeptIndices | src/utils/optimizer.ts:93 | exactly the positions whose rounded serving exceeds 0.01, each once, in catalog order |
| Plan.KeptCosts | src/utils/optimizer.ts:91-94 | definition: the rounded costs of the kept rows, the sort key; ensures only the length |
| Plan.PlanIndices | src/utils/optimizer.ts:87-94 | definition: the catalog position of each row, the kept positions in a stable descending order of cost; ensures only that they are in range |
| Plan.MealPlan | src/utils/optimizer.ts:87-94 | definition: the rows at those positions; no ensures, its properties are `PlanIndicesFilter`, `PlanSorted` and `PlanRowBounds` |
| Plan.SumCosts | src/utils/optimizer.ts:96 | definition: the `reduce` adding row costs from the front, starting at 0; no ensures |
| Plan.BuildResult | src/utils/optimizer.ts:86-108 | definition: the returned record for a final serving vector; no ensures, its properties are `ResultShape`, `ResultNutrients` and `EmptyCatalog` |
| Plan.RoundNutrients | src/utils/optimizer.ts:101-106 | each reported nutrient is a whole number of tenths within 0.05 of the exact one, which fixes it as the rounding to one decimal |
| Plan.PlanIndicesFilter | src/utils/optimizer.ts:87-94 | food `i` has a row iff its rounded serving exceeds 0.01; no food has two rows; the plan is no longer than the catalog |
| Plan.Reordered | src/utils/optimizer.ts:94 | reordering the kept positions by a ranking keeps all of them and keeps them distinct |
| Plan.PlanSorted | src/utils/optimizer.ts:87-94 | each row is its food's rounded entry and passes the filter; costs are non-increasing; equal costs keep catalog order |
| Rounding.WholeCentsAdd | src/utils/optimizer.ts:96 | two amounts in whole cents add up to whole cents |
| Plan.SumCostsWholeCents | src/utils/optimizer.ts:96 | row costs in whole cents add up to a total in whole cents |
| Plan.SumCostsNonNegative | src/utils/optimizer.ts:96 | non-negative row costs add up to a non-negative total that is at least each row's cost |
| Plan.PlanRowBounds | src/utils/optimizer.ts:88-93 | for servings within the caps, each row's cost is `round2(food.cost * unrounded serving)` and not negative, and its serving lies in `(0.01, cap + 0.005]` |
| Plan.RowBounds | src/utils/optimizer.ts:88-93 | the row of a food eaten within its cap that passes the filter has a serving in `(0.01, cap + 0.005]` and a non-negative cost that is the exact cost rounded to cents |
| Plan.RowServing | src/utils/optimizer.ts:90-93 | a kept row's rounded serving lies in `(0.01, cap + 0.005]` when the exact serving is within the cap |
| Plan.RowCost | src/utils/optimizer.ts:89-91 | a row keeps its food, and its cost is the exact cost rounded to cents and not negative |
| Plan.ResultShape | src/utils/optimizer.ts:96-107 | the constraints are echoed; the total is non-negative and exactly the sum of the row costs, which are already whole cents |
| Plan.ResultNutrients | src/utils/optimizer.ts:101-106 | every reported nutrient is a whole number of tenths within 0.05 of the exact sum |
| Plan.EmptyCatalog | src/utils/optimizer.ts:86-107 | an empty catalog gives an empty plan, a total of 0 and zero nutrients |
| Feasibility.CheckConstraints | src/utils/optimizer.ts:123-137 | definition: the eight bounds of the 5% band; no ensures, its meaning is `CheckConstraintsBand` |
| Feasibility.CheckConstraintsBand | src/utils/optimizer.ts:123-137 | accepted iff every nutrient lies in `[0.95 * min, 1.05 * max]`, in both directions |
| Feasibility.ExactlyFeasibleAccepted | src/utils/optimizer.ts:127-136 | with non-negative minimums, nutrients that meet every bound exactly are accepted |
| Feasibility.NegativeMinimumRejected | src/utils/optimizer.ts:128 | for a negative minimum, a value that meets it can still be rejected (-99 against a minimum of -100) |
| Feasibility.NegativeMinimumRejectedAll | src/utils/optimizer.ts:128-134 | for any nutrient with a negative minimum, a value in `[min, 0.95 * min)` meets the minimum yet fails the check |
| Feasibility.TotalValue | src/utils/optimizer.ts:140-150 | definition: each nutrient over its minimum clamped to at least 1, protein weighted 1.5; no ensures |
| Feasibility.CostEfficiency | src/utils/optimizer.ts:139-153 | a positive weighted value times the result gives back the cost; a value that is not positive gives the bare cost |
| Feasibility.CostEfficiencyClamp | src/utils/optimizer.ts:140-143 | minimums below 1 count as 1 |
| Feasibility.MoreProteinCheaper | src/utils/optimizer.ts:146-152 | at a fixed positive price, more protein never raises the cost per value |
| Optimizer.SeedCalories | src/utils/optimizer.ts:28-39 | the in-place loop leaves the array and remaining target that the seeding walk computes |
| Optimizer.ChaseNutrient | src/utils/optimizer.ts:43-69 | the in-place loops of passes 2 and 3 leave the array that the chasing walk computes |
| Optimizer.TopUpCarbs | src/utils/optimizer.ts:71-84 | the in-place carb loop, with its early exit, leaves the array that the carb pass computes |
| Optimizer.OptimizeMealPlan | src/utils/optimizer.ts:3-109 | returns the result of the four passes and post-processing; constraints echoed; rows within caps and dearest first; total not negative and equal to the sum of the row costs; empty catalog gives the empty result |
| Optimizer.GreedyResultShape | src/utils/optimizer.ts:86-107 | the same promises of the result, stated on the pass functions |
| Optimizer.ResultPromises | src/utils/optimizer.ts:87-100 | for any serving vector within the caps, the result echoes the constraints, has rows within the caps, dearest first, and a non-negative total equal to the sum of the row costs |
| Scenario.RiceAndEggsServings | src/utils/optimizer.ts:16-69 | for rice and eggs with 2000 to 2500 kcal: eggs rank first, seeding ends at the caps 3 and 4 with 1240 kcal of target left, and the top-ups change nothing |
| Scenario.TwoFoods | src/utils/optimizer.ts:112-119 | the nutrient sum of two foods is the two products added |
| Scenario.PlateOfRiceAndEggs | src/utils/optimizer.ts:111-121 | 3 rice and 4 eggs give 1010 kcal, 60.1 g protein, 44.9 g fat and 88.4 g carbohydrate |
| Scenario.RiceAndEggsRows | src/utils/optimizer.ts:88-92 | both rows cost exactly 60.00 |
| Scenario.RiceAndEggsKept | src/utils/optimizer.ts:93 | both rows pass the filter |
| Scenario.TieKeepsOrder | src/utils/optimizer.ts:94 | two equal costs keep their order under the sort |
| Scenario.PlanOfRiceAndEggs | src/utils/optimizer.ts:87-94 | the plan is rice then eggs, each at 60.00 |
| Scenario.RiceAndEggsResult | src/utils/optimizer.ts:86-107 | the whole result: the two rows, a total of 120.00, and nutrients (1010, 60.1, 44.9, 88.4), short of the calorie floor |

## Left out

- Floating point: doubles are exact reals, so representation error, NaN and
  Infinity are not modelled. The no-overshoot bounds of passes 2 and 3 hold
  in exact arithmetic only.
- The protein, fat and carbohydrate targets at src/utils/optimizer.ts:24-26
  are computed but never read, so they are not modelled. No pass targets fat.
- Negative serving caps: `maxServings || 10` maps only an absent or zero cap
  to 10 and keeps a negative cap (src/utils/optimizer.ts:31), with which pass
  1 would assign negative servings. `Foods.Cap` models the fallback as
  written; `ValidCatalog` excludes negative caps from the passes.
- Zero-cost foods: the ranking scores divide by the cost without a guard.
  `ValidCatalog` requires a positive cost, matching the caller's filter.
- src/types.ts appears only as the datatypes of module `Foods`.
- src/components/InputSection.tsx, src/components/ResultsSection.tsx and
  src/App.tsx are not part of this model. They hold forms, display
  arithmetic and application state. The food filter from InputSection.tsx is
  modelled only as the `ValidCatalog` precondition.
