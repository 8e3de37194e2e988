# Meal recommender — Dafny model

This project models the recommendation core of a small meal-recommendation
web service. A request carries a user's age, weight, height, gender, goal,
activity level, the calories already eaten today and the meal type. The
service does the following:

1. It estimates the daily energy need (`TDEE`, Harris-Benedict with an
   activity factor and a goal adjustment) and a BMI body type.
2. It turns the estimate into a calorie budget for the meal (`meal_time`).
3. It derives per-meal targets for fat, saturated fat, cholesterol, sodium,
   carbohydrate, fiber, sugar and protein.
4. It filters the recipe table by the categories that suit the meal and
   goal (`category_determination`).
5. It blends two nearest-neighbour answers into five meals. The first three
   are Euclidean matches among the filtered rows. The last two are rows of
   the Calories-sorted view at the cosine positions.
6. It returns "Meal 1" to "Meal 5", each with its instructions cleaned for
   display (`clean_it`).

Modules:

- `Outcomes`: the `Result` and `Option` types. Each `Error` constructor
  stands for an exception the code raises, for the `None` that
  `category_determination` returns for an unknown meal type, or
  (`InfeasibleBudget`) for the refusal of the corrected pipeline, which no
  code path of the original raises. No request reaches the `None`: an
  unknown meal type has already failed in `meal_time`.
- `Estimator`: `TDEE` and `meal_time`.
- `Nutrients`: the nutrient target functions.
- `Recipes`: the recipe rows, the category filter and the descending
  Calories sort.
- `Cleaning`: `clean_it`.
- `Recommender`:
  - `user_preference_list` as written, and a corrected version (see
    Findings).
  - The positional lookups and concatenation.
  - The loop that builds the response, as a method with a `while` loop.

How Python concepts are represented:

- Every `random.uniform`/`random.randint` call is a parameter, with the
  range the call draws from as a precondition. The nutrient functions
  constrain a draw made on one branch only on that branch. The pipeline's
  `Draws` record holds one value per draw a request can make. Call
  sites on exclusive branches share a field, and the range `ValidDraws`
  gives that field follows the branch the meal type selects. Every field
  is constrained on every request. Each draw is a free
  parameter, so this rules out no request.
- The neighbour searches are not modelled. Their index lists are inputs.
- Floats are `real`. `int(x)` of a positive value is `Floor`.
- Each exception the code can raise is a `Failure`:
  - a `KeyError` for an unknown activity or meal type;
  - the `ZeroDivisionError` of a zero height;
  - the `UnboundLocalError` of `fiber` for an adult who is neither "male"
    nor "female";
  - an `IndexError` from `iloc`.

Where the code departs from its evident intent, the model follows the
code:

- Height enters the BMR formula as given, with no centimetre conversion.
- `clean_it` is not idempotent (`CleanItCommaExample` with
  `CleanItCommaSecondPass`, and `CleanItWrapperExample`).
- The five meals are not necessarily distinct (`PositionalRemapExample`).
- Unknown goals are not rejected. They take the "other" branches.
- Unknown genders take the "other" branches of `TDEE`, `sugar` and
  `protein`. For a child that is all. For an adult, `fiber` then fails with
  the `UnboundLocalError` above.

## Model

| member | source | states |
|---|---|---|
| Estimator.ClassifyBmi | main.py:33-38 | each body type holds exactly on its BMI interval: above 30, 25-30, 18.5-25, 17-18.5, 17 or less (exclusive lower bounds) |
| Estimator.ClassifyBmiMonotone | main.py:33-38 | a larger BMI never gives a lighter body type |
| Estimator.BmrMonotone | main.py:12-15 | for either gender's coefficients the BMR never decreases with weight or height and never increases with age |
| Estimator.AdjustForGoal | main.py:28-31 | "lose weight" gives 0.8 × the estimate (never more, for a non-negative one), "muscle gain" the estimate + 250 (always more), any other goal the estimate unchanged |
| Estimator.Tdee | main.py:11-41 | an unknown activity fails before the BMI division; a zero height fails; success exactly otherwise, with the body type of weight/height² and the estimate factor × BMR, goal-adjusted, times the jitter |
| Estimator.TdeeLoseWeight | main.py:28-29 | "lose weight" gives exactly 0.8 times the "maintain" estimate |
| Estimator.TdeeMuscleGain | main.py:30-31 | "muscle gain" gives the "maintain" estimate plus 250 before the jitter |
| Estimator.TdeeOtherGoal | main.py:28-38 | any other goal gives the "maintain" estimate; the body type never depends on the goal |
| Estimator.TdeeScenarioMale | main.py:11-41 | an 80 kg, 1.8, 30-year-old moderately active male maintaining gets 1498.85 × jitter and a normal body type |
| Estimator.MealTime | main.py:43-59 | an unknown meal type is a lookup failure; breakfast is tdee × 0.22 × j; lunch and dinner give -1 exactly when nothing is left, else left × 0.31 × j (lunch) or left × j (dinner), which is positive |
| Estimator.BreakfastIgnoresConsumed | main.py:50-51 | the breakfast budget does not depend on the calories consumed |
| Estimator.CheckedMealTime | main.py:43-59 | corrected budget: succeeds exactly for breakfast, or for lunch and dinner with calories left; lunch or dinner with nothing left is an `InfeasibleBudget` error; on success it is positive for lunch and dinner and agrees with `MealTime` |
| Nutrients.FatCalc | main.py:61-64 | the targets are budget × the two shares / 9; for a non-negative budget fat lies in budget × [0.2, 0.35] / 9 and saturated fat between 0 and both the fat target and budget × 0.1 / 9; a negative budget gives negative fat |
| Nutrients.Carbohydrate | main.py:97-115 | the target is the mean of the calorie term and the body-type term, plus the goal term exactly when the goal is "lose weight" or "muscle gain" |
| Nutrients.ObesityCarbTerm | main.py:100-101 | the body-type term is exactly 50 for obesity |
| Nutrients.CarbohydrateNonNegative | main.py:97-115 | for the drawn ranges, the carbohydrate target is non-negative for a non-negative budget and weight |
| Nutrients.Sugar | main.py:117-123 | the mean of the drawn calorie share over 4 and the 37.5 (female) or 25 (other) baseline times its jitter; non-negative for a non-negative budget |
| Nutrients.Protein | main.py:125-142 | the mean of the activity, body-type, gender (46/56) and calorie terms; at least 11.5 for a non-negative budget and weight |
| Nutrients.DailyFiber | main.py:145-156 | the daily total is unassigned exactly for an adult who is neither male nor female; a child gets the drawn total; an adult's total is 25 or 38 |
| Nutrients.DailyFiberTotals | main.py:145-156 | an adult's total is 38 (male) or 25 (female) or unassigned; a child's is the drawn total; the age > 51 branch is never taken |
| Nutrients.Fiber | main.py:144-162 | fails exactly when an adult is neither male nor female; otherwise share × total / 26, within the share range times 25/26 to 38/26 |
| Nutrients.CappedDraw | main.py:87-95 | a draw from 0 to int(cap × base) is non-negative and at most the largest cap share × base |
| Nutrients.Cholesterol | main.py:87-90 | between 0 and 60 for lunch and between 0 and 40 otherwise |
| Nutrients.Sodium | main.py:92-95 | between 0 and 690 for lunch and between 0 and 460 otherwise |
| Recipes.Filter | main.py:68 | `isin` keeps only rows of the table whose category is listed, and never more rows than the table has |
| Recipes.FilterIsSubsequence | main.py:68 | the filtered rows are an order-preserving subsequence of the table |
| Recipes.FilterMultiplicity | main.py:68 | each row occurs as often as in the table when its category is listed, and not at all otherwise |
| Recipes.FilterMembership | main.py:68 | a row is in the filter exactly when it is in the table and its category is listed |
| Recipes.CategoryList | main.py:66-85 | None exactly for an unknown meal type; breakfast takes its fixed list; the lunch and dinner lists start with the meal type |
| Recipes.CategoryListsRelated | main.py:70-81 | the dinner lists are the lunch lists with the first entry replaced by "dinner"; only "lose weight" changes the list |
| Recipes.CategoryDetermination | main.py:66-85 | None exactly for an unknown meal type; otherwise the filter by the selected list; a dinner selection holds no "lunch" row and vice versa |
| Recipes.SortedCons | main.py:231 | a row with at least the calories of every row of a descending list can go in front of it |
| Recipes.InsertDesc | main.py:231 | inserting into a descending list keeps it descending and adds exactly that row |
| Recipes.SortByCaloriesDesc | main.py:231 | the result is a permutation of the rows with Calories never increasing |
| Cleaning.RemoveWrappers | main.py:237 | the regex pass leaves no `"` and no `)` and never lengthens the text |
| Cleaning.RemoveWrappersIdentity | main.py:237 | text without `c(`, `)` and `"` passes unchanged |
| Cleaning.SplitOnSeparator | main.py:238 | splitting always yields at least one piece |
| Cleaning.SplitJoinRoundTrip | main.py:238 | joining the pieces with ", " gives the text back, so the split loses nothing |
| Cleaning.SplitPiecesHaveNoSeparator | main.py:238 | no piece contains ", ", so the split finds every separator |
| Cleaning.FirstPieceStarts | main.py:238 | a non-empty first piece starts with the first character of the text |
| Cleaning.Join | main.py:239 | `sep.join(parts)` starts with the first part and is that part alone when there is only one |
| Cleaning.ReplaceSeparators | main.py:238-239 | the reference replacement never lengthens the text |
| Cleaning.SplitJoinReplaces | main.py:238-239 | splitting on ", " and joining with " " equals replacing every separator by one space |
| Cleaning.ReplaceSeparatorsKeepsAbsent | main.py:238-239 | replacing separators introduces no new non-space character |
| Cleaning.ReplaceSeparatorsIdentity | main.py:238-239 | text without ", " is unchanged |
| Cleaning.CleanIt | main.py:236-239 | `clean_it`: the wrapper pass, then the pieces of the split joined with " "; the result has no `"` and no `)` and is never longer than the input (with `SplitJoinReplaces` it replaces every separator by a space) |
| Cleaning.CleanItIdentity | main.py:236-239 | text with none of `c(`, `)`, `"` and ", " is returned unchanged |
| Cleaning.CleanItCommaExample | main.py:236-239 | "a,, b" cleans to "a, b": the comma before the separator survives as a new separator |
| Cleaning.CleanItCommaSecondPass | main.py:236-239 | "a, b" cleans to "a b", so cleaning twice differs from cleaning once: not idempotent |
| Cleaning.CleanItWrapperExample | main.py:237 | "cc((" cleans to "c(", which cleans again to "": not idempotent |
| Recommender.Targets | main.py:165-192 | fails exactly where `fiber` does; otherwise the vector is, in the column order of `cols` and of the preference record, the budget, `fat_calc`'s two values, `cholesterol`, `sodium`, `carbohydrate`, `fiber`, `sugar`, `protein`, and the time flags 0 and 1, each for these draws; all targets are non-negative for a non-negative budget and weight; a negative budget gives negative fat |
| Recommender.UserPreferenceList | main.py:165-196 | succeeds exactly for a known activity, non-zero height, known meal type and, for an adult, a gender of male or female; an unknown activity is the first error; the rows are the category selection; the target vector is `Targets` of the meal budget and body type, so its calorie entry is the meal budget; no failure is `NoCategoryList` |
| Recommender.SentinelReachesTargets | main.py:165-168 | as written, lunch or dinner with nothing left succeeds with a calorie target of -1 and a negative fat target |
| Recommender.CheckedPreferenceList | main.py:165-175 | corrected pipeline: succeeds exactly for an accepted request that is breakfast or has calories left; success agrees with the as-written result; an accepted lunch or dinner with nothing left is `InfeasibleBudget`; a lunch or dinner calorie target is positive; no failure is `NoCategoryList` |
| Recommender.CheckedTargetsNonNegative | main.py:165-192 | with the correction, every target is non-negative for a non-negative weight (and breakfast budget) |
| Recommender.TakeFirst | main.py:232-233 | `s[:n]` keeps the first min(n, len s) positions |
| Recommender.ILoc | main.py:232-233 | `iloc` succeeds exactly when every position is in range, and then yields the row at each position in order |
| Recommender.Combine | main.py:231-234 | succeeds exactly when both index prefixes are in range; the first entries are the filtered rows at the Euclidean positions, the rest the sorted rows at the cosine positions |
| Recommender.BlendLength | main.py:231-234 | a successful blend has at least five rows exactly when there are at least two cosine and three Euclidean positions |
| Recommender.BlendRows | main.py:231-234 | a full blend is five rows: the filtered rows at the first three Euclidean positions, then the sorted rows at the first two cosine positions |
| Recommender.CombineHasFive | main.py:231-234 | at least three Euclidean and two cosine positions, all in range, give exactly five rows |
| Recommender.PositionalRemapExample | main.py:231-234 | the same positions name different rows in the two groups and a row can appear twice |
| Recommender.SortPair | main.py:231 | sorting two rows puts the one with more calories first |
| Recommender.SendBack | main.py:241-248 | `send_back` keeps the row's name, category and calories, and its instructions are exactly `CleanIt` of the stored text, so they hold no `"` and no `)` and are never longer |
| Recommender.MealKey | main.py:252 | `f'Meal {n}'` is six characters ending in the digit n |
| Recommender.MealKeyText | main.py:252 | every key starts with "Meal " |
| Recommender.MealKeyInjective | main.py:252 | different meal numbers give different keys |
| Recommender.MealKeysExact | main.py:251-252 | the keys of i loop turns are i distinct keys, one "Meal n" for each n from 1 to i |
| Recommender.MealKeyFresh | main.py:251-252 | each loop turn adds a key not added before |
| Recommender.MealKeysMembers | main.py:251-252 | every key of i loop turns is "Meal n" for some n from 1 to i |
| Recommender.ResponseUpToContents | main.py:250-252 | after i loop turns `main_dct` has exactly the keys "Meal 1" to "Meal i", each bound to the entry for the row at that position |
| Recommender.BuildResponse | main.py:250-252 | succeeds exactly with at least five rows; the dictionary equals the one of five loop turns, with keys "Meal 1" to "Meal 5" each bound to the entry for the row at that position |
| Recommender.Respond | main.py:231-252 | succeeds exactly when both index lists are long enough and their prefixes are in range; Meals 1-3 are the filtered rows at the Euclidean positions and Meals 4-5 the sorted rows at the cosine positions |
| Recommender.ProcessUserDetails | main.py:222-254 | succeeds exactly when the pipeline succeeds and both index prefixes are long enough and in range; Meals 1-3 are the Euclidean matches and Meals 4-5 the sorted rows at the cosine positions |

## Left out

- The web application, request validation and JSON response (the FastAPI app and the pydantic model): HTTP plumbing. The request is a datatype.
- Reading the recipe CSV: file I/O. The table is a parameter.
- The `NearestNeighbors` fits and `kneighbors` calls: library code that is not part of this model. Their index lists are parameters, and a filtered table with fewer than five rows is not modelled as an error. In the original an empty table makes `fit` fail, and one to four rows make `kneighbors` fail, because five neighbours are asked for.
- The random number generator: each draw is a parameter constrained to its range.
- Column selection, DataFrame construction and the `print` of the targets: pandas plumbing and output.
- IEEE floating point: reals are used, so rounding is not modelled.
- Recipes.SortByCaloriesDesc: pandas' default sort is not stable, so the order of rows with equal Calories is not specified by the source. The model keeps table order for them.
- Estimator.Tdee: states nothing about the sign of the estimate, which the source does not bound (a large age can make the BMR negative).
- Recommender.ProcessUserDetails: uses the corrected pipeline of the Findings. The as-written pipeline is `Recommender.UserPreferenceList`.
- Recommender.MealKey: covers one-digit meal numbers only, which is all the response uses.

## Findings

| source | as written | input that shows it | evidently intended | confidence | as-written member | corrected member |
|---|---|---|---|---|---|---|
| main.py:53-55 | `meal_time` returns the sentinel -1 when nothing is left, and `user_preference_list` feeds it into every nutrient formula | lunch or dinner with `consumed_calorie` at least the estimated TDEE: calorie target -1 and a negative fat target | no calories left for the meal is refused as an error | not executed | Recommender.SentinelReachesTargets | Recommender.CheckedPreferenceList |
