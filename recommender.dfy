/** The request pipeline: `user_preference_list` (estimate, budget,
    nutrient targets and category filter) and the result assembly of
    `process_user_details` (positional lookups, concatenation and the
    five-entry response built in a loop).  The two neighbour searches are
    not modelled: their index lists are inputs. */
module Recommender {
  import opened Outcomes
  import opened Estimator
  import opened Nutrients
  import opened Recipes
  import opened Cleaning

  /** The request body. */
  datatype UserDetail = UserDetail(
    age: int, weight: real, height: real, gender: string, goal: string,
    activity: string, consumedCalorie: real, mealType: string)

  /** One value for every draw a request can make, in call order.  Call
      sites on exclusive branches share a field, whose range follows the
      branch taken. */
  datatype Draws = Draws(
    tdee: real,
    breakfast: real, lunch: real, dinner: real,
    fatTotal: real, fatSaturated: real,
    carbCalories: real, carbOverweight: int, carbNormal: real, carbOther: real,
    carbLoseWeight: int, carbMuscleGain: int,
    sugarCalories: real, sugarGender: real,
    proteinCalories: real, proteinActivity: real,
    fiberTotal: int, fiberShare: real,
    cholesterolCap: real, cholesterol: real,
    sodiumCap: real, sodium: real)

  /** Every draw within the range its `random` call draws from. */
  predicate ValidDraws(d: Draws, mealType: string)
  {
    && 0.95 <= d.tdee <= 1.05
    && MealJitters(d.breakfast, d.lunch, d.dinner)
    && 0.2 <= d.fatTotal <= 0.35 && 0.0 <= d.fatSaturated <= 0.1
    && 0.45 <= d.carbCalories <= 0.65 && 100 <= d.carbOverweight <= 150
    && 0.5 <= d.carbNormal <= 0.6 && 0.65 <= d.carbOther <= 0.8
    && 70 <= d.carbLoseWeight <= 150 && 4 <= d.carbMuscleGain <= 7
    && 0.0 <= d.sugarCalories <= 0.1 && 0.95 <= d.sugarGender <= 1.05
    && 0.1 <= d.proteinCalories <= 0.35 && 1.3 <= d.proteinActivity <= 1.6
    && 25 <= d.fiberTotal <= 30
    && FiberShareLow(mealType) <= d.fiberShare <= FiberShareHigh(mealType)
    && CapShareLow(mealType) <= d.cholesterolCap <= CapShareHigh(mealType)
    && 0.0 <= d.cholesterol <= ((d.cholesterolCap * 200.0).Floor as real)
    && CapShareLow(mealType) <= d.sodiumCap <= CapShareHigh(mealType)
    && 0.0 <= d.sodium <= ((d.sodiumCap * 2300.0).Floor as real)
  }

  /** The requests the pipeline gets through: a known activity, a non-zero
      height, a known meal type, and for an adult a gender of "male" or
      "female" (which `fiber` needs). */
  predicate Accepted(user: UserDetail)
  {
    && user.activity in ActivityFactors
    && user.height != 0.0
    && IsMealType(user.mealType)
    && (user.age > 18 ==> user.gender == "male" || user.gender == "female")
  }

  predicate NonNegative(v: NutrientVector)
  {
    && v.calories >= 0.0 && v.fat >= 0.0 && v.saturatedFat >= 0.0
    && v.cholesterol >= 0.0 && v.sodium >= 0.0 && v.carbohydrate >= 0.0
    && v.fiber >= 0.0 && v.sugar >= 0.0 && v.protein >= 0.0
    && v.timeMiddle >= 0.0 && v.timeShort >= 0.0
  }

  /** The target vector for a given budget: `u_fat` ... `u_sodium` as
      `user_preference_list` computes them, with the two structural flags
      0 and 1.  Fails only where `fiber` does. */
  function Targets(budget: real, bodyType: BodyType, user: UserDetail, d: Draws): (r: Result<NutrientVector>)
    requires ValidDraws(d, user.mealType)
    ensures r.Failure? <==> user.age > 18 && user.gender != "male" && user.gender != "female"
    ensures r.Success? ==> r.value.calories == budget && r.value.timeMiddle == 0.0 && r.value.timeShort == 1.0
    ensures r.Success? && budget >= 0.0 && user.weight >= 0.0 ==> NonNegative(r.value)
    ensures r.Success? && budget < 0.0 ==> r.value.fat < 0.0 && r.value.saturatedFat <= 0.0
    ensures r.Success? ==>
      var fat := FatCalc(budget, d.fatTotal, d.fatSaturated);
      var fiber := Fiber(user.mealType, user.gender, user.age, d.fiberTotal, d.fiberShare);
      && fiber.Success?
      && r.value == NutrientVector(
           budget, fat.total, fat.saturated,
           Cholesterol(user.mealType, d.cholesterolCap, d.cholesterol),
           Sodium(user.mealType, d.sodiumCap, d.sodium),
           Carbohydrate(budget, bodyType, user.goal, user.weight, d.carbCalories, d.carbOverweight,
                        d.carbNormal, d.carbOther, d.carbLoseWeight, d.carbMuscleGain),
           fiber.value,
           Sugar(budget, user.gender, d.sugarCalories, d.sugarGender),
           Protein(budget, user.gender, user.weight, bodyType, user.activity,
                   d.proteinCalories, d.proteinActivity),
           0.0, 1.0)
  {
    var fat := FatCalc(budget, d.fatTotal, d.fatSaturated);
    var carb := Carbohydrate(budget, bodyType, user.goal, user.weight, d.carbCalories, d.carbOverweight,
                             d.carbNormal, d.carbOther, d.carbLoseWeight, d.carbMuscleGain);
    var sugar := Sugar(budget, user.gender, d.sugarCalories, d.sugarGender);
    var protein := Protein(budget, user.gender, user.weight, bodyType, user.activity,
                           d.proteinCalories, d.proteinActivity);
    var fiber :- Fiber(user.mealType, user.gender, user.age, d.fiberTotal, d.fiberShare);
    var cholesterol := Cholesterol(user.mealType, d.cholesterolCap, d.cholesterol);
    var sodium := Sodium(user.mealType, d.sodiumCap, d.sodium);
    assert budget >= 0.0 && user.weight >= 0.0 ==> carb >= 0.0 by {
      if budget >= 0.0 && user.weight >= 0.0 {
        CarbohydrateNonNegative(budget, bodyType, user.goal, user.weight, d.carbCalories, d.carbOverweight,
                                d.carbNormal, d.carbOther, d.carbLoseWeight, d.carbMuscleGain);
      }
    }
    Success(NutrientVector(budget, fat.total, fat.saturated, cholesterol, sodium,
                           carb, fiber, sugar, protein, 0.0, 1.0))
  }

  /** What `user_preference_list` hands on: the target vector and the filtered rows. */
  datatype Preferences = Preferences(target: NutrientVector, rows: seq<Recipe>)

  /** `user_preference_list(data, ...)` as written: the -1 budget of
      `meal_time` goes into the nutrient formulas unchecked.  The `None` of
      `category_determination` is never reached: an unknown meal type has
      already failed in `meal_time`. */
  function UserPreferenceList(data: seq<Recipe>, user: UserDetail, d: Draws): (r: Result<Preferences>)
    requires ValidDraws(d, user.mealType)
    ensures r.Success? <==> Accepted(user)
    ensures user.activity !in ActivityFactors ==> r == Failure(UnknownActivity(user.activity))
    ensures user.activity in ActivityFactors && !IsMealType(user.mealType) && user.height != 0.0 ==>
      r == Failure(UnknownMealType(user.mealType))
    ensures r.Success? ==> r.value.rows == CategoryDetermination(data, user.goal, user.mealType).value
    ensures r.Success? ==>
      var est := Tdee(user.gender, user.weight, user.height, user.age, user.activity, user.goal, d.tdee).value;
      r.value.target.calories
        == MealTime(est.tdee, user.consumedCalorie, user.mealType, d.breakfast, d.lunch, d.dinner).value
    ensures r.Success? ==>
      var est := Tdee(user.gender, user.weight, user.height, user.age, user.activity, user.goal, d.tdee).value;
      var budget := MealTime(est.tdee, user.consumedCalorie, user.mealType, d.breakfast, d.lunch, d.dinner).value;
      r.value.target == Targets(budget, est.bodyType, user, d).value
    ensures r.Failure? ==> r.error != NoCategoryList
  {
    var est :- Tdee(user.gender, user.weight, user.height, user.age, user.activity, user.goal, d.tdee);
    var budget :- MealTime(est.tdee, user.consumedCalorie, user.mealType, d.breakfast, d.lunch, d.dinner);
    var target :- Targets(budget, est.bodyType, user, d);
    match CategoryDetermination(data, user.goal, user.mealType)
    case None => Failure(NoCategoryList)
    case Some(rows) => Success(Preferences(target, rows))
  }

  /** For lunch or dinner with nothing left, the as-written pipeline goes on
      with a calorie target of -1 and a negative fat target. */
  lemma SentinelReachesTargets(data: seq<Recipe>, user: UserDetail, d: Draws)
    requires ValidDraws(d, user.mealType) && Accepted(user)
    requires user.mealType == "lunch" || user.mealType == "dinner"
    requires Tdee(user.gender, user.weight, user.height, user.age, user.activity, user.goal, d.tdee).value.tdee
             <= user.consumedCalorie
    ensures UserPreferenceList(data, user, d).Success?
    ensures UserPreferenceList(data, user, d).value.target.calories == -1.0
    ensures UserPreferenceList(data, user, d).value.target.fat < 0.0
  {
  }

  /** The corrected pipeline: no calories left for lunch or dinner is an
      `InfeasibleBudget` error.  When it succeeds it agrees with the
      as-written pipeline. */
  function CheckedPreferenceList(data: seq<Recipe>, user: UserDetail, d: Draws): (r: Result<Preferences>)
    requires ValidDraws(d, user.mealType)
    ensures r.Success? ==> r == UserPreferenceList(data, user, d)
    ensures r.Success? ==> Accepted(user)
    ensures Accepted(user) && user.mealType != "breakfast" ==>
      (r == Failure(InfeasibleBudget) <==>
       Tdee(user.gender, user.weight, user.height, user.age, user.activity, user.goal, d.tdee).value.tdee
         <= user.consumedCalorie)
    ensures r.Success? && user.mealType != "breakfast" ==> r.value.target.calories > 0.0
    ensures r.Success? <==>
      && Accepted(user)
      && (user.mealType == "breakfast" ||
          Tdee(user.gender, user.weight, user.height, user.age, user.activity, user.goal, d.tdee).value.tdee
            > user.consumedCalorie)
    ensures r.Failure? ==> r.error != NoCategoryList
  {
    var est :- Tdee(user.gender, user.weight, user.height, user.age, user.activity, user.goal, d.tdee);
    var budget :- CheckedMealTime(est.tdee, user.consumedCalorie, user.mealType, d.breakfast, d.lunch, d.dinner);
    var target :- Targets(budget, est.bodyType, user, d);
    match CategoryDetermination(data, user.goal, user.mealType)
    case None => Failure(NoCategoryList)
    case Some(rows) => Success(Preferences(target, rows))
  }

  /** With the correction, a lunch or dinner target vector is never negative
      (for a non-negative weight), and neither is a breakfast one whose
      budget is not negative. */
  lemma CheckedTargetsNonNegative(data: seq<Recipe>, user: UserDetail, d: Draws)
    requires ValidDraws(d, user.mealType)
    ensures CheckedPreferenceList(data, user, d).Success? && user.weight >= 0.0 &&
            (user.mealType == "breakfast" ==> CheckedPreferenceList(data, user, d).value.target.calories >= 0.0) ==>
      NonNegative(CheckedPreferenceList(data, user, d).value.target)
  {
    if CheckedPreferenceList(data, user, d).Success? {
      var est := Tdee(user.gender, user.weight, user.height, user.age, user.activity, user.goal, d.tdee).value;
      var budget := CheckedMealTime(est.tdee, user.consumedCalorie, user.mealType, d.breakfast, d.lunch, d.dinner).value;
      assert Targets(budget, est.bodyType, user, d).Success?;
    }
  }

  // ------------------------------------------------------------ assembly

  /** Python's `s[:n]`. */
  function TakeFirst(s: seq<nat>, n: nat): (r: seq<nat>)
    ensures |r| == if |s| < n then |s| else n
    ensures forall k :: 0 <= k < |r| ==> r[k] == s[k]
  {
    if |s| <= n then s else s[..n]
  }

  predicate InBounds(positions: seq<nat>, size: nat)
  {
    forall k :: 0 <= k < |positions| ==> positions[k] < size
  }

  /** `rows.iloc[positions]`: the rows at those positions, in that order;
      an out-of-range position is an IndexError. */
  function ILoc(rows: seq<Recipe>, positions: seq<nat>): (r: Result<seq<Recipe>>)
    ensures r.Success? <==> InBounds(positions, |rows|)
    ensures r.Failure? ==> r.error == PositionOutOfBounds
    ensures r.Success? ==> |r.value| == |positions|
    ensures r.Success? ==> forall k :: 0 <= k < |positions| ==> r.value[k] == rows[positions[k]]
  {
    if positions == [] then Success([])
    else if positions[0] >= |rows| then Failure(PositionOutOfBounds)
    else
      var rest :- ILoc(rows, positions[1..]);
      Success([rows[positions[0]]] + rest)
  }

  /** The `iloc` lookups and `pd.concat` of `process_user_details`: the
      cosine index's first two positions are looked up in the
      Calories-sorted rows, the Euclidean index's first three in the
      filtered rows themselves, and the latter come first. */
  function Combine(newData: seq<Recipe>, indices1: seq<nat>, indices2: seq<nat>): (r: Result<seq<Recipe>>)
    ensures r.Success? <==> InBounds(TakeFirst(indices1, 2), |newData|) && InBounds(TakeFirst(indices2, 3), |newData|)
    ensures r.Success? ==> |r.value| == |TakeFirst(indices2, 3)| + |TakeFirst(indices1, 2)|
    ensures r.Success? ==> forall k :: 0 <= k < |TakeFirst(indices2, 3)| ==> r.value[k] == newData[indices2[k]]
    ensures r.Success? ==> forall k :: 0 <= k < |TakeFirst(indices1, 2)| ==>
      r.value[|TakeFirst(indices2, 3)| + k] == SortByCaloriesDesc(newData)[indices1[k]]
  {
    var sorted := SortByCaloriesDesc(newData);
    var p1 := TakeFirst(indices1, 2);
    var p2 := TakeFirst(indices2, 3);
    var r1 := ILoc(sorted, p1);
    var r2 := ILoc(newData, p2);
    if r1.Failure? then Failure(r1.error)
    else if r2.Failure? then Failure(r2.error)
    else
      assert |r1.value| == |p1| && |r2.value| == |p2| && |sorted| == |newData|;
      assert forall k :: 0 <= k < |p1| ==> p1[k] == indices1[k] && indices1[k] < |sorted|;
      assert forall k :: 0 <= k < |p2| ==> p2[k] == indices2[k] && indices2[k] < |newData|;
      var c := r2.value + r1.value;
      assert forall k :: 0 <= k < |p2| ==> c[k] == r2.value[k];
      assert forall k :: 0 <= k < |p1| ==> c[|p2| + k] == r1.value[k];
      Success(c)
  }

  /** A blend is five rows long or more exactly when both index lists are
      long enough. */
  lemma BlendLength(newData: seq<Recipe>, indices1: seq<nat>, indices2: seq<nat>)
    requires Combine(newData, indices1, indices2).Success?
    ensures |Combine(newData, indices1, indices2).value| >= 5 <==> |indices1| >= 2 && |indices2| >= 3
  {
  }

  /** The five rows of a full blend, position by position. */
  lemma BlendRows(newData: seq<Recipe>, indices1: seq<nat>, indices2: seq<nat>)
    requires Combine(newData, indices1, indices2).Success?
    requires |indices1| >= 2 && |indices2| >= 3
    ensures |Combine(newData, indices1, indices2).value| == 5
    ensures forall k :: 0 <= k < 3 ==> Combine(newData, indices1, indices2).value[k] == newData[indices2[k]]
    ensures forall k :: 0 <= k < 2 ==>
      Combine(newData, indices1, indices2).value[3 + k] == SortByCaloriesDesc(newData)[indices1[k]]
  {
    assert |TakeFirst(indices2, 3)| == 3 && |TakeFirst(indices1, 2)| == 2;
  }

  /** With at least three Euclidean and two cosine positions, all in range,
      the blend has exactly five rows. */
  lemma CombineHasFive(newData: seq<Recipe>, indices1: seq<nat>, indices2: seq<nat>)
    requires |indices1| >= 2 && |indices2| >= 3
    requires InBounds(indices1, |newData|) && InBounds(indices2, |newData|)
    ensures Combine(newData, indices1, indices2).Success?
    ensures |Combine(newData, indices1, indices2).value| == 5
  {
  }

  /** The same positions name different rows in the two groups, and a row
      can appear in both: with two rows where the second has more calories,
      positions [0, 1] from both indexes give the rows a, b, b, a. */
  lemma PositionalRemapExample(a: Recipe, b: Recipe)
    requires Calories(a) < Calories(b)
    ensures SortByCaloriesDesc([a, b]) == [b, a]
    ensures Combine([a, b], [0, 1], [0, 1]) == Success([a, b, b, a])
  {
    SortPair(a, b);
    var rows := [a, b];
    var ps: seq<nat> := [0, 1];
    assert TakeFirst(ps, 2) == ps && TakeFirst(ps, 3) == ps;
    assert InBounds(ps, |rows|);
    var c := Combine(rows, ps, ps);
    assert c.Success? && |c.value| == 4;
    assert c.value[0] == rows[ps[0]] && c.value[1] == rows[ps[1]];
    assert c.value[2] == SortByCaloriesDesc(rows)[ps[0]];
    assert c.value[3] == SortByCaloriesDesc(rows)[ps[1]];
    assert c.value == [a, b, b, a];
  }

  /** Sorting two rows puts the one with more calories first. */
  lemma SortPair(a: Recipe, b: Recipe)
    requires Calories(a) < Calories(b)
    ensures SortByCaloriesDesc([a, b]) == [b, a]
  {
    assert [a, b][1..] == [b];
    assert SortByCaloriesDesc([b]) == [b] by {
      assert [b][1..] == [];
    }
    assert InsertDesc(a, [b]) == [b] + InsertDesc(a, []);
  }

  // ------------------------------------------------------------ response

  /** One entry of the response: `send_back(sample, i)`. */
  datatype MealEntry = MealEntry(name: string, category: string, instructions: string, calories: real)

  function SendBack(sample: Recipe): (r: MealEntry)
    ensures r.instructions == CleanIt(sample.instructions)
    ensures r.name == sample.name && r.category == sample.category
    ensures r.calories == sample.nutrients.calories
    ensures '"' !in r.instructions && ')' !in r.instructions
    ensures |r.instructions| <= |sample.instructions|
  {
    MealEntry(sample.name, sample.category, CleanIt(sample.instructions), sample.nutrients.calories)
  }

  /** `f'Meal {n}'` for a one-digit n: six characters ending in the digit. */
  function MealKey(n: nat): (key: string)
    requires 1 <= n <= 9
    ensures |key| == 6 && key[5] == ('0' as int + n) as char
  {
    "Meal " + [('0' as int + n) as char]
  }

  /** Every key starts with "Meal ". */
  lemma MealKeyText(n: nat)
    requires 1 <= n <= 9
    ensures MealKey(n)[..5] == "Meal "
  {
  }

  lemma MealKeyInjective(m: nat, n: nat)
    requires 1 <= m <= 9 && 1 <= n <= 9 && m != n
    ensures MealKey(m) != MealKey(n)
  {
    assert MealKey(m)[5] != MealKey(n)[5];
  }

  /** The keys "Meal 1" to "Meal i". */
  function MealKeys(i: nat): set<string>
    requires i <= 9
  {
    if i == 0 then {} else MealKeys(i - 1) + {MealKey(i)}
  }

  /** "Meal 1" to "Meal i" are i distinct keys: the set holds each of them
      and has exactly i elements. */
  lemma MealKeysExact(i: nat)
    requires i <= 9
    ensures |MealKeys(i)| == i
    ensures forall n :: 1 <= n <= i ==> MealKey(n) in MealKeys(i)
  {
    MealKeysCardinality(i);
    MealKeysContain(i);
  }

  lemma {:induction false} MealKeysContain(i: nat)
    requires i <= 9
    ensures forall n :: 1 <= n <= i ==> MealKey(n) in MealKeys(i)
  {
    if i > 0 {
      MealKeysContain(i - 1);
      assert MealKeys(i) == MealKeys(i - 1) + {MealKey(i)};
      forall n | 1 <= n <= i
        ensures MealKey(n) in MealKeys(i)
      {
        if n < i {
          assert MealKey(n) in MealKeys(i - 1);
        }
      }
    }
  }

  lemma {:induction false} MealKeysCardinality(i: nat)
    requires i <= 9
    ensures |MealKeys(i)| == i
  {
    if i > 0 {
      var previous := MealKeys(i - 1);
      var key := MealKey(i);
      MealKeysCardinality(i - 1);
      MealKeyFresh(i);
      assert MealKeys(i) == previous + {key};
      assert |previous + {key}| == |previous| + 1;
    }
  }

  /** "Meal i" is not among "Meal 1" to "Meal i-1". */
  lemma MealKeyFresh(i: nat)
    requires 1 <= i <= 9
    ensures MealKey(i) !in MealKeys(i - 1)
  {
    if MealKey(i) in MealKeys(i - 1) {
      MealKeysMembers(i - 1, MealKey(i));
      var n :| 1 <= n <= i - 1 && MealKey(i) == MealKey(n);
      MealKeyInjective(n, i);
      assert false;
    }
  }

  /** Every key of `MealKeys(i)` is some "Meal n" with n at most i. */
  lemma {:induction false} MealKeysMembers(i: nat, k: string)
    requires i <= 9 && k in MealKeys(i)
    ensures exists n :: 1 <= n <= i && k == MealKey(n)
  {
    if k != MealKey(i) {
      MealKeysMembers(i - 1, k);
    }
  }

  /** `main_dct` after i loop turns: "Meal 1" to "Meal i" bound to the
      entries for the first i rows. */
  function ResponseUpTo(combined: seq<Recipe>, i: nat): map<string, MealEntry>
    requires i <= |combined| && i <= 9
  {
    if i == 0 then map[]
    else ResponseUpTo(combined, i - 1)[MealKey(i) := SendBack(combined[i - 1])]
  }

  /** After i turns the keys are exactly "Meal 1" to "Meal i", each bound to
      the entry for the row at that position. */
  lemma {:induction false} ResponseUpToContents(combined: seq<Recipe>, i: nat)
    requires i <= |combined| && i <= 9
    ensures ResponseUpTo(combined, i).Keys == MealKeys(i)
    ensures forall n :: 1 <= n <= i ==>
      MealKey(n) in ResponseUpTo(combined, i) && ResponseUpTo(combined, i)[MealKey(n)] == SendBack(combined[n - 1])
  {
    if i > 0 {
      ResponseUpToContents(combined, i - 1);
      var previous := ResponseUpTo(combined, i - 1);
      assert ResponseUpTo(combined, i) == previous[MealKey(i) := SendBack(combined[i - 1])];
      forall n | 1 <= n < i
        ensures MealKey(n) in ResponseUpTo(combined, i) && ResponseUpTo(combined, i)[MealKey(n)] == SendBack(combined[n - 1])
      {
        MealKeyInjective(n, i);
      }
    }
  }

  /** The `for i in range(5)` loop that fills `main_dct`: one entry per
      turn, "Meal 1" to "Meal 5", each from the row at that position.  Fewer
      than five rows is an IndexError on the first missing one. */
  method BuildResponse(combined: seq<Recipe>) returns (r: Result<map<string, MealEntry>>)
    ensures r.Success? <==> |combined| >= 5
    ensures r.Failure? ==> r.error == PositionOutOfBounds
    ensures r.Success? ==> r.value == ResponseUpTo(combined, 5)
    ensures r.Success? ==> r.value.Keys == MealKeys(5)
    ensures r.Success? ==> forall n :: 1 <= n <= 5 ==>
      MealKey(n) in r.value && r.value[MealKey(n)] == SendBack(combined[n - 1])
  {
    var mainDct: map<string, MealEntry> := map[];
    var i := 0;
    while i < 5
      invariant 0 <= i <= 5 && i <= |combined|
      invariant mainDct == ResponseUpTo(combined, i)
    {
      if i >= |combined| {
        return Failure(PositionOutOfBounds);
      }
      mainDct := mainDct[MealKey(i + 1) := SendBack(combined[i])];
      i := i + 1;
    }
    ResponseUpToContents(combined, 5);
    return Success(mainDct);
  }

  /** `process_user_details` after the neighbour searches: the blend of
      the filtered rows and the response built from it.  "Meal 1" to "Meal 3" are the
      Euclidean matches in filter order, "Meal 4" and "Meal 5" the rows of
      the Calories-sorted view at the cosine positions; nothing keeps the
      two groups apart. */
  method Respond(rows: seq<Recipe>, indices1: seq<nat>, indices2: seq<nat>)
    returns (r: Result<map<string, MealEntry>>)
    ensures r.Success? <==>
      |indices1| >= 2 && |indices2| >= 3 && InBounds(TakeFirst(indices1, 2), |rows|) && InBounds(TakeFirst(indices2, 3), |rows|)
    ensures r.Failure? ==> r.error == PositionOutOfBounds
    ensures r.Success? ==> r.value.Keys == MealKeys(5)
    ensures r.Success? ==> forall n :: 1 <= n <= 3 ==>
      (MealKey(n) in r.value && r.value[MealKey(n)] == SendBack(rows[indices2[n - 1]]))
    ensures r.Success? ==> forall n :: 4 <= n <= 5 ==>
      (MealKey(n) in r.value && r.value[MealKey(n)] == SendBack(SortByCaloriesDesc(rows)[indices1[n - 4]]))
  {
    var blend := Combine(rows, indices1, indices2);
    if blend.Failure? {
      return Failure(blend.error);
    }
    var combined := blend.value;
    BlendLength(rows, indices1, indices2);
    r := BuildResponse(combined);
    if r.Success? {
      BlendRows(rows, indices1, indices2);
      var sorted := SortByCaloriesDesc(rows);
      assert combined[0] == rows[indices2[0]] && combined[1] == rows[indices2[1]] && combined[2] == rows[indices2[2]];
      assert combined[3 + 0] == sorted[indices1[0]] && combined[3 + 1] == sorted[indices1[1]];
    }
  }

  /** `process_user_details(user)` given the two neighbour searches' index
      lists, over the corrected pipeline: the targets and the category
      selection, then the response from the selected rows. */
  method ProcessUserDetails(data: seq<Recipe>, user: UserDetail, d: Draws,
                            indices1: seq<nat>, indices2: seq<nat>) returns (r: Result<map<string, MealEntry>>)
    requires ValidDraws(d, user.mealType)
    ensures r.Success? <==>
      && CheckedPreferenceList(data, user, d).Success?
      && |indices1| >= 2 && |indices2| >= 3
      && InBounds(TakeFirst(indices1, 2), |CheckedPreferenceList(data, user, d).value.rows|)
      && InBounds(TakeFirst(indices2, 3), |CheckedPreferenceList(data, user, d).value.rows|)
    ensures r.Success? ==> Accepted(user)
    ensures r.Success? ==> r.value.Keys == MealKeys(5)
    ensures r.Success? ==> forall n :: 1 <= n <= 3 ==>
      (MealKey(n) in r.value &&
       r.value[MealKey(n)] == SendBack(CheckedPreferenceList(data, user, d).value.rows[indices2[n - 1]]))
    ensures r.Success? ==> forall n :: 4 <= n <= 5 ==>
      (MealKey(n) in r.value &&
       r.value[MealKey(n)] == SendBack(SortByCaloriesDesc(CheckedPreferenceList(data, user, d).value.rows)[indices1[n - 4]]))
  {
    var prefs := CheckedPreferenceList(data, user, d);
    if prefs.Failure? {
      return Failure(prefs.error);
    }
    r := Respond(prefs.value.rows, indices1, indices2);
  }
}
