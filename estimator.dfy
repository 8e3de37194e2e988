/** Metabolic estimate (`TDEE`) and per-meal calorie budget (`meal_time`).
    Inputs are the request's own strings; floats are reals. */
module Estimator {
  import opened Outcomes

  /** The five body types, from lightest to heaviest. */
  datatype BodyType = Thinness | Underweight | Normal | Overweight | Obesity

  /** Position of a body type on the scale from lightest to heaviest. */
  function Rank(b: BodyType): nat
  {
    match b
    case Thinness => 0
    case Underweight => 1
    case Normal => 2
    case Overweight => 3
    case Obesity => 4
  }

  /** BMI classification with exclusive lower bounds 30, 25, 18.5 and 17. */
  function ClassifyBmi(bmi: real): (b: BodyType)
    ensures b == Obesity <==> 30.0 < bmi
    ensures b == Overweight <==> 25.0 < bmi <= 30.0
    ensures b == Normal <==> 18.5 < bmi <= 25.0
    ensures b == Underweight <==> 17.0 < bmi <= 18.5
    ensures b == Thinness <==> bmi <= 17.0
  {
    if bmi > 30.0 then Obesity
    else if bmi > 25.0 then Overweight
    else if bmi > 18.5 then Normal
    else if bmi > 17.0 then Underweight
    else Thinness
  }

  /** A larger BMI never gives a lighter body type. */
  lemma ClassifyBmiMonotone(lo: real, hi: real)
    requires lo <= hi
    ensures Rank(ClassifyBmi(lo)) <= Rank(ClassifyBmi(hi))
  {
  }

  /** Harris-Benedict basal metabolic rate.  `height` enters as given (the
      request carries metres); any gender other than "female" takes the
      male coefficients. */
  function Bmr(gender: string, weight: real, height: real, age: int): real
  {
    if gender == "female" then 655.0 + 9.6 * weight + 1.8 * height - 4.7 * (age as real)
    else 66.0 + 13.7 * weight + 5.0 * height - 6.8 * (age as real)
  }

  /** For either set of coefficients the rate grows with weight and height
      and falls with age. */
  lemma BmrMonotone(gender: string, w1: real, w2: real, h1: real, h2: real, a1: int, a2: int)
    requires w1 <= w2 && h1 <= h2 && a2 <= a1
    ensures Bmr(gender, w1, h1, a1) <= Bmr(gender, w2, h2, a2)
  {
  }

  /** The activity-factor table; its keys contain spaces. */
  const ActivityFactors: map<string, real> := map[
    "sedentary" := 1.2,
    "lightly active" := 1.375,
    "moderately active" := 1.55,
    "very active" := 1.725,
    "extremely active" := 1.9
  ]

  lemma SquareNonZero(h: real)
    requires h != 0.0
    ensures h * h != 0.0
  {
    if h > 0.0 {
      assert h * h > 0.0;
    } else {
      assert (-h) * (-h) > 0.0;
    }
  }

  /** `weight/height**2`. */
  function Bmi(weight: real, height: real): real
    requires height != 0.0
  {
    assert height * height != 0.0 by { SquareNonZero(height); }
    weight / (height * height)
  }

  /** The goal adjustment, applied before the estimation jitter: "lose
      weight" takes a fifth off, "muscle gain" adds 250, any other goal
      leaves the estimate alone. */
  function AdjustForGoal(tdee: real, goal: string): (r: real)
    ensures goal == "lose weight" ==> r == 0.8 * tdee
    ensures goal == "muscle gain" ==> r == tdee + 250.0
    ensures goal != "lose weight" && goal != "muscle gain" ==> r == tdee
    ensures tdee >= 0.0 && goal == "lose weight" ==> r <= tdee
    ensures goal == "muscle gain" ==> r > tdee
  {
    if goal == "lose weight" then tdee * 0.8
    else if goal == "muscle gain" then tdee + 250.0
    else tdee
  }

  datatype Estimate = Estimate(tdee: real, bodyType: BodyType)

  /** `TDEE(gender, weight, height, age, activity, goal)`, with the final
      `random.uniform(0.95, 1.05)` given as `jitter`.  The activity lookup
      happens before the BMI division, so an unknown activity wins over a
      zero height. */
  function Tdee(gender: string, weight: real, height: real, age: int,
                activity: string, goal: string, jitter: real): (r: Result<Estimate>)
    requires 0.95 <= jitter <= 1.05
    ensures activity !in ActivityFactors ==> r == Failure(UnknownActivity(activity))
    ensures activity in ActivityFactors && height == 0.0 ==> r == Failure(ZeroHeight)
    ensures r.Success? <==> activity in ActivityFactors && height != 0.0
    ensures r.Success? ==> r.value.bodyType == ClassifyBmi(Bmi(weight, height))
    ensures r.Success? ==>
      r.value.tdee == AdjustForGoal(ActivityFactors[activity] * Bmr(gender, weight, height, age), goal) * jitter
  {
    if activity !in ActivityFactors then Failure(UnknownActivity(activity))
    else
      var bmr := Bmr(gender, weight, height, age);
      var tdee := AdjustForGoal(ActivityFactors[activity] * bmr, goal);
      if height == 0.0 then Failure(ZeroHeight)
      else
        var value := tdee * jitter;
        var est := Estimate(value, ClassifyBmi(Bmi(weight, height)));
        assert est.tdee == AdjustForGoal(ActivityFactors[activity] * Bmr(gender, weight, height, age), goal) * jitter;
        Success(est)
  }

  /** "lose weight" scales the estimate by exactly 0.8 against "maintain". */
  lemma TdeeLoseWeight(gender: string, weight: real, height: real, age: int, activity: string, jitter: real)
    requires 0.95 <= jitter <= 1.05
    requires Tdee(gender, weight, height, age, activity, "maintain", jitter).Success?
    ensures Tdee(gender, weight, height, age, activity, "lose weight", jitter).Success?
    ensures Tdee(gender, weight, height, age, activity, "lose weight", jitter).value.tdee
         == 0.8 * Tdee(gender, weight, height, age, activity, "maintain", jitter).value.tdee
  {
  }

  /** "muscle gain" adds exactly 250 before the jitter, so 250 * jitter after it. */
  lemma TdeeMuscleGain(gender: string, weight: real, height: real, age: int, activity: string, jitter: real)
    requires 0.95 <= jitter <= 1.05
    requires Tdee(gender, weight, height, age, activity, "maintain", jitter).Success?
    ensures Tdee(gender, weight, height, age, activity, "muscle gain", jitter).Success?
    ensures Tdee(gender, weight, height, age, activity, "muscle gain", jitter).value.tdee
         == Tdee(gender, weight, height, age, activity, "maintain", jitter).value.tdee + 250.0 * jitter
  {
  }

  /** Any goal other than the two named ones leaves the estimate as for "maintain",
      and the body type never depends on the goal. */
  lemma TdeeOtherGoal(gender: string, weight: real, height: real, age: int, activity: string, goal: string, jitter: real)
    requires 0.95 <= jitter <= 1.05
    ensures Tdee(gender, weight, height, age, activity, goal, jitter).Success? ==>
      (Tdee(gender, weight, height, age, activity, "maintain", jitter).Success? &&
       Tdee(gender, weight, height, age, activity, goal, jitter).value.bodyType
         == Tdee(gender, weight, height, age, activity, "maintain", jitter).value.bodyType)
    ensures goal != "lose weight" && goal != "muscle gain" &&
            Tdee(gender, weight, height, age, activity, goal, jitter).Success? ==>
      Tdee(gender, weight, height, age, activity, goal, jitter).value.tdee
        == Tdee(gender, weight, height, age, activity, "maintain", jitter).value.tdee
  {
    if activity in ActivityFactors {
      var base := ActivityFactors[activity] * Bmr(gender, weight, height, age);
      assert goal != "lose weight" && goal != "muscle gain" ==>
        AdjustForGoal(base, goal) == AdjustForGoal(base, "maintain");
    }
  }

  /** A male of 80 kg, 1.8 (metres), 30 years, moderately active, maintaining:
      the BMI 80 / 3.24 is normal and, with the height taken as given, the BMR
      is 66 + 1096 + 9 - 204 = 967, so the estimate is 967 * 1.55 * jitter. */
  lemma TdeeScenarioMale(jitter: real)
    requires 0.95 <= jitter <= 1.05
    ensures Tdee("male", 80.0, 1.8, 30, "moderately active", "maintain", jitter)
         == Success(Estimate(1498.85 * jitter, Normal))
  {
  }

  predicate IsMealType(mealType: string)
  {
    mealType == "breakfast" || mealType == "lunch" || mealType == "dinner"
  }

  predicate MealJitters(jBreakfast: real, jLunch: real, jDinner: real)
  {
    0.9 <= jBreakfast <= 1.0 && 1.0 <= jLunch <= 1.1 && 0.95 <= jDinner <= 1.05
  }

  /** `meal_time(tdee, consumed_calorie, meal_type)`.  For lunch and dinner
      the sentinel -1.0 is returned exactly when nothing is left; otherwise
      the budget is positive.  Breakfast ignores what was consumed.  The
      0.35 dinner share is never used. */
  function MealTime(tdee: real, consumed: real, mealType: string,
                    jBreakfast: real, jLunch: real, jDinner: real): (r: Result<real>)
    requires MealJitters(jBreakfast, jLunch, jDinner)
    ensures r.Failure? <==> !IsMealType(mealType)
    ensures r.Failure? ==> r.error == UnknownMealType(mealType)
    ensures mealType == "breakfast" ==> r.Success? && r.value == tdee * 0.22 * jBreakfast
    ensures (mealType == "lunch" || mealType == "dinner") ==>
      (r == Success(-1.0) <==> tdee - consumed <= 0.0)
    ensures (mealType == "lunch" || mealType == "dinner") && r.Success? && r.value != -1.0 ==>
      r.value > 0.0
    ensures mealType == "lunch" && tdee - consumed > 0.0 ==>
      r.Success? && r.value == (tdee - consumed) * 0.31 * jLunch
    ensures mealType == "dinner" && tdee - consumed > 0.0 ==>
      r.Success? && r.value == (tdee - consumed) * jDinner
  {
    // The `meals` dict, meal type to [share, jitter]: all three jitters are
    // drawn when it is built, whichever meal is asked for.
    var meals := map["breakfast" := (0.22, jBreakfast), "lunch" := (0.31, jLunch), "dinner" := (0.35, jDinner)];
    if mealType !in meals then Failure(UnknownMealType(mealType))
    else
      var meal := meals[mealType];
      assert mealType == "breakfast" ==> meal == (0.22, jBreakfast);
      assert mealType == "lunch" ==> meal == (0.31, jLunch);
      assert mealType == "dinner" ==> meal == (0.35, jDinner);
      if mealType == "breakfast" then Success(tdee * meal.0 * meal.1)
      else
        var left := tdee - consumed;
        if left <= 0.0 then Success(-1.0)
        else if mealType == "lunch" then
          assert left * 0.31 * jLunch > 0.0;
          Success(left * meal.0 * meal.1)
        else
          assert left * meal.1 > 0.0;
          Success(left * meal.1)
  }

  /** Breakfast's budget does not depend on the calories already consumed. */
  lemma BreakfastIgnoresConsumed(tdee: real, c1: real, c2: real, jBreakfast: real, jLunch: real, jDinner: real)
    requires MealJitters(jBreakfast, jLunch, jDinner)
    ensures MealTime(tdee, c1, "breakfast", jBreakfast, jLunch, jDinner)
         == MealTime(tdee, c2, "breakfast", jBreakfast, jLunch, jDinner)
  {
  }

  /** The budget with the sentinel replaced by an error: lunch and dinner
      with nothing left fail with `InfeasibleBudget`. */
  function CheckedMealTime(tdee: real, consumed: real, mealType: string,
                           jBreakfast: real, jLunch: real, jDinner: real): (r: Result<real>)
    requires MealJitters(jBreakfast, jLunch, jDinner)
    ensures r.Success? <==> IsMealType(mealType) && (mealType == "breakfast" || tdee - consumed > 0.0)
    ensures !IsMealType(mealType) ==> r == Failure(UnknownMealType(mealType))
    ensures (mealType == "lunch" || mealType == "dinner") ==>
      (r == Failure(InfeasibleBudget) <==> tdee - consumed <= 0.0)
    ensures (mealType == "lunch" || mealType == "dinner") && r.Success? ==> r.value > 0.0
    ensures r.Success? ==> r == MealTime(tdee, consumed, mealType, jBreakfast, jLunch, jDinner)
  {
    var budget :- MealTime(tdee, consumed, mealType, jBreakfast, jLunch, jDinner);
    if mealType != "breakfast" && budget == -1.0 then Failure(InfeasibleBudget)
    else Success(budget)
  }
}
