/** Per-meal nutrient targets (`fat_calc`, `carbohydrate`, `sugar`,
    `protein`, `fiber`, `cholesterol`, `sodium`).  Every `random.uniform`
    or `random.randint` draw is a parameter whose range is a precondition;
    a draw made only on one branch is constrained only on that branch. */
module Nutrients {
  import opened Outcomes
  import opened Estimator

  /** Sum and arithmetic mean of a non-empty list of terms: each target is
      the mean of 2, 3 or 4 heuristic terms. */
  function Sum(s: seq<real>): real
  {
    if s == [] then 0.0 else s[0] + Sum(s[1..])
  }

  function Mean(s: seq<real>): real
    requires |s| > 0
  {
    Sum(s) / (|s| as real)
  }

  lemma SumOfTwo(a: real, b: real)
    ensures Sum([a, b]) == a + b
  {
    assert [a, b][1..] == [b];
    assert [b][1..] == [];
    assert Sum([b]) == b + Sum([]);
  }

  lemma SumOfThree(a: real, b: real, c: real)
    ensures Sum([a, b, c]) == a + b + c
  {
    assert [a, b, c][1..] == [b, c];
    SumOfTwo(b, c);
  }

  lemma SumOfFour(a: real, b: real, c: real, d: real)
    ensures Sum([a, b, c, d]) == a + b + c + d
  {
    assert [a, b, c, d][1..] == [b, c, d];
    SumOfThree(b, c, d);
  }

  /** Multiplying by a non-negative factor keeps an order. */
  lemma MulLe(a: real, x: real, y: real)
    requires 0.0 <= a && x <= y
    ensures a * x <= a * y && x * a <= y * a
  {
    assert a * y - a * x == a * (y - x);
  }

  /** A negative number times a non-negative one is not positive, and
      negative when the factor is positive. */
  lemma MulNegative(a: real, x: real)
    requires a < 0.0 && x >= 0.0
    ensures a * x <= 0.0 && (x > 0.0 ==> a * x < 0.0)
  {
    MulLe(-a, 0.0, x);
    assert a * x == -((-a) * x);
    if x > 0.0 {
      assert (-a) * x > 0.0;
    }
  }

  /** Dividing by a positive divisor keeps an order. */
  lemma DivLe(x: real, y: real, d: real)
    requires x <= y && d > 0.0
    ensures x / d <= y / d
  {
    assert y / d - x / d == (y - x) / d;
  }

  /** A mean of non-negative terms is non-negative. */
  lemma {:induction false} MeanNonNegative(s: seq<real>)
    requires |s| > 0
    requires forall k :: 0 <= k < |s| ==> 0.0 <= s[k]
    ensures 0.0 <= Mean(s)
  {
    SumNonNegative(s);
  }

  lemma {:induction false} SumNonNegative(s: seq<real>)
    requires forall k :: 0 <= k < |s| ==> 0.0 <= s[k]
    ensures 0.0 <= Sum(s)
  {
    if s != [] {
      SumNonNegative(s[1..]);
    }
  }

  // ---------------------------------------------------------------- fat

  datatype FatTargets = FatTargets(total: real, saturated: real)

  /** `fat_calc(tdee_per_meal)`: total fat from 20-35 % and saturated fat
      from 0-10 % of the budget, at 9 kcal per gram.  Both have the sign of
      the budget, and saturated fat never exceeds total fat when the budget
      is not negative. */
  function FatCalc(budget: real, jTotal: real, jSaturated: real): (r: FatTargets)
    requires 0.2 <= jTotal <= 0.35 && 0.0 <= jSaturated <= 0.1
    ensures r == FatTargets(budget * jTotal / 9.0, budget * jSaturated / 9.0)
    ensures budget >= 0.0 ==> budget * 0.2 / 9.0 <= r.total <= budget * 0.35 / 9.0
    ensures budget >= 0.0 ==> 0.0 <= r.saturated <= r.total && r.saturated <= budget * 0.1 / 9.0
    ensures budget < 0.0 ==> r.total < 0.0 && r.saturated <= 0.0
  {
    FatBounds(budget, jTotal, jSaturated);
    FatTargets(budget * jTotal / 9.0, budget * jSaturated / 9.0)
  }

  /** The bounds of `FatCalc`, away from its context. */
  lemma FatBounds(budget: real, jTotal: real, jSaturated: real)
    requires 0.2 <= jTotal <= 0.35 && 0.0 <= jSaturated <= 0.1
    ensures var r := FatTargets(budget * jTotal / 9.0, budget * jSaturated / 9.0);
      && (budget >= 0.0 ==> budget * 0.2 / 9.0 <= r.total <= budget * 0.35 / 9.0)
      && (budget >= 0.0 ==> 0.0 <= r.saturated <= r.total && r.saturated <= budget * 0.1 / 9.0)
      && (budget < 0.0 ==> r.total < 0.0 && r.saturated <= 0.0)
  {
    if budget >= 0.0 {
      var total, saturated := budget * jTotal, budget * jSaturated;
      var lo, hi, saturatedHi := 0.2 * budget, 0.35 * budget, 0.1 * budget;
      assert total - lo == budget * (jTotal - 0.2);
      assert hi - total == budget * (0.35 - jTotal);
      assert total - saturated == budget * (jTotal - jSaturated);
      assert saturatedHi - saturated == budget * (0.1 - jSaturated);
      NonNegativeProduct(budget, jTotal - 0.2);
      NonNegativeProduct(budget, 0.35 - jTotal);
      NonNegativeProduct(budget, jTotal - jSaturated);
      NonNegativeProduct(budget, 0.1 - jSaturated);
      NonNegativeProduct(budget, jSaturated);
    } else {
      MulNegative(budget, jSaturated);
      MulNegative(budget, jTotal);
    }
  }

  lemma NonNegativeProduct(a: real, b: real)
    requires a >= 0.0 && b >= 0.0
    ensures a * b >= 0.0
  {
  }

  // ---------------------------------------------------------- carbohydrate

  predicate CarbDraws(bodyType: BodyType, goal: string, jCalories: real, typeGrams: int,
                      jNormal: real, jOther: real, goalGrams: int, goalFactor: int)
  {
    && 0.45 <= jCalories <= 0.65
    && (bodyType == Overweight ==> 100 <= typeGrams <= 150)
    && (bodyType == Normal ==> 0.5 <= jNormal <= 0.6)
    && (bodyType == Underweight || bodyType == Thinness ==> 0.65 <= jOther <= 0.8)
    && (goal == "lose weight" ==> 70 <= goalGrams <= 150)
    && (goal == "muscle gain" ==> 4 <= goalFactor <= 7)
  }

  /** The body-type term of `carbohydrate`: a fixed 50 g for obesity. */
  function TypeCarb(budget: real, bodyType: BodyType, typeGrams: int, jNormal: real, jOther: real): real
  {
    match bodyType
    case Obesity => 50.0
    case Overweight => typeGrams as real
    case Normal => budget * jNormal / 4.0
    case _ => budget * jOther / 4.0
  }

  /** The goal term of `carbohydrate`, absent for any goal but the two named. */
  function GoalCarb(goal: string, weight: real, goalGrams: int, goalFactor: int): Option<real>
  {
    if goal == "lose weight" then Some(goalGrams as real)
    else if goal == "muscle gain" then Some(weight * (goalFactor as real))
    else None
  }

  /** The terms `carbohydrate` averages: calories share, body-type term and,
      when present, the goal term. */
  function CarbTerms(budget: real, bodyType: BodyType, goal: string, weight: real, jCalories: real,
                     typeGrams: int, jNormal: real, jOther: real, goalGrams: int, goalFactor: int): seq<real>
  {
    [budget * jCalories / 4.0, TypeCarb(budget, bodyType, typeGrams, jNormal, jOther)]
      + match GoalCarb(goal, weight, goalGrams, goalFactor)
        case Some(g) => [g]
        case None => []
  }

  /** `carbohydrate(tdee_per_meal, body_type, goal, weight)`: the mean of
      two terms, or of three when the goal is "lose weight" or "muscle gain". */
  function Carbohydrate(budget: real, bodyType: BodyType, goal: string, weight: real, jCalories: real,
                        typeGrams: int, jNormal: real, jOther: real, goalGrams: int, goalFactor: int): (r: real)
    requires CarbDraws(bodyType, goal, jCalories, typeGrams, jNormal, jOther, goalGrams, goalFactor)
    ensures var terms := CarbTerms(budget, bodyType, goal, weight, jCalories, typeGrams, jNormal, jOther, goalGrams, goalFactor);
      && |terms| == (if goal == "lose weight" || goal == "muscle gain" then 3 else 2)
      && r == Mean(terms)
  {
    var carbFromCals := budget * jCalories / 4.0;
    var typeCarbDiet := TypeCarb(budget, bodyType, typeGrams, jNormal, jOther);
    var terms := CarbTerms(budget, bodyType, goal, weight, jCalories, typeGrams, jNormal, jOther, goalGrams, goalFactor);
    if goal == "lose weight" || goal == "muscle gain" then
      var goalCarb := GoalCarb(goal, weight, goalGrams, goalFactor).value;
      assert terms == [carbFromCals, typeCarbDiet, goalCarb];
      SumOfThree(carbFromCals, typeCarbDiet, goalCarb);
      (carbFromCals + typeCarbDiet + goalCarb) / 3.0
    else
      assert terms == [carbFromCals, typeCarbDiet];
      SumOfTwo(carbFromCals, typeCarbDiet);
      (carbFromCals + typeCarbDiet) / 2.0
  }

  /** Every term, and so the target, is non-negative for a non-negative
      budget and weight. */
  lemma CarbohydrateNonNegative(budget: real, bodyType: BodyType, goal: string, weight: real, jCalories: real,
                                typeGrams: int, jNormal: real, jOther: real, goalGrams: int, goalFactor: int)
    requires CarbDraws(bodyType, goal, jCalories, typeGrams, jNormal, jOther, goalGrams, goalFactor)
    requires budget >= 0.0 && weight >= 0.0
    ensures Carbohydrate(budget, bodyType, goal, weight, jCalories, typeGrams, jNormal, jOther, goalGrams, goalFactor) >= 0.0
  {
    var terms := CarbTerms(budget, bodyType, goal, weight, jCalories, typeGrams, jNormal, jOther, goalGrams, goalFactor);
    NonNegativeProduct(budget, jCalories);
    if bodyType == Normal {
      NonNegativeProduct(budget, jNormal);
    } else if bodyType == Underweight || bodyType == Thinness {
      NonNegativeProduct(budget, jOther);
    }
    if goal == "muscle gain" {
      NonNegativeProduct(weight, goalFactor as real);
    }
    assert forall k :: 0 <= k < |terms| ==> 0.0 <= terms[k];
    MeanNonNegative(terms);
  }

  /** For obesity the body-type term is exactly 50 g, whatever the draws. */
  lemma ObesityCarbTerm(budget: real, goal: string, weight: real, jCalories: real,
                        typeGrams: int, jNormal: real, jOther: real, goalGrams: int, goalFactor: int)
    ensures CarbTerms(budget, Obesity, goal, weight, jCalories, typeGrams, jNormal, jOther, goalGrams, goalFactor)[1] == 50.0
  {
  }

  // ----------------------------------------------------------------- sugar

  /** `sugar(tdee_per_meal, gender)`: the mean of a 0-10 % calorie share and
      a gender baseline of 37.5 g (female) or 25 g (anyone else), jittered. */
  function Sugar(budget: real, gender: string, jCalories: real, jGender: real): (r: real)
    requires 0.0 <= jCalories <= 0.1 && 0.95 <= jGender <= 1.05
    ensures var baseline := if gender == "female" then 37.5 else 25.0;
      r == Mean([budget * jCalories / 4.0, baseline * jGender])
    ensures budget >= 0.0 ==> r >= 0.0
  {
    var sugarGrams := budget * jCalories / 4.0;
    var genderSugarGrams := if gender == "female" then 37.5 * jGender else 25.0 * jGender;
    SumOfTwo(sugarGrams, genderSugarGrams);
    assert budget >= 0.0 ==> sugarGrams >= 0.0 by {
      if budget >= 0.0 { MulLe(budget, 0.0, jCalories); }
    }
    (sugarGrams + genderSugarGrams) / 2.0
  }

  // --------------------------------------------------------------- protein

  predicate HighActivity(activity: string)
  {
    activity == "very active" || activity == "extremely active"
  }

  /** The activity term of `protein`. */
  function ActivityProtein(activity: string, weight: real, jActivity: real): real
  {
    if activity == "moderately active" then weight
    else if HighActivity(activity) then weight * jActivity
    else 0.8 * weight
  }

  /** `protein(tdee_per_meal, gender, weight, body_type, activity)`: the mean
      of four terms, an activity term, a body-type term (0.5 g/kg for obesity
      and overweight, 0.8 g/kg otherwise), a gender baseline (46 g female,
      56 g anyone else) and a 10-35 % calorie share. */
  function Protein(budget: real, gender: string, weight: real, bodyType: BodyType, activity: string,
                   jCalories: real, jActivity: real): (r: real)
    requires 0.1 <= jCalories <= 0.35
    requires HighActivity(activity) ==> 1.3 <= jActivity <= 1.6
    ensures var typeProtein := if bodyType == Obesity || bodyType == Overweight then 0.5 * weight else 0.8 * weight;
      var genderProtein := if gender == "female" then 46.0 else 56.0;
      r == Mean([ActivityProtein(activity, weight, jActivity), typeProtein, genderProtein, budget * jCalories / 4.0])
    ensures budget >= 0.0 && weight >= 0.0 ==> r >= 11.5
  {
    var proteinGrams := budget * jCalories / 4.0;
    var typeProtein := if bodyType == Obesity || bodyType == Overweight then 0.5 * weight else 0.8 * weight;
    var genderProtein := if gender == "female" then 46.0 else 56.0;
    var activityProtein := ActivityProtein(activity, weight, jActivity);
    SumOfFour(activityProtein, typeProtein, genderProtein, proteinGrams);
    assert budget >= 0.0 && weight >= 0.0 ==> proteinGrams >= 0.0 && activityProtein >= 0.0 by {
      if budget >= 0.0 && weight >= 0.0 {
        MulLe(budget, 0.0, jCalories);
        if HighActivity(activity) { MulLe(weight, 0.0, jActivity); }
      }
    }
    (activityProtein + typeProtein + genderProtein + proteinGrams) / 4.0
  }

  // ----------------------------------------------------------------- fiber

  /** The daily fiber total of `fiber`, branch for branch.  The `age > 51`
      branch follows `age > 18`, so it is never taken.  An adult whose gender
      is neither "male" nor "female" leaves `total` unassigned. */
  function DailyFiber(gender: string, age: int, childTotal: int): (r: Option<int>)
    ensures r.None? <==> age > 18 && gender != "male" && gender != "female"
    ensures age <= 18 ==> r == Some(childTotal)
    ensures age > 18 && r.Some? ==> r.value == 25 || r.value == 38
  {
    if age > 18 then
      if gender == "female" then Some(25)
      else if gender == "male" then Some(38)
      else None
    else if age > 51 then
      if gender == "female" then Some(21)
      else if gender == "male" then Some(30)
      else None
    else Some(childTotal)
  }

  /** The `age > 51` branch is unreachable: every adult gets 38 g (male) or
      25 g (female), and a child gets the drawn total. */
  lemma DailyFiberTotals(gender: string, age: int, childTotal: int)
    ensures age > 18 && gender == "male" ==> DailyFiber(gender, age, childTotal) == Some(38)
    ensures age > 18 && gender == "female" ==> DailyFiber(gender, age, childTotal) == Some(25)
    ensures age > 18 && gender != "male" && gender != "female" ==> DailyFiber(gender, age, childTotal) == None
    ensures age <= 18 ==> DailyFiber(gender, age, childTotal) == Some(childTotal)
    ensures age > 51 ==> DailyFiber(gender, age, childTotal) == DailyFiber(gender, 19, childTotal)
  {
  }

  /** The range of the per-meal share drawn by `fiber` for each meal type. */
  function FiberShareLow(mealType: string): real
  {
    if mealType == "breakfast" then 1.0 else if mealType == "lunch" then 1.5 else 4.0
  }

  function FiberShareHigh(mealType: string): real
  {
    if mealType == "breakfast" then 4.0 else if mealType == "lunch" then 8.5 else 13.5
  }

  /** `fiber(meal_type, gender, age)`: the drawn share times the daily total
      over 26.  Fails exactly when an adult's gender is neither "male" nor
      "female"; any meal type other than breakfast and lunch takes the
      dinner range. */
  function Fiber(mealType: string, gender: string, age: int, childTotal: int, jShare: real): (r: Result<real>)
    requires age <= 18 ==> 25 <= childTotal <= 30
    requires FiberShareLow(mealType) <= jShare <= FiberShareHigh(mealType)
    ensures r.Failure? <==> age > 18 && gender != "male" && gender != "female"
    ensures r.Failure? ==> r.error == FiberTotalUnbound
    ensures r.Success? ==>
      (DailyFiber(gender, age, childTotal).Some? &&
       r.value == jShare * (DailyFiber(gender, age, childTotal).value as real) / 26.0)
    ensures r.Success? ==>
      FiberShareLow(mealType) * 25.0 / 26.0 <= r.value <= FiberShareHigh(mealType) * 38.0 / 26.0
  {
    match DailyFiber(gender, age, childTotal)
    case None => Failure(FiberTotalUnbound)
    case Some(total) =>
      assert 25 <= total <= 38;
      var t := total as real;
      var lo, hi := FiberShareLow(mealType), FiberShareHigh(mealType);
      MulLe(lo, 25.0, t);
      assert lo * 25.0 <= lo * t;
      MulLe(t, lo, jShare);
      assert lo * t <= jShare * t;
      MulLe(t, jShare, hi);
      assert jShare * t <= hi * t;
      MulLe(hi, t, 38.0);
      assert hi * t <= hi * 38.0;
      DivLe(lo * 25.0, jShare * t, 26.0);
      DivLe(jShare * t, hi * 38.0, 26.0);
      Success(jShare * t / 26.0)
  }

  // -------------------------------------------------- cholesterol and sodium

  /** The share of the base that caps the draw: 0.2-0.3 for lunch and
      0.1-0.2 for any other meal type. */
  function CapShareLow(mealType: string): real
  {
    if mealType == "lunch" then 0.2 else 0.1
  }

  function CapShareHigh(mealType: string): real
  {
    if mealType == "lunch" then 0.3 else 0.2
  }

  /** The shape shared by `cholesterol` and `sodium`:
      `random.uniform(0, int(random.uniform(lo, hi) * base))`.  The cap is
      truncated to an integer (`Floor`, the share being positive); the result
      lies between 0 and the cap, so never above `hi * base`. */
  function CappedDraw(mealType: string, base: nat, jCap: real, amount: real): (r: real)
    requires CapShareLow(mealType) <= jCap <= CapShareHigh(mealType)
    requires 0.0 <= amount <= ((jCap * (base as real)).Floor as real)
    ensures 0.0 <= r <= ((jCap * (base as real)).Floor as real) <= CapShareHigh(mealType) * (base as real)
    ensures (CapShareLow(mealType) * (base as real)).Floor <= (jCap * (base as real)).Floor
  {
    CapBounds(mealType, jCap, base);
    amount
  }

  /** A truncated cap lies between the truncated low cap and the high cap. */
  lemma CapBounds(mealType: string, j: real, base: nat)
    requires CapShareLow(mealType) <= j <= CapShareHigh(mealType)
    ensures ((j * (base as real)).Floor as real) <= CapShareHigh(mealType) * (base as real)
    ensures (CapShareLow(mealType) * (base as real)).Floor <= (j * (base as real)).Floor
  {
    var lo, hi, b := CapShareLow(mealType), CapShareHigh(mealType), base as real;
    assert j * b - lo * b == (j - lo) * b;
    assert hi * b - j * b == (hi - j) * b;
    NonNegativeProduct(j - lo, b);
    NonNegativeProduct(hi - j, b);
  }

  /** `cholesterol(meal_type)`, base 200 mg. */
  function Cholesterol(mealType: string, jCap: real, amount: real): (r: real)
    requires CapShareLow(mealType) <= jCap <= CapShareHigh(mealType)
    requires 0.0 <= amount <= ((jCap * 200.0).Floor as real)
    ensures 0.0 <= r <= (if mealType == "lunch" then 60.0 else 40.0)
  {
    CappedDraw(mealType, 200, jCap, amount)
  }

  /** `sodium(meal_type)`, base 2300 mg. */
  function Sodium(mealType: string, jCap: real, amount: real): (r: real)
    requires CapShareLow(mealType) <= jCap <= CapShareHigh(mealType)
    requires 0.0 <= amount <= ((jCap * 2300.0).Floor as real)
    ensures 0.0 <= r <= (if mealType == "lunch" then 690.0 else 460.0)
  {
    CappedDraw(mealType, 2300, jCap, amount)
  }
}
