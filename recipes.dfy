/** The recipe table and the two views the recommender takes of it: the
    category filter (`category_determination`) and the rows sorted by
    Calories, descending (`sort_values(by="Calories", ascending=False)`). */
module Recipes {
  import opened Outcomes

  /** The eleven numeric columns, in the order the neighbour search uses. */
  datatype NutrientVector = NutrientVector(
    calories: real, fat: real, saturatedFat: real, cholesterol: real, sodium: real,
    carbohydrate: real, fiber: real, sugar: real, protein: real,
    timeMiddle: real, timeShort: real)

  /** One row of the recipe table. */
  datatype Recipe = Recipe(name: string, category: string, instructions: string, nutrients: NutrientVector)

  // ------------------------------------------------------------- filtering

  /** `data[data["RecipeCategory"].isin(categories)]`: the rows whose
      category is listed, in table order. */
  function Filter(rows: seq<Recipe>, categories: seq<string>): (r: seq<Recipe>)
    ensures |r| <= |rows|
    ensures forall k :: 0 <= k < |r| ==> r[k] in rows && r[k].category in categories
  {
    if rows == [] then []
    else (if rows[0].category in categories then [rows[0]] else []) + Filter(rows[1..], categories)
  }

  /** `sub` is `s` with some elements dropped and the rest kept in order. */
  predicate IsSubsequence(sub: seq<Recipe>, s: seq<Recipe>)
    decreases |s|
  {
    if sub == [] then true
    else if s == [] then false
    else (sub[0] == s[0] && IsSubsequence(sub[1..], s[1..])) || IsSubsequence(sub, s[1..])
  }

  lemma {:induction false} SubsequenceOfTail(sub: seq<Recipe>, s: seq<Recipe>)
    requires s != [] && IsSubsequence(sub, s[1..])
    ensures IsSubsequence(sub, s)
  {
  }

  /** The filter keeps the order of the table. */
  lemma {:induction false} FilterIsSubsequence(rows: seq<Recipe>, categories: seq<string>)
    ensures IsSubsequence(Filter(rows, categories), rows)
  {
    if rows != [] {
      var rest := Filter(rows[1..], categories);
      FilterIsSubsequence(rows[1..], categories);
      if rows[0].category in categories {
        assert Filter(rows, categories) == [rows[0]] + rest;
        assert ([rows[0]] + rest)[1..] == rest;
      } else {
        assert Filter(rows, categories) == rest;
        if rest != [] {
          SubsequenceOfTail(rest, rows);
        }
      }
    }
  }

  /** Each row occurs in the filter exactly as often as in the table when its
      category is listed, and not at all otherwise. */
  lemma {:induction false} FilterMultiplicity(rows: seq<Recipe>, categories: seq<string>, x: Recipe)
    ensures multiset(Filter(rows, categories))[x]
         == if x.category in categories then multiset(rows)[x] else 0
  {
    if rows != [] {
      var rest := Filter(rows[1..], categories);
      FilterMultiplicity(rows[1..], categories, x);
      assert rows == [rows[0]] + rows[1..];
      assert multiset(rows) == multiset([rows[0]]) + multiset(rows[1..]);
      if rows[0].category in categories {
        assert Filter(rows, categories) == [rows[0]] + rest;
        assert multiset(Filter(rows, categories)) == multiset([rows[0]]) + multiset(rest);
      } else {
        assert Filter(rows, categories) == rest;
      }
    }
  }

  /** Membership, both directions: a row is in the filter exactly when it
      is in the table and its category is listed. */
  lemma FilterMembership(rows: seq<Recipe>, categories: seq<string>, x: Recipe)
    ensures x in Filter(rows, categories) <==> x in rows && x.category in categories
  {
    FilterMultiplicity(rows, categories, x);
    assert x in Filter(rows, categories) <==> multiset(Filter(rows, categories))[x] > 0;
    assert x in rows <==> multiset(rows)[x] > 0;
  }

  // ------------------------------------------------------- category lists

  const BreakfastCategories: seq<string> := ["breakfast", "beverages", "fruits", "dessert"]
  /** `ls_w`: the lunch list for "lose weight". */
  const LunchWeightLoss: seq<string> := ["lunch", "beverages", "chicken", "fruits", "special_dietary", "vegetables"]
  /** `other`: the lunch list for every other goal. */
  const LunchOther: seq<string> := ["lunch", "beverages", "chicken", "meat", "fish_and_seafood", "international", "others"]

  /** The list `category_determination` filters by, or None for a meal type
      it does not know (the function then falls off its end). */
  function CategoryList(goal: string, mealType: string): (r: Option<seq<string>>)
    ensures r.None? <==> mealType != "breakfast" && mealType != "lunch" && mealType != "dinner"
    ensures mealType == "breakfast" ==> r == Some(BreakfastCategories)
    ensures mealType == "lunch" || mealType == "dinner" ==>
      r.Some? && |r.value| > 0 && r.value[0] == mealType
  {
    if mealType == "breakfast" then Some(BreakfastCategories)
    else
      var lsW := LunchWeightLoss;
      var other := LunchOther;
      if mealType == "lunch" then
        if goal == "lose weight" then Some(lsW) else Some(other)
      else if mealType == "dinner" then
        var lsW := ["dinner"] + lsW[1..];
        var other := ["dinner"] + other[1..];
        if goal == "lose weight" then Some(lsW) else Some(other)
      else None
  }

  /** The dinner lists are the lunch lists with the first entry replaced
      by "dinner"; the goal only matters as "lose weight" or not, and
      breakfast ignores it. */
  lemma CategoryListsRelated(goal: string)
    ensures CategoryList(goal, "dinner").value == ["dinner"] + CategoryList(goal, "lunch").value[1..]
    ensures goal != "lose weight" ==> CategoryList(goal, "lunch") == Some(LunchOther)
    ensures CategoryList("lose weight", "lunch") == Some(LunchWeightLoss)
    ensures CategoryList(goal, "breakfast") == CategoryList("maintain", "breakfast")
  {
  }

  /** `category_determination(data, goal, meal_type)`: None for an unknown
      meal type; otherwise exactly the listed rows in table order.  A dinner
      selection never holds a "lunch" row and a lunch selection never a
      "dinner" row. */
  function CategoryDetermination(data: seq<Recipe>, goal: string, mealType: string): (r: Option<seq<Recipe>>)
    ensures r.None? <==> mealType != "breakfast" && mealType != "lunch" && mealType != "dinner"
    ensures r.Some? ==> r.value == Filter(data, CategoryList(goal, mealType).value)
    ensures r.Some? ==> forall k :: 0 <= k < |r.value| ==>
      r.value[k] in data && r.value[k].category in CategoryList(goal, mealType).value
    ensures mealType == "dinner" ==> forall k :: 0 <= k < |r.value| ==> r.value[k].category != "lunch"
    ensures mealType == "lunch" ==> forall k :: 0 <= k < |r.value| ==> r.value[k].category != "dinner"
  {
    match CategoryList(goal, mealType)
    case None => None
    case Some(categories) => Some(Filter(data, categories))
  }

  // --------------------------------------------------------------- sorting

  function Calories(r: Recipe): real
  {
    r.nutrients.calories
  }

  predicate SortedByCaloriesDesc(s: seq<Recipe>)
  {
    forall i, j :: 0 <= i < j < |s| ==> Calories(s[i]) >= Calories(s[j])
  }

  /** Every row of a sorted list's tail, with a row of fewer calories than
      its head added, stays below the head. */
  lemma HeadBoundsInsertion(x: Recipe, s: seq<Recipe>, rest: seq<Recipe>)
    requires SortedByCaloriesDesc(s) && s != [] && Calories(x) < Calories(s[0])
    requires multiset(rest) == multiset(s[1..]) + multiset{x}
    ensures forall k :: 0 <= k < |rest| ==> Calories(s[0]) >= Calories(rest[k])
  {
    forall k | 0 <= k < |rest| ensures Calories(s[0]) >= Calories(rest[k]) {
      assert rest[k] in multiset(rest);
      if rest[k] != x {
        assert rest[k] in multiset(s[1..]);
        var i :| 0 <= i < |s[1..]| && s[1..][i] == rest[k];
        assert s[i + 1] == rest[k];
      }
    }
  }

  /** A row with at least the calories of every row of a sorted list can go
      in front of it. */
  lemma SortedCons(h: Recipe, t: seq<Recipe>)
    requires SortedByCaloriesDesc(t)
    requires forall k :: 0 <= k < |t| ==> Calories(h) >= Calories(t[k])
    ensures SortedByCaloriesDesc([h] + t)
  {
    var c := [h] + t;
    forall i, j | 0 <= i < j < |c|
      ensures Calories(c[i]) >= Calories(c[j])
    {
      assert c[j] == t[j - 1];
      if i > 0 {
        assert c[i] == t[i - 1];
      }
    }
  }

  /** Inserts `x` before the first row with fewer calories. */
  function InsertDesc(x: Recipe, s: seq<Recipe>): (r: seq<Recipe>)
    requires SortedByCaloriesDesc(s)
    ensures SortedByCaloriesDesc(r)
    ensures multiset(r) == multiset(s) + multiset{x}
    ensures |r| == |s| + 1
  {
    if s == [] || Calories(x) >= Calories(s[0]) then
      assert forall k :: 0 <= k < |s| ==> Calories(x) >= Calories(s[k]);
      SortedCons(x, s);
      [x] + s
    else
      var rest := InsertDesc(x, s[1..]);
      assert s == [s[0]] + s[1..];
      HeadBoundsInsertion(x, s, rest);
      SortedCons(s[0], rest);
      assert multiset([s[0]] + rest) == multiset{s[0]} + multiset(rest);
      [s[0]] + rest
  }

  /** `sort_values(by="Calories", ascending=False)`: a permutation of the
      rows with Calories never increasing.  This insertion sort keeps rows
      of equal Calories in table order. */
  function SortByCaloriesDesc(s: seq<Recipe>): (r: seq<Recipe>)
    ensures SortedByCaloriesDesc(r)
    ensures multiset(r) == multiset(s)
    ensures |r| == |s|
  {
    if s == [] then []
    else
      assert s == [s[0]] + s[1..];
      InsertDesc(s[0], SortByCaloriesDesc(s[1..]))
  }
}
