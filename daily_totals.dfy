/**
 * Per-date calorie totals: the grouping every variant of the filter starts
 * from, both as a pure definition (DailySum) and as the date-to-sum map the
 * variants build with Map.merge(date, calories, Integer::sum).
 */
module DailyTotals {
  import opened MealModel

  /** The meals of one calendar date, in input order (one group of groupingBy(Meal::getDate)). */
  function DayMeals(meals: seq<Meal>, date: int): (r: seq<Meal>)
    ensures |r| <= |meals|
  {
    if meals == [] then []
    else (if meals[0].Date() == date then [meals[0]] else []) + DayMeals(meals[1..], date)
  }

  /** A date's group holds exactly the meals recorded on that date. */
  lemma {:induction false} DayMealsMembers(meals: seq<Meal>, date: int)
    ensures forall m :: m in DayMeals(meals, date) <==> m in meals && m.Date() == date
  {
    if meals != [] {
      DayMealsMembers(meals[1..], date);
      assert meals == [meals[0]] + meals[1..];
    }
  }

  /** The sum of the calories of the meals (mapToInt(Meal::getCalories).sum()). */
  function Total(meals: seq<Meal>): int
  {
    if meals == [] then 0 else meals[0].calories + Total(meals[1..])
  }

  /** The calories of all meals recorded on the given date. */
  function DailySum(meals: seq<Meal>, date: int): int
  {
    Total(DayMeals(meals, date))
  }

  /** The dates on which some meal is recorded. */
  function Dates(meals: seq<Meal>): set<int>
  {
    set m | m in meals :: m.Date()
  }

  predicate NonNegativeCalories(meals: seq<Meal>)
  {
    forall m :: m in meals ==> m.calories >= 0
  }

  lemma {:induction false} DayMealsConcat(a: seq<Meal>, b: seq<Meal>, date: int)
    ensures DayMeals(a + b, date) == DayMeals(a, date) + DayMeals(b, date)
  {
    if a == [] {
      assert a + b == b;
    } else {
      assert (a + b)[1..] == a[1..] + b;
      assert (a + b)[0] == a[0];
      DayMealsConcat(a[1..], b, date);
      assert DayMeals(a + b, date) == (if a[0].Date() == date then [a[0]] else []) + DayMeals(a[1..] + b, date);
    }
  }

  lemma {:induction false} TotalConcat(a: seq<Meal>, b: seq<Meal>)
    ensures Total(a + b) == Total(a) + Total(b)
  {
    if a == [] {
      assert a + b == b;
    } else {
      assert (a + b)[1..] == a[1..] + b;
      TotalConcat(a[1..], b);
    }
  }

  /** The daily sum of a concatenation is the sum of the daily sums of its parts. */
  lemma DailySumConcat(a: seq<Meal>, b: seq<Meal>, date: int)
    ensures DailySum(a + b, date) == DailySum(a, date) + DailySum(b, date)
  {
    DayMealsConcat(a, b, date);
    TotalConcat(DayMeals(a, date), DayMeals(b, date));
  }

  /** Appending a meal adds its calories to its own date and to no other. */
  lemma DailySumSnoc(meals: seq<Meal>, m: Meal, date: int)
    ensures DailySum(meals + [m], date)
         == DailySum(meals, date) + (if m.Date() == date then m.calories else 0)
  {
    DailySumConcat(meals, [m], date);
    assert [m][1..] == [];
    assert DayMeals([m], date) == if m.Date() == date then [m] else [];
    assert Total([m]) == m.calories;
  }

  /** A date with no meal totals zero. */
  lemma DailySumAbsent(meals: seq<Meal>, date: int)
    requires date !in Dates(meals)
    ensures DailySum(meals, date) == 0
  {
    DayMealsAbsent(meals, date);
  }

  /** A list of meals of one date is its own group. */
  lemma {:induction false} DayMealsOfOneDate(meals: seq<Meal>, date: int)
    requires forall m :: m in meals ==> m.Date() == date
    ensures DayMeals(meals, date) == meals
  {
    if meals != [] {
      assert meals[0] in meals;
      assert forall m :: m in meals[1..] ==> m in meals;
      DayMealsOfOneDate(meals[1..], date);
    }
  }

  /** A date on which no meal is recorded has an empty group. */
  lemma {:induction false} DayMealsOfOtherDates(meals: seq<Meal>, date: int)
    requires forall m :: m in meals ==> m.Date() != date
    ensures DayMeals(meals, date) == []
  {
    if meals != [] {
      assert meals[0] in meals;
      assert forall m :: m in meals[1..] ==> m in meals;
      DayMealsOfOtherDates(meals[1..], date);
    }
  }

  /** A date with no meal has an empty group. */
  lemma DayMealsAbsent(meals: seq<Meal>, date: int)
    requires date !in Dates(meals)
    ensures DayMeals(meals, date) == []
  {
    forall m | m in meals ensures m.Date() != date {
      assert m.Date() in Dates(meals);
    }
    DayMealsOfOtherDates(meals, date);
  }

  /** With non-negative calories a day's total only grows as meals are added. */
  lemma DailySumMonotone(a: seq<Meal>, b: seq<Meal>, date: int)
    requires NonNegativeCalories(b)
    ensures DailySum(a, date) <= DailySum(a + b, date)
  {
    DailySumConcat(a, b, date);
    DayMealsMembers(b, date);
    TotalNonNegative(DayMeals(b, date));
  }

  lemma {:induction false} TotalNonNegative(meals: seq<Meal>)
    requires NonNegativeCalories(meals)
    ensures Total(meals) >= 0
  {
    if meals != [] {
      assert meals[0] in meals;
      TotalNonNegative(meals[1..]);
    }
  }

  lemma DatesSnoc(meals: seq<Meal>, m: Meal)
    ensures Dates(meals + [m]) == Dates(meals) + {m.Date()}
  {
    forall d | d in Dates(meals + [m]) ensures d in Dates(meals) + {m.Date()} {
      var x :| x in meals + [m] && x.Date() == d;
      if x != m { assert x in meals; }
    }
    forall d | d in Dates(meals) ensures d in Dates(meals + [m]) {
      var x :| x in meals && x.Date() == d;
      assert x in meals + [m];
    }
    assert m in meals + [m];
  }

  lemma DayMealsSnoc(meals: seq<Meal>, m: Meal, date: int)
    ensures DayMeals(meals + [m], date) == DayMeals(meals, date) + (if m.Date() == date then [m] else [])
  {
    DayMealsConcat(meals, [m], date);
    assert [m][1..] == [];
  }

  /** Map.merge(date, calories, Integer::sum): add to the date's entry, creating it when absent. */
  function Merge(sums: map<int, int>, date: int, calories: int): (r: map<int, int>)
    ensures r.Keys == sums.Keys + {date}
    ensures r[date] == (if date in sums then sums[date] else 0) + calories
    ensures forall d :: d in sums && d != date ==> r[d] == sums[d]
  {
    if date in sums then sums[date := sums[date] + calories] else sums[date := calories]
  }

  /** The map holds exactly the dates of the meals, each with its daily sum. */
  ghost predicate TotalsOf(sums: map<int, int>, meals: seq<Meal>)
  {
    && sums.Keys == Dates(meals)
    && forall d :: d in sums ==> sums[d] == DailySum(meals, d)
  }

  /** One merge step keeps a map of daily totals exact for the longer list. */
  lemma MergeStep(sums: map<int, int>, meals: seq<Meal>, m: Meal)
    requires TotalsOf(sums, meals)
    ensures TotalsOf(Merge(sums, m.Date(), m.calories), meals + [m])
  {
    var r := Merge(sums, m.Date(), m.calories);
    DatesSnoc(meals, m);
    forall d | d in r ensures r[d] == DailySum(meals + [m], d) {
      MergeStepAt(sums, meals, m, d);
    }
  }

  /** MergeStep for one date of the merged map. */
  lemma MergeStepAt(sums: map<int, int>, meals: seq<Meal>, m: Meal, d: int)
    requires TotalsOf(sums, meals) && d in Merge(sums, m.Date(), m.calories)
    ensures Merge(sums, m.Date(), m.calories)[d] == DailySum(meals + [m], d)
  {
    DailySumSnoc(meals, m, d);
    if d !in sums {
      assert d == m.Date();
      DailySumAbsent(meals, d);
    }
  }

  /** Merging the i-th meal into the totals of the first i meals gives the totals of the first i + 1. */
  lemma MergeAt(sums: map<int, int>, meals: seq<Meal>, i: nat)
    requires i < |meals| && TotalsOf(sums, meals[..i])
    ensures TotalsOf(Merge(sums, meals[i].Date(), meals[i].calories), meals[..i + 1])
  {
    TakeSnoc(meals, i);
    MergeStep(sums, meals[..i], meals[i]);
  }

  /** Looking a meal's date up in exact totals gives its daily sum. */
  lemma TotalsLookup(sums: map<int, int>, meals: seq<Meal>, m: Meal)
    requires TotalsOf(sums, meals) && m in meals
    ensures m.Date() in sums && sums[m.Date()] == DailySum(meals, m.Date())
  {
    assert m.Date() in Dates(meals);
  }

  /**
   * groupingBy(Meal::getDate, summingInt(Meal::getCalories)) over a sequential
   * stream: the meals are folded into the map left to right.
   */
  function SumsByDate(meals: seq<Meal>): (r: map<int, int>)
    ensures TotalsOf(r, meals)
  {
    if meals == [] then
      NoDates();
      map[]
    else
      var front, last := meals[..|meals| - 1], meals[|meals| - 1];
      var sums := SumsByDate(front);
      MergeLast(sums, meals);
      Merge(sums, last.Date(), last.calories)
  }

  /** No meals, no totals: the empty map is the totals of the empty list. */
  lemma NoDates()
    ensures TotalsOf(map[], [])
  {
    assert Dates([]) == {};
  }

  lemma MergeLast(sums: map<int, int>, meals: seq<Meal>)
    requires meals != [] && TotalsOf(sums, meals[..|meals| - 1])
    ensures TotalsOf(Merge(sums, meals[|meals| - 1].Date(), meals[|meals| - 1].calories), meals)
  {
    assert meals[..|meals| - 1] + [meals[|meals| - 1]] == meals;
    MergeStep(sums, meals[..|meals| - 1], meals[|meals| - 1]);
  }
}
