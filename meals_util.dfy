/**
 * Five sequential variants of MealsUtil's meal filter: filteredByStreams,
 * filteredByCycles, filteredByRecursion, filteredByPredicate and
 * filteredByConsumerChain.  Each takes the meals, a time-of-day window
 * [startTime, endTime) and a calories-per-day threshold, and each is proved to
 * produce MealFilterSpec.Filtered: exactly, or in reverse order (the recursive
 * variant).
 */
module MealsUtil {
  import opened MealModel
  import opened DailyTotals
  import opened MealFilterSpec

  // ---------------------------------------------------------------------------
  // filteredByStreams: a summing groupingBy, then filter and map.

  function FilteredByStreams(meals: seq<Meal>, startTime: WindowBound, endTime: WindowBound, caloriesPerDay: int)
    : (r: seq<MealWithExceed>)
    ensures r == Filtered(meals, startTime, endTime, caloriesPerDay)
  {
    var caloriesSumByDate := SumsByDate(meals);
    var inWindow := Window(meals, startTime, endTime);
    WindowTotals(caloriesSumByDate, meals, startTime, endTime);
    LookedUpIsAnnotate(inWindow, caloriesSumByDate, meals, caloriesPerDay);
    FlagByLookup(inWindow, caloriesSumByDate, caloriesPerDay)
  }

  /** Flags each meal by looking its date up in the summing map. */
  function FlagByLookup(ms: seq<Meal>, caloriesSumByDate: map<int, int>, caloriesPerDay: int): seq<MealWithExceed>
    requires forall k :: 0 <= k < |ms| ==> ms[k].Date() in caloriesSumByDate
  {
    seq(|ms|, k requires 0 <= k < |ms| => CreateTo(ms[k], caloriesSumByDate[ms[k].Date()] > caloriesPerDay))
  }

  /** With exact totals, flagging by a map lookup is flagging by the daily sum. */
  lemma LookedUpIsAnnotate(ms: seq<Meal>, caloriesSumByDate: map<int, int>, all: seq<Meal>, caloriesPerDay: int)
    requires forall k :: 0 <= k < |ms| ==>
               var m := ms[k]; m.Date() in caloriesSumByDate && caloriesSumByDate[m.Date()] == DailySum(all, m.Date())
    ensures FlagByLookup(ms, caloriesSumByDate, caloriesPerDay) == Annotate(ms, all, caloriesPerDay)
  {
  }

  /** Every in-window meal's date is in exact totals, with its daily sum. */
  lemma WindowTotals(sums: map<int, int>, meals: seq<Meal>, startTime: WindowBound, endTime: WindowBound)
    requires TotalsOf(sums, meals)
    ensures forall k :: 0 <= k < |Window(meals, startTime, endTime)| ==>
              var m := Window(meals, startTime, endTime)[k]; m.Date() in sums && sums[m.Date()] == DailySum(meals, m.Date())
  {
    var inWindow := Window(meals, startTime, endTime);
    forall k | 0 <= k < |inWindow|
      ensures inWindow[k].Date() in sums && sums[inWindow[k].Date()] == DailySum(meals, inWindow[k].Date())
    {
      WindowMember(meals, startTime, endTime, k);
      TotalsLookup(sums, meals, inWindow[k]);
    }
  }

  // ---------------------------------------------------------------------------
  // filteredByCycles: merge every meal into a HashMap, then append the
  // in-window meals to an ArrayList.

  method FilteredByCycles(meals: seq<Meal>, startTime: WindowBound, endTime: WindowBound, caloriesPerDay: int)
    returns (mealsTo: seq<MealWithExceed>)
    ensures mealsTo == Filtered(meals, startTime, endTime, caloriesPerDay)
  {
    var caloriesSumByDate := SumCaloriesByDate(meals);
    mealsTo := [];
    for i := 0 to |meals|
      invariant mealsTo == Annotate(Window(meals[..i], startTime, endTime), meals, caloriesPerDay)
    {
      var meal := meals[i];
      AnnotateWindowAt(meals, i, meals, startTime, endTime, caloriesPerDay);
      if IsBetweenHalfOpen(meal.Time(), startTime, endTime) {
        TotalsLookup(caloriesSumByDate, meals, meal);
        mealsTo := mealsTo + [CreateTo(meal, caloriesSumByDate[meal.Date()] > caloriesPerDay)];
      }
    }
    assert meals[..|meals|] == meals;
  }

  /** The first loop of filteredByCycles: merge every meal's calories into its date's entry. */
  method SumCaloriesByDate(meals: seq<Meal>) returns (caloriesSumByDate: map<int, int>)
    ensures TotalsOf(caloriesSumByDate, meals)
  {
    caloriesSumByDate := map[];
    assert meals[..0] == [];
    NoDates();
    for i := 0 to |meals|
      invariant TotalsOf(caloriesSumByDate, meals[..i])
    {
      MergeAt(caloriesSumByDate, meals, i);
      caloriesSumByDate := Merge(caloriesSumByDate, meals[i].Date(), meals[i].calories);
    }
    assert meals[..|meals|] == meals;
  }

  // ---------------------------------------------------------------------------
  // filteredByRecursion / filterWithRecursion: pop a meal, merge it into the
  // shared map, recurse, and only then emit it.  The map is complete when the
  // first emit happens, and the emits happen in reverse input order.

  method FilteredByRecursion(meals: seq<Meal>, startTime: WindowBound, endTime: WindowBound, caloriesPerDay: int)
    returns (result: seq<MealWithExceed>)
    ensures result == Reversed(Filtered(meals, startTime, endTime, caloriesPerDay))
  {
    NoDates();
    var dailyCaloriesMap;
    dailyCaloriesMap, result := FilterWithRecursion(meals, startTime, endTime, caloriesPerDay, map[], [], []);
    assert [] + meals == meals;
  }

  /**
   * `meals` is what is left of the linked list, `popped` (ghost) what earlier
   * calls have popped; the map and the result list that the source shares
   * between the calls are passed in and handed back.
   */
  method FilterWithRecursion(meals: seq<Meal>, startTime: WindowBound, endTime: WindowBound, caloriesPerDay: int,
                             dailyCaloriesMap: map<int, int>, result: seq<MealWithExceed>, ghost popped: seq<Meal>)
    returns (dailyCaloriesMapOut: map<int, int>, resultOut: seq<MealWithExceed>)
    requires TotalsOf(dailyCaloriesMap, popped)
    ensures TotalsOf(dailyCaloriesMapOut, popped + meals)
    ensures resultOut == result + Reversed(Annotate(Window(meals, startTime, endTime), popped + meals, caloriesPerDay))
    decreases |meals|
  {
    if meals == [] {
      assert popped + meals == popped;
      return dailyCaloriesMap, result;
    }
    var meal := meals[0];
    MergeStep(dailyCaloriesMap, popped, meal);
    PopHead(popped, meals);
    var merged := Merge(dailyCaloriesMap, meal.Date(), meal.calories);
    dailyCaloriesMapOut, resultOut :=
      FilterWithRecursion(meals[1..], startTime, endTime, caloriesPerDay, merged, result, popped + [meal]);
    EmitAfterRecursion(meals, popped + meals, dailyCaloriesMapOut, result, resultOut, startTime, endTime, caloriesPerDay);
    if IsBetweenHalfOpen(meal.Time(), startTime, endTime) {
      resultOut := resultOut + [CreateTo(meal, dailyCaloriesMapOut[meal.Date()] > caloriesPerDay)];
    }
  }

  /** Popping the head and appending it to what was popped before keeps the whole list. */
  lemma PopHead(popped: seq<Meal>, meals: seq<Meal>)
    requires meals != []
    ensures popped + [meals[0]] + meals[1..] == popped + meals
    ensures meals[0] in popped + meals
  {
    assert [meals[0]] + meals[1..] == meals;
  }

  /**
   * Emitting the head after the tail's emits, with the totals of every meal
   * already in the map, appends it to the tail's reversed output.
   */
  lemma EmitAfterRecursion(meals: seq<Meal>, all: seq<Meal>, sums: map<int, int>,
                           result: seq<MealWithExceed>, tailResult: seq<MealWithExceed>,
                           startTime: WindowBound, endTime: WindowBound, caloriesPerDay: int)
    requires meals != [] && meals[0] in all && TotalsOf(sums, all)
    requires tailResult == result + Reversed(Annotate(Window(meals[1..], startTime, endTime), all, caloriesPerDay))
    ensures IsBetweenHalfOpen(meals[0].Time(), startTime, endTime) ==> meals[0].Date() in sums
    ensures result + Reversed(Annotate(Window(meals, startTime, endTime), all, caloriesPerDay))
         == tailResult
            + (if IsBetweenHalfOpen(meals[0].Time(), startTime, endTime)
               then [CreateTo(meals[0], sums[meals[0].Date()] > caloriesPerDay)] else [])
  {
    var tail := Reversed(Annotate(Window(meals[1..], startTime, endTime), all, caloriesPerDay));
    var emitted := if IsBetweenHalfOpen(meals[0].Time(), startTime, endTime)
                   then [CreateTo(meals[0], DailySum(all, meals[0].Date()) > caloriesPerDay)] else [];
    ReversedAnnotateCons(meals, all, startTime, endTime, caloriesPerDay);
    if IsBetweenHalfOpen(meals[0].Time(), startTime, endTime) {
      TotalsLookup(sums, all, meals[0]);
    }
    ConcatAssoc(result, tail, emitted);
  }

  /** The reversed reference output of a list ends with its head's projection, if the head is in the window. */
  lemma ReversedAnnotateCons(meals: seq<Meal>, all: seq<Meal>, startTime: WindowBound, endTime: WindowBound, caloriesPerDay: int)
    requires meals != []
    ensures Reversed(Annotate(Window(meals, startTime, endTime), all, caloriesPerDay))
         == Reversed(Annotate(Window(meals[1..], startTime, endTime), all, caloriesPerDay))
            + (if IsBetweenHalfOpen(meals[0].Time(), startTime, endTime)
               then [CreateTo(meals[0], DailySum(all, meals[0].Date()) > caloriesPerDay)] else [])
  {
    var meal := meals[0];
    var head := if IsBetweenHalfOpen(meal.Time(), startTime, endTime) then [meal] else [];
    var rest := Window(meals[1..], startTime, endTime);
    assert Window(meals, startTime, endTime) == head + rest;
    AnnotateConcat(head, rest, all, caloriesPerDay);
    ReversedConcat(Annotate(head, all, caloriesPerDay), Annotate(rest, all, caloriesPerDay));
    if head == [] {
      assert Annotate(head, all, caloriesPerDay) == [];
    } else {
      var mealTo := CreateTo(meal, DailySum(all, meal.Date()) > caloriesPerDay);
      assert Annotate(head, all, caloriesPerDay) == [mealTo];
      assert Reversed([mealTo]) == [mealTo];
    }
  }

  // ---------------------------------------------------------------------------
  // filteredByPredicate and filteredByConsumerChain: the first loop sums and
  // composes one deferred "add" per in-window meal; the composed function runs
  // after the loop, when the sums are complete.  A deferred add is represented
  // by the meal it captured.

  method SumAndDefer(meals: seq<Meal>, startTime: WindowBound, endTime: WindowBound)
    returns (caloriesSumByDate: map<int, int>, deferred: seq<Meal>)
    ensures TotalsOf(caloriesSumByDate, meals)
    ensures deferred == Window(meals, startTime, endTime)
  {
    caloriesSumByDate, deferred := map[], [];
    assert meals[..0] == [];
    NoDates();
    for i := 0 to |meals|
      invariant TotalsOf(caloriesSumByDate, meals[..i])
      invariant deferred == Window(meals[..i], startTime, endTime)
    {
      var meal := meals[i];
      MergeAt(caloriesSumByDate, meals, i);
      WindowAt(meals, i, startTime, endTime);
      caloriesSumByDate := Merge(caloriesSumByDate, meal.Date(), meal.calories);
      if IsBetweenHalfOpen(meal.Time(), startTime, endTime) {
        deferred := deferred + [meal];
      }
    }
    assert meals[..|meals|] == meals;
  }

  /**
   * Running the j-th deferred add, once the sums are complete, appends the
   * j-th in-window meal with its whole day's flag.
   */
  lemma RunLink(sums: map<int, int>, meals: seq<Meal>, startTime: WindowBound, endTime: WindowBound, caloriesPerDay: int,
                links: seq<Meal>, j: nat)
    requires TotalsOf(sums, meals) && links == Window(meals, startTime, endTime) && j < |links|
    ensures links[j].Date() in sums
    ensures Annotate(links[..j + 1], meals, caloriesPerDay)
         == Annotate(links[..j], meals, caloriesPerDay) + [CreateTo(links[j], sums[links[j].Date()] > caloriesPerDay)]
  {
    WindowMember(meals, startTime, endTime, j);
    TotalsLookup(sums, meals, links[j]);
    AnnotateAt(links, j, meals, caloriesPerDay);
  }

  /**
   * predicate.test(true) on `b -> true` composed with `and`: the links run
   * left to right for as long as each returns true.  Every link returns the
   * result of ArrayList.add, which is always true, so the short circuit never
   * stops the chain and every link runs.
   */
  method FilteredByPredicate(meals: seq<Meal>, startTime: WindowBound, endTime: WindowBound, caloriesPerDay: int)
    returns (mealsTo: seq<MealWithExceed>)
    ensures mealsTo == Filtered(meals, startTime, endTime, caloriesPerDay)
  {
    var caloriesSumByDate, links := SumAndDefer(meals, startTime, endTime);
    mealsTo := [];
    for j := 0 to |links|
      invariant mealsTo == Annotate(links[..j], meals, caloriesPerDay)
    {
      var meal := links[j];
      RunLink(caloriesSumByDate, meals, startTime, endTime, caloriesPerDay, links, j);
      mealsTo := mealsTo + [CreateTo(meal, caloriesSumByDate[meal.Date()] > caloriesPerDay)];
    }
    assert links[..|links|] == links;
  }

  /** consumer.accept(null) on a no-op composed with `andThen`: every link runs, in order. */
  method FilteredByConsumerChain(meals: seq<Meal>, startTime: WindowBound, endTime: WindowBound, caloriesPerDay: int)
    returns (result: seq<MealWithExceed>)
    ensures result == Filtered(meals, startTime, endTime, caloriesPerDay)
  {
    var caloriesPerDays, links := SumAndDefer(meals, startTime, endTime);
    result := [];
    for j := 0 to |links|
      invariant result == Annotate(links[..j], meals, caloriesPerDay)
    {
      var meal := links[j];
      RunLink(caloriesPerDays, meals, startTime, endTime, caloriesPerDay, links, j);
      result := result + [CreateTo(meal, caloriesPerDays[meal.Date()] > caloriesPerDay)];
    }
    assert links[..|links|] == links;
  }
}
