/**
 * The two variants that group the meals by date first: filteredByFlatMap
 * (groupingBy to lists, then one flagged block per date) and
 * filteredByCollector (groupingBy with a custom Aggregate collector).  The
 * blocks come out in the iteration order of the HashMap of dates, which Java
 * leaves unspecified; it is the parameter `order` here.  Both are proved to
 * agree with MealFilterSpec.Filtered date by date, and so to be a permutation
 * of it.
 */
module GroupedVariants {
  import opened MealModel
  import opened DailyTotals
  import opened MealFilterSpec

  // ---------------------------------------------------------------------------
  // groupingBy(Meal::getDate): each date's meals, in encounter order.

  /** The map holds exactly the dates of the meals, each with its meals in input order. */
  ghost predicate GroupsOf(groups: map<int, seq<Meal>>, meals: seq<Meal>)
  {
    && groups.Keys == Dates(meals)
    && forall d :: d in groups ==> groups[d] == DayMeals(meals, d)
  }

  /** groupingBy over a sequential stream: each meal is appended to its date's list, created when absent. */
  function GroupByDate(meals: seq<Meal>): (groups: map<int, seq<Meal>>)
    ensures GroupsOf(groups, meals)
  {
    if meals == [] then
      assert Dates(meals) == {};
      map[]
    else
      var front, last := meals[..|meals| - 1], meals[|meals| - 1];
      var groups := GroupByDate(front);
      GroupLast(groups, meals);
      groups[last.Date() := (if last.Date() in groups then groups[last.Date()] else []) + [last]]
  }

  lemma GroupLast(groups: map<int, seq<Meal>>, meals: seq<Meal>)
    requires meals != [] && GroupsOf(groups, meals[..|meals| - 1])
    ensures var last := meals[|meals| - 1];
            GroupsOf(groups[last.Date() := (if last.Date() in groups then groups[last.Date()] else []) + [last]], meals)
  {
    var front, last := meals[..|meals| - 1], meals[|meals| - 1];
    var next := groups[last.Date() := (if last.Date() in groups then groups[last.Date()] else []) + [last]];
    assert front + [last] == meals;
    DatesSnoc(front, last);
    forall d | d in next ensures next[d] == DayMeals(meals, d) {
      GroupLastAt(groups, meals, d);
    }
  }

  /** GroupLast for one date of the extended grouping. */
  lemma GroupLastAt(groups: map<int, seq<Meal>>, meals: seq<Meal>, d: int)
    requires meals != [] && GroupsOf(groups, meals[..|meals| - 1])
    requires d in groups || d == meals[|meals| - 1].Date()
    ensures var last := meals[|meals| - 1];
            (groups[last.Date() := (if last.Date() in groups then groups[last.Date()] else []) + [last]])[d]
            == DayMeals(meals, d)
  {
    var front, last := meals[..|meals| - 1], meals[|meals| - 1];
    assert front + [last] == meals;
    DayMealsSnoc(front, last, d);
    if d == last.Date() && d !in groups {
      DayMealsAbsent(front, d);
    }
  }

  // ---------------------------------------------------------------------------
  // One flagged block per date, in the HashMap's order.

  /** No date is listed twice. */
  predicate Distinct(order: seq<int>)
  {
    forall i, j :: 0 <= i < j < |order| ==> order[i] != order[j]
  }

  /** Dropping the last date of a distinct listing leaves a distinct listing without that date. */
  lemma DistinctFront(order: seq<int>)
    requires order != [] && Distinct(order)
    ensures Distinct(order[..|order| - 1]) && order[|order| - 1] !in order[..|order| - 1]
    ensures forall x :: x in order <==> x in order[..|order| - 1] || x == order[|order| - 1]
  {
    var front, last := order[..|order| - 1], order[|order| - 1];
    assert order == front + [last];
    forall i | 0 <= i < |front| ensures front[i] != last {
      assert order[i] != order[|order| - 1];
    }
  }

  /** `order` lists every date of the meals exactly once: a possible iteration order of the map's keys. */
  predicate IsDateOrder(order: seq<int>, meals: seq<Meal>)
  {
    && Distinct(order)
    && (forall i :: 0 <= i < |order| ==> order[i] in Dates(meals))
    && (forall m :: m in meals ==> m.Date() in order)
  }

  /** The flatMap step for one date: its in-window meals, all flagged with the date's total. */
  function DayBlock(dayMeals: seq<Meal>, startTime: WindowBound, endTime: WindowBound, caloriesPerDay: int)
    : seq<MealWithExceed>
  {
    Flagged(Window(dayMeals, startTime, endTime), Total(dayMeals) > caloriesPerDay)
  }

  /** The blocks of the listed dates, concatenated in that order. */
  function Blocks(groups: map<int, seq<Meal>>, order: seq<int>, startTime: WindowBound, endTime: WindowBound,
                  caloriesPerDay: int): seq<MealWithExceed>
    requires forall i :: 0 <= i < |order| ==> order[i] in groups
  {
    if order == [] then []
    else Blocks(groups, order[..|order| - 1], startTime, endTime, caloriesPerDay)
         + DayBlock(groups[order[|order| - 1]], startTime, endTime, caloriesPerDay)
  }

  /**
   * filteredByFlatMap.  Date by date it is the reference result, and so it is
   * a permutation of it that keeps input order within each date.
   */
  function FilteredByFlatMap(meals: seq<Meal>, startTime: WindowBound, endTime: WindowBound, caloriesPerDay: int,
                             order: seq<int>): (r: seq<MealWithExceed>)
    requires IsDateOrder(order, meals)
    ensures forall d :: OfDate(r, d) == OfDate(Filtered(meals, startTime, endTime, caloriesPerDay), d)
    ensures multiset(r) == multiset(Filtered(meals, startTime, endTime, caloriesPerDay))
    ensures |r| <= |meals|
  {
    var groups := GroupByDate(meals);
    var r := Blocks(groups, order, startTime, endTime, caloriesPerDay);
    FlatMapPerDate(meals, groups, order, startTime, endTime, caloriesPerDay);
    PerDateEqualIsPermutation(r, Filtered(meals, startTime, endTime, caloriesPerDay));
    assert |r| == |multiset(r)|;
    r
  }

  lemma FlatMapPerDate(meals: seq<Meal>, groups: map<int, seq<Meal>>, order: seq<int>,
                       startTime: WindowBound, endTime: WindowBound, caloriesPerDay: int)
    requires IsDateOrder(order, meals) && GroupsOf(groups, meals)
    ensures forall i :: 0 <= i < |order| ==> order[i] in groups
    ensures forall d :: OfDate(Blocks(groups, order, startTime, endTime, caloriesPerDay), d)
                     == OfDate(Filtered(meals, startTime, endTime, caloriesPerDay), d)
  {
    OrderInGroups(meals, groups, order);
    forall d ensures OfDate(Blocks(groups, order, startTime, endTime, caloriesPerDay), d)
                  == OfDate(Filtered(meals, startTime, endTime, caloriesPerDay), d)
    {
      BlocksOfDate(meals, groups, order, startTime, endTime, caloriesPerDay, d);
      FilteredOfDate(meals, startTime, endTime, caloriesPerDay, d);
      if d !in order {
        DayMealsAbsent(meals, d);
      }
    }
  }

  /** Every listed date has a group. */
  lemma OrderInGroups(meals: seq<Meal>, groups: map<int, seq<Meal>>, order: seq<int>)
    requires IsDateOrder(order, meals) && GroupsOf(groups, meals)
    ensures forall i :: 0 <= i < |order| ==> order[i] in groups
  {
    forall i | 0 <= i < |order| ensures order[i] in groups {
      assert order[i] in order;
    }
  }

  /** Only the block of the date itself contributes to a date's view, and it does so whole. */
  lemma {:induction false} BlocksOfDate(meals: seq<Meal>, groups: map<int, seq<Meal>>, order: seq<int>,
                                        startTime: WindowBound, endTime: WindowBound, caloriesPerDay: int, date: int)
    requires GroupsOf(groups, meals)
    requires forall i :: 0 <= i < |order| ==> order[i] in groups
    requires Distinct(order)
    ensures OfDate(Blocks(groups, order, startTime, endTime, caloriesPerDay), date)
         == if date in order then DayBlock(DayMeals(meals, date), startTime, endTime, caloriesPerDay) else []
  {
    if order != [] {
      var front, last := order[..|order| - 1], order[|order| - 1];
      DistinctFront(order);
      BlocksOfDate(meals, groups, front, startTime, endTime, caloriesPerDay, date);
      LastBlockOfDate(meals, groups, last, startTime, endTime, caloriesPerDay, date);
      OfDateConcat(Blocks(groups, front, startTime, endTime, caloriesPerDay),
                   DayBlock(groups[last], startTime, endTime, caloriesPerDay), date);
    }
  }

  /** The view of a date on the block of a listed date. */
  lemma LastBlockOfDate(meals: seq<Meal>, groups: map<int, seq<Meal>>, last: int,
                        startTime: WindowBound, endTime: WindowBound, caloriesPerDay: int, date: int)
    requires GroupsOf(groups, meals) && last in groups
    ensures OfDate(DayBlock(groups[last], startTime, endTime, caloriesPerDay), date)
         == if last == date then DayBlock(DayMeals(meals, last), startTime, endTime, caloriesPerDay) else []
  {
    OfDateBlock(meals, last, startTime, endTime, caloriesPerDay, date);
  }

  /** A date's view of one date's block: the whole block for that date, nothing for another. */
  lemma OfDateBlock(meals: seq<Meal>, blockDate: int, startTime: WindowBound, endTime: WindowBound,
                    caloriesPerDay: int, date: int)
    ensures OfDate(DayBlock(DayMeals(meals, blockDate), startTime, endTime, caloriesPerDay), date)
         == if blockDate == date then DayBlock(DayMeals(meals, blockDate), startTime, endTime, caloriesPerDay) else []
  {
    var dayMeals := DayMeals(meals, blockDate);
    DayMealsMembers(meals, blockDate);
    WindowMembers(dayMeals, startTime, endTime);
    OfDateFlagged(Window(dayMeals, startTime, endTime), Total(dayMeals) > caloriesPerDay, blockDate, date);
  }

  lemma {:induction false} OfDateFlagged(ms: seq<Meal>, exceed: bool, blockDate: int, date: int)
    requires forall m :: m in ms ==> m.Date() == blockDate
    ensures OfDate(Flagged(ms, exceed), date) == if blockDate == date then Flagged(ms, exceed) else []
  {
    if ms != [] {
      var flagged := Flagged(ms, exceed);
      assert ms[0] in ms;
      assert forall m :: m in ms[1..] ==> m in ms;
      OfDateFlagged(ms[1..], exceed, blockDate, date);
      assert flagged[1..] == Flagged(ms[1..], exceed);
      assert flagged[0].Date() == blockDate;
      assert OfDate(flagged, date) == (if flagged[0].Date() == date then [flagged[0]] else []) + OfDate(flagged[1..], date);
      if blockDate == date {
        assert flagged == [flagged[0]] + flagged[1..];
      }
    }
  }

  // ---------------------------------------------------------------------------
  // filteredByCollector: groupingBy with Collector.of(Aggregate::new,
  // Aggregate::accumulate, Aggregate::combine, Aggregate::finisher).

  /** The values of an aggregate's two mutable fields. */
  datatype AggregateState = AggregateState(dailyMeals: seq<Meal>, dailySumOfCalories: int)

  /** A fresh aggregate: no meal kept, a zero sum. */
  const Empty := AggregateState([], 0)

  /** The state of an aggregate that has accumulated exactly the meals `ms`: their in-window meals and their total. */
  function StateOf(ms: seq<Meal>, startTime: WindowBound, endTime: WindowBound): AggregateState
  {
    AggregateState(Window(ms, startTime, endTime), Total(ms))
  }

  /** accumulate: every meal's calories are counted, only the in-window meals are kept. */
  function Accumulated(state: AggregateState, meal: Meal, startTime: WindowBound, endTime: WindowBound): AggregateState
  {
    AggregateState(state.dailyMeals + (if IsBetweenHalfOpen(meal.Time(), startTime, endTime) then [meal] else []),
                   state.dailySumOfCalories + meal.calories)
  }

  /** combine: the sums are added and the kept meals of the second part appended. */
  function Combined(first: AggregateState, second: AggregateState): AggregateState
  {
    AggregateState(first.dailyMeals + second.dailyMeals, first.dailySumOfCalories + second.dailySumOfCalories)
  }

  /** Accumulating one more meal into the state of `ms` gives the state of `ms + [meal]`. */
  lemma AccumulatedSnoc(ms: seq<Meal>, meal: Meal, startTime: WindowBound, endTime: WindowBound)
    ensures Accumulated(StateOf(ms, startTime, endTime), meal, startTime, endTime) == StateOf(ms + [meal], startTime, endTime)
  {
    WindowSnoc(ms, meal, startTime, endTime);
    TotalConcat(ms, [meal]);
    assert [meal][1..] == [];
  }

  /** Combining the states of two consecutive parts of a stream gives the state of the whole. */
  lemma CombinedConcat(first: seq<Meal>, second: seq<Meal>, startTime: WindowBound, endTime: WindowBound)
    ensures Combined(StateOf(first, startTime, endTime), StateOf(second, startTime, endTime))
         == StateOf(first + second, startTime, endTime)
  {
    WindowConcat(first, second, startTime, endTime);
    TotalConcat(first, second);
  }

  /** The per-date accumulator; the window bounds are the ones the local class captures. */
  class Aggregate {
    const startTime: WindowBound
    const endTime: WindowBound
    /** The date whose group this aggregate was created for. */
    ghost const date: int
    var dailyMeals: seq<Meal>
    var dailySumOfCalories: int

    constructor (startTime: WindowBound, endTime: WindowBound, ghost date: int)
      ensures this.startTime == startTime && this.endTime == endTime && this.date == date
      ensures State() == Empty
    {
      this.startTime := startTime;
      this.endTime := endTime;
      this.date := date;
      dailyMeals := [];
      dailySumOfCalories := 0;
    }

    function State(): AggregateState
      reads this
    {
      AggregateState(dailyMeals, dailySumOfCalories)
    }

    method Accumulate(meal: Meal)
      modifies this
      ensures State() == Accumulated(old(State()), meal, startTime, endTime)
    {
      dailySumOfCalories := dailySumOfCalories + meal.calories;
      if IsBetweenHalfOpen(meal.Time(), startTime, endTime) {
        dailyMeals := dailyMeals + [meal];
      }
    }

    /** Merges the aggregate of a later part of the stream into this one (never invoked on a sequential stream). */
    method Combine(that: Aggregate) returns (r: Aggregate)
      modifies this
      ensures r == this
      ensures State() == Combined(old(State()), old(that.State()))
    {
      dailySumOfCalories := dailySumOfCalories + that.dailySumOfCalories;
      dailyMeals := dailyMeals + that.dailyMeals;
      r := this;
    }

    /** The stream of projections, all with the day's flag. */
    function Finisher(caloriesPerDay: int): (r: seq<MealWithExceed>)
      reads this
      ensures ToMeals(r) == dailyMeals
      ensures forall k :: 0 <= k < |r| ==> r[k].exceed == (dailySumOfCalories > caloriesPerDay)
    {
      Flagged(dailyMeals, dailySumOfCalories > caloriesPerDay)
    }
  }

  /** An aggregate of a date's meals finishes into that date's flatMap block. */
  lemma FinisherIsDayBlock(a: Aggregate, dayMeals: seq<Meal>, caloriesPerDay: int)
    requires a.State() == StateOf(dayMeals, a.startTime, a.endTime)
    ensures a.Finisher(caloriesPerDay) == DayBlock(dayMeals, a.startTime, a.endTime, caloriesPerDay)
  {
  }

  /** Every aggregate in the map was made for its key, over the window (const fields only). */
  ghost predicate Keyed(aggregates: map<int, Aggregate>, startTime: WindowBound, endTime: WindowBound)
  {
    forall d :: d in aggregates ==>
      aggregates[d].startTime == startTime && aggregates[d].endTime == endTime && aggregates[d].date == d
  }

  /** The state of every aggregate in the map. */
  ghost function States(aggregates: map<int, Aggregate>): (states: map<int, AggregateState>)
    reads aggregates.Values
    ensures states.Keys == aggregates.Keys
  {
    map d | d in aggregates :: aggregates[d].State()
  }

  /** The states after collecting `seen`: one per seen date, that of the date's meals. */
  ghost predicate StatesOf(states: map<int, AggregateState>, seen: seq<Meal>, startTime: WindowBound, endTime: WindowBound)
  {
    && states.Keys == Dates(seen)
    && forall d :: d in states ==> states[d] == StateOf(DayMeals(seen, d), startTime, endTime)
  }

  /** One accumulation step of groupingBy: the meal's date's aggregate, created when absent, accumulates it. */
  function CollectStep(states: map<int, AggregateState>, meal: Meal, startTime: WindowBound, endTime: WindowBound)
    : map<int, AggregateState>
  {
    var date := meal.Date();
    states[date := Accumulated(if date in states then states[date] else Empty, meal, startTime, endTime)]
  }

  /** Collecting one more meal turns the states of `seen` into the states of `seen + [meal]`. */
  lemma CollectStepOf(states: map<int, AggregateState>, seen: seq<Meal>, meal: Meal,
                      startTime: WindowBound, endTime: WindowBound)
    requires StatesOf(states, seen, startTime, endTime)
    ensures StatesOf(CollectStep(states, meal, startTime, endTime), seen + [meal], startTime, endTime)
  {
    var next := CollectStep(states, meal, startTime, endTime);
    DatesSnoc(seen, meal);
    forall d | d in next ensures next[d] == StateOf(DayMeals(seen + [meal], d), startTime, endTime) {
      CollectStepAt(states, seen, meal, d, startTime, endTime);
    }
  }

  lemma CollectStepAt(states: map<int, AggregateState>, seen: seq<Meal>, meal: Meal, d: int,
                      startTime: WindowBound, endTime: WindowBound)
    requires StatesOf(states, seen, startTime, endTime) && d in CollectStep(states, meal, startTime, endTime)
    ensures CollectStep(states, meal, startTime, endTime)[d] == StateOf(DayMeals(seen + [meal], d), startTime, endTime)
  {
    var next := CollectStep(states, meal, startTime, endTime);
    DayMealsSnoc(seen, meal, d);
    if d == meal.Date() {
      var previous := if d in states then states[d] else Empty;
      if d !in states {
        DayMealsAbsent(seen, d);
      }
      assert previous == StateOf(DayMeals(seen, d), startTime, endTime);
      AccumulatedSnoc(DayMeals(seen, d), meal, startTime, endTime);
      assert next[d] == Accumulated(previous, meal, startTime, endTime);
    } else {
      assert d in states && next[d] == states[d];
      assert DayMeals(seen + [meal], d) == DayMeals(seen, d);
    }
  }

  /**
   * filteredByCollector: the same blocks as filteredByFlatMap, in the same
   * map order, so date by date the reference result.
   */
  method FilteredByCollector(meals: seq<Meal>, startTime: WindowBound, endTime: WindowBound, caloriesPerDay: int,
                             order: seq<int>)
    returns (r: seq<MealWithExceed>)
    requires IsDateOrder(order, meals)
    ensures r == FilteredByFlatMap(meals, startTime, endTime, caloriesPerDay, order)
  {
    var aggregates := CollectAll(meals, startTime, endTime);
    ghost var groups := GroupByDate(meals);
    OrderInGroups(meals, groups, order);
    r := Finish(aggregates, meals, groups, order, startTime, endTime, caloriesPerDay);
  }

  /** The groupingBy pass: one aggregate per date, each holding the state of that date's meals. */
  method CollectAll(meals: seq<Meal>, startTime: WindowBound, endTime: WindowBound)
    returns (aggregates: map<int, Aggregate>)
    ensures Keyed(aggregates, startTime, endTime)
    ensures StatesOf(States(aggregates), meals, startTime, endTime)
    ensures forall a :: a in aggregates.Values ==> fresh(a)
  {
    aggregates := map[];
    assert Dates(meals[..0]) == {};
    for i := 0 to |meals|
      invariant Keyed(aggregates, startTime, endTime)
      invariant StatesOf(States(aggregates), meals[..i], startTime, endTime)
      invariant forall a :: a in aggregates.Values ==> fresh(a)
    {
      ghost var states := States(aggregates);
      aggregates := Collect(aggregates, meals[i], startTime, endTime);
      CollectStepOf(states, meals[..i], meals[i], startTime, endTime);
      TakeSnoc(meals, i);
    }
    assert meals[..|meals|] == meals;
  }

  /** values().stream().flatMap(identity()): the finished streams of the dates, concatenated in map order. */
  method Finish(aggregates: map<int, Aggregate>, ghost meals: seq<Meal>, ghost groups: map<int, seq<Meal>>,
                order: seq<int>, startTime: WindowBound, endTime: WindowBound, caloriesPerDay: int)
    returns (r: seq<MealWithExceed>)
    requires Keyed(aggregates, startTime, endTime) && StatesOf(States(aggregates), meals, startTime, endTime)
    requires GroupsOf(groups, meals) && forall i :: 0 <= i < |order| ==> order[i] in groups
    ensures r == Blocks(groups, order, startTime, endTime, caloriesPerDay)
  {
    r := [];
    for j := 0 to |order|
      invariant r == Blocks(groups, order[..j], startTime, endTime, caloriesPerDay)
    {
      AggregateBlock(aggregates, meals, groups, order[j], startTime, endTime, caloriesPerDay);
      BlocksAt(groups, order, j, startTime, endTime, caloriesPerDay);
      r := r + aggregates[order[j]].Finisher(caloriesPerDay);
    }
    assert order[..|order|] == order;
  }

  /** The blocks of the first j + 1 listed dates extend those of the first j by the j-th date's block. */
  lemma BlocksAt(groups: map<int, seq<Meal>>, order: seq<int>, j: nat,
                 startTime: WindowBound, endTime: WindowBound, caloriesPerDay: int)
    requires j < |order| && forall i :: 0 <= i < |order| ==> order[i] in groups
    ensures Blocks(groups, order[..j + 1], startTime, endTime, caloriesPerDay)
         == Blocks(groups, order[..j], startTime, endTime, caloriesPerDay)
            + DayBlock(groups[order[j]], startTime, endTime, caloriesPerDay)
  {
    assert order[..j + 1][..j] == order[..j];
  }

  /** Once every meal is collected, a date's aggregate finishes into that date's flatMap block. */
  lemma AggregateBlock(aggregates: map<int, Aggregate>, meals: seq<Meal>, groups: map<int, seq<Meal>>, date: int,
                       startTime: WindowBound, endTime: WindowBound, caloriesPerDay: int)
    requires Keyed(aggregates, startTime, endTime) && StatesOf(States(aggregates), meals, startTime, endTime)
    requires GroupsOf(groups, meals) && date in groups
    ensures date in aggregates
    ensures aggregates[date].Finisher(caloriesPerDay) == DayBlock(groups[date], startTime, endTime, caloriesPerDay)
  {
    var a := aggregates[date];
    assert States(aggregates)[date] == a.State();
    FinisherIsDayBlock(a, groups[date], caloriesPerDay);
  }

  /** The accumulation step of groupingBy: find the meal's date's aggregate, creating it when absent, and accumulate. */
  method Collect(aggregates: map<int, Aggregate>, meal: Meal, startTime: WindowBound, endTime: WindowBound)
    returns (next: map<int, Aggregate>)
    requires Keyed(aggregates, startTime, endTime)
    modifies aggregates.Values
    ensures Keyed(next, startTime, endTime)
    ensures States(next) == CollectStep(old(States(aggregates)), meal, startTime, endTime)
    ensures forall a :: a in next.Values ==> a in aggregates.Values || fresh(a)
  {
    ghost var before := States(aggregates);
    var date := meal.Date();
    next := aggregates;
    if date !in next {
      var a := new Aggregate(startTime, endTime, date);
      next := next[date := a];
    }
    var aggregate := next[date];
    aggregate.Accumulate(meal);
    forall d | d in next ensures States(next)[d] == CollectStep(before, meal, startTime, endTime)[d] {
      if d != date {
        assert next[d].date != aggregate.date;
      }
    }
  }
}
