/**
 * filteredBySetterRecursion: a single pass that flags each in-window meal with
 * the running total of its date, remembers the still-unflagged ones of every
 * date in a chain of MealNode objects, and when a date's running total first
 * goes over the threshold walks that chain setting `exceed` on every node.
 * Here the projections are objects whose flag is updated in place.
 */
module SetterRecursion {
  import opened MealModel
  import opened DailyTotals
  import opened MealFilterSpec

  /** A MealWithExceed whose flag has a setter. */
  class MutableMealWithExceed {
    const meal: Meal
    var exceed: bool

    /** createTo(meal, exceed). */
    constructor (meal: Meal, exceed: bool)
      ensures this.meal == meal && this.exceed == exceed
    {
      this.meal := meal;
      this.exceed := exceed;
    }

    /** The projection as it reads now. */
    function Value(): (r: MealWithExceed)
      reads this
      ensures r.ToMeal() == meal && r.exceed == exceed
    {
      CreateTo(meal, exceed)
    }

    method SetExceed(value: bool)
      modifies this
      ensures exceed == value
    {
      exceed := value;
    }
  }

  /** What a list of projections reads now. */
  function Snapshot(cells: seq<MutableMealWithExceed>): (r: seq<MealWithExceed>)
    reads cells
    ensures |r| == |cells|
    ensures forall k :: 0 <= k < |r| ==> r[k].ToMeal() == cells[k].meal && r[k].exceed == cells[k].exceed
  {
    seq(|cells|, k requires 0 <= k < |cells| reads cells => cells[k].Value())
  }

  /**
   * One link of a date's chain of unflagged projections; `prev` is the link
   * made before it.  `targets` (ghost) is every projection of the chain from
   * this link back, `depth` the number of links behind it.
   */
  class MealNode {
    const prev: MealNode?
    const mealTo: MutableMealWithExceed
    ghost const targets: set<MutableMealWithExceed>
    ghost const depth: nat

    ghost predicate Valid()
      decreases depth
    {
      && mealTo in targets
      && (prev == null ==> targets == {mealTo} && depth == 0)
      && (prev != null ==> prev.depth < depth && prev.Valid() && targets == prev.targets + {mealTo})
    }

    constructor (mealTo: MutableMealWithExceed, prev: MealNode?)
      requires prev != null ==> prev.Valid()
      ensures Valid() && this.mealTo == mealTo && this.prev == prev
      ensures targets == (if prev == null then {} else prev.targets) + {mealTo}
    {
      this.mealTo := mealTo;
      this.prev := prev;
      this.targets := (if prev == null then {} else prev.targets) + {mealTo};
      this.depth := if prev == null then 0 else prev.depth + 1;
    }

    /** Sets the flag of this link's projection and, recursively, of every earlier link's. */
    method SetExceed()
      requires Valid()
      modifies targets
      ensures forall t :: t in targets ==> t.exceed
      decreases depth
    {
      mealTo.SetExceed(true);
      if prev != null {
        prev.SetExceed();
      }
    }
  }

  /** The meals the projections were made from (a projection's meal never changes). */
  function CellMeals(cells: seq<MutableMealWithExceed>): (r: seq<Meal>)
    ensures |r| == |cells|
    ensures forall k :: 0 <= k < |r| ==> r[k] == cells[k].meal
  {
    seq(|cells|, k requires 0 <= k < |cells| => cells[k].meal)
  }

  /** Every projection held by some chain. */
  ghost function Targets(nodes: map<int, MealNode>): set<MutableMealWithExceed>
  {
    set d, t | d in nodes && t in nodes[d].targets :: t
  }

  /** The chains kept per date: well formed, and every projection in them is of that date. */
  ghost predicate ChainsOk(nodes: map<int, MealNode>)
  {
    forall d :: d in nodes ==> nodes[d].Valid() && forall t :: t in nodes[d].targets ==> t.meal.Date() == d
  }

  /** The flags as they read now. */
  ghost function Flags(cells: seq<MutableMealWithExceed>): (r: seq<bool>)
    reads cells
    ensures |r| == |cells| && forall k :: 0 <= k < |r| ==> r[k] == cells[k].exceed
  {
    seq(|cells|, k requires 0 <= k < |cells| reads cells => cells[k].exceed)
  }

  /** The flags after every projection in `targets` has been set. */
  ghost function Raised(flags: seq<bool>, cells: seq<MutableMealWithExceed>, targets: set<MutableMealWithExceed>)
    : (r: seq<bool>)
    requires |flags| == |cells|
    ensures |r| == |flags|
    ensures forall k :: 0 <= k < |r| ==> r[k] == (flags[k] || cells[k] in targets)
  {
    seq(|flags|, k requires 0 <= k < |flags| => flags[k] || cells[k] in targets)
  }

  /** Every projection whose flag is false waits in its date's chain. */
  ghost predicate UnflaggedAreChained(cells: seq<MutableMealWithExceed>, flags: seq<bool>, nodes: map<int, MealNode>)
  {
    && |flags| == |cells|
    && forall k :: 0 <= k < |cells| && !flags[k] ==>
         cells[k].meal.Date() in nodes && cells[k] in nodes[cells[k].meal.Date()].targets
  }

  /** Every flag is the running total of its meal's date, counted over the meals seen so far. */
  ghost predicate FlagsAreRunning(ms: seq<Meal>, flags: seq<bool>, seen: seq<Meal>, caloriesPerDay: int)
  {
    && |flags| == |ms|
    && forall k :: 0 <= k < |ms| ==> flags[k] == (DailySum(seen, ms[k].Date()) > caloriesPerDay)
  }

  /** The state of the pass after the meals `seen`, with `flags` the projections' flags. */
  ghost predicate PassState(seen: seq<Meal>, caloriesSumByDate: map<int, int>, mealNodeByDate: map<int, MealNode>,
                            mealsTo: seq<MutableMealWithExceed>, flags: seq<bool>,
                            startTime: WindowBound, endTime: WindowBound, caloriesPerDay: int)
  {
    && TotalsOf(caloriesSumByDate, seen)
    && CellMeals(mealsTo) == Window(seen, startTime, endTime)
    && ChainsOk(mealNodeByDate)
    && UnflaggedAreChained(mealsTo, flags, mealNodeByDate)
    && (NonNegativeCalories(seen) ==> FlagsAreRunning(CellMeals(mealsTo), flags, seen, caloriesPerDay))
  }

  /**
   * An in-window meal: append its projection with the running flag and, when
   * that flag is false, make it the newest link of its date's chain.
   */
  method Record(meal: Meal, exceed: bool, ghost flags: seq<bool>,
                mealNodeByDate: map<int, MealNode>, mealsTo: seq<MutableMealWithExceed>)
    returns (nodes: map<int, MealNode>, cells: seq<MutableMealWithExceed>)
    requires ChainsOk(mealNodeByDate) && UnflaggedAreChained(mealsTo, flags, mealNodeByDate)
    ensures |cells| == |mealsTo| + 1 && cells[..|mealsTo|] == mealsTo
    ensures fresh(cells[|mealsTo|]) && cells[|mealsTo|].meal == meal
    ensures Flags(cells) == old(Flags(mealsTo)) + [exceed]
    ensures CellMeals(cells) == CellMeals(mealsTo) + [meal]
    ensures ChainsOk(nodes) && UnflaggedAreChained(cells, flags + [exceed], nodes)
    ensures exceed ==> nodes == mealNodeByDate
    ensures !exceed ==>
      var d := meal.Date();
      && d in nodes && nodes == mealNodeByDate[d := nodes[d]]
      && nodes[d].mealTo == cells[|mealsTo|]
      && nodes[d].prev == (if d in mealNodeByDate then mealNodeByDate[d] else null)
    ensures forall t :: t in Targets(nodes) ==> t in Targets(mealNodeByDate) || t == cells[|mealsTo|]
  {
    var localDate := meal.Date();
    var mealTo := new MutableMealWithExceed(meal, exceed);
    cells := mealsTo + [mealTo];
    nodes := mealNodeByDate;
    if !exceed {
      var prevNode := if localDate in mealNodeByDate then mealNodeByDate[localDate] else null;
      var node := new MealNode(mealTo, prevNode);
      nodes := mealNodeByDate[localDate := node];
    }
    ChainedAfterRecord(mealsTo, flags, mealNodeByDate, mealTo, exceed, nodes);
    AppendCell(mealsTo, mealTo);
  }

  /** Appending a projection appends its meal and its flag. */
  lemma AppendCell(mealsTo: seq<MutableMealWithExceed>, mealTo: MutableMealWithExceed)
    ensures Flags(mealsTo + [mealTo]) == Flags(mealsTo) + [mealTo.exceed]
    ensures CellMeals(mealsTo + [mealTo]) == CellMeals(mealsTo) + [mealTo.meal]
  {
  }

  /** Pushing an unflagged projection onto its date's chain keeps every unflagged projection chained. */
  lemma ChainedAfterRecord(mealsTo: seq<MutableMealWithExceed>, flags: seq<bool>, nodes0: map<int, MealNode>,
                           mealTo: MutableMealWithExceed, exceed: bool, nodes: map<int, MealNode>)
    requires ChainsOk(nodes0) && UnflaggedAreChained(mealsTo, flags, nodes0)
    requires exceed ==> nodes == nodes0
    requires !exceed ==>
      var date := mealTo.meal.Date();
      && date in nodes && nodes == nodes0[date := nodes[date]] && nodes[date].Valid()
      && nodes[date].targets == (if date in nodes0 then nodes0[date].targets else {}) + {mealTo}
    ensures ChainsOk(nodes) && UnflaggedAreChained(mealsTo + [mealTo], flags + [exceed], nodes)
    ensures forall t :: t in Targets(nodes) ==> t in Targets(nodes0) || t == mealTo
  {
    var cells := mealsTo + [mealTo];
    forall k | 0 <= k < |cells| && !(flags + [exceed])[k]
      ensures cells[k].meal.Date() in nodes && cells[k] in nodes[cells[k].meal.Date()].targets
    {
      if k < |mealsTo| {
        assert cells[k] == mealsTo[k];
      }
    }
  }

  /**
   * A date whose running total is over the threshold: take its chain out of
   * the map (remove gives null when there is none) and flag every link.
   */
  method Flush(localDate: int, mealNodeByDate: map<int, MealNode>, ghost cells: seq<MutableMealWithExceed>)
    returns (nodes: map<int, MealNode>)
    requires ChainsOk(mealNodeByDate)
    modifies if localDate in mealNodeByDate then mealNodeByDate[localDate].targets else {}
    ensures nodes == mealNodeByDate - {localDate}
    ensures Flags(cells)
         == Raised(old(Flags(cells)), cells, if localDate in mealNodeByDate then mealNodeByDate[localDate].targets else {})
  {
    nodes := mealNodeByDate - {localDate};
    if localDate in mealNodeByDate {
      var mealNode := mealNodeByDate[localDate];
      mealNode.SetExceed();
    }
  }

  /** The body of the pass, applied to one meal. */
  method Accept(meal: Meal, ghost seen: seq<Meal>, caloriesSumByDate: map<int, int>,
                mealNodeByDate: map<int, MealNode>, mealsTo: seq<MutableMealWithExceed>,
                startTime: WindowBound, endTime: WindowBound, caloriesPerDay: int)
    returns (sums: map<int, int>, nodes: map<int, MealNode>, cells: seq<MutableMealWithExceed>)
    requires PassState(seen, caloriesSumByDate, mealNodeByDate, mealsTo, Flags(mealsTo), startTime, endTime, caloriesPerDay)
    modifies Targets(mealNodeByDate)
    ensures PassState(seen + [meal], sums, nodes, cells, Flags(cells), startTime, endTime, caloriesPerDay)
    ensures forall t :: t in Targets(nodes) ==> t in Targets(mealNodeByDate) || fresh(t)
  {
    ghost var flags0 := Flags(mealsTo);
    var localDate := meal.Date();
    sums := Merge(caloriesSumByDate, localDate, meal.calories);
    var exceed := sums[localDate] > caloriesPerDay;
    nodes, cells := mealNodeByDate, mealsTo;
    ghost var flags1 := flags0;
    if IsBetweenHalfOpen(meal.Time(), startTime, endTime) {
      nodes, cells := Record(meal, exceed, flags0, mealNodeByDate, mealsTo);
      flags1 := flags0 + [exceed];
    }
    ghost var nodes1 := nodes;
    ghost var flushed := if exceed && localDate in nodes then nodes[localDate].targets else {};
    if exceed {
      nodes := Flush(localDate, nodes, cells);
    } else {
      assert Raised(flags1, cells, flushed) == flags1;
    }
    PassStep(seen, meal, caloriesSumByDate, sums, mealNodeByDate, nodes1, nodes, mealsTo, cells, flags0, flags1, flushed,
             startTime, endTime, caloriesPerDay);
  }

  /** One meal takes the state of the pass after `seen` to the state after `seen + [meal]`. */
  lemma PassStep(seen: seq<Meal>, meal: Meal, sums0: map<int, int>, sums: map<int, int>,
                 nodes0: map<int, MealNode>, nodes1: map<int, MealNode>, nodes: map<int, MealNode>,
                 mealsTo: seq<MutableMealWithExceed>, cells: seq<MutableMealWithExceed>,
                 flags0: seq<bool>, flags1: seq<bool>, flushed: set<MutableMealWithExceed>,
                 startTime: WindowBound, endTime: WindowBound, caloriesPerDay: int)
    requires PassState(seen, sums0, nodes0, mealsTo, flags0, startTime, endTime, caloriesPerDay)
    requires sums == Merge(sums0, meal.Date(), meal.calories)
    requires !IsBetweenHalfOpen(meal.Time(), startTime, endTime) ==> cells == mealsTo && nodes1 == nodes0 && flags1 == flags0
    requires IsBetweenHalfOpen(meal.Time(), startTime, endTime) ==>
      && |cells| == |mealsTo| + 1 && cells[..|mealsTo|] == mealsTo && cells[|mealsTo|].meal == meal
      && flags1 == flags0 + [sums[meal.Date()] > caloriesPerDay] && CellMeals(cells) == CellMeals(mealsTo) + [meal]
      && ChainsOk(nodes1) && UnflaggedAreChained(cells, flags1, nodes1)
    requires flushed == if sums[meal.Date()] > caloriesPerDay && meal.Date() in nodes1 then nodes1[meal.Date()].targets else {}
    requires nodes == if sums[meal.Date()] > caloriesPerDay then nodes1 - {meal.Date()} else nodes1
    ensures PassState(seen + [meal], sums, nodes, cells, Raised(flags1, cells, flushed), startTime, endTime, caloriesPerDay)
  {
    MergeStep(sums0, seen, meal);
    WindowSnoc(seen, meal, startTime, endTime);
    ChainedAfterFlush(cells, flags1, nodes1, nodes, meal.Date(), flushed);
    if NonNegativeCalories(seen + [meal]) {
      assert NonNegativeCalories(seen) by {
        forall m | m in seen ensures m.calories >= 0 {
          assert m in seen + [meal];
        }
      }
      RunningFlags(seen, meal, sums, nodes1, |mealsTo|, CellMeals(cells), cells, flags1, flushed, caloriesPerDay);
    }
  }

  /** Flagging a date's chain and dropping it leaves every unflagged projection chained. */
  lemma ChainedAfterFlush(cells: seq<MutableMealWithExceed>, flags: seq<bool>, nodes1: map<int, MealNode>,
                          nodes: map<int, MealNode>, localDate: int, flushed: set<MutableMealWithExceed>)
    requires ChainsOk(nodes1) && UnflaggedAreChained(cells, flags, nodes1)
    requires flushed == {} || (localDate in nodes1 && flushed == nodes1[localDate].targets)
    requires nodes == nodes1 || (nodes == nodes1 - {localDate} && flushed == if localDate in nodes1 then nodes1[localDate].targets else {})
    ensures ChainsOk(nodes) && UnflaggedAreChained(cells, Raised(flags, cells, flushed), nodes)
  {
  }

  /**
   * The running flags stay exact: a date whose total has just gone over the
   * threshold has every unflagged projection in the flushed chain, and with
   * non-negative calories a date not over it had no flagged projection.
   */
  lemma RunningFlags(seen: seq<Meal>, meal: Meal, sums: map<int, int>, nodes1: map<int, MealNode>, n: nat,
                     ms: seq<Meal>, cells: seq<MutableMealWithExceed>, flags: seq<bool>,
                     flushed: set<MutableMealWithExceed>, caloriesPerDay: int)
    requires NonNegativeCalories(seen + [meal]) && TotalsOf(sums, seen + [meal]) && meal.Date() in sums
    requires ChainsOk(nodes1) && UnflaggedAreChained(cells, flags, nodes1)
    requires |ms| == |cells| && (|cells| == n || |cells| == n + 1)
    requires forall k :: 0 <= k < |cells| ==> ms[k] == cells[k].meal
    requires forall k :: 0 <= k < n ==> flags[k] == (DailySum(seen, ms[k].Date()) > caloriesPerDay)
    requires |cells| == n + 1 ==> ms[n] == meal && flags[n] == (sums[meal.Date()] > caloriesPerDay)
    requires flushed == if sums[meal.Date()] > caloriesPerDay && meal.Date() in nodes1 then nodes1[meal.Date()].targets else {}
    ensures FlagsAreRunning(ms, Raised(flags, cells, flushed), seen + [meal], caloriesPerDay)
  {
    var raised := Raised(flags, cells, flushed);
    forall k | 0 <= k < |ms|
      ensures raised[k] == (DailySum(seen + [meal], ms[k].Date()) > caloriesPerDay)
    {
      RunningFlagAt(seen, meal, sums, nodes1, n, ms, cells, flags, flushed, caloriesPerDay, k);
    }
  }

  /** RunningFlags for the k-th projection. */
  lemma RunningFlagAt(seen: seq<Meal>, meal: Meal, sums: map<int, int>, nodes1: map<int, MealNode>, n: nat,
                      ms: seq<Meal>, cells: seq<MutableMealWithExceed>, flags: seq<bool>,
                      flushed: set<MutableMealWithExceed>, caloriesPerDay: int, k: nat)
    requires NonNegativeCalories(seen + [meal]) && TotalsOf(sums, seen + [meal]) && meal.Date() in sums
    requires ChainsOk(nodes1) && UnflaggedAreChained(cells, flags, nodes1)
    requires |ms| == |cells| && (|cells| == n || |cells| == n + 1) && k < |cells|
    requires ms[k] == cells[k].meal
    requires k < n ==> flags[k] == (DailySum(seen, ms[k].Date()) > caloriesPerDay)
    requires k == n ==> ms[n] == meal && flags[n] == (sums[meal.Date()] > caloriesPerDay)
    requires flushed == if sums[meal.Date()] > caloriesPerDay && meal.Date() in nodes1 then nodes1[meal.Date()].targets else {}
    ensures (flags[k] || cells[k] in flushed) == (DailySum(seen + [meal], ms[k].Date()) > caloriesPerDay)
  {
    var d := meal.Date();
    DailySumSnoc(seen, meal, ms[k].Date());
    if k == n {
      assert sums[d] == DailySum(seen + [meal], d);
    } else if ms[k].Date() != d {
      assert cells[k] !in flushed;
    } else {
      assert NonNegativeCalories([meal]) by { assert meal in seen + [meal]; }
      DailySumMonotone(seen, [meal], d);
      assert sums[d] == DailySum(seen + [meal], d);
      if sums[d] > caloriesPerDay && !flags[k] {
        assert cells[k] in nodes1[d].targets;
      }
    }
  }

  /**
   * The result always lists exactly the in-window meals in input order; its
   * flags are the whole-day flags when no meal has negative calories.
   */
  method FilteredBySetterRecursion(meals: seq<Meal>, startTime: WindowBound, endTime: WindowBound, caloriesPerDay: int)
    returns (r: seq<MealWithExceed>)
    ensures ToMeals(r) == Window(meals, startTime, endTime)
    ensures NonNegativeCalories(meals) ==> r == Filtered(meals, startTime, endTime, caloriesPerDay)
  {
    var caloriesSumByDate, mealNodeByDate, mealsTo := Pass(meals, startTime, endTime, caloriesPerDay);
    r := Snapshot(mealsTo);
    SnapshotAfterPass(meals, caloriesSumByDate, mealNodeByDate, mealsTo, startTime, endTime, caloriesPerDay);
  }

  /** meals.forEach(...): the single pass, from empty maps and an empty result list. */
  method Pass(meals: seq<Meal>, startTime: WindowBound, endTime: WindowBound, caloriesPerDay: int)
    returns (caloriesSumByDate: map<int, int>, mealNodeByDate: map<int, MealNode>, mealsTo: seq<MutableMealWithExceed>)
    ensures PassState(meals, caloriesSumByDate, mealNodeByDate, mealsTo, Flags(mealsTo), startTime, endTime, caloriesPerDay)
  {
    caloriesSumByDate, mealNodeByDate, mealsTo := map[], map[], [];
    assert meals[..0] == [];
    NoDates();
    for i := 0 to |meals|
      invariant PassState(meals[..i], caloriesSumByDate, mealNodeByDate, mealsTo, Flags(mealsTo),
                          startTime, endTime, caloriesPerDay)
      invariant forall t :: t in Targets(mealNodeByDate) ==> fresh(t)
    {
      caloriesSumByDate, mealNodeByDate, mealsTo :=
        Accept(meals[i], meals[..i], caloriesSumByDate, mealNodeByDate, mealsTo, startTime, endTime, caloriesPerDay);
      TakeSnoc(meals, i);
    }
    assert meals[..|meals|] == meals;
  }

  /** What the projections read once every meal has passed. */
  lemma SnapshotAfterPass(meals: seq<Meal>, sums: map<int, int>, nodes: map<int, MealNode>,
                          cells: seq<MutableMealWithExceed>, startTime: WindowBound, endTime: WindowBound, caloriesPerDay: int)
    requires PassState(meals, sums, nodes, cells, Flags(cells), startTime, endTime, caloriesPerDay)
    ensures ToMeals(Snapshot(cells)) == Window(meals, startTime, endTime)
    ensures NonNegativeCalories(meals) ==> Snapshot(cells) == Filtered(meals, startTime, endTime, caloriesPerDay)
  {
    var r := Snapshot(cells);
    assert ToMeals(r) == CellMeals(cells);
    if NonNegativeCalories(meals) {
      assert FlagsAreRunning(CellMeals(cells), Flags(cells), meals, caloriesPerDay);
      forall k | 0 <= k < |r| ensures r[k].exceed == (DailySum(meals, r[k].Date()) > caloriesPerDay) {
        assert r[k].Date() == r[k].ToMeal().Date();
      }
      FilteredUnique(r, meals, startTime, endTime, caloriesPerDay);
    }
  }
}
