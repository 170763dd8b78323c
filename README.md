# Meal filter of MealsUtil, modelled in Dafny

`MealsUtil` takes a list of meals (id, date-time, description, calories), a
time-of-day window `[startTime, endTime)` and a calories-per-day threshold. It
returns the in-window meals, each projected to a `MealWithExceed` whose
`exceed` flag says whether the calories of all meals on that calendar date are
strictly greater than the threshold. The class implements this one rule many
times. This project models every sequential implementation and proves each
against one pure reference definition.

Abstractions:
- `LocalDate` is an integer day number.
- A meal's `LocalTime` is the number of minutes since midnight (`TimeOfDay`, 0..1439).
- A window bound is a `WindowBound`, 0..1440. The extra value 1440 stands for an end after the day's last minute, such as `LocalTime.MAX`, so a window can return a meal at 23:59.
- `Meal` and `MealWithExceed` are datatypes; the nullable `Integer` id is an `Option<int>`.
- `TimeUtil.isBetweenHalfOpen(t, start, end)` is `start <= t < end`.
  TimeUtil is not part of this model; this reading is what every call site relies on.

Modules:
- `MealModel` (model.dfy): the value types, the window test and `createTo`.
- `DailyTotals` (daily_totals.dfy): per-date groups and sums, and `Map.merge(date, calories, Integer::sum)` on a `map<int, int>`.
- `MealFilterSpec` (spec.dfy): the reference result `Filtered`, which is the window filter in input order with whole-day flags, plus per-date views and reversal.
- `MealsUtil` (meals_util.dfy): `filteredByStreams`, `filteredByCycles`, `filteredByRecursion`, `filteredByPredicate` and `filteredByConsumerChain`. Each is proved equal to `Filtered`; the recursive variant is proved equal to its reversal.
- `SetterRecursion` (setter_recursion.dfy): `filteredBySetterRecursion` over heap objects. The projections are objects with a flag setter, and `MealNode` objects form per-date chains that are back-patched.
- `GroupedVariants` (grouped.dfy): `filteredByFlatMap` and `filteredByCollector` with its `Aggregate` class. Both are proved equal to `Filtered` date by date, and so to be a permutation of it.
- `ExampleScenario` (example.dfy): the seven meals of the entry point, with the resulting sums and output.

Because `FilteredByStreams` and `FilteredByCycles` both ensure equality with
`Filtered`, the two return equal lists on every input. The same holds for the
predicate and consumer-chain variants.

## Model

| member | source | states |
|---|---|---|
| MealModel.CreateTo | src/main/java/ru/javawebinar/topjava/util/MealsUtil.java:351-353 | copies id, date-time, description and calories unchanged and sets the given flag; the projection has the meal's date |
| MealModel.CreateToInjective | src/main/java/ru/javawebinar/topjava/util/MealsUtil.java:351-353 | a projection is determined by the meal it was made from and its flag, so no information is lost |
| DailyTotals.DayMealsMembers | src/main/java/ru/javawebinar/topjava/util/MealsUtil.java:69 | a date's group holds exactly the meals recorded on that date (both directions) |
| DailyTotals.DailySumConcat | src/main/java/ru/javawebinar/topjava/util/MealsUtil.java:69 | the daily sum of two concatenated lists is the sum of their daily sums |
| DailyTotals.DailySumSnoc | src/main/java/ru/javawebinar/topjava/util/MealsUtil.java:82 | one more meal adds its calories to its own date's sum and to no other |
| DailyTotals.DayMealsAbsent | src/main/java/ru/javawebinar/topjava/util/MealsUtil.java:306-307 | a date with no meal has an empty group |
| DailyTotals.DailySumAbsent | src/main/java/ru/javawebinar/topjava/util/MealsUtil.java:82 | a date with no meal sums to zero, the value Map.merge starts a new entry from |
| DailyTotals.DailySumMonotone | src/main/java/ru/javawebinar/topjava/util/MealsUtil.java:134 | with non-negative calories a date's running sum never decreases as meals are added |
| DailyTotals.Merge | src/main/java/ru/javawebinar/topjava/util/MealsUtil.java:82 | merge(date, calories, Integer::sum): the key set gains the date, the date's entry is the old entry (or nothing) plus the calories, every other entry is unchanged |
| DailyTotals.MergeStep | src/main/java/ru/javawebinar/topjava/util/MealsUtil.java:82 | merging one more meal keeps a map of exact daily totals exact for the longer list |
| DailyTotals.MergeAt | src/main/java/ru/javawebinar/topjava/util/MealsUtil.java:82 | merging the i-th meal into the totals of the first i meals gives the totals of the first i + 1 |
| DailyTotals.TotalsLookup | src/main/java/ru/javawebinar/topjava/util/MealsUtil.java:87 | in exact totals, looking up a meal's date never misses and gives the date's full sum |
| DailyTotals.SumsByDate | src/main/java/ru/javawebinar/topjava/util/MealsUtil.java:67-71 | groupingBy with summingInt yields exactly the dates of the meals, each mapped to its daily sum |
| MealFilterSpec.WindowMembers | src/main/java/ru/javawebinar/topjava/util/MealsUtil.java:74 | the window keeps a meal if and only if it is an input meal whose time t has start <= t < end |
| MealFilterSpec.WindowConcat | src/main/java/ru/javawebinar/topjava/util/MealsUtil.java:85-89 | the window filter distributes over concatenation, so it keeps input order |
| MealFilterSpec.Filtered | src/main/java/ru/javawebinar/topjava/util/MealsUtil.java:73-76 | the reference result: no longer than the input, its meals are exactly the in-window meals in order, each flag is (sum of all that date's meals) > threshold |
| MealFilterSpec.FilteredUnique | src/main/java/ru/javawebinar/topjava/util/MealsUtil.java:73-76 | any list with the in-window meals in order and whole-day flags is the reference result |
| MealFilterSpec.ThresholdOnlyChangesFlags | src/main/java/ru/javawebinar/topjava/util/MealsUtil.java:74-75 | the threshold decides only the flags, never which meals are returned |
| MealFilterSpec.SameDateSameFlag | src/main/java/ru/javawebinar/topjava/util/MealsUtil.java:75 | two returned meals of the same date carry the same flag |
| MealFilterSpec.OfDateCount | src/main/java/ru/javawebinar/topjava/util/MealsUtil.java:305-316 | a list's view of one date keeps every copy of that date's projections and nothing else |
| MealFilterSpec.PerDateEqualIsPermutation | src/main/java/ru/javawebinar/topjava/util/MealsUtil.java:305-316 | two lists that agree date by date are permutations of each other |
| MealFilterSpec.WindowDayMeals | src/main/java/ru/javawebinar/topjava/util/MealsUtil.java:309-313 | windowing then grouping by date equals grouping then windowing |
| MealFilterSpec.OfDateAnnotate | src/main/java/ru/javawebinar/topjava/util/MealsUtil.java:310-314 | a date's view of the flagged meals is that date's meals, all with that date's flag |
| MealFilterSpec.FilteredOfDate | src/main/java/ru/javawebinar/topjava/util/MealsUtil.java:309-315 | the reference result restricted to a date is that day's in-window meals in input order, all flagged with that day's total |
| MealFilterSpec.ReversedConcat | src/main/java/ru/javawebinar/topjava/util/MealsUtil.java:99-109 | reversal turns a concatenation around |
| MealFilterSpec.ReversedInvolution | src/main/java/ru/javawebinar/topjava/util/MealsUtil.java:99-109 | reversing twice gives the list back: reversal changes order only |
| MealFilterSpec.ReversedMultiset | src/main/java/ru/javawebinar/topjava/util/MealsUtil.java:99-109 | reversal keeps every element with its multiplicity |
| MealsUtil.FilteredByStreams | src/main/java/ru/javawebinar/topjava/util/MealsUtil.java:66-77 | filteredByStreams equals the reference result on every input |
| MealsUtil.LookedUpIsAnnotate | src/main/java/ru/javawebinar/topjava/util/MealsUtil.java:75 | with exact totals, flagging by a map lookup is flagging by the whole day's sum |
| MealsUtil.WindowTotals | src/main/java/ru/javawebinar/topjava/util/MealsUtil.java:73-75 | every in-window meal's date is in the summing map, with its daily sum |
| MealsUtil.FlagByLookup | src/main/java/ru/javawebinar/topjava/util/MealsUtil.java:75 | the map step: each meal projected with (its date's entry in the summing map > threshold); no contract beyond its definition, `LookedUpIsAnnotate` shows it equals flagging by the whole-day sum |
| MealsUtil.FilteredByCycles | src/main/java/ru/javawebinar/topjava/util/MealsUtil.java:79-91 | filteredByCycles equals the reference result on every input (hence equals filteredByStreams) |
| MealsUtil.SumCaloriesByDate | src/main/java/ru/javawebinar/topjava/util/MealsUtil.java:81-82 | the merge loop leaves exactly the dates of the meals, each with its daily sum |
| MealsUtil.FilteredByRecursion | src/main/java/ru/javawebinar/topjava/util/MealsUtil.java:93-97 | filteredByRecursion returns the reference result reversed: same elements, full-day flags, reverse input order |
| MealsUtil.FilterWithRecursion | src/main/java/ru/javawebinar/topjava/util/MealsUtil.java:99-109 | given exact totals of the popped meals, returns exact totals of all meals and appends the reversed reference output of the remaining meals, flagged with totals over all meals |
| MealsUtil.PopHead | src/main/java/ru/javawebinar/topjava/util/MealsUtil.java:103 | popping the head and appending it to the popped meals keeps the whole list |
| MealsUtil.EmitAfterRecursion | src/main/java/ru/javawebinar/topjava/util/MealsUtil.java:105-108 | the add after the recursive call finds the date in the map and appends the head's projection after the tail's reversed output |
| MealsUtil.ReversedAnnotateCons | src/main/java/ru/javawebinar/topjava/util/MealsUtil.java:105-108 | the reversed reference output of a list is the tail's followed by the head's projection when the head is in the window |
| MealsUtil.SumAndDefer | src/main/java/ru/javawebinar/topjava/util/MealsUtil.java:279-284 | the summing loop leaves exact daily totals and one deferred add per in-window meal, in input order |
| MealsUtil.RunLink | src/main/java/ru/javawebinar/topjava/util/MealsUtil.java:282 | the j-th deferred add, run after the loop, appends the j-th in-window meal with its whole-day flag |
| MealsUtil.FilteredByPredicate | src/main/java/ru/javawebinar/topjava/util/MealsUtil.java:274-287 | filteredByPredicate equals the reference result |
| MealsUtil.FilteredByConsumerChain | src/main/java/ru/javawebinar/topjava/util/MealsUtil.java:289-303 | filteredByConsumerChain equals the reference result |
| SetterRecursion.MutableMealWithExceed.constructor | src/main/java/ru/javawebinar/topjava/util/MealsUtil.java:136 | a new projection holds the meal and the given flag |
| SetterRecursion.MutableMealWithExceed.Value | src/main/java/ru/javawebinar/topjava/util/MealsUtil.java:136 | the projection as it reads now: the meal's fields and the current flag |
| SetterRecursion.MutableMealWithExceed.SetExceed | src/main/java/ru/javawebinar/topjava/util/MealsUtil.java:122 | the setter stores the given flag |
| SetterRecursion.Snapshot | src/main/java/ru/javawebinar/topjava/util/MealsUtil.java:151 | what the returned list reads: same length, each entry's meal and current flag |
| SetterRecursion.MealNode.constructor | src/main/java/ru/javawebinar/topjava/util/MealsUtil.java:116-119 | a new link holds the projection and the previous link; its chain is the previous chain plus the projection |
| SetterRecursion.MealNode.SetExceed | src/main/java/ru/javawebinar/topjava/util/MealsUtil.java:121-126 | every projection of the chain from this link back has its flag set |
| SetterRecursion.Record | src/main/java/ru/javawebinar/topjava/util/MealsUtil.java:135-141 | appends a fresh projection with the running flag; an unflagged one becomes the new head of its date's chain, with the old head (or null) as `prev`, and no other date's chain changes; a flagged one leaves the chains untouched; the chains stay well formed and every unflagged projection stays chained |
| SetterRecursion.AppendCell | src/main/java/ru/javawebinar/topjava/util/MealsUtil.java:137 | appending a projection appends its meal and its flag |
| SetterRecursion.ChainedAfterRecord | src/main/java/ru/javawebinar/topjava/util/MealsUtil.java:138-141 | pushing an unflagged projection on its date's chain keeps every unflagged projection chained |
| SetterRecursion.Flush | src/main/java/ru/javawebinar/topjava/util/MealsUtil.java:143-148 | remove the date's chain from the map and set every flag in it; no other flag changes |
| SetterRecursion.Accept | src/main/java/ru/javawebinar/topjava/util/MealsUtil.java:132-150 | one iteration of the forEach body preserves the pass invariant for the meals seen plus this meal |
| SetterRecursion.PassStep | src/main/java/ru/javawebinar/topjava/util/MealsUtil.java:132-150 | the pass invariant (exact running sums, in-window meals in order, unflagged projections chained, running flags under non-negative calories) carries over one meal |
| SetterRecursion.ChainedAfterFlush | src/main/java/ru/javawebinar/topjava/util/MealsUtil.java:143-148 | flagging a date's chain and dropping it leaves every still-unflagged projection chained |
| SetterRecursion.RunningFlags | src/main/java/ru/javawebinar/topjava/util/MealsUtil.java:134-148 | with non-negative calories, after back-patching each flag equals the running total of its date over the meals seen |
| SetterRecursion.RunningFlagAt | src/main/java/ru/javawebinar/topjava/util/MealsUtil.java:134-148 | the same fact for one projection: a date just over the threshold has all its unflagged projections in the flushed chain |
| SetterRecursion.Pass | src/main/java/ru/javawebinar/topjava/util/MealsUtil.java:129-150 | after the whole forEach the pass invariant holds for all meals |
| SetterRecursion.SnapshotAfterPass | src/main/java/ru/javawebinar/topjava/util/MealsUtil.java:151 | the returned list has the in-window meals in order and, with non-negative calories, is the reference result |
| SetterRecursion.FilteredBySetterRecursion | src/main/java/ru/javawebinar/topjava/util/MealsUtil.java:111-152 | always the in-window meals in input order; with non-negative calories exactly the reference result, whole-day flags included |
| GroupedVariants.GroupByDate | src/main/java/ru/javawebinar/topjava/util/MealsUtil.java:306-307 | groupingBy(Meal::getDate): exactly the dates of the meals, each with its meals in input order |
| GroupedVariants.GroupLast | src/main/java/ru/javawebinar/topjava/util/MealsUtil.java:306-307 | appending the last meal to its date's list (created when absent) extends the grouping of the front to the whole list |
| GroupedVariants.DistinctFront | src/main/java/ru/javawebinar/topjava/util/MealsUtil.java:306-307 | dropping the last key of a distinct key listing leaves a distinct listing without it |
| GroupedVariants.OrderInGroups | src/main/java/ru/javawebinar/topjava/util/MealsUtil.java:306-307 | every key listed in the map's iteration order has a group |
| GroupedVariants.DayBlock | src/main/java/ru/javawebinar/topjava/util/MealsUtil.java:310-314 | the flatMap lambda for one date's list: its in-window meals, all flagged with (the list's total > threshold); no contract beyond its definition, `OfDateBlock` and `FinisherIsDayBlock` characterise it |
| GroupedVariants.Blocks | src/main/java/ru/javawebinar/topjava/util/MealsUtil.java:309-315 | the day blocks of the listed dates concatenated in the map's iteration order `order`; no contract beyond its definition, `BlocksOfDate` characterises it |
| GroupedVariants.FilteredByFlatMap | src/main/java/ru/javawebinar/topjava/util/MealsUtil.java:305-316 | date by date equal to the reference result, hence a permutation of it keeping input order within each date, and never longer than the input |
| GroupedVariants.FlatMapPerDate | src/main/java/ru/javawebinar/topjava/util/MealsUtil.java:309-315 | the concatenated day blocks agree with the reference result on every date |
| GroupedVariants.BlocksOfDate | src/main/java/ru/javawebinar/topjava/util/MealsUtil.java:309-315 | a date's view of the concatenated blocks is that date's whole block when it is listed, else empty |
| GroupedVariants.LastBlockOfDate | src/main/java/ru/javawebinar/topjava/util/MealsUtil.java:310-314 | a date's view of one listed date's block |
| GroupedVariants.OfDateBlock | src/main/java/ru/javawebinar/topjava/util/MealsUtil.java:310-314 | a date's view of a day block is the whole block for its own date and nothing for another |
| GroupedVariants.OfDateFlagged | src/main/java/ru/javawebinar/topjava/util/MealsUtil.java:311-314 | meals all of one date, flagged: the view of that date is everything, of another date nothing |
| GroupedVariants.Accumulated | src/main/java/ru/javawebinar/topjava/util/MealsUtil.java:323-328 | the state change of accumulate: the calories are added, the meal is kept only when in the window; no contract beyond its definition, `AccumulatedSnoc` characterises it |
| GroupedVariants.Combined | src/main/java/ru/javawebinar/topjava/util/MealsUtil.java:331-335 | the state change of combine: sums added, the second part's kept meals appended; no contract beyond its definition, `CombinedConcat` characterises it |
| GroupedVariants.AccumulatedSnoc | src/main/java/ru/javawebinar/topjava/util/MealsUtil.java:323-328 | accumulate adds every meal's calories but keeps only in-window meals: the state of ms becomes the state of ms + [meal] |
| GroupedVariants.CombinedConcat | src/main/java/ru/javawebinar/topjava/util/MealsUtil.java:331-335 | combine of the states of two consecutive stream parts is the state of the whole |
| GroupedVariants.Aggregate.constructor | src/main/java/ru/javawebinar/topjava/util/MealsUtil.java:319-321 | a new aggregate keeps no meal and has a zero sum |
| GroupedVariants.Aggregate.Accumulate | src/main/java/ru/javawebinar/topjava/util/MealsUtil.java:323-328 | adds the meal's calories to the sum and appends the meal to the kept meals when it is in the window |
| GroupedVariants.Aggregate.Combine | src/main/java/ru/javawebinar/topjava/util/MealsUtil.java:331-335 | adds the other aggregate's sum, appends its kept meals and returns this aggregate |
| GroupedVariants.Aggregate.Finisher | src/main/java/ru/javawebinar/topjava/util/MealsUtil.java:337-340 | the kept meals, in order, each flagged with (the aggregate's sum > threshold) |
| GroupedVariants.FinisherIsDayBlock | src/main/java/ru/javawebinar/topjava/util/MealsUtil.java:337-340 | an aggregate that holds the state of a date's meals finishes into that date's flatMap block |
| GroupedVariants.CollectStep | src/main/java/ru/javawebinar/topjava/util/MealsUtil.java:343-345 | one accumulation step of groupingBy on the per-date states: the meal's date's state (fresh when absent) accumulates the meal; no contract beyond its definition, `CollectStepOf` characterises it |
| GroupedVariants.CollectStepOf | src/main/java/ru/javawebinar/topjava/util/MealsUtil.java:343-345 | one accumulation step turns the per-date states of the seen meals into those of the seen meals plus one |
| GroupedVariants.CollectStepAt | src/main/java/ru/javawebinar/topjava/util/MealsUtil.java:343-345 | the same fact for one date |
| GroupedVariants.Collect | src/main/java/ru/javawebinar/topjava/util/MealsUtil.java:343-345 | finds or creates the meal's date's aggregate and accumulates the meal into it; no other aggregate changes |
| GroupedVariants.CollectAll | src/main/java/ru/javawebinar/topjava/util/MealsUtil.java:343-346 | after the groupingBy pass every date of the meals has one fresh aggregate, holding the state of that date's meals |
| GroupedVariants.AggregateBlock | src/main/java/ru/javawebinar/topjava/util/MealsUtil.java:337-346 | once all meals are collected, a date's aggregate finishes into the date's flatMap block |
| GroupedVariants.BlocksAt | src/main/java/ru/javawebinar/topjava/util/MealsUtil.java:348 | the blocks of the first j + 1 listed dates are those of the first j followed by the j-th date's block |
| GroupedVariants.Finish | src/main/java/ru/javawebinar/topjava/util/MealsUtil.java:348 | flatMap(identity()) over the finished aggregates in map order yields the flatMap variant's blocks |
| GroupedVariants.FilteredByCollector | src/main/java/ru/javawebinar/topjava/util/MealsUtil.java:318-349 | filteredByCollector returns exactly what filteredByFlatMap returns for the same map order |
| ExampleScenario.ExampleDailySums | src/main/java/ru/javawebinar/topjava/util/MealsUtil.java:27-35 | in the entry point's data, 30 January totals exactly 2000 calories and 31 January 2010 |
| ExampleScenario.ExampleDay30Sums | src/main/java/ru/javawebinar/topjava/util/MealsUtil.java:28-30 | the three meals of 30 January total 2000 and contribute nothing to 31 January |
| ExampleScenario.ExampleDay31Sums | src/main/java/ru/javawebinar/topjava/util/MealsUtil.java:31-34 | the four meals of 31 January total 2010 and contribute nothing to 30 January |
| ExampleScenario.ExampleWindow | src/main/java/ru/javawebinar/topjava/util/MealsUtil.java:27-38 | with window [07:00, 12:00) only the two 10:00 breakfasts are returned |
| ExampleScenario.ExampleFiltered | src/main/java/ru/javawebinar/topjava/util/MealsUtil.java:27-43 | with threshold 2000 the result is the 30 January breakfast flagged false (total equal to the threshold) and the 31 January breakfast flagged true |
| ExampleScenario.ExampleBoundaries | src/main/java/ru/javawebinar/topjava/util/MealsUtil.java:37-38 | a meal at the window's start is returned, one at its end is not |
| ExampleScenario.ExampleEndOfDay | src/main/java/ru/javawebinar/topjava/util/MealsUtil.java:74 | a window from 00:00 to the end of the day returns a meal at 23:59 |

## Left out

- The thread-based variants `filteredByExecutor`, `filteredByLock` and `filteredByCountDownLatch` (MealsUtil.java:207-272): their point is concurrency, and their output order depends on scheduling.
- The commented-out variants `filteredByAtomic`, `filteredByReflection` and `filteredByClosure` (MealsUtil.java:154-205): they are not compiled code.
- `main`'s printing (MealsUtil.java:26-64): I/O. Its data is used only in `ExampleScenario`.
- `DEFAULT_CALORIES_PER_DAY` (MealsUtil.java:24), a mutable `public static Integer`: no modelled operation reads it, since every variant takes the threshold as a parameter.
- Java `int` overflow in calorie sums: sums are unbounded integers.
- Sub-minute times: meal times and window bounds are whole minutes, so seconds and nanoseconds in a `LocalTime` are not modelled. An end bound after 23:59 is modelled only as the single value 1440, which covers `LocalTime.MAX` and any other end after 23:59:00 for whole-minute meal times.
- Null inputs: the model's types have no null. In Java a null `meals` list, a null meal or a null date or time throws `NullPointerException` in every variant, and `groupingBy` throws one for a null key (MealsUtil.java:67, 306, 344). The model never fails on these.
- HashMap iteration order in `filteredByFlatMap` and `filteredByCollector` is unspecified. It is the parameter `order`, any distinct listing of the dates. Only the per-date result and the permutation are claimed.
- FilteredBySetterRecursion: the flags are claimed equal to the whole-day flags only when no meal has negative calories. With a negative meal a running sum can go over the threshold and come back under, and the flags set on the way stay set. The in-window meals and their order are claimed unconditionally.
- FilterWithRecursion: the `LinkedList`, the shared `HashMap` and the result `ArrayList` are threaded through the calls as values. The source never aliases them with anything else, so apart from the stack bound below the results are the same, but in-place update is not modelled.
- Stack depth: the model has no bound on call depth, so none of these calls fails in it. In Java each can throw `StackOverflowError` on long inputs:
  - `filterWithRecursion` recurses once per meal (MealsUtil.java:105);
  - the `Predicate.and` chain nests one frame per in-window meal when `test` runs (MealsUtil.java:282, 285);
  - the `Consumer.andThen` chain does the same when `accept` runs (MealsUtil.java:298, 301);
  - `MealNode.setExceed` recurses once per chain link (MealsUtil.java:124).
- The deferred adds of `filteredByPredicate` and `filteredByConsumerChain` are represented by the meal each closure captures, because the closure body is fixed. `Predicate.and` short-circuits on false; `ArrayList.add` always returns true, so every link runs.
- Aggregate.Combine is modelled and proved correct (`CombinedConcat`), but `FilteredByCollector` never calls it, because the source's stream is sequential.
- `TimeUtil`, `Meal`, `MealWithExceed` and the tests `RootControllerTest.java` and `JsonUtilTest.java` are not part of this model. The first three appear only as the abstract types and predicate above. The tests exercise Spring MockMvc views and Jackson serialisation.
