/**
 * The scenario the source's entry point runs: seven meals over two days of
 * January 2020, the window [07:00, 12:00) and the threshold 2000.  Days are
 * epoch-day numbers.
 */
module ExampleScenario {
  import opened MealModel
  import opened DailyTotals
  import opened MealFilterSpec

  const Jan30: int := 18291
  const Jan31: int := 18292

  const Breakfast30 := Meal(None, DateTime(Jan30, 10 * 60), "Завтрак", 500)
  const Breakfast31 := Meal(None, DateTime(Jan31, 10 * 60), "Завтрак", 1000)

  function ExampleDay30(): seq<Meal>
  {
    [ Breakfast30,
      Meal(None, DateTime(Jan30, 13 * 60), "Обед", 1000),
      Meal(None, DateTime(Jan30, 20 * 60), "Ужин", 500) ]
  }

  function ExampleDay31(): seq<Meal>
  {
    [ Meal(None, DateTime(Jan31, 0), "Еда на граничное значение", 100),
      Breakfast31,
      Meal(None, DateTime(Jan31, 13 * 60), "Обед", 500),
      Meal(None, DateTime(Jan31, 20 * 60), "Ужин", 410) ]
  }

  /** The seven meals of the two days, in the order they are listed. */
  function ExampleMeals(): seq<Meal>
  {
    ExampleDay30() + ExampleDay31()
  }

  /** The first day totals exactly 2000 calories, the second 2010. */
  lemma ExampleDailySums()
    ensures DailySum(ExampleMeals(), Jan30) == 2000
    ensures DailySum(ExampleMeals(), Jan31) == 2010
  {
    ExampleSumJan30();
    ExampleSumJan31();
  }

  lemma ExampleSumJan30()
    ensures DailySum(ExampleDay30() + ExampleDay31(), Jan30) == 2000
  {
    ExampleDay30Sums();
    ExampleDay31Sums();
    DailySumConcat(ExampleDay30(), ExampleDay31(), Jan30);
  }

  lemma ExampleSumJan31()
    ensures DailySum(ExampleDay30() + ExampleDay31(), Jan31) == 2010
  {
    ExampleDay30Sums();
    ExampleDay31Sums();
    DailySumConcat(ExampleDay30(), ExampleDay31(), Jan31);
  }

  lemma ExampleDay30Sums()
    ensures DailySum(ExampleDay30(), Jan30) == 2000 && DailySum(ExampleDay30(), Jan31) == 0
  {
    var day := ExampleDay30();
    DayMealsOfOneDate(day, Jan30);
    DayMealsOfOtherDates(day, Jan31);
    assert day[1..][1..][1..] == [];
  }

  lemma ExampleDay31Sums()
    ensures DailySum(ExampleDay31(), Jan30) == 0 && DailySum(ExampleDay31(), Jan31) == 2010
  {
    var day := ExampleDay31();
    DayMealsOfOtherDates(day, Jan30);
    DayMealsOfOneDate(day, Jan31);
    assert day[1..][1..][1..][1..] == [];
  }

  /** Only the two 10:00 breakfasts lie in [07:00, 12:00). */
  lemma ExampleWindow()
    ensures Window(ExampleMeals(), 7 * 60, 12 * 60) == [Breakfast30, Breakfast31]
  {
    var day30, day31 := ExampleDay30(), ExampleDay31();
    WindowConcat(day30, day31, 7 * 60, 12 * 60);
    assert day30[1..][1..][1..] == [];
    assert day31[1..][1..][1..][1..] == [];
  }

  /**
   * Window [07:00, 12:00), threshold 2000: the two 10:00 meals; the first day
   * totals exactly 2000 and is not exceeded, the second totals 2010 and is.
   */
  lemma ExampleFiltered()
    ensures Filtered(ExampleMeals(), 7 * 60, 12 * 60, 2000)
         == [CreateTo(Breakfast30, false), CreateTo(Breakfast31, true)]
  {
    ExampleDailySums();
    ExampleWindow();
    AnnotatePair(Breakfast30, Breakfast31, ExampleMeals(), 2000);
  }

  lemma AnnotatePair(a: Meal, b: Meal, all: seq<Meal>, caloriesPerDay: int)
    ensures Annotate([a, b], all, caloriesPerDay)
         == [CreateTo(a, DailySum(all, a.Date()) > caloriesPerDay), CreateTo(b, DailySum(all, b.Date()) > caloriesPerDay)]
  {
  }

  /** A meal at the window's start is returned, one at its end is not. */
  lemma ExampleBoundaries()
    ensures var atStart := Meal(Some(1), DateTime(Jan30, 7 * 60), "Завтрак", 300);
            var atEnd := Meal(Some(2), DateTime(Jan30, 12 * 60), "Обед", 300);
            ToMeals(Filtered([atStart, atEnd], 7 * 60, 12 * 60, 2000)) == [atStart]
  {
    var atStart := Meal(Some(1), DateTime(Jan30, 7 * 60), "Завтрак", 300);
    var atEnd := Meal(Some(2), DateTime(Jan30, 12 * 60), "Обед", 300);
    assert Window([atStart, atEnd], 7 * 60, 12 * 60) == [atStart];
  }

  /** A window ending after the day's last minute (LocalTime.MAX) returns a meal at 23:59. */
  lemma ExampleEndOfDay()
    ensures var lateSnack := Meal(Some(3), DateTime(Jan31, 23 * 60 + 59), "Ужин", 200);
            ToMeals(Filtered([lateSnack], 0, 24 * 60, 2000)) == [lateSnack]
  {
    var lateSnack := Meal(Some(3), DateTime(Jan31, 23 * 60 + 59), "Ужин", 200);
    assert Window([lateSnack], 0, 24 * 60) == [lateSnack];
  }
}
