/**
 * The value types the meal filter works on: a meal, a meal annotated with its
 * day's "exceeded" flag, and the half-open time-of-day window test.
 *
 * Abstractions: a calendar date (LocalDate) is a day number, a time of day
 * (LocalTime) is the number of minutes since midnight.
 */
module MealModel {

  datatype Option<+T> = None | Some(value: T)

  /** Minutes since midnight, the model of a LocalTime. */
  type TimeOfDay = t: int | 0 <= t < 24 * 60

  /**
   * A bound of the time-of-day window, in minutes.  It is one wider than a
   * meal time: 24 * 60 stands for an end after the day's last minute (such as
   * LocalTime.MAX), so that a window can take in a meal at 23:59.
   */
  type WindowBound = b: int | 0 <= b <= 24 * 60

  /** A LocalDateTime: the calendar date as a day number and the time of day. */
  datatype DateTime = DateTime(date: int, time: TimeOfDay)

  /** A recorded meal; the id is absent for a meal not yet persisted. */
  datatype Meal = Meal(id: Option<int>, dateTime: DateTime, description: string, calories: int)
  {
    function Date(): int { dateTime.date }
    function Time(): TimeOfDay { dateTime.time }
  }

  /** A meal projected with the flag "its day's calories exceed the threshold". */
  datatype MealWithExceed = MealWithExceed(id: Option<int>, dateTime: DateTime, description: string,
                                           calories: int, exceed: bool)
  {
    function Date(): int { dateTime.date }

    /** The meal this projection was made from. */
    function ToMeal(): Meal { Meal(id, dateTime, description, calories) }
  }

  /** The half-open window [start, end): start included, end excluded. */
  predicate IsBetweenHalfOpen(t: TimeOfDay, start: WindowBound, end: WindowBound)
  {
    start <= t < end
  }

  /** Copies every field of the meal and adds the flag. */
  function CreateTo(meal: Meal, exceed: bool): (r: MealWithExceed)
    ensures r.ToMeal() == meal && r.exceed == exceed
    ensures r.Date() == meal.Date()
  {
    MealWithExceed(meal.id, meal.dateTime, meal.description, meal.calories, exceed)
  }

  /** A projection is determined by the meal it came from and its flag. */
  lemma CreateToInjective(a: MealWithExceed)
    ensures CreateTo(a.ToMeal(), a.exceed) == a
  {
  }

  // List facts the proofs use at one step each.

  /** Taking one more element of a list appends that element. */
  lemma TakeSnoc<T>(s: seq<T>, i: nat)
    requires i < |s|
    ensures s[..i + 1] == s[..i] + [s[i]]
  {
  }

  lemma ConcatAssoc<T>(a: seq<T>, b: seq<T>, c: seq<T>)
    ensures a + (b + c) == (a + b) + c
  {
  }
}
