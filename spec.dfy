/**
 * The one behaviour every variant of the filter implements, as a pure
 * definition: keep the meals whose time of day lies in [start, end), in input
 * order, and flag each with "the calories of ALL meals on its date are strictly
 * greater than the threshold".  The window decides what is returned, never
 * what is counted.
 */
module MealFilterSpec {
  import opened MealModel
  import opened DailyTotals

  /** The stable filter by time-of-day window. */
  function Window(meals: seq<Meal>, start: WindowBound, end: WindowBound): (r: seq<Meal>)
    ensures |r| <= |meals|
  {
    if meals == [] then []
    else (if IsBetweenHalfOpen(meals[0].Time(), start, end) then [meals[0]] else [])
         + Window(meals[1..], start, end)
  }

  /** The window keeps exactly the meals whose time lies in [start, end). */
  lemma {:induction false} WindowMembers(meals: seq<Meal>, start: WindowBound, end: WindowBound)
    ensures forall m :: m in Window(meals, start, end) <==> m in meals && IsBetweenHalfOpen(m.Time(), start, end)
  {
    if meals != [] {
      WindowMembers(meals[1..], start, end);
      assert meals == [meals[0]] + meals[1..];
    }
  }

  /** Every meal the window keeps comes from the input. */
  lemma WindowMember(meals: seq<Meal>, start: WindowBound, end: WindowBound, j: nat)
    requires j < |Window(meals, start, end)|
    ensures Window(meals, start, end)[j] in meals
  {
    WindowMembers(meals, start, end);
    assert Window(meals, start, end)[j] in Window(meals, start, end);
  }

  /** Each meal projected with the full-day flag of its date, counted over `all`. */
  function Annotate(ms: seq<Meal>, all: seq<Meal>, caloriesPerDay: int): seq<MealWithExceed>
  {
    seq(|ms|, k requires 0 <= k < |ms| => CreateTo(ms[k], DailySum(all, ms[k].Date()) > caloriesPerDay))
  }

  /** Each meal projected with one and the same flag. */
  function Flagged(ms: seq<Meal>, exceed: bool): seq<MealWithExceed>
  {
    seq(|ms|, k requires 0 <= k < |ms| => CreateTo(ms[k], exceed))
  }

  /** The meals the projections were made from. */
  function ToMeals(tos: seq<MealWithExceed>): seq<Meal>
  {
    seq(|tos|, k requires 0 <= k < |tos| => tos[k].ToMeal())
  }

  /**
   * The reference result: exactly the in-window meals, in input order, never
   * more than the input, each flagged with its whole day's total.
   */
  function Filtered(meals: seq<Meal>, start: WindowBound, end: WindowBound, caloriesPerDay: int)
    : (r: seq<MealWithExceed>)
    ensures |r| <= |meals|
    ensures ToMeals(r) == Window(meals, start, end)
    ensures forall k :: 0 <= k < |r| ==> r[k].exceed == (DailySum(meals, r[k].Date()) > caloriesPerDay)
  {
    Annotate(Window(meals, start, end), meals, caloriesPerDay)
  }

  /** The filter distributes over concatenation: it keeps order and looks at one meal at a time. */
  lemma {:induction false} WindowConcat(a: seq<Meal>, b: seq<Meal>, start: WindowBound, end: WindowBound)
    ensures Window(a + b, start, end) == Window(a, start, end) + Window(b, start, end)
  {
    if a == [] {
      assert a + b == b;
    } else {
      assert (a + b)[1..] == a[1..] + b;
      assert (a + b)[0] == a[0];
      WindowConcat(a[1..], b, start, end);
      assert Window(a + b, start, end) == (if IsBetweenHalfOpen(a[0].Time(), start, end) then [a[0]] else []) + Window(a[1..] + b, start, end);
    }
  }

  lemma WindowSnoc(meals: seq<Meal>, m: Meal, start: WindowBound, end: WindowBound)
    ensures Window(meals + [m], start, end)
         == Window(meals, start, end) + (if IsBetweenHalfOpen(m.Time(), start, end) then [m] else [])
  {
    WindowConcat(meals, [m], start, end);
    assert [m][1..] == [];
  }

  /** The window of the first i + 1 meals extends the window of the first i by at most the i-th meal. */
  lemma WindowAt(meals: seq<Meal>, i: nat, start: WindowBound, end: WindowBound)
    requires i < |meals|
    ensures Window(meals[..i + 1], start, end)
         == Window(meals[..i], start, end) + (if IsBetweenHalfOpen(meals[i].Time(), start, end) then [meals[i]] else [])
  {
    TakeSnoc(meals, i);
    WindowSnoc(meals[..i], meals[i], start, end);
  }

  /** One more meal of the input adds at most its own projection to the reference result. */
  lemma AnnotateWindowSnoc(meals: seq<Meal>, m: Meal, all: seq<Meal>, start: WindowBound, end: WindowBound, caloriesPerDay: int)
    ensures Annotate(Window(meals + [m], start, end), all, caloriesPerDay)
         == Annotate(Window(meals, start, end), all, caloriesPerDay)
            + (if IsBetweenHalfOpen(m.Time(), start, end)
               then [CreateTo(m, DailySum(all, m.Date()) > caloriesPerDay)] else [])
  {
    WindowSnoc(meals, m, start, end);
    var w0 := if IsBetweenHalfOpen(m.Time(), start, end) then [m] else [];
    AnnotateConcat(Window(meals, start, end), w0, all, caloriesPerDay);
  }

  /** AnnotateWindowSnoc for the first i + 1 meals of a list. */
  lemma AnnotateWindowAt(meals: seq<Meal>, i: nat, all: seq<Meal>, start: WindowBound, end: WindowBound, caloriesPerDay: int)
    requires i < |meals|
    ensures Annotate(Window(meals[..i + 1], start, end), all, caloriesPerDay)
         == Annotate(Window(meals[..i], start, end), all, caloriesPerDay)
            + (if IsBetweenHalfOpen(meals[i].Time(), start, end)
               then [CreateTo(meals[i], DailySum(all, meals[i].Date()) > caloriesPerDay)] else [])
  {
    TakeSnoc(meals, i);
    AnnotateWindowSnoc(meals[..i], meals[i], all, start, end, caloriesPerDay);
  }

  lemma AnnotateConcat(a: seq<Meal>, b: seq<Meal>, all: seq<Meal>, caloriesPerDay: int)
    ensures Annotate(a + b, all, caloriesPerDay) == Annotate(a, all, caloriesPerDay) + Annotate(b, all, caloriesPerDay)
  {
  }

  lemma AnnotateSnoc(ms: seq<Meal>, m: Meal, all: seq<Meal>, caloriesPerDay: int)
    ensures Annotate(ms + [m], all, caloriesPerDay)
         == Annotate(ms, all, caloriesPerDay) + [CreateTo(m, DailySum(all, m.Date()) > caloriesPerDay)]
  {
    AnnotateConcat(ms, [m], all, caloriesPerDay);
  }

  lemma AnnotateAt(ms: seq<Meal>, j: nat, all: seq<Meal>, caloriesPerDay: int)
    requires j < |ms|
    ensures Annotate(ms[..j + 1], all, caloriesPerDay)
         == Annotate(ms[..j], all, caloriesPerDay) + [CreateTo(ms[j], DailySum(all, ms[j].Date()) > caloriesPerDay)]
  {
    TakeSnoc(ms, j);
    AnnotateSnoc(ms[..j], ms[j], all, caloriesPerDay);
  }

  lemma FlaggedConcat(a: seq<Meal>, b: seq<Meal>, exceed: bool)
    ensures Flagged(a + b, exceed) == Flagged(a, exceed) + Flagged(b, exceed)
  {
  }

  /** Any list with the window's meals in order and full-day flags IS the reference result. */
  lemma FilteredUnique(r: seq<MealWithExceed>, meals: seq<Meal>, start: WindowBound, end: WindowBound, caloriesPerDay: int)
    requires ToMeals(r) == Window(meals, start, end)
    requires forall k :: 0 <= k < |r| ==> r[k].exceed == (DailySum(meals, r[k].Date()) > caloriesPerDay)
    ensures r == Filtered(meals, start, end, caloriesPerDay)
  {
    var f := Filtered(meals, start, end, caloriesPerDay);
    assert |r| == |ToMeals(r)| == |ToMeals(f)| == |f|;
    forall k | 0 <= k < |r| ensures r[k] == f[k] {
      assert ToMeals(r)[k] == ToMeals(f)[k];
      CreateToInjective(r[k]);
      CreateToInjective(f[k]);
    }
  }

  /** The threshold changes only the flags, never which meals are returned. */
  lemma ThresholdOnlyChangesFlags(meals: seq<Meal>, start: WindowBound, end: WindowBound, c1: int, c2: int)
    ensures ToMeals(Filtered(meals, start, end, c1)) == ToMeals(Filtered(meals, start, end, c2))
    ensures |Filtered(meals, start, end, c1)| == |Filtered(meals, start, end, c2)|
  {
  }

  /** All returned meals of one date carry the same flag. */
  lemma SameDateSameFlag(meals: seq<Meal>, start: WindowBound, end: WindowBound, caloriesPerDay: int, i: nat, j: nat)
    requires i < |Filtered(meals, start, end, caloriesPerDay)| && j < |Filtered(meals, start, end, caloriesPerDay)|
    requires Filtered(meals, start, end, caloriesPerDay)[i].Date() == Filtered(meals, start, end, caloriesPerDay)[j].Date()
    ensures Filtered(meals, start, end, caloriesPerDay)[i].exceed == Filtered(meals, start, end, caloriesPerDay)[j].exceed
  {
  }

  // ---------------------------------------------------------------------------
  // Per-date views, used to compare the grouped variants with the reference.

  /** The projections of one date, in order. */
  function OfDate(tos: seq<MealWithExceed>, date: int): (r: seq<MealWithExceed>)
    ensures |r| <= |tos|
  {
    if tos == [] then []
    else (if tos[0].Date() == date then [tos[0]] else []) + OfDate(tos[1..], date)
  }

  lemma {:induction false} OfDateConcat(a: seq<MealWithExceed>, b: seq<MealWithExceed>, date: int)
    ensures OfDate(a + b, date) == OfDate(a, date) + OfDate(b, date)
  {
    if a == [] {
      assert a + b == b;
    } else {
      assert (a + b)[0] == a[0];
      assert (a + b)[1..] == a[1..] + b;
      OfDateConcat(a[1..], b, date);
      assert OfDate(a + b, date) == (if a[0].Date() == date then [a[0]] else []) + OfDate(a[1..] + b, date);
    }
  }

  /** The date view keeps every copy of a projection of that date and nothing else. */
  lemma {:induction false} OfDateCount(tos: seq<MealWithExceed>, date: int, x: MealWithExceed)
    ensures multiset(OfDate(tos, date))[x] == if x.Date() == date then multiset(tos)[x] else 0
  {
    if tos != [] {
      assert tos == [tos[0]] + tos[1..];
      OfDateCount(tos[1..], date, x);
    }
  }

  /** Two lists that agree date by date are permutations of each other. */
  lemma PerDateEqualIsPermutation(a: seq<MealWithExceed>, b: seq<MealWithExceed>)
    requires forall d :: OfDate(a, d) == OfDate(b, d)
    ensures multiset(a) == multiset(b)
  {
    forall x ensures multiset(a)[x] == multiset(b)[x] {
      OfDateCount(a, x.Date(), x);
      OfDateCount(b, x.Date(), x);
    }
  }

  lemma {:induction false} WindowDayMeals(meals: seq<Meal>, start: WindowBound, end: WindowBound, date: int)
    ensures DayMeals(Window(meals, start, end), date) == Window(DayMeals(meals, date), start, end)
  {
    if meals != [] {
      var m := meals[0];
      var w0 := if IsBetweenHalfOpen(m.Time(), start, end) then [m] else [];
      var d0 := if m.Date() == date then [m] else [];
      DayMealsConcat(w0, Window(meals[1..], start, end), date);
      WindowConcat(d0, DayMeals(meals[1..], date), start, end);
      assert [m][1..] == [];
      WindowDayMeals(meals[1..], start, end, date);
    }
  }

  lemma {:induction false} OfDateAnnotate(ms: seq<Meal>, all: seq<Meal>, caloriesPerDay: int, date: int)
    ensures OfDate(Annotate(ms, all, caloriesPerDay), date)
         == Flagged(DayMeals(ms, date), DailySum(all, date) > caloriesPerDay)
  {
    if ms != [] {
      var a := Annotate(ms, all, caloriesPerDay);
      var d0 := if ms[0].Date() == date then [ms[0]] else [];
      assert a[1..] == Annotate(ms[1..], all, caloriesPerDay);
      assert OfDate(a, date) == (if a[0].Date() == date then [a[0]] else []) + OfDate(a[1..], date);
      assert DayMeals(ms, date) == d0 + DayMeals(ms[1..], date);
      FlaggedConcat(d0, DayMeals(ms[1..], date), DailySum(all, date) > caloriesPerDay);
      OfDateAnnotate(ms[1..], all, caloriesPerDay, date);
    }
  }

  /**
   * The reference result restricted to one date: that day's in-window meals in
   * input order, all flagged with that day's total.
   */
  lemma FilteredOfDate(meals: seq<Meal>, start: WindowBound, end: WindowBound, caloriesPerDay: int, date: int)
    ensures OfDate(Filtered(meals, start, end, caloriesPerDay), date)
         == Flagged(Window(DayMeals(meals, date), start, end), DailySum(meals, date) > caloriesPerDay)
  {
    OfDateAnnotate(Window(meals, start, end), meals, caloriesPerDay, date);
    WindowDayMeals(meals, start, end, date);
  }

  // ---------------------------------------------------------------------------
  // Reversal, the output order of the recursive variant.

  function Reversed<T>(s: seq<T>): (r: seq<T>)
    ensures |r| == |s|
  {
    if s == [] then [] else Reversed(s[1..]) + [s[0]]
  }

  lemma {:induction false} ReversedConcat<T>(a: seq<T>, b: seq<T>)
    ensures Reversed(a + b) == Reversed(b) + Reversed(a)
  {
    if a == [] {
      assert a + b == b;
    } else {
      assert (a + b)[1..] == a[1..] + b;
      ReversedConcat(a[1..], b);
    }
  }

  /** Reversing twice gives the list back: reversal changes the order only. */
  lemma {:induction false} ReversedInvolution<T>(s: seq<T>)
    ensures Reversed(Reversed(s)) == s
  {
    if s != [] {
      ReversedConcat(Reversed(s[1..]), [s[0]]);
      assert Reversed([s[0]]) == [s[0]];
      ReversedInvolution(s[1..]);
    }
  }

  /** Reversal keeps every element with its multiplicity. */
  lemma {:induction false} ReversedMultiset<T>(s: seq<T>)
    ensures multiset(Reversed(s)) == multiset(s)
  {
    if s != [] {
      assert s == [s[0]] + s[1..];
      ReversedMultiset(s[1..]);
    }
  }
}
