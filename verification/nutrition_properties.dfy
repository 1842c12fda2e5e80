/** Properties of the nutrition summaries: which meals count, how the sums
    move when a meal is stored, the shape of the daily window on a 24-hour
    calendar, and what the weekly grouping keeps. */
module NutritionProperties {
  import opened Wrappers
  import opened Seqs
  import opened NutritionService

  // --- Unwinding --------------------------------------------------------------

  /** `$unwind` works meal by meal, so it distributes over concatenation. */
  lemma {:induction false} UnwindConcat(a: seq<MealEntry>, b: seq<MealEntry>)
    ensures Unwind(a + b) == Unwind(a) + Unwind(b)
  {
    if a == [] {
      assert a + b == b;
    } else {
      assert (a + b)[0] == a[0];
      assert (a + b)[1..] == a[1..] + b;
      UnwindConcat(a[1..], b);
    }
  }

  /** Unwinding the meals stored so far plus one more. */
  lemma UnwindAppend(meals: seq<MealEntry>, m: MealEntry)
    ensures Unwind(meals + [m]) == Unwind(meals) + ItemsOf(m)
  {
    UnwindConcat(meals, [m]);
    assert [m][1..] == [];
  }

  // --- Daily summary ------------------------------------------------------------

  /** The items of the day after one more meal is stored. */
  lemma DayItemsAfterStore(meals: seq<MealEntry>, m: MealEntry, userId: UserKey, date: int, cal: Calendar)
    ensures DayItems(meals + [m], userId, date, cal)
            == DayItems(meals, userId, date, cal)
               + (if Matches(userId, DayWindowStart(cal, date), Some(DayWindowEnd(cal, date)), m) then ItemsOf(m) else [])
  {
    var p := (x: MealEntry) => Matches(userId, DayWindowStart(cal, date), Some(DayWindowEnd(cal, date)), x);
    FilterAppend(meals, m, p);
    UnwindAppend(Filter(meals, p), m);
    if !p(m) {
      assert Filter(meals, p) + [] == Filter(meals, p);
    }
  }

  /** A meal outside the user's day leaves the daily summary as it was. */
  lemma DailyIgnoresOtherMeals(meals: seq<MealEntry>, m: MealEntry, userId: UserKey, date: int,
                               cal: Calendar, goal: Option<real>)
    requires !Matches(userId, DayWindowStart(cal, date), Some(DayWindowEnd(cal, date)), m)
    ensures GetDailySummary(meals + [m], userId, date, cal, goal) == GetDailySummary(meals, userId, date, cal, goal)
  {
    var items := DayItems(meals, userId, date, cal);
    assert DayItems(meals + [m], userId, date, cal) == items by {
      DayItemsAfterStore(meals, m, userId, date, cal);
    }
  }

  /** A meal inside the user's day adds exactly its food items to the daily summary. */
  lemma DailyCountsNewMeal(meals: seq<MealEntry>, m: MealEntry, userId: UserKey, date: int,
                           cal: Calendar, goal: real)
    requires Matches(userId, DayWindowStart(cal, date), Some(DayWindowEnd(cal, date)), m)
    ensures var before := GetDailySummary(meals, userId, date, cal, Some(goal));
            var after := GetDailySummary(meals + [m], userId, date, cal, Some(goal));
            && before.Ok? && after.Ok?
            && after.value.calories == before.value.calories + SumBy(ItemsOf(m), Calories)
            && after.value.protein == before.value.protein + SumBy(ItemsOf(m), Protein)
            && after.value.meals == before.value.meals + |m.foods|
            && after.value.remainingCalories == before.value.remainingCalories - SumBy(ItemsOf(m), Calories)
  {
    DayItemsAfterStore(meals, m, userId, date, cal);
    var items := DayItems(meals, userId, date, cal);
    SumConcat(items, ItemsOf(m), Calories);
    SumConcat(items, ItemsOf(m), Protein);
  }

  /** With no matching meal the pipeline yields nothing and the summary is
      the zero default, with the whole goal remaining. */
  lemma DailyDefaultsToZero(meals: seq<MealEntry>, userId: UserKey, date: int, cal: Calendar, goal: real)
    requires forall i :: 0 <= i < |meals| ==>
      !Matches(userId, DayWindowStart(cal, date), Some(DayWindowEnd(cal, date)), meals[i])
    ensures GetDailySummary(meals, userId, date, cal, Some(goal))
            == Ok(DailySummary(0.0, 0.0, 0.0, 0.0, 0, goal, goal))
  {
  }

  /** Every recorded amount of every food item is non-negative. */
  predicate NonNegativeFoods(m: MealEntry) {
    forall i :: 0 <= i < |m.foods| ==>
      var n := m.foods[i].nutrition;
      0.0 <= Amount(n.calories) && 0.0 <= Amount(n.protein) && 0.0 <= Amount(n.carbs) && 0.0 <= Amount(n.fats)
  }

  lemma UnwindNonNegative(meals: seq<MealEntry>)
    requires forall i :: 0 <= i < |meals| ==> NonNegativeFoods(meals[i])
    ensures forall it :: it in Unwind(meals) ==>
      0.0 <= Calories(it) && 0.0 <= Protein(it) && 0.0 <= Carbs(it) && 0.0 <= Fats(it)
  {
  }

  /** When the stored amounts are non-negative, so are the daily sums, and
      the remaining calories never exceed the goal. */
  lemma DailyBounded(meals: seq<MealEntry>, userId: UserKey, date: int, cal: Calendar, goal: real)
    requires forall i :: 0 <= i < |meals| ==> NonNegativeFoods(meals[i])
    ensures var r := GetDailySummary(meals, userId, date, cal, Some(goal));
            && r.Ok? && 0.0 <= r.value.calories && 0.0 <= r.value.protein
            && 0.0 <= r.value.carbs && 0.0 <= r.value.fats
            && r.value.remainingCalories <= goal
  {
    var kept := Filter(meals, (x: MealEntry) => Matches(userId, DayWindowStart(cal, date), Some(DayWindowEnd(cal, date)), x));
    UnwindNonNegative(kept);
    var items := Unwind(kept);
    SumNonNegative(items, Calories);
    SumNonNegative(items, Protein);
    SumNonNegative(items, Carbs);
    SumNonNegative(items, Fats);
  }

  /** A sum over the unwound items, as a sum over meals of their items' sums. */
  lemma {:induction false} SumUnwind(meals: seq<MealEntry>, f: Item -> real)
    ensures SumBy(Unwind(meals), f) == SumBy(meals, (m: MealEntry) => SumBy(ItemsOf(m), f))
  {
    if meals != [] {
      SumUnwind(meals[1..], f);
      SumConcat(ItemsOf(meals[0]), Unwind(meals[1..]), f);
    }
  }

  /** For a measure that is never negative on the meals' items, a window
      containing another sums at least as much. */
  lemma WindowSumMonotone(meals: seq<MealEntry>, userId: UserKey,
                          lo: int, hi: Option<int>, lo': int, hi': Option<int>, f: Item -> real)
    requires forall m :: m in meals ==> forall it :: it in ItemsOf(m) ==> 0.0 <= f(it)
    requires lo' <= lo
    requires hi'.None? || (hi.Some? && hi.value <= hi'.value)
    ensures SumBy(WindowItems(meals, userId, lo, hi), f) <= SumBy(WindowItems(meals, userId, lo', hi'), f)
  {
    var g := (m: MealEntry) => SumBy(ItemsOf(m), f);
    var p := (x: MealEntry) => Matches(userId, lo, hi, x);
    var q := (x: MealEntry) => Matches(userId, lo', hi', x);
    forall m | m in meals
      ensures 0.0 <= g(m)
    {
      SumNonNegative(ItemsOf(m), f);
    }
    SumUnwind(Filter(meals, p), f);
    SumUnwind(Filter(meals, q), f);
    SumFilterMonotone(meals, p, q, g);
  }

  /** A window containing another never sums less of any field, nor counts
      fewer food items. */
  lemma WiderWindowNeverLess(meals: seq<MealEntry>, userId: UserKey,
                             lo: int, hi: Option<int>, lo': int, hi': Option<int>)
    requires forall i :: 0 <= i < |meals| ==> NonNegativeFoods(meals[i])
    requires lo' <= lo
    requires hi'.None? || (hi.Some? && hi.value <= hi'.value)
    ensures var narrow := WindowItems(meals, userId, lo, hi);
            var wide := WindowItems(meals, userId, lo', hi');
            && SumBy(narrow, Calories) <= SumBy(wide, Calories)
            && SumBy(narrow, Protein) <= SumBy(wide, Protein)
            && SumBy(narrow, Carbs) <= SumBy(wide, Carbs)
            && SumBy(narrow, Fats) <= SumBy(wide, Fats)
            && |narrow| <= |wide|
  {
    forall m, it | m in meals && it in ItemsOf(m)
      ensures 0.0 <= Calories(it) && 0.0 <= Protein(it) && 0.0 <= Carbs(it) && 0.0 <= Fats(it)
    {
      var k :| 0 <= k < |ItemsOf(m)| && ItemsOf(m)[k] == it;
    }
    WindowSumMonotone(meals, userId, lo, hi, lo', hi', Calories);
    WindowSumMonotone(meals, userId, lo, hi, lo', hi', Protein);
    WindowSumMonotone(meals, userId, lo, hi, lo', hi', Carbs);
    WindowSumMonotone(meals, userId, lo, hi, lo', hi', Fats);
    WindowSumMonotone(meals, userId, lo, hi, lo', hi', One);
    SumOneIsLength(WindowItems(meals, userId, lo, hi));
    SumOneIsLength(WindowItems(meals, userId, lo', hi'));
  }

  // --- The day window on a 24-hour calendar -----------------------------------

  /** In UTC the inclusive window [00:00:00.000, 23:59:59.999] is the
      half-open day [midnight, next midnight). */
  lemma UtcDayIsHalfOpen(date: int, t: int)
    ensures InWindow(DayWindowStart(Utc, date), Some(DayWindowEnd(Utc, date)), t)
            <==> DayWindowStart(Utc, date) <= t < DayWindowStart(Utc, date) + MsPerDay
  {
  }

  /** In UTC a meal matches the daily `$match` exactly when it is the user's
      and falls on the same day as `date`. */
  lemma UtcMatchesSameDay(userId: UserKey, date: int, m: MealEntry)
    ensures Matches(userId, DayWindowStart(Utc, date), Some(DayWindowEnd(Utc, date)), m)
            <==> m.user == userId && m.date / MsPerDay == date / MsPerDay
  {
  }

  /** The window of `date` is the day containing `date`. */
  lemma UtcDayContainsDate(date: int)
    ensures DayWindowStart(Utc, date) % MsPerDay == 0
    ensures InWindow(DayWindowStart(Utc, date), Some(DayWindowEnd(Utc, date)), date)
  {
  }

  /** A meal stored at exactly midnight belongs to the day that begins then,
      not to the one that ends just before. */
  lemma MidnightStartsTheDay(t: int)
    requires t % MsPerDay == 0
    ensures InWindow(DayWindowStart(Utc, t), Some(DayWindowEnd(Utc, t)), t)
    ensures !InWindow(DayWindowStart(Utc, t - 1), Some(DayWindowEnd(Utc, t - 1)), t)
  {
    assert (t - 1) % MsPerDay == MsPerDay - 1 by {
      assert t - 1 == (t / MsPerDay - 1) * MsPerDay + (MsPerDay - 1);
    }
  }

  /** In UTC the weekly window opens at midnight seven days before today's. */
  lemma UtcWeekStart(now: int)
    ensures WeekStart(Utc, now) == DayWindowStart(Utc, now) - 7 * MsPerDay
  {
    var back := now - 7 * MsPerDay;
    assert back % MsPerDay == now % MsPerDay by {
      assert back == (now / MsPerDay - 7) * MsPerDay + now % MsPerDay;
    }
  }

  /** The weekly window has no upper bound: a meal of the user dated at or
      after `now` (a clock ahead of the server's) is counted. */
  lemma LaterMealsCountInTheWeek(meals: seq<MealEntry>, userId: UserKey, now: int, m: MealEntry)
    requires m.user == userId && now <= m.date
    ensures WeekItems(meals + [m], userId, now, Utc) == WeekItems(meals, userId, now, Utc) + ItemsOf(m)
  {
    UtcWeekStart(now);
    var p := (x: MealEntry) => Matches(userId, WeekStart(Utc, now), None, x);
    FilterAppend(meals, m, p);
    UnwindAppend(Filter(meals, p), m);
  }

  // --- Weekly grouping -------------------------------------------------------

  function RowCalories(r: WeekdayRow): real { r.calories }
  function RowMeals(r: WeekdayRow): real { r.meals as real }

  lemma RowForFound(rows: seq<WeekdayRow>, d: int)
    ensures RowFor(rows, d).Some? ==> RowFor(rows, d).value in rows && RowFor(rows, d).value.day == d
    ensures RowFor(rows, d).None? ==> forall i :: 0 <= i < |rows| ==> rows[i].day != d
  {
    if rows != [] && rows[0].day != d {
      RowForFound(rows[1..], d);
    }
  }

  /** In day order, the row at each position is the one `RowFor` finds. */
  lemma {:induction false} RowForAt(rows: seq<WeekdayRow>, i: int)
    requires Ascending(rows) && 0 <= i < |rows|
    ensures RowFor(rows, rows[i].day) == Some(rows[i])
  {
    if i > 0 {
      RowForAt(rows[1..], i - 1);
    }
  }

  /** Inserting an item adds its amounts to the row totals. */
  lemma {:induction false} InsertSums(rows: seq<WeekdayRow>, d: int, it: Item)
    ensures SumBy(Insert(rows, d, it), RowCalories) == SumBy(rows, RowCalories) + Calories(it)
    ensures SumBy(Insert(rows, d, it), RowMeals) == SumBy(rows, RowMeals) + 1.0
  {
    if rows != [] && rows[0].day != d && d >= rows[0].day {
      InsertSums(rows[1..], d, it);
    } else if rows != [] && rows[0].day == d {
      assert Insert(rows, d, it)[1..] == rows[1..];
    } else if rows != [] {
      assert Insert(rows, d, it)[1..] == rows;
    }
  }

  /** The weekly rows add up to the window: no item is lost or counted twice. */
  lemma {:induction false} GroupConserves(dow: int -> int, items: seq<Item>)
    ensures SumBy(GroupByWeekday(dow, items), RowCalories) == SumBy(items, Calories)
    ensures SumBy(GroupByWeekday(dow, items), RowMeals) == |items| as real
  {
    if items != [] {
      var init := items[..|items| - 1];
      var it := items[|items| - 1];
      assert items == init + [it];
      var before := GroupByWeekday(dow, init);
      assert GroupByWeekday(dow, items) == Insert(before, dow(it.date), it);
      GroupConserves(dow, init);
      InsertSums(before, dow(it.date), it);
      SumAppend(init, it, Calories);
    }
  }

  /** Each row of the weekly summary is the total of a non-empty weekday bucket. */
  lemma RowsAreBuckets(meals: seq<MealEntry>, userId: UserKey, now: int, cal: Calendar, i: int)
    requires 0 <= i < |GetWeeklySummary(meals, userId, now, cal)|
    ensures var rows := GetWeeklySummary(meals, userId, now, cal);
            var items := WeekItems(meals, userId, now, cal);
            && Bucket(UtcDayOfWeek, items, rows[i].day) != []
            && rows[i] == BucketRow(UtcDayOfWeek, items, rows[i].day)
  {
    var rows := GetWeeklySummary(meals, userId, now, cal);
    RowForAt(rows, i);
  }

  /** Every food item of the window is in the row of its weekday, and that
      row is the only one for the weekday. */
  lemma EveryItemHasOneRow(meals: seq<MealEntry>, userId: UserKey, now: int, cal: Calendar, it: Item)
    requires it in WeekItems(meals, userId, now, cal)
    ensures var rows := GetWeeklySummary(meals, userId, now, cal);
            && (exists i :: 0 <= i < |rows| && rows[i].day == UtcDayOfWeek(it.date))
            && (forall i, j :: (0 <= i < |rows| && 0 <= j < |rows| && rows[i].day == UtcDayOfWeek(it.date)
                                && rows[j].day == UtcDayOfWeek(it.date)) ==> i == j)
  {
    var rows := GetWeeklySummary(meals, userId, now, cal);
    var items := WeekItems(meals, userId, now, cal);
    var d := UtcDayOfWeek(it.date);
    var p := (x: Item) => UtcDayOfWeek(x.date) == d;
    var k :| 0 <= k < |items| && items[k] == it;
    assert p(items[k]);
    assert it in Filter(items, p);
    assert RowFor(rows, d).Some?;
    RowForFound(rows, d);
  }

  /** Strictly ascending days drawn from `lo..hi` number at most `hi - lo + 1`. */
  lemma {:induction false} AscendingBounded(rows: seq<WeekdayRow>, lo: int, hi: int)
    requires Ascending(rows)
    requires forall i :: 0 <= i < |rows| ==> lo <= rows[i].day <= hi
    ensures |rows| <= if hi < lo then 0 else hi - lo + 1
  {
    if rows != [] {
      AscendingBounded(rows[1..], rows[0].day + 1, hi);
    }
  }

  /** With weekdays numbered 1 to 7 there are at most seven rows. */
  lemma AtMostSevenRows(meals: seq<MealEntry>, userId: UserKey, now: int, cal: Calendar)
    ensures |GetWeeklySummary(meals, userId, now, cal)| <= 7
  {
    var rows := GetWeeklySummary(meals, userId, now, cal);
    var items := WeekItems(meals, userId, now, cal);
    forall i | 0 <= i < |rows|
      ensures 1 <= rows[i].day <= 7
    {
      RowsAreBuckets(meals, userId, now, cal, i);
      var b := Bucket(UtcDayOfWeek, items, rows[i].day);
      assert UtcDayOfWeek(b[0].date) == rows[i].day;
      UtcWeekdays(b[0].date);
    }
    AscendingBounded(rows, 1, 7);
  }

  /** The UTC weekday numbering stays within 1 to 7. */
  lemma UtcWeekdays(t: int)
    ensures 1 <= UtcDayOfWeek(t) <= 7
  {
  }
}
