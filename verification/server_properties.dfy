/** Properties of the API handlers that relate several calls: append-only
    storage, the meal just posted being counted, the worked examples of the
    daily totals, and where strict and loose id comparison part ways. */
module ServerProperties {
  import opened Wrappers
  import opened Seqs
  import opened JsStrings
  import opened JsValues
  import opened Server

  /** `later` keeps the users of `st` and extends its workouts and meals at the end. */
  predicate Extends(st: State, later: State) {
    && later.users == st.users
    && |st.workouts| <= |later.workouts| && later.workouts[..|st.workouts|] == st.workouts
    && |st.meals| <= |later.meals| && later.meals[..|st.meals|] == st.meals
  }

  lemma ExtendsTransitive(a: State, b: State, c: State)
    requires Extends(a, b) && Extends(b, c)
    ensures Extends(a, c)
  {
    assert c.workouts[..|a.workouts|] == c.workouts[..|b.workouts|][..|a.workouts|];
    assert c.meals[..|a.meals|] == c.meals[..|b.meals|][..|a.meals|];
  }

  /** One request only ever appends: it never removes or rewrites a record. */
  lemma HandleExtends(st: State, req: Request)
    ensures Extends(st, Handle(st, req).state)
  {
    var next := Handle(st, req).state;
    if req.PostWorkoutRequest? && next != st {
      assert next.workouts[..|st.workouts|] == st.workouts;
    }
  }

  /** Any sequence of requests only appends to the workouts and meals and keeps the users. */
  lemma {:induction false} RunExtends(st: State, reqs: seq<Request>)
    ensures Extends(st, Run(st, reqs))
    decreases |reqs|
  {
    if reqs != [] {
      var next := Handle(st, reqs[0]).state;
      HandleExtends(st, reqs[0]);
      RunExtends(next, reqs[1..]);
      ExtendsTransitive(st, next, Run(st, reqs));
    }
  }

  /** A request answered with 400 or 404 leaves the state as it was, and so do all reads. */
  lemma RejectedOrReadOnlyKeepsState(st: State, req: Request)
    requires Status(Handle(st, req).response) == 400 || Status(Handle(st, req).response) == 404
             || req.GetWorkoutsRequest? || req.GetMealsRequest? || req.GetProfileRequest? || req.AnalyzeMealRequest?
    ensures Handle(st, req).state == st
  {
  }

  /** Away from the inherited property names, the analyse handler answers with
      the corrected analysis: a table hit with 0.9, otherwise the estimate with 0.6. */
  lemma AnalyzeMealElsewhereCorrect(st: State, description: string)
    requires description != [] && ToLower(description) !in MealAnalyzer.InheritedKeys
    ensures AnalyzeMeal(st, Str(description)).response == Analyzed(MealAnalyzer.Analyze(description))
  {
    MealAnalyzer.AsWrittenAgreesElsewhere(description);
  }

  /** Any capitalisation of "constructor" sent to the analyse handler comes back
      as a confident match without macros. */
  lemma AnalyzeMealMisreadsConstructor(st: State, description: string)
    requires ToLower(description) == "constructor"
    ensures var r := AnalyzeMeal(st, Str(description)).response;
            r.Analyzed? && r.analysis.macros.None? && r.analysis.confidence == MealAnalyzer.HitConfidence
  {
    assert |description| == |"constructor"|;
    MealAnalyzer.ConstructorIsMisread(description);
  }

  /** The day totals of the meals in `meals` for `userId`. */
  function DayTotals(meals: seq<Meal>, userId: Value, today: string): DailyTotals {
    Totals(MealsLoggedOn(meals, userId, DayOf(today)))
  }

  /** The meal just posted is counted in `dailyTotals` exactly when its own
      timestamp contains the date of the later reading: the totals are the
      earlier ones plus its macros, or the earlier ones alone. */
  lemma NewMealCountedOnItsDay(st: State, body: MealBody, created: Reading, today: string)
    requires !Missing(body.userId, body.description) && UserFor(st.users, body.userId).Some?
    ensures var r := PostMeal(st, body, created, today).response;
            var before := DayTotals(st.meals, body.userId, today);
            if Includes(created.iso, DayOf(today)) then
              r.dailyTotals == DailyTotals(before.calories + NumberOrZero(body.calories),
                                           before.protein + NumberOrZero(body.protein))
            else
              r.dailyTotals == before
  {
    var meal := NewMeal(body, created);
    var p := (m: Meal) => LoggedOn(m, body.userId, DayOf(today));
    FilterAppend(st.meals, meal, p);
    var earlier := Filter(st.meals, p);
    if Includes(created.iso, DayOf(today)) {
      SumAppend(earlier, meal, Calories);
      SumAppend(earlier, meal, Protein);
    } else {
      assert Filter(st.meals + [meal], p) == earlier;
    }
  }

  /** The body of a meal posted by the seeded user with only calories and protein. */
  function SeedMeal(description: string, calories: real, protein: real): MealBody {
    MealBody(Num(1.0), Str(description), Num(calories), Num(protein), Undefined, Undefined)
  }

  lemma SeedUserFound(st: State)
    requires st.users == Initial.users
    ensures UserFor(st.users, Num(1.0)) == Some(Initial.users[0])
  {
  }

  /** A bowl of rice (200 kcal, 4 g protein) and then a chicken breast (165 kcal,
      31 g) logged the same day by the seeded user leave 2000 - 365 = 1635 kcal. */
  lemma TwoMealsExample(first: Reading, second: Reading, today: string)
    requires Includes(first.iso, DayOf(today)) && Includes(second.iso, DayOf(today))
    ensures var s1 := PostMeal(Initial, SeedMeal("bowl of rice", 200.0, 4.0), first, today).state;
            var r := PostMeal(s1, SeedMeal("chicken breast", 165.0, 31.0), second, today).response;
            r.MealCreated? && r.dailyTotals == DailyTotals(365.0, 35.0) && r.remainingCalories == 1635.0
  {
    var rice := SeedMeal("bowl of rice", 200.0, 4.0);
    var chicken := SeedMeal("chicken breast", 165.0, 31.0);
    SeedUserFound(Initial);
    NewMealCountedOnItsDay(Initial, rice, first, today);
    var s1 := PostMeal(Initial, rice, first, today).state;
    SeedUserFound(s1);
    NewMealCountedOnItsDay(s1, chicken, second, today);
    assert DayTotals(s1.meals, Num(1.0), today) == DailyTotals(200.0, 4.0);
  }

  /** `remainingCalories` is not clamped: 2500 kcal against the seeded goal of 2000 leaves -500. */
  lemma OverGoalIsNegative(created: Reading, today: string)
    requires Includes(created.iso, DayOf(today))
    ensures PostMeal(Initial, SeedMeal("feast", 2500.0, 0.0), created, today).response.remainingCalories == -500.0
  {
    SeedUserFound(Initial);
    NewMealCountedOnItsDay(Initial, SeedMeal("feast", 2500.0, 0.0), created, today);
  }

  /** Posting for an id no user has stores the meal and still answers 500. */
  lemma UnknownUserStillStores(st: State, body: MealBody, created: Reading, today: string)
    requires !Missing(body.userId, body.description) && UserFor(st.users, body.userId).None?
    ensures var r := PostMeal(st, body, created, today);
            r.response.InternalError? && r.state.meals == st.meals + [NewMeal(body, created)]
  {
  }

  /** The server stores a negative macro as given: it applies no minimum. */
  lemma NegativeCaloriesStored(st: State, body: MealBody, created: Reading, today: string)
    requires !Missing(body.userId, body.description) && body.calories.Num? && body.calories.n < 0.0
    ensures PostMeal(st, body, created, today).state.meals[|st.meals|].calories == body.calories.n
  {
  }

  /** After POST /api/meals, GET /api/meals/:userId lists what it listed before,
      followed by the new meal when that meal passes its filters. */
  lemma ListAfterPost(st: State, body: MealBody, created: Reading, today: string,
                      userId: string, date: Option<string>)
    requires !Missing(body.userId, body.description)
    ensures var meal := NewMeal(body, created);
            GetMeals(PostMeal(st, body, created, today).state, userId, date).response.meals
            == GetMeals(st, userId, date).response.meals
               + (if MealOf(meal, userId) && OnDate(meal, date) then [meal] else [])
  {
    var meal := NewMeal(body, created);
    var next := PostMeal(st, body, created, today).state;
    assert next.meals == st.meals + [meal];
    var p := (m: Meal) => MealOf(m, userId);
    FilterAppend(st.meals, meal, p);
    if date.Some? && date.value != [] {
      var q := (m: Meal) => Includes(m.date, date.value);
      FilterAppend(Filter(st.meals, p), meal, q);
      if p(meal) {
        assert Filter(next.meals, p) == Filter(st.meals, p) + [meal];
      } else {
        assert Filter(next.meals, p) == Filter(st.meals, p);
      }
    }
  }

  /** After POST /api/meals, the profile counts one more meal for its user
      exactly when the new meal loosely belongs to that user, and adds its
      calories to today's when it is also dated today. */
  lemma ProfileAfterPost(st: State, body: MealBody, created: Reading, today: string,
                         userId: string, profileToday: string)
    requires !Missing(body.userId, body.description)
    requires GetProfile(st, userId, profileToday).response.Profile?
    ensures var u := ProfileUser(st.users, userId).value;
            var meal := NewMeal(body, created);
            var before := GetProfile(st, userId, profileToday).response;
            var after := GetProfile(PostMeal(st, body, created, today).state, userId, profileToday).response;
            && after.Profile?
            && after.totalMeals == before.totalMeals + (if Owns(u, meal.userId) then 1 else 0)
            && after.totalWorkouts == before.totalWorkouts
            && after.todayCalories
               == before.todayCalories + (if OwnsOn(u, meal, DayOf(profileToday)) then meal.calories else 0.0)
  {
    var u := ProfileUser(st.users, userId).value;
    var meal := NewMeal(body, created);
    var next := PostMeal(st, body, created, today).state;
    assert next.meals == st.meals + [meal] && next.users == st.users && next.workouts == st.workouts;
    var day := DayOf(profileToday);
    assert |MealsOf(next.meals, u)| == |MealsOf(st.meals, u)| + (if Owns(u, meal.userId) then 1 else 0) by {
      CountAppend(st.meals, meal, (m: Meal) => Owns(u, m.userId));
    }
    TodaysCaloriesAppend(st.meals, meal, u, day);
  }

  lemma TodaysCaloriesAppend(meals: seq<Meal>, meal: Meal, u: User, day: string)
    ensures SumBy(MealsOfOn(meals + [meal], u, day), Calories)
            == SumBy(MealsOfOn(meals, u, day), Calories) + (if OwnsOn(u, meal, day) then meal.calories else 0.0)
  {
    var q := (m: Meal) => OwnsOn(u, m, day);
    FilterAppend(meals, meal, q);
    if OwnsOn(u, meal, day) {
      SumAppend(Filter(meals, q), meal, Calories);
    } else {
      assert MealsOfOn(meals + [meal], u, day) == MealsOfOn(meals, u, day);
    }
  }

  /** When every meal that loosely belongs to user `u` was stored under the one
      id value `v`, the profile's sum of today's calories and the sum that
      POST /api/meals reports for `v` are the same. */
  lemma ProfileAgreesWithDailyTotals(meals: seq<Meal>, u: User, v: Value, day: string)
    requires Owns(u, v)
    requires forall i :: 0 <= i < |meals| ==> (Owns(u, meals[i].userId) <==> meals[i].userId == v)
    ensures SumBy(MealsOfOn(meals, u, day), Calories) == Totals(MealsLoggedOn(meals, v, day)).calories
  {
    forall m | m in meals
      ensures OwnsOn(u, m, day) <==> LoggedOn(m, v, day)
    {
      var i :| 0 <= i < |meals| && meals[i] == m;
    }
    FilterCongruent(meals, (m: Meal) => OwnsOn(u, m, day), (m: Meal) => LoggedOn(m, v, day));
  }

  /** The POST totals compare ids strictly: a meal stored under the string form
      of the numeric id `n` is not counted for a post under the number `n`. */
  lemma StrictTotalsSkipStringId(s1: State, u: User, n: int, m1: Meal, second: MealBody,
                                 created: Reading, today: string)
    requires s1.meals == [m1] && s1.users == [u] && u.id == n as real && n != 0
    requires m1.userId == Str(IntToString(n))
    requires second.userId == Num(n as real) && !Falsy(second.description)
    requires Includes(created.iso, DayOf(today))
    ensures PostMeal(s1, second, created, today).response.dailyTotals.calories == NumberOrZero(second.calories)
  {
    assert UserFor(s1.users, Num(n as real)) == Some(u);
    NewMealCountedOnItsDay(s1, second, created, today);
    assert MealsLoggedOn(s1.meals, Num(n as real), DayOf(today)) == [] by {
      assert !LoggedOn(m1, Num(n as real), DayOf(today));
    }
  }

  /** The profile compares ids loosely: meals stored under the number `n` and
      under its string form both count for user `n`. */
  lemma LooseProfileCountsBoth(s2: State, u: User, n: int, m1: Meal, m2: Meal, today: string)
    requires s2.meals == [m1, m2] && s2.users == [u] && u.id == n as real
    requires m1.userId == Str(IntToString(n)) && m2.userId == Num(n as real)
    requires Includes(m1.date, DayOf(today)) && Includes(m2.date, DayOf(today))
    ensures var p := GetProfile(s2, IntToString(n), today).response;
            p.Profile? && p.todayCalories == m1.calories + m2.calories
  {
    NumberMatchesItsString(n);
    IntStringRoundTrip(n);
    assert ProfileUser(s2.users, IntToString(n)) == Some(u);
    assert MealsOfOn(s2.meals, u, DayOf(today)) == [m1, m2] by {
      assert OwnsOn(u, m1, DayOf(today)) && OwnsOn(u, m2, DayOf(today));
      FilterAppend([m1], m2, (m: Meal) => OwnsOn(u, m, DayOf(today)));
      assert [m1] + [m2] == [m1, m2];
    }
    assert SumBy([m1, m2], Calories) == m1.calories + m2.calories by {
      SumAppend([m1], m2, Calories);
      assert [m1] + [m2] == [m1, m2];
      assert [m1][1..] == [];
    }
  }

  /** With ids of mixed types the two sums part. User `u` has the numeric id
      `n`; a meal posted under the string form of `n` counts in that user's
      profile, but not in the totals reported to a later post under the
      number `n`. */
  lemma MixedIdTypesSplitTotals(st: State, u: User, n: int, first: MealBody, second: MealBody,
                                earlier: Reading, created: Reading, today: string)
    requires st.meals == [] && st.users == [u] && u.id == n as real && n != 0
    requires first.userId == Str(IntToString(n)) && !Falsy(first.description)
    requires second.userId == Num(n as real) && !Falsy(second.description)
    requires Includes(earlier.iso, DayOf(today)) && Includes(created.iso, DayOf(today))
    ensures var s1 := PostMeal(st, first, earlier, today).state;
            var r2 := PostMeal(s1, second, created, today);
            var p := GetProfile(r2.state, IntToString(n), today).response;
            && r2.response.MealCreated? && r2.response.dailyTotals.calories == NumberOrZero(second.calories)
            && p.Profile? && p.todayCalories == NumberOrZero(first.calories) + NumberOrZero(second.calories)
  {
    var m1 := NewMeal(first, earlier);
    var m2 := NewMeal(second, created);
    var s1 := PostMeal(st, first, earlier, today).state;
    assert s1.meals == [m1] && s1.users == [u];
    StrictTotalsSkipStringId(s1, u, n, m1, second, created, today);
    var s2 := PostMeal(s1, second, created, today).state;
    assert s2.meals == [m1, m2] && s2.users == [u];
    LooseProfileCountsBoth(s2, u, n, m1, m2, today);
  }

  /** A meal whose macros are all at least 0, as the meal schema requires. */
  predicate NonNegative(m: Meal) {
    0.0 <= m.calories && 0.0 <= m.protein && 0.0 <= m.carbs && 0.0 <= m.fats
  }

  /** With non-negative meals, a day's totals lie between zero and the sum over all meals. */
  lemma DayTotalsBounded(meals: seq<Meal>, userId: Value, today: string)
    requires forall i :: 0 <= i < |meals| ==> NonNegative(meals[i])
    ensures 0.0 <= DayTotals(meals, userId, today).calories <= SumBy(meals, Calories)
    ensures 0.0 <= DayTotals(meals, userId, today).protein <= SumBy(meals, Protein)
  {
    var p := (m: Meal) => LoggedOn(m, userId, DayOf(today));
    var all := (m: Meal) => true;
    SumNonNegative(Filter(meals, p), Calories);
    SumNonNegative(Filter(meals, p), Protein);
    SumFilterMonotone(meals, p, all, Calories);
    SumFilterMonotone(meals, p, all, Protein);
    FilterKeepsAll(meals, (m: Meal) => true);
  }

  /** With non-negative meals, the calories left never exceed the goal. */
  lemma RemainingAtMostGoal(st: State, body: MealBody, created: Reading, today: string)
    requires !Missing(body.userId, body.description) && UserFor(st.users, body.userId).Some?
    requires forall i :: 0 <= i < |st.meals| ==> NonNegative(st.meals[i])
    requires NonNegative(NewMeal(body, created))
    ensures PostMeal(st, body, created, today).response.remainingCalories
            <= UserFor(st.users, body.userId).value.dailyCalorieGoal
  {
    var next := PostMeal(st, body, created, today).state;
    assert forall i :: 0 <= i < |next.meals| ==> NonNegative(next.meals[i]) by {
      assert next.meals == st.meals + [NewMeal(body, created)];
    }
    DayTotalsBounded(next.meals, body.userId, today);
  }
}
