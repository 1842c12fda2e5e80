/** The in-memory Express API: three arrays (`workouts`, `meals`, `users`)
    and the handlers that read and append to them, each a pure function from
    the current state and a request to the next state and a response. Clock
    readings are inputs; the server never reads a clock itself. */
module Server {
  import opened Wrappers
  import opened Seqs
  import opened JsStrings
  import opened JsValues
  import MealAnalyzer

  datatype Workout = Workout(id: int, userId: Value, description: Value, duration: Value, date: string)

  datatype Meal = Meal(id: int, userId: Value, description: Value,
                       calories: real, protein: real, carbs: real, fats: real, date: string)

  datatype User = User(id: real, username: string, email: string, dailyCalorieGoal: real)

  datatype State = State(workouts: seq<Workout>, meals: seq<Meal>, users: seq<User>)

  /** The state at start-up: no records and one seeded user. */
  const Initial := State([], [], [User(1.0, "ramel", "ramel@example.com", 2000.0)])

  /** A reading of the clock: `Date.now()` and `new Date().toISOString()`. */
  datatype Reading = Reading(millis: int, iso: string)

  datatype WorkoutBody = WorkoutBody(userId: Value, description: Value, duration: Value)

  datatype MealBody = MealBody(userId: Value, description: Value,
                               calories: Value, protein: Value, carbs: Value, fats: Value)

  /** The `dailyTotals` object of a meal response. */
  datatype DailyTotals = DailyTotals(calories: real, protein: real)

  datatype Response =
    | BadRequest(error: string)
    | NotFound(error: string)
    | InternalError                 // an uncaught TypeError, answered by Express with 500
    | WorkoutCreated(workout: Workout)
    | Workouts(workouts: seq<Workout>)
    | MealCreated(meal: Meal, dailyTotals: DailyTotals, remainingCalories: real)
    | Meals(meals: seq<Meal>)
    | Profile(username: string, email: string, dailyCalorieGoal: real,
              totalWorkouts: nat, totalMeals: nat, todayCalories: real, todayProtein: real)
    | Analyzed(analysis: MealAnalyzer.Analysis)

  function Status(r: Response): int {
    match r
    case BadRequest(_) => 400
    case NotFound(_) => 404
    case InternalError => 500
    case _ => 200
  }

  /** The state after a request, and the response sent for it. */
  datatype Step = Step(state: State, response: Response)

  const MissingFields := "Missing required fields"

  /** `!userId || !description`: the check both POST handlers make first. */
  predicate Missing(userId: Value, description: Value) {
    Falsy(userId) || Falsy(description)
  }

  /** `new Date().toISOString().split('T')[0]`: the date part of an ISO timestamp. */
  function DayOf(iso: string): string {
    BeforeFirst(iso, 'T')
  }

  /** The first user satisfying `p`, as `users.find(p)` returns it. */
  function FindUser(users: seq<User>, p: User -> bool): (r: Option<User>)
    ensures r.None? <==> forall i :: 0 <= i < |users| ==> !p(users[i])
    ensures r.Some? ==> exists i :: 0 <= i < |users| && users[i] == r.value && p(users[i])
                                   && forall j :: 0 <= j < i ==> !p(users[j])
  {
    if users == [] then None
    else if p(users[0]) then Some(users[0])
    else
      var r := FindUser(users[1..], p);
      assert r.Some? ==> exists i :: 1 <= i < |users| && users[i] == r.value && p(users[i])
                                   && forall j :: 0 <= j < i ==> !p(users[j]) by {
        if r.Some? {
          var k :| 0 <= k < |users[1..]| && users[1..][k] == r.value && p(users[1..][k])
                   && forall j :: 0 <= j < k ==> !p(users[1..][j]);
          assert forall j :: 1 <= j < k + 1 ==> users[j] == users[1..][j - 1];
        }
      }
      r
  }

  // --- Workouts --------------------------------------------------------------

  /** POST /api/workouts. */
  function PostWorkout(st: State, body: WorkoutBody, now: Reading): (r: Step)
    ensures Missing(body.userId, body.description) ==> r == Step(st, BadRequest(MissingFields))
    ensures !Missing(body.userId, body.description) ==>
      && r.response.WorkoutCreated?
      && r.state == st.(workouts := st.workouts + [r.response.workout])
    ensures r.response.WorkoutCreated? ==>
      var w := r.response.workout;
      && w.userId == body.userId && w.description == body.description
      && w.id == now.millis && w.date == now.iso
      && (Falsy(body.duration) ==> w.duration == Num(0.0))
      && (!Falsy(body.duration) ==> w.duration == body.duration)
  {
    if Missing(body.userId, body.description) then Step(st, BadRequest(MissingFields))
    else
      var duration := if Falsy(body.duration) then Num(0.0) else body.duration;
      var w := Workout(now.millis, body.userId, body.description, duration, now.iso);
      Step(st.(workouts := st.workouts + [w]), WorkoutCreated(w))
  }

  /** `w.userId == req.params.userId`, loosely. */
  predicate WorkoutOf(w: Workout, userId: string) {
    LooseEquals(w.userId, Str(userId))
  }

  /** GET /api/workouts/:userId. */
  function GetWorkouts(st: State, userId: string): (r: Step)
    ensures r.state == st && r.response.Workouts?
    ensures IsSubsequence(r.response.workouts, st.workouts)
    ensures forall i :: 0 <= i < |r.response.workouts| ==> WorkoutOf(r.response.workouts[i], userId)
    ensures forall i :: 0 <= i < |st.workouts| && WorkoutOf(st.workouts[i], userId) ==>
              st.workouts[i] in r.response.workouts
    ensures forall i :: 0 <= i < |st.workouts| && WorkoutOf(st.workouts[i], userId) ==>
              Occurrences(r.response.workouts, st.workouts[i]) == Occurrences(st.workouts, st.workouts[i])
  {
    Step(st, Workouts(Filter(st.workouts, w => WorkoutOf(w, userId))))
  }

  // --- Meals -----------------------------------------------------------------

  /** A macro stored from body field `v`: a JSON number as given (negative
      ones included), what `Number` reads from a string or a boolean, and 0
      for any falsy value and for anything `Number` cannot read. */
  predicate MacroFrom(v: Value, x: real) {
    && (v.Num? ==> x == v.n)
    && (ToNumber(v).Finite? ==> x == ToNumber(v).r)
    && (Falsy(v) ==> x == 0.0)
    && (ToNumber(v).NaN? ==> x == 0.0)
  }

  /** The meal record a POST /api/meals body creates: each macro is `Number(x) || 0`. */
  function NewMeal(body: MealBody, now: Reading): (m: Meal)
    ensures m.id == now.millis && m.date == now.iso
    ensures m.userId == body.userId && m.description == body.description
    ensures MacroFrom(body.calories, m.calories) && MacroFrom(body.protein, m.protein)
    ensures MacroFrom(body.carbs, m.carbs) && MacroFrom(body.fats, m.fats)
  {
    Meal(now.millis, body.userId, body.description,
         NumberOrZero(body.calories), NumberOrZero(body.protein),
         NumberOrZero(body.carbs), NumberOrZero(body.fats), now.iso)
  }

  /** A meal counted in `dailyTotals`: the posted `userId` under `===`, dated on `day`. */
  predicate LoggedOn(m: Meal, userId: Value, day: string) {
    m.userId == userId && Includes(m.date, day)
  }

  function MealsLoggedOn(meals: seq<Meal>, userId: Value, day: string): seq<Meal> {
    Filter(meals, m => LoggedOn(m, userId, day))
  }

  function Calories(m: Meal): real { m.calories }
  function Protein(m: Meal): real { m.protein }

  /** The calorie and protein sums of `meals`, zero for none. */
  function Totals(meals: seq<Meal>): DailyTotals {
    DailyTotals(SumBy(meals, Calories), SumBy(meals, Protein))
  }

  /** `users.find(u => u.id == userId)`. */
  function UserFor(users: seq<User>, userId: Value): Option<User> {
    FindUser(users, (u: User) => LooseEquals(Num(u.id), userId))
  }

  /** POST /api/meals. `created` stamps the new meal; `today` is the later
      reading whose date part selects the meals in `dailyTotals`. When no user
      matches, the meal has already been stored and the handler throws. */
  function PostMeal(st: State, body: MealBody, created: Reading, today: string): (r: Step)
    ensures Missing(body.userId, body.description) ==> r == Step(st, BadRequest(MissingFields))
    ensures !Missing(body.userId, body.description) ==>
      && r.state.workouts == st.workouts && r.state.users == st.users
      && |r.state.meals| == |st.meals| + 1
      && r.state.meals[..|st.meals|] == st.meals
      && r.state.meals[|st.meals|] == NewMeal(body, created)
    ensures !Missing(body.userId, body.description) ==>
      (r.response.InternalError? <==> UserFor(st.users, body.userId).None?)
    ensures !Missing(body.userId, body.description) && UserFor(st.users, body.userId).Some? ==>
      && r.response.MealCreated?
      && r.response.meal == NewMeal(body, created)
      && r.response.dailyTotals == Totals(MealsLoggedOn(r.state.meals, body.userId, DayOf(today)))
      && r.response.remainingCalories
         == UserFor(st.users, body.userId).value.dailyCalorieGoal - r.response.dailyTotals.calories
  {
    if Missing(body.userId, body.description) then Step(st, BadRequest(MissingFields))
    else
      var meal := NewMeal(body, created);
      var next := st.(meals := st.meals + [meal]);
      var totals := Totals(MealsLoggedOn(next.meals, body.userId, DayOf(today)));
      match UserFor(st.users, body.userId)
      case None => Step(next, InternalError)
      case Some(u) => Step(next, MealCreated(meal, totals, u.dailyCalorieGoal - totals.calories))
  }

  /** `m.userId == req.params.userId`, loosely. */
  predicate MealOf(m: Meal, userId: string) {
    LooseEquals(m.userId, Str(userId))
  }

  /** The optional `date` query filter applies when it is present and non-empty. */
  predicate OnDate(m: Meal, date: Option<string>) {
    date.None? || date.value == [] || Includes(m.date, date.value)
  }

  /** GET /api/meals/:userId?date=…  (`date` is `None` when the query omits it). */
  function GetMeals(st: State, userId: string, date: Option<string>): (r: Step)
    ensures r.state == st && r.response.Meals?
    ensures IsSubsequence(r.response.meals, st.meals)
    ensures forall i :: 0 <= i < |r.response.meals| ==>
              MealOf(r.response.meals[i], userId) && OnDate(r.response.meals[i], date)
    ensures forall i :: 0 <= i < |st.meals| && MealOf(st.meals[i], userId) && OnDate(st.meals[i], date) ==>
              st.meals[i] in r.response.meals
    ensures forall i :: 0 <= i < |st.meals| && MealOf(st.meals[i], userId) && OnDate(st.meals[i], date) ==>
              Occurrences(r.response.meals, st.meals[i]) == Occurrences(st.meals, st.meals[i])
  {
    var mine := Filter(st.meals, m => MealOf(m, userId));
    if date.Some? && date.value != [] then
      FilterFilter(st.meals, m => MealOf(m, userId), (m: Meal) => Includes(m.date, date.value));
      Step(st, Meals(Filter(mine, (m: Meal) => Includes(m.date, date.value))))
    else
      Step(st, Meals(mine))
  }

  // --- Profile ---------------------------------------------------------------

  /** `u.id == Number(req.params.userId)`: NaN matches no user. */
  predicate HasRouteId(u: User, userId: string) {
    StringToNumber(userId) == Finite(u.id)
  }

  /** A record of user `u` under `record.userId == user.id`, loosely. */
  predicate Owns(u: User, userId: Value) {
    LooseEquals(userId, Num(u.id))
  }

  /** A meal of user `u` whose date contains `day`. */
  predicate OwnsOn(u: User, m: Meal, day: string) {
    Owns(u, m.userId) && Includes(m.date, day)
  }

  /** The meals of user `u`. */
  function MealsOf(meals: seq<Meal>, u: User): seq<Meal> {
    Filter(meals, (m: Meal) => Owns(u, m.userId))
  }

  /** The meals of user `u` whose date contains `day`. */
  function MealsOfOn(meals: seq<Meal>, u: User, day: string): seq<Meal> {
    Filter(meals, (m: Meal) => OwnsOn(u, m, day))
  }

  /** The workouts of user `u`. */
  function WorkoutsOf(workouts: seq<Workout>, u: User): seq<Workout> {
    Filter(workouts, (w: Workout) => Owns(u, w.userId))
  }

  /** The user GET /api/profile/:userId reports on, if any. */
  function ProfileUser(users: seq<User>, userId: string): Option<User> {
    FindUser(users, (u: User) => HasRouteId(u, userId))
  }

  /** GET /api/profile/:userId, with `today` the reading that fixes the day. */
  function GetProfile(st: State, userId: string, today: string): (r: Step)
    ensures r.state == st
    ensures r.response.NotFound? <==> forall i :: 0 <= i < |st.users| ==> !HasRouteId(st.users[i], userId)
    ensures !r.response.NotFound? ==> r.response.Profile?
    ensures r.response.Profile? ==>
      var u := ProfileUser(st.users, userId).value;
      && r.response.username == u.username && r.response.email == u.email
      && r.response.dailyCalorieGoal == u.dailyCalorieGoal
      && r.response.totalWorkouts == |WorkoutsOf(st.workouts, u)|
      && r.response.totalMeals == |MealsOf(st.meals, u)|
      && r.response.todayCalories == SumBy(MealsOfOn(st.meals, u, DayOf(today)), Calories)
      && r.response.todayProtein == SumBy(MealsOfOn(st.meals, u, DayOf(today)), Protein)
  {
    match ProfileUser(st.users, userId)
    case None => Step(st, NotFound("User not found"))
    case Some(u) =>
      var todays := MealsOfOn(st.meals, u, DayOf(today));
      Step(st, Profile(u.username, u.email, u.dailyCalorieGoal,
                       |WorkoutsOf(st.workouts, u)|, |MealsOf(st.meals, u)|,
                       SumBy(todays, Calories), SumBy(todays, Protein)))
  }

  // --- Nutrition analysis ----------------------------------------------------

  /** POST /api/analyze-meal, with the table lookup as the handler writes it
      (inherited property names included). A truthy description that is not a
      string has no `toLowerCase` method, so the handler throws. */
  function AnalyzeMeal(st: State, description: Value): (r: Step)
    ensures r.state == st
    ensures Falsy(description) <==> r.response == BadRequest("Description required")
    ensures description.Str? && description.s != [] ==>
              r.response == Analyzed(MealAnalyzer.AnalyzeAsWritten(description.s))
    ensures !Falsy(description) && !description.Str? ==> r.response.InternalError?
  {
    if Falsy(description) then Step(st, BadRequest("Description required"))
    else match description
      case Str(s) => Step(st, Analyzed(MealAnalyzer.AnalyzeAsWritten(s)))
      case _ => Step(st, InternalError)
  }

  // --- Dispatch --------------------------------------------------------------

  datatype Request =
    | PostWorkoutRequest(workout: WorkoutBody, now: Reading)
    | GetWorkoutsRequest(userId: string)
    | PostMealRequest(meal: MealBody, created: Reading, today: string)
    | GetMealsRequest(userId: string, date: Option<string>)
    | GetProfileRequest(userId: string, today: string)
    | AnalyzeMealRequest(description: Value)

  function Handle(st: State, req: Request): Step {
    match req
    case PostWorkoutRequest(body, now) => PostWorkout(st, body, now)
    case GetWorkoutsRequest(userId) => GetWorkouts(st, userId)
    case PostMealRequest(body, created, today) => PostMeal(st, body, created, today)
    case GetMealsRequest(userId, date) => GetMeals(st, userId, date)
    case GetProfileRequest(userId, today) => GetProfile(st, userId, today)
    case AnalyzeMealRequest(description) => AnalyzeMeal(st, description)
  }

  /** The state after serving `reqs` in order. */
  function Run(st: State, reqs: seq<Request>): State
    decreases |reqs|
  {
    if reqs == [] then st else Run(Handle(st, reqs[0]).state, reqs[1..])
  }
}
