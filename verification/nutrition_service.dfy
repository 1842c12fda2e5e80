/** The nutrition summaries computed by MongoDB aggregation pipelines: the
    meals of one user in a time window, flattened to their food items
    (`$unwind`), summed (`$group`), and for the week grouped by weekday and
    sorted. Instants are integer milliseconds; the calendar arithmetic of the
    server's `Date` is a parameter, and `$dayOfWeek` is evaluated in UTC. */
module NutritionService {
  import opened Wrappers
  import opened Seqs

  const MsPerDay: int := 86_400_000

  /** The server's `Date` arithmetic on instants, left abstract because these
      methods work in the local time zone of the server process. */
  datatype Calendar = Calendar(
    startOfDay: int -> int,         // d.setHours(0, 0, 0, 0)
    endOfDay: int -> int,           // d.setHours(23, 59, 59, 999)
    daysBefore: (int, int) -> int   // d.setDate(d.getDate() - n)
  )

  /** The calendar of a server running in UTC, where every day has 24 hours. */
  const Utc := Calendar(
    t => t - t % MsPerDay,
    t => t - t % MsPerDay + MsPerDay - 1,
    (t, n) => t - n * MsPerDay
  )

  /** `$dayOfWeek` of an instant, 1 for Sunday to 7 for Saturday. Without a
      `timezone` argument the database evaluates it in UTC, whatever the
      server's zone; 1 January 1970 was a Thursday. */
  function UtcDayOfWeek(t: int): int {
    (t / MsPerDay + 4) % 7 + 1
  }

  /** An opaque user id (a database object id). */
  type UserKey = string

  /** The nutrition of one food item; a field the document lacks (or holds a
      non-number in) is `None`, which `$sum` skips. */
  datatype Nutrition = Nutrition(calories: Option<real>, protein: Option<real>,
                                 carbs: Option<real>, fats: Option<real>)

  datatype Food = Food(nutrition: Nutrition)

  /** A stored meal as the pipelines read it: an owner, an instant and food items. */
  datatype MealEntry = MealEntry(user: UserKey, date: int, foods: seq<Food>)

  /** One document leaving `$unwind`: a food item carrying its meal's date. */
  datatype Item = Item(date: int, nutrition: Nutrition)

  function Amount(v: Option<real>): real {
    v.GetOr(0.0)
  }

  function Calories(it: Item): real { Amount(it.nutrition.calories) }
  function Protein(it: Item): real { Amount(it.nutrition.protein) }
  function Carbs(it: Item): real { Amount(it.nutrition.carbs) }
  function Fats(it: Item): real { Amount(it.nutrition.fats) }

  // --- The pipeline stages ---------------------------------------------------

  /** `t` lies in the window from `lo`, up to and including `hi` when there is one. */
  predicate InWindow(lo: int, hi: Option<int>, t: int) {
    lo <= t && (hi.None? || t <= hi.value)
  }

  /** `$match: { user: userId, date: { $gte: lo, $lte: hi } }`. */
  predicate Matches(userId: UserKey, lo: int, hi: Option<int>, m: MealEntry) {
    m.user == userId && InWindow(lo, hi, m.date)
  }

  /** The items one meal contributes to `$unwind: '$foods'`. */
  function ItemsOf(m: MealEntry): (items: seq<Item>)
    ensures |items| == |m.foods|
    ensures forall i :: 0 <= i < |items| ==> items[i] == Item(m.date, m.foods[i].nutrition)
  {
    seq(|m.foods|, i requires 0 <= i < |m.foods| => Item(m.date, m.foods[i].nutrition))
  }

  /** `$unwind: '$foods'`: one document per food item, meal by meal; a meal
      without food items contributes nothing. */
  function Unwind(meals: seq<MealEntry>): (items: seq<Item>)
    ensures forall i :: 0 <= i < |items| ==> exists j :: 0 <= j < |meals| && items[i] in ItemsOf(meals[j])
  {
    if meals == [] then []
    else
      var rest := Unwind(meals[1..]);
      var items := ItemsOf(meals[0]) + rest;
      assert forall i :: |ItemsOf(meals[0])| <= i < |items| ==> items[i] == rest[i - |ItemsOf(meals[0])|];
      items
  }

  /** The items that reach the `$group` stage. */
  function WindowItems(meals: seq<MealEntry>, userId: UserKey, lo: int, hi: Option<int>): seq<Item> {
    Unwind(Filter(meals, (m: MealEntry) => Matches(userId, lo, hi, m)))
  }

  /** The accumulators of a `$group` stage. */
  datatype Totals = Totals(calories: real, protein: real, carbs: real, fats: real, meals: nat)

  /** `{ calories: 0, protein: 0, carbs: 0, fats: 0, meals: 0 }`. */
  const NoTotals := Totals(0.0, 0.0, 0.0, 0.0, 0)

  /** One more document through the accumulators: four `$sum`s and `meals: { $sum: 1 }`. */
  function AddItem(t: Totals, it: Item): Totals {
    Totals(t.calories + Calories(it), t.protein + Protein(it), t.carbs + Carbs(it), t.fats + Fats(it), t.meals + 1)
  }

  /** The accumulators after the items have passed in order. */
  function Accumulate(items: seq<Item>): (t: Totals)
    ensures t == Totals(SumBy(items, Calories), SumBy(items, Protein), SumBy(items, Carbs),
                        SumBy(items, Fats), |items|)
  {
    if items == [] then NoTotals
    else
      var init := items[..|items| - 1];
      var last := items[|items| - 1];
      assert items == init + [last];
      SumAppend(init, last, Calories);
      SumAppend(init, last, Protein);
      SumAppend(init, last, Carbs);
      SumAppend(init, last, Fats);
      AddItem(Accumulate(init), last)
  }

  /** `$group` with `_id: null`: one document when any item reaches it, none otherwise. */
  function GroupAll(items: seq<Item>): (g: Option<Totals>)
    ensures g.None? <==> items == []
    ensures g.Some? ==> g.value == Totals(SumBy(items, Calories), SumBy(items, Protein), SumBy(items, Carbs),
                                          SumBy(items, Fats), |items|)
  {
    if items == [] then None else Some(Accumulate(items))
  }

  // --- Daily summary ---------------------------------------------------------

  datatype DailySummary = DailySummary(calories: real, protein: real, carbs: real, fats: real,
                                       meals: nat, remainingCalories: real, goal: real)

  /** `user.dailyCalorieGoal` read from a user that does not exist. */
  datatype ServiceError = UserNotFound

  /** The window of the day containing `date`: from its first to its last millisecond. */
  function DayWindowStart(cal: Calendar, date: int): int { cal.startOfDay(date) }
  function DayWindowEnd(cal: Calendar, date: int): int { cal.endOfDay(date) }

  /** The items of `userId`'s meals on the day of `date`. */
  function DayItems(meals: seq<MealEntry>, userId: UserKey, date: int, cal: Calendar): seq<Item> {
    WindowItems(meals, userId, DayWindowStart(cal, date), Some(DayWindowEnd(cal, date)))
  }

  /** The summary built from the items that reached `$group`: the totals, or
      the zero default when no document came out, and the calories left of
      the goal. `goal` is the user's `dailyCalorieGoal`, `None` when no user
      has the id. */
  function Summarize(items: seq<Item>, goal: Option<real>): (r: Result<DailySummary, ServiceError>)
    ensures r.Err? <==> goal.None?
    ensures r.Ok? ==>
      && r.value.calories == SumBy(items, Calories) && r.value.protein == SumBy(items, Protein)
      && r.value.carbs == SumBy(items, Carbs) && r.value.fats == SumBy(items, Fats)
      && r.value.meals == |items|
      && r.value.goal == goal.value
      && r.value.remainingCalories == goal.value - r.value.calories
  {
    var totals := GroupAll(items).GetOr(NoTotals);
    match goal
    case None => Err(UserNotFound)
    case Some(g) =>
      Ok(DailySummary(totals.calories, totals.protein, totals.carbs, totals.fats, totals.meals,
                      g - totals.calories, g))
  }

  /** `getDailySummary(userId, date)`: the summary of the user's food items
      between the first and the last millisecond of the day of `date`. */
  function GetDailySummary(meals: seq<MealEntry>, userId: UserKey, date: int, cal: Calendar,
                           goal: Option<real>): (r: Result<DailySummary, ServiceError>)
    ensures r.Err? <==> goal.None?
    ensures r.Ok? ==>
      var items := DayItems(meals, userId, date, cal);
      && r.value.calories == SumBy(items, Calories) && r.value.protein == SumBy(items, Protein)
      && r.value.carbs == SumBy(items, Carbs) && r.value.fats == SumBy(items, Fats)
      && r.value.meals == |items|
      && r.value.goal == goal.value
      && r.value.remainingCalories == goal.value - r.value.calories
  {
    Summarize(DayItems(meals, userId, date, cal), goal)
  }

  // --- Weekly summary --------------------------------------------------------

  /** One output document of the weekly pipeline. */
  datatype WeekdayRow = WeekdayRow(day: int, calories: real, protein: real, meals: nat)

  /** Rows in strictly increasing `day` order, so no two share a day. */
  predicate Ascending(rows: seq<WeekdayRow>) {
    forall i, j :: 0 <= i < j < |rows| ==> rows[i].day < rows[j].day
  }

  /** The row for weekday `d`, if there is one. */
  function RowFor(rows: seq<WeekdayRow>, d: int): Option<WeekdayRow> {
    if rows == [] then None
    else if rows[0].day == d then Some(rows[0])
    else RowFor(rows[1..], d)
  }

  /** The items falling on weekday `d` of the weekday numbering `dow`. */
  function Bucket(dow: int -> int, items: seq<Item>, d: int): seq<Item> {
    Filter(items, (it: Item) => dow(it.date) == d)
  }

  /** The row the weekly `$group` stage produces for the items of weekday `d`. */
  function BucketRow(dow: int -> int, items: seq<Item>, d: int): WeekdayRow {
    var b := Bucket(dow, items, d);
    WeekdayRow(d, SumBy(b, Calories), SumBy(b, Protein), |b|)
  }

  /** The row of weekday `d` after one more of its items. */
  function AddToRow(row: WeekdayRow, it: Item): WeekdayRow {
    WeekdayRow(row.day, row.calories + Calories(it), row.protein + Protein(it), row.meals + 1)
  }

  /** Adds item `it` of weekday `d` to the row of `d`, keeping the rows in day order. */
  function Insert(rows: seq<WeekdayRow>, d: int, it: Item): seq<WeekdayRow> {
    if rows == [] then [AddToRow(WeekdayRow(d, 0.0, 0.0, 0), it)]
    else if rows[0].day == d then [AddToRow(rows[0], it)] + rows[1..]
    else if d < rows[0].day then [AddToRow(WeekdayRow(d, 0.0, 0.0, 0), it)] + rows
    else [rows[0]] + Insert(rows[1..], d, it)
  }

  /** The rows are exactly the non-empty weekday buckets of `items`, in day order. */
  ghost predicate GroupsOf(dow: int -> int, items: seq<Item>, rows: seq<WeekdayRow>) {
    && Ascending(rows)
    && forall d :: RowFor(rows, d) == if Bucket(dow, items, d) == [] then None else Some(BucketRow(dow, items, d))
  }

  lemma RowForBelowFirst(rows: seq<WeekdayRow>, d: int)
    requires Ascending(rows) && rows != [] && d < rows[0].day
    ensures RowFor(rows, d) == None
    decreases |rows|
  {
    if |rows| > 1 {
      RowForBelowFirst(rows[1..], d);
    }
  }

  /** Inserting an item changes the row of its weekday only, and keeps the order. */
  lemma {:induction false} InsertEffect(rows: seq<WeekdayRow>, d: int, it: Item, k: int)
    requires Ascending(rows)
    ensures Ascending(Insert(rows, d, it))
    ensures Insert(rows, d, it) != [] && Insert(rows, d, it)[0].day == (if rows == [] || d < rows[0].day then d else rows[0].day)
    ensures RowFor(Insert(rows, d, it), k)
            == if k == d then Some(AddToRow(RowFor(rows, d).GetOr(WeekdayRow(d, 0.0, 0.0, 0)), it)) else RowFor(rows, k)
    decreases |rows|
  {
    var r := Insert(rows, d, it);
    if rows == [] {
    } else if rows[0].day == d {
      assert r[1..] == rows[1..];
    } else if d < rows[0].day {
      assert r[1..] == rows;
      RowForBelowFirst(rows, d);
    } else {
      InsertEffect(rows[1..], d, it, k);
      assert r[1..] == Insert(rows[1..], d, it);
    }
  }

  /** The weekday bucket of an item just appended gains that item; the others stay. */
  lemma BucketRowAppend(dow: int -> int, items: seq<Item>, it: Item, k: int)
    ensures Bucket(dow, items + [it], k)
            == Bucket(dow, items, k) + (if dow(it.date) == k then [it] else [])
    ensures dow(it.date) == k ==> BucketRow(dow, items + [it], k) == AddToRow(BucketRow(dow, items, k), it)
  {
    var p := (x: Item) => dow(x.date) == k;
    FilterAppend(items, it, p);
    if dow(it.date) == k {
      SumAppend(Filter(items, p), it, Calories);
      SumAppend(Filter(items, p), it, Protein);
    }
  }

  /** `$group: { _id: { $dayOfWeek: '$date' }, … }` followed by `$sort: { day: 1 }`:
      the rows are built in day order as the items arrive. */
  function GroupByWeekday(dow: int -> int, items: seq<Item>): (rows: seq<WeekdayRow>)
    ensures GroupsOf(dow, items, rows)
  {
    if items == [] then []
    else
      var init := items[..|items| - 1];
      var it := items[|items| - 1];
      assert items == init + [it];
      var d := dow(it.date);
      var before := GroupByWeekday(dow, init);
      var rows := Insert(before, d, it);
      forall k
        ensures RowFor(rows, k) == if Bucket(dow, items, k) == [] then None else Some(BucketRow(dow, items, k))
      {
        InsertEffect(before, d, it, k);
        BucketRowAppend(dow, init, it, k);
        assert RowFor(before, k) == if Bucket(dow, init, k) == [] then None else Some(BucketRow(dow, init, k));
        if k == d {
          assert RowFor(before, d).GetOr(WeekdayRow(d, 0.0, 0.0, 0)) == BucketRow(dow, init, d);
          assert Bucket(dow, items, k) != [];
          assert RowFor(rows, k) == Some(BucketRow(dow, items, k));
        } else {
          assert Bucket(dow, items, k) == Bucket(dow, init, k);
          assert RowFor(rows, k) == RowFor(before, k);
        }
      }
      InsertEffect(before, d, it, d);
      rows
  }

  /** The first instant of the weekly window: midnight seven days before `now`. */
  function WeekStart(cal: Calendar, now: int): int {
    cal.startOfDay(cal.daysBefore(now, 7))
  }

  /** The items of `userId`'s meals from the start of the weekly window on. */
  function WeekItems(meals: seq<MealEntry>, userId: UserKey, now: int, cal: Calendar): seq<Item> {
    WindowItems(meals, userId, WeekStart(cal, now), None)
  }

  /** `getWeeklySummary(userId)`, with `now` the reading of the clock. */
  function GetWeeklySummary(meals: seq<MealEntry>, userId: UserKey, now: int, cal: Calendar): (rows: seq<WeekdayRow>)
    ensures GroupsOf(UtcDayOfWeek, WeekItems(meals, userId, now, cal), rows)
  {
    GroupByWeekday(UtcDayOfWeek, WeekItems(meals, userId, now, cal))
  }
}
