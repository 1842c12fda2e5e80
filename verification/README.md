# fit-tracker nutrition core, modelled in Dafny

This project models the meal-logging and nutrition-aggregation logic of the
fit-tracker backend and proves properties of it. It covers three parts of the system.

- **The in-memory Express API** (`backend/server.js`).
  - The state is three arrays: `workouts`, `meals` and `users`.
  - Each handler is a pure function from the state and a request to the next state and a response.
  - The handlers are POST/GET workouts, POST/GET meals, GET profile and the mock meal analyser.
  - Request bodies are modelled as JavaScript values (`undefined`, `null`, booleans, numbers, strings).
  - The model follows the JavaScript semantics the handlers rely on:
    - falsiness (`!userId`);
    - `Number(x) || 0`, with decimal parsing of strings;
    - loose `==` versus strict `===` in the user-id comparisons;
    - `String.prototype.includes`, `split('T')[0]` and `toLowerCase`.
  - Clock readings (`Date.now()` and `new Date().toISOString()`) are inputs.
- **The summary engine** (`backend/services/nutritionService.js`).
  - The model says what the MongoDB aggregation pipelines mean:
    - filter the meals by user and time window;
    - flatten their food items (`$unwind`);
    - sum the nutrition fields, with a zero default when nothing matches;
    - subtract the calories from the goal.
  - For the week, the items are grouped by weekday into rows sorted by day.
  - Instants are integer milliseconds.
  - The server's `setHours` and `setDate` are an abstract `Calendar`, and a concrete UTC calendar (24-hour days) is used for the day-window lemmas.
  - `$dayOfWeek` is the UTC weekday, since the pipeline passes it no `timezone`.
- **The meal schema** (`backend/app/nutrients/Meal.js`).
  - It is modelled as a defaults-filling step (the trim setter, zero macros, the default date) followed by validation (required paths, `min: 0`).
  - Both feed a `Create` function that returns the document or the list of violations.

Files:
- `wrappers.dfy`: `Option` and `Result`.
- `seqs.dfy`: filtering, sums and the subsequence relation.
- `js_strings.dfy`: `includes`, `split`, `toLowerCase`, `trim`.
- `js_values.dfy`: JavaScript values, `Number(x)` and loose equality.
- `meal_analyzer.dfy`: the analyser.
- `server.dfy` and `server_properties.dfy`: the API and its properties.
- `nutrition_service.dfy` and `nutrition_properties.dfy`: the summary engine and its properties.
- `meal_schema.dfy` and `meal_schema_properties.dfy`: the schema and its properties.

Points of the code's behaviour that the model keeps as written:
- **Day window.** The daily `$match` is inclusive at both ends: `$gte` 00:00:00.000 and `$lte` 23:59:59.999. On integer milliseconds and a 24-hour day this is the half-open day [midnight, next midnight) (`NutritionProperties.UtcDayIsHalfOpen`).
- **No clamping.** `server.js` stores `Number(x) || 0` as it is, so negative macros and negative remaining calories occur (`ServerProperties.NegativeCaloriesStored`, `ServerProperties.OverGoalIsNegative`). Only the Mongoose schema enforces `min: 0`.
- **No default goal.** Both `getDailySummary` and `POST /api/meals` read `dailyCalorieGoal` of the looked-up user, so a missing user is an error:
  - `getDailySummary` throws (`Err(UserNotFound)`);
  - `POST /api/meals` throws after storing the meal (`InternalError`).
- **`meals` counts food items.** The pipeline's `meals: { $sum: 1 }` runs after `$unwind`, so it counts one per food, not one per meal.
- **Meal shape.** The summary engine reads `user` and `foods[].nutrition`, which `Meal.js` does not declare. The engine therefore has its own `MealEntry` type.

## Model

| member | source | states |
|---|---|---|
| Server.PostWorkout | backend/server.js:17-31 | A falsy `userId` or `description` gives 400 "Missing required fields" and the same state. Otherwise exactly one workout is appended at the end, carrying the body's `userId` and `description`, the clock's id and ISO date, and `duration` when truthy, else 0. |
| Server.GetWorkouts | backend/server.js:33-36 | The state is unchanged. The list is a subsequence of `workouts` in insertion order, holding exactly the workouts whose `userId` loosely equals the route parameter, each as often as it occurs in `workouts`. |
| Server.PostMeal | backend/server.js:39-73 | A falsy `userId` or `description` gives 400 and the same state. Otherwise the meal is appended with each macro set to `Number(x)`, or 0 when that is NaN or 0, and the earlier meals and other arrays are untouched. The answer is 500 exactly when no user id loosely equals `userId`, and the meal stays stored. Otherwise `dailyTotals` sums calories and protein over the meals whose `userId` is strictly equal and whose date contains today's date part, and `remainingCalories` is the user's goal minus those calories. |
| Server.GetMeals | backend/server.js:75-84 | The state is unchanged. The list is a subsequence of `meals` in insertion order: exactly the meals whose `userId` loosely equals the parameter and, when a non-empty date is given, whose date contains it, each as often as it occurs in `meals`. |
| Server.GetProfile | backend/server.js:87-110 | 404 exactly when no user id loosely equals `Number(param)`. Otherwise: the first such user's name, email and goal, its numbers of workouts and meals, and the calorie and protein sums of its meals dated today. |
| Server.NewMeal | backend/server.js:46-55 | The stored meal carries the body's `userId` and `description`, the clock's id and ISO date, and each macro as `Number(x) || 0`: a JSON number as given, negatives included, the number `Number` reads from a string or a boolean, and 0 for a falsy value or one `Number` reads as NaN. |
| Server.AnalyzeMeal | backend/server.js:113-135 | A falsy description gives 400 "Description required". A string description gets the analysis as written, `MealAnalyzer.AnalyzeAsWritten`, inherited property names included. Any other truthy value throws (500). The state never changes. |
| Server.FindUser | backend/server.js:71 | `Array.prototype.find`: nothing exactly when no element satisfies the test, otherwise an element that does. |
| ServerProperties.HandleExtends | backend/server.js:29-57 | Every request keeps `users` and keeps all earlier workouts and meals as a prefix: the server only appends. |
| ServerProperties.RunExtends | backend/server.js:10-14 | Any sequence of requests turns the state into an extension of itself. |
| ServerProperties.RejectedOrReadOnlyKeepsState | backend/server.js:17-135 | A request answered with 400 or 404, and every GET or analyse request, leaves the state as it was. |
| ServerProperties.NewMealCountedOnItsDay | backend/server.js:57-65 | The posted meal is in `dailyTotals` exactly when its own timestamp contains today's date. The totals are then the earlier day totals plus its calories and protein, or the earlier totals unchanged. |
| ServerProperties.SeedUserFound | backend/server.js:12-14 | The seeded user with id 1 is the one found for the numeric id 1. |
| ServerProperties.TwoMealsExample | backend/server.js:60-71 | From the start state, rice (200 kcal, 4 g protein) then chicken (165, 31) give daily totals 365 and 35 and 1635 calories remaining. |
| ServerProperties.OverGoalIsNegative | backend/server.js:71 | A 2500 kcal meal for the seeded user leaves −500 calories remaining: the value is not clamped. |
| ServerProperties.UnknownUserStillStores | backend/server.js:57-71 | For an id no user has, the meal is appended and the answer is a 500. |
| ServerProperties.NegativeCaloriesStored | backend/server.js:50 | A negative calorie number is stored as given. |
| ServerProperties.ListAfterPost | backend/server.js:75-84 | After a meal POST, GET meals lists what it listed before, followed by the new meal exactly when it passes the user and date filters. |
| ServerProperties.ProfileAfterPost | backend/server.js:93-102 | After a meal POST, the profile's meal count grows by one exactly when the meal loosely belongs to the user. Its workout count is unchanged. Today's calories grow by the meal's calories exactly when it is also dated today. |
| ServerProperties.TodaysCaloriesAppend | backend/server.js:96-98 | Today's calorie sum over meals plus one more meal is the old sum, plus that meal's calories if it is the user's and dated today. |
| ServerProperties.ProfileAgreesWithDailyTotals | backend/server.js:96-98 | When loose and strict user-id comparison pick the same meals, the profile's `todayCalories` equals the POST handler's `dailyTotals.calories`. |
| ServerProperties.StrictTotalsSkipStringId | backend/server.js:61 | A meal stored under the string id "n" is missing from `dailyTotals` for a later POST under the number n. |
| ServerProperties.LooseProfileCountsBoth | backend/server.js:94-101 | The profile of user n counts meals stored under both "n" and n. |
| ServerProperties.MixedIdTypesSplitTotals | backend/server.js:61 | Posting under "n" and then n: the second `dailyTotals` holds only the second meal, while the profile's `todayCalories` holds both. |
| ServerProperties.AnalyzeMealElsewhereCorrect | backend/server.js:123-133 | For a description whose lower-case form is not an inherited property name, the handler answers the corrected analysis. |
| ServerProperties.AnalyzeMealMisreadsConstructor | backend/server.js:123-133 | For any capitalisation of "constructor" the handler answers no macros with confidence 0.9. |
| ServerProperties.DayTotalsBounded | backend/server.js:60-65 | Over non-negative meals, the day totals lie between 0 and the totals of all meals. |
| ServerProperties.RemainingAtMostGoal | backend/server.js:71 | Over non-negative meals, the remaining calories never exceed the user's goal. |
| MealAnalyzer.Lookup | backend/server.js:118-121 | The entry for a key exists exactly when some table key equals it, and the result is one of the table's pairs. |
| MealAnalyzer.Analyze | backend/server.js:118-134 | The name echoes the input. Confidence is 0.9 exactly when the lower-cased description is a table key, and the macros are then that entry's. Otherwise the macros are {300, 15, 30, 10} with confidence 0.6. |
| MealAnalyzer.AnalyzeIgnoresCase | backend/server.js:123 | Descriptions equal after lower-casing get the same macros and confidence. |
| MealAnalyzer.ChickenBreastIsKnown | backend/server.js:120-133 | Any capitalisation of "chicken breast" gets {165, 31, 0, 3.6} with confidence 0.9. |
| MealAnalyzer.ReadProperty | backend/server.js:123 | A property read on `mockResults` finds an own entry exactly when the table has the key. It finds an inherited one exactly for `constructor` and `__proto__` otherwise. An own entry carries the table's macros for that key. |
| MealAnalyzer.AnalyzeAsWritten | backend/server.js:123-133 | As written, confidence is 0.9 for table keys and for the inherited names, and the macros are absent exactly for the inherited names. A table key gets that entry's macros, and any other description gets the {300, 15, 30, 10} estimate with confidence 0.6. |
| MealAnalyzer.AsWrittenAgreesElsewhere | backend/server.js:123-133 | Away from the inherited names, the handler as written and the corrected analysis agree. |
| MealAnalyzer.ConstructorIsMisread | backend/server.js:123-133 | Any capitalisation of "constructor" gets no macros with confidence 0.9 as written, and the fallback with 0.6 once corrected. |
| MealAnalyzer.ConstructorExample | backend/server.js:123-133 | The input "Constructor" shows the misread. |
| JsValues.ToNumber | backend/server.js:50-53 | `Number(undefined)` is NaN, every other falsy value gives 0, a number is itself, `true` is 1 and `false` is 0, and a string is read as a numeric literal. |
| JsValues.StringToNumber | backend/server.js:88 | A string of white space only, the empty one included, reads as 0. |
| JsValues.NonLiteralIsNaN | backend/server.js:50-53 | A string whose trimmed form holds any character other than a digit, `.`, `e`, `E`, `+` or `-` reads as NaN. |
| JsValues.WordIsZero | backend/server.js:50-53 | `Number("abc")` is NaN, so `Number("abc") \|\| 0` stores 0. |
| JsValues.ShiftIsPower | backend/server.js:50-53 | Moving the decimal point `e` places multiplies by ten to the power `e`, or divides by ten to the power `-e`. |
| JsValues.DecimalValueIsFraction | backend/server.js:50-53 | The digits after the point are worth their value over ten to the number of those digits. |
| JsValues.ParseDecimal | backend/server.js:50-53 | A literal `w.f` of digits, with at least one digit, reads as the whole part plus the fraction. |
| JsValues.ParseScientific | backend/server.js:50-53 | An exponent after `e` or `E`, with an optional sign, scales the mantissa's value by that power of ten. |
| JsValues.SignedLiteral | backend/server.js:50-53 | A leading `-` negates an unsigned literal and a leading `+` keeps it. |
| JsValues.StringToNumberFramed | backend/server.js:50-53 | White space before and after a literal does not change the number it reads as. |
| JsValues.FractionExample | backend/server.js:50-53 | `Number("3.6")` is 3.6. |
| JsValues.ExponentExample | backend/server.js:50-53 | `Number(" -2.5e1 ")` is -25. |
| JsValues.LooseEquals | backend/server.js:77 | `==` holds for identical values, and `undefined` and `null` equal exactly each other. A number equals exactly those other values, neither `undefined` nor `null`, that `Number` turns into it. Two strings are equal exactly when they are the same string, and two booleans exactly when they are the same. A boolean equals a string exactly when the string reads as 1 for `true` or 0 for `false`. Neither a string nor a boolean equals `undefined` or `null`. |
| JsValues.NumberOrZero | backend/server.js:50-53 | A macro from the body is 0 when `Number(x)` is NaN, otherwise that number (0 stays 0). |
| JsValues.NumberOrZeroKeepsNumbers | backend/server.js:50-53 | A JSON number passes through unchanged, negatives included. |
| JsValues.NumberOrZeroOfIntString | backend/server.js:50-53 | A decimal integer string becomes its integer, and `undefined` becomes 0. |
| JsValues.IntStringRoundTrip | backend/server.js:88 | `Number` of the decimal string of an integer is that integer. |
| JsValues.NumberMatchesItsString | backend/server.js:34 | Under loose `==` a number equals its decimal string, in both orders. |
| JsValues.LooseEqualsSymmetric | backend/server.js:77 | Loose `==` is symmetric. |
| JsValues.LooseEqualsNotTransitive | backend/server.js:77 | "1" == 1 and 1 == "01", but "1" != "01": loose `==` is not transitive. |
| JsValues.LeadingZeroIgnored | backend/server.js:88 | `Number("01")` is 1. |
| JsStrings.Includes | backend/server.js:61 | `s.includes(t)` holds exactly when `t` occurs in `s` at some index. |
| JsStrings.BeforeFirst | backend/server.js:61 | `split('T')[0]` is the longest prefix without the separator, followed by the separator when it is shorter than the string. |
| JsStrings.ToLower | backend/server.js:123 | `toLowerCase` keeps the length and lower-cases each character. |
| JsStrings.ToLowerIdempotent | backend/server.js:123 | Lower-casing twice is lower-casing once. |
| JsStrings.Trim | backend/app/nutrients/Meal.js:11 | The result has no white space at either end, and the input is the result framed by white space. |
| JsStrings.TrimIdempotent | backend/app/nutrients/Meal.js:11 | Trimming twice is trimming once. |
| JsStrings.TrimEmptyIffBlank | backend/app/nutrients/Meal.js:8-12 | Trimming gives the empty string exactly when the input is all white space. |
| Seqs.Filter | backend/server.js:77 | `filter` keeps exactly the elements satisfying the test, in order, as a subsequence, each as often as it occurs in the input. |
| Seqs.FilterFilter | backend/server.js:77-81 | Filtering by the user and then by the date equals filtering once by both. |
| NutritionService.ItemsOf | backend/services/nutritionService.js:15 | One item per food of the meal, each carrying the meal's date and the food's nutrition. |
| NutritionService.Unwind | backend/services/nutritionService.js:15 | Every unwound item is an item of one of the meals. |
| NutritionService.Accumulate | backend/services/nutritionService.js:16-23 | The accumulators after the items hold the four `$sum`s and the number of items. |
| NutritionService.GroupAll | backend/services/nutritionService.js:16-23 | `$group` with `_id: null` yields no document exactly when no item reaches it. Otherwise its document holds the four `$sum`s over the items and their count. |
| NutritionService.Summarize | backend/services/nutritionService.js:29-35 | Without a user it is an error. Otherwise it holds the sums, or zeros when nothing matched, `meals` equal to the number of items, the goal, and remaining calories of goal minus calories. |
| NutritionService.GetDailySummary | backend/services/nutritionService.js:5-36 | The sums run over the food items of the user's meals between 00:00:00.000 and 23:59:59.999 of the date. It is an error exactly when the user is missing. Otherwise it carries the user's goal, and the remaining calories are goal minus calories. |
| NutritionService.InsertEffect | backend/services/nutritionService.js:46-54 | Adding an item changes only its weekday's row and keeps the rows in day order. |
| NutritionService.BucketRowAppend | backend/services/nutritionService.js:46-53 | An appended item joins only its own weekday's bucket. |
| NutritionService.GroupByWeekday | backend/services/nutritionService.js:46-54 | For any weekday numbering of the items, the rows are strictly ascending by day. The row for a weekday exists exactly when some item falls on it, and it holds that bucket's calorie and protein sums and its item count. |
| NutritionService.GetWeeklySummary | backend/services/nutritionService.js:38-56 | The weekday rows are those of the user's items dated from midnight seven days before now, grouped by their UTC weekday. |
| NutritionProperties.UnwindConcat | backend/services/nutritionService.js:15 | `$unwind` distributes over concatenation of the meals. |
| NutritionProperties.UnwindAppend | backend/services/nutritionService.js:15 | Unwinding one more meal appends its items. |
| NutritionProperties.DayItemsAfterStore | backend/services/nutritionService.js:14-15 | After one more meal, the day's items gain its food items exactly when it matches the user and window. |
| NutritionProperties.DailyIgnoresOtherMeals | backend/services/nutritionService.js:14 | A meal of another user or outside the day does not change the daily summary. |
| NutritionProperties.DailyCountsNewMeal | backend/services/nutritionService.js:14-33 | A matching meal adds its foods' calories and protein, adds its number of foods to `meals`, and lowers the remaining calories by its calories. |
| NutritionProperties.DailyDefaultsToZero | backend/services/nutritionService.js:29-35 | With no matching meal the summary is all zeros, with the whole goal remaining. |
| NutritionProperties.UnwindNonNegative | backend/services/nutritionService.js:15-21 | Non-negative foods give non-negative items. |
| NutritionProperties.DailyBounded | backend/services/nutritionService.js:16-35 | With non-negative foods, the four sums are at least 0 and the remaining calories at most the goal. |
| NutritionProperties.SumUnwind | backend/services/nutritionService.js:15-18 | Any field summed over the unwound items is the sum over meals of that field over each meal's foods. |
| NutritionProperties.WindowSumMonotone | backend/services/nutritionService.js:14-18 | For a field that is never negative, a window containing another sums at least as much. |
| NutritionProperties.WiderWindowNeverLess | backend/services/nutritionService.js:14-22 | With non-negative foods, a window containing another counts at least as many calories, protein, carbs and fats, and at least as many items. |
| NutritionProperties.UtcDayIsHalfOpen | backend/services/nutritionService.js:6-10 | On a 24-hour day the inclusive window [00:00:00.000, 23:59:59.999] is [midnight, midnight + 86 400 000). |
| NutritionProperties.UtcMatchesSameDay | backend/services/nutritionService.js:14 | In UTC the daily `$match` admits a meal exactly when it is the user's and its instant lies in the same day as the date. |
| NutritionProperties.UtcDayContainsDate | backend/services/nutritionService.js:6-10 | The window starts on a day boundary and contains the given date. |
| NutritionProperties.MidnightStartsTheDay | backend/services/nutritionService.js:6-14 | A meal at exactly midnight is in the day starting then and not in the previous day. |
| NutritionProperties.UtcWeekStart | backend/services/nutritionService.js:39-41 | In UTC the weekly window opens seven days of milliseconds before today's midnight. |
| NutritionProperties.LaterMealsCountInTheWeek | backend/services/nutritionService.js:44 | The weekly window has no upper bound: a user's meal dated at or after now adds its items. |
| NutritionProperties.RowForAt | backend/services/nutritionService.js:54 | In day order the row at each position is the one found for its day. |
| NutritionProperties.InsertSums | backend/services/nutritionService.js:49-51 | Adding an item raises the rows' calorie sum by its calories and their item count by one. |
| NutritionProperties.GroupConserves | backend/services/nutritionService.js:46-53 | The rows' calories add up to the window's calories, and their counts to the number of items. |
| NutritionProperties.RowsAreBuckets | backend/services/nutritionService.js:43-54 | Every weekly row is the total of a non-empty weekday bucket. |
| NutritionProperties.EveryItemHasOneRow | backend/services/nutritionService.js:46-47 | Each item of the window has a row for its weekday, and only one. |
| NutritionProperties.AtMostSevenRows | backend/services/nutritionService.js:47-54 | The weekly summary has at most seven rows, one per UTC weekday. |
| NutritionProperties.UtcWeekdays | backend/services/nutritionService.js:47 | The UTC weekday number lies between 1 and 7. |
| MealSchema.MacroOrDefault | backend/app/nutrients/Meal.js:13-32 | An undefined macro becomes 0, and a given one is kept. |
| MealSchema.WithDefaults | backend/app/nutrients/Meal.js:3-36 | The user id is kept, the description is the `trim` of the given one, every macro is defaulted to 0 and the date is defaulted to the build instant. |
| MealSchema.CheckMin | backend/app/nutrients/Meal.js:16 | The `min: 0` validator reports exactly a given value below 0. |
| MealSchema.Violations | backend/app/nutrients/Meal.js:4-32 | No violation exactly when the document is valid. The user id is reported missing exactly when undefined, and the description exactly when undefined or empty. |
| MealSchema.Create | backend/app/nutrients/Meal.js:3-39 | Saving succeeds exactly when the defaulted draft is valid, and otherwise fails with its non-empty violation list. A saved document has the given id, the trimmed description, the defaulted macros and date, and both timestamps at the save instant. |
| MealSchemaProperties.CreatedIsValid | backend/app/nutrients/Meal.js:8-32 | Every saved document has a non-empty trimmed description and macros at least 0. |
| MealSchemaProperties.CreateFailsExactly | backend/app/nutrients/Meal.js:4-32 | Saving fails exactly when the user id is missing, the description is missing or all white space, or a given macro is negative. |
| MealSchemaProperties.MinimalDraftDefaults | backend/app/nutrients/Meal.js:13-36 | Only a user id and a description give zero macros and the build instant as date. |
| MealSchemaProperties.RecreateRoundTrip | backend/app/nutrients/Meal.js:3-39 | Saving a stored document's own fields gives back the same document, up to the timestamps. |
| MealSchemaProperties.BelowMinExactly | backend/app/nutrients/Meal.js:13-32 | A macro path is reported below its minimum exactly when its value is negative. |
| MealSchemaProperties.DocSumsNonNegative | backend/app/nutrients/Meal.js:16-31 | The four macro sums over stored documents are at least 0. |
| MealSchemaProperties.SelectionBounded | backend/app/nutrients/Meal.js:16-31 | Over stored documents, the calories of any selection lie between 0 and the total. |

## Left out

- HTTP plumbing (Express routing, `listen`, body parsing, CORS): each handler is a function of the request's fields.
- Clocks: `Date.now()`, `new Date()` and the summary engine's `now` are parameters. `POST /api/meals` reads the clock more than once: the model takes the meal's reading and the reading that fixes "today". Re-reading the clock for every filtered element is not modelled.
- Time zones: the server's `setHours` and `setDate` work in its local zone and are an abstract `Calendar`. Only the UTC calendar, with 24-hour days, is made concrete, so days cut short or lengthened by daylight-saving changes are not modelled. `$dayOfWeek` needs no such parameter: with no `timezone` argument the database computes it in UTC.
- Uniqueness of `id: Date.now()` is not modelled; ids are whatever the clock reading gives.
- IEEE-754 rounding: macros are exact reals, so sums such as 0.5 + 3.6 carry no rounding error. A JSON number beyond the double range, such as `1e400`, parses to Infinity in JavaScript; here it stays an exact real.
- `Promise.all` in `getDailySummary` is two independent reads. The user's goal is a parameter, `None` when no user has the id.
- JsValues.StringToNumber, JsValues.LooseEquals, Server.PostMeal, Server.GetProfile, Server.GetWorkouts, Server.GetMeals: `Number(x)` is modelled for decimal strings with sign, fraction and exponent. Hexadecimal, octal and binary prefixes (`"0x1"`, `"0o7"`, `"0b1"`) and "Infinity" read as NaN here, where JavaScript reads a number. This changes every place that converts or loosely compares such a string:
  - a macro given as `"0x10"` is stored as 0 instead of 16 (`Number(x) || 0`);
  - POST /api/meals with `userId: "0x1"` finds the seeded user 1 in JavaScript (`1 == "0x1"`) and answers 200, while `Server.PostMeal` answers 500;
  - GET /api/profile/0x1 finds user 1 in JavaScript (`Number("0x1")` is 1), while `Server.GetProfile` answers 404;
  - GET /api/workouts/0x1 and GET /api/meals/0x1 list the entries stored with `userId: 1` in JavaScript, and not here.
- Request bodies and query parameters hold no objects or arrays, since the model's `Value` has no such variants. `Number` and loose `==` on them are not modelled. This includes `req.query.date` given twice: `?date=a&date=b` arrives as an array, which `includes` compares as the string "a,b"; the model's `date` is one string.
- Strings are sequences of Unicode scalar values, where JavaScript has UTF-16 code units. A character outside the Basic Multilingual Plane counts as one element here and two code units there, and a lone surrogate cannot be represented. Lengths and `includes` positions differ only for such characters.
- JsStrings.ToLower: only ASCII letters are lower-cased; other Unicode case mappings are not modelled.
- MealSchema.Create: Mongoose's type casting (a numeric string for a Number path, for instance), an explicit `null`, and the database write are not modelled. Drafts carry typed, possibly undefined fields. `date` is taken when the document is built and the timestamps when it is saved.
- The summary engine's `$sum` skips a field that is missing or not a number. The model represents this as an `Option` that counts as 0. A `dailyCalorieGoal` missing from an existing user (giving `NaN`) is not modelled.
- The weekly rows' `_id` equals their `day` and is not represented separately.
- NutritionService.GetDailySummary: when some item matched, the response spreads `summary[0]` and so also carries the group's `_id: null`. The model's `DailySummary` has no `_id` field.
- NutritionService.GetDailySummary, NutritionService.GetWeeklySummary: `Meal.aggregate` does not cast `userId` in `$match`, while `User.findById` casts its argument to an ObjectId. A string id can therefore find the user's goal yet match none of the user's meals. The model compares one abstract user key in both places, so it does not show that mismatch.
- The React Native screens, `App.js` and `config.js` are user interface and network calls, and are not part of this model.
- `backend/config/database.js` (connection setup), `openaiService.js` (an external API), `mealRoutes.js` and `mealController.js` (thin save/find wrappers), `foodDatabase.js` (seeding) and `backend/main.py` (a stub) are not part of this model.

## Findings

| source | as written | input that shows it | evidently intended | confidence | as-written member | corrected member |
|---|---|---|---|---|---|---|
| backend/server.js:123-133 | `mockResults[description.toLowerCase()]` reads a property of an ordinary object, so the names every object inherits count as table hits | "Constructor" (or "__proto__"): the inherited property is truthy, so the answer has confidence 0.9 and, after spreading a function with no own enumerable properties, no macros | only the two own entries are hits; any other description gets the {300, 15, 30, 10} estimate with confidence 0.6 | not executed | MealAnalyzer.ConstructorIsMisread | MealAnalyzer.Analyze |
