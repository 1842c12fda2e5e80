/** The meal document schema: which fields are required, the trimming of the
    description, the zero defaults and lower bound of the macros, the default
    date and the creation timestamps. Creating a document fills the defaults,
    applies the setters and then validates every path. */
module MealSchema {
  import opened Wrappers
  import opened Seqs
  import opened JsStrings

  /** The fields a new document is built from; `None` is a field left undefined. */
  datatype Draft = Draft(
    userId: Option<real>,
    description: Option<string>,
    calories: Option<real>,
    protein: Option<real>,
    carbs: Option<real>,
    fats: Option<real>,
    date: Option<int>)

  /** A stored meal document. */
  datatype MealDoc = MealDoc(
    userId: real,
    description: string,
    calories: real,
    protein: real,
    carbs: real,
    fats: real,
    date: int,
    createdAt: int,
    updatedAt: int)

  datatype Path = UserId | Description | Calories | Protein | Carbs | Fats

  /** One validation error: a required path without a value, or a number below its `min`. */
  datatype Violation = Required(path: Path) | BelowMin(path: Path)

  const MinMacro: real := 0.0
  const DefaultMacro: real := 0.0

  /** A macro after its default: 0 when left undefined. */
  function MacroOrDefault(v: Option<real>): (r: real)
    ensures v.None? ==> r == DefaultMacro
    ensures v.Some? ==> r == v.value
  {
    v.GetOr(DefaultMacro)
  }

  /** The draft as the document holds it before validation: the description
      through its `trim` setter, each undefined macro at 0 and an undefined
      date at the instant the document is built. */
  function WithDefaults(d: Draft, now: int): (f: Draft)
    ensures f.userId == d.userId
    ensures f.description.Some? <==> d.description.Some?
    ensures f.description.Some? ==> f.description.value == Trim(d.description.value)
    ensures f.description.Some? ==> IsTrimmed(f.description.value)
    ensures f.calories == Some(MacroOrDefault(d.calories)) && f.protein == Some(MacroOrDefault(d.protein))
    ensures f.carbs == Some(MacroOrDefault(d.carbs)) && f.fats == Some(MacroOrDefault(d.fats))
    ensures f.date == Some(d.date.GetOr(now))
  {
    Draft(
      d.userId,
      match d.description case None => None case Some(s) => Some(Trim(s)),
      Some(MacroOrDefault(d.calories)),
      Some(MacroOrDefault(d.protein)),
      Some(MacroOrDefault(d.carbs)),
      Some(MacroOrDefault(d.fats)),
      Some(d.date.GetOr(now)))
  }

  /** The document satisfies the schema: a user id, a non-empty description,
      and every macro present and at least 0. */
  predicate Valid(f: Draft)
  {
    && f.userId.Some?
    && f.description.Some? && f.description.value != []
    && (f.calories.Some? ==> f.calories.value >= MinMacro)
    && (f.protein.Some? ==> f.protein.value >= MinMacro)
    && (f.carbs.Some? ==> f.carbs.value >= MinMacro)
    && (f.fats.Some? ==> f.fats.value >= MinMacro)
  }

  /** The `min` validator of one macro path; an undefined value is not checked. */
  function CheckMin(path: Path, v: Option<real>): (vs: seq<Violation>)
    ensures vs == [] <==> (v.None? || v.value >= MinMacro)
    ensures forall i :: 0 <= i < |vs| ==> vs[i] == BelowMin(path)
  {
    if v.Some? && v.value < MinMacro then [BelowMin(path)] else []
  }

  /** The value at a macro path. */
  function MacroAt(f: Draft, p: Path): Option<real> {
    match p
    case Calories => f.calories
    case Protein => f.protein
    case Carbs => f.carbs
    case Fats => f.fats
    case _ => None
  }

  /** Every path's validators, in schema order. A string path that is
      required rejects the empty string. */
  function Violations(f: Draft): (vs: seq<Violation>)
    ensures vs == [] <==> Valid(f)
    ensures Required(UserId) in vs <==> f.userId.None?
    ensures Required(Description) in vs <==> (f.description.None? || f.description.value == [])
    ensures |vs| <= 6
  {
    (if f.userId.None? then [Required(UserId)] else [])
    + (if f.description.None? || f.description.value == [] then [Required(Description)] else [])
    + CheckMin(Calories, f.calories)
    + CheckMin(Protein, f.protein)
    + CheckMin(Carbs, f.carbs)
    + CheckMin(Fats, f.fats)
  }

  /** `new Meal(d).save()`: `now` is when the document is built (the date
      default) and `savedAt` when it is saved (the timestamps). The save
      fails with the validation errors of the defaulted draft. */
  function Create(d: Draft, now: int, savedAt: int): (r: Result<MealDoc, seq<Violation>>)
    ensures r.Ok? <==> Valid(WithDefaults(d, now))
    ensures r.Err? ==> r.error != [] && r.error == Violations(WithDefaults(d, now))
    ensures r.Ok? ==>
      && d.userId == Some(r.value.userId)
      && d.description.Some? && r.value.description == Trim(d.description.value)
      && r.value.calories == MacroOrDefault(d.calories) && r.value.protein == MacroOrDefault(d.protein)
      && r.value.carbs == MacroOrDefault(d.carbs) && r.value.fats == MacroOrDefault(d.fats)
      && r.value.date == d.date.GetOr(now)
      && r.value.createdAt == savedAt && r.value.updatedAt == savedAt
  {
    var f := WithDefaults(d, now);
    var vs := Violations(f);
    if vs != [] then Err(vs)
    else Ok(MealDoc(f.userId.value, f.description.value, f.calories.value, f.protein.value,
                    f.carbs.value, f.fats.value, f.date.value, savedAt, savedAt))
  }

  /** What every stored document satisfies. */
  predicate ValidDoc(m: MealDoc) {
    && m.description != [] && IsTrimmed(m.description)
    && m.calories >= MinMacro && m.protein >= MinMacro && m.carbs >= MinMacro && m.fats >= MinMacro
  }

  /** The draft that would rebuild a document, every field given. */
  function DraftOf(m: MealDoc): Draft {
    Draft(Some(m.userId), Some(m.description), Some(m.calories), Some(m.protein),
          Some(m.carbs), Some(m.fats), Some(m.date))
  }

  function DocCalories(m: MealDoc): real { m.calories }
  function DocProtein(m: MealDoc): real { m.protein }
  function DocCarbs(m: MealDoc): real { m.carbs }
  function DocFats(m: MealDoc): real { m.fats }
}
