/** Properties of the meal schema: what saving guarantees about a document,
    how the defaults and the setter behave, and the sums the guarantees allow. */
module MealSchemaProperties {
  import opened Wrappers
  import opened Seqs
  import opened JsStrings
  import opened MealSchema

  /** Every document that is saved satisfies the schema's guarantees. */
  lemma CreatedIsValid(d: Draft, now: int, savedAt: int)
    requires Create(d, now, savedAt).Ok?
    ensures ValidDoc(Create(d, now, savedAt).value)
  {
  }

  /** Saving fails exactly when the user id or a description with
      non-white-space content is missing, or a given macro is negative;
      omitted macros and an omitted date never cause a failure. */
  lemma CreateFailsExactly(d: Draft, now: int, savedAt: int)
    ensures Create(d, now, savedAt).Err? <==>
      || d.userId.None?
      || d.description.None? || AllWhiteSpace(d.description.value)
      || (d.calories.Some? && d.calories.value < 0.0) || (d.protein.Some? && d.protein.value < 0.0)
      || (d.carbs.Some? && d.carbs.value < 0.0) || (d.fats.Some? && d.fats.value < 0.0)
  {
    if d.description.Some? {
      TrimEmptyIffBlank(d.description.value);
    }
  }

  /** A draft of only a user id and a description gets zero macros and the
      build instant as its date. */
  lemma MinimalDraftDefaults(userId: real, description: string, now: int, savedAt: int)
    requires !AllWhiteSpace(description)
    ensures var r := Create(Draft(Some(userId), Some(description), None, None, None, None, None), now, savedAt);
            && r.Ok?
            && r.value == MealDoc(userId, Trim(description), 0.0, 0.0, 0.0, 0.0, now, savedAt, savedAt)
  {
    TrimEmptyIffBlank(description);
  }

  /** Saving again from a stored document's own fields gives back the same
      document, up to the timestamps: the setter and defaults are idempotent. */
  lemma RecreateRoundTrip(m: MealDoc, now: int, savedAt: int)
    requires ValidDoc(m)
    ensures Create(DraftOf(m), now, savedAt) == Ok(m.(createdAt := savedAt, updatedAt := savedAt))
  {
    TrimOfTrimmed(m.description);
  }

  /** A macro path is reported below its minimum exactly when its value is negative. */
  lemma BelowMinExactly(f: Draft, p: Path)
    ensures BelowMin(p) in Violations(f) <==> MacroAt(f, p).Some? && MacroAt(f, p).value < MinMacro
  {
    var head := (if f.userId.None? then [Required(UserId)] else [])
      + (if f.description.None? || f.description.value == [] then [Required(Description)] else []);
    var c := CheckMin(Calories, f.calories);
    var pr := CheckMin(Protein, f.protein);
    var cb := CheckMin(Carbs, f.carbs);
    var ft := CheckMin(Fats, f.fats);
    assert Violations(f) == head + c + pr + cb + ft;
    assert BelowMin(p) in Violations(f) <==> BelowMin(p) in c || BelowMin(p) in pr || BelowMin(p) in cb || BelowMin(p) in ft;
  }

  /** The sums of the macros over stored documents are never negative. */
  lemma {:induction false} DocSumsNonNegative(docs: seq<MealDoc>)
    requires forall i :: 0 <= i < |docs| ==> ValidDoc(docs[i])
    ensures 0.0 <= SumBy(docs, DocCalories) && 0.0 <= SumBy(docs, DocProtein)
    ensures 0.0 <= SumBy(docs, DocCarbs) && 0.0 <= SumBy(docs, DocFats)
  {
    if docs != [] {
      DocSumsNonNegative(docs[1..]);
    }
  }

  /** Over stored documents, the calories of any selection lie between 0 and the total. */
  lemma SelectionBounded(docs: seq<MealDoc>, keep: MealDoc -> bool)
    requires forall i :: 0 <= i < |docs| ==> ValidDoc(docs[i])
    ensures 0.0 <= SumBy(Filter(docs, keep), DocCalories) <= SumBy(docs, DocCalories)
  {
    SumNonNegative(Filter(docs, keep), DocCalories);
    SumFilterMonotone(docs, keep, (m: MealDoc) => true, DocCalories);
    FilterKeepsAll(docs, (m: MealDoc) => true);
  }
}
