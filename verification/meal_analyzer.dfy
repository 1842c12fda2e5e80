/** The mock meal analyser behind `POST /api/analyze-meal`: a case-insensitive
    lookup in a fixed table of meals, with a generic guess for anything else. */
module MealAnalyzer {
  import opened Wrappers
  import opened JsStrings

  datatype Macros = Macros(calories: real, protein: real, carbs: real, fats: real)

  /** The response body: the echoed name, the macros spread into it (if any), and a confidence. */
  datatype Analysis = Analysis(name: string, macros: Option<Macros>, confidence: real)

  /** The own entries of the `mockResults` object, keyed by lower-case meal name. */
  const Table: seq<(string, Macros)> := [
    ("bowl of rice", Macros(200.0, 4.0, 45.0, 0.5)),
    ("chicken breast", Macros(165.0, 31.0, 0.0, 3.6))
  ]

  /** The estimate returned for a meal the table does not know. */
  const Fallback := Macros(300.0, 15.0, 30.0, 10.0)

  const HitConfidence := 0.9
  const GuessConfidence := 0.6

  /** The macros of the first entry of `table` whose key is `key`. */
  function Lookup(table: seq<(string, Macros)>, key: string): (r: Option<Macros>)
    ensures r.Some? <==> exists i :: 0 <= i < |table| && table[i].0 == key
    ensures r.Some? ==> (key, r.value) in table
  {
    if table == [] then None
    else if table[0].0 == key then Some(table[0].1)
    else Lookup(table[1..], key)
  }

  /** The table hit for a description, compared case-insensitively. */
  predicate Known(description: string) {
    exists i :: 0 <= i < |Table| && Table[i].0 == ToLower(description)
  }

  /** The analysis of `description`: the table's macros with high confidence
      for a known meal, the fallback estimate with lower confidence otherwise. */
  function Analyze(description: string): (a: Analysis)
    ensures a.name == description
    ensures a.macros.Some?
    ensures a.confidence == HitConfidence <==> Known(description)
    ensures Known(description) ==> (ToLower(description), a.macros.value) in Table
    ensures !Known(description) ==> a.confidence == GuessConfidence && a.macros == Some(Fallback)
  {
    match Lookup(Table, ToLower(description))
    case Some(m) => Analysis(description, Some(m), HitConfidence)
    case None => Analysis(description, Some(Fallback), GuessConfidence)
  }

  /** Descriptions that differ only in the case of their letters get the same estimate. */
  lemma AnalyzeIgnoresCase(d1: string, d2: string)
    requires ToLower(d1) == ToLower(d2)
    ensures Analyze(d1).macros == Analyze(d2).macros
    ensures Analyze(d1).confidence == Analyze(d2).confidence
  {
  }

  /** Any capitalisation of "chicken breast" is found in the table. */
  lemma ChickenBreastIsKnown(description: string)
    requires ToLower(description) == "chicken breast"
    ensures Analyze(description) == Analysis(description, Some(Macros(165.0, 31.0, 0.0, 3.6)), HitConfidence)
  {
  }

  // The lookup as the handler writes it, `mockResults[description.toLowerCase()]`,
  // reads a property of an ordinary object, so it also finds the properties every
  // object inherits from Object.prototype. Lower-casing leaves only two of their
  // names reachable.

  /** The inherited property names of an object literal that `toLowerCase` can produce. */
  const InheritedKeys: set<string> := {"constructor", "__proto__"}

  /** What a property read on `mockResults` finds. */
  datatype Property = Own(macros: Macros) | Inherited | Missing

  function ReadProperty(key: string): (p: Property)
    ensures p.Own? <==> Lookup(Table, key).Some?
    ensures p.Inherited? <==> Lookup(Table, key).None? && key in InheritedKeys
    ensures p.Own? ==> (key, p.macros) in Table
  {
    match Lookup(Table, key)
    case Some(m) => Own(m)
    case None => if key in InheritedKeys then Inherited else Missing
  }

  /** The handler's analysis as written: an inherited property is truthy, so it
      counts as a hit with high confidence, and spreading it adds no macros. */
  function AnalyzeAsWritten(description: string): (a: Analysis)
    ensures a.name == description
    ensures a.confidence == HitConfidence <==> Known(description) || ToLower(description) in InheritedKeys
    ensures a.macros.None? <==> !Known(description) && ToLower(description) in InheritedKeys
    ensures Known(description) ==> a.macros.Some? && (ToLower(description), a.macros.value) in Table
    ensures !Known(description) && ToLower(description) !in InheritedKeys ==>
              a.macros == Some(Fallback) && a.confidence == GuessConfidence
  {
    match ReadProperty(ToLower(description))
    case Own(m) => Analysis(description, Some(m), HitConfidence)
    case Inherited => Analysis(description, None, HitConfidence)
    case Missing => Analysis(description, Some(Fallback), GuessConfidence)
  }

  /** Away from the inherited names the handler as written and the corrected analysis agree. */
  lemma AsWrittenAgreesElsewhere(description: string)
    requires ToLower(description) !in InheritedKeys
    ensures AnalyzeAsWritten(description) == Analyze(description)
  {
  }

  /** Any capitalisation of "constructor" is reported as a confident match that
      carries no macros, where the corrected analysis falls back to the estimate. */
  lemma ConstructorIsMisread(description: string)
    requires ToLower(description) == "constructor"
    ensures AnalyzeAsWritten(description) == Analysis(description, None, HitConfidence)
    ensures Analyze(description) == Analysis(description, Some(Fallback), GuessConfidence)
  {
  }

  lemma LowerConstructor(d: string)
    requires d == "Constructor"
    ensures ToLower(d) == "constructor"
  {
    var r := ToLower(d);
    assert |r| == 11;
    forall i | 0 <= i < 11
      ensures r[i] == "constructor"[i]
    {
      assert r[i] == LowerChar(d[i]);
    }
  }

  /** The concrete input "Constructor" exhibits the misread. */
  lemma ConstructorExample()
    ensures AnalyzeAsWritten("Constructor").macros.None?
    ensures AnalyzeAsWritten("Constructor").confidence == HitConfidence
  {
    LowerConstructor("Constructor");
    ConstructorIsMisread("Constructor");
  }
}
