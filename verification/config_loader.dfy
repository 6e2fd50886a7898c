/** Reading a boolean setting from a YAML configuration value, which may be
    a bool, a number, a string or anything else. */
module ConfigLoader {
  import opened Wrappers
  import opened PyValues
  import opened PyText

  /** Words read as true, after stripping and lower-casing. */
  const TrueWords: set<string> := {"1", "true", "yes", "on"}

  /** Words read as false, after stripping and lower-casing. */
  const FalseWords: set<string> := {"0", "false", "no", "off"}

  /** `coerce_bool(value)`: `None` where the value says nothing about a
      truth value. */
  function CoerceBool(v: Value): (r: Option<bool>)
    ensures v.Bool? ==> r == Some(v.b)
    ensures v.Int? ==> r == Some(v.i != 0)
    ensures v.Float? ==> r == Some(v.f != 0.0)
    ensures !v.Bool? && !v.Int? && !v.Float? && !v.Str? ==> r.None?
  {
    if v.Bool? then Some(v.b)
    else if v.Int? || v.Float? then Some(Truthy(v))
    else if v.Str? then
      var word := Lower(Strip(v.s));
      if word in TrueWords then Some(true)
      else if word in FalseWords then Some(false)
      else None
    else None
  }

  /** No word is read both ways. */
  lemma WordsDisjoint()
    ensures TrueWords * FalseWords == {}
  {
  }

  /** A string is read as true exactly when its stripped, lower-cased form
      is a true word, as false exactly when it is a false word, and as
      nothing otherwise. */
  lemma CoerceString(s: string)
    ensures CoerceBool(Str(s)) == Some(true) <==> Lower(Strip(s)) in TrueWords
    ensures CoerceBool(Str(s)) == Some(false) <==> Lower(Strip(s)) in FalseWords
    ensures CoerceBool(Str(s)).None? <==> Lower(Strip(s)) !in TrueWords + FalseWords
  {
    WordsDisjoint();
  }

  /** For a bool, a number or a string the answer agrees with Python's
      truthiness wherever one is given: a bool or number as `bool(value)`,
      and a recognised word as whether it is a true word. */
  lemma CoerceAgreesWithTruth(v: Value)
    requires CoerceBool(v).Some?
    ensures v.Bool? || v.Int? || v.Float? || v.Str?
    ensures !v.Str? ==> CoerceBool(v) == Some(Truthy(v))
    ensures v.Str? ==> CoerceBool(v) == Some(Lower(Strip(v.s)) in TrueWords)
  {
    WordsDisjoint();
  }
}
