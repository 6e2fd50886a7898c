/** Repairing the judge's JSON reply into the analysis dict the selector
    stores: missing or mistyped fields get defaults, and the five scores are
    read as numbers and clamped to [0, 1]. */
module ScoreSchema {
  import opened Wrappers
  import opened PyValues
  import opened PyText
  import opened Numerals

  /** `ScoreResult`. */
  datatype ScoreResult = ScoreResult(
    overallScore: real,
    sharpness: real,
    subjectVisibility: real,
    composition: real,
    duplicationPenalty: real,
    reasoning: string)
  {
    /** Every score lies in [0, 1]. */
    predicate InRange()
    {
      && 0.0 <= overallScore <= 1.0
      && 0.0 <= sharpness <= 1.0
      && 0.0 <= subjectVisibility <= 1.0
      && 0.0 <= composition <= 1.0
      && 0.0 <= duplicationPenalty <= 1.0
    }
  }

  /** `_coerce_float(value)`: numbers (booleans included) as they are, text
      through `float`, `None` for anything else or for text `float` rejects. */
  function CoerceFloat(v: Value): (r: Option<real>)
    ensures IsNumber(v) ==> r == Some(AsReal(v))
    ensures !IsNumber(v) && !v.Str? ==> r == None
  {
    if IsNumber(v) then Some(AsReal(v))
    else if v.Str? then ParseFloat(v.s)
    else None
  }

  /** The overall score before clamping: `overall_score`, else `score`, else 0. */
  function OverallOf(raw: map<string, Value>): real
  {
    match CoerceFloat(Get(raw, "overall_score"))
    case Some(x) => x
    case None => CoerceFloat(Get(raw, "score")).GetOr(0.0)
  }

  /** `_coerce_float(raw.get(key)) or 0.0`. */
  function FieldOf(raw: map<string, Value>, key: string): real
  {
    CoerceFloat(Get(raw, key)).GetOr(0.0)
  }

  /** `parse_score_result(raw)`. */
  function ParseScoreResult(raw: map<string, Value>): (r: ScoreResult)
    ensures r.InRange()
  {
    var reasoning := if Get(raw, "reasoning").Str? then Get(raw, "reasoning").s else "";
    ScoreResult(
      Clamp01(OverallOf(raw)),
      Clamp01(FieldOf(raw, "sharpness")),
      Clamp01(FieldOf(raw, "subject_visibility")),
      Clamp01(FieldOf(raw, "composition")),
      Clamp01(FieldOf(raw, "duplication_penalty")),
      Strip(reasoning))
  }

  /** The overall score comes from `overall_score` when it reads as a
      number, otherwise from `score`, otherwise it is 0. */
  lemma OverallScoreSource(raw: map<string, Value>)
    ensures var r := ParseScoreResult(raw);
      && (CoerceFloat(Get(raw, "overall_score")).Some? ==>
            r.overallScore == Clamp01(CoerceFloat(Get(raw, "overall_score")).value))
      && (CoerceFloat(Get(raw, "overall_score")).None? && CoerceFloat(Get(raw, "score")).Some? ==>
            r.overallScore == Clamp01(CoerceFloat(Get(raw, "score")).value))
      && (CoerceFloat(Get(raw, "overall_score")).None? && CoerceFloat(Get(raw, "score")).None? ==>
            r.overallScore == 0.0)
  {
  }

  /** `reasoning` is the reply's text with surrounding white space removed,
      or empty when the reply's `reasoning` is not text. */
  lemma ReasoningStripped(raw: map<string, Value>)
    ensures var r := ParseScoreResult(raw).reasoning;
      && (Get(raw, "reasoning").Str? ==> r == Strip(Get(raw, "reasoning").s))
      && (!Get(raw, "reasoning").Str? ==> r == "")
      && (r == [] || (!IsSpace(r[0]) && !IsSpace(r[|r| - 1])))
  {
    assert Strip("") == "";
  }

  /** A field the reply leaves out reads as 0. */
  lemma FieldAbsent(raw: map<string, Value>, key: string)
    requires key !in raw
    ensures FieldOf(raw, key) == 0.0 && CoerceFloat(Get(raw, key)) == None
  {
  }

  /** An empty reply parses to all zeros and no reasoning. */
  lemma ParseEmpty()
    ensures ParseScoreResult(map[]) == ScoreResult(0.0, 0.0, 0.0, 0.0, 0.0, "")
  {
    var e: map<string, Value> := map[];
    FieldAbsent(e, "overall_score");
    FieldAbsent(e, "score");
    FieldAbsent(e, "sharpness");
    FieldAbsent(e, "subject_visibility");
    FieldAbsent(e, "composition");
    FieldAbsent(e, "duplication_penalty");
    assert Strip("") == "";
  }

  /** A score given as the text "1.2" is read and clamped to 1.0. */
  lemma ParseScoreText()
    ensures ParseScoreResult(map["score" := Str("1.2")]).overallScore == 1.0
  {
    var raw := map["score" := Str("1.2")];
    FieldAbsent(raw, "overall_score");
    ParseFloatOnePointTwo();
    assert CoerceFloat(Get(raw, "score")) == Some(1.2);
  }

  // ---------------------------------------------------------------------------
  // normalize_analysis

  /** The four risk flags every analysis carries. */
  const RiskKeys: seq<string> := ["blur", "dark", "overexposed", "out_of_focus"]

  /** `d.setdefault(k, default)` for each `k` of `keys` in turn. */
  function SetDefaults(d: map<string, Value>, keys: seq<string>, default: Value): (r: map<string, Value>)
    ensures forall k :: k in r <==> k in d || k in keys
    ensures forall k :: k in d ==> r[k] == d[k]
    ensures forall k :: k in r && k !in d ==> r[k] == default
  {
    if keys == [] then d
    else SetDefault(SetDefaults(d, keys[..|keys| - 1], default), keys[|keys| - 1], default)
  }

  /** The loop `for risk_key in (...): risks.setdefault(risk_key, False)`. */
  method FillRiskDefaults(risks: map<string, Value>) returns (r: map<string, Value>)
    ensures r == SetDefaults(risks, RiskKeys, Bool(false))
    ensures forall k :: k in RiskKeys ==> k in r
  {
    r := risks;
    for i := 0 to |RiskKeys|
      invariant r == SetDefaults(risks, RiskKeys[..i], Bool(false))
    {
      SetDefaultsStep(risks, RiskKeys, i, Bool(false));
      r := SetDefault(r, RiskKeys[i], Bool(false));
    }
    assert RiskKeys[..|RiskKeys|] == RiskKeys;
  }

  /** One more key is one more `setdefault`. */
  lemma SetDefaultsStep(d: map<string, Value>, keys: seq<string>, i: nat, default: Value)
    requires i < |keys|
    ensures SetDefaults(d, keys[..i + 1], default) == SetDefault(SetDefaults(d, keys[..i], default), keys[i], default)
  {
    assert keys[..i + 1][..i] == keys[..i];
  }

  /** The copy after the `setdefault` calls and the type repairs of `tags`
      and `risks`, before the risk flags are filled in. */
  function Prepared(raw: map<string, Value>): (a: map<string, Value>)
    ensures "caption" in a && "tags" in a && "risks" in a
    ensures a["tags"].List? && a["risks"].Dict?
    ensures forall k :: k in raw && k != "tags" && k != "risks" ==> k in a && a[k] == raw[k]
    ensures "tags" in raw && raw["tags"].List? ==> a["tags"] == raw["tags"]
    ensures "risks" in raw && raw["risks"].Dict? ==> a["risks"] == raw["risks"]
    ensures forall k :: k in a ==> k in raw || k == "caption" || k == "tags" || k == "risks"
  {
    var a1 := SetDefault(raw, "caption", Str(""));
    var a2 := SetDefault(a1, "tags", List([]));
    var a3 := SetDefault(a2, "risks", Dict(map[]));
    var a4 := if !a3["tags"].List? then a3["tags" := List([])] else a3;
    if !a4["risks"].Dict? then a4["risks" := Dict(map[])] else a4
  }

  /** The `setdefault` calls for `caption`, `tags` and `risks`, then the
      replacement of a `tags` that is not a list and of a `risks` that is
      not a dict. */
  method PrepareAnalysis(raw: map<string, Value>) returns (a: map<string, Value>)
    ensures a == Prepared(raw)
  {
    a := SetDefault(raw, "caption", Str(""));
    a := SetDefault(a, "tags", List([]));
    a := SetDefault(a, "risks", Dict(map[]));
    if !a["tags"].List? {
      a := a["tags" := List([])];
    }
    if !a["risks"].Dict? {
      a := a["risks" := Dict(map[])];
    }
  }

  /** The copy once every risk flag is present, before the scores are
      written back. */
  function Repaired(raw: map<string, Value>): (a: map<string, Value>)
    ensures "caption" in a && "tags" in a && "risks" in a
    ensures a["tags"].List? && a["risks"].Dict?
    ensures forall k :: k in a ==> k in raw || k == "caption" || k == "tags" || k == "risks"
  {
    var p := Prepared(raw);
    p["risks" := Dict(SetDefaults(p["risks"].entries, RiskKeys, Bool(false)))]
  }

  /** The keys `normalize_analysis` writes back from the parsed scores. */
  const ScoreKeys: set<string> := {"overall_score", "sharpness", "subject_visibility", "composition",
    "duplication_penalty", "reasoning", "score"}

  /** The dict with the parsed scores written back. */
  function WithScores(a: map<string, Value>, s: ScoreResult): (r: map<string, Value>)
    ensures r.Keys == a.Keys + ScoreKeys
    ensures r["overall_score"] == Float(s.overallScore) && r["score"] == Float(s.overallScore)
    ensures r["sharpness"] == Float(s.sharpness) && r["subject_visibility"] == Float(s.subjectVisibility)
    ensures r["composition"] == Float(s.composition) && r["duplication_penalty"] == Float(s.duplicationPenalty)
    ensures r["reasoning"] == Str(s.reasoning)
    ensures forall k :: k in a && k !in ScoreKeys ==> r[k] == a[k]
  {
    a["overall_score" := Float(s.overallScore)]
     ["sharpness" := Float(s.sharpness)]
     ["subject_visibility" := Float(s.subjectVisibility)]
     ["composition" := Float(s.composition)]
     ["duplication_penalty" := Float(s.duplicationPenalty)]
     ["reasoning" := Str(s.reasoning)]
     ["score" := Float(s.overallScore)]
  }

  /** What `normalize_analysis(raw)` returns: `Failure` where it raises
      ValueError. */
  function Normalized(raw: Value): Result<map<string, Value>, string>
  {
    if !raw.Dict? then Failure("Analysis is not a JSON object")
    else
      var a := Repaired(raw.entries);
      Success(WithScores(a, ParseScoreResult(a)))
  }

  /** `key` holds a number in [0, 1]. */
  predicate ScoreField(a: map<string, Value>, key: string)
  {
    key in a && a[key].Float? && 0.0 <= a[key].f <= 1.0
  }

  /** What the repairs guarantee: `caption` is present, `tags` is a list and
      `risks` a dict holding the four risk keys. */
  predicate IsRepaired(a: map<string, Value>)
  {
    && "caption" in a
    && "tags" in a && a["tags"].List?
    && "risks" in a && a["risks"].Dict?
    && (forall k :: k in RiskKeys ==> k in a["risks"].entries)
  }

  /** What every normalized analysis looks like: repaired, the five scores
      are numbers in [0, 1], `score` equals `overall_score`, and `reasoning`
      is text. */
  predicate NormalizedShape(a: map<string, Value>)
  {
    && IsRepaired(a)
    && ScoreField(a, "overall_score") && ScoreField(a, "sharpness") && ScoreField(a, "subject_visibility")
    && ScoreField(a, "composition") && ScoreField(a, "duplication_penalty")
    && "score" in a && a["score"] == a["overall_score"]
    && "reasoning" in a && a["reasoning"].Str?
  }

  /** `normalize_analysis(raw)`: copies the dict, fills in the defaults,
      repairs `tags` and `risks`, sets every missing risk flag to false and
      writes back the parsed, clamped scores. */
  method NormalizeAnalysis(raw: Value) returns (r: Result<map<string, Value>, string>)
    ensures r == Normalized(raw)
    ensures r.Failure? <==> !raw.Dict?
    ensures r.Success? ==> NormalizedShape(r.value)
  {
    if !raw.Dict? {
      return Failure("Analysis is not a JSON object");
    }
    var analysis := PrepareAnalysis(raw.entries);
    var risks := FillRiskDefaults(analysis["risks"].entries);
    analysis := analysis["risks" := Dict(risks)];
    var s := ParseScoreResult(analysis);
    analysis := analysis["overall_score" := Float(s.overallScore)];
    analysis := analysis["sharpness" := Float(s.sharpness)];
    analysis := analysis["subject_visibility" := Float(s.subjectVisibility)];
    analysis := analysis["composition" := Float(s.composition)];
    analysis := analysis["duplication_penalty" := Float(s.duplicationPenalty)];
    analysis := analysis["reasoning" := Str(s.reasoning)];
    analysis := analysis["score" := Float(s.overallScore)];
    r := Success(analysis);
    NormalizedHasShape(raw);
  }

  /** A normalized analysis has the normalized shape, and only non-dict input
      is rejected. */
  lemma NormalizedHasShape(raw: Value)
    ensures Normalized(raw).Failure? <==> !raw.Dict?
    ensures Normalized(raw).Success? ==> NormalizedShape(Normalized(raw).value)
  {
    if raw.Dict? {
      var a := Repaired(raw.entries);
      RepairedKeeps(raw.entries);
      WithScoresShape(a, ParseScoreResult(a));
    }
  }

  /** Writing in-range scores into a repaired dict gives the normalized shape. */
  lemma WithScoresShape(a: map<string, Value>, s: ScoreResult)
    requires IsRepaired(a)
    requires s.InRange()
    ensures NormalizedShape(WithScores(a, s))
  {
    var r := WithScores(a, s);
    assert r["caption"] == a["caption"] && r["tags"] == a["tags"] && r["risks"] == a["risks"];
  }

  /** After the repairs `risks` holds every risk flag, and the repairs keep
      every value of the reply they do not have to fix. */
  lemma RepairedKeeps(raw: map<string, Value>)
    ensures IsRepaired(Repaired(raw))
    ensures "risks" in raw && raw["risks"].Dict? ==>
      forall k :: k in raw["risks"].entries ==> Repaired(raw)["risks"].entries[k] == raw["risks"].entries[k]
    ensures forall k :: k in raw && k != "tags" && k != "risks" ==> Repaired(raw)[k] == raw[k]
    ensures "tags" in raw && raw["tags"].List? ==> Repaired(raw)["tags"] == raw["tags"]
  {
  }

  /** Writing back the scores leaves `caption`, `tags`, `risks` and every
      key outside the score keys as they were. */
  lemma WithScoresKeeps(a: map<string, Value>, s: ScoreResult)
    requires "caption" in a && "tags" in a && "risks" in a
    ensures var r := WithScores(a, s);
      r["caption"] == a["caption"] && r["tags"] == a["tags"] && r["risks"] == a["risks"]
  {
  }

  /** Keys `normalize_analysis` may overwrite. */
  const Rewritten: set<string> := ScoreKeys + {"caption", "tags", "risks"}

  /** `a` keeps every risk value `raw` gave, every key of `raw` outside
      the rewritten ones, the caption, and `tags` when it was a list. */
  predicate KeepsReply(raw: map<string, Value>, a: map<string, Value>)
  {
    && ("risks" in raw && raw["risks"].Dict? ==>
          "risks" in a && a["risks"].Dict? &&
          forall k :: k in raw["risks"].entries ==> k in a["risks"].entries && a["risks"].entries[k] == raw["risks"].entries[k])
    && (forall k :: k in raw && k !in Rewritten ==> k in a && a[k] == raw[k])
    && ("caption" in raw ==> "caption" in a && a["caption"] == raw["caption"])
    && ("tags" in raw && raw["tags"].List? ==> "tags" in a && a["tags"] == raw["tags"])
  }

  /** Normalizing keeps every risk value the reply gave, and every key of
      the reply that it does not rewrite. */
  lemma NormalizeKeeps(raw: map<string, Value>)
    ensures Normalized(Dict(raw)).Success? && KeepsReply(raw, Normalized(Dict(raw)).value)
  {
    var p := Repaired(raw);
    RepairedKeeps(raw);
    WithScoresKeeps(p, ParseScoreResult(p));
  }

  /** `str.strip` is idempotent. */
  lemma StripTwice(s: string)
    ensures Strip(Strip(s)) == Strip(s)
  {
    StripByNoop(Strip(s), IsSpace);
  }

  /** A score field already in [0, 1] reads back as itself. */
  lemma ScoreFieldReads(a: map<string, Value>, key: string)
    requires ScoreField(a, key)
    ensures CoerceFloat(Get(a, key)) == Some(a[key].f)
    ensures Clamp01(FieldOf(a, key)) == a[key].f
  {
  }

  /** Parsing a normalized analysis gives back the scores it holds. */
  lemma ParseNormalized(a: map<string, Value>)
    requires NormalizedShape(a) && a["reasoning"].s == Strip(a["reasoning"].s)
    ensures ParseScoreResult(a) == ScoreResult(a["overall_score"].f, a["sharpness"].f,
      a["subject_visibility"].f, a["composition"].f, a["duplication_penalty"].f, a["reasoning"].s)
  {
    ScoreFieldReads(a, "overall_score");
    ScoreFieldReads(a, "sharpness");
    ScoreFieldReads(a, "subject_visibility");
    ScoreFieldReads(a, "composition");
    ScoreFieldReads(a, "duplication_penalty");
  }

  /** The repairs leave a repaired dict alone. */
  lemma RepairedStable(a: map<string, Value>)
    requires IsRepaired(a)
    ensures Repaired(a) == a
  {
    var p := Prepared(a);
    assert p == a;
    var risks := a["risks"].entries;
    var filled := SetDefaults(risks, RiskKeys, Bool(false));
    assert filled == risks;
  }

  /** Writing back the scores an analysis already holds changes nothing. */
  lemma WithScoresSame(a: map<string, Value>, s: ScoreResult)
    requires NormalizedShape(a)
    requires s == ScoreResult(a["overall_score"].f, a["sharpness"].f,
      a["subject_visibility"].f, a["composition"].f, a["duplication_penalty"].f, a["reasoning"].s)
    ensures WithScores(a, s) == a
  {
    var r := WithScores(a, s);
    forall k | k in ScoreKeys ensures r[k] == a[k] {
    }
  }

  /** Normalizing an already normalized analysis changes nothing. */
  lemma NormalizeIdempotent(raw: Value)
    requires raw.Dict?
    ensures var a := Normalized(raw).value;
      Normalized(Dict(a)) == Success(a)
  {
    NormalizedHasShape(raw);
    var p := Repaired(raw.entries);
    var s := ParseScoreResult(p);
    var a := WithScores(p, s);
    StripTwice(if Get(p, "reasoning").Str? then Get(p, "reasoning").s else "");
    assert a["reasoning"].s == Strip(a["reasoning"].s);
    RepairedStable(a);
    ParseNormalized(a);
    WithScoresSame(a, ParseScoreResult(a));
  }
}
