/** The video digest: each clip's judge reply is validated and its score
    corrected for quality and for the risks the judge flagged; per source
    video, the best clips are then chosen greedily within a duration budget,
    put back in timeline order and copied under consecutive names. */
module VideoDigest {
  import opened Wrappers
  import opened PyValues
  import opened PyPath
  import opened Numerals
  import opened Seqs
  import opened ScoreSchema
  import opened Analyzer
  import opened OutputPaths

  /** A per-clip record: `source_path`, `clip_path`, `start`, `end`,
      `duration`, and after analysis `analysis`, `quality`, `score_final`,
      `error` and more. */
  type Record = map<string, Value>

  const MinBrightnessGate: real := 15.0
  const RiskPenaltyScale: real := 0.5

  // ---------------------------------------------------------------------------
  // _validate_analysis

  /** What `_validate_analysis(analysis)` returns: `Failure` where it raises
      ValueError. The two checks read only `score`, which none of the
      `setdefault` calls writes, so they can be made before the repairs. */
  function Validated(v: Value): (r: Result<map<string, Value>, string>)
    ensures r.Failure? <==> !v.Dict? || "score" !in v.entries || !IsNumber(v.entries["score"])
    ensures r.Success? ==> IsRepaired(r.value) && "score" in r.value && r.value["score"] == v.entries["score"]
  {
    if !v.Dict? then Failure("Analysis is not a JSON object")
    else if "score" !in v.entries then Failure("Missing key in analysis: score")
    else if !IsNumber(v.entries["score"]) then Failure("Score must be a number")
    else
      RepairedKeeps(v.entries);
      Success(Repaired(v.entries))
  }

  /** `_validate_analysis(analysis)`: the `setdefault` calls, the test for
      `score`, the repairs of `tags` and `risks`, the test that `score` is
      a number, and the risk flags set to false where missing. */
  method ValidateAnalysis(v: Value) returns (r: Result<map<string, Value>, string>)
    ensures r == Validated(v)
  {
    if !v.Dict? {
      return Failure("Analysis is not a JSON object");
    }
    // The `setdefault` calls and the repairs leave `score` as it was, so
    // both checks of `score` read the reply's own value.
    if "score" !in v.entries {
      return Failure("Missing key in analysis: score");
    }
    var analysis := PrepareAnalysis(v.entries);
    if !IsNumber(analysis["score"]) {
      return Failure("Score must be a number");
    }
    var risks := FillRiskDefaults(analysis["risks"].entries);
    r := Success(analysis["risks" := Dict(risks)]);
  }

  /** Validation keeps every risk flag the reply gave, a list of tags, and
      every key other than `tags` and `risks`. */
  lemma ValidatedKeeps(v: Value)
    requires Validated(v).Success?
    ensures var a := Validated(v).value;
      && ("risks" in v.entries && v.entries["risks"].Dict? ==>
            forall k :: k in v.entries["risks"].entries ==> a["risks"].entries[k] == v.entries["risks"].entries[k])
      && (forall k :: k in v.entries && k != "tags" && k != "risks" ==> a[k] == v.entries[k])
      && ("tags" in v.entries && v.entries["tags"].List? ==> a["tags"] == v.entries["tags"])
  {
    RepairedKeeps(v.entries);
  }

  /** Validating a validated analysis changes nothing. */
  lemma ValidatedIdempotent(v: Value)
    requires Validated(v).Success?
    ensures Validated(Dict(Validated(v).value)) == Validated(v)
  {
    RepairedStable(Validated(v).value);
  }

  // ---------------------------------------------------------------------------
  // _apply_risk_penalties

  /** What one flagged risk costs: 0.25 or 0.15 times the penalty scale. */
  function RiskAmount(key: string): (r: real)
    ensures key in RiskKeys ==> r > 0.0
  {
    if key == "blur" || key == "out_of_focus" then 0.25 * RiskPenaltyScale
    else if key == "dark" || key == "overexposed" then 0.15 * RiskPenaltyScale
    else 0.0
  }

  /** `risks.get(key)` is truthy. */
  predicate Flagged(risks: map<string, Value>, key: string)
  {
    Truthy(Get(risks, key))
  }

  /** What the risk `key` costs in `risks`: its amount if flagged, else 0. */
  function Cost(risks: map<string, Value>, key: string): real
  {
    if Flagged(risks, key) then RiskAmount(key) else 0.0
  }

  /** The amount every flagged risk costs, together. */
  function RiskPenalty(risks: map<string, Value>): (r: real)
    ensures 0.0 <= r <= 0.4
  {
    Cost(risks, "blur") + Cost(risks, "out_of_focus") + Cost(risks, "dark") + Cost(risks, "overexposed")
  }

  /** Flagging `key` changes its cost to the full amount and no other. */
  lemma CostAfterFlag(risks: map<string, Value>, key: string, k: string)
    ensures Cost(risks[key := Bool(true)], k) == if k == key then RiskAmount(k) else Cost(risks, k)
  {
    if k != key {
      assert Get(risks[key := Bool(true)], k) == Get(risks, k);
    }
  }

  /** `_apply_risk_penalties(score, risks)`. */
  function ApplyRiskPenalties(score: real, risks: map<string, Value>): (r: real)
    ensures 0.0 <= r <= 1.0
  {
    var s1 := if Flagged(risks, "blur") then score - 0.25 * RiskPenaltyScale else score;
    var s2 := if Flagged(risks, "out_of_focus") then s1 - 0.25 * RiskPenaltyScale else s1;
    var s3 := if Flagged(risks, "dark") then s2 - 0.15 * RiskPenaltyScale else s2;
    var s4 := if Flagged(risks, "overexposed") then s3 - 0.15 * RiskPenaltyScale else s3;
    if s4 < 0.0 then 0.0 else if s4 > 1.0 then 1.0 else s4
  }

  /** The penalties deduct the flagged amounts from the score and clamp the
      result to [0, 1]. */
  lemma RiskPenaltiesDeduct(score: real, risks: map<string, Value>)
    ensures ApplyRiskPenalties(score, risks) == Clamp01(score - RiskPenalty(risks))
  {
  }

  /** Flagging one more risk deducts exactly its amount before clamping, and
      never raises the result. */
  lemma RiskFlagDeducts(score: real, risks: map<string, Value>, key: string)
    requires key in RiskKeys && !Flagged(risks, key)
    ensures RiskPenalty(risks[key := Bool(true)]) == RiskPenalty(risks) + RiskAmount(key)
    ensures ApplyRiskPenalties(score, risks[key := Bool(true)]) <= ApplyRiskPenalties(score, risks)
  {
    var flagged := risks[key := Bool(true)];
    CostAfterFlag(risks, key, "blur");
    CostAfterFlag(risks, key, "out_of_focus");
    CostAfterFlag(risks, key, "dark");
    CostAfterFlag(risks, key, "overexposed");
    RiskPenaltiesDeduct(score, risks);
    RiskPenaltiesDeduct(score, flagged);
    Clamp01Monotone(score - RiskPenalty(flagged), score - RiskPenalty(risks));
  }

  /** With no risk flagged an in-range score is kept. */
  lemma RiskPenaltiesNone(score: real, risks: map<string, Value>)
    requires 0.0 <= score <= 1.0
    requires forall k :: k in RiskKeys ==> !Flagged(risks, k)
    ensures ApplyRiskPenalties(score, risks) == score
  {
    assert "blur" in RiskKeys && "dark" in RiskKeys && "overexposed" in RiskKeys && "out_of_focus" in RiskKeys;
  }

  /** The score a clip's analysis ends with: the judge's score corrected for
      quality, then for the flagged risks. */
  function CorrectedScore(analysis: map<string, Value>, quality: map<string, Value>, width: int, height: int): (r: real)
    requires IsRepaired(analysis) && "score" in analysis && IsNumber(analysis["score"])
    ensures 0.0 <= r <= 1.0
  {
    var corrected := ApplyQualityCorrections(AsReal(analysis["score"]), quality, width, height);
    ApplyRiskPenalties(corrected, analysis["risks"].entries)
  }

  /** The risk pass never raises what the quality pass left. */
  lemma CorrectedScoreBelowQuality(analysis: map<string, Value>, quality: map<string, Value>, width: int, height: int)
    requires IsRepaired(analysis) && "score" in analysis && IsNumber(analysis["score"])
    ensures CorrectedScore(analysis, quality, width, height)
      <= ApplyQualityCorrections(AsReal(analysis["score"]), quality, width, height)
  {
    RiskPenaltiesDeduct(ApplyQualityCorrections(AsReal(analysis["score"]), quality, width, height), analysis["risks"].entries);
  }

  // ---------------------------------------------------------------------------
  // The per-clip record of run_video_digest

  /** The reply, validated, with `score` replaced by the corrected score. */
  function AnalyzeClip(reply: Value, quality: map<string, Value>, width: int, height: int): (r: Result<map<string, Value>, string>)
    ensures r.Failure? <==> Validated(reply).Failure?
    ensures r.Success? ==> IsRepaired(r.value) && "score" in r.value && r.value["score"].Float?
    ensures r.Success? ==> 0.0 <= r.value["score"].f <= 1.0
    ensures r.Success? ==> var a := Validated(reply).value;
      r.value == a["score" := Float(CorrectedScore(a, quality, width, height))]
  {
    match Validated(reply)
    case Failure(e) => Failure(e)
    case Success(a) =>
      var corrected := ApplyQualityCorrections(AsReal(a["score"]), quality, width, height);
      var a1 := a["score" := Float(corrected)];
      ScoreRewritten(a, Float(corrected), Float(ApplyRiskPenalties(corrected, a["risks"].entries)));
      Success(a1["score" := Float(ApplyRiskPenalties(corrected, a1["risks"].entries))])
  }

  /** Writing `score` twice leaves the second value, and keeps the repairs. */
  lemma ScoreRewritten(a: map<string, Value>, x: Value, y: Value)
    requires IsRepaired(a)
    ensures a["score" := x]["risks"] == a["risks"]
    ensures a["score" := x]["score" := y] == a["score" := y]
    ensures IsRepaired(a["score" := y])
  {
    assert a["score" := x]["score" := y].Keys == a["score" := y].Keys;
  }

  /** The keys `record.update` writes when the analysis of a clip failed. */
  function FailedRecord(base: Record, message: string): (r: Record)
    ensures r.Keys == base.Keys + {"analysis", "quality", "has_speech", "audio_rms", "score_final", "error"}
  {
    base + map["analysis" := Null, "quality" := Null, "has_speech" := Null, "audio_rms" := Null,
      "score_final" := Null, "error" := Str(message)]
  }

  // ---------------------------------------------------------------------------
  // _passes_quality_gate and _select_clips_for_source

  /** `_passes_quality_gate(record)`. */
  predicate PassesQualityGate(rec: Record)
  {
    var quality := Get(rec, "quality");
    && quality.Dict?
    && var brightness := Get(quality.entries, "brightness");
    !(IsNumber(brightness) && AsReal(brightness) < MinBrightnessGate)
  }

  /** The gate rejects a record without a quality dict and one whose
      brightness is a number below 15; everything else passes, a missing or
      non-numeric brightness included. A quality dict as `analyze_quality`
      writes it passes exactly when the measured brightness is at least 15. */
  lemma QualityGateCases(rec: Record, m: Metrics)
    ensures !Get(rec, "quality").Dict? ==> !PassesQualityGate(rec)
    ensures Get(rec, "quality").Dict? && "brightness" !in Get(rec, "quality").entries ==> PassesQualityGate(rec)
    ensures Get(rec, "quality").Dict? && "brightness" in Get(rec, "quality").entries ==>
      (var b := Get(rec, "quality").entries["brightness"];
       PassesQualityGate(rec) <==> !IsNumber(b) || AsReal(b) >= MinBrightnessGate)
    ensures PassesQualityGate(rec["quality" := Dict(AnalyzeQuality(m))]) <==> m.brightness >= MinBrightnessGate
  {
    var q := AnalyzeQuality(m);
    assert Get(rec["quality" := Dict(q)], "quality") == Dict(q);
  }

  /** The records `_select_clips_for_source` considers: no truthy `error`, a
      numeric `score_final`, and the quality gate passed. */
  predicate ClipEligible(rec: Record)
  {
    !Truthy(Get(rec, "error")) && IsNumber(Get(rec, "score_final")) && PassesQualityGate(rec)
  }

  /** A record whose analysis failed is never considered. */
  lemma FailedNeverEligible(base: Record, message: string)
    ensures !ClipEligible(FailedRecord(base, message))
  {
    assert Get(FailedRecord(base, message), "score_final") == Null;
  }

  /** `item["score_final"]`, the sort key. */
  function ScoreFinal(rec: Record): real
  {
    if IsNumber(Get(rec, "score_final")) then AsReal(Get(rec, "score_final")) else 0.0
  }

  /** `float(record.get(key, 0.0))`: `None` where `float` raises. */
  function FloatField(rec: Record, key: string): Option<real>
  {
    if key !in rec then Some(0.0) else CoerceFloat(rec[key])
  }

  /** The eligible records, best first. */
  function Ordered(records: seq<Record>): (r: seq<Record>)
    ensures IsSortedDesc(r, ScoreFinal)
    ensures forall i :: 0 <= i < |r| ==> ClipEligible(r[i]) && r[i] in records
  {
    var r := SortDesc(Filter(records, ClipEligible), ScoreFinal);
    SortedFilterFrom(records, ClipEligible, ScoreFinal, r);
    r
  }

  /** `float(record.get("duration", 0.0))`. */
  function Duration(rec: Record): Option<real>
  {
    FloatField(rec, "duration")
  }

  /** The greedy pass over `items`, reading each duration with `dur`, with
      `total` seconds already taken: an item that would overshoot the budget
      is skipped, an item that fills it ends the pass. `None` where reading
      a duration raises. */
  function Greedy<T>(items: seq<T>, dur: T -> Option<real>, total: real, limit: real): Option<seq<T>>
  {
    if items == [] then Some([])
    else match dur(items[0])
      case None => None
      case Some(d) =>
        if total + d > limit then Greedy(items[1..], dur, total, limit)
        else if total + d >= limit then Some([items[0]])
        else Prepend([items[0]], Greedy(items[1..], dur, total + d, limit))
  }

  function Prepend<T>(s: seq<T>, o: Option<seq<T>>): Option<seq<T>>
  {
    match o
    case None => None
    case Some(t) => Some(s + t)
  }

  lemma PrependNothing<T>(o: Option<seq<T>>)
    ensures Prepend([], o) == o
  {
    if o.Some? {
      assert [] + o.value == o.value;
    }
  }

  lemma PrependTwice<T>(a: seq<T>, b: seq<T>, o: Option<seq<T>>)
    ensures Prepend(a + b, o) == Prepend(a, Prepend(b, o))
  {
    if o.Some? {
      assert a + b + o.value == a + (b + o.value);
    }
  }

  /** What `_select_clips_for_source(records, max_source_seconds)` returns. */
  function SelectedClips(records: seq<Record>, maxSourceSeconds: int): Option<seq<Record>>
  {
    Greedy(Ordered(records), Duration, 0.0, maxSourceSeconds as real)
  }

  /** `_select_clips_for_source(records, max_source_seconds)`: the eligible
      records best first, then the greedy pass. */
  method SelectClipsForSource(records: seq<Record>, maxSourceSeconds: int) returns (r: Option<seq<Record>>)
    ensures r == SelectedClips(records, maxSourceSeconds)
  {
    var ordered := Ordered(records);
    r := GreedyPass(ordered, Duration, maxSourceSeconds as real);
  }

  /** The loop of `_select_clips_for_source` over the ordered records. */
  method GreedyPass<T>(ordered: seq<T>, dur: T -> Option<real>, limit: real) returns (r: Option<seq<T>>)
    ensures r == Greedy(ordered, dur, 0.0, limit)
  {
    var selected: seq<T> := [];
    var total := 0.0;
    assert ordered[0..] == ordered;
    PrependNothing(Greedy(ordered, dur, 0.0, limit));
    for i := 0 to |ordered|
      invariant Greedy(ordered, dur, 0.0, limit) == Prepend(selected, Greedy(ordered[i..], dur, total, limit))
    {
      assert ordered[i..][1..] == ordered[i + 1..];
      var duration := dur(ordered[i]);
      if duration.None? {
        assert Greedy(ordered[i..], dur, total, limit) == None;
        return None;
      }
      if total + duration.value > limit {
        continue;
      }
      PrependTwice(selected, [ordered[i]], Greedy(ordered[i + 1..], dur, total + duration.value, limit));
      selected := selected + [ordered[i]];
      total := total + duration.value;
      if total >= limit {
        assert Greedy(ordered, dur, 0.0, limit) == Some(selected);
        break;
      }
    }
    assert selected + [] == selected;
    r := Some(selected);
  }

  /** The sum of the durations `dur` reads, a duration that cannot be read
      counting as 0. */
  function TotalDuration<T>(items: seq<T>, dur: T -> Option<real>): real
  {
    if items == [] then 0.0 else dur(items[0]).GetOr(0.0) + TotalDuration(items[1..], dur)
  }

  /** The chosen items never exceed the budget. */
  lemma {:induction false} GreedyWithinBudget<T>(items: seq<T>, dur: T -> Option<real>, total: real, limit: real)
    requires total <= limit && Greedy(items, dur, total, limit).Some?
    ensures total + TotalDuration(Greedy(items, dur, total, limit).value, dur) <= limit
  {
    if items != [] {
      var d := dur(items[0]).value;
      if total + d > limit {
        GreedyWithinBudget(items[1..], dur, total, limit);
      } else if total + d < limit {
        GreedyWithinBudget(items[1..], dur, total + d, limit);
        var rest := Greedy(items[1..], dur, total + d, limit).value;
        assert ([items[0]] + rest)[1..] == rest;
      }
    }
  }

  /** The chosen items keep the order of the list they come from. */
  lemma {:induction false} GreedySubseq<T>(items: seq<T>, dur: T -> Option<real>, total: real, limit: real)
    requires Greedy(items, dur, total, limit).Some?
    ensures IsSubseq(Greedy(items, dur, total, limit).value, items)
  {
    if items != [] {
      var d := dur(items[0]).value;
      var sel := Greedy(items, dur, total, limit).value;
      if total + d > limit {
        GreedySubseq(items[1..], dur, total, limit);
        SubseqOfTail(sel, items);
      } else if total + d >= limit {
        assert sel[1..] == [];
      } else {
        GreedySubseq(items[1..], dur, total + d, limit);
        assert sel[1..] == Greedy(items[1..], dur, total + d, limit).value;
      }
    }
  }

  /** While the budget is not filled every item is visited, so an item that
      was left out would have overshot what remains of the budget. */
  lemma {:induction false} GreedyMaximal<T>(items: seq<T>, dur: T -> Option<real>, total: real, limit: real)
    requires forall x :: x in items && dur(x).Some? ==> dur(x).value >= 0.0
    requires Greedy(items, dur, total, limit).Some?
    requires total + TotalDuration(Greedy(items, dur, total, limit).value, dur) < limit
    ensures forall x :: x in items && x !in Greedy(items, dur, total, limit).value ==>
      dur(x).Some? && total + TotalDuration(Greedy(items, dur, total, limit).value, dur) + dur(x).value > limit
  {
    if items != [] {
      var d := dur(items[0]).value;
      var sel := Greedy(items, dur, total, limit).value;
      if total + d > limit {
        GreedyMaximal(items[1..], dur, total, limit);
        SubseqIn(sel, items[1..]) by { GreedySubseq(items[1..], dur, total, limit); }
        TotalDurationNonNegative(sel, dur);
      } else if total + d >= limit {
        TotalDurationSingle(items[0], dur);
        assert false;
      } else {
        var rest := Greedy(items[1..], dur, total + d, limit).value;
        assert sel == [items[0]] + rest && sel[1..] == rest;
        GreedyMaximal(items[1..], dur, total + d, limit);
      }
    }
  }

  /** One item lasts its own duration. */
  lemma TotalDurationSingle<T>(x: T, dur: T -> Option<real>)
    ensures TotalDuration([x], dur) == dur(x).GetOr(0.0)
  {
    assert [x][1..] == [];
  }

  /** Durations that are never negative sum to something non-negative. */
  lemma {:induction false} TotalDurationNonNegative<T>(items: seq<T>, dur: T -> Option<real>)
    requires forall x :: x in items && dur(x).Some? ==> dur(x).value >= 0.0
    ensures TotalDuration(items, dur) >= 0.0
  {
    if items != [] {
      TotalDurationNonNegative(items[1..], dur);
    }
  }

  /** What `_select_clips_for_source` promises: the chosen clips are
      eligible records of the source, best first, and never longer together
      than the budget. */
  lemma SelectedClipsSound(records: seq<Record>, maxSourceSeconds: int)
    requires SelectedClips(records, maxSourceSeconds).Some?
    ensures var sel := SelectedClips(records, maxSourceSeconds).value;
      && (forall i :: 0 <= i < |sel| ==> ClipEligible(sel[i]) && sel[i] in records)
      && IsSortedDesc(sel, ScoreFinal)
      && (maxSourceSeconds >= 0 ==> TotalDuration(sel, Duration) <= maxSourceSeconds as real)
  {
    var ordered := Ordered(records);
    var limit := maxSourceSeconds as real;
    var sel := SelectedClips(records, maxSourceSeconds).value;
    GreedySubseq(ordered, Duration, 0.0, limit);
    SubseqIn(sel, ordered);
    SubseqSortedDesc(sel, ordered, ScoreFinal);
    if maxSourceSeconds >= 0 {
      GreedyWithinBudget(ordered, Duration, 0.0, limit);
    }
  }

  /** While the budget is not filled, every eligible record left out is
      longer than what remains of it. */
  lemma SelectedClipsMaximal(records: seq<Record>, maxSourceSeconds: int)
    requires forall r :: r in records && Duration(r).Some? ==> Duration(r).value >= 0.0
    requires SelectedClips(records, maxSourceSeconds).Some?
    requires TotalDuration(SelectedClips(records, maxSourceSeconds).value, Duration) < maxSourceSeconds as real
    ensures var sel := SelectedClips(records, maxSourceSeconds).value;
      forall r :: r in records && ClipEligible(r) && r !in sel ==>
        Duration(r).Some? && TotalDuration(sel, Duration) + Duration(r).value > maxSourceSeconds as real
  {
    var ordered := Ordered(records);
    var limit := maxSourceSeconds as real;
    forall x | x in ordered && Duration(x).Some? ensures Duration(x).value >= 0.0 {
      var i :| 0 <= i < |ordered| && ordered[i] == x;
      assert x in records;
    }
    GreedyMaximal(ordered, Duration, 0.0, limit);
    forall r | r in records && ClipEligible(r) ensures r in ordered {
      var eligible := Filter(records, ClipEligible);
      assert r in eligible;
      assert r in multiset(ordered);
    }
  }

  // ---------------------------------------------------------------------------
  // _process_single_source

  /** One entry of `selected_clips` in a source's result. */
  datatype ManifestEntry = ManifestEntry(path: string, start: Value, end: Value, score: Value, hasSpeech: Value)

  /** A source's result dict. */
  datatype SourceResult = SourceResult(
    sourceVideo: string,
    selectedClips: seq<ManifestEntry>,
    digestPath: Option<string>,
    totalDuration: real,
    error: Option<string>)

  /** Which of the file operations of one source fail: the copies (by the
      1-based index of the clip) and the two concatenations. */
  datatype Effects = Effects(failedCopies: set<nat>, rootConcatFails: bool, folderConcatFails: bool)

  /** `Path(record["clip_path"])`: `None` where the key is missing or the
      value is not a string. */
  function ClipPathOf(rec: Record): Option<string>
  {
    if "clip_path" in rec && rec["clip_path"].Str? then Some(rec["clip_path"].s) else None
  }

  /** `float(item.get("start", 0.0))`, the timeline sort key. */
  function Start(rec: Record): real
  {
    FloatField(rec, "start").GetOr(0.0)
  }

  /** `selected_clips_dir / f"clip_{idx:04d}{clip_path.suffix}"`. */
  function Destination(dir: string, idx: nat, clipPath: string): string
  {
    Join(dir, "clip_" + FormatDec04(idx) + Suffix(clipPath))
  }

  /** The manifest entry of a clip copied to `destination`. */
  function EntryFor(rec: Record, destination: string): (e: ManifestEntry)
    ensures e.path == destination
  {
    ManifestEntry(destination, Get(rec, "start"), Get(rec, "end"), Get(rec, "score_final"), Get(rec, "has_speech"))
  }

  /** The errors that stop the copy loop: `record["clip_path"]` missing or
      not a path, and `shutil.copy2` failing. */
  const NoClipPath: string := "clip_path is missing or not a string"
  const CopyFailed: string := "copy failed"

  /** How far the copy loop gets: how many clips it copies, and the error
      that stops it, if one does. */
  datatype CopyStop = CopyStop(count: nat, error: Option<string>)

  /** The copy loop over `clips` numbered from `idx`: a clip whose path
      cannot be read, or whose copy fails, ends it with an error. */
  function CopyProgress(clips: seq<Record>, idx: nat, effects: Effects): (r: CopyStop)
    ensures r.count <= |clips|
    ensures r.error.None? <==> r.count == |clips|
  {
    if clips == [] then CopyStop(0, None)
    else if ClipPathOf(clips[0]).None? then CopyStop(0, Some(NoClipPath))
    else if idx in effects.failedCopies then CopyStop(0, Some(CopyFailed))
    else
      var rest := CopyProgress(clips[1..], idx + 1, effects);
      CopyStop(rest.count + 1, rest.error)
  }

  /** The clips the loop gets through all have a path and copy; it stops at
      the first that does not. */
  lemma {:induction false} CopyProgressStops(clips: seq<Record>, idx: nat, effects: Effects)
    ensures var r := CopyProgress(clips, idx, effects);
      && (forall k :: 0 <= k < r.count ==> ClipPathOf(clips[k]).Some? && idx + k !in effects.failedCopies)
      && (r.count < |clips| ==> ClipPathOf(clips[r.count]).None? || idx + r.count in effects.failedCopies)
      && (r.count < |clips| ==>
            r.error == Some(if ClipPathOf(clips[r.count]).None? then NoClipPath else CopyFailed))
    decreases |clips|
  {
    if clips != [] && ClipPathOf(clips[0]).Some? && idx !in effects.failedCopies {
      var rest := clips[1..];
      CopyProgressStops(rest, idx + 1, effects);
      var r := CopyProgress(clips, idx, effects);
      var t := CopyProgress(rest, idx + 1, effects);
      assert r.count == t.count + 1 && r.error == t.error;
      forall k | 0 <= k < r.count ensures ClipPathOf(clips[k]).Some? && idx + k !in effects.failedCopies {
        if k > 0 {
          assert clips[k] == rest[k - 1] && idx + k == (idx + 1) + (k - 1);
        }
      }
      if r.count < |clips| {
        assert clips[r.count] == rest[r.count - 1];
      }
    }
  }

  /** The entry of a clip copied under the number `n`. */
  function NumberedEntry(dir: string): (Record, nat) -> ManifestEntry
  {
    (clip: Record, n: nat) => EntryFor(clip, Destination(dir, n, ClipPathOf(clip).GetOr("")))
  }

  /** The manifest entries of `clips`, copied in turn under the numbers from
      `idx` on: the k-th entry is the k-th clip's, under number `idx + k`. */
  function Entries(clips: seq<Record>, dir: string, idx: nat): (r: seq<ManifestEntry>)
    ensures |r| == |clips|
  {
    Numbered(clips, idx, NumberedEntry(dir))
  }

  /** The entries of one more clip: one more entry, under the next number. */
  lemma EntriesSnoc(clips: seq<Record>, dir: string, i: nat)
    requires i < |clips|
    ensures Entries(clips[..i + 1], dir, 1) == Entries(clips[..i], dir, 1) + [NumberedEntry(dir)(clips[i], i + 1)]
  {
    NumberedSnoc(clips, 1, i, NumberedEntry(dir));
  }

  /** A clip with a path is copied to the destination numbered `n`. */
  lemma NumberedEntryIs(dir: string, clip: Record, n: nat)
    requires ClipPathOf(clip).Some?
    ensures NumberedEntry(dir)(clip, n) == EntryFor(clip, Destination(dir, n, ClipPathOf(clip).value))
  {
  }

  /** What the copy loop leaves: the entries of the clips it got through,
      and the error that stopped it. */
  function Copied(clips: seq<Record>, dir: string, effects: Effects): (r: CopyOutcome)
    ensures |r.entries| <= |clips|
    ensures r.error.None? <==> |r.entries| == |clips|
  {
    var p := CopyProgress(clips, 1, effects);
    CopyOutcome(Entries(clips[..p.count], dir, 1), p.error)
  }

  /** The entries made, and the error that stopped the copy loop. */
  datatype CopyOutcome = CopyOutcome(entries: seq<ManifestEntry>, error: Option<string>)

  /** The `i`-th clip, reached by the loop, is copied when it has a path
      and its copy works; otherwise the loop stops there with its error. */
  lemma CopyProgressAt(clips: seq<Record>, effects: Effects, i: nat)
    requires i < |clips| && i <= CopyProgress(clips, 1, effects).count
    ensures var p := CopyProgress(clips, 1, effects);
      if ClipPathOf(clips[i]).Some? && i + 1 !in effects.failedCopies then i < p.count
      else i == p.count && p.error == Some(if ClipPathOf(clips[i]).None? then NoClipPath else CopyFailed)
  {
    CopyProgressStops(clips, 1, effects);
  }

  /** The copy loop: every copied clip gets the next number. */
  method CopySelected(clips: seq<Record>, dir: string, effects: Effects) returns (r: CopyOutcome)
    ensures r == Copied(clips, dir, effects)
  {
    var manifest: seq<ManifestEntry> := [];
    ghost var count := CopyProgress(clips, 1, effects).count;
    for i := 0 to |clips|
      invariant i <= count
      invariant manifest == Entries(clips[..i], dir, 1)
    {
      var idx := i + 1;
      var clipPath := ClipPathOf(clips[i]);
      CopyProgressAt(clips, effects, i);
      if clipPath.None? || idx in effects.failedCopies {
        var error := if clipPath.None? then NoClipPath else CopyFailed;
        return CopyOutcome(manifest, Some(error));
      }
      EntriesSnoc(clips, dir, i);
      NumberedEntryIs(dir, clips[i], idx);
      manifest := manifest + [EntryFor(clips[i], Destination(dir, idx, clipPath.value))];
    }
    assert clips[..|clips|] == clips;
    r := CopyOutcome(manifest, None);
  }

  /** The run of decimal digits a string starts with. */
  function LeadingDigits(x: string): string
  {
    if x != [] && IsDecDigit(x[0]) then [x[0]] + LeadingDigits(x[1..]) else []
  }

  /** Digits followed by something that does not start with a digit: the
      digits are the leading run. */
  lemma {:induction false} LeadingDigitsOf(a: string, rest: string)
    requires AllDigits(a, 10) && (rest == [] || !IsDecDigit(rest[0]))
    ensures LeadingDigits(a + rest) == a
  {
    if a == [] {
      assert a + rest == rest;
    } else {
      assert (a + rest)[1..] == a[1..] + rest;
      assert AllDigits(a[1..], 10) by {
        forall i | 0 <= i < |a[1..]| ensures IsHexDigit(a[1..][i]) && DigitValue(a[1..][i]) < 10 {
          assert a[1..][i] == a[i + 1];
        }
      }
      LeadingDigitsOf(a[1..], rest);
      assert IsHexDigit(a[0]) && DigitValue(a[0]) < 10;
      assert [a[0]] + a[1..] == a;
    }
  }

  /** Names `clip_<digits><suffix>` in one folder differ wherever the
      digits differ. */
  lemma ClipNamesCancel(dir: string, a: string, b: string, s1: string, s2: string)
    requires AllDigits(a, 10) && (s1 == [] || !IsDecDigit(s1[0]))
    requires AllDigits(b, 10) && (s2 == [] || !IsDecDigit(s2[0]))
    ensures Join(dir, "clip_" + a + s1) == Join(dir, "clip_" + b + s2) ==> a == b
  {
    var x := "clip_" + a + s1;
    var y := "clip_" + b + s2;
    JoinCancels(dir, x, y);
    assert x[5..] == a + s1 && y[5..] == b + s2;
    LeadingDigitsOf(a, s1);
    LeadingDigitsOf(b, s2);
  }

  /** Different numbers give different file names, whatever the suffixes. */
  lemma DestinationInjective(dir: string, i: nat, j: nat, p: string, q: string)
    ensures Destination(dir, i, p) == Destination(dir, j, q) ==> i == j
  {
    var a, b := FormatDec04(i), FormatDec04(j);
    ClipNamesCancel(dir, a, b, Suffix(p), Suffix(q));
    assert Destination(dir, i, p) == Join(dir, "clip_" + a + Suffix(p));
    assert Destination(dir, j, q) == Join(dir, "clip_" + b + Suffix(q));
    if a == b {
      FormatDec04Injective(i, j);
    }
  }

  /** Every copy lands directly in the clip folder, named after its number
      and its clip's suffix. */
  lemma DestinationInFolder(dir: string, idx: nat, clipPath: string)
    ensures ChildNamed(Destination(dir, idx, clipPath), dir, "clip_" + FormatDec04(idx) + Suffix(clipPath))
  {
    JoinChild(dir, "clip_" + FormatDec04(idx) + Suffix(clipPath));
  }

  /** What `float()` raises on a duration or a start that is not a number,
      and what a failed `ffmpeg` concatenation raises. */
  const NotANumber: string := "could not convert value to float"
  const ConcatFailed: string := "ffmpeg concat failed"

  /** Every clip has a `start` that `float()` accepts, or none at all. */
  predicate StartsReadable(clips: seq<Record>)
  {
    forall k :: 0 <= k < |clips| ==> FloatField(clips[k], "start").Some?
  }

  /** What `_process_single_source` returns for the clips of one source. */
  function SingleSource(sourcePath: string, records: seq<Record>, paths: VideoOutputPaths, maxSourceSeconds: int,
                        preset: string, concatInDigestFolder: bool, effects: Effects): (r: SourceResult)
    ensures r.sourceVideo == sourcePath
  {
    match SelectedClips(records, maxSourceSeconds)
    case None => SourceResult(sourcePath, [], None, 0.0, Some(NotANumber))
    case Some(selected) => Published(sourcePath, selected, paths, preset, concatInDigestFolder, effects)
  }

  /** The rest of `_process_single_source` once the clips are selected:
      timeline order, copies, concatenation. */
  function Published(sourcePath: string, selected: seq<Record>, paths: VideoOutputPaths,
                     preset: string, concatInDigestFolder: bool, effects: Effects): SourceResult
  {
    var stem := Stem(sourcePath);
    var total := TotalDuration(selected, Duration);
    if !StartsReadable(selected) then SourceResult(sourcePath, [], None, total, Some(NotANumber))
    else
      var copied := Copied(SortAsc(selected, Start), DigestClipsSourceDir(paths, stem), effects);
      if copied.error.Some? then SourceResult(sourcePath, copied.entries, None, total, copied.error)
      else
        var digest := if preset != "clips_only" && copied.entries != [] then Some(FinalDigestPath(paths, stem)) else None;
        var error :=
          if digest.Some? && effects.rootConcatFails then Some(ConcatFailed)
          else if concatInDigestFolder && copied.entries != [] && effects.folderConcatFails then Some(ConcatFailed)
          else None;
        SourceResult(sourcePath, copied.entries, digest, total, error)
  }

  /** `_process_single_source(source_path, records, ...)`. */
  method ProcessSingleSource(sourcePath: string, records: seq<Record>, paths: VideoOutputPaths, maxSourceSeconds: int,
                             preset: string, concatInDigestFolder: bool, effects: Effects) returns (r: SourceResult)
    ensures r == SingleSource(sourcePath, records, paths, maxSourceSeconds, preset, concatInDigestFolder, effects)
  {
    var selection := SelectClipsForSource(records, maxSourceSeconds);
    if selection.None? {
      return SourceResult(sourcePath, [], None, 0.0, Some(NotANumber));
    }
    r := Publish(sourcePath, selection.value, paths, preset, concatInDigestFolder, effects);
  }

  /** The keys `sorted` reads before it orders anything: false as soon as
      one `start` is not a number `float()` accepts. */
  method ReadStarts(selected: seq<Record>) returns (readable: bool)
    ensures readable == StartsReadable(selected)
  {
    for k := 0 to |selected|
      invariant forall j :: 0 <= j < k ==> FloatField(selected[j], "start").Some?
    {
      if FloatField(selected[k], "start").None? {
        return false;
      }
    }
    return true;
  }

  /** The body of `_process_single_source` after the selection: sort the
      selection by start, copy it, then concatenate the copies. */
  method Publish(sourcePath: string, selected: seq<Record>, paths: VideoOutputPaths,
                 preset: string, concatInDigestFolder: bool, effects: Effects) returns (r: SourceResult)
    ensures r == Published(sourcePath, selected, paths, preset, concatInDigestFolder, effects)
  {
    var stem := Stem(sourcePath);
    var total := TotalDuration(selected, Duration);
    var readable := ReadStarts(selected);
    if !readable {
      return SourceResult(sourcePath, [], None, total, Some(NotANumber));
    }
    var timeline := SortAsc(selected, Start);
    var copied := CopySelected(timeline, DigestClipsSourceDir(paths, stem), effects);
    if copied.error.Some? {
      return SourceResult(sourcePath, copied.entries, None, total, copied.error);
    }
    var digest: Option<string> := None;
    var error: Option<string> := None;
    if preset != "clips_only" && copied.entries != [] {
      digest := Some(FinalDigestPath(paths, stem));
      if effects.rootConcatFails {
        error := Some(ConcatFailed);
      }
    }
    if error.None? && concatInDigestFolder && copied.entries != [] && effects.folderConcatFails {
      error := Some(ConcatFailed);
    }
    r := SourceResult(sourcePath, copied.entries, digest, total, error);
  }

  /** What the result of a source promises: its own source, the total
      duration of the selection, every selected clip copied unless an error
      is reported, and a digest exactly when there are copies and the preset
      asks for one. */
  lemma PublishedOutcome(sourcePath: string, selected: seq<Record>, paths: VideoOutputPaths,
                         preset: string, concatInDigestFolder: bool, effects: Effects)
    ensures var r := Published(sourcePath, selected, paths, preset, concatInDigestFolder, effects);
      && r.sourceVideo == sourcePath
      && r.totalDuration == TotalDuration(selected, Duration)
      && |r.selectedClips| <= |selected|
      && (r.digestPath.Some? ==>
            r.digestPath == Some(FinalDigestPath(paths, Stem(sourcePath)))
            && preset != "clips_only" && r.selectedClips != [] && |r.selectedClips| == |selected|)
      && (r.error.None? ==> |r.selectedClips| == |selected|)
      && (r.error.None? ==> (r.digestPath.Some? <==> preset != "clips_only" && selected != []))
  {
    if StartsReadable(selected) {
      var sorted := SortAsc(selected, Start);
      var copied := Copied(sorted, DigestClipsSourceDir(paths, Stem(sourcePath)), effects);
      assert |copied.entries| <= |sorted| == |selected|;
    }
  }

  /** The start a manifest entry shows, read as the sort read it. */
  function EntryStart(e: ManifestEntry): real
  {
    if e.start.Null? then 0.0 else CoerceFloat(e.start).GetOr(0.0)
  }

  /** An entry shows the start its clip was sorted by. */
  lemma EntryStartAgrees(rec: Record, destination: string)
    requires FloatField(rec, "start").Some?
    ensures EntryStart(EntryFor(rec, destination)) == Start(rec)
  {
  }

  /** Entries of clips in timeline order are in timeline order. */
  lemma EntriesInTimelineOrder(clips: seq<Record>, dir: string, idx: nat)
    requires StartsReadable(clips) && IsSortedAsc(clips, Start)
    ensures IsSortedAsc(Entries(clips, dir, idx), EntryStart)
  {
    var f := NumberedEntry(dir);
    forall k | 0 <= k < |clips| ensures EntryStart(f(clips[k], idx + k)) == Start(clips[k]) {
      EntryStartAgrees(clips[k], Destination(dir, idx + k, ClipPathOf(clips[k]).GetOr("")));
    }
    NumberedSortedAsc(clips, idx, f, Start, EntryStart);
  }

  /** Any prefix of the selection in timeline order is in timeline order,
      and its starts are readable when the selection's are. */
  lemma TimelinePrefix(selected: seq<Record>, n: nat)
    requires StartsReadable(selected) && n <= |selected|
    ensures StartsReadable(SortAsc(selected, Start)[..n]) && IsSortedAsc(SortAsc(selected, Start)[..n], Start)
  {
    var done := SortAsc(selected, Start)[..n];
    forall k | 0 <= k < |done| ensures FloatField(done[k], "start").Some? {
      assert done[k] in multiset(SortAsc(selected, Start));
    }
  }

  /** The copies are listed in timeline order, earliest start first. */
  lemma PublishedInTimelineOrder(sourcePath: string, selected: seq<Record>, paths: VideoOutputPaths,
                                 preset: string, concatInDigestFolder: bool, effects: Effects)
    ensures IsSortedAsc(Published(sourcePath, selected, paths, preset, concatInDigestFolder, effects).selectedClips, EntryStart)
  {
    if StartsReadable(selected) {
      var timeline := SortAsc(selected, Start);
      var count := CopyProgress(timeline, 1, effects).count;
      CopyProgressStops(timeline, 1, effects);
      TimelinePrefix(selected, count);
      EntriesInTimelineOrder(timeline[..count], DigestClipsSourceDir(paths, Stem(sourcePath)), 1);
    }
  }

  /** The clips of a source never run longer together than the budget. */
  lemma SingleSourceWithinBudget(sourcePath: string, records: seq<Record>, paths: VideoOutputPaths, maxSourceSeconds: int,
                                 preset: string, concatInDigestFolder: bool, effects: Effects)
    requires maxSourceSeconds >= 0
    ensures SingleSource(sourcePath, records, paths, maxSourceSeconds, preset, concatInDigestFolder, effects).totalDuration
      <= maxSourceSeconds as real
  {
    if SelectedClips(records, maxSourceSeconds).Some? {
      SelectedClipsSound(records, maxSourceSeconds);
      PublishedOutcome(sourcePath, SelectedClips(records, maxSourceSeconds).value, paths, preset, concatInDigestFolder, effects);
    }
  }

  // ---------------------------------------------------------------------------
  // _process_sources

  /** `record.get("source_path")` when it is a string. */
  function SourceOf(rec: Record): Option<string>
  {
    if "source_path" in rec && rec["source_path"].Str? then Some(rec["source_path"].s) else None
  }

  /** The key of every item that has one, in item order. */
  function KeysOf<T, K>(items: seq<T>, key: T -> Option<K>): seq<K>
  {
    if items == [] then []
    else
      var last := items[|items| - 1];
      KeysOf(items[..|items| - 1], key) + (if key(last).Some? then [key(last).value] else [])
  }

  /** The items whose key is `k`, in item order. */
  function GroupOf<T, K(==)>(items: seq<T>, key: T -> Option<K>, k: K): seq<T>
  {
    if items == [] then []
    else
      var last := items[|items| - 1];
      GroupOf(items[..|items| - 1], key, k) + (if key(last) == Some(k) then [last] else [])
  }

  lemma KeysOfSnoc<T, K>(items: seq<T>, key: T -> Option<K>, i: nat)
    requires i < |items|
    ensures key(items[i]).Some? ==> KeysOf(items[..i + 1], key) == KeysOf(items[..i], key) + [key(items[i]).value]
    ensures key(items[i]).None? ==> KeysOf(items[..i + 1], key) == KeysOf(items[..i], key)
  {
    assert items[..i + 1][..i] == items[..i];
    assert KeysOf(items[..i], key) + [] == KeysOf(items[..i], key);
  }

  lemma GroupOfSnoc<T, K>(items: seq<T>, key: T -> Option<K>, i: nat, k: K)
    requires i < |items|
    ensures key(items[i]) == Some(k) ==> GroupOf(items[..i + 1], key, k) == GroupOf(items[..i], key, k) + [items[i]]
    ensures key(items[i]) != Some(k) ==> GroupOf(items[..i + 1], key, k) == GroupOf(items[..i], key, k)
  {
    assert items[..i + 1][..i] == items[..i];
    assert GroupOf(items[..i], key, k) + [] == GroupOf(items[..i], key, k);
  }

  /** A key that no item carries has an empty group. */
  lemma {:induction false} GroupOfUnkeyed<T, K>(items: seq<T>, key: T -> Option<K>, k: K)
    requires k !in KeysOf(items, key)
    ensures GroupOf(items, key, k) == []
  {
    if items != [] {
      GroupOfUnkeyed(items[..|items| - 1], key, k);
    }
  }

  /** A group holds exactly the items with its key, and a key is listed
      exactly when some item carries it. */
  lemma {:induction false} GroupOfMembers<T, K>(items: seq<T>, key: T -> Option<K>, k: K)
    ensures forall x :: x in GroupOf(items, key, k) <==> x in items && key(x) == Some(k)
    ensures k in KeysOf(items, key) <==> exists x :: x in items && key(x) == Some(k)
  {
    if items != [] {
      var init, last := items[..|items| - 1], items[|items| - 1];
      assert items == init + [last];
      GroupOfMembers(init, key, k);
    }
  }

  /** Python's `dict.setdefault(key, []).append(item)` over a list: `grouped`
      maps every key to its items, and `order` lists the keys in order of
      first appearance, which is the key order of a Python dict. */
  method GroupBy<T, K(==)>(items: seq<T>, key: T -> Option<K>) returns (grouped: map<K, seq<T>>, order: seq<K>)
    ensures order == Distinct(KeysOf(items, key))
    ensures forall k :: k in grouped <==> k in order
    ensures forall k :: k in grouped ==> grouped[k] == GroupOf(items, key, k)
  {
    grouped := map[];
    order := [];
    for i := 0 to |items|
      invariant order == Distinct(KeysOf(items[..i], key))
      invariant forall k :: k in grouped <==> k in order
      invariant forall k :: k in grouped ==> grouped[k] == GroupOf(items[..i], key, k)
    {
      var kOpt := key(items[i]);
      KeysOfSnoc(items, key, i);
      if kOpt.None? {
        forall k | k in grouped ensures grouped[k] == GroupOf(items[..i + 1], key, k) {
          GroupOfSnoc(items, key, i, k);
        }
        continue;
      }
      var k := kOpt.value;
      DistinctSnoc(KeysOf(items[..i], key), k);
      var group := if k in grouped then grouped[k] else [];
      if k !in grouped {
        GroupOfUnkeyed(items[..i], key, k);
        order := order + [k];
      }
      ghost var before := grouped;
      grouped := grouped[k := group + [items[i]]];
      forall k' | k' in grouped ensures grouped[k'] == GroupOf(items[..i + 1], key, k') {
        GroupOfSnoc(items, key, i, k');
        if k' != k {
          assert grouped[k'] == before[k'];
        }
      }
    }
    assert items[..|items|] == items;
  }

  /** The sources in the order `grouped` holds them: by first appearance. */
  function SourceOrder(records: seq<Record>): seq<string>
  {
    Distinct(KeysOf(records, SourceOf))
  }

  /** `[f(k) for k in ks]`. */
  function MapAll<K, R>(ks: seq<K>, f: K -> R): (r: seq<R>)
    ensures |r| == |ks|
  {
    if ks == [] then [] else MapAll(ks[..|ks| - 1], f) + [f(ks[|ks| - 1])]
  }

  lemma MapAllSnoc<K, R>(ks: seq<K>, i: nat, f: K -> R)
    requires i < |ks|
    ensures MapAll(ks[..i + 1], f) == MapAll(ks[..i], f) + [f(ks[i])]
  {
    assert ks[..i + 1][..i] == ks[..i];
  }

  /** `_process_single_source` on the source `s` with its own records. */
  function SourceStep(records: seq<Record>, paths: VideoOutputPaths, maxSourceSeconds: int, preset: string,
                      concatInDigestFolder: bool, effects: string -> Effects): string -> SourceResult
  {
    s => SingleSource(s, GroupOf(records, SourceOf, s), paths, maxSourceSeconds, preset, concatInDigestFolder, effects(s))
  }

  /** What `_process_sources` returns: one result per source, in order of
      first appearance; `effects(s)` says which file operations of source
      `s` fail. */
  function ProcessedSources(records: seq<Record>, paths: VideoOutputPaths, maxSourceSeconds: int, preset: string,
                            concatInDigestFolder: bool, effects: string -> Effects): seq<SourceResult>
  {
    MapAll(SourceOrder(records), SourceStep(records, paths, maxSourceSeconds, preset, concatInDigestFolder, effects))
  }

  /** The second loop of `_process_sources`: `_process_single_source` on
      every group in turn. `step` is what processing one source yields. */
  method ProcessGroups(order: seq<string>, grouped: map<string, seq<Record>>, paths: VideoOutputPaths,
                       maxSourceSeconds: int, preset: string, concatInDigestFolder: bool,
                       effects: string -> Effects, ghost step: string -> SourceResult) returns (results: seq<SourceResult>)
    requires forall s :: s in order ==> s in grouped
    requires forall s :: s in grouped ==>
      step(s) == SingleSource(s, grouped[s], paths, maxSourceSeconds, preset, concatInDigestFolder, effects(s))
    ensures results == MapAll(order, step)
  {
    results := [];
    for k := 0 to |order|
      invariant results == MapAll(order[..k], step)
    {
      var source := order[k];
      var result := ProcessSingleSource(source, grouped[source], paths, maxSourceSeconds, preset,
        concatInDigestFolder, effects(source));
      MapAllSnoc(order, k, step);
      results := results + [result];
    }
    assert order[..|order|] == order;
  }

  /** `_process_sources(records, ...)`: group the records by source, then
      process every source in turn. */
  method ProcessSources(records: seq<Record>, paths: VideoOutputPaths, maxSourceSeconds: int, preset: string,
                        concatInDigestFolder: bool, effects: string -> Effects) returns (results: seq<SourceResult>)
    ensures results == ProcessedSources(records, paths, maxSourceSeconds, preset, concatInDigestFolder, effects)
  {
    var grouped, order := GroupBy(records, SourceOf);
    results := ProcessGroups(order, grouped, paths, maxSourceSeconds, preset, concatInDigestFolder, effects,
      SourceStep(records, paths, maxSourceSeconds, preset, concatInDigestFolder, effects));
  }

  /** Results that name their keys follow the keys one for one. */
  lemma {:induction false} MapAllNamed<K, R>(ks: seq<K>, f: K -> R, name: R -> K)
    requires forall k :: name(f(k)) == k
    ensures forall i :: 0 <= i < |ks| ==> name(MapAll(ks, f)[i]) == ks[i]
  {
    if ks != [] {
      MapAllNamed(ks[..|ks| - 1], f, name);
    }
  }

  /** Processing a source yields a result that names it. */
  lemma SourceStepNamed(records: seq<Record>, paths: VideoOutputPaths, maxSourceSeconds: int, preset: string,
                        concatInDigestFolder: bool, effects: string -> Effects)
    ensures forall s :: SourceStep(records, paths, maxSourceSeconds, preset, concatInDigestFolder, effects)(s).sourceVideo == s
  {
    forall s ensures SourceStep(records, paths, maxSourceSeconds, preset, concatInDigestFolder, effects)(s).sourceVideo == s {
      var r := SingleSource(s, GroupOf(records, SourceOf, s), paths, maxSourceSeconds, preset, concatInDigestFolder, effects(s));
      assert r.sourceVideo == s;
    }
  }

  /** The sources are those of the records with a string `source_path`,
      each once, in order of first appearance. */
  lemma SourceOrderCover(records: seq<Record>)
    ensures var order := SourceOrder(records);
      && NoDuplicates(order)
      && (forall s :: s in order <==> exists x :: x in records && SourceOf(x) == Some(s))
      && (forall i, j :: 0 <= i < j < |order| ==> IndexOf(KeysOf(records, SourceOf), order[i]) < IndexOf(KeysOf(records, SourceOf), order[j]))
  {
    DistinctInFirstOrder(KeysOf(records, SourceOf));
    forall s ensures s in SourceOrder(records) <==> exists x :: x in records && SourceOf(x) == Some(s) {
      GroupOfMembers(records, SourceOf, s);
    }
  }

  /** `_process_sources` yields one result per source, naming the sources
      in the order `SourceOrder` lists them; so every source with a string
      `source_path` is processed exactly once, and no other. */
  lemma ProcessedSourcesNamed(records: seq<Record>, paths: VideoOutputPaths, maxSourceSeconds: int, preset: string,
                              concatInDigestFolder: bool, effects: string -> Effects)
    ensures var r := ProcessedSources(records, paths, maxSourceSeconds, preset, concatInDigestFolder, effects);
      && |r| == |SourceOrder(records)|
      && forall i :: 0 <= i < |r| ==> r[i].sourceVideo == SourceOrder(records)[i]
  {
    SourceStepNamed(records, paths, maxSourceSeconds, preset, concatInDigestFolder, effects);
    MapAllNamed(SourceOrder(records), SourceStep(records, paths, maxSourceSeconds, preset, concatInDigestFolder, effects),
      (r: SourceResult) => r.sourceVideo);
  }
}
