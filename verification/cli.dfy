/** The photo command line (`main`): every collected image is described and
    fingerprinted; its score is taken from the cache when resuming and the
    stored hash matches, and otherwise asked of the judge, corrected for
    quality and for the risks the judge flagged, and written back to the
    cache. The best photos are then chosen, flagged `selected`, and copied
    into the `selected` folder. Image decoding, the judge, the copy and the
    clock are inputs. */
module Cli {
  import opened Wrappers
  import opened PyValues
  import opened PyPath
  import opened Numerals
  import opened ScoreSchema
  import opened Analyzer
  import opened ResumeDb
  import opened Selector
  import opened VideoDigest
  import opened OutputPaths

  // ---------------------------------------------------------------------------
  // Where main writes

  /** The selected folder, the manifest and the database as `main` lays
      them out. */
  datatype CliPaths = CliPaths(selectedDir: string, manifestPath: string, dbPath: string)

  function GetCliPaths(outputDir: string): CliPaths
  {
    CliPaths(Join(outputDir, "selected"), Join(outputDir, "manifest.photos.json"),
             Join(outputDir, "photo_scores.sqlite"))
  }

  /** `main` copies into the same `selected` folder as the planner's
      layout, but keeps its manifest and its database directly in the output
      folder, where the planner looks for them in `scores`: the planner never
      sees the cache `main` fills. */
  lemma CliLayoutDiffers(outputDir: string)
    ensures var c := GetCliPaths(outputDir);
      var p := GetPhotoPaths(outputDir);
      && c.selectedDir == p.selectedDir
      && c.dbPath != p.dbPath
      && c.manifestPath != p.manifestPath
  {
    var c := GetCliPaths(outputDir);
    var p := GetPhotoPaths(outputDir);
    assert |c.dbPath| < |p.dbPath|;
    assert |c.manifestPath| < |p.manifestPath|;
  }

  // ---------------------------------------------------------------------------
  // One image of the analysis loop

  /** What `get_image_info` measured. */
  datatype ImageSize = ImageSize(width: int, height: int)

  /** A collected image and what the code outside the model gives for it:
      `get_image_info`, `compute_image_hash` and `analyze_quality` (each the
      error it raised instead), the judge's reply (or the error raised while
      encoding the image or chatting), and the clock reading stamped on its
      cache row. */
  datatype ImageFile = ImageFile(
    path: string,
    info: Result<ImageSize, string>,
    hash: Result<nat, string>,
    quality: Result<Doc, string>,
    reply: Result<Value, string>,
    now: string)

  /** The record of one image and the cache table after it. */
  datatype Outcome = Outcome(record: Photo, rows: map<string, Row>)

  /** The record after `record.update(...)` with the size, the orientation
      and the hash as 16 hex digits. */
  function Described(path: string, size: ImageSize, hash: nat): Photo
  {
    map["path" := Str(path), "width" := Int(size.width), "height" := Int(size.height),
        "orientation" := Str(ComputeOrientation(size.width, size.height)),
        "hash" := Str(FormatHex16(hash))]
  }

  /** The `except` branch: no analysis, no quality, the error's text. */
  function Failed(record: Photo, message: string): Photo
  {
    record + map["analysis" := Null, "quality" := Null, "error" := Str(message)]
  }

  /** A record whose analysis went through. */
  function Finished(record: Photo, analysis: Doc, quality: Value): Photo
  {
    record + map["analysis" := Dict(analysis), "quality" := quality, "error" := Null]
  }

  /** A stored quality dict as the record holds it. */
  function QualityValue(quality: Option<Doc>): Value
  {
    match quality
    case None => Null
    case Some(q) => Dict(q)
  }

  /** `cached.analysis or {"score": cached.score}`. */
  function Reused(c: CachedScore): Doc
  {
    if c.analysis.Some? && c.analysis.value != map[] then c.analysis.value
    else map["score" := Float(c.score)]
  }

  /** The record of a cache hit: the reused analysis, validated again. */
  function FromCache(record: Photo, c: CachedScore): Photo
  {
    match Validated(Dict(Reused(c)))
    case Failure(e) => Failed(record, e)
    case Success(a) => Finished(record, a, QualityValue(c.quality))
  }

  /** The cache's answer for an image: `get` is asked only when resuming,
      and only once the image was measured and hashed. */
  function CacheAnswer(rows: map<string, Row>, f: ImageFile, resumeEnabled: bool): Option<CachedScore>
  {
    if resumeEnabled && f.info.Success? && f.hash.Success? then Lookup(rows, f.path, FormatHex16(f.hash.value))
    else None
  }

  /** A miss: the quality measured, the judge asked, its reply validated
      and its score corrected for quality and risks. */
  function Judgement(f: ImageFile, size: ImageSize): (r: Result<Doc, string>)
    ensures r.Success? ==> f.quality.Success? && f.reply.Success?
    ensures r.Success? ==> IsRepaired(r.value) && "score" in r.value && r.value["score"].Float?
    ensures r.Success? ==> 0.0 <= r.value["score"].f <= 1.0
  {
    match f.quality
    case Failure(e) => Failure(e)
    case Success(q) =>
      match f.reply
      case Failure(e) => Failure(e)
      case Success(reply) => AnalyzeClip(reply, q, size.width, size.height)
  }

  /** The record of an image, given the cache's answer. */
  function RecordOf(f: ImageFile, cached: Option<CachedScore>): Photo
  {
    var base := map["path" := Str(f.path)];
    match f.info
    case Failure(e) => Failed(base, e)
    case Success(size) =>
      match f.hash
      case Failure(e) => Failed(base, e)
      case Success(h) =>
        var record := Described(f.path, size, h);
        if cached.Some? then FromCache(record, cached.value)
        else
          match Judgement(f, size)
          case Failure(e) => Failed(record, e)
          case Success(a) => Finished(record, a, Dict(f.quality.value))
  }

  /** The table after an image: its row is written back only when there
      was no cached answer and the judge's reply went through. */
  function RowsAfter(rows: map<string, Row>, f: ImageFile, cached: Option<CachedScore>): map<string, Row>
  {
    if f.info.Success? && f.hash.Success? && cached.None? && Judgement(f, f.info.value).Success? then
      var a := Judgement(f, f.info.value).value;
      Upserted(rows, f.path, FormatHex16(f.hash.value), a["score"].f, Some(a), Some(f.quality.value), f.now)
    else rows
  }

  /** One turn of the analysis loop against the cache table `rows`. */
  function AnalyzeFile(rows: map<string, Row>, f: ImageFile, resumeEnabled: bool): Outcome
  {
    var cached := CacheAnswer(rows, f, resumeEnabled);
    Outcome(RecordOf(f, cached), RowsAfter(rows, f, cached))
  }

  /** The body of the analysis loop for one image, as the source runs it. */
  method AnalyzeImage(store: ScoreStore, f: ImageFile, resumeEnabled: bool) returns (record: Photo)
    modifies store
    ensures Outcome(record, store.rows) == AnalyzeFile(old(store.rows), f, resumeEnabled)
  {
    record := map["path" := Str(f.path)];
    if f.info.Failure? {
      return Failed(record, f.info.error);
    }
    if f.hash.Failure? {
      return Failed(record, f.hash.error);
    }
    var info := f.info.value;
    var hex := FormatHex16(f.hash.value);
    record := Described(f.path, info, f.hash.value);
    var cached: Option<CachedScore> := None;
    if resumeEnabled {
      cached := store.Get(f.path, hex);
    }
    if cached.Some? {
      var validated := ValidateAnalysis(Dict(Reused(cached.value)));
      if validated.Failure? {
        return Failed(record, validated.error);
      }
      return Finished(record, validated.value, QualityValue(cached.value.quality));
    }
    if f.quality.Failure? {
      return Failed(record, f.quality.error);
    }
    var quality := f.quality.value;
    if f.reply.Failure? {
      return Failed(record, f.reply.error);
    }
    var validated := ValidateAnalysis(f.reply.value);
    if validated.Failure? {
      return Failed(record, validated.error);
    }
    var analysis := validated.value;
    var corrected := ApplyQualityCorrections(AsReal(analysis["score"]), quality, info.width, info.height);
    analysis := analysis["score" := Float(corrected)];
    ScoreRewritten(validated.value, Float(corrected), Float(ApplyRiskPenalties(corrected, analysis["risks"].entries)));
    analysis := analysis["score" := Float(ApplyRiskPenalties(AsReal(analysis["score"]), analysis["risks"].entries))];
    record := Finished(record, analysis, Dict(quality));
    store.Upsert(f.path, hex, analysis["score"].f, Some(analysis), Some(quality), f.now);
  }

  // ---------------------------------------------------------------------------
  // Properties of one turn

  /** A failed record keeps the path, has no analysis and no quality, and
      is never eligible. */
  lemma FailedShape(record: Photo, message: string)
    ensures var r := Failed(record, message);
      && Get(r, "error") == Str(message) && Get(r, "analysis") == Null && Get(r, "quality") == Null
      && Get(r, "path") == Get(record, "path") && !Eligible(r)
  {
  }

  /** A finished record keeps the path and has no error; it is eligible
      when its analysis has a numeric score. */
  lemma FinishedShape(record: Photo, analysis: Doc, quality: Value)
    ensures var r := Finished(record, analysis, quality);
      && Get(r, "error") == Null && Get(r, "analysis") == Dict(analysis) && Get(r, "quality") == quality
      && Get(r, "path") == Get(record, "path")
      && ("score" in analysis && IsNumber(analysis["score"]) ==> Eligible(r))
  {
  }

  /** Every record names its image, and is eligible for selection exactly
      when no error was recorded for it: a failed image has no analysis and
      can never be chosen. */
  lemma EligibleIffNoError(rows: map<string, Row>, f: ImageFile, resumeEnabled: bool)
    ensures var r := AnalyzeFile(rows, f, resumeEnabled).record;
      && Get(r, "path") == Str(f.path)
      && (Eligible(r) <==> Get(r, "error") == Null)
      && (Get(r, "error") != Null ==> Get(r, "analysis") == Null && Get(r, "quality") == Null)
  {
    var base := map["path" := Str(f.path)];
    if f.info.Failure? {
      FailedShape(base, f.info.error);
    } else if f.hash.Failure? {
      FailedShape(base, f.hash.error);
    } else {
      var size := f.info.value;
      var hex := FormatHex16(f.hash.value);
      var record := Described(f.path, size, f.hash.value);
      assert Get(record, "path") == Str(f.path);
      var cached := if resumeEnabled then Lookup(rows, f.path, hex) else None;
      if cached.Some? {
        match Validated(Dict(Reused(cached.value)))
        case Failure(e) => FailedShape(record, e);
        case Success(a) => FinishedShape(record, a, QualityValue(cached.value.quality));
      } else if f.quality.Failure? {
        FailedShape(record, f.quality.error);
      } else if f.reply.Failure? {
        FailedShape(record, f.reply.error);
      } else {
        match AnalyzeClip(f.reply.value, f.quality.value, size.width, size.height)
        case Failure(e) => FailedShape(record, e);
        case Success(a) => FinishedShape(record, a, Dict(f.quality.value));
      }
    }
  }

  /** Without resume the cache is never read: the record does not depend on
      the table, and the table changes only by the upsert of this image's
      path. */
  lemma NoLookupWithoutResume(rows1: map<string, Row>, rows2: map<string, Row>, f: ImageFile)
    ensures AnalyzeFile(rows1, f, false).record == AnalyzeFile(rows2, f, false).record
    ensures forall p :: p != f.path ==>
      (p in AnalyzeFile(rows1, f, false).rows <==> p in rows1)
      && (p in rows1 ==> AnalyzeFile(rows1, f, false).rows[p] == rows1[p])
  {
  }

  /** On a hit the stored analysis is reused: the judge is not asked (its
      reply and the quality measurement do not matter), the table is left as
      it was, and the score is the stored analysis's own score, or the stored
      final score when no analysis was stored, without a second penalty. */
  lemma CacheHitReuses(rows: map<string, Row>, f: ImageFile, quality: Result<Doc, string>,
                       reply: Result<Value, string>)
    requires f.info.Success? && f.hash.Success?
    requires Lookup(rows, f.path, FormatHex16(f.hash.value)).Some?
    ensures var o := AnalyzeFile(rows, f, true);
      var c := Lookup(rows, f.path, FormatHex16(f.hash.value)).value;
      && o == AnalyzeFile(rows, f.(quality := quality, reply := reply), true)
      && o.rows == rows
      && (Get(o.record, "error") == Null ==> Get(o.record, "quality") == QualityValue(c.quality))
      && (c.analysis.Some? && c.analysis.value != map[] && Get(o.record, "error") == Null ==>
            Get(o.record, "analysis").Dict? && Get(Get(o.record, "analysis").entries, "score") == Get(c.analysis.value, "score"))
      && ((c.analysis.None? || c.analysis.value == map[]) ==>
            Get(o.record, "error") == Null && Get(o.record, "analysis").Dict?
            && Get(Get(o.record, "analysis").entries, "score") == Float(c.score))
  {
    var c := Lookup(rows, f.path, FormatHex16(f.hash.value)).value;
    var record := Described(f.path, f.info.value, f.hash.value);
    if c.analysis.None? || c.analysis.value == map[] {
      assert Validated(Dict(map["score" := Float(c.score)])).Success?;
    }
    match Validated(Dict(Reused(c)))
    case Failure(e) => FailedShape(record, e);
    case Success(a) => FinishedShape(record, a, QualityValue(c.quality));
  }

  /** On a miss (or without resume) the judge's score is corrected for
      quality, then for the risks, and that final score is both the
      record's and the one upserted: a later lookup with the same hash
      returns it with the analysis and quality. */
  lemma MissStoresCorrectedScore(rows: map<string, Row>, f: ImageFile, resumeEnabled: bool)
    requires f.info.Success? && f.hash.Success?
    requires !resumeEnabled || Lookup(rows, f.path, FormatHex16(f.hash.value)).None?
    requires f.quality.Success? && f.reply.Success? && Validated(f.reply.value).Success?
    ensures var o := AnalyzeFile(rows, f, resumeEnabled);
      var a := Validated(f.reply.value).value;
      var size := f.info.value;
      var score := CorrectedScore(a, f.quality.value, size.width, size.height);
      && Get(o.record, "error") == Null
      && Get(o.record, "analysis") == Dict(a["score" := Float(score)])
      && Lookup(o.rows, f.path, FormatHex16(f.hash.value))
           == Some(CachedScore(score, Some(a["score" := Float(score)]), Some(f.quality.value)))
  {
    var a := Validated(f.reply.value).value;
    var size := f.info.value;
    var score := CorrectedScore(a, f.quality.value, size.width, size.height);
    var judged := Judgement(f, size).value;
    assert judged == a["score" := Float(score)];
    FinishedShape(Described(f.path, size, f.hash.value), judged, Dict(f.quality.value));
    LookupAfterUpsert(rows, f.path, FormatHex16(f.hash.value), score, Some(judged), Some(f.quality.value), f.now, "");
  }

  /** Reading back the row written for a judged analysis reuses that
      analysis and its quality unchanged. */
  lemma CachedJudgementReused(record: Photo, a: Doc, q: Doc)
    requires IsRepaired(a) && "score" in a && a["score"].Float?
    ensures FromCache(record, CachedScore(a["score"].f, Some(a), Some(q))) == Finished(record, a, Dict(q))
  {
    assert a != map[];
    RepairedStable(a);
    assert Validated(Dict(a)) == Success(a);
  }

  /** Resuming right after a successful run gives the same record and leaves
      the table as it was: what was written back is read back unchanged. */
  lemma RerunReproduces(rows: map<string, Row>, f: ImageFile, resumeEnabled: bool)
    requires Get(AnalyzeFile(rows, f, resumeEnabled).record, "error") == Null
    ensures var first := AnalyzeFile(rows, f, resumeEnabled);
      AnalyzeFile(first.rows, f, true) == first
  {
    var first := AnalyzeFile(rows, f, resumeEnabled);
    var cached := CacheAnswer(rows, f, resumeEnabled);
    if f.info.Failure? {
      FailedShape(map["path" := Str(f.path)], f.info.error);
    } else if f.hash.Failure? {
      FailedShape(map["path" := Str(f.path)], f.hash.error);
    } else if cached.None? {
      var size := f.info.value;
      var record := Described(f.path, size, f.hash.value);
      match Judgement(f, size)
      case Failure(e) =>
        FailedShape(record, e);
      case Success(a) =>
        var hex := FormatHex16(f.hash.value);
        LookupAfterUpsert(rows, f.path, hex, a["score"].f, Some(a), Some(f.quality.value), f.now, "");
        CachedJudgementReused(record, a, f.quality.value);
    }
  }

  // ---------------------------------------------------------------------------
  // The analysis loop

  /** The records of all images, in order, and the table after them. */
  datatype Batch = Batch(photos: seq<Photo>, rows: map<string, Row>)

  /** The analysis loop over `files` from the table `rows`. */
  function AnalyzedAll(rows: map<string, Row>, files: seq<ImageFile>, resumeEnabled: bool): (r: Batch)
    ensures |r.photos| == |files|
  {
    if files == [] then Batch([], rows)
    else
      var before := AnalyzedAll(rows, files[..|files| - 1], resumeEnabled);
      var o := AnalyzeFile(before.rows, files[|files| - 1], resumeEnabled);
      Batch(before.photos + [o.record], o.rows)
  }

  /** The loop of `main` that builds `photos`; the cache is used only when
      `resume` is given without `force`. */
  method AnalyzeAll(store: ScoreStore, files: seq<ImageFile>, resume: bool, force: bool) returns (photos: seq<Photo>)
    modifies store
    ensures Batch(photos, store.rows) == AnalyzedAll(old(store.rows), files, resume && !force)
  {
    var resumeEnabled := resume && !force;
    photos := [];
    for i := 0 to |files|
      invariant Batch(photos, store.rows) == AnalyzedAll(old(store.rows), files[..i], resumeEnabled)
    {
      assert files[..i + 1][..i] == files[..i];
      var record := AnalyzeImage(store, files[i], resumeEnabled);
      photos := photos + [record];
    }
    assert files[..|files|] == files;
  }

  /** The record names the image at `path`, and is eligible for
      selection exactly when no error was recorded for it. */
  predicate RecordFor(record: Photo, path: string)
  {
    Get(record, "path") == Str(path) && (Eligible(record) <==> Get(record, "error") == Null)
  }

  /** Appending a record for one more image keeps every record naming
      its own image. */
  lemma RecordsSnoc(photos: seq<Photo>, files: seq<ImageFile>, record: Photo, f: ImageFile)
    requires |photos| == |files|
    requires forall i :: 0 <= i < |files| ==> RecordFor(photos[i], files[i].path)
    requires RecordFor(record, f.path)
    ensures forall i :: 0 <= i < |files| + 1 ==> RecordFor((photos + [record])[i], (files + [f])[i].path)
  {
    forall i | 0 <= i < |files| + 1 ensures RecordFor((photos + [record])[i], (files + [f])[i].path) {
      if i < |files| {
        assert (photos + [record])[i] == photos[i] && (files + [f])[i] == files[i];
      }
    }
  }

  /** One record per image, in the order collected, each naming its image;
      exactly the records without an error can be selected. */
  lemma {:induction false} AnalyzedAllRecords(rows: map<string, Row>, files: seq<ImageFile>, resumeEnabled: bool)
    ensures var photos := AnalyzedAll(rows, files, resumeEnabled).photos;
      forall i :: 0 <= i < |files| ==> RecordFor(photos[i], files[i].path)
  {
    if files != [] {
      var init := files[..|files| - 1];
      var last := files[|files| - 1];
      var before := AnalyzedAll(rows, init, resumeEnabled);
      AnalyzedAllRecords(rows, init, resumeEnabled);
      EligibleIffNoError(before.rows, last, resumeEnabled);
      RecordsSnoc(before.photos, init, AnalyzeFile(before.rows, last, resumeEnabled).record, last);
      assert init + [last] == files;
    }
  }

  /** Without resume (or with `force`) the records do not depend on what
      the cache held before the run. */
  lemma {:induction false} AnalyzedAllIgnoresCache(rows1: map<string, Row>, rows2: map<string, Row>,
                                                   files: seq<ImageFile>)
    ensures AnalyzedAll(rows1, files, false).photos == AnalyzedAll(rows2, files, false).photos
  {
    if files != [] {
      var init := files[..|files| - 1];
      AnalyzedAllIgnoresCache(rows1, rows2, init);
      NoLookupWithoutResume(AnalyzedAll(rows1, init, false).rows, AnalyzedAll(rows2, init, false).rows,
                            files[|files| - 1]);
    }
  }

  // ---------------------------------------------------------------------------
  // The selected flag and the copy

  /** `{item["path"] for item in selected}`. */
  function SelectedPaths(selected: seq<Photo>): set<Value>
  {
    set p | p in selected :: Get(p, "path")
  }

  /** `record["selected"] = record.get("path") in selected_paths`. */
  function Marked(record: Photo, selectedPaths: set<Value>): Photo
  {
    record["selected" := Bool(Get(record, "path") in selectedPaths)]
  }

  /** The TypeError `Path(...)` raises on a path that is not text. */
  const NotAPath: string := "expected str, bytes or os.PathLike object"

  /** What copying a selected record into `selected_dir` raised, if
      anything; `copy2(source, destination)` is `shutil.copy2`. */
  function CopyFailure(record: Photo, selectedDir: string, copy2: (string, string) -> Option<string>): Option<string>
  {
    match Get(record, "path")
    case Str(source) => copy2(source, Join(selectedDir, Name(source)))
    case _ => Some(NotAPath)
  }

  /** A failed copy keeps any earlier error, records its own otherwise, and
      clears the flag. */
  function AfterCopy(record: Photo, failure: Option<string>): Photo
  {
    match failure
    case None => record
    case Some(message) =>
      var error := Get(record, "error");
      record["error" := if Truthy(error) then error else Str(message)]["selected" := Bool(false)]
  }

  /** A record after the copy loop: a chosen record's file is copied. */
  function Copied(record: Photo, selectedPaths: set<Value>, selectedDir: string,
                  copy2: (string, string) -> Option<string>): Photo
  {
    if Get(record, "path") in selectedPaths then AfterCopy(record, CopyFailure(record, selectedDir, copy2))
    else record
  }

  /** A record after both loops. */
  function Final(record: Photo, selectedPaths: set<Value>, selectedDir: string,
                 copy2: (string, string) -> Option<string>): Photo
  {
    Copied(Marked(record, selectedPaths), selectedPaths, selectedDir, copy2)
  }

  /** Every record after both loops. */
  function FinalAll(photos: seq<Photo>, selectedPaths: set<Value>, selectedDir: string,
                    copy2: (string, string) -> Option<string>): seq<Photo>
  {
    seq(|photos|, i requires 0 <= i < |photos| => Final(photos[i], selectedPaths, selectedDir, copy2))
  }

  /** The records written to the manifest. */
  function Finalized(photos: seq<Photo>, targetCount: int, selectedDir: string,
                     copy2: (string, string) -> Option<string>): seq<Photo>
  {
    FinalAll(photos, SelectedPaths(Selection(photos, targetCount)), selectedDir, copy2)
  }

  /** The loop that sets the `selected` flag of every record. */
  method MarkSelected(photos: array<Photo>, selectedPaths: set<Value>)
    modifies photos
    ensures forall i :: 0 <= i < photos.Length ==> photos[i] == Marked(old(photos[i]), selectedPaths)
  {
    for i := 0 to photos.Length
      invariant forall k :: 0 <= k < i ==> photos[k] == Marked(old(photos[k]), selectedPaths)
      invariant forall k :: i <= k < photos.Length ==> photos[k] == old(photos[k])
    {
      photos[i] := Marked(photos[i], selectedPaths);
    }
  }

  /** The loop that copies every selected record's file. */
  method CopySelected(photos: array<Photo>, selectedPaths: set<Value>, selectedDir: string,
                      copy2: (string, string) -> Option<string>)
    modifies photos
    ensures forall i :: 0 <= i < photos.Length ==> photos[i] == Copied(old(photos[i]), selectedPaths, selectedDir, copy2)
  {
    for i := 0 to photos.Length
      invariant forall k :: 0 <= k < i ==> photos[k] == Copied(old(photos[k]), selectedPaths, selectedDir, copy2)
      invariant forall k :: i <= k < photos.Length ==> photos[k] == old(photos[k])
    {
      if Get(photos[i], "path") in selectedPaths {
        var failure := CopyFailure(photos[i], selectedDir, copy2);
        if failure.Some? {
          var error := Get(photos[i], "error");
          photos[i] := photos[i]["error" := if Truthy(error) then error else Str(failure.value)];
          photos[i] := photos[i]["selected" := Bool(false)];
        }
      }
    }
  }

  /** Selection, the flags and the copies, from the records of the
      analysis loop to the records of the manifest. */
  method SelectAndCopy(photos: seq<Photo>, targetCount: int, selectedDir: string,
                       copy2: (string, string) -> Option<string>) returns (manifest: seq<Photo>)
    ensures manifest == Finalized(photos, targetCount, selectedDir, copy2)
  {
    var selected := SelectTopPhotos(photos, targetCount);
    var selectedPaths := SelectedPaths(selected);
    var records := RecordArray(photos);
    FlagAndCopy(records, selectedPaths, selectedDir, copy2);
    manifest := records[..];
  }

  /** A new array holding the records, for the loops to update in place. */
  method RecordArray(photos: seq<Photo>) returns (records: array<Photo>)
    ensures fresh(records) && records[..] == photos
  {
    records := new Photo[|photos|](i requires 0 <= i < |photos| => photos[i]);
    assert records[..] == photos;
  }

  /** The two loops over the records, one after the other. */
  method FlagAndCopy(records: array<Photo>, selectedPaths: set<Value>, selectedDir: string,
                     copy2: (string, string) -> Option<string>)
    modifies records
    ensures records[..] == FinalAll(old(records[..]), selectedPaths, selectedDir, copy2)
  {
    MarkSelected(records, selectedPaths);
    CopySelected(records, selectedPaths, selectedDir, copy2);
  }

  /** `main` from the collected images to the manifest's records, with the
      cache `store` opened on the database. */
  method RunPhotoSelection(store: ScoreStore, files: seq<ImageFile>, resume: bool, force: bool,
                           targetCount: int, outputDir: string, copy2: (string, string) -> Option<string>)
    returns (manifest: seq<Photo>)
    modifies store
    ensures var batch := AnalyzedAll(old(store.rows), files, resume && !force);
      && store.rows == batch.rows
      && manifest == Finalized(batch.photos, targetCount, GetCliPaths(outputDir).selectedDir, copy2)
  {
    var photos := AnalyzeAll(store, files, resume, force);
    manifest := SelectAndCopy(photos, targetCount, GetCliPaths(outputDir).selectedDir, copy2);
  }

  /** A record after both loops: flagged exactly when its path was chosen
      and its copy went through; a failed copy keeps an earlier error or
      records its own; every other field is left as it was. */
  lemma FinalShape(record: Photo, selectedPaths: set<Value>, selectedDir: string,
                   copy2: (string, string) -> Option<string>)
    ensures var r := Final(record, selectedPaths, selectedDir, copy2);
      var chosen := Get(record, "path") in selectedPaths;
      var failure := CopyFailure(record, selectedDir, copy2);
      && Get(r, "selected") == Bool(chosen && failure.None?)
      && (chosen && failure.Some? ==>
            Get(r, "error") == if Truthy(Get(record, "error")) then Get(record, "error") else Str(failure.value))
      && (!chosen || failure.None? ==> Get(r, "error") == Get(record, "error"))
      && (forall k :: k in record && k != "selected" && k != "error" ==> k in r && r[k] == record[k])
  {
    var m := Marked(record, selectedPaths);
    assert Get(m, "path") == Get(record, "path") && Get(m, "error") == Get(record, "error");
    assert CopyFailure(m, selectedDir, copy2) == CopyFailure(record, selectedDir, copy2);
  }

  /** The flag of the `i`-th record in the manifest is set exactly when its
      path is among those of the selection and its copy went through. */
  lemma FinalFlags(photos: seq<Photo>, targetCount: int, selectedDir: string,
                   copy2: (string, string) -> Option<string>, i: nat)
    requires i < |photos|
    ensures var p := photos[i];
      var r := Finalized(photos, targetCount, selectedDir, copy2)[i];
      Get(r, "selected")
        == Bool(Get(p, "path") in SelectedPaths(Selection(photos, targetCount))
                && CopyFailure(p, selectedDir, copy2).None?)
  {
    FinalShape(photos[i], SelectedPaths(Selection(photos, targetCount)), selectedDir, copy2);
  }

  /** With distinct paths, the flag is set exactly on the records the
      selection returned whose copy went through, and a flagged record had
      no error and a numeric score. */
  lemma FlaggedAreSelected(photos: seq<Photo>, targetCount: int, selectedDir: string,
                           copy2: (string, string) -> Option<string>, i: nat)
    requires i < |photos|
    requires forall j, k :: 0 <= j < k < |photos| ==> Get(photos[j], "path") != Get(photos[k], "path")
    ensures var r := Finalized(photos, targetCount, selectedDir, copy2)[i];
      && (Get(r, "selected") == Bool(true) <==>
            photos[i] in Selection(photos, targetCount) && CopyFailure(photos[i], selectedDir, copy2).None?)
      && (Get(r, "selected") == Bool(true) ==> Eligible(photos[i]))
  {
    var sel := Selection(photos, targetCount);
    FinalFlags(photos, targetCount, selectedDir, copy2, i);
    SelectionEligible(photos, targetCount);
    if Get(photos[i], "path") in SelectedPaths(sel) {
      var q :| q in sel && Get(q, "path") == Get(photos[i], "path");
      var m :| 0 <= m < |sel| && sel[m] == q;
      var j :| 0 <= j < |photos| && photos[j] == q;
      assert j == i;
    }
  }
}
