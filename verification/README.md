# photo-selector, modelled in Dafny

This project models the decision-making core of photo-selector. The tool
picks the best photos from a folder, and builds short "digest" videos from
the best clips of each source video. A local vision-language model judges
each image or representative frame. Pixel statistics, the model's reply, the
score cache, the file system and ffmpeg are all given to the model as inputs.
What it models, and proves properties of:

- **Photo selection** (`Selector`, `DedupeUtils`). Eligibility, best-first
  ordering, near-duplicate clustering by 64-bit average-hash Hamming
  distance, one representative per cluster, and the final cut to the target
  count.
- **Scoring** (`Analyzer`, `ScoreSchema`, and the validation and risk part of
  `VideoDigest`). Quality flags from given metrics, the quality corrections
  and risk penalties with their clamps, the average-hash bit loop, and the
  repair and normalisation of the judge's JSON.
- **The judge client** (`OllamaClient`). The endpoint URL, the retry loop
  with linear back-off, and how the JSON object is cut out of a free-text
  reply.
- **The score cache** (`ResumeDb`). A `ScoreStore` class over a map of rows
  keyed by file path, with get and upsert.
- **The photo command** (`Cli`). The analysis loop with cache hits and
  misses, the `selected` flags and the copy loop, on an array of records.
- **Video digests** (`VideoSplitter`, `VideoDigest`).
  - Collecting videos, and laying segments on a timeline.
  - Parsing the frame rate.
  - The quality gate and greedy per-source selection within a time budget.
  - The numbered copy loop and the manifest in timeline order.
  - Grouping clips by source in first-appearance order.
- **Planning** (`ExecutionPlan`, `OutputPaths`). The dry-run plan of files to
  process or skip and of the output paths each run writes, and the output
  layout.
- **Configuration** (`ConfigLoader`). Reading a boolean setting.

Python semantics that the core relies on live in small support modules:
- `PyValues`: dynamic JSON-like values with `dict.get` and `setdefault`.
- `PyText`: `strip`, `lower`, `find`, `rfind` and `replace`.
- `PyPath`: `pathlib`'s `/`, `name`, `stem` and `suffix`.
- `Numerals`: `int(s, 16)`, `float(s)`, `f"{n:016x}"` and `f"{n:04d}"`.
- `Bits`: `^` and `bit_count` on Python integers.
- `Seqs`: `sorted`, stable for descending keys, plus list comprehensions and
  slicing.

Code that updates state step by step is modelled as methods with loop
invariants, proved equal to a specification function. Examples are the
clustering loop, the retry loop, the copy loops, the grouping loop, the plan
loops and the hash bit loop. The properties are then proved about those
functions. `ScoreStore` is a class whose `rows` field the methods reassign.
The photo command's records live in an `array` that the flag and copy loops
update in place.

Python floats are modelled as `real` and Python integers as `int`.
Exceptions are modelled as `Failure` values carrying a message.

## Model

| member | source | states |
|---|---|---|
| DedupeUtils.HashToInt | src/photo_selector/dedupe_utils.py:6-14 | an int is returned unchanged (a bool as 0 or 1), a string is read as hexadecimal (`None` when `int(s, 16)` would raise), anything else gives `None` |
| DedupeUtils.HashTextRoundTrip | src/photo_selector/dedupe_utils.py:9-11 | a fingerprint written as 16 hex digits reads back as the same integer |
| DedupeUtils.IntXorZero | src/photo_selector/dedupe_utils.py:18 | `a ^ b` on Python integers is zero exactly when `a == b`, negative operands included |
| DedupeUtils.DistanceZeroIff | src/photo_selector/dedupe_utils.py:17-18 | the Hamming distance is zero if and only if the two fingerprints are equal |
| DedupeUtils.DistanceToSelf | src/photo_selector/selector.py:72-73 | a fingerprint is at distance 0 from itself |
| DedupeUtils.DistanceSymmetric | src/photo_selector/dedupe_utils.py:17-18 | the distance is symmetric, for negative fingerprints too |
| DedupeUtils.DistanceAtMost64 | src/photo_selector/dedupe_utils.py:17-18 | two fingerprints below 2^64 differ in at most 64 bits |
| DedupeUtils.DistanceTriangle | src/photo_selector/dedupe_utils.py:17-18 | on non-negative fingerprints the distance obeys the triangle inequality |
| DedupeUtils.IsNearDuplicate | src/photo_selector/dedupe_utils.py:21-25 | true if and only if some listed fingerprint is within the threshold, hence false for an empty list |
| DedupeUtils.NearDuplicateMonotone | src/photo_selector/dedupe_utils.py:21-25 | raising the threshold never turns a near duplicate into a non-duplicate |
| DedupeUtils.NearDuplicateOfItself | src/photo_selector/dedupe_utils.py:21-25 | a candidate that is in the list is a near duplicate for every threshold >= 0 |
| DedupeUtils.IsSimilar | src/photo_selector/selector.py:64-69 | `_is_similar` holds if and only if some listed fingerprint is within 12 bits |
| DedupeUtils.FirstNear | src/photo_selector/selector.py:25-29 | the inner loop stops at the first representative within the threshold: every earlier one is farther, and the end is reached only when none is near |
| DedupeUtils.FirstNearAt | src/photo_selector/selector.py:25-29 | a position with all earlier representatives too far and a near one there (or the end) is where the inner loop stops |
| DedupeUtils.FirstNearFound | src/photo_selector/selector.py:25-30 | the inner loop assigns the photo exactly when it is a near duplicate of some representative |
| Selector.Step | src/photo_selector/selector.py:19-32 | one pass of the outer loop keeps one fingerprint per cluster, every cluster non-empty and each cluster's fingerprint that of its first photo |
| Selector.Cluster | src/photo_selector/selector.py:14-32 | the loop over the ordered photos keeps the same shape invariant |
| Selector.ClusterOrdered | src/photo_selector/selector.py:14-32 | the nested loops with the `assigned` flag build exactly the clusters, fingerprints and unhashed list of the fold `Cluster` |
| Selector.ClusterPrefix | src/photo_selector/selector.py:18-32 | one more photo walked is one more pass of the loop |
| Selector.ClusterFromItems | src/photo_selector/selector.py:18-32 | every photo in a cluster or in `ungrouped` is one the loop walked |
| Selector.ClusterSeparated | src/photo_selector/selector.py:25-32 | any two cluster fingerprints are more than 8 bits apart |
| Selector.StepMembersNear | src/photo_selector/selector.py:25-29 | when photos arrive best first, a photo joining a cluster is within 8 bits of its first photo and scores no higher |
| Selector.ClusterMembersNear | src/photo_selector/selector.py:12-29 | for photos in non-increasing score order, every clustered photo is within 8 bits of its cluster's first photo, whose score is at least its own |
| Selector.StepKeepsAll | src/photo_selector/selector.py:19-32 | each pass puts its photo in exactly one place: a cluster, a new cluster or `ungrouped` |
| Selector.ClusterKeepsAll | src/photo_selector/selector.py:18-32 | the clusters and `ungrouped` together hold exactly the walked photos, each once |
| Selector.StepUngrouped | src/photo_selector/selector.py:19-22 | a pass appends its photo to `ungrouped` exactly when its fingerprint does not parse |
| Selector.ClusterKeepsUnhashed | src/photo_selector/selector.py:19-22 | `ungrouped` is exactly the photos whose fingerprint does not parse, in walk order: clustering never drops them |
| Selector.HeadsOfNonEmpty | src/photo_selector/selector.py:34 | for non-empty clusters the comprehension yields one first photo per cluster, in cluster order |
| Selector.CandidatesFromItems | src/photo_selector/selector.py:34-35 | every representative and every unhashed photo is one of the walked photos |
| Selector.CandidatesEligible | src/photo_selector/selector.py:11-35 | every candidate is an input photo that passes `_has_valid_score` |
| Selector.CandidatesShape | src/photo_selector/selector.py:11-35 | the candidates are one first photo per cluster followed by the unhashed eligible photos in score order |
| Selector.RepresentativesSpread | src/photo_selector/selector.py:11-38 | the representatives carry their clusters' fingerprints, which are pairwise more than 8 bits apart; every other fingerprinted eligible photo is within 8 bits of a representative scoring at least as high |
| Selector.SelectTopPhotos | src/photo_selector/selector.py:10-43 | the result is the specification `Selection`; every returned photo is an eligible input photo; the result is in non-increasing score order |
| Selector.SelectionEligible | src/photo_selector/selector.py:46-50 | every returned photo has no truthy `error` and a numeric `analysis.score` |
| Selector.SelectionSorted | src/photo_selector/selector.py:36-43 | the result is ordered by non-increasing score |
| Selector.SelectionLength | src/photo_selector/selector.py:40-43 | the length is `min(target, #candidates)` for a non-negative target, every candidate (as a multiset) once the target is reached, and a negative target drops that many from the tail as a Python slice does |
| VideoDigest.Validated | src/photo_selector/video_digest.py:186-209 | the judge's reply is rejected exactly when it is not an object, has no `score`, or its score is not a number (a bool counts as one); otherwise the result has a string caption, a list of tags, a risks object with all four risk keys, and the original score |
| VideoDigest.ValidateAnalysis | src/photo_selector/video_digest.py:186-209 | the step-by-step defaulting and repairing gives exactly `Validated` |
| VideoDigest.ValidatedKeeps | src/photo_selector/video_digest.py:190-207 | validation only adds defaults: every other key, a list of tags and every risk already given keep their values |
| VideoDigest.ValidatedIdempotent | src/photo_selector/video_digest.py:186-209 | validating an already validated reply changes nothing |
| VideoDigest.RiskAmount | src/photo_selector/video_digest.py:213-221 | each of the four risks costs a positive amount |
| VideoDigest.RiskPenalty | src/photo_selector/video_digest.py:213-221 | the total deduction for the truthy risk flags lies between 0 and 0.4 |
| VideoDigest.CostAfterFlag | src/photo_selector/video_digest.py:214-221 | setting one risk flag changes that risk's cost only |
| VideoDigest.ApplyRiskPenalties | src/photo_selector/video_digest.py:212-227 | the penalised score always lies in [0, 1] |
| VideoDigest.RiskPenaltiesDeduct | src/photo_selector/video_digest.py:212-227 | the four conditional subtractions followed by the two clamps equal one clamp of the score minus the total penalty |
| VideoDigest.RiskFlagDeducts | src/photo_selector/video_digest.py:214-221 | raising an unset risk flag adds exactly that risk's amount to the penalty and never raises the score |
| VideoDigest.RiskPenaltiesNone | src/photo_selector/video_digest.py:223-227 | with no risk flagged, a score in [0, 1] comes back unchanged |
| VideoDigest.CorrectedScore | src/photo_selector/video_digest.py:104-113 | the quality-corrected and risk-penalised score lies in [0, 1] |
| VideoDigest.CorrectedScoreBelowQuality | src/photo_selector/video_digest.py:104-113 | the risk penalties never raise the quality-corrected score |
| VideoDigest.AnalyzeClip | src/photo_selector/video_digest.py:102-113 | a clip's analysis fails exactly when validation fails; otherwise it is the validated reply with its score replaced by the corrected score, a float in [0, 1] |
| VideoDigest.ScoreRewritten | src/photo_selector/video_digest.py:104-113 | rewriting `score` twice leaves the risks alone and keeps the shape validation established |
| VideoDigest.FailedRecord | src/photo_selector/video_digest.py:138-148 | a clip whose analysis raised keeps its base keys and gains exactly the six keys of the failure branch |
| VideoDigest.QualityGateCases | src/photo_selector/video_digest.py:352-359 | the gate fails without a quality object, passes without a brightness, and otherwise passes exactly when the brightness is not a number or is at least 15; a frame's own quality passes exactly when its mean brightness is at least 15 |
| VideoDigest.FailedNeverEligible | src/photo_selector/video_digest.py:329-335 | a record from the failure branch is never eligible |
| VideoDigest.Ordered | src/photo_selector/video_digest.py:329-336 | the ordered candidates are eligible records of the source, in non-increasing final score |
| VideoDigest.SelectClipsForSource | src/photo_selector/video_digest.py:328-349 | the loop with its `continue` and `break` computes the greedy selection over the ordered candidates |
| VideoDigest.GreedyPass | src/photo_selector/video_digest.py:338-347 | the budget loop selects exactly the recursive greedy choice |
| VideoDigest.GreedyWithinBudget | src/photo_selector/video_digest.py:340-347 | the running total never exceeds the budget |
| VideoDigest.GreedySubseq | src/photo_selector/video_digest.py:340-347 | the selection keeps candidates in their order and adds none |
| VideoDigest.GreedyMaximal | src/photo_selector/video_digest.py:340-347 | when the budget is not filled, every skipped candidate would have overrun it |
| VideoDigest.TotalDurationNonNegative | src/photo_selector/video_digest.py:323 | the reported total of non-negative durations is non-negative |
| VideoDigest.SelectedClipsSound | src/photo_selector/video_digest.py:328-349 | the selection is made of eligible records of the source, in non-increasing final score, and its total duration stays within a non-negative budget |
| VideoDigest.SelectedClipsMaximal | src/photo_selector/video_digest.py:328-349 | when the budget is not filled, every eligible record left out would overrun it |
| VideoDigest.EntryFor | src/photo_selector/video_digest.py:288-295 | the manifest entry records the clip's destination |
| VideoDigest.CopyProgress | src/photo_selector/video_digest.py:283-296 | the copy loop stops at the first failing clip or runs through all of them, and reports an error exactly when it stopped early |
| VideoDigest.CopyProgressStops | src/photo_selector/video_digest.py:283-296 | every clip before the stop has a path and was copied; the clip at the stop lacks a path (the `KeyError`) or its copy failed, and that is the error reported |
| VideoDigest.Entries | src/photo_selector/video_digest.py:283-296 | one manifest entry per copied clip |
| VideoDigest.Copied | src/photo_selector/video_digest.py:283-296 | the manifest holds at most one entry per selected clip, and all of them exactly when no error was raised |
| VideoDigest.CopyProgressAt | src/photo_selector/video_digest.py:283-296 | the loop goes past clip i exactly when that clip has a path and its copy succeeded |
| VideoDigest.CopySelected | src/photo_selector/video_digest.py:282-296 | the numbered copy loop builds exactly the manifest and error of `Copied` |
| VideoDigest.LeadingDigitsOf | src/photo_selector/video_digest.py:285 | the digits of `{idx:04d}` can be read back from the front of a name whose suffix does not start with a digit |
| VideoDigest.ClipNamesCancel | src/photo_selector/video_digest.py:285 | two `clip_` names in one folder are equal only when their numbers are |
| VideoDigest.DestinationInjective | src/photo_selector/video_digest.py:283-285 | two different positions in the timeline never share a destination |
| VideoDigest.DestinationInFolder | src/photo_selector/video_digest.py:279-285 | each destination is the file `clip_NNNN<suffix>` directly inside the source's digest folder |
| VideoDigest.SingleSource | src/photo_selector/video_digest.py:261-325 | the result always names its own source video |
| VideoDigest.ProcessSingleSource | src/photo_selector/video_digest.py:261-325 | selecting, sorting, copying and concatenating gives exactly `SingleSource` |
| VideoDigest.ReadStarts | src/photo_selector/video_digest.py:278 | the scan for the sort keys succeeds exactly when every selected start reads as a float |
| VideoDigest.Publish | src/photo_selector/video_digest.py:278-325 | sorting, copying and concatenating give exactly `Published` |
| VideoDigest.PublishedOutcome | src/photo_selector/video_digest.py:298-325 | the total is that of the whole selection; a digest is produced only under a preset other than `clips_only` after every clip was copied, and then it is the source's final digest path; without an error every clip is in the manifest, and a digest exists exactly when the preset allows it and something was selected |
| VideoDigest.EntryStartAgrees | src/photo_selector/video_digest.py:288-291 | an entry's `start` is the record's own start |
| VideoDigest.EntriesInTimelineOrder | src/photo_selector/video_digest.py:278-296 | entries made from clips sorted by start are in start order |
| VideoDigest.TimelinePrefix | src/photo_selector/video_digest.py:278 | every prefix of the timeline is itself sorted by start |
| VideoDigest.PublishedInTimelineOrder | src/photo_selector/video_digest.py:278-296 | the manifest lists the copied clips in order of start time, whether or not the loop stopped early |
| VideoDigest.SingleSourceWithinBudget | src/photo_selector/video_digest.py:323 | a source's reported total duration never exceeds a non-negative budget |
| VideoDigest.GroupOfUnkeyed | src/photo_selector/video_digest.py:238-243 | a source no record names has no group |
| VideoDigest.GroupOfMembers | src/photo_selector/video_digest.py:238-243 | a group holds exactly the records naming that source, and a source is a key exactly when some record names it |
| VideoDigest.GroupBy | src/photo_selector/video_digest.py:238-243 | the grouping loop yields the sources in order of first appearance, each once, with each group its records in input order; records without a string source are skipped |
| VideoDigest.MapAll | src/photo_selector/video_digest.py:245-256 | one result per source |
| VideoDigest.ProcessGroups | src/photo_selector/video_digest.py:245-258 | the results loop processes every group once, in key order |
| VideoDigest.ProcessSources | src/photo_selector/video_digest.py:230-258 | grouping and then processing each group gives exactly `ProcessedSources` |
| VideoDigest.MapAllNamed | src/photo_selector/video_digest.py:245-256 | results that name their own key stay aligned with the keys |
| VideoDigest.SourceStepNamed | src/photo_selector/video_digest.py:319-320 | processing a source gives a result naming that source |
| VideoDigest.SourceOrderCover | src/photo_selector/video_digest.py:238-246 | the sources processed are distinct, are exactly those named by some record, and come in order of first appearance |
| VideoDigest.ProcessedSourcesNamed | src/photo_selector/video_digest.py:245-258 | there is one result per source, and the i-th result names the i-th source |
| ScoreSchema.CoerceFloat | src/photo_selector/score_schema.py:69-77 | a number (a bool included) is read as its value, a string as `float(s)` or `None` when that raises, and anything else as `None` |
| ScoreSchema.ParseScoreResult | src/photo_selector/score_schema.py:46-66 | every score of the parsed result lies in [0, 1] |
| ScoreSchema.OverallScoreSource | src/photo_selector/score_schema.py:47-51 | the overall score is `overall_score` when it reads as a float, else `score` when that does, else 0, clamped to [0, 1] |
| ScoreSchema.ReasoningStripped | src/photo_selector/score_schema.py:57-65 | the reasoning is the stripped string when one is given and empty otherwise, and never starts or ends with whitespace |
| ScoreSchema.FieldAbsent | src/photo_selector/score_schema.py:53-56 | a missing sub-score reads as `None` and is taken as 0 |
| ScoreSchema.ParseEmpty | src/photo_selector/score_schema.py:46-66 | an empty reply parses to all zeros and an empty reasoning |
| ScoreSchema.ParseScoreText | src/photo_selector/score_schema.py:47-60 | a score given as the text "1.2" is read and clamped to 1 |
| ScoreSchema.SetDefaults | src/photo_selector/score_schema.py:31-32 | `setdefault` over a list of keys adds exactly the missing keys with the default and keeps every present value |
| ScoreSchema.FillRiskDefaults | src/photo_selector/score_schema.py:31-32 | the loop over the four risk keys gives `SetDefaults`, so all four are present afterwards |
| ScoreSchema.SetDefaultsStep | src/photo_selector/score_schema.py:31-32 | one more pass of the loop is one more `setdefault` |
| ScoreSchema.Prepared | src/photo_selector/score_schema.py:21-29 | after the defaults and repairs the analysis has a caption, a list of tags and a risks object; other keys, a list of tags and a risks object already given keep their values, and no other key is added |
| ScoreSchema.PrepareAnalysis | src/photo_selector/score_schema.py:21-29 | the step-by-step copy, defaults and repairs give exactly `Prepared` |
| ScoreSchema.Repaired | src/photo_selector/score_schema.py:21-32 | the repaired analysis has a caption, a list of tags and a risks object, and adds no keys beyond those three |
| ScoreSchema.WithScores | src/photo_selector/score_schema.py:35-41 | writing the parsed scores back adds exactly the seven score keys, `score` mirrors `overall_score`, and every other key is kept |
| ScoreSchema.NormalizeAnalysis | src/photo_selector/score_schema.py:17-43 | it fails exactly when the reply is not an object; otherwise the result has all four risk flags and the seven score fields, each score a float in [0, 1] |
| ScoreSchema.NormalizedHasShape | src/photo_selector/score_schema.py:17-43 | the same shape guarantee for the specification `Normalized` |
| ScoreSchema.WithScoresShape | src/photo_selector/score_schema.py:34-41 | writing in-range scores into a repaired analysis gives the normalised shape |
| ScoreSchema.RepairedKeeps | src/photo_selector/score_schema.py:21-32 | the repaired analysis has the repaired shape, and every given risk, every other key and a list of tags keep their values |
| ScoreSchema.WithScoresKeeps | src/photo_selector/score_schema.py:35-41 | writing the scores leaves caption, tags and risks alone |
| ScoreSchema.NormalizeKeeps | src/photo_selector/score_schema.py:17-43 | normalisation always succeeds on an object and keeps every key of the reply it does not rewrite |
| ScoreSchema.StripTwice | src/photo_selector/score_schema.py:65 | stripping the reasoning twice is the same as once |
| ScoreSchema.ScoreFieldReads | src/photo_selector/score_schema.py:53-61 | a float in [0, 1] already in place is read back unchanged |
| ScoreSchema.ParseNormalized | src/photo_selector/score_schema.py:46-66 | parsing a normalised analysis gives back the scores stored in it |
| ScoreSchema.RepairedStable | src/photo_selector/score_schema.py:21-32 | the defaults and repairs change nothing in an analysis that already has the repaired shape |
| ScoreSchema.WithScoresSame | src/photo_selector/score_schema.py:35-41 | writing back the scores already stored changes nothing |
| ScoreSchema.NormalizeIdempotent | src/photo_selector/score_schema.py:17-43 | normalising a normalised analysis gives it back unchanged |
| Analyzer.AnalyzeQuality | src/photo_selector/analyzer.py:78-98 | the quality map has exactly the eleven keys; `dark` is brightness below 50, `overexposed` above 205, `blur_center` and `blur_strong` compare the centre variance with 220 and 140, and the brightness is reported as measured |
| Analyzer.QualityFlagsConsistent | src/photo_selector/analyzer.py:29-31 | with these thresholds `blur_strong` implies `blur_center`, and no frame is both dark and overexposed |
| Analyzer.ApplyQualityCorrections | src/photo_selector/analyzer.py:123-145 | the corrected score always lies in [0, 1] and never exceeds the (percent-rescaled) model score unless that is negative |
| Analyzer.QualityCorrectionsDeduct | src/photo_selector/analyzer.py:129-145 | the step-by-step subtractions equal one clamp of the rescaled score minus the sum of the penalties of the set flags and of a short side below 720 |
| Analyzer.QualityCorrectionsMonotone | src/photo_selector/analyzer.py:132-145 | more quality flags, or a short side that falls below 720, never raise the corrected score |
| Analyzer.QualityCorrectionsIdentity | src/photo_selector/analyzer.py:123-145 | a score in [0, 1] of a clean frame at least 720 pixels on each side comes back unchanged |
| Analyzer.QualityCorrectionsPercent | src/photo_selector/analyzer.py:129-130 | a clean frame's score above 1 (up to 100) is read as a percentage and divided by 100 |
| Analyzer.ComputeImageHash | src/photo_selector/analyzer.py:101-113 | the bit loop over the pixels gives the average hash, below 2 to the number of pixels; an empty pixel list gives no hash (Python's division by zero) |
| Analyzer.HashBitsBound | src/photo_selector/analyzer.py:108-113 | the hash of n pixels is below 2^n |
| Analyzer.HashBitsAt | src/photo_selector/analyzer.py:109-111 | bit i of the hash is set exactly when pixel i is at least the mean |
| Analyzer.BitUnaffected | src/photo_selector/analyzer.py:111 | setting bit k of a value below 2^k leaves every lower bit as it was |
| Analyzer.BitOnTop | src/photo_selector/analyzer.py:111 | after the step, bit k is set exactly when it was ORed in |
| Analyzer.SomeAtLeastMean | src/photo_selector/analyzer.py:106 | some pixel is at least the mean |
| Analyzer.HashNonZero | src/photo_selector/analyzer.py:106-113 | a non-empty image always has some bit set |
| Analyzer.UniformHash | src/photo_selector/analyzer.py:106-113 | an image of one shade sets every bit |
| Analyzer.AllAtLeast | src/photo_selector/analyzer.py:109-111 | when every pixel reaches the threshold, every bit is set |
| Analyzer.Hash64 | src/photo_selector/analyzer.py:101-113 | an 8 x 8 thumbnail gives a 64-bit fingerprint |
| Analyzer.ComputeOrientation | src/photo_selector/analyzer.py:148-153 | the answer is `square` exactly when width equals height, `landscape` exactly when it is larger, `portrait` exactly when it is smaller |
| Analyzer.ChooseOutputFormat | src/photo_selector/analyzer.py:156-164 | the format is JPEG or PNG, and PNG exactly for a non-HEIC path whose image format is PNG in any case |
| ResumeDb.DumpJson | src/photo_selector/resume_db.py:102-106 | `None` is stored as NULL and anything else as JSON text |
| ResumeDb.LoadJson | src/photo_selector/resume_db.py:108-112 | NULL reads back as `None` and stored text as a document |
| ResumeDb.JsonRoundTrip | src/photo_selector/resume_db.py:102-112 | a document or `None` written by `_dump_json` is read back unchanged by `_load_json` |
| ResumeDb.Lookup | src/photo_selector/resume_db.py:23-34 | a cached score is found exactly when a row for the path exists and its stored hash equals the given hash; it carries the row's score and decoded analysis and quality |
| ResumeDb.ScoreStore.constructor | src/photo_selector/resume_db.py:19-21 | a store opened on a database holds that database's rows |
| ResumeDb.ScoreStore.Get | src/photo_selector/resume_db.py:23-34 | `get` answers exactly `Lookup` on the current rows |
| ResumeDb.ScoreStore.Upsert | src/photo_selector/resume_db.py:36-72 | the rows afterwards are the old rows with the path's row inserted or replaced |
| ResumeDb.LookupAfterUpsert | src/photo_selector/resume_db.py:23-72 | after an upsert, `get` with the same hash returns exactly the stored score, analysis and quality, and with any other hash returns `None` |
| ResumeDb.UpsertLeavesOthers | src/photo_selector/resume_db.py:36-72 | an upsert leaves every other path's row and lookup unchanged (the `ON CONFLICT(file_path)` key) |
| ResumeDb.UpsertIdempotent | src/photo_selector/resume_db.py:36-72 | repeating an upsert only refreshes the timestamp and changes no lookup |
| ExecutionPlan.Dedupe | src/photo_selector/execution_plan.py:138-146 | the loop with its `seen` set keeps exactly `Distinct` of its input |
| Seqs.Distinct | src/photo_selector/execution_plan.py:138-146 | the result has no duplicates and holds exactly the items of the input |
| Seqs.DistinctInFirstOrder | src/photo_selector/execution_plan.py:138-146 | the result lists each item once, in order of its first occurrence |
| ExecutionPlan.PhotoPlanAsWritten | src/photo_selector/execution_plan.py:52-54 | as written, the photo plan raises exactly when resuming is enabled (the store is opened with an argument its constructor does not take), and otherwise is the plan |
| ExecutionPlan.ResumedPlanFails | src/photo_selector/execution_plan.py:52-54 | `resume=True, force=False` makes the planner raise even for an empty input, where the corrected plan reports resuming |
| ExecutionPlan.BuildPhotoPlan | src/photo_selector/execution_plan.py:45-86 | the photo planner's loop over the images, with the store opened read-only when resuming, gives exactly `PhotoPlanOf` |
| ExecutionPlan.PhotoPlanPartition | src/photo_selector/execution_plan.py:52-68 | resuming is `resume and not force`; every image goes to exactly one of process and skip in its original order; an image is skipped exactly when resuming and the store has its path with the same 16-digit hex hash; nothing is skipped without resuming |
| ExecutionPlan.PlanSplit | src/photo_selector/execution_plan.py:60-68 | the split of a list by a test is an interleaving whose skip side holds exactly the hits, and is empty when no item can hit |
| ExecutionPlan.DistinctImageCover | src/photo_selector/execution_plan.py:70-85 | the deduplicated outputs hold each fixed path and each item's target once, and nothing else |
| ExecutionPlan.PhotoOutputsCover | src/photo_selector/execution_plan.py:70-85 | the estimated outputs of a photo plan are the four fixed paths and each processed image's name inside the selected folder, each once, and nothing else |
| ExecutionPlan.AppendSourceOutputs | src/photo_selector/execution_plan.py:109-126 | one pass of the video loop appends exactly the paths of that source |
| ExecutionPlan.BuildVideoPlan | src/photo_selector/execution_plan.py:89-135 | the video planner's loop gives exactly `VideoPlanOf` |
| ExecutionPlan.SourceKindsImage | src/photo_selector/execution_plan.py:109-126 | a source contributes its clip pattern, then the root digest and list unless the preset is `clips_only`, then the folder digest and list when concatenating in the folder |
| ExecutionPlan.SourceOutputsKinds | src/photo_selector/execution_plan.py:109-126 | the paths appended for one source are the output paths of its kinds of output |
| ExecutionPlan.VideoOutputsKinds | src/photo_selector/execution_plan.py:101-126 | the whole list built by the loop is the output paths of the kinds of output of the fixed folders and of every source |
| ExecutionPlan.SourceKindsMembers | src/photo_selector/execution_plan.py:109-126 | a kind of output is listed for a source exactly when it is the clip pattern, a root output without `clips_only`, or a folder output with folder concatenation |
| ExecutionPlan.VideoKindsSound | src/photo_selector/execution_plan.py:101-126 | no root output is listed under `clips_only` and no folder output without folder concatenation |
| ExecutionPlan.VideoKindsConcat | src/photo_selector/execution_plan.py:101-126 | the kinds listed are the fixed folders followed by each source's kinds in input order |
| ExecutionPlan.SourceKindsListed | src/photo_selector/execution_plan.py:108-126 | every kind of output of every source is listed |
| ExecutionPlan.VideoKindsComplete | src/photo_selector/execution_plan.py:108-126 | each source has its clip pattern listed, its root outputs exactly when the preset is not `clips_only`, and its folder outputs exactly when concatenating in the folder |
| ExecutionPlan.KindPathListed | src/photo_selector/execution_plan.py:101-126 | an output path is listed exactly when its kind of output is |
| ExecutionPlan.VideoPlanListed | src/photo_selector/execution_plan.py:128-135 | the estimated outputs have no duplicates, and an output path is estimated exactly when its kind of output is listed |
| ExecutionPlan.VideoPlanOutputs | src/photo_selector/execution_plan.py:89-135 | every video is processed and none skipped; the outputs have no duplicates; for each source the clip pattern is estimated, its final digest and root list exactly when the preset is not `clips_only`, and its folder digest and folder list exactly when concatenating in the folder |
| ExecutionPlan.BuildExecutionPlan | src/photo_selector/execution_plan.py:18-42 | `photo` gives the corrected photo plan (see "## Findings"), `video` the video plan, and any other plan type raises `Unknown plan type` |
| ExecutionPlan.ExecutionPlanAsWritten | src/photo_selector/execution_plan.py:18-54 | as written, the dispatcher raises exactly for an unknown plan type or a photo plan with resuming enabled, and otherwise gives the plan |
| OutputPaths.JoinChild | src/photo_selector/output_paths.py:26-56 | `dir / name` with a slash-free name is the entry called `name` directly inside `dir` |
| OutputPaths.PhotoLayout | src/photo_selector/output_paths.py:25-33 | `selected` and `scores` sit directly in the output folder, the photo manifest and the score database directly in `scores`, so both lie under the output folder |
| OutputPaths.VideoLayout | src/photo_selector/output_paths.py:36-44 | `scores`, `temp` and `digest_clips` sit directly in the output folder and the video manifest directly in `scores` |
| OutputPaths.SourcePathsUnder | src/photo_selector/output_paths.py:47-56 | a source's clip folder is inside `digest_clips`, its final digest `<stem>_digest.mp4` is directly in the output folder, and a concat list `<label>.txt` is in `temp/concat`; all lie under the output folder |
| OutputPaths.JoinCancels | src/photo_selector/output_paths.py:47-56 | joining two names onto one folder gives equal paths only for equal names |
| OutputPaths.SourcePathsInjective | src/photo_selector/output_paths.py:47-52 | two different stems never share a clip folder or a final digest |
| OutputPaths.FixedOutputPaths | src/photo_selector/output_paths.py:36-44 | the four fixed kinds of video output name the scores, manifest, clips and temporary paths of the layout |
| OutputPaths.SourceOutputPaths | src/photo_selector/output_paths.py:47-56 | the five per-source kinds of output name the clip pattern, the final digest, the root list, the folder digest and the folder list |
| OutputPaths.ComponentsInjective | src/photo_selector/output_paths.py:36-56 | different kinds of output have different path components below the output folder |
| OutputPaths.OutputPathInjective | src/photo_selector/output_paths.py:36-56 | for slash-free stems, different kinds of output never share a path, so the planner's list never names one file for two purposes |
| Cli.CliLayoutDiffers | src/photo_selector/cli.py:46-48 | the command line uses the same `selected` folder as the planner's layout but keeps the manifest and the score database directly in the output folder, not in `scores` |
| Cli.Judgement | src/photo_selector/cli.py:86-100 | a fresh judgement needs both the quality measurement and the judge's reply; it is a validated analysis whose score is a float in [0, 1] |
| Cli.AnalyzeImage | src/photo_selector/cli.py:60-117 | one pass of the analysis loop gives the record and leaves the store's rows exactly as `AnalyzeFile` says |
| Cli.FailedShape | src/photo_selector/cli.py:112-115 | a failed image keeps its path, has its error message, no analysis and no quality, and is never eligible |
| Cli.FinishedShape | src/photo_selector/cli.py:80-104 | an analysed image keeps its path, has no error and the given analysis and quality, and is eligible when its score is a number |
| Cli.EligibleIffNoError | src/photo_selector/cli.py:60-117 | every record names its image, is eligible for selection exactly when it has no error, and an errored record carries neither analysis nor quality |
| Cli.NoLookupWithoutResume | src/photo_selector/cli.py:76-78 | without resuming the store is never read: the record does not depend on it, and only the image's own row may change |
| Cli.CacheHitReuses | src/photo_selector/cli.py:80-84 | on a cache hit nothing is measured or asked, nothing is written, the cached quality is reported, and the analysis is the cached one (or `{"score": cached score}` when it is empty) |
| Cli.MissStoresCorrectedScore | src/photo_selector/cli.py:85-111 | on a miss the record's analysis is the validated reply with the corrected score, and the store now answers that score, analysis and quality for the image's hash |
| Cli.CachedJudgementReused | src/photo_selector/cli.py:80-84 | a judgement read back from the store gives the same record as when it was first made |
| Cli.RerunReproduces | src/photo_selector/cli.py:60-117 | a second run with resuming on reproduces an error-free record exactly and writes nothing |
| Cli.AnalyzedAll | src/photo_selector/cli.py:57-117 | one record per image |
| Cli.AnalyzeAll | src/photo_selector/cli.py:57-117 | the loop over the images gives exactly the records and rows of `AnalyzedAll`, with resuming on exactly when `resume` and not `force` |
| Cli.AnalyzedAllRecords | src/photo_selector/cli.py:60-117 | the i-th record is the i-th image's, and it is eligible exactly when it has no error |
| Cli.AnalyzedAllIgnoresCache | src/photo_selector/cli.py:58-78 | without resuming the records do not depend on what the store held |
| Cli.MarkSelected | src/photo_selector/cli.py:122-123 | every record is flagged `selected` exactly when its path is among the selected paths |
| Cli.CopySelected | src/photo_selector/cli.py:125-132 | every selected record whose copy fails keeps an earlier error or takes the copy's message and is unflagged; every other record is unchanged |
| Cli.SelectAndCopy | src/photo_selector/cli.py:119-132 | selection, flagging and copying give exactly `Finalized` |
| Cli.RecordArray | src/photo_selector/cli.py:57 | the records are laid out in a fresh array in their order |
| Cli.FlagAndCopy | src/photo_selector/cli.py:122-132 | the two loops over the records give exactly `FinalAll` |
| Cli.RunPhotoSelection | src/photo_selector/cli.py:40-135 | the photo command's store ends with the rows of `AnalyzedAll` and its manifest is the finalised records, copied into the command's `selected` folder |
| Cli.FinalShape | src/photo_selector/cli.py:122-132 | a record ends selected exactly when its path was chosen and its copy succeeded; a failed copy keeps an earlier error or records the copy's; every other key is kept |
| Cli.FinalFlags | src/photo_selector/cli.py:119-132 | in the manifest a photo is flagged selected exactly when its path is among the chosen and its copy succeeded |
| Cli.FlaggedAreSelected | src/photo_selector/cli.py:119-132 | with distinct paths, a photo ends flagged exactly when it was chosen and copied, and every flagged photo was eligible |
| VideoSplitter.CollectVideoPaths | src/photo_selector/video_splitter.py:31-39 | the walk keeps exactly `VideoPaths`: a file input by itself when it is a video, and otherwise the video files of the listing in walk order |
| VideoSplitter.VideoPathsMembers | src/photo_selector/video_splitter.py:31-39 | a file input gives itself exactly when it has a video suffix and nothing otherwise; a folder gives exactly the paths of its entries that are files with a video suffix |
| VideoSplitter.VideoSuffixAnyCase | src/photo_selector/video_splitter.py:31-39 | a file is a video exactly when its lower-cased last suffix is one of the five video extensions, whatever its case |
| VideoSplitter.LexTotal | src/photo_selector/video_splitter.py:85 | any two paths are ordered one way or the other |
| VideoSplitter.LexTransitive | src/photo_selector/video_splitter.py:85 | the path order is transitive |
| VideoSplitter.InsertPath | src/photo_selector/video_splitter.py:85 | inserting a path adds exactly that path |
| VideoSplitter.SortPaths | src/photo_selector/video_splitter.py:85 | sorting the segment paths is a permutation |
| VideoSplitter.InsertPathSorted | src/photo_selector/video_splitter.py:85 | inserting into a sorted list keeps it sorted |
| VideoSplitter.SortPathsSorted | src/photo_selector/video_splitter.py:85 | the sorted segment paths are in order |
| VideoSplitter.TimelineStep | src/photo_selector/video_splitter.py:87-105 | one more segment is one more pass of the loop |
| VideoSplitter.TimelineFailureSticks | src/photo_selector/video_splitter.py:88 | once probing a segment raised, the whole split raises that error |
| VideoSplitter.SplitVideo | src/photo_selector/video_splitter.py:72-107 | a failed segmentation is passed on; otherwise the sorted segments are laid on the timeline, giving exactly `SplitVideoResult` |
| VideoSplitter.LayTimeline | src/photo_selector/video_splitter.py:84-107 | the loop with its running start gives exactly `Timeline` |
| VideoSplitter.TimelineContiguous | src/photo_selector/video_splitter.py:86-105 | the first clip starts at 0, each clip ends at its start plus its duration, each starts where the previous kept clip ended, and every clip belongs to the source and is at least `min_clip` long |
| VideoSplitter.TimelineEnd | src/photo_selector/video_splitter.py:86-105 | the timeline ends at the sum of the kept durations |
| VideoSplitter.TimelineKeepsLong | src/photo_selector/video_splitter.py:87-105 | the split succeeds exactly when every segment can be probed, and then keeps exactly the segments at least `min_clip` long, in order |
| VideoSplitter.PartitionKeepsSorted | src/photo_selector/video_splitter.py:85-90 | dropping short segments keeps the sorted order |
| VideoSplitter.SplitVideoSorted | src/photo_selector/video_splitter.py:72-107 | the clips come out in sorted path order |
| VideoSplitter.ParseFps | src/photo_selector/video_splitter.py:196-208 | no value, an empty value and "0/0" all give 0 |
| VideoSplitter.QuotientOfSome | src/photo_selector/video_splitter.py:201-204 | two parsed parts give their quotient, or 0 for a zero denominator |
| VideoSplitter.FpsFraction | src/photo_selector/video_splitter.py:199-204 | a value with a slash is split at its first slash and gives the quotient of the two parts, 0 when either does not parse or the denominator is 0 |
| VideoSplitter.FpsNonzeroParsed | src/photo_selector/video_splitter.py:196-208 | a nonzero rate comes from a value that parses: both parts of a fraction with a nonzero denominator, or the whole value as a float |
| VideoSplitter.QuotientNonzero | src/photo_selector/video_splitter.py:201-204 | a nonzero quotient comes from two parsed parts with a nonzero denominator |
| VideoSplitter.ZeroOverZero | src/photo_selector/video_splitter.py:197 | "0/0" is the only fraction caught by the first test |
| VideoSplitter.FpsNumeralQuotient | src/photo_selector/video_splitter.py:199-204 | a fraction of two decimal numerals other than "0/0" gives their exact quotient, or 0 for a zero denominator |
| VideoSplitter.FpsRatio | src/photo_selector/video_splitter.py:196-204 | every fraction of two decimal numerals, "0/0" included, gives their exact quotient, or 0 for a zero denominator |
| OllamaClient.RStrip | src/photo_selector/ollama_client.py:19 | `rstrip` keeps a prefix, removes only the given character, and leaves none at the end |
| OllamaClient.ChatUrlTrailingSlashes | src/photo_selector/ollama_client.py:19 | any number of trailing slashes on the base URL gives the same chat endpoint |
| OllamaClient.SpanBetween | src/photo_selector/ollama_client.py:68-73 | the slice runs from a '{' to a '}', and the error is raised exactly when no '{' was found or no '}' follows it |
| OllamaClient.BraceSpan | src/photo_selector/ollama_client.py:66-73 | the object text found always starts with '{' and ends with '}', and failing to find one raises `No JSON object found` |
| OllamaClient.BracedEnds | src/photo_selector/ollama_client.py:66-67 | text that starts with '{' and ends with '}' has its first '{' and last '}' at the ends |
| OllamaClient.BraceSpanOuterBraces | src/photo_selector/ollama_client.py:66-73 | the shortcut for text already braced agrees with the general slice from the first '{' to the last '}' |
| OllamaClient.Unfenced | src/photo_selector/ollama_client.py:61-65 | the unwrapped reply never starts or ends with whitespace, fenced or not |
| OllamaClient.FencedJson | src/photo_selector/ollama_client.py:61-65 | every fenced reply "```json" + body + "```" is unwrapped to the body stripped, for any body that does not itself end in a backtick |
| OllamaClient.UnfencedPlain | src/photo_selector/ollama_client.py:61-63 | a reply that does not open with "```" once stripped is only stripped |
| OllamaClient.UnfencedExample | src/photo_selector/ollama_client.py:61-65 | the reply "```json {} ```" is unfenced to "{}" |
| OllamaClient.ParseJsonFromText | src/photo_selector/ollama_client.py:61-75 | a reply with no object raises `No JSON object found`; otherwise the object text found is what `json.loads` is given |
| OllamaClient.FencedReplyParsed | src/photo_selector/ollama_client.py:61-67 | the fenced reply "```json {} ```" hands `json.loads` exactly the text "{}" |
| OllamaClient.Head | src/photo_selector/ollama_client.py:41-43 | the error message carries at most the first 200 characters of the response |
| OllamaClient.AttemptResult | src/photo_selector/ollama_client.py:38-48 | a status other than 200 raises the HTTP error, empty content raises `Empty Ollama response content`, and a reply is returned only for status 200 with text content, and then it is what the JSON extraction gives |
| OllamaClient.Chat | src/photo_selector/ollama_client.py:37-58 | the retry loop makes between 1 and `max_retries + 1` tries, returns the first success or else the last try's error, sleeps `backoff * k` before try k+1, and with a negative retry count raises `Unknown Ollama error` without trying |
| OllamaClient.ChatOutcome | src/photo_selector/ollama_client.py:37-58 | the call succeeds exactly when one of the allowed tries succeeds, and otherwise raises the last allowed try's error |
| ConfigLoader.CoerceBool | src/photo_selector/config_loader.py:26-37 | a bool is itself, a number is true exactly when nonzero, and a value that is none of bool, number or string gives nothing |
| ConfigLoader.WordsDisjoint | src/photo_selector/config_loader.py:31-34 | no word is read both as true and as false |
| ConfigLoader.CoerceString | src/photo_selector/config_loader.py:30-36 | a string is true exactly when its stripped, lower-cased form is 1, true, yes or on, false exactly when it is 0, false, no or off, and gives nothing otherwise |
| ConfigLoader.CoerceAgreesWithTruth | src/photo_selector/config_loader.py:26-37 | whenever an answer is given, a bool or number agrees with Python's `bool(value)` and a string with its being a true word |
| Seqs.SortDesc | src/photo_selector/selector.py:12 | `sorted(..., reverse=True)` gives a permutation of its input in non-increasing key order |
| Seqs.SortAsc | src/photo_selector/video_digest.py:278 | `sorted` by a key gives a permutation of its input in non-decreasing key order |
| Seqs.InsertDesc | src/photo_selector/selector.py:12 | inserting into a list sorted by descending key adds exactly that item and keeps the order |
| Seqs.Filter | src/photo_selector/selector.py:11 | a list comprehension with a condition keeps exactly the items satisfying it, in order and with no new copies |
| Seqs.TakeTop | src/photo_selector/selector.py:40-43 | the answer is a prefix of the ordered list, the whole list when the target is at least its length, and `cluster_best[:target_count]` otherwise, a negative target counting from the end |
| Seqs.PySliceTo | src/photo_selector/selector.py:43 | `s[:n]` with Python's treatment of a negative or too large `n` |
| Seqs.PartitionSplits | src/photo_selector/execution_plan.py:60-68 | splitting a list by a test interleaves the two sides, each holding exactly the items of the input that fail or pass it |
| Numerals.FormatHex16 | src/photo_selector/execution_plan.py:62 | `f"{h:016x}"` is at least 16 lower-case hex digits whose value is `h` |
| Numerals.FormatHex16RoundTrip | src/photo_selector/dedupe_utils.py:9-11 | `int(f"{h:016x}", 16)` gives back `h` |
| Numerals.FormatDec04 | src/photo_selector/video_digest.py:285 | `f"{idx:04d}"` is at least 4 decimal digits whose value is `idx` |
| Numerals.FormatDec04Injective | src/photo_selector/video_digest.py:285 | different numbers give different four-digit texts |
| Numerals.ParsePlainHex | src/photo_selector/dedupe_utils.py:11 | `int(s, 16)` reads a plain lower-case hex text as its value |
| Numerals.ParseFloatOnePointTwo | src/photo_selector/score_schema.py:72-74 | `float("1.2")` is 1.2 |
| Numerals.ParsePlainDecimal | src/photo_selector/video_splitter.py:202 | `float(s)` reads a decimal numeral as its value |
| PyPath.Join | src/photo_selector/output_paths.py:26 | `a / b` is `a`, a slash, then `b` |
| PyPath.Name | src/photo_selector/execution_plan.py:77 | `Path(p).name` is the slash-free text after the last slash |
| PyPath.Suffix | src/photo_selector/video_digest.py:285 | `path.suffix` is empty or a dot followed by at least one character |
| PyPath.Stem | src/photo_selector/video_digest.py:279 | `path.stem` is slash-free |
| PyPath.NameSplits | src/photo_selector/video_digest.py:285 | a file name is its stem followed by its suffix |
| PyPath.StemSuffix | src/photo_selector/video_digest.py:279-285 | the name of a path is `path.stem` followed by `path.suffix` |
| PyPath.SuffixOfJoin | src/photo_selector/video_splitter.py:33 | the suffix of `dir / (stem + ext)` is `ext` for a dot-free stem |
| PyText.StripBy | src/photo_selector/ollama_client.py:62-65 | `strip` keeps no dropped character at either end |
| PyText.Find | src/photo_selector/ollama_client.py:70 | `find` is the first position of the character, -1 exactly when it is absent |
| PyText.RFind | src/photo_selector/ollama_client.py:71 | `rfind` is the last position of the character, -1 exactly when it is absent |
| PyText.ReplaceFirst | src/photo_selector/ollama_client.py:65 | `replace(pattern, replacement, 1)` replaces the first occurrence and leaves text without one unchanged |
| PyText.Lower | src/photo_selector/config_loader.py:32 | `lower` maps each character, and only ASCII capitals change |
| PyValues.Get | src/photo_selector/video_digest.py:240 | `dict.get` of a missing key is `None` |
| PyValues.SetDefault | src/photo_selector/video_digest.py:190-192 | `setdefault` adds the key with the default only when it is missing and changes nothing else |
| PyValues.Clamp01 | src/photo_selector/analyzer.py:167-172 | `_clamp_score` lies in [0, 1], keeps a value already there, and sends values below and above to 0 and 1 |
| Bits.XorTriangle | src/photo_selector/dedupe_utils.py:17-18 | the popcount of xors obeys the triangle inequality |
| Bits.XorBound | src/photo_selector/dedupe_utils.py:17-18 | the xor of two values below 2^k is below 2^k |
| Bits.OrFreshBit | src/photo_selector/analyzer.py:111 | ORing in a bit above every set bit is adding it |

## Left out

- Image decoding and pixel work (Pillow's grayscale conversion, resizing, edge filter, crops, statistics, base64 encoding) are given as inputs: `Analyzer.Metrics` holds the measured brightness, size and edge variances, and the average hash takes the thumbnail's pixels.
- ffmpeg and ffprobe (segmenting, frame extraction, concatenation, probing) are external processes: a segmentation result, a `probe` function and failure flags (`Effects`) stand for them. `get_video_metadata` is not modelled apart from its frame-rate parsing; `max_clip` and `use_hwaccel` only reach ffmpeg and do not appear.
- The audio analysis (`analyze_audio`, `has_speech`, `audio_rms`) is signal processing over `audioop` and is left out; the fields are carried only as they are stored.
- The file system (`rglob`, `mkdir`, `copy2`, `rmtree`) is given: a directory listing in walk order, a `copy2` function that may fail, and the digest copy failures as a set of positions. A failed `mkdir` is not modelled.
- `requests.post`, `response.json()`, `json.loads` and `json.dumps` are parameters (`Exchange`, `loads`) or abstract documents (`ResumeDb.JsonText`); `time.sleep` is recorded as the list of sleep lengths the loop asks for; `datetime.now` is the `now` parameter.
- SQLite is the map `ScoreStore.rows` keyed by file path; table creation and database errors are not modelled. `_load_json` of an empty text is not modelled, because `_dump_json` never writes one.
- Exception messages raised by libraries (`float()`, `Path()`, `copy2`, HTTP errors from `requests`) are fixed message constants rather than Python's exact text; the content of a non-text judge reply is reported as `ContentNotText`.
- Float corner cases: NaN, infinities, rounding and `float()` of "inf", "nan" or text with underscores are not modelled; Unicode case mapping and whitespace beyond ASCII and the Latin-1 spaces are not modelled.
- Paths are strings joined with "/"; `expanduser`, `resolve` and normalisation of "." or doubled slashes are left out, and stems are taken as slash-free. `sorted()` on `Path` objects is modelled as character order of the path strings, which agrees for files in one folder.
- `_build_prompt` (video_digest.py, cli.py) only formats the prompt text; the prompt is not modelled. `save_manifest`, `DigestResult`, the `keep_temp` clean-up, argument parsing and `load_config`'s YAML reading are I/O.
- `run_video_digest` is modelled through its per-clip body (`VideoDigest.AnalyzeClip`, `VideoDigest.FailedRecord`) and `_process_sources`; the driver loop that walks the videos, splits them and builds each record is not modelled as a whole.
- `_validate_analysis` and `normalize_analysis` are modelled on values: `_validate_analysis` changes its argument in place and `normalize_analysis`'s shallow `dict(raw)` still shares the `risks` object with the caller, so the caller's dictionary also gains the risk defaults; that aliasing is not shown.
- `_validate_analysis` and `_apply_risk_penalties` are copied verbatim into cli.py (lines 157-198); they are modelled once, in `VideoDigest`, and `Cli` uses them.
- The `raise last_error` after the retry loop of `OllamaClient.chat` cannot be reached (every pass returns or raises); only the `Unknown Ollama error` for a negative retry count remains, and that is modelled.
- OllamaClient.Chat: every exception is retried, including a reply without a JSON object (the `ValueError` of `_parse_json_from_text`), as the `except Exception` at ollama_client.py:49 does.
- ExecutionPlan.BuildExecutionPlan: dispatches to the corrected photo planner `ExecutionPlan.BuildPhotoPlan`, so with resume on and force off it returns the plan where the Python dispatcher raises `TypeError`; the code as written is `ExecutionPlan.ExecutionPlanAsWritten`.
- ExecutionPlan.BuildPhotoPlan: hashing is the total function `hashOf`; an image Pillow cannot open, which makes the Python planner raise, is not modelled.
- Cli.FlagAndCopy: the Python copy loop walks the selected dictionaries themselves, while the model copies every record whose path was chosen; the two agree when paths are distinct, which `Cli.FlaggedAreSelected` assumes.
- `frame_extractor.py`, `audio_analyzer.py` and `manifest.py` are not part of this model.

## Findings

| source | as written | input that shows it | evidently intended | confidence | as-written member | corrected member |
|---|---|---|---|---|---|---|
| src/photo_selector/execution_plan.py:54 | the planner opens the score store with `ScoreStore(paths.db_path, create=False)`, but `ScoreStore.__init__` (resume_db.py:19) takes only `db_path`, so the call raises `TypeError` | `build_execution_plan("photo", ..., resume=True, force=False)`, even with no images | open the existing store read-only and skip images whose hash is cached | not executed | ExecutionPlan.PhotoPlanAsWritten | ExecutionPlan.BuildPhotoPlan |
