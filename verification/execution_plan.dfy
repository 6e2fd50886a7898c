/** The dry-run planner: which inputs a run would process or skip, and which
    output paths it would write, without analysing anything. */
module ExecutionPlan {
  import opened Wrappers
  import opened PyPath
  import opened Numerals
  import opened Seqs
  import opened OutputPaths
  import opened ResumeDb

  /** The dict `build_execution_plan` returns, one constructor per plan type. */
  datatype Plan =
    | PhotoPlan(resume: bool, filesToProcess: seq<string>, filesToSkip: seq<string>,
                estimatedOutputPaths: seq<string>)
    | VideoPlan(preset: Option<string>, concatInDigestFolder: bool, filesToProcess: seq<string>,
                filesToSkip: seq<string>, estimatedOutputPaths: seq<string>)

  // ---------------------------------------------------------------------------
  // _dedupe

  /** `_dedupe(items)`: a `seen` set and a result list; an item already seen
      is skipped. */
  method Dedupe(items: seq<string>) returns (result: seq<string>)
    ensures result == Distinct(items)
  {
    var seen: set<string> := {};
    result := [];
    for i := 0 to |items|
      invariant result == Distinct(items[..i])
      invariant forall x :: x in seen <==> x in result
    {
      assert items[..i + 1] == items[..i] + [items[i]];
      DistinctSnoc(items[..i], items[i]);
      var item := items[i];
      if item in seen {
        continue;
      }
      seen := seen + {item};
      result := result + [item];
    }
    assert items[..|items|] == items;
  }

  // ---------------------------------------------------------------------------
  // _build_photo_plan

  /** `bool(resume) and not bool(force)`. */
  function ResumeEnabled(resume: bool, force: bool): bool
  {
    resume && !force
  }

  /** The cache hits for `path`: resume is on and the store holds a row
      for the path under the hex form of its fingerprint `hashOf(path)`. */
  predicate Cached(resumeEnabled: bool, rows: map<string, Row>, hashOf: string -> nat, path: string)
  {
    resumeEnabled && Lookup(rows, path, FormatHex16(hashOf(path))).Some?
  }

  /** The images the cache answers. */
  function Hit(resumeEnabled: bool, rows: map<string, Row>, hashOf: string -> nat): string -> bool
  {
    path => Cached(resumeEnabled, rows, hashOf, path)
  }

  /** `selected_dir / Path(path).name` for every processed file. */
  function SelectedTarget(selectedDir: string): string -> string
  {
    path => Join(selectedDir, Name(path))
  }

  /** The four fixed photo outputs, then the copy target of every processed
      file. */
  function PhotoOutputs(paths: PhotoOutputPaths, process: seq<string>): seq<string>
  {
    [paths.scoresDir, paths.manifestPath, paths.dbPath, paths.selectedDir] + Image(process, SelectedTarget(paths.selectedDir))
  }

  /** The photo plan over the collected `images`; `hashOf` is
      `compute_image_hash` and `rows` what the score database holds. */
  function PhotoPlanOf(images: seq<string>, outputDir: string, resume: bool, force: bool,
                       hashOf: string -> nat, rows: map<string, Row>): Plan
  {
    var enabled := ResumeEnabled(resume, force);
    var parts := Partition(images, Hit(enabled, rows, hashOf));
    PhotoPlan(enabled, parts.0, parts.1, Distinct(PhotoOutputs(GetPhotoPaths(outputDir), parts.0)))
  }

  /** The message Python gives for `ScoreStore(paths.db_path, create=False)`:
      `ScoreStore.__init__` takes no `create` argument. */
  const CreateRejected: string := "ScoreStore.__init__() got an unexpected keyword argument 'create'"

  /** `_build_photo_plan` as written: with resume on, opening the store
      raises `TypeError` before any image is looked at. */
  function PhotoPlanAsWritten(images: seq<string>, outputDir: string, resume: bool, force: bool,
                              hashOf: string -> nat, rows: map<string, Row>): (r: Result<Plan, string>)
    ensures r.Failure? <==> ResumeEnabled(resume, force)
    ensures r.Success? ==> r.value == PhotoPlanOf(images, outputDir, resume, force, hashOf, rows)
  {
    if ResumeEnabled(resume, force) then Failure(CreateRejected)
    else Success(PhotoPlanOf(images, outputDir, resume, force, hashOf, rows))
  }

  /** The resumed dry run never yields a plan as written, even over an
      empty input folder, although the cache would answer. */
  lemma ResumedPlanFails(outputDir: string, hashOf: string -> nat, rows: map<string, Row>)
    ensures PhotoPlanAsWritten([], outputDir, true, false, hashOf, rows) == Failure(CreateRejected)
    ensures PhotoPlanOf([], outputDir, true, false, hashOf, rows).resume
  {
  }

  /** `_build_photo_plan`, with the store opened as `ScoreStore(db_path)`
      reads it: `rows` is what the database file holds (nothing when there
      is no file yet). */
  method BuildPhotoPlan(images: seq<string>, outputDir: string, resume: bool, force: bool,
                        hashOf: string -> nat, rows: map<string, Row>) returns (plan: Plan)
    ensures plan == PhotoPlanOf(images, outputDir, resume, force, hashOf, rows)
  {
    var resumeEnabled := ResumeEnabled(resume, force);
    var paths := GetPhotoPaths(outputDir);
    var store: ScoreStore? := null;
    if resumeEnabled {
      store := new ScoreStore(rows);
    }
    var process: seq<string> := [];
    var skip: seq<string> := [];
    for i := 0 to |images|
      invariant resumeEnabled ==> store != null && store.rows == rows
      invariant (process, skip) == Partition(images[..i], Hit(resumeEnabled, rows, hashOf))
    {
      var path := images[i];
      assert images[..i + 1][..i] == images[..i];
      var hexHash := FormatHex16(hashOf(path));
      if resumeEnabled && store != null {
        var cached := store.Get(path, hexHash);
        if cached.Some? {
          skip := skip + [path];
          continue;
        }
      }
      process := process + [path];
    }
    assert images[..|images|] == images;
    var outputs := [paths.scoresDir, paths.manifestPath, paths.dbPath, paths.selectedDir];
    outputs := outputs + Image(process, SelectedTarget(paths.selectedDir));
    var deduped := Dedupe(outputs);
    plan := PhotoPlan(resumeEnabled, process, skip, deduped);
  }

  /** Every collected image lands in exactly one of the two lists, in input
      order; a file is skipped only when resume is on and the cache hits, so
      without resume nothing is skipped. */
  lemma PhotoPlanPartition(images: seq<string>, outputDir: string, resume: bool, force: bool,
                           hashOf: string -> nat, rows: map<string, Row>)
    ensures var plan := PhotoPlanOf(images, outputDir, resume, force, hashOf, rows);
      && plan.resume == (resume && !force)
      && Interleaving(images, plan.filesToProcess, plan.filesToSkip)
      && |plan.filesToProcess| + |plan.filesToSkip| == |images|
      && (forall p :: p in plan.filesToSkip <==>
            p in images && plan.resume && Lookup(rows, p, FormatHex16(hashOf(p))).Some?)
      && (!plan.resume ==> plan.filesToSkip == [])
  {
    var enabled := ResumeEnabled(resume, force);
    var hit := Hit(enabled, rows, hashOf);
    var plan := PhotoPlanOf(images, outputDir, resume, force, hashOf, rows);
    assert (plan.filesToProcess, plan.filesToSkip) == Partition(images, hit);
    PlanSplit(images, hit, enabled, plan.filesToProcess, plan.filesToSkip);
  }

  /** A list split by a test that only holds when resume is on. */
  lemma PlanSplit<T>(items: seq<T>, hit: T -> bool, enabled: bool, process: seq<T>, skip: seq<T>)
    requires (process, skip) == Partition(items, hit)
    requires !enabled ==> forall x :: !hit(x)
    ensures Interleaving(items, process, skip) && |process| + |skip| == |items|
    ensures forall x :: x in skip <==> x in items && hit(x)
    ensures !enabled ==> skip == []
  {
    PartitionSplits(items, hit);
    InterleavingLength(items, process, skip);
    if !enabled {
      PartitionNone(items, hit);
    }
  }

  /** The distinct elements of a list followed by the image of `xs`: each
      once, every element of the list and every image, and nothing else. */
  lemma DistinctImageCover<T, U>(fixed: seq<U>, xs: seq<T>, f: T -> U)
    ensures var outputs := Distinct(fixed + Image(xs, f));
      && NoDuplicates(outputs)
      && (forall o :: o in fixed ==> o in outputs)
      && (forall k :: 0 <= k < |xs| ==> f(xs[k]) in outputs)
      && (forall o :: o in outputs ==> o in fixed || exists k :: 0 <= k < |xs| && o == f(xs[k]))
  {
    var images := Image(xs, f);
    var all := fixed + images;
    DistinctMembers(all);
    forall k | 0 <= k < |xs| ensures f(xs[k]) in all {
      assert all[|fixed| + k] == images[k];
    }
    forall o | o in all && o !in fixed ensures exists k :: 0 <= k < |xs| && o == f(xs[k]) {
      var i :| 0 <= i < |all| && all[i] == o;
      assert o == images[i - |fixed|];
    }
  }

  /** The estimated photo outputs for a list of processed files, each
      once: the four fixed paths, `selected_dir / name` of every file, and
      nothing else. */
  lemma PhotoOutputsCover(paths: PhotoOutputPaths, process: seq<string>)
    ensures var outputs := Distinct(PhotoOutputs(paths, process));
      var fixed := [paths.scoresDir, paths.manifestPath, paths.dbPath, paths.selectedDir];
      && NoDuplicates(outputs)
      && (forall o :: o in fixed ==> o in outputs)
      && (forall k :: 0 <= k < |process| ==> Join(paths.selectedDir, Name(process[k])) in outputs)
      && (forall o :: o in outputs ==>
            o in fixed || exists k :: 0 <= k < |process| && o == Join(paths.selectedDir, Name(process[k])))
  {
    var fixed := [paths.scoresDir, paths.manifestPath, paths.dbPath, paths.selectedDir];
    DistinctImageCover(fixed, process, SelectedTarget(paths.selectedDir));
  }

  // ---------------------------------------------------------------------------
  // _build_video_plan

  /** The preset that leaves out the root digest. */
  const ClipsOnly: string := "clips_only"

  /** The outputs listed for one source with stem `stem`, in the order
      they are appended. */
  function SourceKinds(stem: string, preset: Option<string>, concat: bool): seq<VideoOutput>
  {
    [ClipFiles(stem)]
    + (if preset != Some(ClipsOnly) then [RootDigest(stem), RootList(stem)] else [])
    + (if concat then [FolderDigest(stem), FolderList(stem)] else [])
  }

  /** The outputs listed for the collected `videos`: the four fixed ones,
      then those of each source in turn. */
  function VideoKinds(videos: seq<string>, preset: Option<string>, concat: bool): seq<VideoOutput>
    decreases |videos|
  {
    if videos == [] then [ScoresDir, ManifestFile, DigestClipsDir, TempDir]
    else
      VideoKinds(videos[..|videos| - 1], preset, concat)
      + SourceKinds(Stem(videos[|videos| - 1]), preset, concat)
  }

  /** The path of an output below `outputDir`. */
  function PathIn(outputDir: string): VideoOutput -> string
  {
    o => OutputPath(outputDir, o)
  }

  /** The paths listed for one source with stem `stem`, built from the
      layout functions in the order they are appended. */
  function SourceOutputs(paths: VideoOutputPaths, stem: string, preset: Option<string>, concat: bool): seq<string>
  {
    [Join(DigestClipsSourceDir(paths, stem), "clip_*.mp4")]
    + (if preset != Some(ClipsOnly) then [FinalDigestPath(paths, stem), ConcatListPath(paths, stem + "_root")] else [])
    + (if concat then [Join(DigestClipsSourceDir(paths, stem), "digest.mp4"), ConcatListPath(paths, stem + "_folder")] else [])
  }

  /** The paths listed for the collected `videos`. */
  function VideoOutputs(paths: VideoOutputPaths, videos: seq<string>, preset: Option<string>, concat: bool): seq<string>
    decreases |videos|
  {
    if videos == [] then [paths.scoresDir, paths.manifestPath, paths.digestClipsDir, paths.tempDir]
    else
      VideoOutputs(paths, videos[..|videos| - 1], preset, concat)
      + SourceOutputs(paths, Stem(videos[|videos| - 1]), preset, concat)
  }

  /** The video plan over the collected `videos`. */
  function VideoPlanOf(videos: seq<string>, outputDir: string, preset: Option<string>, concat: bool): Plan
  {
    VideoPlan(preset, concat, videos, [], Distinct(VideoOutputs(GetVideoPaths(outputDir), videos, preset, concat)))
  }

  /** The loop body of `_build_video_plan` for one source: its clip
      pattern, then the root digest and list unless the preset is
      `clips_only`, then the folder digest and list when asked for. */
  method AppendSourceOutputs(outputs: seq<string>, paths: VideoOutputPaths, stem: string,
                             preset: Option<string>, concat: bool) returns (r: seq<string>)
    ensures r == outputs + SourceOutputs(paths, stem, preset, concat)
  {
    r := outputs + [Join(DigestClipsSourceDir(paths, stem), "clip_*.mp4")];
    if preset != Some(ClipsOnly) {
      r := r + [FinalDigestPath(paths, stem)];
      r := r + [ConcatListPath(paths, stem + "_root")];
    }
    if concat {
      r := r + [Join(DigestClipsSourceDir(paths, stem), "digest.mp4")];
      r := r + [ConcatListPath(paths, stem + "_folder")];
    }
  }

  /** `_build_video_plan` over the collected `videos`. */
  method BuildVideoPlan(videos: seq<string>, outputDir: string, preset: Option<string>, concat: bool)
    returns (plan: Plan)
    ensures plan == VideoPlanOf(videos, outputDir, preset, concat)
  {
    var paths := GetVideoPaths(outputDir);
    var filesToProcess := videos;
    var filesToSkip: seq<string> := [];
    var outputs := [paths.scoresDir, paths.manifestPath, paths.digestClipsDir, paths.tempDir];
    for i := 0 to |videos|
      invariant outputs == VideoOutputs(paths, videos[..i], preset, concat)
    {
      assert videos[..i + 1][..i] == videos[..i];
      outputs := AppendSourceOutputs(outputs, paths, Stem(videos[i]), preset, concat);
    }
    assert videos[..|videos|] == videos;
    var deduped := Dedupe(outputs);
    plan := VideoPlan(preset, concat, filesToProcess, filesToSkip, deduped);
  }

  /** Mapping one source's kinds maps each of them in turn. */
  lemma SourceKindsImage<U>(stem: string, preset: Option<string>, concat: bool, f: VideoOutput -> U)
    ensures Image(SourceKinds(stem, preset, concat), f)
      == [f(ClipFiles(stem))]
      + (if preset != Some(ClipsOnly) then [f(RootDigest(stem)), f(RootList(stem))] else [])
      + (if concat then [f(FolderDigest(stem)), f(FolderList(stem))] else [])
  {
    var root := if preset != Some(ClipsOnly) then [RootDigest(stem), RootList(stem)] else [];
    var folder := if concat then [FolderDigest(stem), FolderList(stem)] else [];
    ImageAppend([ClipFiles(stem)], root, f);
    ImageAppend([ClipFiles(stem)] + root, folder, f);
  }

  /** One source's paths are the paths of its output kinds. */
  lemma SourceOutputsKinds(outputDir: string, stem: string, preset: Option<string>, concat: bool)
    ensures SourceOutputs(GetVideoPaths(outputDir), stem, preset, concat)
      == Image(SourceKinds(stem, preset, concat), PathIn(outputDir))
  {
    SourceKindsImage(stem, preset, concat, PathIn(outputDir));
    SourceOutputPaths(outputDir, stem);
  }

  /** The listed paths are the paths of the listed kinds. */
  lemma {:induction false} VideoOutputsKinds(outputDir: string, videos: seq<string>, preset: Option<string>, concat: bool)
    ensures VideoOutputs(GetVideoPaths(outputDir), videos, preset, concat)
      == Image(VideoKinds(videos, preset, concat), PathIn(outputDir))
    decreases |videos|
  {
    if videos == [] {
      FixedOutputPaths(outputDir);
    } else {
      var init := videos[..|videos| - 1];
      var stem := Stem(videos[|videos| - 1]);
      VideoOutputsKinds(outputDir, init, preset, concat);
      SourceOutputsKinds(outputDir, stem, preset, concat);
      ImageAppend(VideoKinds(init, preset, concat), SourceKinds(stem, preset, concat), PathIn(outputDir));
    }
  }

  /** The kinds one source lists. */
  lemma SourceKindsMembers(stem: string, preset: Option<string>, concat: bool, o: VideoOutput)
    ensures o in SourceKinds(stem, preset, concat) <==>
      || o == ClipFiles(stem)
      || (preset != Some(ClipsOnly) && (o == RootDigest(stem) || o == RootList(stem)))
      || (concat && (o == FolderDigest(stem) || o == FolderList(stem)))
  {
  }

  /** Every listed kind has a separator-free stem, lists root outputs only
      without `clips_only` and folder outputs only with `concat`. */
  lemma {:induction false} VideoKindsSound(videos: seq<string>, preset: Option<string>, concat: bool)
    ensures forall o :: o in VideoKinds(videos, preset, concat) ==>
      && StemFree(o)
      && (o.RootDigest? || o.RootList? ==> preset != Some(ClipsOnly))
      && (o.FolderDigest? || o.FolderList? ==> concat)
    decreases |videos|
  {
    if videos != [] {
      var init := videos[..|videos| - 1];
      var stem := Stem(videos[|videos| - 1]);
      VideoKindsSound(init, preset, concat);
      forall o | o in SourceKinds(stem, preset, concat)
        ensures && StemFree(o)
                && (o.RootDigest? || o.RootList? ==> preset != Some(ClipsOnly))
                && (o.FolderDigest? || o.FolderList? ==> concat)
      {
        SourceKindsMembers(stem, preset, concat, o);
      }
    }
  }

  /** `kinds` lists the clip pattern of `stem`, its root outputs unless
      `clips_only`, and its folder outputs when `concat`. */
  predicate HasKinds(kinds: seq<VideoOutput>, stem: string, preset: Option<string>, concat: bool)
  {
    && ClipFiles(stem) in kinds
    && (preset != Some(ClipsOnly) ==> RootDigest(stem) in kinds && RootList(stem) in kinds)
    && (concat ==> FolderDigest(stem) in kinds && FolderList(stem) in kinds)
  }

  /** The outputs listed for one collected file. */
  function KindsOf(preset: Option<string>, concat: bool): string -> seq<VideoOutput>
  {
    video => SourceKinds(Stem(video), preset, concat)
  }

  /** The outputs listed for the collected files: the four fixed ones, then
      those of each file. */
  lemma {:induction false} VideoKindsConcat(videos: seq<string>, preset: Option<string>, concat: bool)
    ensures VideoKinds(videos, preset, concat)
      == ConcatMap([ScoresDir, ManifestFile, DigestClipsDir, TempDir], videos, KindsOf(preset, concat))
    decreases |videos|
  {
    if videos != [] {
      VideoKindsConcat(videos[..|videos| - 1], preset, concat);
    }
  }

  /** The outputs of each collected file are all listed. */
  lemma SourceKindsListed(videos: seq<string>, preset: Option<string>, concat: bool, k: int)
    requires 0 <= k < |videos|
    ensures forall o :: o in SourceKinds(Stem(videos[k]), preset, concat) ==> o in VideoKinds(videos, preset, concat)
  {
    VideoKindsConcat(videos, preset, concat);
    ConcatMapListed([ScoresDir, ManifestFile, DigestClipsDir, TempDir], videos, KindsOf(preset, concat), k);
  }

  /** Each collected file gets its clip pattern, its root outputs unless
      `clips_only`, and its folder outputs when `concat`. */
  lemma VideoKindsComplete(videos: seq<string>, preset: Option<string>, concat: bool, k: int)
    requires 0 <= k < |videos|
    ensures HasKinds(VideoKinds(videos, preset, concat), Stem(videos[k]), preset, concat)
  {
    var stem := Stem(videos[k]);
    SourceKindsListed(videos, preset, concat, k);
    SourceKindsMembers(stem, preset, concat, ClipFiles(stem));
    SourceKindsMembers(stem, preset, concat, RootDigest(stem));
    SourceKindsMembers(stem, preset, concat, RootList(stem));
    SourceKindsMembers(stem, preset, concat, FolderDigest(stem));
    SourceKindsMembers(stem, preset, concat, FolderList(stem));
  }

  /** With separator-free stems, an output's path is listed exactly when
      the output is. */
  lemma KindPathListed(outputDir: string, kinds: seq<VideoOutput>, o: VideoOutput)
    requires forall x :: x in kinds ==> StemFree(x)
    requires StemFree(o)
    ensures OutputPath(outputDir, o) in Image(kinds, PathIn(outputDir)) <==> o in kinds
  {
    var f := PathIn(outputDir);
    ImageMembers(kinds, f);
    if OutputPath(outputDir, o) in Image(kinds, f) {
      var x :| x in kinds && OutputPath(outputDir, o) == f(x);
      OutputPathInjective(outputDir, o, x);
    }
  }

  /** Where the video plan's path list comes from: it lists each path
      once, the kinds' paths and nothing else. */
  lemma VideoPlanListed(videos: seq<string>, outputDir: string, preset: Option<string>, concat: bool, o: VideoOutput)
    requires StemFree(o)
    ensures var plan := VideoPlanOf(videos, outputDir, preset, concat);
      && NoDuplicates(plan.estimatedOutputPaths)
      && (OutputPath(outputDir, o) in plan.estimatedOutputPaths <==> o in VideoKinds(videos, preset, concat))
  {
    var kinds := VideoKinds(videos, preset, concat);
    VideoOutputsKinds(outputDir, videos, preset, concat);
    DistinctMembers(Image(kinds, PathIn(outputDir)));
    VideoKindsSound(videos, preset, concat);
    KindPathListed(outputDir, kinds, o);
  }

  /** The video plan processes every collected file and skips none; it
      lists each path once; for every file it lists the clip pattern, the
      root digest and root list exactly when the preset is not
      `clips_only`, and the folder digest and folder list exactly when
      `concat_in_digest_folder` is set. */
  lemma VideoPlanOutputs(videos: seq<string>, outputDir: string, preset: Option<string>, concat: bool, k: int)
    requires 0 <= k < |videos|
    ensures var plan := VideoPlanOf(videos, outputDir, preset, concat);
      var paths, stem, outputs := GetVideoPaths(outputDir), Stem(videos[k]), plan.estimatedOutputPaths;
      && plan.filesToProcess == videos && plan.filesToSkip == []
      && NoDuplicates(outputs)
      && Join(DigestClipsSourceDir(paths, stem), "clip_*.mp4") in outputs
      && (FinalDigestPath(paths, stem) in outputs <==> preset != Some(ClipsOnly))
      && (ConcatListPath(paths, stem + "_root") in outputs <==> preset != Some(ClipsOnly))
      && (Join(DigestClipsSourceDir(paths, stem), "digest.mp4") in outputs <==> concat)
      && (ConcatListPath(paths, stem + "_folder") in outputs <==> concat)
  {
    var stem := Stem(videos[k]);
    var kinds := VideoKinds(videos, preset, concat);
    SourceOutputPaths(outputDir, stem);
    VideoKindsSound(videos, preset, concat);
    VideoKindsComplete(videos, preset, concat, k);
    VideoPlanListed(videos, outputDir, preset, concat, ClipFiles(stem));
    VideoPlanListed(videos, outputDir, preset, concat, RootDigest(stem));
    VideoPlanListed(videos, outputDir, preset, concat, RootList(stem));
    VideoPlanListed(videos, outputDir, preset, concat, FolderDigest(stem));
    VideoPlanListed(videos, outputDir, preset, concat, FolderList(stem));
  }

  // ---------------------------------------------------------------------------
  // build_execution_plan

  /** `build_execution_plan(plan_type, ...)`: the photo plan over the
      collected `images`, the video plan over the collected `videos`, or
      `ValueError` for any other plan type. */
  method BuildExecutionPlan(planType: string, images: seq<string>, videos: seq<string>, outputDir: string,
                            resume: bool, force: bool, preset: Option<string>, concat: bool,
                            hashOf: string -> nat, rows: map<string, Row>)
    returns (r: Result<Plan, string>)
    ensures planType == "photo" ==> r == Success(PhotoPlanOf(images, outputDir, resume, force, hashOf, rows))
    ensures planType == "video" ==> r == Success(VideoPlanOf(videos, outputDir, preset, concat))
    ensures planType != "photo" && planType != "video" ==> r == Failure("Unknown plan type: " + planType)
  {
    if planType == "photo" {
      var plan := BuildPhotoPlan(images, outputDir, resume, force, hashOf, rows);
      return Success(plan);
    }
    if planType == "video" {
      var plan := BuildVideoPlan(videos, outputDir, preset, concat);
      return Success(plan);
    }
    return Failure("Unknown plan type: " + planType);
  }

  /** `build_execution_plan` as written: the photo branch goes through
      `_build_photo_plan` as written, so it raises exactly when resuming is
      enabled, and any plan type but "photo" and "video" raises. */
  function ExecutionPlanAsWritten(planType: string, images: seq<string>, videos: seq<string>, outputDir: string,
                                  resume: bool, force: bool, preset: Option<string>, concat: bool,
                                  hashOf: string -> nat, rows: map<string, Row>): (r: Result<Plan, string>)
    ensures r.Failure? <==> (planType == "photo" && ResumeEnabled(resume, force))
                            || (planType != "photo" && planType != "video")
    ensures planType == "photo" && r.Success? ==> r.value == PhotoPlanOf(images, outputDir, resume, force, hashOf, rows)
    ensures planType == "video" ==> r == Success(VideoPlanOf(videos, outputDir, preset, concat))
  {
    if planType == "photo" then PhotoPlanAsWritten(images, outputDir, resume, force, hashOf, rows)
    else if planType == "video" then Success(VideoPlanOf(videos, outputDir, preset, concat))
    else Failure("Unknown plan type: " + planType)
  }
}
