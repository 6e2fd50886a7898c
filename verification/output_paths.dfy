/** Where the photo and video pipelines put their outputs: two fixed
    layouts under the output directory, plus per-source paths for the
    video digest. */
module OutputPaths {
  import opened PyPath

  /** `PhotoOutputPaths`. */
  datatype PhotoOutputPaths = PhotoOutputPaths(
    outputDir: string, selectedDir: string, scoresDir: string, manifestPath: string, dbPath: string)

  /** `VideoOutputPaths`. */
  datatype VideoOutputPaths = VideoOutputPaths(
    outputDir: string, scoresDir: string, tempDir: string, digestClipsDir: string, manifestPath: string)

  /** `get_photo_paths(output_dir)`. */
  function GetPhotoPaths(outputDir: string): PhotoOutputPaths
  {
    var scoresDir := Join(outputDir, "scores");
    PhotoOutputPaths(
      outputDir,
      Join(outputDir, "selected"),
      scoresDir,
      Join(scoresDir, "manifest.photos.json"),
      Join(scoresDir, "photo_scores.sqlite"))
  }

  /** `get_video_paths(output_dir)`. */
  function GetVideoPaths(outputDir: string): VideoOutputPaths
  {
    var scoresDir := Join(outputDir, "scores");
    VideoOutputPaths(
      outputDir,
      scoresDir,
      Join(outputDir, "temp"),
      Join(outputDir, "digest_clips"),
      Join(scoresDir, "manifest.videos.json"))
  }

  /** `digest_clips_source_dir(paths, source_stem)`. */
  function DigestClipsSourceDir(paths: VideoOutputPaths, sourceStem: string): string
  {
    Join(paths.digestClipsDir, sourceStem)
  }

  /** `final_digest_path(paths, source_stem)`. */
  function FinalDigestPath(paths: VideoOutputPaths, sourceStem: string): string
  {
    Join(paths.outputDir, sourceStem + "_digest.mp4")
  }

  /** `concat_list_path(paths, listName)`. */
  function ConcatListPath(paths: VideoOutputPaths, listName: string): string
  {
    Join(Join(paths.tempDir, "concat"), listName + ".txt")
  }

  /** `path` is the entry `name` directly inside `dir`. */
  predicate ChildNamed(path: string, dir: string, name: string)
  {
    Under(path, dir) && path[|dir| + 1..] == name
  }

  /** `dir / name` is the entry `name` of `dir`. */
  lemma JoinChild(dir: string, name: string)
    requires name != []
    ensures ChildNamed(Join(dir, name), dir, name)
  {
    JoinUnder(dir, name);
  }

  /** The photo layout: `selected` and `scores` directly inside the output
      directory, `manifest.photos.json` and `photo_scores.sqlite` directly
      inside `scores`, so every path lies inside the output directory. */
  lemma PhotoLayout(outputDir: string)
    ensures var p := GetPhotoPaths(outputDir);
      && p.outputDir == outputDir
      && ChildNamed(p.selectedDir, outputDir, "selected") && ChildNamed(p.scoresDir, outputDir, "scores")
      && ChildNamed(p.manifestPath, p.scoresDir, "manifest.photos.json")
      && ChildNamed(p.dbPath, p.scoresDir, "photo_scores.sqlite")
      && Under(p.manifestPath, outputDir) && Under(p.dbPath, outputDir)
  {
    var p := GetPhotoPaths(outputDir);
    JoinChild(outputDir, "selected");
    JoinChild(outputDir, "scores");
    JoinChild(p.scoresDir, "manifest.photos.json");
    JoinChild(p.scoresDir, "photo_scores.sqlite");
    UnderTransitive(p.manifestPath, p.scoresDir, outputDir);
    UnderTransitive(p.dbPath, p.scoresDir, outputDir);
  }

  /** The video layout: `scores`, `temp` and `digest_clips` directly inside
      the output directory, `manifest.videos.json` directly inside `scores`. */
  lemma VideoLayout(outputDir: string)
    ensures var p := GetVideoPaths(outputDir);
      && p.outputDir == outputDir
      && ChildNamed(p.scoresDir, outputDir, "scores") && ChildNamed(p.tempDir, outputDir, "temp")
      && ChildNamed(p.digestClipsDir, outputDir, "digest_clips")
      && ChildNamed(p.manifestPath, p.scoresDir, "manifest.videos.json")
      && Under(p.manifestPath, outputDir)
  {
    var p := GetVideoPaths(outputDir);
    JoinChild(outputDir, "scores");
    JoinChild(outputDir, "temp");
    JoinChild(outputDir, "digest_clips");
    JoinChild(p.scoresDir, "manifest.videos.json");
    UnderTransitive(p.manifestPath, p.scoresDir, outputDir);
  }

  /** The per-source paths of the video digest lie inside the output
      directory: the clip folder `<stem>` inside `digest_clips`, the list
      file `<name>.txt` inside `temp/concat`, and `<stem>_digest.mp4`
      directly in the output directory. */
  lemma SourcePathsUnder(outputDir: string, stem: string, listName: string)
    requires stem != []
    ensures var p := GetVideoPaths(outputDir);
      && ChildNamed(DigestClipsSourceDir(p, stem), p.digestClipsDir, stem)
      && Under(DigestClipsSourceDir(p, stem), outputDir)
      && ChildNamed(FinalDigestPath(p, stem), outputDir, stem + "_digest.mp4")
      && ChildNamed(ConcatListPath(p, listName), Join(p.tempDir, "concat"), listName + ".txt")
      && Under(ConcatListPath(p, listName), outputDir)
  {
    var p := GetVideoPaths(outputDir);
    VideoLayout(outputDir);
    JoinChild(p.digestClipsDir, stem);
    UnderTransitive(DigestClipsSourceDir(p, stem), p.digestClipsDir, outputDir);
    JoinChild(outputDir, stem + "_digest.mp4");
    var concat := Join(p.tempDir, "concat");
    JoinUnder(p.tempDir, "concat");
    JoinChild(concat, listName + ".txt");
    UnderTransitive(concat, p.tempDir, outputDir);
    UnderTransitive(ConcatListPath(p, listName), concat, outputDir);
  }

  /** `a / b` determines `b`. */
  lemma JoinCancels(a: string, b1: string, b2: string)
    ensures Join(a, b1) == Join(a, b2) ==> b1 == b2
  {
    assert Join(a, b1)[|a| + 1..] == b1 && Join(a, b2)[|a| + 1..] == b2;
  }

  /** Appending the same text keeps different stems different. */
  lemma AppendCancels(s1: string, s2: string, t: string)
    ensures s1 + t == s2 + t ==> s1 == s2
  {
    assert (s1 + t)[..|s1|] == s1 && (s2 + t)[..|s2|] == s2;
  }

  /** Different sources get different clip folders and different digests. */
  lemma SourcePathsInjective(paths: VideoOutputPaths, stem1: string, stem2: string)
    requires stem1 != stem2
    ensures DigestClipsSourceDir(paths, stem1) != DigestClipsSourceDir(paths, stem2)
    ensures FinalDigestPath(paths, stem1) != FinalDigestPath(paths, stem2)
  {
    JoinCancels(paths.digestClipsDir, stem1, stem2);
    JoinCancels(paths.outputDir, stem1 + "_digest.mp4", stem2 + "_digest.mp4");
    AppendCancels(stem1, stem2, "_digest.mp4");
  }

  /** The paths the video planner lists, by kind: the four fixed entries of
      the layout, and five per source stem. */
  datatype VideoOutput =
    | ScoresDir | ManifestFile | DigestClipsDir | TempDir
    | ClipFiles(stem: string) | RootDigest(stem: string) | RootList(stem: string)
    | FolderDigest(stem: string) | FolderList(stem: string)

  /** The components of an output below the output directory. */
  function Components(o: VideoOutput): seq<string>
  {
    match o
    case ScoresDir => ["scores"]
    case ManifestFile => ["scores", "manifest.videos.json"]
    case DigestClipsDir => ["digest_clips"]
    case TempDir => ["temp"]
    case ClipFiles(s) => ["digest_clips", s, "clip_*.mp4"]
    case RootDigest(s) => [s + "_digest.mp4"]
    case RootList(s) => ["temp", "concat", s + "_root" + ".txt"]
    case FolderDigest(s) => ["digest_clips", s, "digest.mp4"]
    case FolderList(s) => ["temp", "concat", s + "_folder" + ".txt"]
  }

  /** The stem of a per-source output holds no separator, as a stem never
      does. */
  predicate StemFree(o: VideoOutput)
  {
    !o.ScoresDir? && !o.ManifestFile? && !o.DigestClipsDir? && !o.TempDir? ==> '/' !in o.stem
  }

  /** The path of an output below `outputDir`. */
  function OutputPath(outputDir: string, o: VideoOutput): string
  {
    JoinAll(outputDir, Components(o))
  }

  /** The fixed kinds are the fixed paths of the layout. */
  lemma FixedOutputPaths(outputDir: string)
    ensures var paths := GetVideoPaths(outputDir);
      && OutputPath(outputDir, ScoresDir) == paths.scoresDir
      && OutputPath(outputDir, ManifestFile) == paths.manifestPath
      && OutputPath(outputDir, DigestClipsDir) == paths.digestClipsDir
      && OutputPath(outputDir, TempDir) == paths.tempDir
  {
    JoinAllShort(outputDir, "scores", "manifest.videos.json", "");
    JoinAllShort(outputDir, "digest_clips", "", "");
    JoinAllShort(outputDir, "temp", "", "");
  }

  /** The per-source kinds are the paths the planner builds from the
      layout functions. */
  lemma SourceOutputPaths(outputDir: string, stem: string)
    ensures var paths := GetVideoPaths(outputDir);
      && OutputPath(outputDir, ClipFiles(stem)) == Join(DigestClipsSourceDir(paths, stem), "clip_*.mp4")
      && OutputPath(outputDir, RootDigest(stem)) == FinalDigestPath(paths, stem)
      && OutputPath(outputDir, RootList(stem)) == ConcatListPath(paths, stem + "_root")
      && OutputPath(outputDir, FolderDigest(stem)) == Join(DigestClipsSourceDir(paths, stem), "digest.mp4")
      && OutputPath(outputDir, FolderList(stem)) == ConcatListPath(paths, stem + "_folder")
  {
    JoinAllShort(outputDir, "digest_clips", stem, "clip_*.mp4");
    JoinAllShort(outputDir, stem + "_digest.mp4", "", "");
    JoinAllShort(outputDir, "temp", "concat", stem + "_root" + ".txt");
    JoinAllShort(outputDir, "digest_clips", stem, "digest.mp4");
    JoinAllShort(outputDir, "temp", "concat", stem + "_folder" + ".txt");
  }

  /** No component of an output holds a separator. */
  lemma ComponentsFree(o: VideoOutput)
    requires StemFree(o)
    ensures forall i :: 0 <= i < |Components(o)| ==> '/' !in Components(o)[i]
  {
  }

  /** The outputs whose last component ends in a fixed text after the stem
      differ from every other output. */
  lemma SuffixedInjective(o1: VideoOutput, o2: VideoOutput)
    requires o1.RootDigest? || o1.RootList? || o1.FolderList?
    ensures Components(o1) == Components(o2) ==> o1 == o2
  {
    if Components(o1) == Components(o2) {
      var s1 := o1.stem;
      if o2.RootDigest? {
        AppendCancels(s1, o2.stem, "_digest.mp4");
      } else if o2.RootList? {
        AppendCancels(s1 + "_root", o2.stem + "_root", ".txt");
        AppendCancels(s1, o2.stem, "_root");
        if o1.FolderList? {
          ListsDiffer(o2.stem, s1);
        }
      } else if o2.FolderList? {
        AppendCancels(s1 + "_folder", o2.stem + "_folder", ".txt");
        AppendCancels(s1, o2.stem, "_folder");
        if o1.RootList? {
          ListsDiffer(s1, o2.stem);
        }
      } else if o1.RootDigest? {
        DigestNotDirectory(s1);
      }
    }
  }

  /** A root digest is never one of the fixed directories. */
  lemma DigestNotDirectory(stem: string)
    ensures stem + "_digest.mp4" !in ["scores", "digest_clips", "temp"]
  {
    var c := stem + "_digest.mp4";
    assert c[|c| - 1] == '4';
  }

  /** A root list and a folder list never share a path. */
  lemma ListsDiffer(s1: string, s2: string)
    ensures s1 + "_root" + ".txt" != s2 + "_folder" + ".txt"
  {
    AppendCancels(s1 + "_root", s2 + "_folder", ".txt");
    assert (s1 + "_root")[|s1|] == '_';
    assert (s2 + "_folder")[|s2| + 2] == 'o';
  }

  /** Different outputs have different components. */
  lemma ComponentsInjective(o1: VideoOutput, o2: VideoOutput)
    ensures Components(o1) == Components(o2) ==> o1 == o2
  {
    if o1.RootDigest? || o1.RootList? || o1.FolderList? {
      SuffixedInjective(o1, o2);
    } else if o2.RootDigest? || o2.RootList? || o2.FolderList? {
      SuffixedInjective(o2, o1);
    }
  }

  /** Different outputs with separator-free stems have different paths. */
  lemma OutputPathInjective(outputDir: string, o1: VideoOutput, o2: VideoOutput)
    requires StemFree(o1) && StemFree(o2)
    ensures OutputPath(outputDir, o1) == OutputPath(outputDir, o2) ==> o1 == o2
  {
    ComponentsFree(o1);
    ComponentsFree(o2);
    JoinAllInjective(outputDir, Components(o1), Components(o2));
    ComponentsInjective(o1, o2);
  }
}
