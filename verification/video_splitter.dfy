/** Cutting a video into clips: which input files count as videos, the
    timeline that `split_video` lays over the segments ffmpeg wrote, and
    the reading of ffprobe's frame rate. */
module VideoSplitter {
  import opened Wrappers
  import opened PyText
  import opened PyPath
  import opened Numerals
  import opened Seqs

  // ---------------------------------------------------------------------------
  // collect_video_paths

  const VideoExtensions: set<string> := {".mp4", ".mov", ".mkv", ".avi", ".webm"}

  /** `path.suffix.lower() in VIDEO_EXTENSIONS`. */
  predicate IsVideoPath(path: string)
  {
    Lower(Suffix(path)) in VideoExtensions
  }

  /** One path yielded by `rglob("*")`, and whether it is a regular file. */
  datatype Entry = Entry(path: string, isFile: bool)

  /** The input of `collect_video_paths`: a single file, or a directory
      given by what walking it yields, in the walk's order. */
  datatype InputPath = FileInput(path: string) | DirectoryInput(entries: seq<Entry>)

  predicate IsVideoFile(e: Entry)
  {
    e.isFile && IsVideoPath(e.path)
  }

  function EntryPath(e: Entry): string
  {
    e.path
  }

  /** The paths `collect_video_paths` returns. */
  function VideoPaths(input: InputPath): seq<string>
  {
    match input
    case FileInput(p) => if IsVideoPath(p) then [p] else []
    case DirectoryInput(entries) => Image(Partition(entries, IsVideoFile).1, EntryPath)
  }

  /** `collect_video_paths(input_path)`. */
  method CollectVideoPaths(input: InputPath) returns (paths: seq<string>)
    ensures paths == VideoPaths(input)
  {
    if input.FileInput? {
      return if IsVideoPath(input.path) then [input.path] else [];
    }
    var entries := input.entries;
    paths := [];
    for i := 0 to |entries|
      invariant paths == Image(Partition(entries[..i], IsVideoFile).1, EntryPath)
    {
      KeptImageStep(entries, i, IsVideoFile, EntryPath);
      var entry := entries[i];
      if IsVideoFile(entry) {
        paths := paths + [entry.path];
      } else {
        assert paths + [] == paths;
      }
    }
    assert entries[..|entries|] == entries;
  }

  /** A single file is returned exactly when its suffix, in any case, is a
      video extension; from a directory exactly the regular files with such
      a suffix are returned. */
  lemma VideoPathsMembers(input: InputPath, p: string)
    ensures input.FileInput? ==> (VideoPaths(input) == [input.path] <==> IsVideoPath(input.path))
    ensures input.FileInput? ==> (VideoPaths(input) == [] <==> !IsVideoPath(input.path))
    ensures input.DirectoryInput? ==>
      (p in VideoPaths(input) <==> exists e :: e in input.entries && e.isFile && IsVideoPath(e.path) && e.path == p)
  {
    if input.DirectoryInput? {
      PartitionSplits(input.entries, IsVideoFile);
      ImageMembers(Partition(input.entries, IsVideoFile).1, EntryPath);
    }
  }

  /** `dir/stem.ext` is a video exactly when the extension, lower-cased, is
      a video extension: ".MOV" counts like ".mov". */
  lemma VideoSuffixAnyCase(dir: string, stem: string, ext: string)
    requires stem != [] && '/' !in stem && '.' !in stem
    requires |ext| >= 2 && ext[0] == '.' && '/' !in ext && '.' !in ext[1..]
    ensures IsVideoPath(Join(dir, stem + ext)) <==> Lower(ext) in VideoExtensions
  {
    SuffixOfJoin(dir, stem, ext);
  }

  // ---------------------------------------------------------------------------
  // sorted(output_dir.glob("clip_*.mp4"))

  /** Python's ordering of strings: code point by code point, a proper
      prefix first. */
  predicate LexLe(a: string, b: string)
    decreases |a|
  {
    a == [] || (b != [] && (a[0] < b[0] || (a[0] == b[0] && LexLe(a[1..], b[1..]))))
  }

  lemma {:induction false} LexTotal(a: string, b: string)
    ensures LexLe(a, b) || LexLe(b, a)
    decreases |a|
  {
    if a != [] && b != [] && a[0] == b[0] {
      LexTotal(a[1..], b[1..]);
    }
  }

  lemma {:induction false} LexTransitive(a: string, b: string, c: string)
    requires LexLe(a, b) && LexLe(b, c)
    ensures LexLe(a, c)
    decreases |a|
  {
    if a != [] && a[0] == b[0] && b[0] == c[0] {
      LexTransitive(a[1..], b[1..], c[1..]);
    }
  }

  predicate PathsSorted(s: seq<string>)
  {
    forall i, j :: 0 <= i < j < |s| ==> LexLe(s[i], s[j])
  }

  /** `x` placed before the first path it does not follow. */
  function InsertPath(x: string, s: seq<string>): (r: seq<string>)
    ensures multiset(r) == multiset(s) + multiset{x}
  {
    if s == [] || LexLe(x, s[0]) then [x] + s
    else
      assert s == [s[0]] + s[1..];
      [s[0]] + InsertPath(x, s[1..])
  }

  /** `sorted(paths)`. */
  function SortPaths(s: seq<string>): (r: seq<string>)
    ensures multiset(r) == multiset(s)
  {
    if s == [] then []
    else
      assert s == [s[0]] + s[1..];
      InsertPath(s[0], SortPaths(s[1..]))
  }

  lemma {:induction false} InsertPathSorted(x: string, s: seq<string>)
    requires PathsSorted(s)
    ensures PathsSorted(InsertPath(x, s))
  {
    if s == [] || LexLe(x, s[0]) {
      var r := [x] + s;
      forall i, j | 0 <= i < j < |r| ensures LexLe(r[i], r[j]) {
        if i == 0 && j > 1 {
          LexTransitive(x, s[0], s[j - 1]);
        }
      }
    } else {
      LexTotal(x, s[0]);
      InsertPathSorted(x, s[1..]);
      var t := InsertPath(x, s[1..]);
      var r := [s[0]] + t;
      forall j | 0 <= j < |t| ensures LexLe(s[0], t[j]) {
        assert t[j] in multiset(t);
        if t[j] != x {
          assert t[j] in multiset(s[1..]);
          var k :| 0 <= k < |s[1..]| && s[1..][k] == t[j];
          assert s[k + 1] == t[j];
        }
      }
      forall i, j | 0 <= i < j < |r| ensures LexLe(r[i], r[j]) {
        if i > 0 {
          assert r[i] == t[i - 1] && r[j] == t[j - 1];
        } else {
          assert r[j] == t[j - 1];
        }
      }
    }
  }

  /** `sorted` returns its input in order. */
  lemma {:induction false} SortPathsSorted(s: seq<string>)
    ensures PathsSorted(SortPaths(s))
  {
    if s != [] {
      SortPathsSorted(s[1..]);
      InsertPathSorted(s[0], SortPaths(s[1..]));
    }
  }

  // ---------------------------------------------------------------------------
  // split_video

  /** What ffprobe reports for one clip file. */
  datatype VideoMetadata = VideoMetadata(duration: real, width: int, height: int, fps: real)

  /** `ClipInfo`. */
  datatype ClipInfo = ClipInfo(sourcePath: string, clipPath: string, start: real, end: real,
                               duration: real, width: int, height: int, fps: real)

  /** Where the next kept clip starts: the end of the last one, or 0. */
  function EndOf(clips: seq<ClipInfo>): real
  {
    if clips == [] then 0.0 else clips[|clips| - 1].end
  }

  /** One pass of the loop over the clip file `clipPath` whose probe gave
      `metadata`, after the clips `before`: the probe's error ends the
      loop, a clip shorter than `min_clip` is skipped, and any other is
      appended, starting where the last one ended. */
  function Extend(before: Result<seq<ClipInfo>, string>, path: string, clipPath: string,
                  metadata: Result<VideoMetadata, string>, minClip: int): Result<seq<ClipInfo>, string>
  {
    match before
    case Failure(e) => Failure(e)
    case Success(clips) =>
      match metadata
      case Failure(e) => Failure(e)
      case Success(m) =>
        if m.duration < minClip as real then Success(clips)
        else
          var start := EndOf(clips);
          Success(clips + [ClipInfo(path, clipPath, start, start + m.duration, m.duration, m.width, m.height, m.fps)])
  }

  /** The clips the loop has built after the clip files `clipPaths`, in
      order; `probe` is `get_video_metadata`, whose failure ends the loop
      with its error. */
  function Timeline(path: string, clipPaths: seq<string>, probe: string -> Result<VideoMetadata, string>,
                    minClip: int): Result<seq<ClipInfo>, string>
    decreases |clipPaths|
  {
    if clipPaths == [] then Success([])
    else
      var clipPath := clipPaths[|clipPaths| - 1];
      Extend(Timeline(path, clipPaths[..|clipPaths| - 1], probe, minClip), path, clipPath, probe(clipPath), minClip)
  }

  /** The run over one more clip file is one more pass of the loop. */
  lemma TimelineStep(path: string, clipPaths: seq<string>, i: nat,
                     probe: string -> Result<VideoMetadata, string>, minClip: int)
    requires i < |clipPaths|
    ensures Timeline(path, clipPaths[..i + 1], probe, minClip)
      == Extend(Timeline(path, clipPaths[..i], probe, minClip), path, clipPaths[i], probe(clipPaths[i]), minClip)
  {
    assert clipPaths[..i + 1][..i] == clipPaths[..i];
  }

  /** What `split_video(path, output_dir, min_clip, max_clip)` returns.
      `segmented` is what the ffmpeg segmenting step leaves: the files
      matching `clip_*.mp4` in `output_dir`, or the error it raised. */
  function SplitVideoResult(path: string, minClip: int, segmented: Result<seq<string>, string>,
                            probe: string -> Result<VideoMetadata, string>): Result<seq<ClipInfo>, string>
  {
    match segmented
    case Failure(e) => Failure(e)
    case Success(listing) => Timeline(path, SortPaths(listing), probe, minClip)
  }

  /** Once a probe has failed, the later files change nothing. */
  lemma {:induction false} TimelineFailureSticks(path: string, clipPaths: seq<string>, k: nat,
                                                probe: string -> Result<VideoMetadata, string>, minClip: int)
    requires k <= |clipPaths| && Timeline(path, clipPaths[..k], probe, minClip).Failure?
    ensures Timeline(path, clipPaths, probe, minClip) == Timeline(path, clipPaths[..k], probe, minClip)
    decreases |clipPaths| - k
  {
    if k < |clipPaths| {
      assert clipPaths[..k + 1][..k] == clipPaths[..k];
      TimelineFailureSticks(path, clipPaths, k + 1, probe, minClip);
    } else {
      assert clipPaths[..k] == clipPaths;
    }
  }

  /** `split_video`: the sorted listing of the segments, then the loop. */
  method SplitVideo(path: string, minClip: int, segmented: Result<seq<string>, string>,
                    probe: string -> Result<VideoMetadata, string>) returns (r: Result<seq<ClipInfo>, string>)
    ensures r == SplitVideoResult(path, minClip, segmented, probe)
  {
    if segmented.Failure? {
      return Failure(segmented.error);
    }
    var clipPaths := SortPaths(segmented.value);
    r := LayTimeline(path, clipPaths, probe, minClip);
  }

  /** The loop of `split_video` over the sorted clip files, with its
      running `start`. */
  method LayTimeline(path: string, clipPaths: seq<string>, probe: string -> Result<VideoMetadata, string>,
                     minClip: int) returns (r: Result<seq<ClipInfo>, string>)
    ensures r == Timeline(path, clipPaths, probe, minClip)
  {
    var clips: seq<ClipInfo> := [];
    var start := 0.0;
    for i := 0 to |clipPaths|
      invariant Timeline(path, clipPaths[..i], probe, minClip) == Success(clips)
      invariant start == EndOf(clips)
    {
      TimelineStep(path, clipPaths, i, probe, minClip);
      var clipPath := clipPaths[i];
      var metadata := probe(clipPath);
      if metadata.Failure? {
        TimelineFailureSticks(path, clipPaths, i + 1, probe, minClip);
        return Failure(metadata.error);
      }
      var m := metadata.value;
      if m.duration < minClip as real {
        continue;
      }
      var end := start + m.duration;
      clips := clips + [ClipInfo(path, clipPath, start, end, m.duration, m.width, m.height, m.fps)];
      start := end;
    }
    assert clipPaths[..|clipPaths|] == clipPaths;
    r := Success(clips);
  }

  function ClipPathOf(c: ClipInfo): string
  {
    c.clipPath
  }

  function DurationOf(c: ClipInfo): real
  {
    c.duration
  }

  /** A clip file is kept when its probe succeeds and it is not shorter
      than `min_clip`. */
  function Long(probe: string -> Result<VideoMetadata, string>, minClip: int): string -> bool
  {
    p => probe(p).Success? && probe(p).value.duration >= minClip as real
  }

  /** The clips of a successful run lie end to end from time 0: each one
      ends its duration after it starts and the next starts where it ends,
      so skipped files leave no gap. Every clip belongs to the input video
      and is at least `min_clip` long. */
  lemma {:induction false} TimelineContiguous(path: string, clipPaths: seq<string>,
                                             probe: string -> Result<VideoMetadata, string>, minClip: int)
    requires Timeline(path, clipPaths, probe, minClip).Success?
    ensures var clips := Timeline(path, clipPaths, probe, minClip).value;
      && (clips != [] ==> clips[0].start == 0.0)
      && (forall k :: 0 <= k < |clips| ==> clips[k].end == clips[k].start + clips[k].duration)
      && (forall k :: 0 < k < |clips| ==> clips[k].start == clips[k - 1].end)
      && (forall k :: 0 <= k < |clips| ==> clips[k].sourcePath == path && clips[k].duration >= minClip as real)
    decreases |clipPaths|
  {
    if clipPaths != [] {
      TimelineContiguous(path, clipPaths[..|clipPaths| - 1], probe, minClip);
    }
  }

  /** The last clip of a successful run ends at the sum of the kept
      durations. */
  lemma {:induction false} TimelineEnd(path: string, clipPaths: seq<string>,
                                      probe: string -> Result<VideoMetadata, string>, minClip: int)
    requires Timeline(path, clipPaths, probe, minClip).Success?
    ensures var clips := Timeline(path, clipPaths, probe, minClip).value;
      EndOf(clips) == Sum(Image(clips, DurationOf))
    decreases |clipPaths|
  {
    if clipPaths != [] {
      var init := clipPaths[..|clipPaths| - 1];
      TimelineEnd(path, init, probe, minClip);
      var before := Timeline(path, init, probe, minClip).value;
      var clips := Timeline(path, clipPaths, probe, minClip).value;
      if clips != before {
        var last := clips[|clips| - 1];
        assert clips == before + [last];
        ImageSnoc(before, last, DurationOf);
        var durations := Image(clips, DurationOf);
        assert durations[..|before|] == Image(before, DurationOf);
        assert EndOf(clips) == EndOf(before) + last.duration;
      }
    }
  }

  /** A run succeeds exactly when every probe does; then the clips are the
      long clip files, in the order given. */
  lemma {:induction false} TimelineKeepsLong(path: string, clipPaths: seq<string>,
                                            probe: string -> Result<VideoMetadata, string>, minClip: int)
    ensures Timeline(path, clipPaths, probe, minClip).Success?
        <==> forall k :: 0 <= k < |clipPaths| ==> probe(clipPaths[k]).Success?
    ensures Timeline(path, clipPaths, probe, minClip).Success? ==>
      Image(Timeline(path, clipPaths, probe, minClip).value, ClipPathOf) == Partition(clipPaths, Long(probe, minClip)).1
    decreases |clipPaths|
  {
    if clipPaths != [] {
      var init := clipPaths[..|clipPaths| - 1];
      TimelineKeepsLong(path, init, probe, minClip);
      assert forall k :: 0 <= k < |init| ==> init[k] == clipPaths[k];
      var t := Timeline(path, init, probe, minClip);
      if t.Success? {
        var last := clipPaths[|clipPaths| - 1];
        if probe(last).Success? && probe(last).value.duration >= minClip as real {
          var clips := Timeline(path, clipPaths, probe, minClip).value;
          ImageSnoc(t.value, clips[|clips| - 1], ClipPathOf);
        }
      }
    }
  }

  /** The kept part of a sorted listing is sorted. */
  lemma {:induction false} PartitionKeepsSorted(s: seq<string>, p: string -> bool)
    requires PathsSorted(s)
    ensures PathsSorted(Partition(s, p).1)
    decreases |s|
  {
    if s != [] {
      var init, x := s[..|s| - 1], s[|s| - 1];
      PartitionKeepsSorted(init, p);
      if p(x) {
        var kept := Partition(init, p).1;
        PartitionSplits(init, p);
        forall i | 0 <= i < |kept| ensures LexLe(kept[i], x) {
          assert kept[i] in init;
          var k :| 0 <= k < |init| && init[k] == kept[i];
          assert s[k] == kept[i];
        }
      }
    }
  }

  /** The clips of a successful split follow the sorted order of their
      file names. */
  lemma SplitVideoSorted(path: string, minClip: int, segmented: Result<seq<string>, string>,
                         probe: string -> Result<VideoMetadata, string>)
    requires SplitVideoResult(path, minClip, segmented, probe).Success?
    ensures PathsSorted(Image(SplitVideoResult(path, minClip, segmented, probe).value, ClipPathOf))
  {
    var clipPaths := SortPaths(segmented.value);
    SortPathsSorted(segmented.value);
    TimelineKeepsLong(path, clipPaths, probe, minClip);
    PartitionKeepsSorted(clipPaths, Long(probe, minClip));
  }

  // ---------------------------------------------------------------------------
  // _parse_fps

  /** `_parse_fps(value)`: a fraction `n/d` or a plain number, and 0.0 for
      `None`, "", "0/0", a zero denominator or text `float` rejects. */
  function ParseFps(value: Option<string>): (r: real)
    ensures value.None? || value == Some("") || value == Some("0/0") ==> r == 0.0
  {
    if value.None? || value.value == "" || value.value == "0/0" then 0.0
    else
      var text := value.value;
      var slash := Find(text, '/');
      if slash >= 0 then Quotient(ParseFloat(text[..slash]), ParseFloat(text[slash + 1..]))
      else ParseFloat(text).GetOr(0.0)
  }

  /** `float(numerator) / float(denominator)`, and 0.0 where either call
      raises ValueError or the division raises ZeroDivisionError. */
  function Quotient(n: Option<real>, d: Option<real>): real
  {
    if n.Some? && d.Some? && d.value != 0.0 then n.value / d.value else 0.0
  }

  /** Two numbers that were read are divided, unless the divisor is zero. */
  lemma QuotientOfSome(n: Option<real>, d: Option<real>, x: real, y: real)
    requires n == Some(x) && d == Some(y)
    ensures Quotient(n, d) == if y == 0.0 then 0.0 else x / y
  {
  }

  /** Text with a '/' is read as the quotient of the parts around its first
      '/'. */
  lemma FpsFraction(num: string, den: string)
    requires '/' !in num && num + "/" + den != "0/0"
    ensures ParseFps(Some(num + "/" + den)) == Quotient(ParseFloat(num), ParseFloat(den))
  {
    var text := num + "/" + den;
    FindMiddle(num, '/', den);
    assert text == num + ['/'] + den;
    assert text[..|num|] == num && text[|num| + 1..] == den;
  }

  /** A nonzero rate was read from the text: either both halves of the
      fraction at its first '/' parse, the denominator is not zero and the
      rate is their quotient, or there is no '/' and the whole text parses
      to the rate. */
  lemma FpsNonzeroParsed(value: Option<string>)
    requires ParseFps(value) != 0.0
    ensures value.Some?
    ensures var text := value.value; var slash := Find(text, '/');
      slash >= 0 ==>
        && ParseFloat(text[..slash]).Some? && ParseFloat(text[slash + 1..]).Some?
        && ParseFloat(text[slash + 1..]).value != 0.0
        && ParseFps(value) == ParseFloat(text[..slash]).value / ParseFloat(text[slash + 1..]).value
    ensures var text := value.value;
      Find(text, '/') < 0 ==> ParseFloat(text) == Some(ParseFps(value))
  {
    var text := value.value;
    var slash := Find(text, '/');
    if slash >= 0 {
      QuotientNonzero(ParseFloat(text[..slash]), ParseFloat(text[slash + 1..]));
    }
  }

  /** A nonzero quotient comes from two numbers that were read, over a
      nonzero divisor. */
  lemma QuotientNonzero(n: Option<real>, d: Option<real>)
    requires Quotient(n, d) != 0.0
    ensures n.Some? && d.Some? && d.value != 0.0 && Quotient(n, d) == n.value / d.value
  {
  }

  /** The only way to spell "0/0" with a '/'-free numerator is 0 over 0. */
  lemma ZeroOverZero(n: string, d: string)
    requires '/' !in n
    ensures n + "/" + d == "0/0" ==> n == "0" && d == "0"
  {
    var text := n + "/" + d;
    if text == "0/0" {
      FindMiddle(n, '/', d);
      FindMiddle("0", '/', "0");
      assert text == n + ['/'] + d;
      assert |n| == 1;
      assert n == text[..1] && d == text[2..];
    }
  }

  /** Decimal digits hold no '/'. */
  lemma NumeralHasNoSlash(n: string)
    requires IsDecNumeral(n)
    ensures '/' !in n
  {
    assert forall i :: 0 <= i < |n| ==> IsDecDigit(n[i]);
  }

  /** A fraction of two decimal numerals other than "0/0" is read as the
      quotient of the integers they spell, or 0.0 for a zero denominator. */
  lemma FpsNumeralQuotient(n: string, d: string)
    requires IsDecNumeral(n) && IsDecNumeral(d) && n + "/" + d != "0/0"
    ensures AllDigits(n, 10) && AllDigits(d, 10)
    ensures ParseFps(Some(n + "/" + d)) ==
      if DigitsValue(d, 10) == 0 then 0.0 else DigitsValue(n, 10) as real / DigitsValue(d, 10) as real
  {
    NumeralHasNoSlash(n);
    FpsFraction(n, d);
    ParsePlainDecimal(n);
    ParsePlainDecimal(d);
    QuotientOfSome(ParseFloat(n), ParseFloat(d), DigitsValue(n, 10) as real, DigitsValue(d, 10) as real);
  }

  /** "0" spells zero. */
  lemma ZeroNumeral()
    ensures AllDigits("0", 10) && DigitsValue("0", 10) == 0
  {
    ParsePlainDecimal("0");
  }

  /** A fraction of two decimal numerals, as ffprobe writes "30000/1001",
      is read as their quotient, or 0.0 when the denominator is zero. */
  lemma FpsRatio(n: string, d: string)
    requires IsDecNumeral(n) && IsDecNumeral(d)
    ensures AllDigits(n, 10) && AllDigits(d, 10)
    ensures ParseFps(Some(n + "/" + d)) ==
      if DigitsValue(d, 10) == 0 then 0.0 else DigitsValue(n, 10) as real / DigitsValue(d, 10) as real
  {
    if n + "/" + d == "0/0" {
      NumeralHasNoSlash(n);
      ZeroOverZero(n, d);
      ZeroNumeral();
    } else {
      FpsNumeralQuotient(n, d);
    }
  }
}
