/** The per-photo measurements: quality flags from the image statistics,
    the score corrections they cause, the average-hash fingerprint, the
    orientation and the format an image is re-encoded in. Pixel work
    (grayscale, resize, edge filters, crops) is outside the model: its
    results are the inputs here. */
module Analyzer {
  import opened Wrappers
  import opened PyValues
  import opened PyText
  import opened PyPath
  import opened Bits
  import opened Seqs

  const HashSize: nat := 8
  const MinShortSide: int := 720
  const DarkPenalty: real := 0.2
  const LowResolutionPenalty: real := 0.2
  const BlurPenalty: real := 0.25
  const BlurStrongPenalty: real := 0.4
  const QualityPenaltyScale: real := 0.5
  const MinEdgeVariance: real := 140.0
  const MinCenterEdgeVariance: real := 220.0
  const MinLowerEdgeVariance: real := 180.0
  const MinStrongCenterVariance: real := 140.0

  // ---------------------------------------------------------------------------
  // analyze_quality

  /** What the image library measures for one photo. */
  datatype Metrics = Metrics(
    brightness: real,
    width: int,
    height: int,
    edgeVariance: real,
    centerVariance: real,
    lowerVariance: real)

  /** The dict `analyze_quality` returns, built from the measurements. */
  function AnalyzeQuality(m: Metrics): (q: map<string, Value>)
    ensures q.Keys == {"brightness", "resolution", "edge_variance", "center_edge_variance",
                       "lower_edge_variance", "dark", "overexposed", "blur", "blur_center",
                       "blur_lower", "blur_strong"}
    ensures q["dark"] == Bool(m.brightness < 50.0) && q["overexposed"] == Bool(m.brightness > 205.0)
    ensures q["blur_center"] == Bool(m.centerVariance < MinCenterEdgeVariance)
    ensures q["blur_strong"] == Bool(m.centerVariance < MinStrongCenterVariance)
    ensures q["brightness"] == Float(m.brightness)
  {
    map[
      "brightness" := Float(m.brightness),
      "resolution" := Float((m.width * m.height) as real),
      "edge_variance" := Float(m.edgeVariance),
      "center_edge_variance" := Float(m.centerVariance),
      "lower_edge_variance" := Float(m.lowerVariance),
      "dark" := Bool(m.brightness < 50.0),
      "overexposed" := Bool(m.brightness > 205.0),
      "blur" := Bool(m.edgeVariance < MinEdgeVariance),
      "blur_center" := Bool(m.centerVariance < MinCenterEdgeVariance),
      "blur_lower" := Bool(m.lowerVariance < MinLowerEdgeVariance),
      "blur_strong" := Bool(m.centerVariance < MinStrongCenterVariance)]
  }

  /** With the threshold constants, a strongly blurred centre is always a
      blurred centre, and no photo is both dark and overexposed. */
  lemma QualityFlagsConsistent(m: Metrics)
    ensures var q := AnalyzeQuality(m);
      && (q["blur_strong"].b ==> q["blur_center"].b)
      && !(q["dark"].b && q["overexposed"].b)
  {
  }

  // ---------------------------------------------------------------------------
  // apply_quality_corrections

  /** `bool(quality.get(key))`. */
  predicate Flag(quality: map<string, Value>, key: string)
  {
    Truthy(Get(quality, key))
  }

  /** A score above 1.0 is read as a percentage. */
  function Rescaled(score: real): real
  {
    if score > 1.0 then score / 100.0 else score
  }

  /** `apply_quality_corrections(score, quality, width, height)`. */
  function ApplyQualityCorrections(score: real, quality: map<string, Value>, width: int, height: int): (r: real)
    ensures 0.0 <= r <= 1.0
    ensures r <= Rescaled(score) || Rescaled(score) < 0.0
  {
    var s0 := Rescaled(score);
    var s1 := if Flag(quality, "dark") then s0 - DarkPenalty * QualityPenaltyScale else s0;
    var s2 := if Flag(quality, "blur_strong") then s1 - BlurStrongPenalty * QualityPenaltyScale else s1;
    var s3 := if Flag(quality, "blur_center") then s2 - BlurPenalty * QualityPenaltyScale else s2;
    var s4 := if Flag(quality, "blur_lower") then s3 - BlurPenalty * 0.6 * QualityPenaltyScale else s3;
    var shortSide := if width < height then width else height;
    var s5 := if shortSide < MinShortSide then s4 - LowResolutionPenalty * QualityPenaltyScale else s4;
    Clamp01(s5)
  }

  /** The total deduction: dark 0.1, strong blur 0.2, blurred centre 0.125,
      blurred lower part 0.075, and 0.1 when the short side is under 720. */
  function QualityPenalty(quality: map<string, Value>, width: int, height: int): real
  {
    (if Flag(quality, "dark") then 0.1 else 0.0)
    + (if Flag(quality, "blur_strong") then 0.2 else 0.0)
    + (if Flag(quality, "blur_center") then 0.125 else 0.0)
    + (if Flag(quality, "blur_lower") then 0.075 else 0.0)
    + (if (if width < height then width else height) < 720 then 0.1 else 0.0)
  }

  /** The corrected score is the rescaled score less the fixed deductions,
      clamped to [0, 1]. */
  lemma QualityCorrectionsDeduct(score: real, quality: map<string, Value>, width: int, height: int)
    ensures ApplyQualityCorrections(score, quality, width, height)
         == Clamp01(Rescaled(score) - QualityPenalty(quality, width, height))
  {
  }

  /** Each flag and the small-resolution check only lower the score: turning
      on more flags, or shrinking the short side below 720, never raises it. */
  lemma QualityCorrectionsMonotone(score: real, q1: map<string, Value>, q2: map<string, Value>,
                                   w1: int, h1: int, w2: int, h2: int)
    requires forall k :: k in {"dark", "blur_strong", "blur_center", "blur_lower"} && Flag(q1, k) ==> Flag(q2, k)
    requires (if w1 < h1 then w1 else h1) < 720 ==> (if w2 < h2 then w2 else h2) < 720
    ensures ApplyQualityCorrections(score, q2, w2, h2) <= ApplyQualityCorrections(score, q1, w1, h1)
  {
    QualityCorrectionsDeduct(score, q1, w1, h1);
    QualityCorrectionsDeduct(score, q2, w2, h2);
    assert Flag(q1, "dark") ==> Flag(q2, "dark");
    assert Flag(q1, "blur_strong") ==> Flag(q2, "blur_strong");
    assert Flag(q1, "blur_center") ==> Flag(q2, "blur_center");
    assert Flag(q1, "blur_lower") ==> Flag(q2, "blur_lower");
    Clamp01Monotone(Rescaled(score) - QualityPenalty(q2, w2, h2), Rescaled(score) - QualityPenalty(q1, w1, h1));
  }

  /** A clean, large photo keeps its score when the score is already in [0, 1]. */
  lemma QualityCorrectionsIdentity(score: real, quality: map<string, Value>, width: int, height: int)
    requires 0.0 <= score <= 1.0
    requires !Flag(quality, "dark") && !Flag(quality, "blur_strong")
    requires !Flag(quality, "blur_center") && !Flag(quality, "blur_lower")
    requires width >= 720 && height >= 720
    ensures ApplyQualityCorrections(score, quality, width, height) == score
  {
  }

  /** A score above 1.0 is divided by 100 before any deduction: 85 on a
      clean, large photo becomes 0.85. */
  lemma QualityCorrectionsPercent(score: real, quality: map<string, Value>, width: int, height: int)
    requires 1.0 < score <= 100.0
    requires !Flag(quality, "dark") && !Flag(quality, "blur_strong")
    requires !Flag(quality, "blur_center") && !Flag(quality, "blur_lower")
    requires width >= 720 && height >= 720
    ensures ApplyQualityCorrections(score, quality, width, height) == score / 100.0
  {
  }

  // ---------------------------------------------------------------------------
  // compute_image_hash

  /** `sum(pixels)`. */
  function PixelSum(pixels: seq<int>): int
  {
    if pixels == [] then 0 else PixelSum(pixels[..|pixels| - 1]) + pixels[|pixels| - 1]
  }

  /** `sum(pixels) / len(pixels)`. */
  function Mean(pixels: seq<int>): real
    requires pixels != []
  {
    PixelSum(pixels) as real / |pixels| as real
  }

  /** The fingerprint whose bit `i` is set exactly when `pixels[i] >= avg`. */
  function HashBits(pixels: seq<int>, avg: real): nat
  {
    if pixels == [] then 0
    else HashBits(pixels[..|pixels| - 1], avg) + (if pixels[|pixels| - 1] as real >= avg then Pow2(|pixels| - 1) else 0)
  }

  /** `compute_image_hash` on the resized grayscale pixels: `None` for an
      empty pixel list, where the division by `len(pixels)` raises. */
  method ComputeImageHash(pixels: seq<int>) returns (r: Option<nat>)
    ensures pixels == [] <==> r.None?
    ensures r.Some? ==> r.value == HashBits(pixels, Mean(pixels))
    ensures r.Some? ==> r.value < Pow2(|pixels|)
  {
    if pixels == [] {
      return None;
    }
    var avg := Mean(pixels);
    var hashValue: nat := 0;
    for idx := 0 to |pixels|
      invariant hashValue == HashBits(pixels[..idx], avg)
      invariant hashValue < Pow2(idx)
    {
      assert pixels[..idx + 1][..idx] == pixels[..idx];
      if pixels[idx] as real >= avg {
        OrFreshBit(hashValue, idx);
        hashValue := Or(hashValue, Pow2(idx));
      }
    }
    assert pixels[..|pixels|] == pixels;
    return Some(hashValue);
  }

  lemma {:induction false} HashBitsBound(pixels: seq<int>, avg: real)
    ensures HashBits(pixels, avg) < Pow2(|pixels|)
  {
    if pixels != [] {
      HashBitsBound(pixels[..|pixels| - 1], avg);
    }
  }

  /** Bit `i` of the fingerprint is set exactly when pixel `i` is at least
      the mean. */
  lemma {:induction false} HashBitsAt(pixels: seq<int>, avg: real, i: nat)
    requires i < |pixels|
    ensures BitSet(HashBits(pixels, avg), i) <==> pixels[i] as real >= avg
  {
    var n := |pixels| - 1;
    var init := pixels[..n];
    HashBitsBound(init, avg);
    if i < n {
      HashBitsAt(init, avg, i);
      BitUnaffected(HashBits(init, avg), n, i, pixels[n] as real >= avg);
    } else {
      BitOnTop(HashBits(init, avg), n, pixels[n] as real >= avg);
    }
  }

  /** Adding `2^k` to a number below `2^k` leaves bits below `k` alone. */
  lemma {:induction false} BitUnaffected(h: nat, k: nat, i: nat, add: bool)
    requires h < Pow2(k) && i < k
    ensures BitSet(h + (if add then Pow2(k) else 0), i) <==> BitSet(h, i)
  {
    var t := h + (if add then Pow2(k) else 0);
    assert Pow2(k) == 2 * Pow2(k - 1);
    if i > 0 {
      assert t / 2 == h / 2 + (if add then Pow2(k - 1) else 0);
      BitUnaffected(h / 2, k - 1, i - 1, add);
    }
  }

  /** Bit `k` of `h + 2^k` is set, and of `h` is clear, for `h` below `2^k`. */
  lemma {:induction false} BitOnTop(h: nat, k: nat, add: bool)
    requires h < Pow2(k)
    ensures BitSet(h + (if add then Pow2(k) else 0), k) <==> add
  {
    var t := h + (if add then Pow2(k) else 0);
    if k == 0 {
      assert h == 0;
    } else {
      assert Pow2(k) == 2 * Pow2(k - 1);
      assert t / 2 == h / 2 + (if add then Pow2(k - 1) else 0);
      BitOnTop(h / 2, k - 1, add);
    }
  }

  /** Some pixel is at least the mean of a non-empty list. */
  lemma {:induction false} SomeAtLeastMean(pixels: seq<int>)
    requires pixels != []
    ensures exists i :: 0 <= i < |pixels| && pixels[i] as real >= Mean(pixels)
  {
    var avg := Mean(pixels);
    assert avg * |pixels| as real == PixelSum(pixels) as real;
    if forall i :: 0 <= i < |pixels| ==> pixels[i] as real < avg {
      SumBelow(pixels, avg);
      assert false;
    }
  }

  lemma {:induction false} SumBelow(pixels: seq<int>, bound: real)
    requires pixels != [] && forall i :: 0 <= i < |pixels| ==> pixels[i] as real < bound
    ensures (PixelSum(pixels) as real) < bound * |pixels| as real
  {
    var n := |pixels| - 1;
    if n > 0 {
      SumBelow(pixels[..n], bound);
      assert bound * (n + 1) as real == bound * n as real + bound;
    }
  }

  /** A non-empty image sets at least one bit. */
  lemma HashNonZero(pixels: seq<int>)
    requires pixels != []
    ensures HashBits(pixels, Mean(pixels)) > 0
  {
    SomeAtLeastMean(pixels);
    var i :| 0 <= i < |pixels| && pixels[i] as real >= Mean(pixels);
    HashBitsAt(pixels, Mean(pixels), i);
    if HashBits(pixels, Mean(pixels)) == 0 {
      ZeroHasNoBits(i);
    }
  }

  lemma {:induction false} ZeroHasNoBits(i: nat)
    ensures !BitSet(0, i)
  {
    if i > 0 { ZeroHasNoBits(i - 1); }
  }

  /** An image of one uniform shade sets every bit. */
  lemma UniformHash(pixels: seq<int>, shade: int)
    requires pixels != [] && forall i :: 0 <= i < |pixels| ==> pixels[i] == shade
    ensures HashBits(pixels, Mean(pixels)) == Pow2(|pixels|) - 1
  {
    UniformSum(pixels, shade);
    QuotientOfMultiple(PixelSum(pixels), |pixels|, shade);
    AllAtLeast(pixels, shade as real);
  }

  /** `n * shade / n` is `shade`. */
  lemma QuotientOfMultiple(total: int, n: nat, shade: int)
    requires n > 0 && total == n * shade
    ensures total as real / n as real == shade as real
  {
    assert total as real == n as real * shade as real;
  }

  lemma {:induction false} UniformSum(pixels: seq<int>, shade: int)
    requires forall i :: 0 <= i < |pixels| ==> pixels[i] == shade
    ensures PixelSum(pixels) == |pixels| * shade
  {
    if pixels != [] {
      UniformSum(pixels[..|pixels| - 1], shade);
    }
  }

  lemma {:induction false} AllAtLeast(pixels: seq<int>, avg: real)
    requires forall i :: 0 <= i < |pixels| ==> pixels[i] as real >= avg
    ensures HashBits(pixels, avg) == Pow2(|pixels|) - 1
  {
    if pixels != [] {
      AllAtLeast(pixels[..|pixels| - 1], avg);
    }
  }

  /** The fingerprint of the 8 x 8 thumbnail fits in 64 bits. */
  lemma Hash64(pixels: seq<int>)
    requires |pixels| == HashSize * HashSize
    ensures HashBits(pixels, Mean(pixels)) < Pow2(64)
  {
    HashBitsBound(pixels, Mean(pixels));
  }

  // ---------------------------------------------------------------------------
  // _compute_orientation and _choose_output_format

  /** `_compute_orientation(width, height)`. */
  function ComputeOrientation(width: int, height: int): (r: string)
    ensures r == "square" <==> width == height
    ensures r == "landscape" <==> width > height
    ensures r == "portrait" <==> width < height
  {
    if width == height then "square"
    else if width > height then "landscape"
    else "portrait"
  }

  /** `_choose_output_format(path, image_format)`: HEIC files and anything
      but PNG are re-encoded as JPEG. */
  function ChooseOutputFormat(path: string, imageFormat: Option<string>): (r: string)
    ensures r == "JPEG" || r == "PNG"
    ensures r == "PNG" <==> Lower(Suffix(path)) != ".heic" && imageFormat.Some? && Upper(imageFormat.value) == "PNG"
  {
    if Lower(Suffix(path)) == ".heic" then "JPEG"
    else match imageFormat
      case None => "JPEG"
      case Some(f) =>
        var upper := Upper(f);
        if upper == "JPEG" || upper == "JPG" || upper == "PNG" then (if upper == "PNG" then "PNG" else "JPEG")
        else "JPEG"
  }
}
