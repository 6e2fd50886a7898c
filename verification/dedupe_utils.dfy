/** Perceptual fingerprints: parsing a stored fingerprint into an integer,
    the Hamming distance between two fingerprints, and the near-duplicate
    test. Fingerprints are Python integers, so they are unbounded and may be
    negative; the 64-bit facts are stated for the values the average hash
    produces. */
module DedupeUtils {
  import opened Wrappers
  import opened PyValues
  import opened Numerals
  import opened Bits

  /** `a ^ b` on Python integers, which behave as infinite two's-complement
      bit strings: for negative `a`, `~a == -a - 1` is non-negative and
      `a ^ b == ~(~a ^ b)`. */
  function IntXor(a: int, b: int): int
  {
    if a >= 0 && b >= 0 then Xor(a, b)
    else if a < 0 && b < 0 then Xor(-a - 1, -b - 1)
    else if a < 0 then -(Xor(-a - 1, b) as int) - 1
    else -(Xor(a, -b - 1) as int) - 1
  }

  /** `x.bit_count()`: the number of one bits of `abs(x)`. */
  function BitCount(x: int): nat
  {
    PopCount(if x < 0 then -x else x)
  }

  /** `hash_to_int`: an int (a bool is one in Python) is returned as it is,
      a string is parsed as hexadecimal, anything else gives `None`. */
  function HashToInt(v: Value): (r: Option<int>)
    ensures v.Int? ==> r == Some(v.i)
    ensures v.Bool? ==> r == Some(if v.b then 1 else 0)
    ensures v.Str? ==> r == ParseHexInt(v.s)
    ensures !(v.Int? || v.Bool? || v.Str?) ==> r == None
  {
    match v
    case Int(i) => Some(i)
    case Bool(b) => Some(if b then 1 else 0)
    case Str(s) => ParseHexInt(s)
    case _ => None
  }

  /** A fingerprint stored as `f"{h:016x}"` reads back as `h`. */
  lemma HashTextRoundTrip(h: nat)
    ensures HashToInt(Str(FormatHex16(h))) == Some(h)
  {
    FormatHex16RoundTrip(h);
  }

  /** `hamming_distance`: the number of bits in which the two differ. */
  function HammingDistance(a: int, b: int): nat
  {
    BitCount(IntXor(a, b))
  }

  /** `IntXor` is zero exactly for equal operands. */
  lemma IntXorZero(a: int, b: int)
    ensures IntXor(a, b) == 0 <==> a == b
  {
    if a >= 0 && b >= 0 {
      if IntXor(a, b) == 0 { XorZeroOnlyIfEqual(a, b); }
      if a == b { XorSelf(a); }
    } else if a < 0 && b < 0 {
      if IntXor(a, b) == 0 { XorZeroOnlyIfEqual(-a - 1, -b - 1); }
      if a == b { XorSelf(-a - 1); }
    }
  }

  /** The distance is zero exactly between equal fingerprints. */
  lemma DistanceZeroIff(a: int, b: int)
    ensures HammingDistance(a, b) == 0 <==> a == b
  {
    IntXorZero(a, b);
    var x := IntXor(a, b);
    PopCountZero(if x < 0 then -x else x);
  }

  lemma DistanceToSelf(a: int)
    ensures HammingDistance(a, a) == 0
  {
    DistanceZeroIff(a, a);
  }

  lemma DistanceSymmetric(a: int, b: int)
    ensures HammingDistance(a, b) == HammingDistance(b, a)
  {
    if a >= 0 && b >= 0 {
      XorCommutes(a, b);
    } else if a < 0 && b < 0 {
      XorCommutes(-a - 1, -b - 1);
    } else if a < 0 {
      XorCommutes(-a - 1, b);
    } else {
      XorCommutes(a, -b - 1);
    }
  }

  /** Two 64-bit fingerprints differ in at most 64 bits. */
  lemma DistanceAtMost64(a: int, b: int)
    requires 0 <= a < Pow2(64) && 0 <= b < Pow2(64)
    ensures HammingDistance(a, b) <= 64
  {
    XorBound(a, b, 64);
    PopCountBound(Xor(a, b), 64);
  }

  /** The distance between non-negative fingerprints is a metric: it obeys
      the triangle inequality. */
  lemma DistanceTriangle(a: int, b: int, c: int)
    requires a >= 0 && b >= 0 && c >= 0
    ensures HammingDistance(a, c) <= HammingDistance(a, b) + HammingDistance(b, c)
  {
    XorTriangle(a, b, c);
  }

  /** `is_near_duplicate(candidate, selected, threshold)`: the loop returns
      on the first fingerprint within `threshold`. */
  function IsNearDuplicate(candidate: int, selected: seq<int>, threshold: int): (r: bool)
    ensures r <==> exists i :: 0 <= i < |selected| && HammingDistance(candidate, selected[i]) <= threshold
  {
    if selected == [] then false
    else if HammingDistance(candidate, selected[0]) <= threshold then true
    else
      var rest := IsNearDuplicate(candidate, selected[1..], threshold);
      assert forall i :: 1 <= i < |selected| ==> selected[i] == selected[1..][i - 1];
      rest
  }

  /** Raising the threshold can only turn a "no" into a "yes". */
  lemma NearDuplicateMonotone(candidate: int, selected: seq<int>, t1: int, t2: int)
    requires t1 <= t2 && IsNearDuplicate(candidate, selected, t1)
    ensures IsNearDuplicate(candidate, selected, t2)
  {
  }

  /** A fingerprint already selected is a near duplicate of itself. */
  lemma NearDuplicateOfItself(candidate: int, selected: seq<int>, threshold: int)
    requires candidate in selected && threshold >= 0
    ensures IsNearDuplicate(candidate, selected, threshold)
  {
    var i :| 0 <= i < |selected| && selected[i] == candidate;
    DistanceToSelf(candidate);
  }

  /** The selector's own threshold, `DEFAULT_NEAR_DUPLICATE_THRESHOLD`. */
  const NearDuplicateThreshold: int := 8

  /** The threshold of the selector's `_is_similar`, `DEFAULT_HAMMING_THRESHOLD`. */
  const SimilarThreshold: int := 12

  /** `_is_similar(candidate, selected)` in selector.py: the same early-exit
      loop with the threshold fixed at 12. */
  function IsSimilar(candidate: int, selected: seq<int>): (r: bool)
    ensures r <==> exists i :: 0 <= i < |selected| && HammingDistance(candidate, selected[i]) <= 12
  {
    IsNearDuplicate(candidate, selected, SimilarThreshold)
  }

  /** The index of the first fingerprint within `threshold` of `h`, or
      `|hashes|` when there is none: where the selector's inner loop stops. */
  function FirstNear(h: int, hashes: seq<int>, threshold: int): (k: nat)
    ensures k <= |hashes|
    ensures k < |hashes| ==> HammingDistance(h, hashes[k]) <= threshold
    ensures forall j :: 0 <= j < k ==> HammingDistance(h, hashes[j]) > threshold
  {
    if hashes == [] then 0
    else if HammingDistance(h, hashes[0]) <= threshold then 0
    else
      var k := FirstNear(h, hashes[1..], threshold);
      assert forall j :: 1 <= j < |hashes| ==> hashes[j] == hashes[1..][j - 1];
      k + 1
  }

  /** A position before which every fingerprint is too far and at which
      one is near enough (or the end) is the first near position. */
  lemma {:induction false} FirstNearAt(h: int, hashes: seq<int>, threshold: int, k: nat)
    requires k <= |hashes|
    requires forall j :: 0 <= j < k ==> HammingDistance(h, hashes[j]) > threshold
    requires k < |hashes| ==> HammingDistance(h, hashes[k]) <= threshold
    ensures FirstNear(h, hashes, threshold) == k
  {
    if k > 0 {
      FirstNearAt(h, hashes[1..], threshold, k - 1);
    }
  }

  /** The first near fingerprint exists exactly when `h` is a near duplicate. */
  lemma FirstNearFound(h: int, hashes: seq<int>, threshold: int)
    ensures FirstNear(h, hashes, threshold) < |hashes| <==> IsNearDuplicate(h, hashes, threshold)
  {
  }
}
