/** `select_top_photos`: keep the photos that have a usable score, walk them
    from best to worst, put each fingerprinted photo into the cluster of the
    first representative within Hamming distance 8 (or start a new cluster),
    and return the best photo of every cluster together with every photo
    whose fingerprint could not be read, best first, cut to the target. */
module Selector {
  import opened Wrappers
  import opened PyValues
  import opened Seqs
  import opened DedupeUtils

  /** A per-photo record as the command line builds it: a dict with `path`,
      `hash`, `analysis`, `quality`, `error` and more. */
  type Photo = map<string, Value>

  /** `_has_valid_score`: no truthy `error`, and `analysis` is a dict whose
      `score` is a number. */
  predicate Eligible(p: Photo)
  {
    && !Truthy(Get(p, "error"))
    && Get(p, "analysis").Dict?
    && IsNumber(Get(Get(p, "analysis").entries, "score"))
  }

  /** `item["analysis"]["score"]`, the sort key; only read for eligible photos. */
  function Score(p: Photo): real
  {
    if Eligible(p) then AsReal(Get(Get(p, "analysis").entries, "score")) else 0.0
  }

  /** `_hash_to_int(photo.get("hash"))`. */
  function HashOf(p: Photo): Option<int>
  {
    HashToInt(Get(p, "hash"))
  }

  /** The three lists the loop builds: the clusters, each cluster's
      representative fingerprint, and the photos without a fingerprint. */
  datatype Clustering = Clustering(clusters: seq<seq<Photo>>, hashes: seq<int>, ungrouped: seq<Photo>)
  {
    predicate WellFormed()
    {
      && |clusters| == |hashes|
      && (forall i :: 0 <= i < |clusters| ==> clusters[i] != [])
      && (forall i :: 0 <= i < |clusters| ==> HashOf(clusters[i][0]) == Some(hashes[i]))
    }
  }

  /** One turn of the outer loop. */
  function Step(c: Clustering, p: Photo): (r: Clustering)
    requires c.WellFormed()
    ensures r.WellFormed()
  {
    match HashOf(p)
    case None => c.(ungrouped := c.ungrouped + [p])
    case Some(h) =>
      var k := FirstNear(h, c.hashes, NearDuplicateThreshold);
      if k < |c.hashes| then c.(clusters := c.clusters[k := c.clusters[k] + [p]])
      else Clustering(c.clusters + [[p]], c.hashes + [h], c.ungrouped)
  }

  /** The lists after the loop has seen `items`, in order. */
  function Cluster(items: seq<Photo>): (r: Clustering)
    ensures r.WellFormed()
  {
    if items == [] then Clustering([], [], [])
    else Step(Cluster(items[..|items| - 1]), items[|items| - 1])
  }

  /** `[cluster[0] for cluster in clusters if cluster]`. */
  function Heads<T>(clusters: seq<seq<T>>): (r: seq<T>)
    ensures |r| <= |clusters|
  {
    if clusters == [] then []
    else (if clusters[0] != [] then [clusters[0][0]] else []) + Heads(clusters[1..])
  }

  /** `cluster_best` before it is sorted: representatives, then photos
      without a fingerprint. */
  function Candidates(photos: seq<Photo>): seq<Photo>
  {
    Representatives(Cluster(SortDesc(Filter(photos, Eligible), Score)))
  }

  /** The first photo of every cluster, then the photos without a fingerprint. */
  function Representatives(c: Clustering): seq<Photo>
  {
    Heads(c.clusters) + c.ungrouped
  }

  /** What `select_top_photos(photos, target_count)` returns. */
  function Selection(photos: seq<Photo>, targetCount: int): seq<Photo>
  {
    TakeTop(SortDesc(Candidates(photos), Score), targetCount)
  }

  /** `select_top_photos`: filter, sort, cluster, then sort and cut the
      representatives. */
  method SelectTopPhotos(photos: seq<Photo>, targetCount: int) returns (r: seq<Photo>)
    ensures r == Selection(photos, targetCount)
    ensures EligibleFrom(r, photos)
    ensures IsSortedDesc(r, Score)
  {
    var eligible := Filter(photos, Eligible);
    var ordered := SortDesc(eligible, Score);
    var clusters, clusterHashes, ungrouped := ClusterOrdered(ordered);
    var clusterBest := Heads(clusters);
    clusterBest := clusterBest + ungrouped;
    clusterBest := SortDesc(clusterBest, Score);
    SelectionEligible(photos, targetCount);
    SelectionSorted(photos, targetCount);
    if targetCount >= |clusterBest| {
      return clusterBest;
    }
    r := PySliceTo(clusterBest, targetCount);
  }

  /** The clustering loop of `select_top_photos` over the photos, best
      first: each fingerprinted photo joins the first cluster whose
      representative is within the threshold, or starts a new one. */
  method ClusterOrdered(ordered: seq<Photo>) returns (clusters: seq<seq<Photo>>, clusterHashes: seq<int>, ungrouped: seq<Photo>)
    ensures Clustering(clusters, clusterHashes, ungrouped) == Cluster(ordered)
  {
    clusters, clusterHashes, ungrouped := [], [], [];
    for i := 0 to |ordered|
      invariant Clustering(clusters, clusterHashes, ungrouped) == Cluster(ordered[..i])
    {
      var photo := ordered[i];
      ClusterPrefix(ordered, i);
      ghost var before := Clustering(clusters, clusterHashes, ungrouped);
      var photoHash := HashOf(photo);
      if photoHash.None? {
        ungrouped := ungrouped + [photo];
        continue;
      }
      var isAssigned := false;
      var idx := 0;
      while idx < |clusterHashes|
        invariant 0 <= idx <= |clusterHashes|
        invariant forall j :: 0 <= j < idx ==> HammingDistance(photoHash.value, clusterHashes[j]) > NearDuplicateThreshold
        invariant !isAssigned && clusters == before.clusters
      {
        if HammingDistance(photoHash.value, clusterHashes[idx]) <= NearDuplicateThreshold {
          FirstNearAt(photoHash.value, clusterHashes, NearDuplicateThreshold, idx);
          clusters := clusters[idx := clusters[idx] + [photo]];
          isAssigned := true;
          break;
        }
        idx := idx + 1;
      }
      if !isAssigned {
        FirstNearAt(photoHash.value, clusterHashes, NearDuplicateThreshold, idx);
        clusters := clusters + [[photo]];
        clusterHashes := clusterHashes + [photoHash.value];
      }
    }
    assert ordered[..|ordered|] == ordered;
  }

  /** One more photo is one more turn of the loop. */
  lemma ClusterPrefix(items: seq<Photo>, i: nat)
    requires i < |items|
    ensures Cluster(items[..i + 1]) == Step(Cluster(items[..i]), items[i])
  {
    assert items[..i + 1][..i] == items[..i];
  }

  // ---------------------------------------------------------------------------
  // What the clustering keeps

  /** Everything the lists hold came from the input. */
  predicate FromItems(c: Clustering, items: seq<Photo>)
  {
    && (forall i, j :: 0 <= i < |c.clusters| && 0 <= j < |c.clusters[i]| ==> c.clusters[i][j] in items)
    && (forall j :: 0 <= j < |c.ungrouped| ==> c.ungrouped[j] in items)
  }

  /** A turn of the loop only adds its own photo. */
  lemma StepFromItems(c: Clustering, p: Photo, items: seq<Photo>)
    requires c.WellFormed() && FromItems(c, items) && p in items
    ensures FromItems(Step(c, p), items)
  {
  }

  /** What came from a prefix came from the whole list. */
  lemma FromPrefix(c: Clustering, items: seq<Photo>, n: nat)
    requires n <= |items| && FromItems(c, items[..n])
    ensures FromItems(c, items)
  {
    assert forall x :: x in items[..n] ==> x in items;
  }

  lemma {:induction false} ClusterFromItems(items: seq<Photo>)
    ensures FromItems(Cluster(items), items)
  {
    if items != [] {
      var n := |items| - 1;
      ClusterFromItems(items[..n]);
      FromPrefix(Cluster(items[..n]), items, n);
      StepFromItems(Cluster(items[..n]), items[n], items);
    }
  }

  /** Representatives are pairwise more than 8 bits apart. */
  predicate Separated(hashes: seq<int>)
  {
    forall i, j :: 0 <= i < j < |hashes| ==> HammingDistance(hashes[i], hashes[j]) > NearDuplicateThreshold
  }

  lemma {:induction false} ClusterSeparated(items: seq<Photo>)
    ensures Separated(Cluster(items).hashes)
  {
    if items != [] {
      var c := Cluster(items[..|items| - 1]);
      ClusterSeparated(items[..|items| - 1]);
      var p := items[|items| - 1];
      if HashOf(p).Some? {
        var h := HashOf(p).value;
        var k := FirstNear(h, c.hashes, NearDuplicateThreshold);
        if k == |c.hashes| {
          var hs := c.hashes + [h];
          forall i, j | 0 <= i < j < |hs|
            ensures HammingDistance(hs[i], hs[j]) > NearDuplicateThreshold
          {
            if j == |c.hashes| { DistanceSymmetric(h, hs[i]); }
          }
        }
      }
    }
  }

  /** Every later member of a cluster is within distance 8 of the
      representative's fingerprint, and, because the loop walks the photos
      best first, scores no higher than the representative. */
  predicate MembersNear(c: Clustering)
    requires c.WellFormed()
  {
    forall i, j :: 0 <= i < |c.clusters| && 0 < j < |c.clusters[i]| ==>
      && HashOf(c.clusters[i][j]).Some?
      && HammingDistance(HashOf(c.clusters[i][j]).value, c.hashes[i]) <= NearDuplicateThreshold
      && Score(c.clusters[i][j]) <= Score(c.clusters[i][0])
  }

  /** A turn of the loop keeps `MembersNear` when the new photo scores no
      higher than any representative so far. */
  lemma StepMembersNear(c: Clustering, p: Photo)
    requires c.WellFormed() && MembersNear(c)
    requires forall i :: 0 <= i < |c.clusters| ==> Score(p) <= Score(c.clusters[i][0])
    ensures MembersNear(Step(c, p))
  {
    if HashOf(p).Some? {
      var h := HashOf(p).value;
      var k := FirstNear(h, c.hashes, NearDuplicateThreshold);
      var r := Step(c, p);
      if k < |c.hashes| {
        assert r.clusters == c.clusters[k := c.clusters[k] + [p]];
        forall i, j | 0 <= i < |r.clusters| && 0 < j < |r.clusters[i]|
          ensures && HashOf(r.clusters[i][j]).Some?
                  && HammingDistance(HashOf(r.clusters[i][j]).value, r.hashes[i]) <= NearDuplicateThreshold
                  && Score(r.clusters[i][j]) <= Score(r.clusters[i][0])
        {
          if i == k && j == |c.clusters[k]| {
            assert r.clusters[i][j] == p;
          } else {
            assert r.clusters[i][j] == c.clusters[i][j];
          }
        }
      } else {
        assert r.clusters == c.clusters + [[p]];
      }
    }
  }

  lemma {:induction false} ClusterMembersNear(items: seq<Photo>)
    requires IsSortedDesc(items, Score)
    ensures MembersNear(Cluster(items))
  {
    if items != [] {
      var init := items[..|items| - 1];
      var p := items[|items| - 1];
      var c := Cluster(init);
      ClusterMembersNear(init);
      ClusterFromItems(init);
      forall i | 0 <= i < |c.clusters| ensures Score(p) <= Score(c.clusters[i][0]) {
        var head := c.clusters[i][0];
        assert head in init;
        var m :| 0 <= m < |init| && init[m] == head;
        assert items[m] == head;
      }
      StepMembersNear(c, p);
    }
  }

  /** No photo is lost: the clusters and the unhashed list together hold
      exactly the photos the loop saw. */
  function Flatten<T>(clusters: seq<seq<T>>): multiset<T>
  {
    if clusters == [] then multiset{} else Flatten(clusters[..|clusters| - 1]) + multiset(clusters[|clusters| - 1])
  }

  lemma {:induction false} FlattenUpdate<T>(clusters: seq<seq<T>>, k: nat, p: T)
    requires k < |clusters|
    ensures Flatten(clusters[k := clusters[k] + [p]]) == Flatten(clusters) + multiset{p}
    decreases |clusters|
  {
    var updated := clusters[k := clusters[k] + [p]];
    var n := |clusters| - 1;
    assert Flatten(updated) == Flatten(updated[..n]) + multiset(updated[n]);
    assert Flatten(clusters) == Flatten(clusters[..n]) + multiset(clusters[n]);
    if k == n {
      assert updated[..n] == clusters[..n];
      assert multiset(updated[n]) == multiset(clusters[n]) + multiset{p};
    } else {
      assert updated[..n] == clusters[..n][k := clusters[k] + [p]];
      assert updated[n] == clusters[n];
      FlattenUpdate(clusters[..n], k, p);
    }
  }

  /** Starting a new cluster adds its one photo to what the clusters hold. */
  lemma FlattenNew<T>(clusters: seq<seq<T>>, p: T)
    ensures Flatten(clusters + [[p]]) == Flatten(clusters) + multiset{p}
  {
    assert (clusters + [[p]])[..|clusters|] == clusters;
  }

  /** What the lists hold, all together. */
  function Held(c: Clustering): multiset<Photo>
  {
    Flatten(c.clusters) + multiset(c.ungrouped)
  }

  /** A turn of the loop puts its photo in exactly one place. */
  lemma StepKeepsAll(c: Clustering, p: Photo)
    requires c.WellFormed()
    ensures Held(Step(c, p)) == Held(c) + multiset{p}
  {
    if HashOf(p).None? {
      StepUnhashedKeepsAll(c, p);
    } else {
      var h := HashOf(p).value;
      var k := FirstNear(h, c.hashes, NearDuplicateThreshold);
      if k < |c.hashes| {
        StepJoinKeepsAll(c, p, h, k);
      } else {
        StepNewKeepsAll(c, p, h);
      }
    }
  }

  /** A photo without a fingerprint goes to the end of the unhashed list. */
  lemma StepUnhashedKeepsAll(c: Clustering, p: Photo)
    requires c.WellFormed() && HashOf(p).None?
    ensures Held(Step(c, p)) == Held(c) + multiset{p}
  {
    assert multiset(c.ungrouped + [p]) == multiset(c.ungrouped) + multiset{p};
  }

  /** A photo near the `k`-th representative joins its cluster. */
  lemma StepJoinKeepsAll(c: Clustering, p: Photo, h: int, k: nat)
    requires c.WellFormed() && HashOf(p) == Some(h)
    requires k == FirstNear(h, c.hashes, NearDuplicateThreshold) && k < |c.hashes|
    ensures Held(Step(c, p)) == Held(c) + multiset{p}
  {
    FlattenUpdate(c.clusters, k, p);
  }

  /** A photo near no representative starts a cluster of its own. */
  lemma StepNewKeepsAll(c: Clustering, p: Photo, h: int)
    requires c.WellFormed() && HashOf(p) == Some(h)
    requires FirstNear(h, c.hashes, NearDuplicateThreshold) >= |c.hashes|
    ensures Held(Step(c, p)) == Held(c) + multiset{p}
  {
    FlattenNew(c.clusters, p);
  }

  lemma {:induction false} ClusterKeepsAll(items: seq<Photo>)
    ensures Held(Cluster(items)) == multiset(items)
  {
    if items != [] {
      var init := items[..|items| - 1];
      var p := items[|items| - 1];
      ClusterKeepsAll(init);
      StepKeepsAll(Cluster(init), p);
      assert items == init + [p];
    }
  }

  /** A photo whose fingerprint cannot be read. */
  predicate Unhashed(p: Photo)
  {
    HashOf(p).None?
  }

  lemma StepUngrouped(c: Clustering, p: Photo)
    requires c.WellFormed()
    ensures Step(c, p).ungrouped == c.ungrouped + (if Unhashed(p) then [p] else [])
  {
  }

  /** Photos without a readable fingerprint all survive clustering, in order. */
  lemma {:induction false} ClusterKeepsUnhashed(items: seq<Photo>)
    ensures Cluster(items).ungrouped == Filter(items, Unhashed)
  {
    if items != [] {
      var init := items[..|items| - 1];
      StepUngrouped(Cluster(init), items[|items| - 1]);
      ClusterKeepsUnhashed(init);
    }
  }

  // ---------------------------------------------------------------------------
  // What the selection returns

  /** Heads of non-empty clusters: one per cluster, in order. */
  lemma {:induction false} HeadsOfNonEmpty<T>(clusters: seq<seq<T>>)
    requires forall i :: 0 <= i < |clusters| ==> clusters[i] != []
    ensures |Heads(clusters)| == |clusters|
    ensures forall i :: 0 <= i < |clusters| ==> Heads(clusters)[i] == clusters[i][0]
  {
    if clusters != [] {
      HeadsOfNonEmpty(clusters[1..]);
    }
  }

  /** Every element is an eligible photo taken from `photos`. */
  predicate EligibleFrom(s: seq<Photo>, photos: seq<Photo>)
  {
    forall i :: 0 <= i < |s| ==> Eligible(s[i]) && s[i] in photos
  }

  lemma EligibleFromPermuted(s: seq<Photo>, t: seq<Photo>, photos: seq<Photo>)
    requires EligibleFrom(s, photos) && multiset(t) <= multiset(s)
    ensures EligibleFrom(t, photos)
  {
    forall i | 0 <= i < |t| ensures Eligible(t[i]) && t[i] in photos {
      assert t[i] in multiset(t);
      assert t[i] in multiset(s);
      var j :| 0 <= j < |s| && s[j] == t[i];
    }
  }

  /** Every element of `s` is in `items`. */
  ghost predicate AllIn<T>(s: seq<T>, items: seq<T>)
  {
    forall i :: 0 <= i < |s| ==> s[i] in items
  }

  /** The heads come from the clusters. */
  lemma {:induction false} HeadsIn<T>(clusters: seq<seq<T>>, items: seq<T>)
    requires forall i, j :: 0 <= i < |clusters| && 0 <= j < |clusters[i]| ==> clusters[i][j] in items
    ensures AllIn(Heads(clusters), items)
  {
    if clusters != [] {
      HeadsIn(clusters[1..], items);
      var first := if clusters[0] != [] then [clusters[0][0]] else [];
      AllInAppend(first, Heads(clusters[1..]), items);
    }
  }

  lemma AllInAppend<T>(a: seq<T>, b: seq<T>, items: seq<T>)
    requires AllIn(a, items) && AllIn(b, items)
    ensures AllIn(a + b, items)
  {
    forall i | 0 <= i < |a + b| ensures (a + b)[i] in items {
      if i >= |a| {
        assert (a + b)[i] == b[i - |a|];
      }
    }
  }

  /** Every candidate is one of the photos the loop walked. */
  lemma CandidatesFromItems(items: seq<Photo>)
    ensures forall i :: 0 <= i < |Representatives(Cluster(items))| ==> Representatives(Cluster(items))[i] in items
  {
    var c := Cluster(items);
    ClusterFromItems(items);
    HeadsIn(c.clusters, items);
    AllInAppend(Heads(c.clusters), c.ungrouped, items);
    assert AllIn(Representatives(c), items);
  }

  lemma EligibleFromMembers(s: seq<Photo>, t: seq<Photo>, photos: seq<Photo>)
    requires EligibleFrom(s, photos)
    requires forall i :: 0 <= i < |t| ==> t[i] in s
    ensures EligibleFrom(t, photos)
  {
    forall i | 0 <= i < |t| ensures Eligible(t[i]) && t[i] in photos {
      var m :| 0 <= m < |s| && s[m] == t[i];
    }
  }

  /** Every candidate is an eligible input photo. */
  lemma CandidatesEligible(photos: seq<Photo>)
    ensures EligibleFrom(Candidates(photos), photos)
  {
    var eligible := Filter(photos, Eligible);
    var ordered := SortDesc(eligible, Score);
    EligibleFromPermuted(eligible, ordered, photos);
    CandidatesFromItems(ordered);
    EligibleFromMembers(ordered, Representatives(Cluster(ordered)), photos);
  }

  /** Every photo returned has no error and a numeric score. */
  lemma SelectionEligible(photos: seq<Photo>, targetCount: int)
    ensures EligibleFrom(Selection(photos, targetCount), photos)
  {
    var best := SortDesc(Candidates(photos), Score);
    var sel := Selection(photos, targetCount);
    CandidatesEligible(photos);
    EligibleFromPermuted(Candidates(photos), best, photos);
    EligibleFromPrefix(best, |sel|, photos);
  }

  /** A prefix of eligible input photos is one too. */
  lemma EligibleFromPrefix(s: seq<Photo>, n: nat, photos: seq<Photo>)
    requires n <= |s| && EligibleFrom(s, photos)
    ensures EligibleFrom(s[..n], photos)
  {
    assert forall i :: 0 <= i < n ==> s[..n][i] == s[i];
  }

  /** The result is ordered by non-increasing score. */
  lemma SelectionSorted(photos: seq<Photo>, targetCount: int)
    ensures IsSortedDesc(Selection(photos, targetCount), Score)
  {
    var best := SortDesc(Candidates(photos), Score);
    SortedPrefix(best, |Selection(photos, targetCount)|, Score);
  }

  /** For a non-negative target the result holds `min(target, #candidates)`
      photos, and all of them once the target is reached; a negative target
      drops that many from the end. */
  lemma SelectionLength(photos: seq<Photo>, targetCount: int)
    ensures var n := |Candidates(photos)|;
      |Selection(photos, targetCount)| ==
        if targetCount >= n then n
        else if targetCount >= 0 then targetCount
        else if n + targetCount >= 0 then n + targetCount
        else 0
    ensures targetCount >= |Candidates(photos)| ==>
      multiset(Selection(photos, targetCount)) == multiset(Candidates(photos))
  {
  }

  /** The candidates are one representative per cluster plus every eligible
      photo without a readable fingerprint. */
  lemma CandidatesShape(photos: seq<Photo>)
    ensures var c := Cluster(SortDesc(Filter(photos, Eligible), Score));
      && Candidates(photos) == Heads(c.clusters) + c.ungrouped
      && |Heads(c.clusters)| == |c.clusters|
      && c.ungrouped == Filter(SortDesc(Filter(photos, Eligible), Score), Unhashed)
  {
    var ordered := SortDesc(Filter(photos, Eligible), Score);
    HeadsOfNonEmpty(Cluster(ordered).clusters);
    ClusterKeepsUnhashed(ordered);
  }

  /** Any two representatives in the candidates are more than 8 bits apart,
      and every eligible fingerprinted photo that is not a representative is
      within 8 bits of one whose score is at least its own. */
  lemma RepresentativesSpread(photos: seq<Photo>)
    ensures var c := Cluster(SortDesc(Filter(photos, Eligible), Score));
      && Separated(c.hashes)
      && |Heads(c.clusters)| == |c.hashes|
      && (forall i :: 0 <= i < |Heads(c.clusters)| ==> HashOf(Heads(c.clusters)[i]) == Some(c.hashes[i]))
      && MembersNear(c)
  {
    var ordered := SortDesc(Filter(photos, Eligible), Score);
    var c := Cluster(ordered);
    ClusterSeparated(ordered);
    HeadsOfNonEmpty(c.clusters);
    ClusterMembersNear(ordered);
  }
}
