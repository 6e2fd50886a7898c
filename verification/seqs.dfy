/** List operations the selector relies on: Python's stable `sorted`, list
    comprehensions with a condition, first-occurrence de-duplication and
    sums. */
module Seqs {

  /** Non-increasing by `key`. */
  predicate IsSortedDesc<T>(s: seq<T>, key: T -> real)
  {
    forall i, j :: 0 <= i < j < |s| ==> key(s[i]) >= key(s[j])
  }

  /** Non-decreasing by `key`. */
  predicate IsSortedAsc<T>(s: seq<T>, key: T -> real)
  {
    forall i, j :: 0 <= i < j < |s| ==> key(s[i]) <= key(s[j])
  }

  /** Every element of a multiset drawn from `s` and `x` has a key no larger
      than `bound` when the keys of `s` and of `x` are no larger. */
  lemma KeysBounded<T>(t: seq<T>, s: seq<T>, x: T, key: T -> real, bound: real)
    requires multiset(t) == multiset(s) + multiset{x}
    requires forall i :: 0 <= i < |s| ==> key(s[i]) <= bound
    requires key(x) <= bound
    ensures forall j :: 0 <= j < |t| ==> key(t[j]) <= bound
  {
    forall j | 0 <= j < |t| ensures key(t[j]) <= bound {
      assert t[j] in multiset(t);
      if t[j] != x {
        assert t[j] in multiset(s);
        var i :| 0 <= i < |s| && s[i] == t[j];
      }
    }
  }

  /** Inserts `x` into a non-increasing list in front of the first element
      whose key is not larger, so `x` stays ahead of its equals. */
  function InsertDesc<T>(x: T, s: seq<T>, key: T -> real): (r: seq<T>)
    requires IsSortedDesc(s, key)
    ensures |r| == |s| + 1 && multiset(r) == multiset(s) + multiset{x}
    ensures IsSortedDesc(r, key)
  {
    if s == [] then [x]
    else if key(s[0]) <= key(x) then
      SortedCons(x, s, key);
      [x] + s
    else
      var t := InsertDesc(x, s[1..], key);
      assert s == [s[0]] + s[1..];
      KeysBounded(t, s[1..], x, key, key(s[0]));
      SortedCons(s[0], t, key);
      [s[0]] + t
  }

  /** An element no smaller than every key of a non-increasing list can go
      in front of it. */
  lemma SortedCons<T>(y: T, t: seq<T>, key: T -> real)
    requires IsSortedDesc(t, key)
    requires forall j :: 0 <= j < |t| ==> key(t[j]) <= key(y)
    ensures IsSortedDesc([y] + t, key)
  {
  }

  /** `sorted(s, key=key, reverse=True)`: Python's sort is stable and keeps
      equal elements in their original order even when reversed. */
  function SortDesc<T>(s: seq<T>, key: T -> real): (r: seq<T>)
    ensures |r| == |s| && multiset(r) == multiset(s)
    ensures IsSortedDesc(r, key)
  {
    if s == [] then []
    else
      assert s == [s[0]] + s[1..];
      InsertDesc(s[0], SortDesc(s[1..], key), key)
  }

  /** `sorted(s, key=key)`: the same stable sort on the negated key. */
  function SortAsc<T>(s: seq<T>, key: T -> real): (r: seq<T>)
    ensures |r| == |s| && multiset(r) == multiset(s)
    ensures IsSortedAsc(r, key)
  {
    var r := SortDesc(s, x => -key(x));
    assert forall i, j :: 0 <= i < j < |r| ==> -key(r[i]) >= -key(r[j]);
    r
  }

  /** A prefix of a sorted list is sorted. */
  lemma SortedPrefix<T>(s: seq<T>, n: nat, key: T -> real)
    requires IsSortedDesc(s, key) && n <= |s|
    ensures IsSortedDesc(s[..n], key)
  {
  }

  /** `[x for x in s if p(x)]`. */
  function Filter<T>(s: seq<T>, p: T -> bool): (r: seq<T>)
    ensures |r| <= |s|
    ensures forall i :: 0 <= i < |r| ==> r[i] in s && p(r[i])
    ensures forall i :: 0 <= i < |s| && p(s[i]) ==> s[i] in r
    ensures multiset(r) <= multiset(s)
    decreases |s|
  {
    if s == [] then []
    else
      var init, x := s[..|s| - 1], s[|s| - 1];
      assert s == init + [x];
      Filter(init, p) + (if p(x) then [x] else [])
  }

  /** Sorting the elements that pass keeps exactly elements of the list
      that pass. */
  lemma SortedFilterFrom<T>(s: seq<T>, p: T -> bool, key: T -> real, r: seq<T>)
    requires r == SortDesc(Filter(s, p), key)
    ensures forall i :: 0 <= i < |r| ==> p(r[i]) && r[i] in s
  {
    assert forall i :: 0 <= i < |r| ==> r[i] in multiset(Filter(s, p));
  }

  /** Filtering a list extended by one element extends the filtered list
      by that element when it passes. */
  lemma FilterSnoc<T>(s: seq<T>, x: T, p: T -> bool)
    ensures Filter(s + [x], p) == Filter(s, p) + (if p(x) then [x] else [])
  {
    assert (s + [x])[..|s|] == s;
  }

  /** Python's `s[:n]` for any integer `n`: a negative `n` counts from the
      end, and the result is never longer than `s`. */
  function PySliceTo<T>(s: seq<T>, n: int): (r: seq<T>)
    ensures 0 <= n <= |s| ==> r == s[..n]
    ensures n > |s| ==> r == s
    ensures n < 0 ==> r == s[..if |s| + n < 0 then 0 else |s| + n]
  {
    if n >= |s| then s
    else if n >= 0 then s[..n]
    else if |s| + n < 0 then []
    else s[..|s| + n]
  }

  /** `s if n >= len(s) else s[:n]`: the first `n` elements, all of them
      once `n` reaches the length. */
  function TakeTop<T>(s: seq<T>, n: int): (r: seq<T>)
    ensures |r| <= |s| && r == s[..|r|]
    ensures |r| == if n >= |s| then |s| else if n >= 0 then n else if |s| + n >= 0 then |s| + n else 0
  {
    if n >= |s| then s else PySliceTo(s, n)
  }

  /** The index of the first occurrence of `x`. */
  function IndexOf<T(==)>(s: seq<T>, x: T): (k: nat)
    requires x in s
    ensures k < |s| && s[k] == x && forall j :: 0 <= j < k ==> s[j] != x
  {
    if s[0] == x then 0 else 1 + IndexOf(s[1..], x)
  }

  /** Extending a list does not move the first occurrence of what it holds. */
  lemma IndexOfExtended<T>(s: seq<T>, y: T, x: T)
    requires x in s
    ensures x in s + [y] && IndexOf(s + [y], x) == IndexOf(s, x)
  {
    var t := s + [y];
    var k := IndexOf(s, x);
    assert t[k] == x;
    var m := IndexOf(t, x);
    assert m <= k;
  }

  /** No element occurs twice. */
  predicate NoDuplicates<T(==)>(s: seq<T>)
  {
    forall i, j :: 0 <= i < j < |s| ==> s[i] != s[j]
  }

  /** `r` holds each element of `s` once, in the order of first
      appearance in `s`. */
  predicate FirstOccurrences<T(==)>(r: seq<T>, s: seq<T>)
  {
    && NoDuplicates(r)
    && (forall i :: 0 <= i < |r| ==> r[i] in s)
    && (forall i :: 0 <= i < |s| ==> s[i] in r)
    && (forall i, j :: 0 <= i < j < |r| ==> IndexOf(s, r[i]) < IndexOf(s, r[j]))
  }

  /** The first occurrences of a non-empty list: those of all but its last
      element, then the last unless it was already seen. */
  lemma FirstOccurrencesSnoc<T>(d: seq<T>, s: seq<T>)
    requires s != [] && FirstOccurrences(d, s[..|s| - 1])
    ensures FirstOccurrences(if s[|s| - 1] in d then d else d + [s[|s| - 1]], s)
  {
    var init, last := s[..|s| - 1], s[|s| - 1];
    assert s == init + [last];
    if last in d {
      FirstOccurrencesSeen(d, init, last);
    } else {
      FirstOccurrencesNew(d, init, last);
    }
  }

  /** An element seen before adds nothing. */
  lemma FirstOccurrencesSeen<T>(d: seq<T>, init: seq<T>, last: T)
    requires FirstOccurrences(d, init) && last in d
    ensures FirstOccurrences(d, init + [last])
  {
    var s := init + [last];
    forall i | 0 <= i < |d| ensures d[i] in s && IndexOf(s, d[i]) == IndexOf(init, d[i]) {
      IndexOfExtended(init, last, d[i]);
    }
    forall i | 0 <= i < |s| ensures s[i] in d {
      if i < |init| {
        assert s[i] == init[i];
      }
    }
  }

  /** A new element goes at the end: its first occurrence is the last. */
  lemma FirstOccurrencesNew<T>(d: seq<T>, init: seq<T>, last: T)
    requires FirstOccurrences(d, init) && last !in d
    ensures FirstOccurrences(d + [last], init + [last])
  {
    var s, r := init + [last], d + [last];
    assert last !in init;
    assert IndexOf(s, last) == |init|;
    forall i | 0 <= i < |d| ensures d[i] in s && IndexOf(s, d[i]) == IndexOf(init, d[i]) < |init| {
      IndexOfExtended(init, last, d[i]);
    }
    forall i | 0 <= i < |s| ensures s[i] in r {
      if i < |init| {
        assert s[i] == init[i];
      }
    }
    forall i, j | 0 <= i < j < |r| ensures IndexOf(s, r[i]) < IndexOf(s, r[j]) {
      assert r[i] == d[i];
      if j < |d| {
        assert r[j] == d[j];
      }
    }
    forall i | 0 <= i < |r| ensures r[i] in s {
      if i < |d| {
        assert r[i] == d[i];
      }
    }
  }

  /** The first occurrence of every element, in the order of first
      appearance: what a loop with a `seen` set keeps. */
  function Distinct<T(==)>(s: seq<T>): (r: seq<T>)
    ensures NoDuplicates(r)
    ensures forall i :: 0 <= i < |r| ==> r[i] in s
    ensures forall i :: 0 <= i < |s| ==> s[i] in r
  {
    if s == [] then []
    else
      var init, last := s[..|s| - 1], s[|s| - 1];
      var d := Distinct(init);
      assert s == init + [last];
      assert forall i :: 0 <= i < |s| ==> s[i] == last || s[i] in init;
      if last in d then d else d + [last]
  }

  /** What `Distinct` keeps is in the order of first appearance. */
  lemma {:induction false} DistinctInFirstOrder<T>(s: seq<T>)
    ensures FirstOccurrences(Distinct(s), s)
  {
    if s != [] {
      var init := s[..|s| - 1];
      DistinctInFirstOrder(init);
      assert s == init + [s[|s| - 1]];
      DistinctSnoc(init, s[|s| - 1]);
      FirstOccurrencesSnoc(Distinct(init), s);
    }
  }

  function Sum(s: seq<real>): real
  {
    if s == [] then 0.0 else Sum(s[..|s| - 1]) + s[|s| - 1]
  }

  /** A list is a subsequence of another: its elements appear there in the
      same order, possibly with others between them. */
  predicate IsSubseq<T(==)>(a: seq<T>, b: seq<T>)
  {
    if a == [] then true
    else if b == [] then false
    else if a[0] == b[0] then IsSubseq(a[1..], b[1..])
    else IsSubseq(a, b[1..])
  }

  /** Everything in a subsequence comes from the list. */
  lemma {:induction false} SubseqIn<T>(a: seq<T>, b: seq<T>)
    requires IsSubseq(a, b)
    ensures forall i :: 0 <= i < |a| ==> a[i] in b
  {
    if a != [] && b != [] {
      if a[0] == b[0] {
        SubseqIn(a[1..], b[1..]);
        forall i | 1 <= i < |a| ensures a[i] in b {
          assert a[i] == a[1..][i - 1];
        }
      } else {
        SubseqIn(a, b[1..]);
      }
    }
  }

  /** A subsequence of a non-increasing list is non-increasing. */
  lemma {:induction false} SubseqSortedDesc<T>(a: seq<T>, b: seq<T>, key: T -> real)
    requires IsSubseq(a, b) && IsSortedDesc(b, key)
    ensures IsSortedDesc(a, key)
  {
    if a != [] && b != [] {
      assert IsSortedDesc(b[1..], key);
      if a[0] == b[0] {
        SubseqSortedDesc(a[1..], b[1..], key);
        SubseqIn(a[1..], b[1..]);
        forall j | 1 <= j < |a| ensures key(a[0]) >= key(a[j]) {
          assert a[j] == a[1..][j - 1];
          var k :| 0 <= k < |b[1..]| && b[1..][k] == a[j];
          assert b[k + 1] == a[j];
        }
        forall i, j | 0 <= i < j < |a| ensures key(a[i]) >= key(a[j]) {
          if i > 0 {
            assert a[i] == a[1..][i - 1] && a[j] == a[1..][j - 1];
          }
        }
      } else {
        SubseqSortedDesc(a, b[1..], key);
      }
    }
  }

  /** A subsequence of the tail is a subsequence of the whole list. */
  lemma {:induction false} SubseqOfTail<T>(a: seq<T>, b: seq<T>)
    requires b != [] && IsSubseq(a, b[1..])
    ensures IsSubseq(a, b)
    decreases |a| + |b|, 1
  {
    if a != [] && a[0] == b[0] {
      SubseqDropHead(a, b[1..]);
    }
  }

  /** Dropping the first element of a subsequence keeps it a subsequence. */
  lemma {:induction false} SubseqDropHead<T>(a: seq<T>, b: seq<T>)
    requires a != [] && IsSubseq(a, b)
    ensures IsSubseq(a[1..], b)
    decreases |a| + |b|, 0
  {
    if a[1..] != [] {
      if a[0] != b[0] {
        SubseqDropHead(a, b[1..]);
      }
      SubseqOfTail(a[1..], b);
    }
  }

  /** De-duplicating a list extended by one element keeps the element only
      when it is new. */
  lemma DistinctSnoc<T>(s: seq<T>, x: T)
    ensures Distinct(s + [x]) == if x in Distinct(s) then Distinct(s) else Distinct(s) + [x]
  {
    assert (s + [x])[..|s + [x]| - 1] == s;
  }

  /** `s` is `a` and `b` merged: every element of `s`, in order, is taken
      from the front of `a` or of `b`, and nothing is left over. */
  predicate Interleaving<T(==)>(s: seq<T>, a: seq<T>, b: seq<T>)
    decreases |s|
  {
    if s == [] then a == [] && b == []
    else
      var x := s[|s| - 1];
      || (a != [] && a[|a| - 1] == x && Interleaving(s[..|s| - 1], a[..|a| - 1], b))
      || (b != [] && b[|b| - 1] == x && Interleaving(s[..|s| - 1], a, b[..|b| - 1]))
  }

  /** A merge is as long as its two parts together. */
  lemma {:induction false} InterleavingLength<T>(s: seq<T>, a: seq<T>, b: seq<T>)
    requires Interleaving(s, a, b)
    ensures |s| == |a| + |b|
    decreases |s|
  {
    if s != [] {
      var x := s[|s| - 1];
      if a != [] && a[|a| - 1] == x && Interleaving(s[..|s| - 1], a[..|a| - 1], b) {
        InterleavingLength(s[..|s| - 1], a[..|a| - 1], b);
      } else {
        InterleavingLength(s[..|s| - 1], a, b[..|b| - 1]);
      }
    }
  }

  /** Python's `for x in s: (accepted if p(x) else rejected).append(x)`:
      the pair (rejected, accepted), each in input order. */
  function Partition<T>(s: seq<T>, p: T -> bool): (seq<T>, seq<T>)
    decreases |s|
  {
    if s == [] then ([], [])
    else
      var parts := Partition(s[..|s| - 1], p);
      var x := s[|s| - 1];
      if p(x) then (parts.0, parts.1 + [x]) else (parts.0 + [x], parts.1)
  }

  /** The list is its two parts merged; an element is accepted exactly when
      it is in the list and passes, rejected exactly when it is in the list
      and fails. */
  lemma {:induction false} PartitionSplits<T>(s: seq<T>, p: T -> bool)
    ensures Interleaving(s, Partition(s, p).0, Partition(s, p).1)
    ensures forall x :: x in Partition(s, p).1 <==> x in s && p(x)
    ensures forall x :: x in Partition(s, p).0 <==> x in s && !p(x)
    decreases |s|
  {
    if s != [] {
      var init, last := s[..|s| - 1], s[|s| - 1];
      assert s == init + [last];
      PartitionSplits(init, p);
      var a, b := Partition(s, p).0, Partition(s, p).1;
      if p(last) {
        assert a == Partition(init, p).0;
        assert b[..|b| - 1] == Partition(init, p).1;
      } else {
        assert b == Partition(init, p).1;
        assert a[..|a| - 1] == Partition(init, p).0;
      }
    }
  }

  /** When nothing passes, nothing is accepted. */
  lemma {:induction false} PartitionNone<T>(s: seq<T>, p: T -> bool)
    requires forall i :: 0 <= i < |s| ==> !p(s[i])
    ensures Partition(s, p).1 == []
    decreases |s|
  {
    if s != [] {
      PartitionNone(s[..|s| - 1], p);
    }
  }

  /** Python's `[f(x) for x in s]`. */
  function Image<T, U>(s: seq<T>, f: T -> U): (r: seq<U>)
    ensures |r| == |s|
  {
    seq(|s|, k requires 0 <= k < |s| => f(s[k]))
  }

  /** `[f(x, idx + k) for k, x in enumerate(s)]`: each element with its
      number, counting from `idx`. */
  function Numbered<T, U>(s: seq<T>, idx: nat, f: (T, nat) -> U): (r: seq<U>)
    ensures |r| == |s|
  {
    seq(|s|, k requires 0 <= k < |s| => f(s[k], idx + k))
  }

  /** Numbering one more element appends it under the next number. */
  lemma NumberedSnoc<T, U>(s: seq<T>, idx: nat, i: nat, f: (T, nat) -> U)
    requires i < |s|
    ensures Numbered(s[..i + 1], idx, f) == Numbered(s[..i], idx, f) + [f(s[i], idx + i)]
  {
    var a := Numbered(s[..i + 1], idx, f);
    var b := Numbered(s[..i], idx, f) + [f(s[i], idx + i)];
    forall k | 0 <= k < |a| ensures a[k] == b[k] {
      assert s[..i + 1][k] == s[k];
      if k < i {
        assert s[..i][k] == s[k];
      }
    }
  }

  /** Numbering keeps a sorted list sorted when each element's new key is
      its old one. */
  lemma NumberedSortedAsc<T, U>(s: seq<T>, idx: nat, f: (T, nat) -> U, key: T -> real, newKey: U -> real)
    requires IsSortedAsc(s, key)
    requires forall k :: 0 <= k < |s| ==> newKey(f(s[k], idx + k)) == key(s[k])
    ensures IsSortedAsc(Numbered(s, idx, f), newKey)
  {
  }

  /** Dropping repeats keeps exactly the elements of the list. */
  lemma DistinctMembers<T>(s: seq<T>)
    ensures NoDuplicates(Distinct(s))
    ensures forall x :: x in Distinct(s) <==> x in s
  {
    var r := Distinct(s);
    forall x | x in r ensures x in s {
      var i :| 0 <= i < |r| && r[i] == x;
    }
    forall x | x in s ensures x in r {
      var i :| 0 <= i < |s| && s[i] == x;
    }
  }

  /** What one part of a concatenation holds, the whole holds. */
  lemma IncludedInAppend<T>(part: seq<T>, a: seq<T>, b: seq<T>)
    requires (forall o :: o in part ==> o in a) || (forall o :: o in part ==> o in b)
    ensures forall o :: o in part ==> o in a + b
  {
  }

  /** `front + f(xs[0]) + f(xs[1]) + ...`. */
  function ConcatMap<T, U>(front: seq<U>, xs: seq<T>, f: T -> seq<U>): (r: seq<U>)
    decreases |xs|
  {
    if xs == [] then front else ConcatMap(front, xs[..|xs| - 1], f) + f(xs[|xs| - 1])
  }

  /** Everything each piece holds is in the concatenation. */
  lemma {:induction false} ConcatMapListed<T, U>(front: seq<U>, xs: seq<T>, f: T -> seq<U>, k: int)
    requires 0 <= k < |xs|
    ensures forall o :: o in f(xs[k]) ==> o in ConcatMap(front, xs, f)
    decreases |xs|
  {
    var init := xs[..|xs| - 1];
    if k < |init| {
      ConcatMapListed(front, init, f, k);
      assert xs[k] == init[k];
    }
    IncludedInAppend(f(xs[k]), ConcatMap(front, init, f), f(xs[|xs| - 1]));
  }

  /** `y` is in the image exactly when some element of `s` maps to it. */
  lemma ImageMembers<T, U>(s: seq<T>, f: T -> U)
    ensures forall y :: y in Image(s, f) <==> exists x :: x in s && y == f(x)
  {
    var r := Image(s, f);
    forall y | y in r
      ensures exists x :: x in s && y == f(x)
    {
      var k :| 0 <= k < |r| && r[k] == y;
      assert s[k] in s;
    }
    forall y | exists x :: x in s && y == f(x)
      ensures y in r
    {
      var x :| x in s && y == f(x);
      var k :| 0 <= k < |s| && s[k] == x;
      assert r[k] == y;
    }
  }

  /** Mapping a list extended by one element extends the image by its
      image. */
  lemma ImageSnoc<T, U>(s: seq<T>, x: T, f: T -> U)
    ensures Image(s + [x], f) == Image(s, f) + [f(x)]
  {
  }

  /** The image of a concatenation is the concatenation of the images. */
  lemma ImageAppend<T, U>(s: seq<T>, t: seq<T>, f: T -> U)
    ensures Image(s + t, f) == Image(s, f) + Image(t, f)
  {
  }

  /** Looking at one more element of the list adds its image to the image
      of the accepted part exactly when it passes. */
  lemma KeptImageStep<T, U>(s: seq<T>, i: nat, p: T -> bool, f: T -> U)
    requires i < |s|
    ensures Image(Partition(s[..i + 1], p).1, f)
      == Image(Partition(s[..i], p).1, f) + (if p(s[i]) then [f(s[i])] else [])
  {
    assert s[..i + 1][..i] == s[..i];
    if p(s[i]) {
      ImageSnoc(Partition(s[..i], p).1, s[i], f);
    } else {
      assert Partition(s[..i], p).1 + [] == Partition(s[..i], p).1;
    }
  }
}
