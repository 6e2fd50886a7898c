/** The few `str` methods the selector relies on: `strip`, `lower`/`upper`,
    `startswith`/`endswith`, `find`/`rfind` and `replace(old, new, 1)`. */
module PyText {

  /** Characters `str.strip()` removes: the whitespace of the Latin-1 range
      (space, \t \n \v \f \r, the separators \x1c-\x1f, NEL and NBSP). */
  predicate IsSpace(c: char) {
    c == ' ' || c == '\t' || c == '\n' || c == '\r' || c == '\U{0B}' || c == '\U{0C}'
    || ('\U{1C}' <= c <= '\U{1F}') || c == '\U{85}' || c == '\U{A0}'
  }

  /** `s.strip(chars)` where `drop` says which characters are in `chars`:
      leading and trailing characters are removed until none is left. */
  function StripBy(s: string, drop: char -> bool): (r: string)
    ensures |r| <= |s|
    ensures r == [] || (!drop(r[0]) && !drop(r[|r| - 1]))
  {
    if s != [] && drop(s[0]) then StripBy(s[1..], drop)
    else if s != [] && drop(s[|s| - 1]) then StripBy(s[..|s| - 1], drop)
    else s
  }

  /** `s.strip()`. */
  function Strip(s: string): string {
    StripBy(s, IsSpace)
  }

  /** Stripping leaves a string whose ends are already kept untouched. */
  lemma StripByNoop(s: string, drop: char -> bool)
    requires s == [] || (!drop(s[0]) && !drop(s[|s| - 1]))
    ensures StripBy(s, drop) == s
  {
  }

  /** A dropped first character goes first. */
  lemma StripByFront(s: string, drop: char -> bool)
    requires s != [] && drop(s[0])
    ensures StripBy(s, drop) == StripBy(s[1..], drop)
  {
  }

  /** With the front kept, a dropped last character goes. */
  lemma StripByBack(s: string, drop: char -> bool)
    requires s != [] && !drop(s[0]) && drop(s[|s| - 1])
    ensures StripBy(s, drop) == StripBy(s[..|s| - 1], drop)
  {
  }

  /** A prefix made only of dropped characters goes entirely. */
  lemma {:induction false} StripByPrefix(p: string, s: string, drop: char -> bool)
    requires forall i :: 0 <= i < |p| ==> drop(p[i])
    ensures StripBy(p + s, drop) == StripBy(s, drop)
  {
    if p == [] {
      assert p + s == s;
    } else {
      StripByFront(p + s, drop);
      assert (p + s)[1..] == p[1..] + s;
      StripByPrefix(p[1..], s, drop);
    }
  }

  /** Behind kept ends, a suffix made only of dropped characters goes
      entirely and nothing else does. */
  lemma {:induction false} StripBySuffix(s: string, q: string, drop: char -> bool)
    requires s != [] && !drop(s[0]) && !drop(s[|s| - 1])
    requires forall i :: 0 <= i < |q| ==> drop(q[i])
    ensures StripBy(s + q, drop) == s
  {
    if q == [] {
      assert s + q == s;
      StripByNoop(s, drop);
    } else {
      var t := s + q;
      StripByBack(t, drop);
      assert t[..|t| - 1] == s + q[..|q| - 1];
      StripBySuffix(s, q[..|q| - 1], drop);
    }
  }

  /** Dropped characters on both sides of kept ends all go. */
  lemma StripByBoth(p: string, s: string, q: string, drop: char -> bool)
    requires forall i :: 0 <= i < |p| ==> drop(p[i])
    requires s != [] && !drop(s[0]) && !drop(s[|s| - 1])
    requires forall i :: 0 <= i < |q| ==> drop(q[i])
    ensures StripBy(p + s + q, drop) == s
  {
    assert p + s + q == p + (s + q);
    StripByPrefix(p, s + q, drop);
    StripBySuffix(s, q, drop);
  }

  function LowerChar(c: char): char {
    if 'A' <= c <= 'Z' then (c as int - 'A' as int + 'a' as int) as char else c
  }

  function UpperChar(c: char): char {
    if 'a' <= c <= 'z' then (c as int - 'a' as int + 'A' as int) as char else c
  }

  /** `s.lower()` on ASCII letters. */
  function Lower(s: string): (r: string)
    ensures |r| == |s|
    ensures forall i :: 0 <= i < |s| ==> r[i] == LowerChar(s[i])
  {
    seq(|s|, i requires 0 <= i < |s| => LowerChar(s[i]))
  }

  /** `s.upper()` on ASCII letters. */
  function Upper(s: string): (r: string)
    ensures |r| == |s|
    ensures forall i :: 0 <= i < |s| ==> r[i] == UpperChar(s[i])
  {
    seq(|s|, i requires 0 <= i < |s| => UpperChar(s[i]))
  }

  predicate StartsWith(s: string, prefix: string) {
    |prefix| <= |s| && s[..|prefix|] == prefix
  }

  predicate EndsWith(s: string, suffix: string) {
    |suffix| <= |s| && s[|s| - |suffix|..] == suffix
  }

  /** `s.find(c)`: the first index of `c`, or -1. */
  function Find(s: string, c: char): (r: int)
    ensures -1 <= r < |s|
    ensures r == -1 <==> c !in s
    ensures r >= 0 ==> s[r] == c && forall k :: 0 <= k < r ==> s[k] != c
  {
    if s == [] then -1
    else if s[0] == c then 0
    else var k := Find(s[1..], c); if k == -1 then -1 else k + 1
  }

  /** `s.rfind(c)`: the last index of `c`, or -1. */
  function RFind(s: string, c: char): (r: int)
    ensures -1 <= r < |s|
    ensures r == -1 <==> c !in s
    ensures r >= 0 ==> s[r] == c && forall k :: r < k < |s| ==> s[k] != c
  {
    if s == [] then -1
    else if s[|s| - 1] == c then |s| - 1
    else RFind(s[..|s| - 1], c)
  }

  /** The first `c` of `s + [c] + t`, when `s` holds none, is the one
      between them. */
  lemma FindMiddle(s: string, c: char, t: string)
    requires c !in s
    ensures Find(s + [c] + t, c) == |s|
  {
    var x := s + [c] + t;
    assert x[|s|] == c;
  }

  /** The last `c` of `s + [c] + t`, when `t` holds none, is the one
      between them. */
  lemma RFindMiddle(s: string, c: char, t: string)
    requires c !in t
    ensures RFind(s + [c] + t, c) == |s|
  {
    var x := s + [c] + t;
    assert x[|s|] == c;
  }

  /** `pattern` occurs in `s` at index `k`. */
  predicate OccursAt(s: string, pattern: string, k: int) {
    0 <= k <= |s| - |pattern| && s[k..k + |pattern|] == pattern
  }

  /** `s.find(pattern)` for a non-empty pattern: the first index where it occurs, or -1. */
  function FindSub(s: string, pattern: string): (r: int)
    requires pattern != []
    ensures r == -1 || OccursAt(s, pattern, r)
    ensures forall k :: OccursAt(s, pattern, k) ==> r != -1 && r <= k
    decreases |s|
  {
    if |s| < |pattern| then -1
    else if s[..|pattern|] == pattern then 0
    else
      var k := FindSub(s[1..], pattern);
      OccursInTail(s, pattern);
      if k == -1 then -1 else k + 1
  }

  /** When `pattern` is not at the front of `s`, its occurrences in `s`
      are those in the tail, one further along. */
  lemma OccursInTail(s: string, pattern: string)
    requires |s| >= |pattern| && s[..|pattern|] != pattern
    ensures forall j :: OccursAt(s, pattern, j) ==> j >= 1 && OccursAt(s[1..], pattern, j - 1)
    ensures forall j :: OccursAt(s[1..], pattern, j) ==> OccursAt(s, pattern, j + 1)
  {
    forall j | OccursAt(s, pattern, j) ensures j >= 1 && OccursAt(s[1..], pattern, j - 1) {
      assert s[0..|pattern|] == s[..|pattern|];
      TailSlice(s, j - 1, |pattern|);
    }
    forall j | OccursAt(s[1..], pattern, j) ensures OccursAt(s, pattern, j + 1) {
      TailSlice(s, j, |pattern|);
    }
  }

  /** A slice of the tail is the slice one further along. */
  lemma TailSlice(s: string, i: nat, n: nat)
    requires i + 1 + n <= |s|
    ensures s[1..][i..i + n] == s[i + 1..i + 1 + n]
  {
  }

  /** `s.replace(pattern, replacement, 1)`. */
  function ReplaceFirst(s: string, pattern: string, replacement: string): (r: string)
    requires pattern != []
    ensures FindSub(s, pattern) == -1 ==> r == s
    ensures FindSub(s, pattern) >= 0 ==>
      var i := FindSub(s, pattern);
      r == s[..i] + replacement + s[i + |pattern|..]
  {
    var i := FindSub(s, pattern);
    if i < 0 then s else s[..i] + replacement + s[i + |pattern|..]
  }

  /** A pattern at the front of `s` is the one replaced. */
  lemma ReplaceFirstAtFront(s: string, pattern: string, replacement: string)
    requires pattern != [] && |pattern| <= |s| && s[..|pattern|] == pattern
    ensures ReplaceFirst(s, pattern, replacement) == replacement + s[|pattern|..]
  {
    assert FindSub(s, pattern) == 0;
  }
}
