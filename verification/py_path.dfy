/** The parts of `pathlib.Path` the selector uses, on paths written as
    '/'-separated strings without a trailing separator. */
module PyPath {
  import opened PyText

  /** `a / b`. */
  function Join(a: string, b: string): (r: string)
    ensures |r| == |a| + 1 + |b| && r[..|a|] == a && r[|a|] == '/' && r[|a| + 1..] == b
  {
    a + "/" + b
  }

  /** `path` lies strictly inside the directory `dir`. */
  predicate Under(path: string, dir: string)
  {
    |path| > |dir| + 1 && path[..|dir|] == dir && path[|dir|] == '/'
  }

  /** Joining always lands inside the directory joined onto. */
  lemma JoinUnder(a: string, b: string)
    requires b != []
    ensures Under(Join(a, b), a)
  {
  }

  /** Something inside a directory inside `dir` is inside `dir`. */
  lemma UnderTransitive(path: string, mid: string, dir: string)
    requires Under(path, mid) && Under(mid, dir)
    ensures Under(path, dir)
  {
    assert path[..|mid|][..|dir|] == path[..|dir|];
    assert path[..|mid|][|dir|] == path[|dir|];
  }

  /** `path.name`: the last component. */
  function Name(path: string): (r: string)
    ensures '/' !in r
  {
    var slash := RFind(path, '/');
    path[slash + 1..]
  }

  /** The position of the extension dot in a name: the last '.', unless it
      is the first or the last character. */
  function SuffixDot(name: string): (i: int)
    ensures i == -1 || (0 < i < |name| - 1 && name[i] == '.')
  {
    var i := RFind(name, '.');
    if 0 < i < |name| - 1 then i else -1
  }

  /** The extension of a name: from its extension dot on, or nothing. */
  function NameSuffix(name: string): (r: string)
    ensures r == [] || (r[0] == '.' && |r| >= 2)
  {
    var i := SuffixDot(name);
    if i == -1 then [] else name[i..]
  }

  /** A name without its extension. */
  function NameStem(name: string): (r: string)
    ensures |r| <= |name| && r == name[..|r|]
  {
    var i := SuffixDot(name);
    if i == -1 then name else name[..i]
  }

  /** A name is its stem followed by its suffix. */
  lemma NameSplits(name: string)
    ensures name == NameStem(name) + NameSuffix(name)
  {
    var i := SuffixDot(name);
    if i == -1 {
      assert name + [] == name;
    } else {
      assert name == name[..i] + name[i..];
    }
  }

  /** `path.suffix`: ".jpg" for "a/b.jpg", "" for "a/b", ".gz" for "a.tar.gz",
      "" for a hidden file such as ".heic". */
  function Suffix(path: string): (r: string)
    ensures r == [] || (r[0] == '.' && |r| >= 2)
  {
    NameSuffix(Name(path))
  }

  /** `path.stem`: the name without its suffix. */
  function Stem(path: string): (r: string)
    ensures '/' !in r
  {
    var name := Name(path);
    var r := NameStem(name);
    assert forall k :: 0 <= k < |r| ==> r[k] == name[k];
    r
  }

  /** The name of `dir/name` is `name`. */
  lemma NameOfJoin(dir: string, name: string)
    requires '/' !in name
    ensures Name(Join(dir, name)) == name
  {
    RFindMiddle(dir, '/', name);
    assert Join(dir, name) == dir + ['/'] + name;
  }

  /** The suffix of `dir/stem.ext` is `.ext`, for a stem without dots. */
  lemma SuffixOfJoin(dir: string, stem: string, ext: string)
    requires stem != [] && '/' !in stem && '.' !in stem
    requires |ext| >= 2 && ext[0] == '.' && '/' !in ext && '.' !in ext[1..]
    ensures Suffix(Join(dir, stem + ext)) == ext
  {
    var name := stem + ext;
    assert '/' !in name by {
      assert forall k :: 0 <= k < |name| ==> name[k] == if k < |stem| then stem[k] else ext[k - |stem|];
    }
    NameOfJoin(dir, name);
    assert name == stem + ['.'] + ext[1..];
    RFindMiddle(stem, '.', ext[1..]);
  }

  /** A name is its stem followed by its suffix. */
  lemma StemSuffix(path: string)
    ensures Name(path) == Stem(path) + Suffix(path)
  {
    NameSplits(Name(path));
  }

  /** The last separator splits a joined path: when neither last component
      holds a '/', equal joins have equal parents and equal last components. */
  lemma JoinLast(x: string, a: string, y: string, b: string)
    requires '/' !in a && '/' !in b
    ensures Join(x, a) == Join(y, b) ==> x == y && a == b
  {
    var l, r := Join(x, a), Join(y, b);
    if l == r {
      assert |x| == |y|;
      assert x == l[..|x|] && y == r[..|y|];
      assert a == l[|x| + 1..] && b == r[|y| + 1..];
    }
  }

  /** `dir / parts[0] / parts[1] / ...`. */
  function JoinAll(dir: string, parts: seq<string>): (r: string)
    ensures |r| >= |dir|
    decreases |parts|
  {
    if parts == [] then dir
    else Join(JoinAll(dir, parts[..|parts| - 1]), parts[|parts| - 1])
  }

  /** Below one directory, components without '/' name distinct paths. */
  lemma {:induction false} JoinAllInjective(dir: string, p1: seq<string>, p2: seq<string>)
    requires forall i :: 0 <= i < |p1| ==> '/' !in p1[i]
    requires forall i :: 0 <= i < |p2| ==> '/' !in p2[i]
    ensures JoinAll(dir, p1) == JoinAll(dir, p2) ==> p1 == p2
    decreases |p1| + |p2|
  {
    if JoinAll(dir, p1) == JoinAll(dir, p2) && p1 != [] && p2 != [] {
      var i1, i2 := p1[..|p1| - 1], p2[..|p2| - 1];
      JoinLast(JoinAll(dir, i1), p1[|p1| - 1], JoinAll(dir, i2), p2[|p2| - 1]);
      JoinAllInjective(dir, i1, i2);
      assert p1 == i1 + [p1[|p1| - 1]] && p2 == i2 + [p2[|p2| - 1]];
    }
  }

  /** `JoinAll` over one, two and three components. */
  lemma JoinAllShort(dir: string, a: string, b: string, c: string)
    ensures JoinAll(dir, [a]) == Join(dir, a)
    ensures JoinAll(dir, [a, b]) == Join(Join(dir, a), b)
    ensures JoinAll(dir, [a, b, c]) == Join(Join(Join(dir, a), b), c)
  {
    assert [a, b, c][..2] == [a, b];
    assert [a, b][..1] == [a];
    assert [a][..0] == [];
  }
}
