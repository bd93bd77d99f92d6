/**
 * Node's POSIX `path.basename(p)` and `path.extname(p)`, which
 * `generateAndSendReport` applies to a template URL.  The separator is `/`.
 */
module NodePath {
  import opened Wrappers

  /** `p` with every trailing `/` removed (basename ignores trailing separators). */
  function StripTrailingSlashes(p: string): (r: string)
    ensures r <= p
    ensures r == [] || r[|r| - 1] != '/'
    ensures forall k :: |r| <= k < |p| ==> p[k] == '/'
  {
    if p != [] && p[|p| - 1] == '/' then StripTrailingSlashes(p[..|p| - 1]) else p
  }

  /** The longest suffix of `p` that holds no `/`: the text after the last `/`. */
  function AfterLastSlash(p: string): (r: string)
    ensures '/' !in r
    ensures |r| <= |p| && p[|p| - |r|..] == r
    ensures |r| < |p| ==> p[|p| - |r| - 1] == '/'
  {
    if p == [] || p[|p| - 1] == '/' then []
    else AfterLastSlash(p[..|p| - 1]) + [p[|p| - 1]]
  }

  /** `path.basename(p)`: the last path segment, trailing separators ignored. */
  function Basename(p: string): (r: string)
    ensures '/' !in r
  {
    AfterLastSlash(StripTrailingSlashes(p))
  }

  /** The last index of `c` in `s`. */
  function LastIndexOf(s: string, c: char): (r: Option<nat>)
    ensures r.Some? ==> r.value < |s| && s[r.value] == c
    ensures r.Some? ==> forall j :: r.value < j < |s| ==> s[j] != c
    ensures r.None? <==> c !in s
  {
    if s == [] then None
    else if s[|s| - 1] == c then Some(|s| - 1)
    else LastIndexOf(s[..|s| - 1], c)
  }

  /**
   * `path.extname(p)`: the last segment's text from its last `.` to the end;
   * empty when that segment has no `.`, when its only `.` is its first
   * character (`.bashrc`), or when the segment is `..`.
   */
  function Extname(p: string): (r: string)
  {
    ExtOfSegment(Basename(p))
  }

  /** The extension of one path segment `b`, as `path.extname` computes it. */
  function ExtOfSegment(b: string): (r: string)
  {
    match LastIndexOf(b, '.')
    case None => ""
    case Some(i) => if i == 0 || b == ".." then "" else b[i..]
  }

  /** On a segment without `/`, `extname` is the segment's own extension. */
  lemma ExtnameOfSegment(b: string)
    requires '/' !in b
    ensures Extname(b) == ExtOfSegment(b)
  {
    SlashFreeBasename(b);
  }

  /** A base name is its own base name. */
  lemma BasenameIdempotent(p: string)
    ensures Basename(Basename(p)) == Basename(p)
  {
    var b := Basename(p);
    SlashFreeBasename(b);
  }

  /** A string without `/` is its own base name. */
  lemma {:induction false} SlashFreeBasename(s: string)
    requires '/' !in s
    ensures Basename(s) == s
  {
    assert StripTrailingSlashes(s) == s;
    SlashFreeAfterLastSlash(s);
  }

  lemma {:induction false} SlashFreeAfterLastSlash(s: string)
    requires '/' !in s
    ensures AfterLastSlash(s) == s
  {
    if s != [] {
      assert s[|s| - 1] in s;
      var prefix := s[..|s| - 1];
      assert forall k :: 0 <= k < |prefix| ==> prefix[k] == s[k];
      SlashFreeAfterLastSlash(prefix);
      assert prefix + [s[|s| - 1]] == s;
    }
  }

  /** The base name of `dir/name` is `name`, for a non-empty `name` without `/`. */
  lemma BasenameOfJoin(dir: string, name: string)
    requires name != [] && '/' !in name
    ensures Basename(dir + "/" + name) == name
  {
    var p := dir + "/" + name;
    assert p[|p| - 1] == name[|name| - 1];
    assert name[|name| - 1] in name;
    assert StripTrailingSlashes(p) == p;
    assert p[|p| - |name| - 1] == '/';
    assert p[|p| - |name|..] == name;
  }

  /** The base name is empty exactly when the path is made of separators only. */
  lemma BasenameEmptyIff(p: string)
    ensures Basename(p) == "" <==> forall k :: 0 <= k < |p| ==> p[k] == '/'
  {
    var s := StripTrailingSlashes(p);
    if s != [] {
      assert AfterLastSlash(s) != [];
      assert p[|s| - 1] == s[|s| - 1];
    }
  }

  /**
   * What `path.extname` returns: either nothing, or a suffix of the base
   * name that starts with its last `.`.
   */
  lemma ExtnameShape(p: string)
    ensures IsExtensionOf(Extname(p), Basename(p))
  {
    SegmentExtShape(Basename(p));
  }

  /** `e` is empty, or a suffix of `b` that starts with a `.` and holds no other `.`. */
  predicate IsExtensionOf(e: string, b: string) {
    e == "" || (|e| <= |b| && b[|b| - |e|..] == e && e[0] == '.' && '.' !in e[1..])
  }

  lemma SegmentExtShape(b: string)
    ensures IsExtensionOf(ExtOfSegment(b), b)
  {
    match LastIndexOf(b, '.')
    case None =>
    case Some(i) =>
      if i != 0 && b != ".." {
        var e := b[i..];
        assert b[|b| - |e|..] == e;
        forall k | 0 <= k < |e[1..]| ensures e[1..][k] != '.' {
          assert e[1..][k] == b[i + 1 + k];
        }
      }
  }

  /**
   * `path.extname` is empty exactly when the base name has no `.` after its
   * first character, or is `..`.
   */
  lemma ExtnameEmptyIff(p: string)
    ensures var b := Basename(p);
      Extname(p) == "" <==> (forall k :: 0 < k < |b| ==> b[k] != '.') || b == ".."
  {
    SegmentExtEmptyIff(Basename(p));
  }

  lemma SegmentExtEmptyIff(b: string)
    ensures ExtOfSegment(b) == "" <==> (forall k :: 0 < k < |b| ==> b[k] != '.') || b == ".."
  {
    match LastIndexOf(b, '.')
    case None =>
      assert forall k :: 0 <= k < |b| ==> b[k] in b;
    case Some(i) =>
      if i != 0 && b != ".." {
        assert b[i..] != "";
      }
  }
}
