/**
 Relative paths as byte text: how the walk builds and splits them, the worker's
 acceptance test, and the public schema's regular expression.
 */
module Paths {
  import opened Basics
  import Utf8

  type Path = bytes
  type Name = bytes

  const SLASH: byte := 0x2F
  const DOT: byte := 0x2E
  const GITIGNORE: Name := [0x2E, 0x67, 0x69, 0x74, 0x69, 0x67, 0x6E, 0x6F, 0x72, 0x65]
  const IGNORE: Name := [0x2E, 0x69, 0x67, 0x6E, 0x6F, 0x72, 0x65]
  const GIT_DIRECTORY: Name := [0x2E, 0x67, 0x69, 0x74]
  const INDEX_DIRECTORY: Name := [0x2E, 0x6A, 0x65, 0x76, 0x2D, 0x67, 0x72, 0x65, 0x70]

  predicate SlashFree(n: Name) { SLASH !in n }
  predicate IsDots(n: Name) { n == [DOT] || n == [DOT, DOT] }

  function Child(prefix: Path, name: Name): Path {
    if prefix == [] then name else prefix + [SLASH] + name
  }

  /** The text before the last slash, or the empty text when there is none. */
  function Parent(path: Path): (p: Path)
    ensures |p| < |path| || path == [] == p
    decreases |path|
  {
    if path == [] then []
    else if path[|path| - 1] == SLASH then path[..|path| - 1]
    else Parent(path[..|path| - 1])
  }

  lemma {:induction false} ParentOfSuffixed(stem: Path, name: Name)
    requires SlashFree(name)
    ensures Parent(stem + name) == if name == [] then Parent(stem) else Parent(stem + name[..|name| - 1])
  {
    if name != [] {
      assert (stem + name)[..|stem + name| - 1] == stem + name[..|name| - 1];
    } else {
      assert stem + name == stem;
    }
  }

  lemma {:induction false} ParentStripsName(stem: Path, name: Name)
    requires SlashFree(name)
    ensures Parent(stem + name) == Parent(stem)
    decreases |name|
  {
    ParentOfSuffixed(stem, name);
    if name != [] {
      ParentStripsName(stem, name[..|name| - 1]);
    }
  }

  /** Splitting at the last slash undoes joining. */
  lemma ParentOfChild(prefix: Path, name: Name)
    requires SlashFree(name)
    ensures Parent(Child(prefix, name)) == prefix
  {
    if prefix == [] {
      ParentStripsName([], name);
      assert [] + name == name;
    } else {
      var stem := prefix + [SLASH];
      ParentStripsName(stem, name);
      assert stem[..|stem| - 1] == prefix;
    }
  }

  function NextSlash(path: Path, i: nat): (k: nat)
    requires i <= |path|
    ensures i <= k <= |path|
    ensures k < |path| ==> path[k] == SLASH
    ensures forall m :: i <= m < k ==> path[m] != SLASH
    decreases |path| - i
  {
    if i == |path| || path[i] == SLASH then i else NextSlash(path, i + 1)
  }

  function SplitFrom(path: Path, i: nat): (segments: seq<Name>)
    requires i <= |path|
    decreases |path| - i
  {
    var k := NextSlash(path, i);
    if k == |path| then [path[i..k]] else [path[i..k]] + SplitFrom(path, k + 1)
  }

  function Split(path: Path): seq<Name> { SplitFrom(path, 0) }

  /** `path[i..j]` is a maximal slash-free stretch. */
  ghost predicate SegmentAt(path: Path, i: int, j: int) {
    && 0 <= i <= j <= |path|
    && (i == 0 || path[i - 1] == SLASH)
    && (j == |path| || path[j] == SLASH)
    && forall m :: i <= m < j ==> path[m] != SLASH
  }

  /** Splitting yields every maximal slash-free stretch and nothing else. */
  lemma {:induction false} SplitHasSegment(path: Path, from: nat, i: nat, j: nat)
    requires SegmentAt(path, i, j) && from <= i
    ensures path[i..j] in SplitFrom(path, from)
    decreases |path| - from
  {
    var k := NextSlash(path, from);
    if from < i {
      NextSlashBefore(path, from, i);
      SplitHasSegment(path, k + 1, i, j);
    } else {
      assert j == k;
      assert SplitFrom(path, from)[0] == path[i..j];
    }
  }

  lemma {:induction false} NextSlashBefore(path: Path, from: nat, i: nat)
    requires from < i <= |path| && path[i - 1] == SLASH
    ensures NextSlash(path, from) < i
    decreases i - from
  {
    if path[from] != SLASH {
      NextSlashBefore(path, from + 1, i);
    }
  }

  lemma {:induction false} SplitOnlySegments(path: Path, from: nat, s: Name) returns (i: nat, j: nat)
    requires from <= |path| && (from == 0 || path[from - 1] == SLASH)
    requires s in SplitFrom(path, from)
    ensures SegmentAt(path, i, j) && path[i..j] == s
    decreases |path| - from
  {
    var k := NextSlash(path, from);
    if s == path[from..k] {
      return from, k;
    }
    i, j := SplitOnlySegments(path, k + 1, s);
  }

  predicate Forbidden(b: byte) { b == 0x00 || b == 0x0D || b == 0x0A || b == 0x5C }

  predicate CleanBytes(path: Path) { forall i :: 0 <= i < |path| ==> !Forbidden(path[i]) }

  /** The worker's `valid_path`. */
  predicate ValidPath(path: Path) {
    && path != []
    && |path| <= 4096
    && CleanBytes(path)
    && forall s :: s in Split(path) ==> s != [] && !IsDots(s)
  }

  /** The walk's fixed exclusions: the index, the Git directory, and hidden names unless allowed. */
  predicate ExcludedPath(hidden: bool, path: Path) {
    exists s :: s in Split(path) && (s == INDEX_DIRECTORY || s == GIT_DIRECTORY || (!hidden && |s| > 0 && s[0] == DOT))
  }

  /** U+2028 or U+2029, which `.` in the schema's expression does not match. */
  predicate SeparatorAt(path: Path, i: nat) {
    i + 3 <= |path| && path[i] == 0xE2 && path[i + 1] == 0x80 && (path[i + 2] == 0xA8 || path[i + 2] == 0xA9)
  }

  predicate DotSegmentAt(path: Path, i: nat) {
    && (i == 0 || (i <= |path| && path[i - 1] == SLASH))
    && ( || (i + 1 <= |path| && path[i] == DOT && (i + 1 == |path| || path[i + 1] == SLASH))
         || (i + 2 <= |path| && path[i] == DOT && path[i + 1] == DOT && (i + 2 == |path| || path[i + 2] == SLASH)))
  }

  /** What `.*` can cross before the slash that precedes offset `i`. */
  predicate DotStarReaches(path: Path, i: nat) {
    forall k: nat :: k < i - 1 && k < |path| ==> path[k] != 0x0A && path[k] != 0x0D && !(k + 3 <= i - 1 && SeparatorAt(path, k))
  }

  predicate LookAheadTrips(path: Path) {
    exists i: nat :: i <= |path| && DotSegmentAt(path, i) && DotStarReaches(path, i)
  }

  /** An empty stretch between two slashes, or between a slash and an end. */
  predicate EmptySegmentAt(path: Path, i: nat) {
    i <= |path| && (i == 0 || path[i - 1] == SLASH) && (i == |path| || path[i] == SLASH)
  }

  /** `PathSchema`: 1 to 4096 UTF-16 units and the anchored expression with its two look-aheads. */
  predicate PathSchema(path: Path) {
    && 1 <= Utf8.Utf16Length(path) <= 4096
    && !LookAheadTrips(path)
    && CleanBytes(path)
    && forall i: nat :: i <= |path| ==> !EmptySegmentAt(path, i)
  }

  predicate NoDotSegment(path: Path) {
    forall i: nat :: i <= |path| ==> !DotSegmentAt(path, i)
  }

  lemma DotSegmentIsSplit(path: Path, i: nat) returns (s: Name)
    requires i <= |path| && DotSegmentAt(path, i)
    ensures s in Split(path) && IsDots(s)
  {
    if i + 1 <= |path| && path[i] == DOT && (i + 1 == |path| || path[i + 1] == SLASH) {
      s := [DOT];
      assert path[i..i + 1] == s;
      SplitHasSegment(path, 0, i, i + 1);
    } else {
      s := [DOT, DOT];
      assert path[i..i + 2] == s;
      SplitHasSegment(path, 0, i, i + 2);
    }
  }

  lemma EmptySegmentIsSplit(path: Path, i: nat)
    requires EmptySegmentAt(path, i)
    ensures [] in Split(path)
  {
    assert path[i..i] == [];
    SplitHasSegment(path, 0, i, i);
  }

  lemma ValidPathInSchema(path: Path)
    requires Utf8.Valid(path) && ValidPath(path)
    ensures PathSchema(path) && NoDotSegment(path)
  {
    Utf8.Utf16NotLonger(path);
    forall i: nat | i <= |path|
      ensures !EmptySegmentAt(path, i)
    {
      if EmptySegmentAt(path, i) {
        EmptySegmentIsSplit(path, i);
      }
    }
    forall i: nat | i <= |path|
      ensures !DotSegmentAt(path, i)
    {
      if DotSegmentAt(path, i) {
        var s := DotSegmentIsSplit(path, i);
      }
    }
  }

  lemma SchemaSegment(path: Path, s: Name)
    requires PathSchema(path) && NoDotSegment(path) && s in Split(path)
    ensures s != [] && !IsDots(s)
  {
    var i, j := SplitOnlySegments(path, 0, s);
    assert !EmptySegmentAt(path, i);
    assert |s| > 0 ==> s[0] == path[i];
    assert |s| > 1 ==> s[1] == path[i + 1];
    assert IsDots(s) ==> DotSegmentAt(path, i);
  }

  /** The two acceptance tests agree exactly where the schema's look-ahead sees every dot segment. */
  lemma ValidPathMeetsSchema(path: Path)
    requires Utf8.Valid(path)
    ensures ValidPath(path) <==> PathSchema(path) && NoDotSegment(path) && |path| <= 4096
  {
    if ValidPath(path) {
      ValidPathInSchema(path);
    }
    if PathSchema(path) && NoDotSegment(path) && |path| <= 4096 {
      forall s | s in Split(path)
        ensures s != [] && !IsDots(s)
      {
        SchemaSegment(path, s);
      }
    }
  }

  /** `path` is the target of a read or one of its ancestors. */
  predicate Relevant(path: Path, target: Path) {
    path == target || path + [SLASH] <= target
  }

  function Stem(prefix: Path): Path { if prefix == [] then [] else prefix + [SLASH] }

  /** A relevant child's name is what the target spells up to its next slash. */
  lemma RelevantChildSpelled(prefix: Path, a: Name, target: Path)
    requires Relevant(Child(prefix, a), target)
    ensures |Stem(prefix)| + |a| <= |target|
    ensures target[|Stem(prefix)|..|Stem(prefix)| + |a|] == a
    ensures |target| > |Stem(prefix)| + |a| ==> target[|Stem(prefix)| + |a|] == SLASH
  {
    var stem := Stem(prefix);
    assert Child(prefix, a) == stem + a;
    assert target[..|stem| + |a|] == stem + a;
    if Child(prefix, a) != target {
      assert target[|stem| + |a|] == (stem + a + [SLASH])[|stem| + |a|];
    }
  }

  /** Distinct entries of one directory cannot both lead to the same target. */
  lemma RelevantChildUnique(prefix: Path, a: Name, b: Name, target: Path)
    requires SlashFree(a) && SlashFree(b)
    requires Relevant(Child(prefix, a), target) && Relevant(Child(prefix, b), target)
    ensures a == b
  {
    RelevantChildSpelled(prefix, a, target);
    RelevantChildSpelled(prefix, b, target);
    var n := |Stem(prefix)|;
    assert forall k :: 0 <= k < |a| ==> target[n + k] == a[k];
    assert forall k :: 0 <= k < |b| ==> target[n + k] == b[k];
    assert |a| == |b|;
  }

  /** Everything below an entry that leads nowhere also leads nowhere. */
  lemma IrrelevantBelow(path: Path, name: Name, target: Path)
    requires path != []
    ensures Relevant(Child(path, name), target) ==> Relevant(path, target)
  {
    assert path + [SLASH] <= Child(path, name);
  }
}
