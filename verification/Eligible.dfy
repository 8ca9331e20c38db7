/** Which names and files a search may reach, told from the octets alone, and that it reaches exactly those. */
module Eligible {
  import opened Basics
  import opened Paths
  import opened World
  import opened Protocol
  import opened Engines
  import opened Searching
  import opened Scoping
  import opened Verdicts
  import Utf8

  // ---- Names ----------------------------------------------------------------------------------------------

  /** The Git directory's or the index's name, or one that begins with a dot where hidden names are not wanted. */
  predicate BarredName(hidden: bool, s: Name) {
    s == Octets(".git") || s == Octets(".jev-grep") || (!hidden && |s| > 0 && s[0] == '.' as int)
  }

  ghost predicate Barred(hidden: bool, path: Path) { exists i, j :: SegmentAt(path, i, j) && BarredName(hidden, path[i..j]) }

  predicate OrdinaryName(s: Name) { |s| > 0 && s != Octets(".") && s != Octets("..") }

  /** At most 4096 octets, none of them NUL, CR, LF or a backslash; no segment is empty, `.` or `..`. */
  ghost predicate WellNamed(path: Path) {
    && |path| <= 4096
    && (forall i :: 0 <= i < |path| ==> path[i] != 0 && path[i] != 13 && path[i] != 10 && path[i] != '\\' as int)
    && (forall i, j :: SegmentAt(path, i, j) ==> OrdinaryName(path[i..j]))
  }

  lemma BarredNameExactly(hidden: bool, s: Name)
    ensures BarredName(hidden, s) <==> s == INDEX_DIRECTORY || s == GIT_DIRECTORY || (!hidden && |s| > 0 && s[0] == DOT)
  {
    assert GIT_DIRECTORY == Octets(".git") && INDEX_DIRECTORY == Octets(".jev-grep");
  }

  lemma BarredExactly(hidden: bool, path: Path)
    ensures ExcludedPath(hidden, path) <==> Barred(hidden, path)
  {
    hide BarredName;
    forall s
      ensures BarredName(hidden, s) <==> s == INDEX_DIRECTORY || s == GIT_DIRECTORY || (!hidden && |s| > 0 && s[0] == DOT)
    {
      BarredNameExactly(hidden, s);
    }
    if ExcludedPath(hidden, path) {
      var s :| s in Split(path) && BarredName(hidden, s);
      var i, j := SplitOnlySegments(path, 0, s);
    }
    forall i, j | SegmentAt(path, i, j) && BarredName(hidden, path[i..j])
      ensures ExcludedPath(hidden, path)
    {
      SplitHasSegment(path, 0, i, j);
      assert path[i..j] in Split(path);
    }
  }

  lemma WellNamedExactly(path: Path)
    ensures ValidPath(path) <==> WellNamed(path)
  {
    assert Octets(".") == [DOT] && Octets("..") == [DOT, DOT];
    if ValidPath(path) {
      forall i, j | SegmentAt(path, i, j)
        ensures OrdinaryName(path[i..j])
      {
        SplitHasSegment(path, 0, i, j);
        assert path[i..j] in Split(path);
      }
    }
    if WellNamed(path) {
      forall s | s in Split(path)
        ensures s != [] && !IsDots(s)
      {
        var i, j := SplitOnlySegments(path, 0, s);
      }
      if path == [] {
        assert SegmentAt(path, 0, 0);
      }
    }
  }

  // ---- In any file system -----------------------------------------------------------------------------------

  ghost predicate Reachable(hidden: bool, path: Path) { WellNamed(path) && !Barred(hidden, path) }

  lemma ReachableExactly(hidden: bool, path: Path)
    ensures Reachable(hidden, path) <==> ValidPath(path) && !ExcludedPath(hidden, path)
  {
    hide ValidPath, ExcludedPath, WellNamed, Barred;
    WellNamedExactly(path);
    BarredExactly(hidden, path);
  }

  ghost predicate AllReachable(hidden: bool, cs: seq<Consult>) { forall c :: c in cs ==> Reachable(hidden, c.path) }

  lemma {:induction false} WalkReaches(j: Job, s: State, fd: Ino, prefix: Path, depth: nat)
    requires JobOk(j)
    ensures AllReachable(j.r.scope.hidden, WalkConsults(j, s, fd, prefix, depth))
    decreases if depth <= j.r.maxDepth then j.r.maxDepth + 1 - depth else 0, 1, 0
  {
    hide Validate, EnterAt, EntriesConsults, Reachable;
    if !j.w.expired(s.now) && depth <= j.r.maxDepth {
      var n := EnterAt(j.w, j.e, s.scope, s.now + 1, prefix);
      if n.fault.None? && !j.w.fails(n.now) {
        EntriesReach(j, s.(now := n.now + 1, scope := n.view), j.w.listing(n.now, fd), prefix, depth);
      }
    }
  }

  lemma {:induction false} EntriesReach(j: Job, s: State, names: seq<Name>, prefix: Path, depth: nat)
    requires JobOk(j) && depth <= j.r.maxDepth
    ensures AllReachable(j.r.scope.hidden, EntriesConsults(j, s, names, prefix, depth))
    decreases j.r.maxDepth + 1 - depth, 0, |names| + 2
  {
    hide Validate, EntryAt, EntryConsults, Reachable;
    if |names| > 0 {
      EntryReaches(j, s, names[0], prefix, depth);
      var r := EntryAt(j, s, names[0], prefix, depth);
      if r.fault.None? {
        EntriesReach(j, r.state, names[1..], prefix, depth);
      }
    }
  }

  lemma {:induction false} EntryReaches(j: Job, s: State, name: Name, prefix: Path, depth: nat)
    requires JobOk(j) && depth <= j.r.maxDepth
    ensures AllReachable(j.r.scope.hidden, EntryConsults(j, s, name, prefix, depth))
    decreases j.r.maxDepth + 1 - depth, 0, 1
  {
    hide Validate, Admit, WalkConsults, Reachable, AllowsIn, ValidPath, ExcludedPath;
    ReachableExactly(j.r.scope.hidden, Child(prefix, name));
    match Admit(j, s, prefix, name)
    case Descend(t, fd, path) => WalkReaches(j, t, fd, path, depth + 1);
    case _ =>
  }

  /**
   In any file system: the path of every file or directory that a walk judges, and so of all it walks or searches, and of
   every hit of every success, is well named; none of its segments is `.git` or `.jev-grep`, and none begins with a dot
   unless hidden names are wanted.
   */
  lemma NothingBarredIsReached(j: Job, fd: Ino)
    requires JobOk(j)
    ensures forall c :: c in WalkConsults(j, Initial(j.r), fd, [], 0) ==> Reachable(j.r.scope.hidden, c.path)
    ensures SearchAt(j, fd).Ok? ==> forall h :: h in SearchAt(j, fd).value.matches ==> Reachable(j.r.scope.hidden, h.path)
  {
    hide WalkAt, WalkConsults, VerifyAt, Preimage, ScopeAcceptable, BoundsAcceptable, Sound, Digest, AllowsIn, Reachable;
    WalkReaches(j, Initial(j.r), fd, [], 0);
    WalkApproves(j, Initial(j.r), fd, [], 0);
  }

  /**
   And nothing is passed over for its name but for that: an entry that comes up in time, below the entry limit and on the
   way to what is read, is classified when its name is UTF-8 and its path reachable, and is otherwise excluded.
   */
  lemma OnlyBarredIsPassedOver(j: Job, s: State, prefix: Path, name: Name)
    requires !j.w.expired(s.now) && !j.w.fails(s.now + 1) && name != Octets(".") && name != Octets("..")
    requires s.counts.visited != j.r.maxEntries
    ensures var path := Child(prefix, name);
            var u := s.(now := s.now + 2, counts := s.counts.(visited := s.counts.visited + 1));
            Admit(j, s, prefix, name)
              == if !Utf8.Valid(name) || !Reachable(j.r.scope.hidden, path) then
                   Done(Step(u.(counts := u.counts.(excluded := u.counts.excluded + 1)), None))
                 else if j.r.read.Some? && path != j.r.read.value.path && !(path + Octets("/") <= j.r.read.value.path) then Done(Step(u, None))
                 else Classify(j, u, path)
  {
    hide ValidPath, ExcludedPath, Reachable, Classify, Utf8.Valid, Octets, Child;
    ReachableExactly(j.r.scope.hidden, Child(prefix, name));
    DotsAndSlash();
  }

  lemma DotsAndSlash()
    ensures Octets(".") == [DOT] && Octets("..") == [DOT, DOT] && Octets("/") == [SLASH]
  {
  }
}
