/** Every success the worker sends passes the client's check, and fits the frame it is sent in. */
module Acceptance {
  import opened Paths
  import opened World
  import opened Protocol
  import opened Engines
  import opened Scoping
  import opened Searching
  import opened SearchInvariants
  import opened Responses
  import Utf8

  /** A directory listing names each entry once, by slash-free names. */
  ghost predicate ProperListings(w: World) {
    forall t: nat, i: nat :: Distinct(w.listing(t, i)) && forall n :: n in w.listing(t, i) ==> SlashFree(n)
  }

  /** No listing repeats a name that the target's path spells. */
  ghost predicate ListsOnce(w: World, target: Path) {
    forall t: nat, i: nat :: OnceOnPath(w.listing(t, i), target)
  }

  predicate OnceOnPath(names: seq<Name>, target: Path) {
    && (forall n :: n in names ==> SlashFree(n))
    && forall a, b :: 0 <= a < b < |names| && names[a] == names[b] ==> names[a] !in Split(target)
  }

  /** The name of an entry on the target's path is one of the names that path spells. */
  lemma RelevantIsSpelled(prefix: Path, name: Name, target: Path)
    requires SlashFree(name) && Relevant(Child(prefix, name), target)
    ensures name in Split(target)
  {
    RelevantChildSpelled(prefix, name, target);
    var i := |Stem(prefix)|;
    assert prefix != [] ==> target[i - 1] == SLASH by {
      assert prefix != [] ==> Child(prefix, name)[i - 1] == SLASH;
    }
    forall m | i <= m < i + |name|
      ensures target[m] != SLASH
    {
      assert target[m] == target[i..i + |name|][m - i];
    }
    SplitHasSegment(target, 0, i, i + |name|);
  }

  function Target(j: Job): Path
    requires j.r.read.Some?
  {
    j.r.read.value.path
  }

  lemma FileReadsOnce(j: Job, s: State, fd: Ino, path: Path)
    requires JobOk(j) && j.r.read.Some?
    ensures |SearchFileAt(j, s, fd, path).state.matches| <= |s.matches| + 1
  {
    hide CaptureTwice, Validate;
  }

  lemma AdmitReadsNothing(j: Job, s: State, prefix: Path, name: Name)
    ensures match Admit(j, s, prefix, name)
            case Done(r) => r.state.matches == s.matches
            case Descend(t, _, path) => t.matches == s.matches && path == Child(prefix, name) && (j.r.read.Some? ==> Relevant(path, Target(j)))
            case Inspect(t, _, path) => t.matches == s.matches && path == Child(prefix, name) && (j.r.read.Some? ==> Relevant(path, Target(j)))
  {
    hide AllowsIn, ValidPath, ExcludedPath, Utf8.Valid, Relevant;
  }

  lemma IrrelevantEntry(j: Job, s: State, name: Name, prefix: Path, depth: nat)
    requires JobOk(j) && j.r.read.Some? && depth <= j.r.maxDepth
    requires !Relevant(Child(prefix, name), Target(j))
    ensures EntryAt(j, s, name, prefix, depth).state.matches == s.matches
  {
    hide Validate, Admit, Relevant;
    AdmitReadsNothing(j, s, prefix, name);
    assert Admit(j, s, prefix, name).Done?;
  }

  /** Entries off the target's path contribute nothing to a read. */
  lemma {:induction false} IrrelevantEntries(j: Job, s: State, names: seq<Name>, prefix: Path, depth: nat)
    requires JobOk(j) && j.r.read.Some? && depth <= j.r.maxDepth
    requires forall n :: n in names ==> !Relevant(Child(prefix, n), Target(j))
    ensures EntriesAt(j, s, names, prefix, depth).state.matches == s.matches
    decreases |names|
  {
    hide Validate, EntryAt, Relevant;
    if |names| > 0 {
      IrrelevantEntry(j, s, names[0], prefix, depth);
      var r := EntryAt(j, s, names[0], prefix, depth);
      if r.fault.None? {
        IrrelevantEntries(j, r.state, names[1..], prefix, depth);
      }
    }
  }

  lemma {:induction false} EntriesReadOnce(j: Job, s: State, names: seq<Name>, prefix: Path, depth: nat)
    requires JobOk(j) && j.r.read.Some? && depth <= j.r.maxDepth && ListsOnce(j.w, Target(j)) && OnceOnPath(names, Target(j))
    ensures |EntriesAt(j, s, names, prefix, depth).state.matches| <= |s.matches| + 1
    decreases j.r.maxDepth + 1 - depth, 0, |names| + 2
  {
    hide Validate, EntryAt, Relevant, ListsOnce;
    if |names| > 0 {
      var r := EntryAt(j, s, names[0], prefix, depth);
      if Relevant(Child(prefix, names[0]), Target(j)) {
        EntryReadsOnce(j, s, names[0], prefix, depth);
        forall n | n in names[1..]
          ensures !Relevant(Child(prefix, n), Target(j))
        {
          if Relevant(Child(prefix, n), Target(j)) {
            RelevantChildUnique(prefix, names[0], n, Target(j));
            RelevantIsSpelled(prefix, n, Target(j));
          }
        }
        if r.fault.None? {
          IrrelevantEntries(j, r.state, names[1..], prefix, depth);
        }
      } else {
        IrrelevantEntry(j, s, names[0], prefix, depth);
        if r.fault.None? {
          EntriesReadOnce(j, r.state, names[1..], prefix, depth);
        }
      }
    }
  }

  lemma {:induction false} EntryReadsOnce(j: Job, s: State, name: Name, prefix: Path, depth: nat)
    requires JobOk(j) && j.r.read.Some? && depth <= j.r.maxDepth && ListsOnce(j.w, Target(j))
    ensures |EntryAt(j, s, name, prefix, depth).state.matches| <= |s.matches| + 1
    decreases j.r.maxDepth + 1 - depth, 0, 1
  {
    hide Validate, Admit, Relevant, SearchFileAt, WalkAt;
    AdmitReadsNothing(j, s, prefix, name);
    match Admit(j, s, prefix, name)
    case Done(r) =>
    case Inspect(t, fd, path) => FileReadsOnce(j, t, fd, path);
    case Descend(t, fd, path) => WalkReadsOnce(j, t, fd, path, depth + 1);
  }

  /** A read meets its target at most once. */
  lemma {:induction false} WalkReadsOnce(j: Job, s: State, fd: Ino, prefix: Path, depth: nat)
    requires JobOk(j) && j.r.read.Some? && ListsOnce(j.w, Target(j))
    ensures |WalkAt(j, s, fd, prefix, depth).state.matches| <= |s.matches| + 1
    decreases if depth <= j.r.maxDepth then j.r.maxDepth + 1 - depth else 0, 1, 0
  {
    hide Validate, EnterAt, EntriesAt;
    if !j.w.expired(s.now) && depth <= j.r.maxDepth {
      var n := EnterAt(j.w, j.e, s.scope, s.now + 1, prefix);
      var t := s.(now := n.now + 1, scope := n.view);
      EntriesReadOnce(j, t, j.w.listing(n.now, fd), prefix, depth);
    }
  }

  lemma ReportedReadsOnce(j: Job, fd: Ino)
    requires JobOk(j) && j.r.read.Some? && ListsOnce(j.w, Target(j))
    ensures |Reported(j, fd).matches| <= 1
  {
    hide Validate, WalkAt;
    WalkReadsOnce(j, Initial(j.r), fd, [], 0);
  }

  /** Serialized hits and separators stay inside what the accounting reserved. */
  lemma HitsFit(j: Job, s: State)
    requires Substantiated(j, s) && (j.r.read.Some? ==> |s.matches| <= 1)
    ensures ENVELOPE_RESERVE + HitsBytes(j.e, s.matches) + Separators(|s.matches|) <= j.r.responseBytes
  {
    hide HitAccepted, Vouched;
    HitsWithinWeight(j.e, s.matches);
    if j.r.read.Some? && |s.matches| == 1 {
      assert s.matches[..0] == [];
      assert HitsBytes(j.e, s.matches) == j.e.hitSize(s.matches[0]);
    }
  }

  /** In any file system, what can fail of the client's check is the number of matches and the size: nothing else. */
  lemma SuccessPassesIff(j: Job, fd: Ino, size: nat)
    requires Sound(j.e) && SearchAt(j, fd).Ok?
    ensures var s := SearchAt(j, fd).value;
            SuccessAccepted(j.r, s, size) <==> |s.matches| <= j.r.maxMatches && size <= j.r.responseBytes
    ensures j.r.read.None? ==> |SearchAt(j, fd).value.matches| <= j.r.maxMatches
  {
    hide HitAccepted, Vouched, WalkAt, Conclude, ScopeAcceptable, Reported;
    SearchReports(j, fd);
    ConcludeTruth(j, Reported(j, fd));
    FewCodes(SearchAt(j, fd).value.reasons);
  }

  /**
   For every request and every file system, a success passes the client's whole check at its serialized
   size, so neither the worker's frame cap nor the client's byte check can reject it.
   */
  lemma SuccessPassesClient(j: Job, fd: Ino, elapsed: nat)
    requires Sound(j.e) && SearchAt(j, fd).Ok? && elapsed <= ELAPSED_WIDTH
    requires j.r.read.Some? ==> ListsOnce(j.w, Target(j))
    ensures var s := SearchAt(j, fd).value;
            && SuccessAccepted(j.r, s, SuccessBytes(j.e, s, elapsed))
            && SuccessBytes(j.e, s, elapsed) <= 1_048_576
  {
    hide HitAccepted, Vouched, WalkAt, Conclude, ScopeAcceptable, Reported, EnvelopeBytes, HitsBytes;
    SearchReports(j, fd);
    ConcludeTruth(j, Reported(j, fd));
    var s := SearchAt(j, fd).value;
    FewCodes(s.reasons);
    EnvelopeFits(j.r, s, elapsed);
    if j.r.read.Some? {
      ReportedReadsOnce(j, fd);
    }
    HitsFit(j, Reported(j, fd));
  }
}
