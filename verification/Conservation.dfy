/** Where every visited entry goes: searched, excluded, failed, or walked as a directory, in any file system. */
module Conservation {
  import opened Basics
  import opened Paths
  import opened World
  import opened Protocol
  import opened Engines
  import opened Scoping
  import opened Searching
  import opened SearchInvariants
  import opened Responses
  import Utf8

  /** Subdirectories a walk goes down into, apart from those reported as failures. */
  ghost function Walked(j: Job, s: State, fd: Ino, prefix: Path, depth: nat): nat
    requires JobOk(j)
    decreases if depth <= j.r.maxDepth then j.r.maxDepth + 1 - depth else 0, 1, 0
  {
    if j.w.expired(s.now) || depth > j.r.maxDepth then 0
    else
      var n := EnterAt(j.w, j.e, s.scope, s.now + 1, prefix);
      if n.fault.Some? || j.w.fails(n.now) then 0
      else WalkedBelow(j, s.(now := n.now + 1, scope := n.view), j.w.listing(n.now, fd), prefix, depth)
  }

  ghost function WalkedBelow(j: Job, s: State, names: seq<Name>, prefix: Path, depth: nat): nat
    requires JobOk(j) && depth <= j.r.maxDepth
    decreases j.r.maxDepth + 1 - depth, 0, |names| + 2
  {
    if |names| == 0 then 0
    else
      var r := EntryAt(j, s, names[0], prefix, depth);
      WalkedAt(j, s, names[0], prefix, depth) + if r.fault.Some? then 0 else WalkedBelow(j, r.state, names[1..], prefix, depth)
  }

  ghost function WalkedAt(j: Job, s: State, name: Name, prefix: Path, depth: nat): nat
    requires JobOk(j) && depth <= j.r.maxDepth
    decreases j.r.maxDepth + 1 - depth, 0, 1
  {
    match Admit(j, s, prefix, name)
    case Descend(t, fd, path) =>
      Walked(j, t, fd, path, depth + 1) + if WalkAt(j, t, fd, path, depth + 1).fault == Some(ReadFailed) then 0 else 1
    case _ => 0
  }

  /** Entries visited and accounted for by `r`, of which `walked` as directories; a deadline may leave one file uncounted. */
  ghost predicate Conserved(s: State, r: Step, walked: int) {
    Slack(r.state) == Slack(s) + walked || (r.fault == Some(Deadline) && Slack(r.state) == Slack(s) + walked + 1)
  }

  lemma {:induction false} CollectCounts(j: Job, s: State, path: Path, digest: bytes, content: bytes, found: seq<Match>, ok: bool)
    requires forall m :: m in found ==> m.start <= m.end <= |content|
    ensures var r := Collect(j, s, path, digest, content, found, ok);
            r.state.counts == s.counts && r.fault != Some(ReadFailed)
    decreases |found|
  {
    hide HitOf, Phantom, Utf8.IsCharBoundary;
    if |found| > 0 {
      var m := found[0];
      var t := s.(now := s.now + 1);
      if Phantom(content, m) {
        CollectCounts(j, t, path, digest, content, found[1..], ok);
      } else if Utf8.IsCharBoundary(content, m.start) && Utf8.IsCharBoundary(content, m.end) {
        CollectCounts(j, Push(j, t, HitOf(path, digest, content, m)), path, digest, content, found[1..], ok);
      }
    }
  }

  lemma FileConserved(j: Job, s: State, fd: Ino, path: Path)
    requires JobOk(j) && j.r.read.None?
    ensures Conserved(s, SearchFileAt(j, s, fd, path), -1) && SearchFileAt(j, s, fd, path).fault != Some(ReadFailed)
  {
    hide CaptureTwice, Validate, Collect, Digest;
    var c := CaptureTwice(j, s.now, fd, path);
    if c.outcome.Ok? && c.outcome.value.Some? {
      var content := c.outcome.value.value;
      var t := Searched(s.(now := c.now + 1), content);
      CollectCounts(j, t, path, Digest(j.e, content), content, j.e.find(j.r, content).found, j.e.find(j.r, content).ok);
    }
  }

  /** An admitted entry is visited and still to be accounted for; any other is settled. */
  lemma AdmitConserved(j: Job, s: State, prefix: Path, name: Name)
    requires j.r.read.None?
    ensures match Admit(j, s, prefix, name)
            case Done(r) => Slack(r.state) == Slack(s)
            case Descend(t, _, _) => Slack(t) == Slack(s) + 1
            case Inspect(t, _, _) => Slack(t) == Slack(s) + 1
  {
    hide AllowsIn, ValidPath, ExcludedPath, Utf8.Valid, IsDots, Child, AnchorAt;
  }

  lemma {:induction false} WalkConserves(j: Job, s: State, fd: Ino, prefix: Path, depth: nat)
    requires JobOk(j) && j.r.read.None?
    ensures Conserved(s, WalkAt(j, s, fd, prefix, depth), Walked(j, s, fd, prefix, depth))
    decreases if depth <= j.r.maxDepth then j.r.maxDepth + 1 - depth else 0, 1, 0
  {
    hide Validate, EnterAt, EntriesAt, WalkedBelow;
    if !j.w.expired(s.now) && depth <= j.r.maxDepth {
      var n := EnterAt(j.w, j.e, s.scope, s.now + 1, prefix);
      if n.fault.None? && !j.w.fails(n.now) {
        EntriesConserve(j, s.(now := n.now + 1, scope := n.view), j.w.listing(n.now, fd), prefix, depth);
      }
    }
  }

  lemma {:induction false} EntriesConserve(j: Job, s: State, names: seq<Name>, prefix: Path, depth: nat)
    requires JobOk(j) && j.r.read.None? && depth <= j.r.maxDepth
    ensures Conserved(s, EntriesAt(j, s, names, prefix, depth), WalkedBelow(j, s, names, prefix, depth))
    decreases j.r.maxDepth + 1 - depth, 0, |names| + 2
  {
    hide Validate, EntryAt, WalkedAt;
    if |names| > 0 {
      EntryConserves(j, s, names[0], prefix, depth);
      var r := EntryAt(j, s, names[0], prefix, depth);
      if r.fault.None? {
        EntriesConserve(j, r.state, names[1..], prefix, depth);
      }
    }
  }

  lemma {:induction false} EntryConserves(j: Job, s: State, name: Name, prefix: Path, depth: nat)
    requires JobOk(j) && j.r.read.None? && depth <= j.r.maxDepth
    ensures Conserved(s, EntryAt(j, s, name, prefix, depth), WalkedAt(j, s, name, prefix, depth))
    decreases j.r.maxDepth + 1 - depth, 0, 1
  {
    hide Validate, Admit, SearchFileAt, WalkAt, Walked;
    AdmitConserved(j, s, prefix, name);
    match Admit(j, s, prefix, name)
    case Done(r) =>
    case Inspect(t, fd, path) => FileConserved(j, t, fd, path);
    case Descend(t, fd, path) => WalkConserves(j, t, fd, path, depth + 1);
  }

  /**
   In any file system, every entry a search visits is searched, excluded, a failure, or a directory walked: exactly,
   but for one file that a deadline may interrupt, and a failure of the root itself, which no entry stands for.
   A complete search therefore visited what it searched, what it excluded, and the subdirectories it walked.
   */
  lemma EveryVisitAccounted(j: Job, fd: Ino)
    requires Sound(j.e) && j.r.read.None? && SearchAt(j, fd).Ok?
    ensures Validate(j.r).None?
    ensures var c := SearchAt(j, fd).value.counts;
            if j.r.validateScopeOnly then c == Counts(0, 0, 0, 0, 0)
            else
              var walked := Walked(j, Initial(j.r), fd, [], 0);
              var fault := WalkAt(j, Initial(j.r), fd, [], 0).fault;
              var sum := c.searched + c.excluded + c.failed + walked - if fault == Some(ReadFailed) then 1 else 0;
              && (c.visited == sum || (c.visited == sum + 1 && fault == Some(Deadline)))
              && (SearchAt(j, fd).value.complete ==> c.visited == c.searched + c.excluded + walked)
  {
    hide WalkAt, Walked, VerifyAt, Preimage, ScopeAcceptable, BoundsAcceptable, HitAccepted, Weight, Substantiated, Sound;
    SearchReports(j, fd);
    ConcludeTruth(j, Reported(j, fd));
    if !j.r.validateScopeOnly {
      InitialInv(j);
      WalkKeeps(j, Initial(j.r), fd, [], 0);
      WalkConserves(j, Initial(j.r), fd, [], 0);
    }
  }
}
