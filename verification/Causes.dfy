/** Why a search is partial or fails: every reason it gives, and every error it answers, has its cause in what happened. */
module Causes {
  import opened Basics
  import opened Paths
  import opened World
  import opened Protocol
  import opened Engines
  import opened Scoping
  import opened Searching
  import opened SearchInvariants
  import opened ScopeInvariants
  import Utf8
  import Capture

  // ---- Causes -------------------------------------------------------------------------------------------------

  ghost predicate Passed(w: World, now: nat) { exists t: nat :: t < now && w.expired(t) }

  ghost predicate Failing(w: World, now: nat) { exists t: nat :: t < now && w.fails(t) }

  /** A listed entry no longer resolved. */
  ghost predicate Vanished(w: World, now: nat) { exists t: nat, u: nat, i: Ino, p: Path, n: Name :: VanishedAt(w, now, t, u, i, p, n) }

  ghost predicate VanishedAt(w: World, now: nat, t: nat, u: nat, i: Ino, p: Path, n: Name) {
    u < t < now && n in w.listing(u, i) && w.resolve(t, Child(p, n)).None?
  }

  /** A file captured under this limit had changed meanwhile, or was no bounded text. */
  ghost predicate Changed(w: World, now: nat, limit: nat) {
    exists t: nat, i: Ino :: t < now && Capture.CaptureAt(w, t, i, limit).outcome == Err(SourceMutated)
  }

  ghost predicate Declined(w: World, now: nat, limit: nat) {
    exists t: nat, i: Ino :: t < now && Capture.CaptureAt(w, t, i, limit).outcome == Ok(None)
  }

  /** Some line is no rule, or some lines do not build. */
  ghost predicate Rejects(e: Engine) { (exists l :: !e.lineOk(l)) || exists p, ls :: !e.buildOk(p, ls) }

  /** A recorded ignore file was later read as something else. */
  ghost predicate Reread(w: World, now: nat, os: seq<Observation>) {
    exists t: nat, o :: t < now && o in os && PolicyAt(w, t, o.path).outcome.Ok? && PolicyAt(w, t, o.path).outcome != Ok(o.captured)
  }

  function Slashes(p: Path): nat { if p == [] then 0 else Slashes(p[..|p| - 1]) + if p[|p| - 1] == '/' as int then 1 else 0 }

  /** The bytes captured at some path on the way. */
  ghost predicate SawAt(j: Job, s: State, path: Path, content: bytes) { Seen(j, path, content, s.now) }

  /** What each code says has happened by then. */
  ghost predicate Because(j: Job, c: Code, s: State) {
    match c
    case Deadline => Passed(j.w, s.now)
    case ReadFailed => Failing(j.w, s.now) || Vanished(j.w, s.now) || Declined(j.w, s.now, 65_536) || Rejects(j.e)
    case SourceMutated => Changed(j.w, s.now, j.r.maxFileBytes)
    case PolicyChanged => Changed(j.w, s.now, 65_536) || Reread(j.w, s.now, s.scope.observations)
    case DepthLimit => exists t: nat, p :: t < s.now && j.w.resolve(t, p).Some? && Slashes(p) >= j.r.maxDepth
    case EntryLimit =>
      || s.counts.visited == j.r.maxEntries
      || s.scope.policyBytes > 1_048_576 || s.scope.policyLines > 4096 || |s.scope.observations| >= 4096
    case LimitReached => |s.matches| == j.r.maxMatches
    case ByteLimit => exists h :: s.used + j.e.hitSize(h) + 1 > j.r.responseBytes
    case RegexInvalid => exists p, content :: SawAt(j, s, p, content) && !j.e.find(j.r, content).ok
    case MatchEncoding => exists p, content, m :: SawAt(j, s, p, content) && m in j.e.find(j.r, content).found && Torn(content, m)
    case RevisionMismatch => exists p, content :: SawAt(j, s, p, content) && OtherRevision(j, p, content)
    case InvalidRequest => exists p, content :: SawAt(j, s, p, content) && OutsideText(j, p, content)
    case OutOfScope => false
  }

  /** An end of the match is inside a scalar. */
  predicate Torn(content: bytes, m: Match) { !Utf8.IsCharBoundary(content, m.start) || !Utf8.IsCharBoundary(content, m.end) }

  predicate OtherRevision(j: Job, p: Path, content: bytes) {
    && j.r.read.Some? && p == j.r.read.value.path
    && j.r.read.value.expectedFileSha256.Some? && j.r.read.value.expectedFileSha256.value != Digest(j.e, content)
  }

  predicate OutsideText(j: Job, p: Path, content: bytes) {
    && j.r.read.Some? && p == j.r.read.value.path
    && var range := j.r.read.value.range;
       range.end > |content| || !Utf8.IsCharBoundary(content, range.start) || !Utf8.IsCharBoundary(content, range.end)
  }

  /** The reasons given during a walk, which only the passage of time can cause. */
  ghost predicate Explained(j: Job, s: State) {
    forall c :: c in s.reasons ==> (c == ReadFailed || c == SourceMutated || c == DepthLimit) && Because(j, c, s)
  }

  ghost predicate Accounts(j: Job, r: Step) { Explained(j, r.state) && (r.fault.Some? ==> Because(j, r.fault.value, r.state)) }

  lemma BecauseLater(j: Job, c: Code, s: State, t: State)
    requires Because(j, c, s) && s.now <= t.now && (c == ReadFailed || c == SourceMutated || c == DepthLimit || c == Deadline)
    ensures Because(j, c, t)
  {
    hide Capture.CaptureAt, Slashes;
    if Vanished(j.w, s.now) {
      var a: nat, u: nat, i: Ino, p: Path, n: Name :| VanishedAt(j.w, s.now, a, u, i, p, n);
      assert VanishedAt(j.w, t.now, a, u, i, p, n);
    }
  }

  lemma ExplainedLater(j: Job, s: State, t: State)
    requires Explained(j, s) && s.now <= t.now && t.reasons == s.reasons
    ensures Explained(j, t)
  {
    hide Because;
    forall c | c in t.reasons
      ensures Because(j, c, t)
    {
      BecauseLater(j, c, s, t);
    }
  }

  lemma IssuedExplained(j: Job, s: State, code: Code)
    requires Explained(j, s) && Because(j, code, s) && (code == ReadFailed || code == SourceMutated || code == DepthLimit)
    ensures Explained(j, IssueIn(s, code)) && Explained(j, Fail(s, code))
  {
    hide Because;
    ExplainedLater(j, s, s.(complete := false));
    forall c | c in s.reasons || c == code
      ensures Because(j, c, IssueIn(s, code)) && Because(j, c, Fail(s, code))
    {
      BecauseLater(j, c, s, IssueIn(s, code));
      BecauseLater(j, c, s, Fail(s, code));
    }
  }

  // ---- Captures -----------------------------------------------------------------------------------------------

  lemma {:induction false} SlurpErrors(w: World, now: nat, fd: Ino, limit: nat, got: bytes)
    requires |got| <= limit
    ensures var s := Capture.Slurp(w, now, fd, limit, got);
            && (s.outcome == Err(Deadline) ==> Passed(w, s.now)) && (s.outcome == Err(ReadFailed) ==> Failing(w, s.now))
            && (s.outcome.Err? ==> s.outcome.error == Deadline || s.outcome.error == ReadFailed || s.outcome.error == SourceMutated)
    decreases limit - |got|
  {
    var n := ReadCount(w, now + 1, fd, |got|, Min(Capture.CHUNK, limit + 1 - |got|));
    if n > 0 && |got| + n <= limit {
      SlurpErrors(w, now + 2, fd, limit, got + w.inode(now + 1, fd).content[|got|..|got| + n]);
    }
  }

  lemma CaptureErrors(w: World, start: nat, fd: Ino, limit: nat)
    ensures var c := Capture.CaptureAt(w, start, fd, limit);
            && (c.outcome == Err(Deadline) ==> Passed(w, c.now)) && (c.outcome == Err(ReadFailed) ==> Failing(w, c.now))
            && (c.outcome.Err? ==> c.outcome.error == Deadline || c.outcome.error == ReadFailed || c.outcome.error == SourceMutated)
            && (c.outcome == Err(SourceMutated) ==> Changed(w, c.now, limit)) && (c.outcome == Ok(None) ==> Declined(w, c.now, limit))
  {
    SlurpErrors(w, start + 5, fd, limit, []);
    hide Capture.Slurp, Capture.Textual, Capture.SameRevision;
    var s := Capture.Slurp(w, start + 5, fd, limit, []);
    if w.fails(s.now) {
      assert Failing(w, s.now + 1);
    }
  }

  // ---- Ignore files -------------------------------------------------------------------------------------------

  lemma PolicyErrors(w: World, now: nat, path: Path)
    ensures var c := PolicyAt(w, now, path);
            c.outcome.Err? ==>
              || (c.outcome.error == Deadline && Passed(w, c.now))
              || (c.outcome.error == ReadFailed && (Failing(w, c.now) || Declined(w, c.now, 65_536)))
              || (c.outcome.error == PolicyChanged && Changed(w, c.now, 65_536))
  {
    hide Capture.CaptureAt;
    if w.resolve(now + 1, path).Some? {
      CaptureErrors(w, now + 2, w.resolve(now + 1, path).value, POLICY_FILE_BYTES);
    }
    hide Changed, Declined;
  }

  lemma {:induction false} LineErrors(w: World, e: Engine, count: nat, now: nat, lines: seq<bytes>)
    ensures var a := AddLines(w, e, count, now, lines);
            a.fault.Some? ==>
              || (a.fault.value == Deadline && Passed(w, a.now)) || (a.fault.value == EntryLimit && a.count > 4096)
              || (a.fault.value == ReadFailed && Rejects(e))
    decreases |lines|
  {
    if |lines| > 0 && !w.expired(now) && count + 1 <= 4096 && e.lineOk(lines[0]) {
      LineErrors(w, e, count + 1, now + 1, lines[1..]);
    }
  }

  /** What keeps a directory from being entered, at the state it leaves. */
  ghost predicate Barrier(w: World, e: Engine, code: Code, now: nat, v: View) {
    match code
    case Deadline => Passed(w, now)
    case ReadFailed => Failing(w, now) || Declined(w, now, 65_536) || Rejects(e)
    case PolicyChanged => Changed(w, now, 65_536)
    case EntryLimit => v.policyBytes > 1_048_576 || v.policyLines > 4096 || |v.observations| >= 4096
    case _ => false
  }

  lemma LoadErrors(w: World, e: Engine, s: View, now: nat, prefix: Path, name: Name)
    ensures var l := LoadAt(w, e, s, now, prefix, name); l.outcome.Err? ==> Barrier(w, e, l.outcome.error, l.now, l.view)
  {
    hide PolicyAt, AddLines, Child, Observe, Passed, Failing, Declined, Changed;
    var c := PolicyAt(w, now, Child(prefix, name));
    PolicyErrors(w, now, Child(prefix, name));
    if c.outcome.Ok? {
      LineErrors(w, e, s.policyLines, c.now, if c.outcome.value.Some? then e.lines(c.outcome.value.value) else []);
    }
  }

  lemma EnterErrors(w: World, e: Engine, s: View, now: nat, prefix: Path)
    ensures var n := EnterAt(w, e, s, now, prefix); n.fault.Some? ==> Barrier(w, e, n.fault.value, n.now, n.view)
  {
    hide LoadAt, Passed, Failing, Declined, Changed, Rejects;
    if s.input.respectIgnore {
      LoadErrors(w, e, s, now, prefix, GITIGNORE);
      var one := LoadAt(w, e, s, now, prefix, GITIGNORE);
      LoadErrors(w, e, one.view, one.now, prefix, IGNORE);
    }
  }

  lemma {:induction false} VerifyErrors(w: World, os: seq<Observation>, now: nat, all: seq<Observation>)
    requires forall o :: o in os ==> o in all
    ensures var v := VerifyAt(w, os, now);
            v.fault.Some? ==>
              || (v.fault.value == Deadline && Passed(w, v.now))
              || (v.fault.value == ReadFailed && (Failing(w, v.now) || Declined(w, v.now, 65_536)))
              || (v.fault.value == PolicyChanged && (Changed(w, v.now, 65_536) || Reread(w, v.now, all)))
    decreases |os|
  {
    hide PolicyAt, Passed, Failing, Declined, Changed;
    if |os| > 0 {
      PolicyErrors(w, now, os[0].path);
      var c := PolicyAt(w, now, os[0].path);
      if c.outcome.Ok? && c.outcome.value == os[0].captured {
        VerifyErrors(w, os[1..], c.now, all);
      }
    }
  }

  // ---- Files --------------------------------------------------------------------------------------------------

  lemma SawLater(j: Job, s: State, t: State, path: Path, content: bytes)
    requires SawAt(j, s, path, content) && s.now <= t.now
    ensures SawAt(j, t, path, content)
  {
    SeenLater(j, path, content, s.now, t.now);
  }

  lemma {:induction false} CollectAccounts(j: Job, s: State, path: Path, content: bytes, found: seq<Match>)
    requires Explained(j, s) && SawAt(j, s, path, content)
    requires forall m :: m in found ==> m.start <= m.end <= |content| && m in j.e.find(j.r, content).found
    ensures Accounts(j, Collect(j, s, path, Digest(j.e, content), content, found, j.e.find(j.r, content).ok))
    decreases |found|
  {
    hide HitOf, Phantom, Utf8.IsCharBoundary, Explained, SawAt, Digest;
    if |found| > 0 {
      var m := found[0];
      var t := s.(now := s.now + 1);
      ExplainedLater(j, s, t);
      SawLater(j, s, t, path, content);
      if Phantom(content, m) {
        CollectAccounts(j, t, path, content, found[1..]);
      } else if !Torn(content, m) && |s.matches| != j.r.maxMatches {
        var u := Push(j, t, HitOf(path, Digest(j.e, content), content, m));
        ExplainedLater(j, s, u);
        SawLater(j, s, u, path, content);
        CollectAccounts(j, u, path, content, found[1..]);
      }
    }
  }

  lemma ExamineAccounts(j: Job, s: State, path: Path, content: bytes)
    requires JobOk(j) && Explained(j, s) && SawAt(j, s, path, content) && (j.r.read.Some? ==> path == j.r.read.value.path)
    ensures Accounts(j, Examine(j, s, path, content))
  {
    hide Validate, Collect, Explained, SawAt, Digest, Utf8.IsCharBoundary;
    var t := Searched(s.(now := s.now + 1), content);
    ExplainedLater(j, s, s.(now := s.now + 1));
    ExplainedLater(j, s, t);
    SawLater(j, s, t, path, content);
    if !j.w.expired(s.now) {
      if j.r.read.Some? {
        DeliverAccounts(j, t, path, content);
      } else {
        CollectAccounts(j, t, path, content, j.e.find(j.r, content).found);
      }
    }
  }

  lemma DeliverAccounts(j: Job, s: State, path: Path, content: bytes)
    requires JobOk(j) && j.r.read.Some? && path == j.r.read.value.path && Explained(j, s) && SawAt(j, s, path, content)
    ensures j.r.read.value.range.start <= j.r.read.value.range.end
    ensures Accounts(j, Deliver(j, s, j.r.read.value, path, Digest(j.e, content), content))
  {
    hide BoundsAcceptable, ValidPath, DeclinedRegex, Explained, SawAt, Digest, Utf8.IsCharBoundary, ReadHit;
    var r := Deliver(j, s, j.r.read.value, path, Digest(j.e, content), content);
    ExplainedLater(j, s, r.state);
    SawLater(j, s, r.state, path, content);
  }

  /** The path was listed and has been resolved. */
  ghost predicate Listed(j: Job, path: Path, now: nat) {
    exists u: nat, i: Ino, p: Path, n: Name :: u < now && n in j.w.listing(u, i) && path == Child(p, n)
  }

  lemma AnchorVanished(j: Job, path: Path, now: nat)
    requires Listed(j, path, now) && AnchorAt(j.w, now, path).Err?
    ensures AnchorAt(j.w, now, path).error == ReadFailed && (Failing(j.w, now + 1) || Vanished(j.w, now + 1))
  {
    var u: nat, i: Ino, p: Path, n: Name :| u < now && n in j.w.listing(u, i) && path == Child(p, n);
    if !j.w.fails(now) {
      assert VanishedAt(j.w, now + 1, now, u, i, p, n);
    }
  }

  lemma CaptureTwiceErrors(j: Job, now: nat, fd: Ino, path: Path)
    requires Listed(j, path, now)
    ensures var c := CaptureTwice(j, now, fd, path);
            c.outcome.Err? ==>
              || (c.outcome.error == Deadline && Passed(j.w, c.now))
              || (c.outcome.error == ReadFailed && (Failing(j.w, c.now) || Vanished(j.w, c.now)))
              || (c.outcome.error == SourceMutated && Changed(j.w, c.now, j.r.maxFileBytes))
  {
    hide Capture.CaptureAt, AnchorAt, Vanished, Passed, Failing, Changed;
    CaptureErrors(j.w, now, fd, j.r.maxFileBytes);
    var first := Capture.CaptureAt(j.w, now, fd, j.r.maxFileBytes);
    if first.outcome == Err(SourceMutated) {
      var again := AnchorAt(j.w, first.now, path);
      ListedLater(j, path, now, first.now);
      if again.Err? {
        AnchorVanished(j, path, first.now);
      } else {
        CaptureErrors(j.w, first.now + 1, again.value, j.r.maxFileBytes);
      }
    }
  }

  lemma ListedLater(j: Job, path: Path, now: nat, later: nat)
    requires Listed(j, path, now) && now <= later
    ensures Listed(j, path, later)
  {
  }

  lemma FileAccounts(j: Job, s: State, fd: Ino, path: Path)
    requires JobOk(j) && Explained(j, s) && Listed(j, path, s.now) && Resolved(j, path, fd, s.now)
    ensures Accounts(j, SearchFileAt(j, s, fd, path))
  {
    hide Validate, CaptureTwice, Examine, Explained, Listed, Resolved, Passed, Failing, Vanished, Changed, Declined;
    CaptureTwiceErrors(j, s.now, fd, path);
    CaptureTwiceShape(j, s.now, fd, path);
    var c := CaptureTwice(j, s.now, fd, path);
    var t := s.(now := c.now);
    ExplainedLater(j, s, t);
    if c.outcome.Err? {
      if c.outcome.error != Deadline {
        IssuedExplained(j, t, c.outcome.error);
      }
    } else if c.outcome.value.None? {
      ExplainedLater(j, t, Exclude(t));
    } else if j.r.read.None? || j.r.read.value.path == path {
      ExamineAccounts(j, t, path, c.outcome.value.value);
    }
  }

  // ---- The walk -----------------------------------------------------------------------------------------------

  /** The directory lies as deep as its path has slashes, and has been resolved unless it is the root. */
  ghost predicate Deep(j: Job, prefix: Path, depth: nat, now: nat) {
    if depth == 0 then prefix == []
    else prefix != [] && Slashes(prefix) >= depth - 1 && exists t: nat :: t < now && j.w.resolve(t, prefix).Some?
  }

  lemma {:induction false} SlashesJoin(a: Path, b: Path)
    ensures Slashes(a + b) == Slashes(a) + Slashes(b)
    decreases |b|
  {
    if b == [] {
      assert a + b == a;
    } else {
      assert (a + b)[..|a + b| - 1] == a + b[..|b| - 1];
      SlashesJoin(a, b[..|b| - 1]);
    }
  }

  lemma SlashesOfChild(prefix: Path, name: Name)
    ensures Slashes(Child(prefix, name)) >= if prefix == [] then 0 else Slashes(prefix) + 1
  {
    if prefix != [] {
      SlashesJoin(prefix + [SLASH], name);
      SlashesJoin(prefix, [SLASH]);
      assert [SLASH][..0] == [];
    }
  }

  /** How an entry is dealt with, with its causes. */
  ghost predicate Dealt(j: Job, a: Admission, depth: nat) {
    match a
    case Done(r) => Accounts(j, r)
    case Descend(t, _, path) => Explained(j, t) && Deep(j, path, depth + 1, t.now)
    case Inspect(t, fd, path) => Explained(j, t) && Listed(j, path, t.now) && Resolved(j, path, fd, t.now)
  }

  lemma ClassifyAccounts(j: Job, s: State, path: Path, depth: nat)
    requires Explained(j, s) && Listed(j, path, s.now) && path != [] && Slashes(path) >= depth
    ensures Dealt(j, Classify(j, s, path), depth)
  {
    hide AllowsIn, Explained, Slashes, Passed, Failing, Vanished, Changed, Declined, Listed;
    var a := AnchorAt(j.w, s.now, path);
    ExplainedLater(j, s, s.(now := s.now + 1));
    ExplainedLater(j, s, s.(now := s.now + 2));
    ExplainedLater(j, s, Exclude(s.(now := s.now + 2)));
    ListedLater(j, path, s.now, s.now + 2);
    if a.Err? {
      AnchorVanished(j, path, s.now);
      IssuedExplained(j, s.(now := s.now + 1), a.error);
    } else if j.w.fails(s.now + 1) {
      FailedJustNow(j.w, s.now + 1);
      IssuedExplained(j, s.(now := s.now + 2), ReadFailed);
    } else {
      assert j.w.resolve(s.now, path).Some?;
    }
  }

  lemma FailedJustNow(w: World, now: nat)
    requires w.fails(now)
    ensures Failing(w, now + 1)
  {
  }

  lemma PassedJustNow(w: World, now: nat)
    requires w.expired(now)
    ensures Passed(w, now + 1)
  {
  }

  lemma AdmitAccounts(j: Job, s: State, prefix: Path, name: Name, depth: nat, u: nat, i: Ino)
    requires Explained(j, s) && Deep(j, prefix, depth, s.now) && u < s.now && name in j.w.listing(u, i)
    ensures Dealt(j, Admit(j, s, prefix, name), depth)
  {
    hide Explained, Classify, ValidPath, ExcludedPath, Utf8.Valid, Relevant, IsDots, Slashes, Passed, Failing;
    var path := Child(prefix, name);
    var t := s.(now := s.now + 2);
    ExplainedLater(j, s, s.(now := s.now + 1));
    ExplainedLater(j, s, t);
    ExplainedLater(j, s, Visit(t));
    ExplainedLater(j, s, Exclude(Visit(t)));
    SlashesOfChild(prefix, name);
    if j.w.expired(s.now) {
      PassedJustNow(j.w, s.now);
    } else if j.w.fails(s.now + 1) {
      FailedJustNow(j.w, s.now + 1);
    } else {
      assert Listed(j, path, s.now + 2);
      ChildLonger(prefix, name);
      hide Child;
      if ValidPath(path) {
        ClassifyAccounts(j, Visit(t), path, depth);
      }
    }
  }

  lemma EnterAccounts(j: Job, s: State, prefix: Path)
    requires Explained(j, s) && s.scope == s.scope
    ensures var n := EnterAt(j.w, j.e, s.scope, s.now, prefix);
            var t := s.(now := n.now, scope := n.view);
            Explained(j, t) && (n.fault.Some? ==> Accounts(j, Step(t, n.fault)))
  {
    hide EnterAt, Explained, Passed, Failing, Declined, Changed, Rejects;
    EnterErrors(j.w, j.e, s.scope, s.now, prefix);
    var n := EnterAt(j.w, j.e, s.scope, s.now, prefix);
    ExplainedLater(j, s, s.(now := n.now, scope := n.view));
  }

  lemma {:induction false} CollectTakesTime(j: Job, s: State, path: Path, digest: bytes, content: bytes, found: seq<Match>, ok: bool)
    requires forall m :: m in found ==> m.start <= m.end <= |content|
    ensures s.now <= Collect(j, s, path, digest, content, found, ok).state.now
    decreases |found|
  {
    hide HitOf, Phantom, Utf8.IsCharBoundary;
    if |found| > 0 {
      var m := found[0];
      var t := s.(now := s.now + 1);
      if Phantom(content, m) {
        CollectTakesTime(j, t, path, digest, content, found[1..], ok);
      } else if !Torn(content, m) {
        CollectTakesTime(j, Push(j, t, HitOf(path, digest, content, m)), path, digest, content, found[1..], ok);
      }
    }
  }

  lemma FileTakesTime(j: Job, s: State, fd: Ino, path: Path)
    requires JobOk(j)
    ensures s.now <= SearchFileAt(j, s, fd, path).state.now
  {
    hide CaptureTwice, Validate, Collect, Deliver, Digest;
    var c := CaptureTwice(j, s.now, fd, path);
    if c.outcome.Ok? && c.outcome.value.Some? {
      ExamineTakesTime(j, s.(now := c.now), path, c.outcome.value.value);
    }
  }

  lemma ExamineTakesTime(j: Job, s: State, path: Path, content: bytes)
    requires JobOk(j)
    ensures s.now <= Examine(j, s, path, content).state.now
  {
    hide Validate, Collect, Digest, ReadHit, Utf8.IsCharBoundary;
    var t := Searched(s.(now := s.now + 1), content);
    CollectTakesTime(j, t, path, Digest(j.e, content), content, j.e.find(j.r, content).found, j.e.find(j.r, content).ok);
  }

  lemma AdmitTakesTime(j: Job, s: State, prefix: Path, name: Name)
    ensures match Admit(j, s, prefix, name)
            case Done(r) => s.now <= r.state.now
            case Descend(t, _, _) => s.now <= t.now
            case Inspect(t, _, _) => s.now <= t.now
  {
    hide AllowsIn, ValidPath, ExcludedPath, Utf8.Valid, Relevant, Child, IsDots;
  }

  lemma {:induction false} WalkExplains(j: Job, s: State, fd: Ino, prefix: Path, depth: nat)
    requires JobOk(j) && Explained(j, s) && Deep(j, prefix, depth, s.now)
    ensures Accounts(j, WalkAt(j, s, fd, prefix, depth)) && s.now <= WalkAt(j, s, fd, prefix, depth).state.now
    decreases if depth <= j.r.maxDepth then j.r.maxDepth + 1 - depth else 0, 1, 0
  {
    hide Validate, EnterAt, EntriesAt, Explained, Passed, Failing, Slashes;
    var late := s.(now := s.now + 1);
    ExplainedLater(j, s, late);
    if j.w.expired(s.now) {
      PassedJustNow(j.w, s.now);
    } else if depth > j.r.maxDepth {
      IssuedExplained(j, late, DepthLimit);
    } else {
      EnterAccounts(j, late, prefix);
      var n := EnterAt(j.w, j.e, s.scope, s.now + 1, prefix);
      var t := s.(now := n.now, scope := n.view);
      if n.fault.None? {
        ExplainedLater(j, t, t.(now := n.now + 1));
        if j.w.fails(n.now) {
          FailedJustNow(j.w, n.now);
        } else {
          EntriesExplain(j, t.(now := n.now + 1), j.w.listing(n.now, fd), prefix, depth, n.now, fd);
        }
      }
    }
  }

  lemma {:induction false} EntriesExplain(j: Job, s: State, names: seq<Name>, prefix: Path, depth: nat, u: nat, i: Ino)
    requires JobOk(j) && depth <= j.r.maxDepth && Explained(j, s) && Deep(j, prefix, depth, s.now)
    requires u < s.now && forall n :: n in names ==> n in j.w.listing(u, i)
    ensures Accounts(j, EntriesAt(j, s, names, prefix, depth)) && s.now <= EntriesAt(j, s, names, prefix, depth).state.now
    decreases j.r.maxDepth + 1 - depth, 0, |names| + 2
  {
    hide Validate, EntryAt, Explained, Deep, Because;
    if |names| > 0 {
      EntryExplains(j, s, names[0], prefix, depth, u, i);
      var r := EntryAt(j, s, names[0], prefix, depth);
      if r.fault.None? {
        DeepLater(j, prefix, depth, s.now, r.state.now);
        EntriesExplain(j, r.state, names[1..], prefix, depth, u, i);
      }
    }
  }

  lemma DeepLater(j: Job, prefix: Path, depth: nat, now: nat, later: nat)
    requires Deep(j, prefix, depth, now) && now <= later
    ensures Deep(j, prefix, depth, later)
  {
  }

  lemma {:induction false} EntryExplains(j: Job, s: State, name: Name, prefix: Path, depth: nat, u: nat, i: Ino)
    requires JobOk(j) && depth <= j.r.maxDepth && Explained(j, s) && Deep(j, prefix, depth, s.now)
    requires u < s.now && name in j.w.listing(u, i)
    ensures Accounts(j, EntryAt(j, s, name, prefix, depth)) && s.now <= EntryAt(j, s, name, prefix, depth).state.now
    decreases j.r.maxDepth + 1 - depth, 0, 1
  {
    hide Validate, Admit, SearchFileAt, WalkAt, Explained, Deep, Because, Listed, Resolved;
    AdmitAccounts(j, s, prefix, name, depth, u, i);
    AdmitTakesTime(j, s, prefix, name);
    match Admit(j, s, prefix, name)
    case Done(r) =>
    case Inspect(t, fd, path) =>
      FileAccounts(j, t, fd, path);
      FileTakesTime(j, t, fd, path);
    case Descend(t, fd, path) =>
      WalkExplains(j, t, fd, path, depth + 1);
      var r := WalkAt(j, t, fd, path, depth + 1);
      if r.fault == Some(ReadFailed) {
        IssuedExplained(j, r.state, ReadFailed);
      }
  }

  // ---- Whole searches -----------------------------------------------------------------------------------------

  /** What a search says went wrong: what went into its answer, at the end of the search. */
  ghost predicate Explains(j: Job, fd: Ino, c: Code) { exists s: State :: Because(j, c, s) && InAnswer(j, fd, s) }

  /** The state holds the hits, counts and ignore records that the walk ended with. */
  ghost predicate InAnswer(j: Job, fd: Ino, s: State)
  {
    JobOk(j) &&
    var walked := if j.r.validateScopeOnly then Initial(j.r) else WalkAt(j, Initial(j.r), fd, [], 0).state;
    s.matches == walked.matches && s.used == walked.used && s.scope == walked.scope && s.counts.visited == walked.counts.visited
  }

  lemma WholeWalkExplains(j: Job, fd: Ino)
    requires JobOk(j)
    ensures Accounts(j, WalkAt(j, Initial(j.r), fd, [], 0))
  {
    hide WalkAt, Validate;
    WalkExplains(j, Initial(j.r), fd, [], 0);
  }

  /** In any file system: every reason of a success, and every error, has its cause. */
  lemma SearchExplains(j: Job, fd: Ino)
    requires Sound(j.e)
    ensures SearchAt(j, fd).Ok? ==> forall c :: c in SearchAt(j, fd).value.reasons ==> Explains(j, fd, c)
    ensures SearchAt(j, fd).Err? ==>
              || Validate(j.r) == Some(SearchAt(j, fd).error)
              || (SearchAt(j, fd).error == RegexInvalid && !j.e.patternOk(j.r))
              || (SearchAt(j, fd).error == InvalidRequest && !ScopeAcceptable(j.e, j.r.scope))
              || (SearchAt(j, fd).error == OutOfScope && j.r.read.Some?
                  && JobOk(j) && (j.r.validateScopeOnly || WalkAt(j, Initial(j.r), fd, [], 0).state.matches == []))
              || Explains(j, fd, SearchAt(j, fd).error)
  {
    hide WalkAt, Validate, ScopeAcceptable, VerifyAt, Because, Preimage, Digest, Explained;
    if Validate(j.r).None? && j.e.patternOk(j.r) && ScopeAcceptable(j.e, j.r.scope) {
      var walked := if j.r.validateScopeOnly then Step(Initial(j.r), None) else WalkAt(j, Initial(j.r), fd, [], 0);
      NothingYet(j);
      if !j.r.validateScopeOnly {
        WholeWalkExplains(j, fd);
      }
      if walked.fault.None? {
        ConcludeExplains(j, fd, walked.state);
      } else {
        assert InAnswer(j, fd, walked.state);
        AbsorbedExplains(j, fd, walked.state, walked.fault.value);
        ConcludeExplains(j, fd, Absorb(walked.state, walked.fault.value));
      }
    }
  }

  /** What is refused before anything is read, in this order; a request to validate its scope alone reads nothing at all. */
  lemma RefusedFirst(j: Job, fd: Ino)
    requires Sound(j.e)
    ensures Validate(j.r).Some? ==> SearchAt(j, fd) == Err(Validate(j.r).value)
    ensures Validate(j.r).None? && !j.e.patternOk(j.r) ==> SearchAt(j, fd) == Err(RegexInvalid)
    ensures Validate(j.r).None? && j.e.patternOk(j.r) && !ScopeAcceptable(j.e, j.r.scope) ==> SearchAt(j, fd) == Err(InvalidRequest)
    ensures Validate(j.r).None? && j.e.patternOk(j.r) && ScopeAcceptable(j.e, j.r.scope) && j.r.validateScopeOnly && j.r.read.None? ==>
              SearchAt(j, fd) == Ok(Success(j.r.id, true, [], [], Counts(0, 0, 0, 0, 0), Digest(j.e, Preimage([]))))
  {
    hide WalkAt, Validate, ScopeAcceptable, Preimage, Digest, Sound;
  }

  lemma NothingYet(j: Job)
    ensures Accounts(j, Step(Initial(j.r), None))
  {
  }

  ghost predicate AllExplain(j: Job, fd: Ino, cs: seq<Code>) { forall c :: c in cs ==> Explains(j, fd, c) }

  lemma AbsorbedExplains(j: Job, fd: Ino, s: State, fault: Code)
    requires Explained(j, s) && Because(j, fault, s) && InAnswer(j, fd, s)
    ensures AllExplain(j, fd, Absorb(s, fault).reasons) && InAnswer(j, fd, Absorb(s, fault))
    ensures AllExplain(j, fd, s.reasons)
  {
    hide Because, WalkAt, Validate;
    assert forall c :: c in s.reasons ==> Because(j, c, s);
  }

  lemma ConcludeExplains(j: Job, fd: Ino, s: State)
    requires InAnswer(j, fd, s) && (AllExplain(j, fd, s.reasons) || Explained(j, s))
    ensures match Conclude(j, s)
            case Ok(found) => AllExplain(j, fd, found.reasons)
            case Err(code) => Explains(j, fd, code) || (code == OutOfScope && j.r.read.Some? && s.matches == [])
  {
    hide WalkAt, Validate, Preimage, Digest, VerifyAt, Because;
    if Explained(j, s) {
      assert forall c :: c in s.reasons ==> Because(j, c, s);
    }
    var v := VerifyAt(j.w, s.scope.observations, s.now);
    if v.fault.Some? {
      VerifiedBecause(j, s);
      assert InAnswer(j, fd, s.(now := v.now));
    }
    HeadIsMember(s.reasons);
  }

  lemma VerifiedBecause(j: Job, s: State)
    requires VerifyAt(j.w, s.scope.observations, s.now).fault.Some?
    ensures var v := VerifyAt(j.w, s.scope.observations, s.now); Because(j, v.fault.value, s.(now := v.now))
  {
    hide VerifyAt, Passed, Failing, Declined, Changed, Reread;
    VerifyErrors(j.w, s.scope.observations, s.now, s.scope.observations);
  }

  // ---- What stops a search, and what does not -------------------------------------------------------------------

  /** The entry is counted as failed and the code given as a reason. */
  ghost predicate PassedOver(s: State, t: State, code: Code) {
    && t.counts == s.counts.(failed := s.counts.failed + 1) && !t.complete
    && t.reasons == (if code in s.reasons then s.reasons else s.reasons + [code])
    && t.matches == s.matches && t.used == s.used && t.scope == s.scope
  }

  /** An entry that cannot be resolved or inspected is passed over, and what is neither a file nor a directory is excluded. */
  lemma EntriesPassedOver(j: Job, s: State, path: Path)
    ensures var a := Classify(j, s, path);
            && (j.w.fails(s.now) || j.w.resolve(s.now, path).None? || j.w.fails(s.now + 1) ==>
                  a.Done? && a.step.fault.None? && PassedOver(s, a.step.state, ReadFailed))
            && (!j.w.fails(s.now) && j.w.resolve(s.now, path).Some? && !j.w.fails(s.now + 1) ==>
                  var kind := j.w.inode(s.now + 1, j.w.resolve(s.now, path).value).stat.kind;
                  if !AllowsIn(j.e, s.scope, path, kind == Directory) || kind == Special then
                    a == Done(Step(s.(now := s.now + 2, counts := s.counts.(excluded := s.counts.excluded + 1)), None))
                  else if kind == Directory then a == Descend(s.(now := s.now + 2), j.w.resolve(s.now, path).value, path)
                  else a == Inspect(s.(now := s.now + 2), j.w.resolve(s.now, path).value, path))
  {
    hide AllowsIn;
  }

  /** A directory that cannot be read is passed over with whatever it gave; any other fault inside it ends the walk. */
  lemma DirectoriesPassedOver(j: Job, s: State, name: Name, prefix: Path, depth: nat)
    requires JobOk(j) && depth <= j.r.maxDepth && Admit(j, s, prefix, name).Descend?
    ensures var a := Admit(j, s, prefix, name);
            var inside := WalkAt(j, a.state, a.fd, a.path, depth + 1);
            var r := EntryAt(j, s, name, prefix, depth);
            if inside.fault == Some(ReadFailed) then r.fault.None? && PassedOver(inside.state, r.state, ReadFailed) else r == inside
  {
    hide Validate, Admit, WalkAt;
  }

  /**
   A file is captured, and once more through what its path leads to by then if it changed meanwhile. Out of time, the walk
   ends; a file that cannot be captured is passed over, and one that is no admissible text is excluded.
   */
  lemma FilesPassedOver(j: Job, s: State, fd: Ino, path: Path)
    requires JobOk(j) && (j.r.read.Some? ==> j.r.read.value.path == path)
    ensures var first := Capture.CaptureAt(j.w, s.now, fd, j.r.maxFileBytes);
            var again := j.w.resolve(first.now, path);
            var c := if first.outcome != Err(SourceMutated) then first.outcome
                     else if j.w.fails(first.now) || again.None? then Err(ReadFailed)
                     else Capture.CaptureAt(j.w, first.now + 1, again.value, j.r.maxFileBytes).outcome;
            var r := SearchFileAt(j, s, fd, path);
            match c
            case Err(Deadline) => r.fault == Some(Deadline) && r.state == s.(now := r.state.now)
            case Err(code) => r.fault.None? && PassedOver(s, r.state, code)
            case Ok(None) => r == Step(s.(now := r.state.now, counts := s.counts.(excluded := s.counts.excluded + 1)), None)
            case Ok(Some(content)) =>
              r.fault != Some(ReadFailed) && r.fault != Some(SourceMutated)
              && (r.state.counts == s.counts
                  || r.state.counts == s.counts.(searched := s.counts.searched + 1, bytesRead := s.counts.bytesRead + |content|))
  {
    hide Capture.CaptureAt, Validate, Examine;
    var c := CaptureTwice(j, s.now, fd, path);
    if c.outcome.Ok? && c.outcome.value.Some? {
      ExaminedCounts(j, s.(now := c.now), path, c.outcome.value.value);
    }
  }

  lemma {:induction false} CollectedCounts(j: Job, s: State, path: Path, digest: bytes, content: bytes, found: seq<Match>, ok: bool)
    requires forall m :: m in found ==> m.start <= m.end <= |content|
    ensures var r := Collect(j, s, path, digest, content, found, ok);
            r.state.counts == s.counts && r.fault != Some(ReadFailed) && r.fault != Some(SourceMutated)
    decreases |found|
  {
    hide HitOf, Phantom, Utf8.IsCharBoundary;
    if |found| > 0 {
      var m := found[0];
      var t := s.(now := s.now + 1);
      if Phantom(content, m) {
        CollectedCounts(j, t, path, digest, content, found[1..], ok);
      } else if !Torn(content, m) {
        CollectedCounts(j, Push(j, t, HitOf(path, digest, content, m)), path, digest, content, found[1..], ok);
      }
    }
  }

  lemma ExaminedCounts(j: Job, s: State, path: Path, content: bytes)
    requires JobOk(j)
    ensures var r := Examine(j, s, path, content);
            && r.fault != Some(ReadFailed) && r.fault != Some(SourceMutated)
            && (r.state.counts == s.counts
                || r.state.counts == s.counts.(searched := s.counts.searched + 1, bytesRead := s.counts.bytesRead + |content|))
  {
    hide Validate, Collect, Digest, ReadHit, Utf8.IsCharBoundary;
    var t := Searched(s.(now := s.now + 1), content);
    CollectedCounts(j, t, path, Digest(j.e, content), content, j.e.find(j.r, content).found, j.e.find(j.r, content).ok);
  }

  /**
   A fault that ends the walk is the answer of a read, or when the matcher failed, or when time ran out before anything was
   found; otherwise it becomes a reason of a partial answer that keeps what was found.
   */
  lemma FaultsAnswered(j: Job, fd: Ino)
    requires JobOk(j) && j.e.patternOk(j.r) && ScopeAcceptable(j.e, j.r.scope) && !j.r.validateScopeOnly
    requires WalkAt(j, Initial(j.r), fd, [], 0).fault.Some?
    ensures var walked := WalkAt(j, Initial(j.r), fd, [], 0);
            var fault := walked.fault.value;
            if j.r.read.Some? || fault == RegexInvalid || fault == MatchEncoding || (fault == Deadline && walked.state.matches == []) then
              SearchAt(j, fd) == Err(fault)
            else
              && SearchAt(j, fd).Ok? && fault in SearchAt(j, fd).value.reasons && !SearchAt(j, fd).value.complete
              && SearchAt(j, fd).value.matches == walked.state.matches
              && SearchAt(j, fd).value.counts
                 == walked.state.counts.(failed := walked.state.counts.failed + if fault == ReadFailed || fault == SourceMutated then 1 else 0)
  {
    hide WalkAt, Validate, ScopeAcceptable, VerifyAt, Preimage, Digest;
  }

  /**
   After a walk that was not stopped, ignore files are verified, and what fails there is one more reason. A read with any
   reason fails with the first, and one that found nothing is out of scope; all else succeeds with what the walk left.
   */
  lemma WalksConcluded(j: Job, fd: Ino)
    requires JobOk(j) && j.e.patternOk(j.r) && ScopeAcceptable(j.e, j.r.scope) && !j.r.validateScopeOnly
    requires WalkAt(j, Initial(j.r), fd, [], 0).fault.None?
    ensures var s := WalkAt(j, Initial(j.r), fd, [], 0).state;
            var changed := VerifyAt(j.w, s.scope.observations, s.now).fault;
            var reasons := s.reasons + if changed.Some? && changed.value !in s.reasons then [changed.value] else [];
            if j.r.read.Some? && reasons != [] then SearchAt(j, fd) == Err(reasons[0])
            else if j.r.read.Some? && s.matches == [] then SearchAt(j, fd) == Err(OutOfScope)
            else
              SearchAt(j, fd) == Ok(Success(j.r.id, s.complete && changed.None?, reasons, s.matches, s.counts,
                                            Digest(j.e, Preimage(s.scope.observations))))
  {
    hide WalkAt, Validate, ScopeAcceptable, VerifyAt, Preimage, Digest;
    var s := WalkAt(j, Initial(j.r), fd, [], 0).state;
    assert s.reasons + [] == s.reasons;
  }
}
