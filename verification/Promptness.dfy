/** How soon a search that has run out of time ends, in any file system. */
module Promptness {
  import opened Basics
  import opened Paths
  import opened World
  import opened Protocol
  import opened Engines
  import opened Scoping
  import opened Searching
  import Capture
  import Utf8

  /** From operation number `T` on the deadline has passed. */
  ghost predicate PassedAt(w: World, T: nat) { forall t: nat :: t >= T ==> w.expired(t) }

  /** Work that ends without noticing goes at most `slack` operations past the deadline; noticing takes one more. */
  predicate Prompt(T: nat, start: nat, end: nat, late: bool, slack: nat) {
    var more := if late then 1 else 0;
    end <= start + more || end <= T + slack + more
  }

  lemma {:induction false} SlurpPrompt(w: World, now: nat, fd: Ino, limit: nat, got: bytes, T: nat)
    requires PassedAt(w, T) && |got| <= limit
    ensures var s := Capture.Slurp(w, now, fd, limit, got); Prompt(T, now, s.now, s.outcome == Err(Deadline), 1)
    decreases limit - |got|
  {
    if !w.expired(now) && !w.fails(now + 1) {
      var n := ReadCount(w, now + 1, fd, |got|, Min(Capture.CHUNK, limit + 1 - |got|));
      if n > 0 && |got| + n <= limit {
        SlurpPrompt(w, now + 2, fd, limit, got + w.inode(now + 1, fd).content[|got|..|got| + n], T);
      }
    }
  }

  lemma CapturePrompt(w: World, start: nat, fd: Ino, limit: nat, T: nat)
    requires PassedAt(w, T)
    ensures var c := Capture.CaptureAt(w, start, fd, limit); Prompt(T, start, c.now, c.outcome == Err(Deadline), 2)
  {
    hide Capture.Slurp, Capture.SameRevision, Capture.Textual;
    SlurpPrompt(w, start + 5, fd, limit, [], T);
  }

  lemma PolicyPrompt(w: World, now: nat, path: Path, T: nat)
    requires PassedAt(w, T)
    ensures var c := PolicyAt(w, now, path); Prompt(T, now, c.now, c.outcome == Err(Deadline), 2)
  {
    hide Capture.CaptureAt;
    if w.resolve(now + 1, path).Some? {
      CapturePrompt(w, now + 2, w.resolve(now + 1, path).value, POLICY_FILE_BYTES, T);
    }
  }

  lemma {:induction false} LinesPrompt(w: World, e: Engine, count: nat, now: nat, lines: seq<bytes>, T: nat)
    requires PassedAt(w, T)
    ensures var a := AddLines(w, e, count, now, lines); Prompt(T, now, a.now, a.fault == Some(Deadline), 0)
    decreases |lines|
  {
    if |lines| > 0 && !w.expired(now) && count + 1 <= POLICY_LINES && e.lineOk(lines[0]) {
      LinesPrompt(w, e, count + 1, now + 1, lines[1..], T);
    }
  }

  lemma LoadPrompt(w: World, e: Engine, s: View, now: nat, prefix: Path, name: Name, T: nat)
    requires PassedAt(w, T)
    ensures var l := LoadAt(w, e, s, now, prefix, name); Prompt(T, now, l.now, l.outcome == Err(Deadline), 2)
  {
    hide PolicyAt, AddLines, Observe, Child;
    var c := PolicyAt(w, now, Child(prefix, name));
    PolicyPrompt(w, now, Child(prefix, name), T);
    if c.outcome.Ok? {
      LinesPrompt(w, e, s.policyLines, c.now, if c.outcome.value.Some? then e.lines(c.outcome.value.value) else [], T);
    }
  }

  lemma EnterPrompt(w: World, e: Engine, s: View, now: nat, prefix: Path, T: nat)
    requires PassedAt(w, T)
    ensures var r := EnterAt(w, e, s, now, prefix); Prompt(T, now, r.now, r.fault == Some(Deadline), 2)
  {
    hide LoadAt;
    var one := LoadAt(w, e, s, now, prefix, GITIGNORE);
    LoadPrompt(w, e, s, now, prefix, GITIGNORE, T);
    LoadPrompt(w, e, one.view, one.now, prefix, IGNORE, T);
  }

  lemma TwicePrompt(j: Job, now: nat, fd: Ino, path: Path, T: nat)
    requires PassedAt(j.w, T)
    ensures var c := CaptureTwice(j, now, fd, path); Prompt(T, now, c.now, c.outcome == Err(Deadline), 3)
  {
    hide Capture.CaptureAt;
    var first := Capture.CaptureAt(j.w, now, fd, j.r.maxFileBytes);
    CapturePrompt(j.w, now, fd, j.r.maxFileBytes, T);
    var again := AnchorAt(j.w, first.now, path);
    if again.Ok? {
      CapturePrompt(j.w, first.now + 1, again.value, j.r.maxFileBytes, T);
    }
  }

  lemma {:induction false} CollectPrompt(j: Job, s: State, path: Path, digest: bytes, content: bytes, found: seq<Match>, ok: bool, T: nat)
    requires PassedAt(j.w, T) && forall m :: m in found ==> m.start <= m.end <= |content|
    ensures var r := Collect(j, s, path, digest, content, found, ok); Prompt(T, s.now, r.state.now, r.fault == Some(Deadline), 0)
    decreases |found|
  {
    hide HitOf, Phantom, Utf8.IsCharBoundary;
    if |found| > 0 {
      var m := found[0];
      var t := s.(now := s.now + 1);
      if Phantom(content, m) {
        CollectPrompt(j, t, path, digest, content, found[1..], ok, T);
      } else if !j.w.expired(s.now) && |s.matches| != j.r.maxMatches {
        if Utf8.IsCharBoundary(content, m.start) && Utf8.IsCharBoundary(content, m.end) {
          var h := HitOf(path, digest, content, m);
          CollectPrompt(j, t.(used := s.used + j.e.hitSize(h) + 1, matches := s.matches + [h]), path, digest, content, found[1..], ok, T);
        }
      }
    }
  }

  lemma ExaminePrompt(j: Job, s: State, path: Path, content: bytes, T: nat)
    requires JobOk(j) && PassedAt(j.w, T)
    ensures var r := Examine(j, s, path, content); Prompt(T, s.now, r.state.now, r.fault == Some(Deadline), 0)
  {
    hide Validate, Collect, Digest, ReadHit, Utf8.IsCharBoundary;
    var t := Searched(s.(now := s.now + 1), content);
    CollectPrompt(j, t, path, Digest(j.e, content), content, j.e.find(j.r, content).found, j.e.find(j.r, content).ok, T);
  }

  lemma FilePrompt(j: Job, s: State, fd: Ino, path: Path, T: nat)
    requires JobOk(j) && PassedAt(j.w, T)
    ensures var r := SearchFileAt(j, s, fd, path); Prompt(T, s.now, r.state.now, r.fault == Some(Deadline), 3)
  {
    hide CaptureTwice, Validate, Examine, Sound;
    var c := CaptureTwice(j, s.now, fd, path);
    TwicePrompt(j, s.now, fd, path, T);
    if c.outcome.Ok? && c.outcome.value.Some? {
      ExaminePrompt(j, s.(now := c.now), path, c.outcome.value.value, T);
    }
  }

  lemma AdmitPrompt(j: Job, s: State, prefix: Path, name: Name, T: nat)
    requires PassedAt(j.w, T)
    ensures match Admit(j, s, prefix, name)
            case Done(r) => Prompt(T, s.now, r.state.now, r.fault == Some(Deadline), 3)
            case Descend(t, _, _) => Prompt(T, s.now, t.now, false, 3)
            case Inspect(t, _, _) => Prompt(T, s.now, t.now, false, 3)
  {
    hide AllowsIn, ValidPath, ExcludedPath, Utf8.Valid, Relevant, Child;
  }

  lemma {:induction false} WalkPrompt(j: Job, s: State, fd: Ino, prefix: Path, depth: nat, T: nat)
    requires JobOk(j) && PassedAt(j.w, T)
    ensures var r := WalkAt(j, s, fd, prefix, depth); Prompt(T, s.now, r.state.now, r.fault == Some(Deadline), 3)
    decreases if depth <= j.r.maxDepth then j.r.maxDepth + 1 - depth else 0, 1, 0
  {
    hide Validate, EnterAt, EntriesAt, Sound;
    if !j.w.expired(s.now) && depth <= j.r.maxDepth {
      EnterPrompt(j.w, j.e, s.scope, s.now + 1, prefix, T);
      var n := EnterAt(j.w, j.e, s.scope, s.now + 1, prefix);
      if n.fault.None? && !j.w.fails(n.now) {
        EntriesPrompt(j, s.(now := n.now + 1, scope := n.view), j.w.listing(n.now, fd), prefix, depth, T);
      }
    }
  }

  lemma {:induction false} EntriesPrompt(j: Job, s: State, names: seq<Name>, prefix: Path, depth: nat, T: nat)
    requires JobOk(j) && PassedAt(j.w, T) && depth <= j.r.maxDepth
    ensures var r := EntriesAt(j, s, names, prefix, depth); Prompt(T, s.now, r.state.now, r.fault == Some(Deadline), 3)
    decreases j.r.maxDepth + 1 - depth, 0, |names| + 2
  {
    hide Validate, EntryAt, Sound;
    if |names| > 0 {
      EntryPrompt(j, s, names[0], prefix, depth, T);
      var r := EntryAt(j, s, names[0], prefix, depth);
      if r.fault.None? {
        EntriesPrompt(j, r.state, names[1..], prefix, depth, T);
      }
    }
  }

  lemma {:induction false} EntryPrompt(j: Job, s: State, name: Name, prefix: Path, depth: nat, T: nat)
    requires JobOk(j) && PassedAt(j.w, T) && depth <= j.r.maxDepth
    ensures var r := EntryAt(j, s, name, prefix, depth); Prompt(T, s.now, r.state.now, r.fault == Some(Deadline), 3)
    decreases j.r.maxDepth + 1 - depth, 0, 1
  {
    hide Validate, Admit, SearchFileAt, WalkAt, Sound;
    AdmitPrompt(j, s, prefix, name, T);
    match Admit(j, s, prefix, name)
    case Done(r) =>
    case Inspect(t, fd, path) => FilePrompt(j, t, fd, path, T);
    case Descend(t, fd, path) => WalkPrompt(j, t, fd, path, depth + 1, T);
  }

  lemma {:induction false} VerifyPrompt(w: World, os: seq<Observation>, now: nat, T: nat)
    requires PassedAt(w, T)
    ensures var v := VerifyAt(w, os, now); Prompt(T, now, v.now, v.fault == Some(Deadline), 2)
  {
    hide PolicyAt;
    if |os| > 0 {
      PolicyPrompt(w, now, os[0].path, T);
      VerifyPrompt(w, os[1..], PolicyAt(w, now, os[0].path).now, T);
    }
  }

  /** Out of time at once: no part of a search does anything more than notice. */
  lemma NothingAfterDeadline(j: Job, s: State, fd: Ino, prefix: Path, name: Name, content: bytes, depth: nat)
    requires JobOk(j) && depth <= j.r.maxDepth && j.w.expired(s.now)
    ensures WalkAt(j, s, fd, prefix, depth) == Step(s.(now := s.now + 1), Some(Deadline))
    ensures EntryAt(j, s, name, prefix, depth) == Step(s.(now := s.now + 1), Some(Deadline))
    ensures Examine(j, s, prefix, content) == Step(s.(now := s.now + 1), Some(Deadline))
    ensures Capture.CaptureAt(j.w, s.now, fd, j.r.maxFileBytes) == Capture.Captured(Err(Deadline), s.now + 1)
    ensures PolicyAt(j.w, s.now, prefix) == Capture.Captured(Err(Deadline), s.now + 1)
  {
    hide Validate, Sound, EnterAt, EntriesAt, Classify, Collect, Deliver;
  }

  /**
   In any file system: the walk is over within four operations of the deadline, however much is left to be walked, and so is
   the check of the ignore files that follows, within one more.
   */
  lemma SearchEndsPromptly(j: Job, fd: Ino, T: nat)
    requires JobOk(j) && !j.r.validateScopeOnly && PassedAt(j.w, T)
    ensures var walked := WalkAt(j, Initial(j.r), fd, [], 0);
            && walked.state.now <= T + 4
            && VerifyAt(j.w, walked.state.scope.observations, walked.state.now).now <= T + 5
  {
    hide Validate, WalkAt, VerifyAt, Sound;
    var walked := WalkAt(j, Initial(j.r), fd, [], 0);
    WalkPrompt(j, Initial(j.r), fd, [], 0, T);
    VerifyPrompt(j.w, walked.state.scope.observations, walked.state.now, T);
  }
}
