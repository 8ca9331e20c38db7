/** What every step of a search keeps, in any file system, however writers and failures interfere. */
module SearchInvariants {
  import opened Basics
  import opened Paths
  import opened World
  import opened Protocol
  import opened Engines
  import opened Scoping
  import opened Searching
  import opened Evidence
  import Utf8
  import Capture

  /** Serialized bytes of a hit list, one separator after each. */
  function Weight(e: Engine, hits: seq<Hit>): nat {
    if |hits| == 0 then 0 else Weight(e, hits[..|hits| - 1]) + e.hitSize(hits[|hits| - 1]) + 1
  }

  predicate WalkReason(c: Code) { c == ReadFailed || c == SourceMutated || c == DepthLimit }

  /** Faults that can end a walk; the last two only in a read. */
  predicate WalkFault(r: Request, c: Code) {
    || c == Deadline || c == ReadFailed || c == PolicyChanged || c == EntryLimit
    || c == LimitReached || c == ByteLimit || c == RegexInvalid || c == MatchEncoding
    || (r.read.Some? && (c == RevisionMismatch || c == InvalidRequest))
  }

  function Slack(s: State): int { s.counts.visited - s.counts.searched - s.counts.excluded - s.counts.failed }

  ghost predicate Tallied(r: Request, s: State) {
    && s.counts.visited <= r.maxEntries
    && Slack(s) >= 0
    && s.counts.bytesRead <= s.counts.searched * r.maxFileBytes
  }

  /** Coverage is withheld exactly when a reason says why, and no failure goes unreported. */
  ghost predicate Candid(s: State) {
    && Distinct(s.reasons)
    && (s.complete <==> s.reasons == [])
    && (s.complete ==> s.counts.failed == 0)
    && (forall c :: c in s.reasons ==> WalkReason(c))
  }

  /** Before operation `end` of this search, the path was resolved and a capture of what it led to returned these bytes. */
  ghost predicate Seen(j: Job, path: Path, content: bytes, end: nat) {
    exists a: nat, t: nat, fd: Ino :: SeenAt(j, path, content, end, a, t, fd)
  }

  ghost predicate SeenAt(j: Job, path: Path, content: bytes, end: nat, a: nat, t: nat, fd: Ino) {
    && a < t && AnchorAt(j.w, a, path) == Ok(fd)
    && var c := Capture.CaptureAt(j.w, t, fd, j.r.maxFileBytes);
       c.outcome == Ok(Some(content)) && c.now <= end
  }

  /** The hit is a reported match, or the requested range, of these bytes. */
  predicate Answers(j: Job, h: Hit, content: bytes) {
    if j.r.read.Some? then
      && h.path == j.r.read.value.path && h.range == j.r.read.value.range
      && (j.r.read.value.expectedFileSha256.Some? ==> h.fileSha256 == j.r.read.value.expectedFileSha256.value)
    else exists m :: m in j.e.find(j.r, content).found && h.range == Range(m.start, m.end) && !Phantom(content, m)
  }

  ghost predicate Attested(j: Job, h: Hit, content: bytes, end: nat) {
    Seen(j, h.path, content, end) && Answers(j, h, content) && SourceAccepted(j.e, h, content) && WellCut(h) && ValidPath(h.path)
  }

  /** Evidence is about bytes captured at its path by then, and survives the evidence verifier on them. */
  ghost predicate Genuine(j: Job, h: Hit, end: nat) {
    exists content :: Attested(j, h, content, end)
  }

  ghost predicate Vouched(j: Job, h: Hit, end: nat) {
    HitAccepted(j.r, h) && Genuine(j, h, end)
  }

  ghost predicate Substantiated(j: Job, s: State) {
    && (forall h :: h in s.matches ==> Vouched(j, h, s.now))
    && ENVELOPE_RESERVE <= s.used <= j.r.responseBytes
    && (j.r.read.None? ==> |s.matches| <= j.r.maxMatches && s.used == ENVELOPE_RESERVE + Weight(j.e, s.matches))
    && (j.r.read.Some? ==> s.used == ENVELOPE_RESERVE && forall h :: h in s.matches ==> s.used + j.e.hitSize(h) + 1 <= j.r.responseBytes)
  }

  ghost predicate Inv(j: Job, s: State) {
    Tallied(j.r, s) && Candid(s) && Substantiated(j, s)
  }

  ghost predicate Kept(j: Job, s: State, r: Step, cost: int) {
    && Inv(j, r.state)
    && Slack(r.state) >= Slack(s) - cost
    && s.counts.visited <= r.state.counts.visited
    && (r.fault.Some? ==> WalkFault(j.r, r.fault.value))
  }

  lemma InitialInv(j: Job)
    requires JobOk(j)
    ensures Inv(j, Initial(j.r))
  {
  }

  /** Evidence stays good. */
  lemma VouchedLater(j: Job, h: Hit, end: nat, later: nat)
    requires Vouched(j, h, end) && end <= later
    ensures Vouched(j, h, later)
  {
    hide HitAccepted, Answers, SourceAccepted, WellCut, ValidPath, Capture.CaptureAt, AnchorAt;
    var content :| Attested(j, h, content, end);
    var a: nat, t: nat, fd: Ino :| SeenAt(j, h.path, content, end, a, t, fd);
    assert SeenAt(j, h.path, content, later, a, t, fd);
    assert Attested(j, h, content, later);
  }

  /** The invariant looks at neither the clock, as long as it does not run backwards, nor the scope. */
  lemma MoveKeeps(j: Job, s: State, t: State)
    requires Inv(j, s) && t == s.(now := t.now, scope := t.scope) && s.now <= t.now
    ensures Inv(j, t) && Slack(t) == Slack(s) >= 0
  {
    forall h | h in t.matches
      ensures Vouched(j, h, t.now)
    {
      VouchedLater(j, h, s.now, t.now);
    }
    hide Vouched;
  }

  lemma TickKeeps(j: Job, s: State, now: nat)
    requires Inv(j, s) && s.now <= now
    ensures Inv(j, s.(now := now)) && Slack(s.(now := now)) == Slack(s) >= 0
  {
    hide Inv, Slack;
    MoveKeeps(j, s, s.(now := now));
  }

  lemma VisitKeeps(j: Job, s: State)
    requires Inv(j, s) && s.counts.visited != j.r.maxEntries
    ensures Inv(j, Visit(s)) && Slack(Visit(s)) == Slack(s) + 1 && Visit(s).counts.visited == s.counts.visited + 1
  {
  }

  lemma ExcludeKeeps(j: Job, s: State)
    requires Inv(j, s) && Slack(s) >= 1
    ensures Inv(j, Exclude(s)) && Slack(Exclude(s)) == Slack(s) - 1 && Exclude(s).counts.visited == s.counts.visited
  {
  }

  lemma IssueKeeps(j: Job, s: State, code: Code)
    requires Inv(j, s) && WalkReason(code)
    ensures Inv(j, IssueIn(s, code)) && Slack(IssueIn(s, code)) == Slack(s) && IssueIn(s, code).counts == s.counts
  {
  }

  lemma FailKeeps(j: Job, s: State, code: Code)
    requires Inv(j, s) && Slack(s) >= 1 && WalkReason(code)
    ensures Inv(j, Fail(s, code)) && Slack(Fail(s, code)) == Slack(s) - 1 && Fail(s, code).counts.visited == s.counts.visited
  {
  }

  /** A match on captured text becomes evidence that the client and the evidence verifier accept. */
  lemma HitOfVouched(j: Job, path: Path, content: bytes, m: Match, last: nat)
    requires JobOk(j) && j.r.read.None? && Utf8.Valid(path) && ValidPath(path)
    requires Seen(j, path, content, last) && m in j.e.find(j.r, content).found && !Phantom(content, m)
    requires m.start <= m.end <= |content|
    requires Utf8.IsCharBoundary(content, m.start) && Utf8.IsCharBoundary(content, m.end)
    ensures Vouched(j, HitOf(path, Digest(j.e, content), content, m), last)
  {
    SeenShape(j, path, content, last);
    var top := Min(m.end, m.start + EXCERPT_BYTES);
    var end := Utf8.StepBack(content, top);
    StepBackNotBefore(content, top, m.start);
    Utf8.StepBackAtMostThree(content, top);
    var h := HitOf(path, Digest(j.e, content), content, m);
    hide Phantom;
    CutVouched(j, h, content, last);
  }

  /** A hit whose excerpt is cut from captured text at scalar boundaries. */
  lemma CutVouched(j: Job, h: Hit, content: bytes, last: nat)
    requires JobOk(j) && Utf8.Valid(h.path) && ValidPath(h.path)
    requires Seen(j, h.path, content, last) && h.fileSha256 == Digest(j.e, content) && Answers(j, h, content) && WellCut(h)
    requires h.range.start <= h.excerpt.range.end <= h.range.end <= |content|
    requires Utf8.IsCharBoundary(content, h.range.start) && Utf8.IsCharBoundary(content, h.range.end)
    requires Utf8.IsCharBoundary(content, h.excerpt.range.end)
    requires h.excerpt.text == content[h.range.start..h.excerpt.range.end] && |h.excerpt.text| <= EXCERPT_BYTES
    requires h.excerpt.truncated == (h.excerpt.range.end < h.range.end)
    ensures Vouched(j, h, last)
  {
    SeenShape(j, h.path, content, last);
    ValidPathInSchema(h.path);
    Utf8.SliceValid(content, h.range.start, h.excerpt.range.end);
    Utf8.Utf16NotLonger(h.excerpt.text);
    OffsetTestsAgree(content, h.range.start);
    OffsetTestsAgree(content, h.range.end);
    OffsetTestsAgree(content, h.excerpt.range.end);
    hide Utf8.Valid, Utf8.Utf16Length, PathSchema, Seen, Answers, WellCut, OffsetPasses, Utf8.IsCharBoundary,
      ValidPath, Digest, DigestText;
    DigestIsText(j.e, content);
    ValidPathShort(h.path);
    assert Attested(j, h, content, last);
  }

  lemma DigestIsText(e: Engine, content: bytes)
    requires Sound(e)
    ensures DigestText(Digest(e, content))
  {
  }

  lemma ValidPathShort(path: Path)
    requires ValidPath(path)
    ensures |path| <= 4096
  {
  }

  lemma SeenShape(j: Job, path: Path, content: bytes, last: nat)
    requires Seen(j, path, content, last)
    ensures |content| <= j.r.maxFileBytes && Capture.Textual(content)
  {
    hide Capture.CaptureAt, AnchorAt;
    var a: nat, t: nat, fd: Ino :| SeenAt(j, path, content, last, a, t, fd);
    Capture.CaptureShape(j.w, t, fd, j.r.maxFileBytes);
  }

  lemma WeightPush(e: Engine, hits: seq<Hit>, h: Hit)
    ensures Weight(e, hits + [h]) == Weight(e, hits) + e.hitSize(h) + 1
  {
    assert (hits + [h])[..|hits|] == hits;
  }

  function Push(j: Job, s: State, h: Hit): State {
    s.(used := s.used + j.e.hitSize(h) + 1, matches := s.matches + [h])
  }

  lemma PushKeeps(j: Job, s: State, h: Hit)
    requires Inv(j, s) && j.r.read.None? && Vouched(j, h, s.now)
    requires |s.matches| != j.r.maxMatches && s.used + j.e.hitSize(h) + 1 <= j.r.responseBytes
    ensures Inv(j, Push(j, s, h)) && Slack(Push(j, s, h)) == Slack(s)
  {
    hide Vouched;
    WeightPush(j.e, s.matches, h);
  }

  lemma {:induction false} CollectKeeps(j: Job, s: State, path: Path, content: bytes, found: seq<Match>, ok: bool)
    requires JobOk(j) && Inv(j, s) && j.r.read.None? && Utf8.Valid(path) && ValidPath(path) && Seen(j, path, content, s.now)
    requires forall m :: m in found ==> m in j.e.find(j.r, content).found && m.start <= m.end <= |content|
    ensures var r := Collect(j, s, path, Digest(j.e, content), content, found, ok);
            Kept(j, s, r, 0) && r.fault != Some(ReadFailed)
    decreases |found|
  {
    hide Inv, Vouched, ValidPath, Validate, Utf8.Valid, HitOf, Phantom, Utf8.IsCharBoundary, Seen;
    var t := s.(now := s.now + 1);
    TickKeeps(j, s, s.now + 1);
    SeenLater(j, path, content, s.now, s.now + 1);
    if |found| > 0 && !j.w.expired(s.now) {
      var m := found[0];
      if Phantom(content, m) {
        CollectKeeps(j, t, path, content, found[1..], ok);
      } else if Utf8.IsCharBoundary(content, m.start) && Utf8.IsCharBoundary(content, m.end) && |s.matches| != j.r.maxMatches {
        var h := HitOf(path, Digest(j.e, content), content, m);
        if s.used + j.e.hitSize(h) + 1 <= j.r.responseBytes {
          HitOfVouched(j, path, content, m, t.now);
          PushKeeps(j, t, h);
          CollectKeeps(j, Push(j, t, h), path, content, found[1..], ok);
        }
      }
    }
  }

  lemma DeliverKeeps(j: Job, s: State, path: Path, content: bytes)
    requires JobOk(j) && Inv(j, s) && j.r.read.Some? && path == j.r.read.value.path
    requires Utf8.Valid(path) && ValidPath(path) && Seen(j, path, content, s.now)
    ensures var r := Deliver(j, s, j.r.read.value, path, Digest(j.e, content), content);
            Kept(j, s, r, 0) && r.fault != Some(ReadFailed)
  {
    hide Vouched, Seen, Utf8.Valid, ValidPath, Digest, Utf8.IsCharBoundary;
    var range := j.r.read.value.range;
    var expected := j.r.read.value.expectedFileSha256;
    if (expected.None? || expected.value == Digest(j.e, content)) && range.end <= |content| && Utf8.IsCharBoundary(content, range.start) && Utf8.IsCharBoundary(content, range.end) {
      CutVouched(j, ReadHit(path, Digest(j.e, content), content, range), content, s.now);
    }
  }

  lemma ReadAllowance(searched: nat, bytesRead: nat, size: nat, limit: nat)
    requires bytesRead <= searched * limit && size <= limit
    ensures bytesRead + size <= (searched + 1) * limit
  {
  }

  lemma SearchedKeeps(j: Job, s: State, now: nat, content: bytes)
    requires Inv(j, s) && Slack(s) >= 1 && |content| <= j.r.maxFileBytes && s.now <= now
    ensures var t := Searched(s.(now := now), content);
            Inv(j, t) && Slack(t) == Slack(s) - 1 && t.counts.visited == s.counts.visited && t.now == now
  {
    TickKeeps(j, s, now);
    hide Vouched;
    ReadAllowance(s.counts.searched, s.counts.bytesRead, |content|, j.r.maxFileBytes);
  }

  lemma ExamineKeeps(j: Job, s: State, path: Path, content: bytes)
    requires JobOk(j) && Inv(j, s) && Slack(s) >= 1 && Utf8.Valid(path) && ValidPath(path)
    requires j.r.read.Some? ==> path == j.r.read.value.path
    requires Seen(j, path, content, s.now)
    ensures var r := Examine(j, s, path, content);
            Kept(j, s, r, 1) && r.fault != Some(ReadFailed)
  {
    hide Validate, Kept, Inv, Slack, ValidPath, Utf8.Valid, Collect, Deliver, Seen, Digest, Searched, Capture.Textual;
    if j.w.expired(s.now) {
      KeptTick(j, s, s.now + 1);
    } else {
      SeenShape(j, path, content, s.now);
      SeenLater(j, path, content, s.now, s.now + 1);
      SearchedKeeps(j, s, s.now + 1, content);
      ExaminedKeeps(j, s, Searched(s.(now := s.now + 1), content), path, content);
    }
  }

  lemma ExaminedKeeps(j: Job, s: State, t: State, path: Path, content: bytes)
    requires JobOk(j) && Inv(j, t) && Utf8.Valid(path) && ValidPath(path)
    requires t == Searched(s.(now := s.now + 1), content) && !j.w.expired(s.now)
    requires Slack(t) == Slack(s) - 1 && t.counts.visited == s.counts.visited
    requires j.r.read.Some? ==> path == j.r.read.value.path
    requires Seen(j, path, content, t.now)
    ensures var r := Examine(j, s, path, content);
            Kept(j, s, r, 1) && r.fault != Some(ReadFailed)
  {
    hide Validate, Kept, Inv, Slack, ValidPath, Utf8.Valid, Collect, Deliver, Seen, Digest, Searched;
    if j.r.read.Some? {
      DeliverKeeps(j, t, path, content);
    } else if content != [] {
      SearchKeeps(j, t, path, content);
    }
    hide Sound;
    KeptAfter(j, s, t, Examine(j, s, path, content));
  }

  lemma SearchKeeps(j: Job, t: State, path: Path, content: bytes)
    requires JobOk(j) && Inv(j, t) && j.r.read.None? && Utf8.Valid(path) && ValidPath(path) && Seen(j, path, content, t.now)
    ensures MatchesInRange(j.e, j.r, content)
    ensures var r := Collect(j, t, path, Digest(j.e, content), content, j.e.find(j.r, content).found, j.e.find(j.r, content).ok);
            Kept(j, t, r, 0) && r.fault != Some(ReadFailed)
  {
    hide Validate, Kept, Inv, ValidPath, Utf8.Valid, Collect, Seen, Digest;
    CollectKeeps(j, t, path, content, j.e.find(j.r, content).found, j.e.find(j.r, content).ok);
  }

  lemma KeptTick(j: Job, s: State, now: nat)
    requires Inv(j, s) && s.now <= now
    ensures Kept(j, s, Step(s.(now := now), Some(Deadline)), 1)
  {
    hide Inv, Slack;
    TickKeeps(j, s, now);
  }

  /** Searching a file spends the one visit it had. */
  lemma KeptAfter(j: Job, s: State, t: State, r: Step)
    requires Inv(j, t) && Slack(t) == Slack(s) - 1 && t.counts.visited == s.counts.visited
    requires r == Step(t, None) || Kept(j, t, r, 0)
    ensures Kept(j, s, r, 1)
  {
    hide Inv, Slack, WalkFault;
  }

  lemma SeenLater(j: Job, path: Path, content: bytes, end: nat, later: nat)
    requires Seen(j, path, content, end) && end <= later
    ensures Seen(j, path, content, later)
  {
    hide Capture.CaptureAt, AnchorAt;
    var a: nat, t: nat, fd: Ino :| SeenAt(j, path, content, end, a, t, fd);
    assert SeenAt(j, path, content, later, a, t, fd);
  }

  /** The path led to this inode at some operation before `now`. */
  ghost predicate Resolved(j: Job, path: Path, fd: Ino, now: nat) {
    exists a: nat :: a < now && AnchorAt(j.w, a, path) == Ok(fd)
  }

  /** What a capture returns, at once or after resolving the path again, is what the path led to. */
  lemma CaptureTwiceShape(j: Job, now: nat, fd: Ino, path: Path)
    requires Resolved(j, path, fd, now)
    ensures var c := CaptureTwice(j, now, fd, path);
            && (c.outcome.Err? ==> Capture.CaptureFault(c.outcome.error))
            && (c.outcome.Ok? && c.outcome.value.Some? ==> Seen(j, path, c.outcome.value.value, c.now))
  {
    hide Capture.CaptureAt, AnchorAt;
    var first := Capture.CaptureAt(j.w, now, fd, j.r.maxFileBytes);
    Capture.CaptureShape(j.w, now, fd, j.r.maxFileBytes);
    AnchorFault(j.w, first.now, path);
    var a: nat :| a < now && AnchorAt(j.w, a, path) == Ok(fd);
    if first.outcome.Ok? && first.outcome.value.Some? {
      assert SeenAt(j, path, first.outcome.value.value, first.now, a, now, fd);
    }
    var again := AnchorAt(j.w, first.now, path);
    if again.Ok? {
      Capture.CaptureShape(j.w, first.now + 1, again.value, j.r.maxFileBytes);
      var second := Capture.CaptureAt(j.w, first.now + 1, again.value, j.r.maxFileBytes);
      if second.outcome.Ok? && second.outcome.value.Some? {
        assert SeenAt(j, path, second.outcome.value.value, second.now, first.now, first.now + 1, again.value);
      }
    }
  }

  lemma AnchorFault(w: World, now: nat, path: Path)
    ensures AnchorAt(w, now, path).Err? ==> AnchorAt(w, now, path).error == ReadFailed
  {
  }

  lemma FileKeeps(j: Job, s: State, fd: Ino, path: Path)
    requires JobOk(j) && Inv(j, s) && Slack(s) >= 1 && Utf8.Valid(path) && ValidPath(path) && Resolved(j, path, fd, s.now)
    ensures var r := SearchFileAt(j, s, fd, path);
            Kept(j, s, r, 1) && r.fault != Some(ReadFailed)
  {
    hide Vouched, ValidPath, Utf8.Valid, Validate, Seen, CaptureTwice, Examine;
    CaptureTwiceShape(j, s.now, fd, path);
    var c := CaptureTwice(j, s.now, fd, path);
    var t := s.(now := c.now);
    TickKeeps(j, s, c.now);
    if c.outcome.Err? {
      if c.outcome.error != Deadline {
        FailKeeps(j, t, c.outcome.error);
      }
    } else if c.outcome.value.Some? && (j.r.read.Some? ==> path == j.r.read.value.path) {
      ExamineKeeps(j, t, path, c.outcome.value.value);
    }
  }

  ghost predicate Pending(j: Job, t: State, path: Path, slack: int, visited: nat) {
    Inv(j, t) && Slack(t) == slack + 1 && t.counts.visited == visited + 1 && Utf8.Valid(path) && ValidPath(path)
  }

  /** An admitted entry has been visited and not yet accounted for; `slack` and `visited` are from before the visit. */
  ghost predicate Admitted(j: Job, slack: int, visited: nat, a: Admission) {
    match a
    case Done(r) => Inv(j, r.state) && Slack(r.state) >= slack && visited <= r.state.counts.visited && (r.fault.Some? ==> WalkFault(j.r, r.fault.value))
    case Descend(t, _, path) => Pending(j, t, path, slack, visited)
    case Inspect(t, fd, path) => Pending(j, t, path, slack, visited) && Resolved(j, path, fd, t.now)
  }

  lemma ClassifyKeeps(j: Job, s: State, path: Path)
    requires Inv(j, s) && Slack(s) >= 1 && Utf8.Valid(path) && ValidPath(path) && s.counts.visited >= 1
    ensures Admitted(j, Slack(s) - 1, s.counts.visited - 1, Classify(j, s, path))
  {
    hide Inv, Slack, Fail, Exclude, ValidPath, Utf8.Valid, AllowsIn, AnchorAt;
    AnchorFault(j.w, s.now, path);
    assert s.now < s.now + 2;
    TickKeeps(j, s, s.now + 1);
    TickKeeps(j, s, s.now + 2);
    FailKeeps(j, s.(now := s.now + 1), ReadFailed);
    FailKeeps(j, s.(now := s.now + 2), ReadFailed);
    ExcludeKeeps(j, s.(now := s.now + 2));
  }

  lemma ChildValid(prefix: Path, name: Name)
    requires Utf8.Valid(prefix) && Utf8.Valid(name)
    ensures Utf8.Valid(Child(prefix, name))
  {
    assert Utf8.Valid([SLASH]);
    Utf8.AppendValid(prefix, [SLASH]);
    Utf8.AppendValid(prefix + [SLASH], name);
  }

  lemma AdmitKeeps(j: Job, s: State, prefix: Path, name: Name)
    requires Inv(j, s) && Utf8.Valid(prefix)
    ensures Admitted(j, Slack(s), s.counts.visited, Admit(j, s, prefix, name))
  {
    hide Inv, Slack, Visit, Exclude, ValidPath, ExcludedPath, Utf8.Valid, Classify, Relevant, IsDots, Child;
    var t := s.(now := s.now + 2);
    TickKeeps(j, s, s.now + 1);
    TickKeeps(j, s, s.now + 2);
    if s.counts.visited != j.r.maxEntries {
      var u := Visit(t);
      VisitKeeps(j, t);
      ExcludeKeeps(j, u);
      if Utf8.Valid(name) && ValidPath(Child(prefix, name)) {
        ChildValid(prefix, name);
        ClassifyKeeps(j, u, Child(prefix, name));
      }
    }
  }

  lemma SettleKeeps(j: Job, s: State, t: State, r: Step)
    requires Inv(j, s) && Slack(t) == Slack(s) + 1 && s.counts.visited <= t.counts.visited && Kept(j, t, r, 0)
    ensures Kept(j, s, Settle(r), 0)
  {
    if r.fault == Some(ReadFailed) {
      FailKeeps(j, r.state, ReadFailed);
    }
  }

  lemma EnterFaults(w: World, e: Engine, s: View, now: nat, prefix: Path)
    ensures var f := EnterAt(w, e, s, now, prefix).fault;
            f.Some? ==> f.value in {Deadline, ReadFailed, PolicyChanged, EntryLimit}
  {
    hide LoadAt;
    if s.input.respectIgnore {
      LoadFaults(w, e, s, now, prefix, GITIGNORE);
      var one := LoadAt(w, e, s, now, prefix, GITIGNORE);
      LoadFaults(w, e, one.view, one.now, prefix, IGNORE);
    }
  }

  lemma LoadFaults(w: World, e: Engine, s: View, now: nat, prefix: Path, name: Name)
    ensures var o := LoadAt(w, e, s, now, prefix, name).outcome;
            o.Err? ==> o.error in {Deadline, ReadFailed, PolicyChanged, EntryLimit}
  {
    var path := Child(prefix, name);
    PolicyFaults(w, now, path);
    hide PolicyAt;
    var c := PolicyAt(w, now, path);
    if c.outcome.Ok? && c.outcome.value.Some? {
      AddLinesFaults(w, e, s.policyLines, c.now, e.lines(c.outcome.value.value));
    }
  }

  lemma PolicyFaults(w: World, now: nat, path: Path)
    ensures var o := PolicyAt(w, now, path).outcome;
            o.Err? ==> o.error == Deadline || o.error == ReadFailed || o.error == PolicyChanged
  {
    hide Capture.CaptureAt;
    if w.resolve(now + 1, path).Some? {
      Capture.CaptureShape(w, now + 2, w.resolve(now + 1, path).value, POLICY_FILE_BYTES);
    }
  }

  lemma {:induction false} AddLinesFaults(w: World, e: Engine, count: nat, now: nat, lines: seq<bytes>)
    ensures var f := AddLines(w, e, count, now, lines).fault;
            f.Some? ==> f.value == Deadline || f.value == EntryLimit || f.value == ReadFailed
    decreases |lines|
  {
    if |lines| > 0 {
      AddLinesFaults(w, e, count + 1, now + 1, lines[1..]);
    }
  }

  /** Counting, candour and evidence survive a whole directory walk. */
  lemma {:induction false} WalkKeeps(j: Job, s: State, fd: Ino, prefix: Path, depth: nat)
    requires JobOk(j) && Inv(j, s) && Utf8.Valid(prefix)
    ensures Kept(j, s, WalkAt(j, s, fd, prefix, depth), 0)
    decreases if depth <= j.r.maxDepth then j.r.maxDepth + 1 - depth else 0, 1, 0
  {
    hide Inv, Slack, EnterAt, EntriesAt, Validate, Utf8.Valid;
    TickKeeps(j, s, s.now + 1);
    if !j.w.expired(s.now) {
      if depth > j.r.maxDepth {
        IssueKeeps(j, s.(now := s.now + 1), DepthLimit);
      } else {
        var n := EnterAt(j.w, j.e, s.scope, s.now + 1, prefix);
        EnterFaults(j.w, j.e, s.scope, s.now + 1, prefix);
        var t := s.(now := n.now, scope := n.view);
        MoveKeeps(j, s, t);
        MoveKeeps(j, s, t.(now := n.now + 1));
        if n.fault.None? && !j.w.fails(n.now) {
          EntriesKeep(j, t.(now := n.now + 1), j.w.listing(n.now, fd), prefix, depth);
        }
      }
    }
  }

  lemma {:induction false} EntriesKeep(j: Job, s: State, names: seq<Name>, prefix: Path, depth: nat)
    requires JobOk(j) && Inv(j, s) && Utf8.Valid(prefix) && depth <= j.r.maxDepth
    ensures Kept(j, s, EntriesAt(j, s, names, prefix, depth), 0)
    decreases j.r.maxDepth + 1 - depth, 0, |names| + 2
  {
    hide Inv, EntryAt, Validate, Utf8.Valid;
    if |names| > 0 {
      EntryKeeps(j, s, names[0], prefix, depth);
      var r := EntryAt(j, s, names[0], prefix, depth);
      if r.fault.None? {
        EntriesKeep(j, r.state, names[1..], prefix, depth);
      }
    }
  }

  lemma {:induction false} EntryKeeps(j: Job, s: State, name: Name, prefix: Path, depth: nat)
    requires JobOk(j) && Inv(j, s) && Utf8.Valid(prefix) && depth <= j.r.maxDepth
    ensures Kept(j, s, EntryAt(j, s, name, prefix, depth), 0)
    decreases j.r.maxDepth + 1 - depth, 0, 1
  {
    hide Vouched, ValidPath, Admit, Validate, Utf8.Valid, SearchFileAt, WalkAt, Settle;
    AdmitKeeps(j, s, prefix, name);
    match Admit(j, s, prefix, name)
    case Done(r) =>
    case Inspect(t, fd, path) =>
      FileKeeps(j, t, fd, path);
    case Descend(t, fd, path) =>
      WalkKeeps(j, t, fd, path, depth + 1);
      SettleKeeps(j, s, t, WalkAt(j, t, fd, path, depth + 1));
  }
}
