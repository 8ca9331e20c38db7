/** The confined walk: enumeration, capture, matching and result assembly, with every limit. */
module Searching {
  import opened Basics
  import opened Paths
  import opened World
  import opened Protocol
  import opened Engines
  import opened Scoping
  import Utf8
  import Capture

  /** What stays fixed during one search. */
  datatype Job = Job(w: World, e: Engine, r: Request)

  /** What a search updates; `now` numbers the next file-system operation. */
  datatype State = State(
    now: nat,
    complete: bool,
    reasons: seq<Code>,
    matches: seq<Hit>,
    counts: Counts,
    used: nat,
    scope: View)

  datatype Step = Step(state: State, fault: Option<Code>)

  function Initial(r: Request): State {
    State(0, true, [], [], Counts(0, 0, 0, 0, 0), ENVELOPE_RESERVE, Fresh(r.scope))
  }

  function IssueIn(s: State, code: Code): State {
    s.(reasons := if code in s.reasons then s.reasons else s.reasons + [code], complete := false)
  }

  function Visit(s: State): State { s.(counts := s.counts.(visited := s.counts.visited + 1)) }
  function Exclude(s: State): State { s.(counts := s.counts.(excluded := s.counts.excluded + 1)) }
  function Fail(s: State, code: Code): State {
    IssueIn(s.(counts := s.counts.(failed := s.counts.failed + 1)), code)
  }

  /** Resolving a path confined to the root, without following symbolic links. */
  function AnchorAt(w: World, now: nat, path: Path): Result<Ino, Code> {
    if w.fails(now) || w.resolve(now, path).None? then Err(ReadFailed) else Ok(w.resolve(now, path).value)
  }

  /** An empty match after the final line feed is not a line. */
  predicate Phantom(content: bytes, m: Match) {
    m.start == |content| && |content| > 0 && content[|content| - 1] == 0x0A
  }

  function HitOf(path: Path, digest: bytes, content: bytes, m: Match): (h: Hit)
    requires m.start <= m.end <= |content|
    requires Utf8.IsCharBoundary(content, m.start)
  {
    var end := Utf8.StepBack(content, Min(m.end, m.start + EXCERPT_BYTES));
    StepBackNotBefore(content, Min(m.end, m.start + EXCERPT_BYTES), m.start);
    Hit(path, digest, Range(m.start, m.end), Excerpt(Range(m.start, end), content[m.start..end], end != m.end))
  }

  lemma StepBackNotBefore(content: bytes, from: nat, floor: nat)
    requires floor <= from <= |content| && Utf8.IsCharBoundary(content, floor)
    ensures floor <= Utf8.StepBack(content, from)
  {
  }

  /** The matcher callback over the remaining matches of one file. */
  function Collect(j: Job, s: State, path: Path, digest: bytes, content: bytes, found: seq<Match>, ok: bool): Step
    requires forall m :: m in found ==> m.start <= m.end <= |content|
    decreases |found|
  {
    if |found| == 0 then Step(s, if ok then None else Some(RegexInvalid))
    else
      var m := found[0];
      var t := s.(now := s.now + 1);
      if j.w.expired(s.now) then Step(t, Some(Deadline))
      else if Phantom(content, m) then Collect(j, t, path, digest, content, found[1..], ok)
      else if !Utf8.IsCharBoundary(content, m.start) || !Utf8.IsCharBoundary(content, m.end) then Step(t, Some(MatchEncoding))
      else if |s.matches| == j.r.maxMatches then Step(t, Some(LimitReached))
      else
        var h := HitOf(path, digest, content, m);
        var size := j.e.hitSize(h) + 1;
        if s.used + size > j.r.responseBytes then Step(t, Some(ByteLimit))
        else Collect(j, t.(used := s.used + size, matches := s.matches + [h]), path, digest, content, found[1..], ok)
  }

  function ReadHit(path: Path, digest: bytes, content: bytes, range: Range): Hit
    requires range.start <= range.end <= |content|
  {
    Hit(path, digest, range, Excerpt(range, content[range.start..range.end], false))
  }

  /** A read request met its file: verify the revision, then return exactly the range. */
  function Deliver(j: Job, s: State, read: ReadRequest, path: Path, digest: bytes, content: bytes): Step
    requires read.range.start <= read.range.end
  {
    if read.expectedFileSha256.Some? && read.expectedFileSha256.value != digest then Step(s, Some(RevisionMismatch))
    else if read.range.end > |content| || !Utf8.IsCharBoundary(content, read.range.start) || !Utf8.IsCharBoundary(content, read.range.end) then
      Step(s, Some(InvalidRequest))
    else
      var h := ReadHit(path, digest, content, read.range);
      if s.used + j.e.hitSize(h) + 1 > j.r.responseBytes then Step(s, Some(ByteLimit))
      else Step(s.(matches := s.matches + [h]), None)
  }

  /** Capture with one retry after a detected mutation, through a freshly resolved path. */
  function CaptureTwice(j: Job, now: nat, fd: Ino, path: Path): (c: Capture.Captured)
    ensures now < c.now
  {
    var first := Capture.CaptureAt(j.w, now, fd, j.r.maxFileBytes);
    if first.outcome != Err(SourceMutated) then first
    else
      var again := AnchorAt(j.w, first.now, path);
      if again.Err? then Capture.Captured(Err(again.error), first.now + 1)
      else Capture.CaptureAt(j.w, first.now + 1, again.value, j.r.maxFileBytes)
  }

  predicate MatchesInRange(e: Engine, r: Request, content: bytes) {
    forall m :: m in e.find(r, content).found ==> m.start <= m.end <= |content|
  }

  ghost predicate JobOk(j: Job) { Sound(j.e) && Validate(j.r).None? }

  function Searched(s: State, content: bytes): State {
    s.(counts := s.counts.(searched := s.counts.searched + 1, bytesRead := s.counts.bytesRead + |content|))
  }

  /** `search_file` once the bytes are captured. */
  function Examine(j: Job, s: State, path: Path, content: bytes): Step
    requires Validate(j.r).None?
    requires MatchesInRange(j.e, j.r, content)
  {
    if j.w.expired(s.now) then Step(s.(now := s.now + 1), Some(Deadline))
    else
      var t := Searched(s.(now := s.now + 1), content);
      if j.r.read.Some? then Deliver(j, t, j.r.read.value, path, Digest(j.e, content), content)
      else if content == [] then Step(t, None)
      else Collect(j, t, path, Digest(j.e, content), content, j.e.find(j.r, content).found, j.e.find(j.r, content).ok)
  }

  ghost function SearchFileAt(j: Job, s: State, fd: Ino, path: Path): Step
    requires JobOk(j)
  {
    if j.r.read.Some? && j.r.read.value.path != path then Step(s, None)
    else
      var c := CaptureTwice(j, s.now, fd, path);
      var t := s.(now := c.now);
      if c.outcome == Err(Deadline) then Step(t, Some(Deadline))
      else if c.outcome.Err? then Step(Fail(t, c.outcome.error), None)
      else if c.outcome.value.None? then Step(Exclude(t), None)
      else Examine(j, t, path, c.outcome.value.value)
  }

  /** How one directory entry is dealt with before its content matters. */
  datatype Admission =
    | Done(step: Step)
    | Descend(state: State, fd: Ino, path: Path)
    | Inspect(state: State, fd: Ino, path: Path)

  /** Resolving, classifying and scoping an entry whose name was accepted. */
  function Classify(j: Job, s: State, path: Path): Admission {
    var a := AnchorAt(j.w, s.now, path);
    if a.Err? then Done(Step(Fail(s.(now := s.now + 1), a.error), None))
    else if j.w.fails(s.now + 1) then Done(Step(Fail(s.(now := s.now + 2), ReadFailed), None))
    else
      var t := s.(now := s.now + 2);
      var kind := j.w.inode(s.now + 1, a.value).stat.kind;
      if !AllowsIn(j.e, s.scope, path, kind == Directory) then Done(Step(Exclude(t), None))
      else match kind
           case Directory => Descend(t, a.value, path)
           case Regular => Inspect(t, a.value, path)
           case Special => Done(Step(Exclude(t), None))
  }

  function Admit(j: Job, s: State, prefix: Path, name: Name): Admission {
    if j.w.expired(s.now) then Done(Step(s.(now := s.now + 1), Some(Deadline)))
    else if j.w.fails(s.now + 1) then Done(Step(s.(now := s.now + 2), Some(ReadFailed)))
    else
      var t := s.(now := s.now + 2);
      if IsDots(name) then Done(Step(t, None))
      else if s.counts.visited == j.r.maxEntries then Done(Step(t, Some(EntryLimit)))
      else
        var u := Visit(t);
        var path := Child(prefix, name);
        if !Utf8.Valid(name) || !ValidPath(path) || ExcludedPath(j.r.scope.hidden, path) then Done(Step(Exclude(u), None))
        else if j.r.read.Some? && !Relevant(path, j.r.read.value.path) then Done(Step(u, None))
        else Classify(j, u, path)
  }

  /** A directory that cannot be read is reported and skipped; other faults stop the walk. */
  function Settle(r: Step): Step {
    if r.fault == Some(ReadFailed) then Step(Fail(r.state, ReadFailed), None) else r
  }

  ghost function WalkAt(j: Job, s: State, fd: Ino, prefix: Path, depth: nat): Step
    requires JobOk(j)
    decreases if depth <= j.r.maxDepth then j.r.maxDepth + 1 - depth else 0, 1, 0
  {
    if j.w.expired(s.now) then Step(s.(now := s.now + 1), Some(Deadline))
    else if depth > j.r.maxDepth then Step(IssueIn(s.(now := s.now + 1), DepthLimit), None)
    else
      var n := EnterAt(j.w, j.e, s.scope, s.now + 1, prefix);
      var t := s.(now := n.now, scope := n.view);
      if n.fault.Some? then Step(t, n.fault)
      else if j.w.fails(n.now) then Step(t.(now := n.now + 1), Some(ReadFailed))
      else EntriesAt(j, t.(now := n.now + 1), j.w.listing(n.now, fd), prefix, depth)
  }

  ghost function EntriesAt(j: Job, s: State, names: seq<Name>, prefix: Path, depth: nat): Step
    requires JobOk(j) && depth <= j.r.maxDepth
    decreases j.r.maxDepth + 1 - depth, 0, |names| + 2
  {
    if |names| == 0 then Step(s, None)
    else
      var r := EntryAt(j, s, names[0], prefix, depth);
      if r.fault.Some? then r else EntriesAt(j, r.state, names[1..], prefix, depth)
  }

  ghost function EntryAt(j: Job, s: State, name: Name, prefix: Path, depth: nat): Step
    requires JobOk(j) && depth <= j.r.maxDepth
    decreases j.r.maxDepth + 1 - depth, 0, 1
  {
    Dispatch(j, Admit(j, s, prefix, name), depth)
  }

  ghost function Dispatch(j: Job, a: Admission, depth: nat): Step
    requires JobOk(j) && depth <= j.r.maxDepth
    decreases j.r.maxDepth + 1 - depth, 0, 0
  {
    match a
    case Done(r) => r
    case Inspect(t, fd, path) => SearchFileAt(j, t, fd, path)
    case Descend(t, fd, path) => Settle(WalkAt(j, t, fd, path, depth + 1))
  }

  /** The walk's fault becomes a reason, unless it must be the answer. */
  predicate FaultIsAnswer(r: Request, s: State, fault: Code) {
    r.read.Some? || fault == RegexInvalid || fault == MatchEncoding || (fault == Deadline && s.matches == [])
  }

  function Absorb(s: State, fault: Code): State {
    if fault == ReadFailed || fault == SourceMutated then Fail(s, fault) else IssueIn(s, fault)
  }

  /** After the walk: revalidate ignore files and, for a read, insist on exactly a clean hit. */
  function Conclude(j: Job, s: State): Result<Success, Code> {
    var v := VerifyAt(j.w, s.scope.observations, s.now);
    var t := if v.fault.Some? then IssueIn(s, v.fault.value) else s;
    if j.r.read.Some? && t.reasons != [] then Err(t.reasons[0])
    else if j.r.read.Some? && t.matches == [] then Err(OutOfScope)
    else Ok(Success(j.r.id, t.complete, t.reasons, t.matches, t.counts, Digest(j.e, Preimage(t.scope.observations))))
  }

  /** One whole search from the root directory `fd`. */
  ghost function SearchAt(j: Job, fd: Ino): Result<Success, Code>
    requires Sound(j.e)
  {
    if Validate(j.r).Some? then Err(Validate(j.r).value)
    else if !j.e.patternOk(j.r) then Err(RegexInvalid)
    else if !ScopeAcceptable(j.e, j.r.scope) then Err(InvalidRequest)
    else
      var walked := if j.r.validateScopeOnly then Step(Initial(j.r), None) else WalkAt(j, Initial(j.r), fd, [], 0);
      if walked.fault.None? then Conclude(j, walked.state)
      else if FaultIsAnswer(j.r, walked.state, walked.fault.value) then Err(walked.fault.value)
      else Conclude(j, Absorb(walked.state, walked.fault.value))
  }

  /** The running search, whose methods update the result in place. */
  class Search {
    const j: Job
    const scope: Scope
    var now: nat
    var complete: bool
    var reasons: seq<Code>
    var matches: seq<Hit>
    var counts: Counts
    var used: nat

    function Current(): State
      reads this, scope
    {
      State(now, complete, reasons, matches, counts, used, scope.Current())
    }

    constructor (j: Job)
      ensures fresh(scope) && this.j == j && Current() == Initial(j.r)
    {
      this.j := j;
      scope := new Scope(j.r.scope);
      now, complete, reasons, matches := 0, true, [], [];
      counts := Counts(0, 0, 0, 0, 0);
      used := ENVELOPE_RESERVE;
    }

    method Issue(code: Code)
      modifies this
      ensures Current() == IssueIn(old(Current()), code)
    {
      if code !in reasons {
        reasons := reasons + [code];
      }
      complete := false;
    }

    method Failed(code: Code)
      modifies this
      ensures Current() == Fail(old(Current()), code)
    {
      counts := counts.(failed := counts.failed + 1);
      Issue(code);
    }

    method Evidence(path: Path, digest: bytes, content: bytes, m: Match) returns (hit: Hit)
      requires m.start <= m.end <= |content| && Utf8.IsCharBoundary(content, m.start)
      ensures hit == HitOf(path, digest, content, m)
    {
      var excerptEnd := Min(m.end, m.start + EXCERPT_BYTES);
      while !Utf8.IsCharBoundary(content, excerptEnd)
        invariant m.start <= excerptEnd <= m.end
        invariant Utf8.StepBack(content, excerptEnd) == Utf8.StepBack(content, Min(m.end, m.start + EXCERPT_BYTES))
        decreases excerptEnd
      {
        excerptEnd := excerptEnd - 1;
      }
      hit := Hit(path, digest, Range(m.start, m.end),
                 Excerpt(Range(m.start, excerptEnd), content[m.start..excerptEnd], excerptEnd != m.end));
    }

    method Match(path: Path, digest: bytes, content: bytes, found: seq<Match>, ok: bool) returns (fault: Option<Code>)
      requires forall m :: m in found ==> m.start <= m.end <= |content|
      modifies this
      ensures Step(Current(), fault) == Collect(j, old(Current()), path, digest, content, found, ok)
    {
      hide HitOf, Phantom, Utf8.IsCharBoundary;
      var i := 0;
      while i < |found|
        invariant 0 <= i <= |found|
        invariant scope.Current() == old(scope.Current())
        invariant Collect(j, Current(), path, digest, content, found[i..], ok) == Collect(j, old(Current()), path, digest, content, found, ok)
      {
        var m := found[i];
        assert found[i..][0] == m && found[i..][1..] == found[i + 1..];
        var late := j.w.expired(now);
        now := now + 1;
        if late {
          return Some(Deadline);
        }
        if !Phantom(content, m) {
          if !Utf8.IsCharBoundary(content, m.start) || !Utf8.IsCharBoundary(content, m.end) {
            return Some(MatchEncoding);
          }
          if |matches| == j.r.maxMatches {
            return Some(LimitReached);
          }
          var hit := Evidence(path, digest, content, m);
          var size := j.e.hitSize(hit) + 1;
          if used + size > j.r.responseBytes {
            return Some(ByteLimit);
          }
          used := used + size;
          matches := matches + [hit];
        }
        i := i + 1;
      }
      return if ok then None else Some(RegexInvalid);
    }

    method SearchFile(fd: Ino, path: Path) returns (fault: Option<Code>)
      requires JobOk(j)
      modifies this
      ensures Step(Current(), fault) == SearchFileAt(j, old(Current()), fd, path)
    {
      hide Capture.CaptureAt, Validate, Examine;
      if j.r.read.Some? && j.r.read.value.path != path {
        return None;
      }
      var captured, after := Capture.Run(j.w, now, fd, j.r.maxFileBytes);
      now := after;
      if captured == Err(SourceMutated) {
        var again := AnchorAt(j.w, now, path);
        now := now + 1;
        if again.Err? {
          captured := Err(again.error);
        } else {
          captured, now := Capture.Run(j.w, now, again.value, j.r.maxFileBytes);
        }
      }
      ghost var c := CaptureTwice(j, old(now), fd, path);
      assert c.outcome == captured && c.now == now;
      if captured == Err(Deadline) {
        return Some(Deadline);
      }
      if captured.Err? {
        Failed(captured.error);
        return None;
      }
      if captured.value.None? {
        counts := counts.(excluded := counts.excluded + 1);
        return None;
      }
      fault := Content(path, captured.value.value);
    }

    method Content(path: Path, content: bytes) returns (fault: Option<Code>)
      requires JobOk(j)
      modifies this
      ensures Step(Current(), fault) == Examine(j, old(Current()), path, content)
    {
      hide Collect, Utf8.IsCharBoundary, Hex, BoundsAcceptable;
      var late := j.w.expired(now);
      now := now + 1;
      if late {
        return Some(Deadline);
      }
      counts := counts.(searched := counts.searched + 1, bytesRead := counts.bytesRead + |content|);
      var digest := Digest(j.e, content);
      if j.r.read.Some? {
        var read := j.r.read.value;
        if read.expectedFileSha256.Some? && read.expectedFileSha256.value != digest {
          return Some(RevisionMismatch);
        }
        if read.range.end > |content| || !Utf8.IsCharBoundary(content, read.range.start) || !Utf8.IsCharBoundary(content, read.range.end) {
          return Some(InvalidRequest);
        }
        var hit := ReadHit(path, digest, content, read.range);
        if used + j.e.hitSize(hit) + 1 > j.r.responseBytes {
          return Some(ByteLimit);
        }
        matches := matches + [hit];
        return None;
      }
      if content == [] {
        return None;
      }
      var scan := j.e.find(j.r, content);
      fault := Match(path, digest, content, scan.found, scan.ok);
    }

    method Walk(fd: Ino, prefix: Path, depth: nat) returns (fault: Option<Code>)
      requires JobOk(j)
      modifies this, scope
      ensures Step(Current(), fault) == WalkAt(j, old(Current()), fd, prefix, depth)
      decreases if depth <= j.r.maxDepth then j.r.maxDepth + 1 - depth else 0, 1, 0
    {
      hide EnterAt, Admit, Classify, SearchFileAt, Settle;
      var late := j.w.expired(now);
      now := now + 1;
      if late {
        return Some(Deadline);
      }
      if depth > j.r.maxDepth {
        Issue(DepthLimit);
        return None;
      }
      now, fault := scope.Enter(j.w, j.e, now, prefix);
      if fault.Some? {
        return;
      }
      var broken := j.w.fails(now);
      var names := j.w.listing(now, fd);
      now := now + 1;
      if broken {
        return Some(ReadFailed);
      }
      fault := Entries(names, prefix, depth);
    }

    method Entries(names: seq<Name>, prefix: Path, depth: nat) returns (fault: Option<Code>)
      requires JobOk(j) && depth <= j.r.maxDepth
      modifies this, scope
      ensures Step(Current(), fault) == EntriesAt(j, old(Current()), names, prefix, depth)
      decreases j.r.maxDepth + 1 - depth, 0, 2
    {
      var i := 0;
      while i < |names|
        invariant 0 <= i <= |names|
        invariant EntriesAt(j, Current(), names[i..], prefix, depth) == EntriesAt(j, old(Current()), names, prefix, depth)
      {
        assert names[i..][0] == names[i] && names[i..][1..] == names[i + 1..];
        fault := Entry(names[i], prefix, depth);
        if fault.Some? {
          return;
        }
        i := i + 1;
      }
      return None;
    }

    method Entry(name: Name, prefix: Path, depth: nat) returns (fault: Option<Code>)
      requires JobOk(j) && depth <= j.r.maxDepth
      modifies this, scope
      ensures Step(Current(), fault) == EntryAt(j, old(Current()), name, prefix, depth)
      decreases j.r.maxDepth + 1 - depth, 0, 1
    {
      hide Utf8.Valid, ValidPath, ExcludedPath, Relevant, Child, IsDots, Classify, SearchFileAt, WalkAt, Validate,
        Sound;
      var late := j.w.expired(now);
      now := now + 1;
      if late {
        return Some(Deadline);
      }
      var broken := j.w.fails(now);
      now := now + 1;
      if broken {
        return Some(ReadFailed);
      }
      if IsDots(name) {
        return None;
      }
      if counts.visited == j.r.maxEntries {
        return Some(EntryLimit);
      }
      counts := counts.(visited := counts.visited + 1);
      var path := Child(prefix, name);
      if !Utf8.Valid(name) || !ValidPath(path) || ExcludedPath(j.r.scope.hidden, path) {
        counts := counts.(excluded := counts.excluded + 1);
        return None;
      }
      if j.r.read.Some? && !Relevant(path, j.r.read.value.path) {
        return None;
      }
      fault := Node(path, depth);
    }

    method Node(path: Path, depth: nat) returns (fault: Option<Code>)
      requires JobOk(j) && depth <= j.r.maxDepth
      modifies this, scope
      ensures Step(Current(), fault) == Dispatch(j, Classify(j, old(Current()), path), depth)
      decreases j.r.maxDepth + 1 - depth, 0, 0
    {
      hide AllowsIn, SearchFileAt, WalkAt, Validate, Sound;
      var node := AnchorAt(j.w, now, path);
      now := now + 1;
      if node.Err? {
        Failed(node.error);
        return None;
      }
      var broken := j.w.fails(now);
      var kind := j.w.inode(now, node.value).stat.kind;
      now := now + 1;
      if broken {
        Failed(ReadFailed);
        return None;
      }
      var allowed := scope.Allows(j.e, path, kind == Directory);
      if !allowed {
        counts := counts.(excluded := counts.excluded + 1);
        return None;
      }
      match kind
      case Directory =>
        fault := Walk(node.value, path, depth + 1);
        if fault == Some(ReadFailed) {
          Failed(ReadFailed);
          return None;
        }
      case Regular =>
        fault := SearchFile(node.value, path);
      case Special =>
        counts := counts.(excluded := counts.excluded + 1);
        return None;
    }
  }

  /** The worker's `search`. */
  method Run(w: World, e: Engine, r: Request, fd: Ino) returns (answer: Result<Success, Code>)
    requires Sound(e)
    ensures answer == SearchAt(Job(w, e, r), fd)
  {
    hide WalkAt, VerifyAt, Preimage, ScopeAcceptable, BoundsAcceptable, Digest;
    var invalid := Validate(r);
    if invalid.Some? {
      return Err(invalid.value);
    }
    if !e.patternOk(r) {
      return Err(RegexInvalid);
    }
    if !ScopeAcceptable(e, r.scope) {
      return Err(InvalidRequest);
    }
    var s := new Search(Job(w, e, r));
    var fault: Option<Code> := None;
    if !r.validateScopeOnly {
      fault := s.Walk(fd, [], 0);
    }
    ghost var walked := s.Current();
    if fault.Some? {
      if r.read.Some? || fault.value == RegexInvalid || fault.value == MatchEncoding || (fault.value == Deadline && s.matches == []) {
        return Err(fault.value);
      }
      if fault.value == ReadFailed || fault.value == SourceMutated {
        s.counts := s.counts.(failed := s.counts.failed + 1);
      }
      s.Issue(fault.value);
      assert s.Current() == Absorb(walked, fault.value);
    }
    ghost var absorbed := s.Current();
    var end, changed := s.scope.Verify(w, s.now);
    if changed.Some? {
      s.Issue(changed.value);
    }
    if r.read.Some? {
      if s.reasons != [] {
        return Err(s.reasons[0]);
      }
      if s.matches == [] {
        return Err(OutOfScope);
      }
    }
    var hash := s.scope.SnapshotHash(e);
    return Ok(Success(r.id, s.complete, s.reasons, s.matches, s.counts, hash));
  }
}
