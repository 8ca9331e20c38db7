/** Search and read agree: every hit is genuine evidence, and reading it back under the same terms returns it. */
module Reads {
  import opened Basics
  import opened Paths
  import opened World
  import opened Protocol
  import opened Evidence
  import opened Engines
  import opened Scoping
  import opened Searching
  import opened SearchInvariants
  import opened ScopeInvariants
  import opened Acceptance
  import opened Trees
  import opened Refinement
  import opened Responses
  import opened ReadAgreement
  import Utf8
  import Capture

  // ---- Evidence, whatever the file system does ----------------------------------------------------

  /**
   Every hit of every success is about bytes captured during that search from what its path led to, and the evidence
   verifier accepts it on them.
   */
  lemma HitsAreGenuine(j: Job, fd: Ino, h: Hit) returns (content: bytes)
    requires Sound(j.e) && SearchAt(j, fd).Ok? && h in SearchAt(j, fd).value.matches
    ensures Validate(j.r).None? && Attested(j, h, content, Reported(j, fd).now)
  {
    hide HitAccepted, Attested, WalkAt, Conclude, ScopeAcceptable, Reported, SearchAt, BoundsAcceptable;
    SearchReports(j, fd);
    ConcludeTruth(j, Reported(j, fd));
    assert h in Reported(j, fd).matches;
    assert Vouched(j, h, Reported(j, fd).now);
    content :| Attested(j, h, content, Reported(j, fd).now);
  }

  /** When writers are honest, those bytes were the whole of the regular file at its path at one moment of the search. */
  lemma HitsQuoteOneRevision(j: Job, fd: Ino, h: Hit) returns (a: nat, t: nat, file: Ino)
    requires Sound(j.e) && SearchAt(j, fd).Ok? && h in SearchAt(j, fd).value.matches
    requires forall i: nat :: Capture.Honest(j.w, i)
    ensures Validate(j.r).None? && a < t < Reported(j, fd).now && AnchorAt(j.w, a, h.path) == Ok(file)
    ensures SourceAccepted(j.e, h, j.w.inode(t, file).content) && j.w.inode(t, file).stat.kind == Regular
    ensures Answers(j, h, j.w.inode(t, file).content)
  {
    hide SearchAt, Capture.CaptureAt, Capture.Honest, Answers, SourceAccepted, WellCut, ValidPath, AnchorAt, Reported,
      BoundsAcceptable;
    var content := HitsAreGenuine(j, fd, h);
    var last := Reported(j, fd).now;
    var at: nat, start: nat, i: Ino :| SeenAt(j, h.path, content, last, at, start, i);
    Capture.SingleRevision(j.w, start, i, j.r.maxFileBytes);
    a, t, file := at, start + 1, i;
    CaptureTakesTime(j.w, start, i, j.r.maxFileBytes);
  }

  lemma CaptureTakesTime(w: World, start: nat, fd: Ino, limit: nat)
    requires Capture.CaptureAt(w, start, fd, limit).outcome.Ok?
    ensures start + 1 < Capture.CaptureAt(w, start, fd, limit).now
  {
    hide Capture.Slurp, Capture.Textual;
  }

  // ---- Reads against searches ----------------------------------------------------------------------

  predicate InFile(content: bytes, range: Range) {
    range.start <= range.end <= |content| && Utf8.IsCharBoundary(content, range.start) && Utf8.IsCharBoundary(content, range.end)
  }

  /** What a read must answer, given the file it asks for, if that is in scope, and how many entries lead to it. */
  ghost predicate ReadAnswered(q: Job, found: Option<bytes>, n: nat, answer: Result<Success, Code>)
    requires q.r.read.Some?
  {
    match found
    case None => answer == Err(OutOfScope)
    case Some(content) =>
      var read := q.r.read.value;
      var digest := Digest(q.e, content);
      if read.expectedFileSha256.Some? && read.expectedFileSha256.value != digest then answer == Err(RevisionMismatch)
      else if !InFile(content, read.range) then answer == Err(InvalidRequest)
      else if ENVELOPE_RESERVE + q.e.hitSize(ReadHit(read.path, digest, content, read.range)) + 1 > q.r.responseBytes then answer == Err(ByteLimit)
      else answer.Ok? && answer.value.complete && answer.value.matches == Copies(ReadHit(read.path, digest, content, read.range), n)
  }

  lemma {:induction false} LastingVerifies(w: World, os: seq<Observation>, now: nat)
    requires Lasting(w, os)
    ensures VerifyAt(w, os, now).fault.None?
    decreases |os|
  {
    hide PolicyAt;
    if |os| > 0 {
      assert os[0] in os;
      var c := PolicyAt(w, now, os[0].path);
      assert c.outcome == Ok(os[0].captured);
      LastingVerifies(w, os[1..], c.now);
    }
  }

  lemma StartTogether(j: Job, q: Job)
    requires SameTerms(j, q)
    ensures Behind(q.w, Initial(q.r), Initial(j.r)) && Bounded(Initial(j.r).scope)
    ensures Above(Initial(q.r).scope, [], []) && Above(Initial(j.r).scope, [], [])
  {
    hide Validate, Sound, Capture.Frozen, PolicyAt;
  }

  lemma ReadConcludes(q: Job, s: State, r: Step, found: Option<bytes>)
    requires JobOk(q) && q.r.read.Some? && ReadsAs(q, s, r, found)
    requires s == Initial(q.r)
    requires r.fault.None? ==> Lasting(q.w, r.state.scope.observations)
    ensures ReadAnswered(q, found, 1, if r.fault.Some? then Err(r.fault.value) else Conclude(q, r.state))
  {
    hide Digest, Preimage, VerifyAt, PolicyAt, Utf8.IsCharBoundary, BoundsAcceptable, Sound;
    if r.fault.None? {
      LastingVerifies(q.w, r.state.scope.observations, r.state.now);
    }
  }

  /**
   On a static tree, a read under the terms of a complete search succeeds on exactly the files that search
   covered, within the file and the budget, and otherwise says which of those failed.
   */
  lemma ReadsFollowSearch(j: Job, q: Job, fj: Ino, fq: Ino, es: seq<Entry>)
    requires SameTerms(j, q) && ProperListings(q.w)
    requires !j.r.validateScopeOnly && !q.r.validateScopeOnly && q.e.patternOk(q.r)
    requires MirrorsFolder(j.w, fj, [], es) && MirrorsFolder(q.w, fq, [], es)
    requires SearchAt(j, fj).Ok? && SearchAt(j, fj).value.complete
    ensures ReadAnswered(q, Lookup(FolderPlan(KnobsOf(j), [], es, []).sources, Target(q)), 1, SearchAt(q, fq))
  {
    hide Validate, Sound, Capture.Frozen, ProperListings, MirrorsFolder, WalkAt, Conclude, ReadAnswered, FolderPlan,
      Above, BehindView, Bounded, Inv, ScopeAcceptable, ReadsAs, Lookup;
    SuccessIsTruthful(j, fj);
    ReportKeepsReasons(j, fj);
    var walked := WalkAt(j, Initial(j.r), fj, [], 0);
    HeadIsMember(walked.state.reasons);
    InitialInv(j);
    StartTogether(j, q);
    SimWalk(j, q, Initial(q.r), Initial(j.r), fq, fj, [], es, 0, []);
    var found := Lookup(FolderPlan(KnobsOf(j), [], es, []).sources, Target(q));
    var r := WalkAt(q, Initial(q.r), fq, [], 0);
    if r.fault.None? {
      BehindLasts(q.w, r.state, walked.state);
    }
    ReadConcludes(q, Initial(q.r), r, found);
  }

  lemma BehindLasts(w: World, a: State, b: State)
    requires Behind(w, a, b)
    ensures Lasting(w, a.scope.observations)
  {
    hide Keys, Sorted, PolicyAt;
  }

  // ---- Reading back the hits of a search -------------------------------------------------------------

  lemma {:induction false} HitHasMatch(path: Path, digest: bytes, content: bytes, found: seq<Match>, h: Hit) returns (m: Match)
    requires forall m :: m in found ==> m.start <= m.end <= |content|
    requires h in HitsOf(path, digest, content, found)
    ensures m in found && Utf8.IsCharBoundary(content, m.start) && Utf8.IsCharBoundary(content, m.end)
    ensures h == HitOf(path, digest, content, m)
  {
    hide Phantom, HitOf, Utf8.IsCharBoundary;
    if Phantom(content, found[0]) || !Utf8.IsCharBoundary(content, found[0].start) || !Utf8.IsCharBoundary(content, found[0].end) {
      m := HitHasMatch(path, digest, content, found[1..], h);
    } else if h == HitOf(path, digest, content, found[0]) {
      m := found[0];
    } else {
      m := HitHasMatch(path, digest, content, found[1..], h);
    }
  }

  /** The source a planned hit quotes. */
  lemma {:induction false} HitHasSource(e: Engine, r: Request, sources: seq<Source>, h: Hit) returns (src: Source, m: Match)
    requires Sound(e) && h in AllHits(e, r, sources)
    ensures src in sources && m.start <= m.end <= |src.content|
    ensures Utf8.IsCharBoundary(src.content, m.start) && Utf8.IsCharBoundary(src.content, m.end)
    ensures h == HitOf(src.path, Digest(e, src.content), src.content, m)
  {
    hide HitOf, Utf8.IsCharBoundary, Digest, HitsOf;
    if h in SourceHits(e, r, sources[0]) {
      src := sources[0];
      m := HitHasMatch(src.path, Digest(e, src.content), src.content, e.find(r, src.content).found, h);
    } else {
      src, m := HitHasSource(e, r, sources[1..], h);
    }
  }

  lemma {:induction false} FolderPathsUnique(k: Knobs, w: World, fd: Ino, prefix: Path, es: seq<Entry>, chain: seq<Level>, src: Source)
    requires MirrorsFolder(w, fd, prefix, es) && ProperListings(w)
    requires src in FolderPlan(k, prefix, es, chain).sources
    ensures Lookup(FolderPlan(k, prefix, es, chain).sources, src.path) == Some(src.content)
    decreases es, 3
  {
    hide EntriesPlan, MirrorsEntries, FolderRules;
    assert w.listing(0, fd) == Names(es);
    if !k.input.respectIgnore {
      EntriesPathsUnique(k, w, prefix, es, chain, src);
    } else {
      EntriesPathsUnique(k, w, prefix, es, chain + [Level(prefix, FolderRules(k.e, prefix, es).value)], src);
    }
  }

  lemma {:induction false} EntriesPathsUnique(k: Knobs, w: World, prefix: Path, es: seq<Entry>, chain: seq<Level>, src: Source)
    requires MirrorsEntries(w, prefix, es) && ProperListings(w) && Distinct(Names(es))
    requires src in EntriesPlan(k, prefix, es, chain).sources
    ensures Lookup(EntriesPlan(k, prefix, es, chain).sources, src.path) == Some(src.content)
    decreases es, 2
  {
    hide EntryPlan, MirrorsEntry, ProperListings;
    var p, q := EntryPlan(k, prefix, es[0], chain), EntriesPlan(k, prefix, es[1..], chain);
    LookupJoin(p.sources, q.sources, src.path);
    if src in p.sources {
      EntryPathsUnique(k, w, prefix, es[0], chain, src);
    } else {
      NamesTail(es);
      EntriesPathsUnique(k, w, prefix, es[1..], chain, src);
      if Lookup(p.sources, src.path).Some? {
        FoundOnce(k, w, prefix, es, chain, src.path);
      }
    }
  }

  lemma {:induction false} EntryPathsUnique(k: Knobs, w: World, prefix: Path, entry: Entry, chain: seq<Level>, src: Source)
    requires MirrorsEntry(w, prefix, entry) && ProperListings(w)
    requires src in EntryPlan(k, prefix, entry, chain).sources
    ensures Lookup(EntryPlan(k, prefix, entry, chain).sources, src.path) == Some(src.content)
    decreases entry, 1
  {
    hide Verdict, FolderPlan, MirrorsFolder, Utf8.Valid, ValidPath, ExcludedPath, ProperListings, Capture.Textual;
    match entry.node
    case Folder(es) =>
      FolderPathsUnique(k, w, w.resolve(0, Child(prefix, entry.name)).value, Child(prefix, entry.name), es, chain, src);
      FolderPlanLookup(k, prefix, entry, chain, src.path);
    case File(content) =>
    case Other =>
  }

  lemma {:induction false} WeightOfMember(e: Engine, hits: seq<Hit>, h: Hit)
    requires h in hits
    ensures e.hitSize(h) + 1 <= Weight(e, hits)
  {
    if h != hits[|hits| - 1] {
      WeightOfMember(e, hits[..|hits| - 1], h);
    }
  }

  /** A hit of a search weighs no more than the search's budget leaves. */
  lemma HitFits(j: Job, fd: Ino, h: Hit)
    requires Sound(j.e) && j.r.read.None? && SearchAt(j, fd).Ok? && h in SearchAt(j, fd).value.matches
    ensures ENVELOPE_RESERVE + j.e.hitSize(h) + 1 <= j.r.responseBytes
  {
    hide HitAccepted, Vouched, WalkAt, Conclude, ScopeAcceptable, Reported, SearchAt, Weight;
    SearchReports(j, fd);
    ConcludeTruth(j, Reported(j, fd));
    WeightOfMember(j.e, Reported(j, fd).matches, h);
  }

  /** The read asks for the range of `h`, of whatever revision or of the one `h` quotes. */
  predicate AsksFor(r: Request, h: Hit) {
    && r.read.Some? && r.read.value.path == h.path && r.read.value.range == h.range
    && (r.read.value.expectedFileSha256 == None || r.read.value.expectedFileSha256 == Some(h.fileSha256))
  }

  /** An untruncated hit of a complete search reads back as the very same evidence, given the same budget. */
  lemma HitsReadBack(j: Job, q: Job, fj: Ino, fq: Ino, es: seq<Entry>, h: Hit)
    requires SameTerms(j, q) && ProperListings(q.w)
    requires !j.r.validateScopeOnly && !q.r.validateScopeOnly && q.e.patternOk(q.r)
    requires MirrorsFolder(j.w, fj, [], es) && MirrorsFolder(q.w, fq, [], es)
    requires SearchAt(j, fj).Ok? && SearchAt(j, fj).value.complete && h in SearchAt(j, fj).value.matches
    requires !h.excerpt.truncated && AsksFor(q.r, h) && q.r.responseBytes >= j.r.responseBytes
    ensures SearchAt(q, fq).Ok? && SearchAt(q, fq).value.complete && SearchAt(q, fq).value.matches == [h]
  {
    hide Validate, Sound, Capture.Frozen, ProperListings, MirrorsFolder, SearchAt, FolderPlan, Lookup, AllHits,
      Digest, Utf8.IsCharBoundary, Sub;
    SearchRefines(j, fj, es);
    var sources := FolderPlan(KnobsOf(j), [], es, []).sources;
    var src, m := HitHasSource(j.e, j.r, sources, h);
    FolderPathsUnique(KnobsOf(j), q.w, fq, [], es, [], src);
    ReadsFollowSearch(j, q, fj, fq, es);
    HitFits(j, fj, h);
  }

  /** A truncated hit is too long to read back: the request itself is refused. */
  lemma TruncatedHitsRefused(j: Job, q: Job, fj: Ino, fq: Ino, h: Hit)
    requires Sound(j.e) && Sound(q.e) && SearchAt(j, fj).Ok? && h in SearchAt(j, fj).value.matches && h.excerpt.truncated
    requires BoundsAcceptable(q.r) && q.r.maxFileBytes >= j.r.maxFileBytes && AsksFor(q.r, h)
    ensures SearchAt(q, fq) == Err(ByteLimit)
  {
    hide SearchAt, SourceAccepted, Answers, ValidPath, BoundsAcceptable, Capture.Textual;
    var content := HitsAreGenuine(j, fj, h);
    SeenShape(j, h.path, content, Reported(j, fj).now);
    AcceptedRange(j.e, h, content);
    assert Validate(q.r) == Some(ByteLimit);
    RefusedAtOnce(q, fq);
  }

  lemma AcceptedRange(e: Engine, h: Hit, content: bytes)
    requires SourceAccepted(e, h, content)
    ensures h.range.start <= h.range.end <= |content|
  {
    hide PathSchema, Utf8.Valid, Digest;
  }

  lemma RefusedAtOnce(q: Job, fq: Ino)
    requires Sound(q.e) && Validate(q.r).Some?
    ensures SearchAt(q, fq) == Err(Validate(q.r).value)
  {
    hide Validate, WalkAt, Conclude;
  }
}
