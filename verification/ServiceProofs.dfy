/** What the service promises: the longest fitting answer, every answer within budget and contract, coverage preserved. */
module ServiceProofs {
  import opened Basics
  import opened Paths
  import opened Protocol
  import opened Contracts
  import opened Evidence
  import opened Service
  import Client
  import Engines
  import Searching
  import SearchInvariants
  import Responses
  import Acceptance
  import ReadAgreement
  import Reads
  import Trees
  import Policies
  import Utf8
  import World

  // ---- Lists ------------------------------------------------------------------------------------------

  lemma {:induction false} UniqueMembers<T>(xs: seq<T>, x: T)
    ensures x in Unique(xs) <==> x in xs
  {
    if |xs| > 0 {
      UniqueMembers(xs[..|xs| - 1], x);
      assert x in xs <==> x in xs[..|xs| - 1] || x == xs[|xs| - 1];
    }
  }

  lemma {:induction false} UniqueDistinct<T>(xs: seq<T>)
    ensures Distinct(Unique(xs)) && |Unique(xs)| <= |xs|
  {
    if |xs| > 0 {
      UniqueDistinct(xs[..|xs| - 1]);
      UniqueMembers(xs[..|xs| - 1], xs[|xs| - 1]);
    }
  }

  lemma {:induction false} MapMembers(cs: seq<Code>, i: IssueCode)
    ensures |MapCodes(cs)| == |cs|
    ensures i in MapCodes(cs) <==> exists c :: c in cs && MapWorker(c) == i
  {
    if |cs| > 0 {
      MapMembers(cs[..|cs| - 1], i);
      assert forall c :: c in cs <==> c in cs[..|cs| - 1] || c == cs[|cs| - 1];
    }
  }

  lemma {:induction false} IssueMembers(codes: seq<IssueCode>, i: Issue)
    ensures |Issues(codes)| == |codes|
    ensures i in Issues(codes) <==> i.code in codes && i == IssueFor(i.code)
  {
    if |codes| > 0 {
      IssueMembers(codes[..|codes| - 1], i);
      assert forall c :: c in codes <==> c in codes[..|codes| - 1] || c == codes[|codes| - 1];
    }
  }

  lemma {:induction false} ReasonMembers(codes: seq<IssueCode>, r: PartialReason)
    ensures r in Reasons(codes) <==> exists c :: c in codes && ReasonOf(c) == Some(r)
  {
    if |codes| > 0 {
      ReasonMembers(codes[..|codes| - 1], r);
      assert forall c :: c in codes <==> c in codes[..|codes| - 1] || c == codes[|codes| - 1];
    }
  }

  lemma {:induction false} TotalMonotone<T>(size: T -> nat, xs: seq<T>, m: nat, n: nat)
    requires m <= n <= |xs|
    ensures Total(size, xs[..m]) <= Total(size, xs[..n])
    decreases n
  {
    if m < n {
      assert xs[..n][..n - 1] == xs[..n - 1];
      TotalMonotone(size, xs, m, n - 1);
    }
  }

  // ---- Trimming -----------------------------------------------------------------------------------------

  /** A shorter answer never takes more room. */
  lemma FitsDownward(z: Sizer, r: PublicResponse, budget: nat, m: nat, n: nat)
    requires r.Reply? && r.finding.Matches? && m <= n <= |r.finding.matches|
    requires Fits(z, r, budget, n)
    ensures Fits(z, r, budget, m)
  {
    TotalMonotone(z.item, r.finding.matches, m, n);
  }

  lemma {:induction false} CutInvariant(z: Sizer, r: PublicResponse, budget: nat, lateAt: nat -> bool, step: nat, low: nat, high: nat)
    requires r.Reply? && r.finding.Matches? && low <= high <= |r.finding.matches|
    requires low > 0 ==> Fits(z, r, budget, low)
    requires high < |r.finding.matches| ==> !Fits(z, r, budget, high + 1)
    ensures var cut := CutAt(z, r, budget, lateAt, step, low, high);
            cut.Some? ==>
              && (cut.value > 0 ==> Fits(z, r, budget, cut.value))
              && (cut.value < |r.finding.matches| ==> !Fits(z, r, budget, cut.value + 1))
    decreases high - low
  {
    hide Fits;
    if low < high && !lateAt(step) {
      var middle := (low + high + 1) / 2;
      if Fits(z, r, budget, middle) {
        CutInvariant(z, r, budget, lateAt, step + 1, middle, high);
      } else {
        CutInvariant(z, r, budget, lateAt, step + 1, low, middle - 1);
      }
    }
  }

  /** The cut is the longest prefix that fits, and it is found unless the deadline passes. */
  lemma CutIsLongest(z: Sizer, r: PublicResponse, budget: nat, lateAt: nat -> bool, n: nat)
    requires r.Reply? && r.finding.Matches? && n <= |r.finding.matches|
    ensures var cut := CutAt(z, r, budget, lateAt, 0, 0, |r.finding.matches|);
            && (cut.Some? && cut.value > 0 ==> (Fits(z, r, budget, n) <==> n <= cut.value))
            && (cut == Some(0) && n > 0 ==> !Fits(z, r, budget, n))
  {
    CutInvariant(z, r, budget, lateAt, 0, 0, |r.finding.matches|);
    var cut := CutAt(z, r, budget, lateAt, 0, 0, |r.finding.matches|);
    hide Fits, CutAt;
    if cut.Some? {
      if n > cut.value && Fits(z, r, budget, n) {
        FitsDownward(z, r, budget, cut.value + 1, n);
      } else if n <= cut.value && cut.value > 0 {
        FitsDownward(z, r, budget, n, cut.value);
      }
    }
  }

  lemma {:induction false} TotalAppend<T>(size: T -> nat, xs: seq<T>, x: T)
    ensures Total(size, xs + [x]) == Total(size, xs) + size(x)
  {
    assert (xs + [x])[..|xs|] == xs;
  }

  /** Without repetitions, and in order of first occurrence: what comes later never moves what came before. */
  lemma {:induction false} UniqueGrows<T>(xs: seq<T>, ys: seq<T>)
    ensures Distinct(Unique(xs)) && Unique(xs) <= Unique(xs + ys)
    decreases |ys|
  {
    UniqueDistinct(xs);
    if |ys| == 0 {
      assert xs + ys == xs;
    } else {
      UniqueGrows(xs, ys[..|ys| - 1]);
      assert (xs + ys)[..|xs + ys| - 1] == xs + ys[..|ys| - 1];
    }
  }

  lemma UniqueAppend<T>(xs: seq<T>, x: T)
    requires Distinct(xs)
    ensures Unique(xs + [x]) == if x in xs then xs else xs + [x]
  {
    UniqueOfDistinct(xs);
    assert (xs + [x])[..|xs|] == xs;
  }

  lemma {:induction false} UniqueOfDistinct<T>(xs: seq<T>)
    requires Distinct(xs)
    ensures Unique(xs) == xs
  {
    if |xs| > 0 {
      UniqueOfDistinct(xs[..|xs| - 1]);
    }
  }

  /** Marking a response as trimmed never makes it smaller, so a response that must be trimmed loses a match. */
  lemma MarkingGrows(z: Sizer, full: PublicResponse)
    requires full.Reply? && full.finding.Matches?
    requires full.finding.coverage.Partial? ==> Distinct(full.finding.coverage.reasons)
    ensures Size(z, Marked(full)) >= Size(z, full)
  {
    var reasons := if full.finding.coverage.Complete? then [] else full.finding.coverage.reasons;
    AppendGrows(z.issue, full.issues, IssueFor(IssueCode.ByteLimit));
    UniqueAppend(reasons, Limit);
    AppendGrows(ReasonBytes, reasons, Limit);
    hide Unique, ListBytes;
    NothingListed(ReasonBytes);
  }

  lemma NothingListed<T>(size: T -> nat)
    ensures ListBytes(size, []) == 0
  {
  }

  lemma AppendGrows<T>(size: T -> nat, xs: seq<T>, x: T)
    ensures ListBytes(size, xs + [x]) >= ListBytes(size, xs)
  {
    TotalAppend(size, xs, x);
  }

  // ---- Budget and contract, whatever the worker says ------------------------------------------------------

  lemma FaultAccepted(z: Sizer, request: PublicRequest, raw: Raw)
    requires Modest(z) && RequestAccepted(request)
    ensures ResponseAccepted(z, Fault(request, raw), request) && Size(z, Fault(request, raw)) <= 2048
  {
  }

  lemma FinishAccepted(z: Sizer, request: PublicRequest, r: PublicResponse, budget: nat, lateEnd: bool)
    requires Modest(z) && RequestAccepted(request) && 2048 <= budget
    ensures ResponseAccepted(z, Finish(z, request, r, budget, lateEnd), request) && Size(z, Finish(z, request, r, budget, lateEnd)) <= budget
  {
    hide ResponseAccepted, Size, Modest, RequestAccepted;
    FaultAccepted(z, request, Own(IssueCode.ByteLimit));
    FaultAccepted(z, request, Own(IssueCode.Unavailable));
    FaultAccepted(z, request, Own(IssueCode.Deadline));
  }

  /** A success leaves the service only when the last reading of the clock was in time. */
  lemma FinishInTime(z: Sizer, mint: Mint, request: PublicRequest, budget: nat, env: Env)
    ensures forall s, success :: request.Exact? && FinishExact(z, mint, request, s, success, budget, env).Reply? ==> !env.lateEnd
    ensures forall s, success :: request.Read? && FinishRead(z, mint, request, s, success, budget, env).Reply? ==> !env.lateEnd
  {
    hide Size, ResponseAccepted, FullReply, Marked, CutAt, Report, Items, Issues, Unique, MapCodes;
  }

  lemma SuccessInTime(z: Sizer, mint: Mint, caps: Context, input: Input, context: Context, timing: Timing)
    requires Parsed(input) && ContextAccepted(context) && ExecuteAt(z, mint, caps, input, Some(context), timing).Reply?
    ensures timing.first <= context.deadlineMs as real - 1.0 && timing.first <= caps.deadlineMs as real - 1.0
    ensures timing.after < context.deadlineMs as real && timing.after < caps.deadlineMs as real
    ensures timing.end < context.deadlineMs as real && timing.end < caps.deadlineMs as real
  {
    hide RequestAccepted, FinishExact, FinishRead;
    FinishInTime(z, mint, input.request, Clamped(context, caps).responseBytes, Seen(timing, Clamped(context, caps).deadlineMs));
  }

  /**
   Every answer to an accepted request meets the response contract, and the caller's byte budget as well as the
   deployment's, success or error; and no success comes once the deadline of either has passed.
   */
  lemma EveryResponseFits(z: Sizer, mint: Mint, caps: Context, input: Input, context: Context, timing: Timing)
    requires Modest(z) && ContextAccepted(caps) && Parsed(input) && ContextAccepted(context)
    ensures var r := ExecuteAt(z, mint, caps, input, Some(context), timing);
            && ResponseAccepted(z, r, input.request) && Size(z, r) <= context.responseBytes && Size(z, r) <= caps.responseBytes
            && (r.Reply? ==>
                  && timing.first <= context.deadlineMs as real - 1.0 && timing.first <= caps.deadlineMs as real - 1.0
                  && timing.after < context.deadlineMs as real && timing.after < caps.deadlineMs as real
                  && timing.end < context.deadlineMs as real && timing.end < caps.deadlineMs as real)
  {
    hide ResponseAccepted, Size, Modest, RequestAccepted, FullReply, Marked, CutAt, Finish, Report, Items, Issues,
      Unique, MapCodes, Fault;
    var request := input.request;
    var budget := Clamped(context, caps).responseBytes;
    var env := Seen(timing, Clamped(context, caps).deadlineMs);
    if ExecuteAt(z, mint, caps, input, Some(context), timing).Reply? {
      SuccessInTime(z, mint, caps, input, context, timing);
    }
    forall raw
      ensures ResponseAccepted(z, Fault(request, raw), request) && Size(z, Fault(request, raw)) <= 2048
    {
      FaultAccepted(z, request, raw);
    }
    forall r
      ensures ResponseAccepted(z, Finish(z, request, r, budget, env.lateEnd), request)
      ensures Size(z, Finish(z, request, r, budget, env.lateEnd)) <= budget
    {
      FinishAccepted(z, request, r, budget, env.lateEnd);
    }
  }

  /** Refusals of unparsable input are errors within the smallest budget. */
  lemma RefusalFits(z: Sizer, mint: Mint, caps: Context, input: Input, contextInput: Option<Context>, timing: Timing)
    requires Modest(z)
    requires !Parsed(input) || contextInput.None? || !ContextAccepted(contextInput.value)
    ensures var r := ExecuteAt(z, mint, caps, input, contextInput, timing);
            r.Problem? && PublicId(r.requestId) && Size(z, r) <= 2048
  {
    hide RequestAccepted;
  }

  // ---- Coverage -------------------------------------------------------------------------------------------

  /** The service reports complete coverage exactly when no reason of the worker stands for a partial reason. */
  lemma CoverageRule(mint: Mint, request: PublicRequest, s: Scoped, success: Success, env: Env)
    requires request.Exact?
    ensures FullReply(mint, request, s, success, env).finding.coverage.Complete?
       <==> forall c :: c in success.reasons ==> ReasonOf(MapWorker(c)).None?
  {
    hide MapCodes, Unique, Reasons, Issues, Report, Items;
    var codes := Unique(MapCodes(success.reasons));
    var reasons := Unique(Reasons(codes));
    if c :| c in success.reasons && ReasonOf(MapWorker(c)).Some? {
      var r := ReasonOf(MapWorker(c)).value;
      MapMembers(success.reasons, MapWorker(c));
      UniqueMembers(MapCodes(success.reasons), MapWorker(c));
      ReasonMembers(codes, r);
      UniqueMembers(Reasons(codes), r);
    }
    HeadIsMember(reasons);
    if reasons != [] {
      var r := reasons[0];
      UniqueMembers(Reasons(codes), r);
      ReasonMembers(codes, r);
      var i :| i in codes && ReasonOf(i) == Some(r);
      UniqueMembers(MapCodes(success.reasons), i);
      MapMembers(success.reasons, i);
    }
  }

  /** On anything the client accepts, coverage survives exactly when it is complete or some reason has a public counterpart. */
  lemma CoverageSurvives(mint: Mint, request: PublicRequest, s: Scoped, success: Success, env: Env, r: Request, n: nat)
    requires request.Exact? && SuccessAccepted(r, success, n)
    ensures (FullReply(mint, request, s, success, env).finding.coverage.Complete? <==> success.complete)
       <==> (success.complete || exists c :: c in success.reasons && ReasonOf(MapWorker(c)).Some?)
  {
    hide HitAccepted, FullReply;
    CoverageRule(mint, request, s, success, env);
  }

  /** Nothing found, and one reason that has no public counterpart. */
  function Unmapped(r: Request): Success {
    Success(r.id, false, [Code.MatchEncoding], [], Counts(0, 0, 0, 0, 0), seq(64, i => 0x30))
  }

  /** To any request: a partial result the client accepts and the service would report as complete, if a worker could send it. */
  lemma CoverageLost(mint: Mint, request: PublicRequest, s: Scoped, env: Env, r: Request)
    requires request.Exact? && BoundsAcceptable(r)
    ensures SuccessAccepted(r, Unmapped(r), 512) && !Unmapped(r).complete
    ensures FullReply(mint, request, s, Unmapped(r), env).finding.coverage.Complete?
  {
    hide FullReply;
    CoverageRule(mint, request, s, Unmapped(r), env);
  }

  // ---- Answers of the real worker -----------------------------------------------------------------------------

  /** Ids are digests, which the id schema admits. */
  ghost predicate Minted(mint: Mint) {
    forall w, p, path, d, r :: PublicId(mint.id(w, p, path, d, r))
  }

  /** The worker request that a public request becomes; id and deadline do not matter here. */
  ghost predicate WorkerTerms(request: PublicRequest, budget: nat, s: Scoped, r: Request) {
    && !r.validateScopeOnly && r.scope == s.scope && r.maxFileBytes == s.policy.maxFileBytes && r.responseBytes == budget
    && match request
       case Exact(_, kind, text, caseSensitive, maxMatches) =>
         r.read.None? && r.kind == kind && r.pattern == text && r.caseSensitive == caseSensitive && r.maxMatches == maxMatches
       case Read(_, path, range, _, expected) => r.read == Some(ReadRequest(path, range, expected))
       case Discover(_) => false
  }

  /** The reply came from a worker's search under those terms, in whatever file system. */
  ghost predicate AnsweredBy(request: PublicRequest, budget: nat, s: Scoped, j: Searching.Job, fd: World.Ino) {
    && Engines.Sound(j.e)
    && WorkerTerms(request, budget, s, j.r)
    && s.reply == match Searching.SearchAt(j, fd) { case Ok(success) => Client.Answered(success) case Err(code) => Client.Refused(code) }
  }

  /** The registry's answer carries the ids asked for, and a registered policy narrowed as asked. */
  ghost predicate ScopedFor(request: PublicRequest, s: Scoped, input: Policies.PolicyInput, narrow: Policies.Narrow) {
    && s.workspaceId == request.head.workspaceId && s.scopePolicyId == request.head.scopePolicyId
    && DigestText(s.policyHash) && DigestText(s.effectivePolicyHash)
    && Policies.CreatePolicy(input) == Some(s.policy)
    && Policies.NarrowPolicy(s.policy, narrow) == Some(s.scope)
  }

  lemma PatternIsText(p: bytes)
    requires Policies.PatternAcceptable(p)
    ensures TextWithin(p, 1024)
  {
    Utf8.Utf16NotLonger(p);
    hide Split, CleanBytes;
  }

  lemma CanonicalTexts(ps: seq<bytes>, canon: seq<bytes>)
    requires canon == Policies.Canonical(ps) && forall p :: p in ps ==> Policies.PatternAcceptable(p)
    ensures forall p :: p in canon ==> TextWithin(p, 1024)
  {
    hide Policies.PatternAcceptable, TextWithin, Policies.Canonical;
    forall p | p in canon
      ensures TextWithin(p, 1024)
    {
      Policies.CanonicalMembers(ps, p);
      PatternIsText(p);
    }
  }

  lemma ReportIsAccepted(request: PublicRequest, s: Scoped, input: Policies.PolicyInput, narrow: Policies.Narrow, success: Success)
    requires RequestAccepted(request) && ScopedFor(request, s, input, narrow)
    requires DigestText(success.policySnapshotHash)
    requires success.counts.searched <= MAX_SAFE_INTEGER && success.counts.failed <= MAX_SAFE_INTEGER
    ensures ReportAccepted(Report(s, success))
  {
    hide Policies.PatternAcceptable, TextWithin, Policies.Canonical, DigestText, PublicId, PathSchema, PatternTexts;
    CanonicalTexts(input.includes, s.policy.includes);
    CanonicalTexts(narrow.includes, s.scope.includeGroups[1]);
    CanonicalTexts(input.excludes, s.policy.excludes);
    UnitedTexts(s.policy.excludes, narrow.excludes, s.scope.exclude);
    TextList(s.policy.includes);
    TextList(s.scope.includeGroups[1]);
    assert s.scope.includeGroups == [s.policy.includes, s.scope.includeGroups[1]];
  }

  lemma TextList(ps: seq<bytes>)
    requires |ps| <= 64 && forall p :: p in ps ==> TextWithin(p, 1024)
    ensures PatternTexts(ps)
  {
  }

  lemma UnitedTexts(a: seq<bytes>, b: seq<bytes>, canon: seq<bytes>)
    requires canon == Policies.Canonical(a + b)
    requires forall p :: p in a ==> TextWithin(p, 1024)
    requires forall p :: p in b ==> Policies.PatternAcceptable(p)
    ensures forall p :: p in canon ==> TextWithin(p, 1024)
  {
    hide Policies.PatternAcceptable, TextWithin, Policies.Canonical;
    forall p | p in canon
      ensures TextWithin(p, 1024)
    {
      Policies.CanonicalMembers(a + b, p);
      if p in b {
        PatternIsText(p);
      }
    }
  }

  /** What the worker's truthfulness gives the service. */
  lemma WorkerFacts(request: PublicRequest, budget: nat, s: Scoped, j: Searching.Job, fd: World.Ino)
    requires AnsweredBy(request, budget, s, j, fd) && s.reply.Answered?
    ensures Searching.SearchAt(j, fd) == Ok(s.reply.success)
    ensures Responses.Truthful(j.r, s.reply.success)
    ensures s.reply.success.counts.searched <= MAX_SAFE_INTEGER && s.reply.success.counts.failed <= MAX_SAFE_INTEGER
    ensures request.Exact? ==> |s.reply.success.matches| <= request.maxMatches
  {
    hide Engines.Sound, Searching.SearchAt, HitAccepted;
    Responses.SuccessIsTruthful(j, fd);
    MatchesWithin(j, fd);
  }

  lemma MatchesWithin(j: Searching.Job, fd: World.Ino)
    requires Engines.Sound(j.e) && Searching.SearchAt(j, fd).Ok?
    ensures j.r.read.None? ==> |Searching.SearchAt(j, fd).value.matches| <= j.r.maxMatches
    ensures j.r.maxEntries <= 100_000
  {
    hide Engines.Sound, Searching.SearchAt, SearchInvariants.Vouched, HitAccepted, Responses.Reported,
      Searching.Conclude;
    Responses.SearchReports(j, fd);
    Responses.ConcludeTruth(j, Responses.Reported(j, fd));
  }

  lemma HitsAreShaped(j: Searching.Job, fd: World.Ino, h: Hit)
    requires Engines.Sound(j.e) && Searching.SearchAt(j, fd).Ok? && h in Searching.SearchAt(j, fd).value.matches
    ensures EvidenceShape(h)
    ensures j.r.read.Some? ==>
      && h.path == j.r.read.value.path && h.range == j.r.read.value.range
      && (j.r.read.value.expectedFileSha256.Some? ==> h.fileSha256 == j.r.read.value.expectedFileSha256.value)
      && !h.excerpt.truncated && h.excerpt.range == h.range
  {
    hide Engines.Sound, Searching.SearchAt, EvidenceShape, ValidPath, BoundsAcceptable;
    var content := Reads.HitsAreGenuine(j, fd, h);
    if j.r.read.Some? {
      ReadIsShort(j, fd);
      WholeExcerpt(h);
    }
  }

  lemma ReadIsShort(j: Searching.Job, fd: World.Ino)
    requires Engines.Sound(j.e) && Searching.SearchAt(j, fd).Ok?
    ensures j.r.read.Some? ==> j.r.read.value.range.end - j.r.read.value.range.start <= EXCERPT_BYTES
  {
    hide Engines.Sound, Searching.WalkAt, Searching.Conclude, BoundsAcceptable, ReadAcceptable;
  }

  lemma WholeExcerpt(h: Hit)
    requires EvidenceShape(h) && WellCut(h) && h.range.end - h.range.start <= EXCERPT_BYTES
    ensures !h.excerpt.truncated && h.excerpt.range.start == h.range.start && h.excerpt.range.end >= h.range.end
    ensures h.excerpt.range == h.range
  {
    hide PathSchema, Utf8.Valid;
  }

  lemma ExactCodes(reasons: seq<Code>, i: IssueCode)
    requires forall c :: c in reasons ==> Responses.ExactReason(c)
    ensures i in Unique(MapCodes(reasons)) ==> ReasonOf(i).Some? && Interruption(i) && !Fatal(i) && Justifies(i, ReasonOf(i).value)
  {
    hide Unique, MapCodes;
    UniqueMembers(MapCodes(reasons), i);
    MapMembers(reasons, i);
  }

  lemma FewReasons(rs: seq<PartialReason>)
    requires Distinct(rs)
    ensures |rs| <= 6
  {
    Responses.DistinctCardinality(rs);
    var all := {Limit, Interrupted, ReadFailure, TimedOut, PolicyChange, SourceMutation};
    forall r | r in rs
      ensures r in all
    {
      match r
      case Limit =>
      case Interrupted =>
      case ReadFailure =>
      case TimedOut =>
      case PolicyChange =>
      case SourceMutation =>
    }
    Responses.SubsetCardinality((set r | r in rs), all);
  }

  /** Issues and coverage of a truthful exact result are consistent before trimming. */
  lemma FullCoverageAccepted(success: Success)
    requires forall c :: c in success.reasons ==> Responses.ExactReason(c)
    requires success.complete <==> success.reasons == []
    requires success.complete ==> success.counts.failed == 0
    requires Distinct(success.reasons)
    ensures var codes := Unique(MapCodes(success.reasons));
            var issues := Issues(codes);
            var reasons := Unique(Reasons(codes));
            && |issues| <= 13
            && (forall i :: i in issues ==> !Fatal(i.code))
            && CoverageAccepted(CoverageOf(reasons), issues, success.counts.failed)
            && PartialJustified(reasons, issues)
            && (reasons == [] <==> success.complete)
  {
    hide Unique, MapCodes, Issues, Reasons, Fatal, Interruption, Justifies;
    var codes := Unique(MapCodes(success.reasons));
    var issues := Issues(codes);
    var reasons := Unique(Reasons(codes));
    Responses.FewCodes(success.reasons);
    UniqueDistinct(MapCodes(success.reasons));
    MapMembers(success.reasons, IssueCode.Deadline);
    IssueMembers(codes, IssueFor(IssueCode.Deadline));
    UniqueDistinct(Reasons(codes));
    FewReasons(reasons);
    forall i | i in issues
      ensures !Fatal(i.code) && success.reasons != []
    {
      IssueMembers(codes, i);
      ExactCodes(success.reasons, i.code);
      UniqueMembers(MapCodes(success.reasons), i.code);
      MapMembers(success.reasons, i.code);
    }
    forall r | r in reasons
      ensures exists i :: i in issues && Justifies(i.code, r)
    {
      UniqueMembers(Reasons(codes), r);
      ReasonMembers(codes, r);
      var c :| c in codes && ReasonOf(c) == Some(r);
      ExactCodes(success.reasons, c);
      IssueMembers(codes, IssueFor(c));
      assert IssueFor(c) in issues;
    }
    ReasonsTellCompleteness(success);
    HeadIsMember(issues);
  }

  lemma ReasonsTellCompleteness(success: Success)
    requires forall c :: c in success.reasons ==> Responses.ExactReason(c)
    ensures Unique(Reasons(Unique(MapCodes(success.reasons)))) == [] <==> success.reasons == []
    ensures success.reasons == [] ==> Issues(Unique(MapCodes(success.reasons))) == []
  {
    if success.reasons != [] {
      hide Unique, MapCodes, Issues, Reasons;
      var c := success.reasons[0];
      var i := MapWorker(c);
      var codes := Unique(MapCodes(success.reasons));
      MapMembers(success.reasons, i);
      UniqueMembers(MapCodes(success.reasons), i);
      ExactCodes(success.reasons, i);
      ReasonMembers(codes, ReasonOf(i).value);
      UniqueMembers(Reasons(codes), ReasonOf(i).value);
    }
  }

  lemma MarkedCoverageAccepted(full: PublicResponse)
    requires full.Reply? && full.finding.Matches? && |full.issues| <= 13
    requires forall i :: i in full.issues ==> !Fatal(i.code)
    requires full.finding.coverage.Partial? ==> PartialJustified(full.finding.coverage.reasons, full.issues)
    ensures var m := Marked(full);
            && |m.issues| <= 14
            && (forall i :: i in m.issues ==> !Fatal(i.code))
            && m.finding.coverage.Partial? && CoverageAccepted(m.finding.coverage, m.issues, m.scope.failed)
  {
    hide Justifies, Fatal, Unique, PartialJustified;
    var m := Marked(full);
    var reasons := if full.finding.coverage.Complete? then [] else full.finding.coverage.reasons;
    NothingJustified(full.issues);
    DistinctOf(reasons, full.issues);
    UniqueAppend(reasons, Limit);
    var b := IssueFor(IssueCode.ByteLimit);
    var more := full.issues + [b];
    assert more[|full.issues|] == b && forall i :: i in more ==> i in full.issues || i == b;
    LimitJustified(reasons, full.issues, m.issues);
    DistinctOf(m.finding.coverage.reasons, m.issues);
    FewReasons(m.finding.coverage.reasons);
    NotFatal(b);
  }

  lemma NotFatal(b: Issue)
    requires b == IssueFor(IssueCode.ByteLimit)
    ensures !Fatal(b.code)
  {
  }

  lemma NothingJustified(issues: seq<Issue>)
    ensures PartialJustified([], issues)
  {
  }

  lemma DistinctOf(rs: seq<PartialReason>, issues: seq<Issue>)
    requires PartialJustified(rs, issues)
    ensures Distinct(rs)
  {
  }

  /** An issue for the byte limit justifies adding the limit as a reason. */
  lemma LimitJustified(rs: seq<PartialReason>, issues: seq<Issue>, more: seq<Issue>)
    requires PartialJustified(rs, issues) && (forall i :: i in issues ==> i in more)
    requires exists i :: i in more && i.code == IssueCode.ByteLimit
    ensures PartialJustified(if Limit in rs then rs else rs + [Limit], more)
  {
    var i :| i in more && i.code == IssueCode.ByteLimit;
    assert Justifies(i.code, Limit);
    forall r | r in rs
      ensures exists x :: x in more && Justifies(x.code, r)
    {
      var x :| x in issues && Justifies(x.code, r);
      assert x in more;
    }
  }

  lemma ItemsAccepted(mint: Mint, s: Scoped, j: Searching.Job, fd: World.Ino, hits: seq<Hit>, kind: QueryKind, m: ExactMatch)
    requires Minted(mint) && Engines.Sound(j.e) && Searching.SearchAt(j, fd).Ok? && hits == Searching.SearchAt(j, fd).value.matches
    requires m in Items(mint, s, hits, kind)
    ensures ItemAccepted(m.evidence) && m.kind == kind
  {
    hide EvidenceShape, PublicId, Engines.Sound, Searching.SearchAt, Items;
    var i :| 0 <= i < |hits| && m == Items(mint, s, hits, kind)[i];
    assert hits[i] in hits;
    HitsAreShaped(j, fd, hits[i]);
  }

  /** The contract check on an exact answer of the worker can only pass, trimmed or not. */
  lemma ExactMeetsContract(z: Sizer, mint: Mint, request: PublicRequest, budget: nat, s: Scoped, j: Searching.Job, fd: World.Ino,
                           input: Policies.PolicyInput, narrow: Policies.Narrow, env: Env, n: nat)
    requires request.Exact? && RequestAccepted(request) && Minted(mint) && budget <= RESPONSE_BYTES
    requires AnsweredBy(request, budget, s, j, fd) && s.reply.Answered? && ScopedFor(request, s, input, narrow)
    requires n <= |s.reply.success.matches|
    ensures var full := FullReply(mint, request, s, s.reply.success, env);
            && (Size(z, full) <= budget ==> ResponseAccepted(z, full, request))
            && (Size(z, Keep(Marked(full), n)) <= budget ==> ResponseAccepted(z, Keep(Marked(full), n), request))
            && (full.finding.coverage.Complete? <==> s.reply.success.complete)
  {
    hide Size, Items, Unique, MapCodes, Issues, Reasons, CoverageAccepted, PartialJustified, ReportAccepted, Report,
      Marked, ItemAccepted, Engines.Sound, Searching.SearchAt, Responses.ExactReason, Fatal, ScopedFor, HitAccepted,
      PathSchema, PublicId, WorkerTerms, PatternTexts;
    var success := s.reply.success;
    WorkerFacts(request, budget, s, j, fd);
    ReportIsAccepted(request, s, input, narrow, success);
    FullCoverageAccepted(success);
    var full := FullReply(mint, request, s, success, env);
    MarkedCoverageAccepted(full);
    forall m | m in full.finding.matches
      ensures ItemAccepted(m.evidence) && m.kind == request.kind
    {
      ItemsAccepted(mint, s, j, fd, success.matches, request.kind, m);
    }
    ReportNames(request, s, input, narrow, success);
    MarkedKeeps(full);
    FewMatches(request);
  }

  lemma FewMatches(request: PublicRequest)
    requires request.Exact? && RequestAccepted(request)
    ensures request.maxMatches <= 1000 && PublicId(request.head.requestId)
  {
    hide PublicId, TextWithin;
  }

  lemma MarkedKeeps(full: PublicResponse)
    requires full.Reply? && full.finding.Matches?
    ensures var m := Marked(full);
            m.requestId == full.requestId && m.scope == full.scope && m.finding.startedAt == full.finding.startedAt && m.finding.endedAt == full.finding.endedAt
  {
    hide Unique;
  }

  lemma ReportNames(request: PublicRequest, s: Scoped, input: Policies.PolicyInput, narrow: Policies.Narrow, success: Success)
    requires ScopedFor(request, s, input, narrow)
    ensures var report := Report(s, success);
            && report.workspaceId == request.head.workspaceId && report.policyId == request.head.scopePolicyId
            && report.failed == success.counts.failed
  {
    hide DigestText, Policies.PatternsAcceptable;
  }

  /** The exact answer that leaves the service, for an answer of the worker. */
  ghost predicate ExactOutcome(z: Sizer, mint: Mint, request: PublicRequest, budget: nat, s: Scoped, success: Success, env: Env, r: PublicResponse)
    requires request.Exact?
  {
    var full := FullReply(mint, request, s, success, env);
    var marked := Marked(full);
    match r
    case Problem(_, error) =>
      || (error.code == IssueCode.ByteLimit && Size(z, full) > budget && !Fits(z, marked, budget, 0))
      || (error.code == IssueCode.Deadline && (env.lateEnd || exists k :: env.lateAt(k)))
    case Reply(_, _, issues, finding) =>
      var all := Items(mint, s, success.matches, request.kind);
      && finding.Matches? && finding.matches <= all
      && (finding.coverage.Complete? <==> success.complete && finding.matches == all)
      && (finding.matches != all ==> !Fits(z, marked, budget, |finding.matches| + 1))
  }

  /**
   Coverage is preserved: the service reports complete exactly when the worker did and nothing was trimmed; what is
   trimmed is a suffix, and one match more would not have fitted. The service gives no answer only when not even an
   empty one fits, which is BYTE_LIMIT, or when a deadline has passed, which is DEADLINE.
   */
  lemma ExactFinishes(z: Sizer, mint: Mint, request: PublicRequest, budget: nat, s: Scoped, j: Searching.Job, fd: World.Ino,
                      input: Policies.PolicyInput, narrow: Policies.Narrow, env: Env)
    requires request.Exact? && RequestAccepted(request) && Minted(mint) && 2048 <= budget <= RESPONSE_BYTES
    requires AnsweredBy(request, budget, s, j, fd) && s.reply.Answered? && ScopedFor(request, s, input, narrow)
    ensures ExactOutcome(z, mint, request, budget, s, s.reply.success, env, FinishExact(z, mint, request, s, s.reply.success, budget, env))
  {
    hide Size, ResponseAccepted, RequestAccepted, AnsweredBy, ScopedFor, Minted, Marked, Items, Report, Issues,
      Unique, MapCodes, Reasons, CutAt, Fits;
    var success := s.reply.success;
    var full := FullReply(mint, request, s, success, env);
    ExactMeetsContract(z, mint, request, budget, s, j, fd, input, narrow, env, |success.matches|);
    if Size(z, full) > budget {
      var marked := Marked(full);
      FullIsMarkable(success, full, request, mint, s, env);
      MarkingGrows(z, full);
      WholeDoesNotFit(z, marked, budget);
      var cut := CutAt(z, marked, budget, env.lateAt, 0, 0, |full.finding.matches|);
      if cut.None? {
        CutRunsOut(z, marked, budget, env.lateAt, 0, 0, |full.finding.matches|);
      } else {
        CutInvariant(z, marked, budget, env.lateAt, 0, 0, |full.finding.matches|);
        ExactMeetsContract(z, mint, request, budget, s, j, fd, input, narrow, env, cut.value);
        MarkedIsPartial(full);
        FitsIsSize(z, marked, budget, cut.value);
      }
    }
  }

  /** The cut is given up only on a deadline. */
  lemma {:induction false} CutRunsOut(z: Sizer, r: PublicResponse, budget: nat, lateAt: nat -> bool, step: nat, low: nat, high: nat)
    requires r.Reply? && r.finding.Matches? && low <= high <= |r.finding.matches|
    requires CutAt(z, r, budget, lateAt, step, low, high).None?
    ensures exists k :: lateAt(k)
    decreases high - low
  {
    hide Fits;
    if !lateAt(step) {
      var middle := (low + high + 1) / 2;
      if Fits(z, r, budget, middle) {
        CutRunsOut(z, r, budget, lateAt, step + 1, middle, high);
      } else {
        CutRunsOut(z, r, budget, lateAt, step + 1, low, middle - 1);
      }
    }
  }

  lemma FitsIsSize(z: Sizer, r: PublicResponse, budget: nat, n: nat)
    requires r.Reply? && r.finding.Matches? && n <= |r.finding.matches|
    ensures Fits(z, r, budget, n) <==> Size(z, Keep(r, n)) <= budget
  {
  }

  lemma WholeDoesNotFit(z: Sizer, r: PublicResponse, budget: nat)
    requires r.Reply? && r.finding.Matches? && Size(z, r) > budget
    ensures !Fits(z, r, budget, |r.finding.matches|)
  {
    assert r.finding.matches[..|r.finding.matches|] == r.finding.matches;
  }

  lemma MarkedIsPartial(full: PublicResponse)
    requires full.Reply? && full.finding.Matches?
    ensures Marked(full).finding.coverage.Partial?
  {
  }

  lemma FullIsMarkable(success: Success, full: PublicResponse, request: PublicRequest, mint: Mint, s: Scoped, env: Env)
    requires request.Exact? && full == FullReply(mint, request, s, success, env)
    ensures full.finding.coverage.Partial? ==> Distinct(full.finding.coverage.reasons)
  {
    hide Unique, MapCodes, Reasons;
    UniqueDistinct(Reasons(Unique(MapCodes(success.reasons))));
  }

  lemma ReadAnswerShape(j: Searching.Job, fd: World.Ino)
    requires Engines.Sound(j.e) && j.r.read.Some? && Searching.SearchAt(j, fd).Ok?
    ensures Searching.SearchAt(j, fd).value.reasons == [] && Searching.SearchAt(j, fd).value.matches != []
  {
    hide Engines.Sound, Searching.SearchAt, SearchInvariants.Vouched, HitAccepted, Responses.Reported,
      Protocol.Validate;
    Responses.SearchReports(j, fd);
  }

  /** The passage that answers a read. */
  function ReadReply(mint: Mint, request: PublicRequest, s: Scoped, success: Success): PublicResponse
    requires request.Read? && success.matches != []
  {
    Reply(request.head.requestId, Report(s, success), Issues(Unique(MapCodes(success.reasons))),
          Passage(request.expected.Some?, Item(mint, s, success.matches[0])))
  }

  /**
   A read answered by the worker passes the contract: it is BYTE_LIMIT exactly when the passage does not fit, DEADLINE
   exactly when it fits too late, and otherwise the passage asked for.
   */
  lemma ReadFinishes(z: Sizer, mint: Mint, request: PublicRequest, budget: nat, s: Scoped, j: Searching.Job, fd: World.Ino,
                     input: Policies.PolicyInput, narrow: Policies.Narrow, env: Env)
    requires request.Read? && RequestAccepted(request) && Minted(mint) && 2048 <= budget <= RESPONSE_BYTES
    requires AnsweredBy(request, budget, s, j, fd) && s.reply.Answered? && ScopedFor(request, s, input, narrow)
    ensures s.reply.success.matches != []
    ensures var r := FinishRead(z, mint, request, s, s.reply.success, budget, env);
            var passage := ReadReply(mint, request, s, s.reply.success);
            && passage.issues == []
            && (Size(z, passage) <= budget ==> ResponseAccepted(z, passage, request))
            && r == if Size(z, passage) > budget then Fault(request, Own(IssueCode.ByteLimit))
                    else if env.lateEnd then Fault(request, Own(IssueCode.Deadline))
                    else passage
  {
    hide Size, ReportAccepted, Report, EvidenceShape, Engines.Sound, Searching.SearchAt, ScopedFor, PublicId,
      PathSchema, HeadAccepted, Responses.Truthful, Utf8.Valid, DigestText;
    var success := s.reply.success;
    WorkerFacts(request, budget, s, j, fd);
    ReadAnswerShape(j, fd);
    ReadReport(request, s, input, narrow, j.r, success);
    HitsAreShaped(j, fd, success.matches[0]);
    ReportNames(request, s, input, narrow, success);
    ReadId(request);
  }

  lemma ReadId(request: PublicRequest)
    requires RequestAccepted(request)
    ensures PublicId(request.head.requestId)
  {
    hide PublicId, PathSchema, TextWithin, Utf8.Valid;
  }

  lemma ReadReport(request: PublicRequest, s: Scoped, input: Policies.PolicyInput, narrow: Policies.Narrow, r: Request, success: Success)
    requires RequestAccepted(request) && ScopedFor(request, s, input, narrow) && Responses.Truthful(r, success)
    requires success.counts.searched <= MAX_SAFE_INTEGER && success.counts.failed <= MAX_SAFE_INTEGER
    ensures ReportAccepted(Report(s, success))
  {
    hide RequestAccepted, ScopedFor, ReportAccepted, Report, HitAccepted, Responses.ExactReason;
    ReportIsAccepted(request, s, input, narrow, success);
  }

  // ---- Evidence across operations ---------------------------------------------------------------------------

  /** Reading back an untruncated hit of a complete search yields the same evidence item, id included. */
  lemma EvidenceReadsBack(j: Searching.Job, q: Searching.Job, fj: World.Ino, fq: World.Ino, es: seq<Trees.Entry>, h: Hit,
                          mint: Mint, a: Scoped, b: Scoped)
    requires ReadAgreement.SameTerms(j, q) && Acceptance.ProperListings(q.w)
    requires !j.r.validateScopeOnly && !q.r.validateScopeOnly && q.e.patternOk(q.r)
    requires Trees.MirrorsFolder(j.w, fj, [], es) && Trees.MirrorsFolder(q.w, fq, [], es)
    requires Searching.SearchAt(j, fj).Ok? && Searching.SearchAt(j, fj).value.complete && h in Searching.SearchAt(j, fj).value.matches
    requires !h.excerpt.truncated && Reads.AsksFor(q.r, h) && q.r.responseBytes >= j.r.responseBytes
    requires a.workspaceId == b.workspaceId && a.policyHash == b.policyHash
    ensures Searching.SearchAt(q, fq).Ok? && |Searching.SearchAt(q, fq).value.matches| == 1
    ensures Item(mint, b, Searching.SearchAt(q, fq).value.matches[0]) == Item(mint, a, h)
  {
    hide Searching.SearchAt, ReadAgreement.SameTerms, Trees.MirrorsFolder, Acceptance.ProperListings, Reads.AsksFor;
    Reads.HitsReadBack(j, q, fj, fq, es, h);
  }
}
