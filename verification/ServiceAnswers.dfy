/** What a caller is told: which codes and partial reasons leave the service, for everything that can reach it. */
module ServiceAnswers {
  import opened Basics
  import opened Protocol
  import opened Contracts
  import opened Service
  import opened ServiceProofs

  // ---- Errors -------------------------------------------------------------------------------------------------

  /** The public code of whatever was raised. */
  predicate ShownAs(raw: Raw, code: IssueCode) {
    match raw
    case FromWorker(InvalidRequest) => code == IssueCode.InvalidRequest
    case FromWorker(RegexInvalid) => code == IssueCode.InvalidRequest
    case FromWorker(MatchEncoding) => code == IssueCode.CapabilityUnavailable
    case FromWorker(ReadFailed) => code == IssueCode.ReadFailed
    case FromWorker(SourceMutated) => code == IssueCode.SourceMutated
    case FromWorker(Deadline) => code == IssueCode.Deadline
    case FromWorker(LimitReached) => code == IssueCode.LimitReached
    case FromWorker(ByteLimit) => code == IssueCode.ByteLimit
    case FromWorker(EntryLimit) => code == IssueCode.LimitReached
    case FromWorker(DepthLimit) => code == IssueCode.LimitReached
    case FromWorker(PolicyChanged) => code == IssueCode.PolicyChanged
    case FromWorker(OutOfScope) => code == IssueCode.OutOfScope
    case FromWorker(RevisionMismatch) => code == IssueCode.RevisionMismatch
    case FromClient(Cancelled) => code == IssueCode.Cancelled
    case FromClient(DeadlinePassed) => code == IssueCode.Deadline
    case FromClient(BadRequest) => code == IssueCode.InvalidRequest
    case FromClient(_) => code == IssueCode.Unavailable
    case FromWorkspace(BadWorkspaceRequest) => code == IssueCode.InvalidRequest
    case FromWorkspace(WorkspaceOutOfScope) => code == IssueCode.OutOfScope
    case FromWorkspace(_) => code == IssueCode.Unavailable
    case Own(own) => code == own
  }

  /** An error under the request's id: at validation if the request is at fault, which alone says to fix it. */
  predicate Refuses(r: PublicResponse, requestId: bytes, code: IssueCode) {
    && r.Problem? && r.requestId == requestId && r.error.code == code && !r.error.retryable
    && (r.error.stage == Validation <==> code == IssueCode.InvalidRequest || code == IssueCode.UnsupportedVersion)
    && (r.error.nextAction == FixRequest <==> code == IssueCode.InvalidRequest)
  }

  /** The error that what was raised is shown as. */
  predicate RefusedFor(r: PublicResponse, requestId: bytes, raw: Raw) {
    r.Problem? && ShownAs(raw, r.error.code) && Refuses(r, requestId, r.error.code)
  }

  lemma FaultShown(request: PublicRequest, raw: Raw)
    ensures RefusedFor(Fault(request, raw), request.head.requestId, raw)
  {
  }

  /** The id an unacceptable request is answered under: its own if that has the shape of one, or `invalid`. */
  predicate AnsweredUnder(input: Input, id: bytes) {
    match input
    case Malformed(Some(own), _) => id == if PublicId(own) then own else Octets("invalid")
    case Malformed(None, _) => id == Octets("invalid")
    case Shaped(request) => id == if PublicId(request.head.requestId) then request.head.requestId else Octets("invalid")
  }

  /** Each way for an execution to end early, in the order they are looked at, and the error it ends with. */
  lemma EarlyEnds(z: Sizer, mint: Mint, caps: Context, input: Input, contextInput: Option<Context>, timing: Timing)
    ensures var r := ExecuteAt(z, mint, caps, input, contextInput, timing);
            if !Parsed(input) || contextInput.None? || !ContextAccepted(contextInput.value) then
              && AnsweredUnder(input, r.requestId)
              && Refuses(r, r.requestId, if input.Malformed? && input.wrongVersion then IssueCode.UnsupportedVersion else IssueCode.InvalidRequest)
            else
              var id := input.request.head.requestId;
              var deadline := Min(contextInput.value.deadlineMs, caps.deadlineMs) as real;
              if timing.abortedFirst then Refuses(r, id, IssueCode.Cancelled)
              else if input.request.Discover? then Refuses(r, id, IssueCode.CapabilityUnavailable)
              else if timing.first > deadline - 1.0 then Refuses(r, id, IssueCode.Deadline)
              else if timing.reached.Raised? then RefusedFor(r, id, timing.reached.raw)
              else if timing.abortedLater then Refuses(r, id, IssueCode.Cancelled)
              else if timing.after >= deadline then Refuses(r, id, IssueCode.Deadline)
              else timing.reached.scoped.reply.Refused? ==> RefusedFor(r, id, FromWorker(timing.reached.scoped.reply.code))
  {
    hide RequestAccepted, FinishExact, FinishRead, ShownAs, Refuses, Fault;
    if Parsed(input) {
      var request := input.request;
      OwnShown(request);
      if timing.reached.Raised? {
        FaultShown(request, timing.reached.raw);
      } else if timing.reached.scoped.reply.Refused? {
        FaultShown(request, FromWorker(timing.reached.scoped.reply.code));
      }
    }
    RefusalShown(input);
  }

  lemma RefusalShown(input: Input)
    ensures AnsweredUnder(input, Refusal(input).requestId)
    ensures Refuses(Refusal(input), Refusal(input).requestId,
                    if input.Malformed? && input.wrongVersion then IssueCode.UnsupportedVersion else IssueCode.InvalidRequest)
  {
    assert INVALID == Octets("invalid");
    hide PublicId;
  }

  lemma OwnShown(request: PublicRequest)
    ensures forall code :: Refuses(Fault(request, Own(code)), request.head.requestId, code)
  {
  }

  // ---- Reasons ------------------------------------------------------------------------------------------------

  ghost predicate Told(issues: seq<Issue>, code: IssueCode) { exists i :: i in issues && i.code == code }

  /** Which partial reasons an answer gives: each exactly for the worker's codes it stands for, and a limit also when trimmed. */
  ghost predicate ReasonsTold(reasons: seq<PartialReason>, cs: seq<Code>, trimmed: bool) {
    && (ReadFailure in reasons <==> Code.ReadFailed in cs)
    && (TimedOut in reasons <==> Code.Deadline in cs)
    && (PolicyChange in reasons <==> Code.PolicyChanged in cs)
    && (SourceMutation in reasons <==> Code.SourceMutated in cs)
    && (Limit in reasons <==> trimmed || Code.LimitReached in cs || Code.ByteLimit in cs || Code.EntryLimit in cs || Code.DepthLimit in cs)
    && Interrupted !in reasons
  }

  /** Which issues it lists. */
  ghost predicate IssuesTold(issues: seq<Issue>, cs: seq<Code>, trimmed: bool) {
    && (Told(issues, IssueCode.ReadFailed) <==> Code.ReadFailed in cs)
    && (Told(issues, IssueCode.Deadline) <==> Code.Deadline in cs)
    && (Told(issues, IssueCode.PolicyChanged) <==> Code.PolicyChanged in cs)
    && (Told(issues, IssueCode.SourceMutated) <==> Code.SourceMutated in cs)
    && (Told(issues, IssueCode.LimitReached) <==> Code.LimitReached in cs || Code.EntryLimit in cs || Code.DepthLimit in cs)
    && (Told(issues, IssueCode.ByteLimit) <==> trimmed || Code.ByteLimit in cs)
    && (Told(issues, IssueCode.InvalidRequest) <==> Code.InvalidRequest in cs || Code.RegexInvalid in cs)
    && (Told(issues, IssueCode.CapabilityUnavailable) <==> Code.MatchEncoding in cs)
    && (Told(issues, IssueCode.OutOfScope) <==> Code.OutOfScope in cs)
    && (Told(issues, IssueCode.RevisionMismatch) <==> Code.RevisionMismatch in cs)
    && !Told(issues, IssueCode.Unavailable) && !Told(issues, IssueCode.Cancelled) && !Told(issues, IssueCode.UnsupportedVersion)
  }

  lemma CodeTold(cs: seq<Code>, code: IssueCode)
    ensures Told(Issues(Unique(MapCodes(cs))), code) <==> exists c :: c in cs && MapWorker(c) == code
  {
    hide MapWorker, MapCodes, Unique, Issues;
    var codes := Unique(MapCodes(cs));
    UniqueMembers(MapCodes(cs), code);
    MapMembers(cs, code);
    IssueMembers(codes, IssueFor(code));
    forall i | i in Issues(codes)
      ensures i.code in codes
    {
      IssueMembers(codes, i);
    }
  }

  lemma ReasonTold(cs: seq<Code>, r: PartialReason)
    ensures r in Unique(Reasons(Unique(MapCodes(cs)))) <==> exists c :: c in cs && ReasonOf(MapWorker(c)) == Some(r)
  {
    hide MapWorker, ReasonOf, MapCodes, Unique, Reasons;
    var codes := Unique(MapCodes(cs));
    UniqueMembers(Reasons(codes), r);
    ReasonMembers(codes, r);
    forall i
      ensures i in codes <==> exists c :: c in cs && MapWorker(c) == i
    {
      UniqueMembers(MapCodes(cs), i);
      MapMembers(cs, i);
    }
  }

  lemma AllIssuesTold(cs: seq<Code>)
    ensures IssuesTold(Issues(Unique(MapCodes(cs))), cs, false)
  {
    hide MapCodes, Unique, Issues, Told;
    forall code
      ensures Told(Issues(Unique(MapCodes(cs))), code) <==> exists c :: c in cs && MapWorker(c) == code
    {
      CodeTold(cs, code);
    }
  }

  lemma AllReasonsTold(cs: seq<Code>)
    ensures ReasonsTold(Unique(Reasons(Unique(MapCodes(cs)))), cs, false)
  {
    hide MapCodes, Unique, Reasons;
    forall r
      ensures r in Unique(Reasons(Unique(MapCodes(cs)))) <==> exists c :: c in cs && ReasonOf(MapWorker(c)) == Some(r)
    {
      ReasonTold(cs, r);
    }
  }

  /** Marking adds the byte limit, and nothing else. */
  lemma Marks(full: PublicResponse, cs: seq<Code>)
    requires full.Reply? && full.finding.Matches?
    requires IssuesTold(full.issues, cs, false)
    requires ReasonsTold(if full.finding.coverage.Complete? then [] else full.finding.coverage.reasons, cs, false)
    ensures IssuesTold(Marked(full).issues, cs, true) && Marked(full).finding.coverage.Partial?
    ensures ReasonsTold(Marked(full).finding.coverage.reasons, cs, true)
  {
    hide Unique;
    var reasons := if full.finding.coverage.Complete? then [] else full.finding.coverage.reasons;
    forall r
      ensures r in Unique(reasons + [Limit]) <==> r in reasons || r == Limit
    {
      UniqueMembers(reasons + [Limit], r);
    }
    var issues := full.issues;
    var marked := Marked(full).issues;
    if Told(issues, IssueCode.ByteLimit) {
      var i :| i in issues && i.code == IssueCode.ByteLimit;
    }
    forall code
      ensures Told(marked, code) <==> Told(issues, code) || code == IssueCode.ByteLimit
    {
      if Told(issues, code) {
        var i :| i in issues && i.code == code;
        assert i in marked;
      }
      if marked == issues + [IssueFor(IssueCode.ByteLimit)] {
        assert IssueFor(IssueCode.ByteLimit) in marked;
      }
    }
    hide Told, Marked;
  }

  /**
   A search that is answered: its partial reasons and its issues are exactly those of the worker's codes, and the limit's
   as well when the answer was trimmed.
   */
  lemma AnswerTells(z: Sizer, mint: Mint, request: PublicRequest, s: Scoped, success: Success, budget: nat, env: Env)
    requires request.Exact? && FinishExact(z, mint, request, s, success, budget, env).Reply?
    ensures var r := FinishExact(z, mint, request, s, success, budget, env);
            && r.finding.Matches? && |r.finding.matches| <= |success.matches|
            && var trimmed := |r.finding.matches| < |success.matches|;
               && IssuesTold(r.issues, success.reasons, trimmed)
               && ReasonsTold(if r.finding.coverage.Complete? then [] else r.finding.coverage.reasons, success.reasons, trimmed)
  {
    hide Size, ResponseAccepted, Marked, Items, Report, Issues, Unique, MapCodes, Reasons, CutAt, Fits, IssuesTold, ReasonsTold;
    var full := FullReply(mint, request, s, success, env);
    AllIssuesTold(success.reasons);
    AllReasonsTold(success.reasons);
    if Size(z, full) > budget {
      Marks(full, success.reasons);
      FullIsMarkable(success, full, request, mint, s, env);
      MarkingGrows(z, full);
      WholeDoesNotFit(z, Marked(full), budget);
      FitsIsSize(z, Marked(full), budget, |full.finding.matches|);
    }
  }

  /** So are the issues that come with a passage. */
  lemma PassageTells(z: Sizer, mint: Mint, request: PublicRequest, s: Scoped, success: Success, budget: nat, env: Env)
    requires request.Read? && FinishRead(z, mint, request, s, success, budget, env).Reply?
    ensures IssuesTold(FinishRead(z, mint, request, s, success, budget, env).issues, success.reasons, false)
  {
    hide Size, ResponseAccepted, Items, Report, Issues, Unique, MapCodes, IssuesTold;
    AllIssuesTold(success.reasons);
  }

  // ---- Contents -----------------------------------------------------------------------------------------------

  /** The report names the workspace and policy, the fingerprints, and the terms of the search, as the registry gave them. */
  predicate Describes(report: ScopeReport, s: Scoped, success: Success) {
    && report.workspaceId == s.workspaceId && report.policyId == s.scopePolicyId
    && report.policyHash == s.policyHash && report.effectivePolicyHash == s.effectivePolicyHash
    && report.policySnapshotHash == success.policySnapshotHash
    && report.includeGroups == s.scope.includeGroups && report.excludes == s.scope.exclude
    && (|report.includeGroups| == 2 ==> report.includes == if report.includeGroups[1] == [] then s.policy.includes else report.includeGroups[1])
    && report.hidden == s.policy.hidden && report.respectIgnore == s.policy.respectIgnore && report.maxFileBytes == s.policy.maxFileBytes
    && report.searched == success.counts.searched && report.failed == success.counts.failed
  }

  /** The evidence is the worker's hit, identified by workspace, policy, path, revision and range. */
  predicate Identifies(mint: Mint, s: Scoped, hit: Hit, e: EvidenceItem) {
    e.hit == hit && e.id == mint.id(s.workspaceId, s.policyHash, hit.path, hit.fileSha256, hit.range)
  }

  /** What an answer holds, whatever is trimmed of it: the worker's hits in order, under the request's id and kind. */
  predicate Presents(mint: Mint, request: PublicRequest, s: Scoped, success: Success, env: Env, r: PublicResponse)
    requires request.Exact? || request.Read?
  {
    && r.Reply? && r.requestId == request.head.requestId && Describes(r.scope, s, success)
    && match r.finding
       case Matches(_, ms, startedAt, endedAt) =>
         && request.Exact? && |ms| <= |success.matches|
         && (forall i :: 0 <= i < |ms| ==> Identifies(mint, s, success.matches[i], ms[i].evidence) && ms[i].kind == request.kind)
         && startedAt == env.startedAt && endedAt == (if env.now < env.startedAt then env.startedAt else env.now)
       case Passage(verified, e) =>
         && request.Read? && |success.matches| > 0 && Identifies(mint, s, success.matches[0], e) && verified == request.expected.Some?
  }

  lemma ProblemsAreShown(z: Sizer, mint: Mint, request: PublicRequest, s: Scoped, success: Success, budget: nat, env: Env)
    ensures request.Exact? ==>
              var r := FinishExact(z, mint, request, s, success, budget, env); r.Problem? ==> Refuses(r, request.head.requestId, r.error.code)
    ensures request.Read? ==>
              var r := FinishRead(z, mint, request, s, success, budget, env); r.Problem? ==> Refuses(r, request.head.requestId, r.error.code)
  {
    hide Size, ResponseAccepted, Marked, Report, Items, Item, Issues, Unique, MapCodes, Reasons, CutAt;
  }

  lemma AnswerPresents(z: Sizer, mint: Mint, request: PublicRequest, s: Scoped, success: Success, budget: nat, env: Env)
    ensures request.Exact? && FinishExact(z, mint, request, s, success, budget, env).Reply? ==>
              Presents(mint, request, s, success, env, FinishExact(z, mint, request, s, success, budget, env))
    ensures request.Read? && FinishRead(z, mint, request, s, success, budget, env).Reply? ==>
              Presents(mint, request, s, success, env, FinishRead(z, mint, request, s, success, budget, env))
  {
    hide Size, ResponseAccepted, Issues, Unique, MapCodes, Reasons, CutAt, CoverageOf;
    if request.Exact? {
      MarkedKeeps(FullReply(mint, request, s, success, env));
    }
    hide Marked;
  }

  /** A read for which no hit came back. */
  lemma EmptyReads(z: Sizer, mint: Mint, request: PublicRequest, s: Scoped, success: Success, budget: nat, env: Env)
    requires request.Read? && success.matches == []
    ensures Refuses(FinishRead(z, mint, request, s, success, budget, env), request.head.requestId, IssueCode.ReadFailed)
  {
  }
}
