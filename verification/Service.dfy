/** The exact-search service: code mapping, evidence identity, coverage, and trimming to the response budget. */
module Service {
  import opened Basics
  import opened Paths
  import opened Protocol
  import opened Contracts
  import Policies
  import Client

  datatype WorkspaceFault = BadWorkspaceRequest | WorkspaceUnavailable | WorkspaceOutOfScope | RegistryClosed | RegistryFull

  /** Every code that reaches the service's mapping. */
  datatype Raw = FromWorker(code: Code) | FromClient(fault: Client.Fault) | FromWorkspace(workspace: WorkspaceFault) | Own(issue: IssueCode)

  function MapWorker(c: Code): IssueCode {
    match c
    case InvalidRequest => IssueCode.InvalidRequest
    case RegexInvalid => IssueCode.InvalidRequest
    case MatchEncoding => IssueCode.CapabilityUnavailable
    case ReadFailed => IssueCode.ReadFailed
    case SourceMutated => IssueCode.SourceMutated
    case Deadline => IssueCode.Deadline
    case LimitReached => IssueCode.LimitReached
    case ByteLimit => IssueCode.ByteLimit
    case EntryLimit => IssueCode.LimitReached
    case DepthLimit => IssueCode.LimitReached
    case PolicyChanged => IssueCode.PolicyChanged
    case OutOfScope => IssueCode.OutOfScope
    case RevisionMismatch => IssueCode.RevisionMismatch
  }

  function MapRaw(raw: Raw): IssueCode {
    match raw
    case FromWorker(c) => MapWorker(c)
    case FromClient(f) =>
      (match f
       case Cancelled => IssueCode.Cancelled
       case DeadlinePassed => IssueCode.Deadline
       case BadRequest => IssueCode.InvalidRequest
       case _ => IssueCode.Unavailable)
    case FromWorkspace(w) =>
      (match w
       case BadWorkspaceRequest => IssueCode.InvalidRequest
       case WorkspaceOutOfScope => IssueCode.OutOfScope
       case _ => IssueCode.Unavailable)
    case Own(i) => i
  }

  function IssueFor(code: IssueCode): Issue {
    Issue(code,
          if code == IssueCode.InvalidRequest || code == IssueCode.UnsupportedVersion then Validation else Workspace,
          false,
          if code == IssueCode.InvalidRequest then FixRequest else NoAction)
  }

  /** The partial reason a code stands for, if any. */
  function ReasonOf(code: IssueCode): Option<PartialReason> {
    match code
    case LimitReached => Some(Limit)
    case ByteLimit => Some(Limit)
    case Cancelled => Some(Interrupted)
    case ReadFailed => Some(ReadFailure)
    case Deadline => Some(TimedOut)
    case PolicyChanged => Some(PolicyChange)
    case SourceMutated => Some(SourceMutation)
    case _ => None
  }

  /** First occurrences, in order. */
  function Unique<T(==)>(xs: seq<T>): seq<T> {
    if |xs| == 0 then []
    else
      var rest := Unique(xs[..|xs| - 1]);
      if xs[|xs| - 1] in xs[..|xs| - 1] then rest else rest + [xs[|xs| - 1]]
  }

  function MapCodes(cs: seq<Code>): seq<IssueCode> {
    if |cs| == 0 then [] else MapCodes(cs[..|cs| - 1]) + [MapWorker(cs[|cs| - 1])]
  }

  function Issues(codes: seq<IssueCode>): seq<Issue> {
    if |codes| == 0 then [] else Issues(codes[..|codes| - 1]) + [IssueFor(codes[|codes| - 1])]
  }

  function Reasons(codes: seq<IssueCode>): seq<PartialReason> {
    if |codes| == 0 then []
    else
      var rest := Reasons(codes[..|codes| - 1]);
      match ReasonOf(codes[|codes| - 1])
      case None => rest
      case Some(r) => rest + [r]
  }

  function CoverageOf(reasons: seq<PartialReason>): Coverage { if reasons == [] then Complete else Partial(reasons) }

  /** What the registry hands back for a search. */
  datatype Scoped = Scoped(
    workspaceId: bytes,
    scopePolicyId: bytes,
    policyHash: bytes,
    effectivePolicyHash: bytes,
    policy: Policies.Policy,
    scope: ScopeInput,
    reply: Client.Reply)

  datatype Reached = Raised(raw: Raw) | Returned(scoped: Scoped)

  datatype Context = Context(deadlineMs: nat, responseBytes: nat)

  predicate ContextAccepted(c: Context) { 1 <= c.deadlineMs <= 30_000 && 2048 <= c.responseBytes <= RESPONSE_BYTES }

  function Clamped(c: Context, caps: Context): Context {
    Context(Min(c.deadlineMs, caps.deadlineMs), Min(c.responseBytes, caps.responseBytes))
  }

  /** A request as received: of the wrong shape, or with fields still to be checked. */
  datatype Input = Malformed(requestId: Option<bytes>, wrongVersion: bool) | Shaped(request: PublicRequest)

  /** What the readings of the clock and the signals mean for one execution, and what the registry answered. */
  datatype Env = Env(
    abortedFirst: bool,
    remaining: int,
    reached: Reached,
    abortedLater: bool,
    late: bool,
    lateAt: nat -> bool,
    lateEnd: bool,
    startedAt: nat,
    now: nat)

  /** One execution as the clock and the signal show it: milliseconds since the call at each reading. */
  datatype Timing = Timing(
    abortedFirst: bool,
    first: real,
    reached: Reached,
    abortedLater: bool,
    after: real,
    at: nat -> real,
    end: real,
    startedAt: nat,
    now: nat)

  predicate Late(elapsed: real, deadlineMs: nat) { elapsed >= deadlineMs as real }

  /** Whole milliseconds that are left. */
  function Remaining(elapsed: real, deadlineMs: nat): int { (deadlineMs as real - elapsed).Floor }

  function Seen(t: Timing, deadlineMs: nat): Env {
    Env(t.abortedFirst, Remaining(t.first, deadlineMs), t.reached, t.abortedLater, Late(t.after, deadlineMs),
        (step: nat) => Late(t.at(step), deadlineMs), Late(t.end, deadlineMs), t.startedAt, t.now)
  }

  /** The evidence id of a hit: a digest over workspace, policy, path, revision and range. */
  datatype Mint = Mint(id: (bytes, bytes, Path, bytes, Range) -> bytes)

  function Item(mint: Mint, s: Scoped, h: Hit): EvidenceItem {
    EvidenceItem(mint.id(s.workspaceId, s.policyHash, h.path, h.fileSha256, h.range), h)
  }

  function Items(mint: Mint, s: Scoped, hits: seq<Hit>, kind: QueryKind): (ms: seq<ExactMatch>)
    ensures |ms| == |hits|
    ensures forall i :: 0 <= i < |hits| ==> ms[i] == ExactMatch(Item(mint, s, hits[i]), kind)
  {
    if |hits| == 0 then [] else Items(mint, s, hits[..|hits| - 1], kind) + [ExactMatch(Item(mint, s, hits[|hits| - 1]), kind)]
  }

  /** The flat include list shows request includes when there are any. */
  function Report(s: Scoped, success: Success): ScopeReport {
    ScopeReport(s.workspaceId, s.scopePolicyId, s.policyHash,
                if |s.scope.includeGroups| > 1 && s.scope.includeGroups[1] != [] then s.scope.includeGroups[1] else s.policy.includes,
                s.scope.includeGroups, s.scope.exclude, s.effectivePolicyHash, success.policySnapshotHash,
                s.policy.hidden, s.policy.respectIgnore, s.policy.maxFileBytes,
                success.counts.searched, success.counts.failed)
  }

  function Fault(request: PublicRequest, raw: Raw): PublicResponse { Problem(request.head.requestId, IssueFor(MapRaw(raw))) }

  function Max(a: nat, b: nat): nat { if a < b then b else a }

  /** The full response to an exact search, before any trimming. */
  function FullReply(mint: Mint, request: PublicRequest, s: Scoped, success: Success, env: Env): PublicResponse
    requires request.Exact?
  {
    var codes := Unique(MapCodes(success.reasons));
    Reply(request.head.requestId, Report(s, success), Issues(codes),
          Matches(CoverageOf(Unique(Reasons(codes))), Items(mint, s, success.matches, request.kind), env.startedAt, Max(env.startedAt, env.now)))
  }

  /** The same response once it must be trimmed: the issue and the partial coverage are already in place. */
  function Marked(full: PublicResponse): (r: PublicResponse)
    requires full.Reply? && full.finding.Matches?
    ensures r.Reply? && r.finding.Matches? && r.finding.matches == full.finding.matches
  {
    var issues := if exists i :: i in full.issues && i.code == IssueCode.ByteLimit then full.issues else full.issues + [IssueFor(IssueCode.ByteLimit)];
    var reasons := if full.finding.coverage.Complete? then [] else full.finding.coverage.reasons;
    full.(issues := issues, finding := full.finding.(coverage := Partial(Unique(reasons + [Limit]))))
  }

  function Keep(r: PublicResponse, n: nat): PublicResponse
    requires r.Reply? && r.finding.Matches? && n <= |r.finding.matches|
  {
    r.(finding := r.finding.(matches := r.finding.matches[..n]))
  }

  predicate Fits(z: Sizer, r: PublicResponse, budget: nat, n: nat)
    requires r.Reply? && r.finding.Matches? && n <= |r.finding.matches|
  {
    Size(z, Keep(r, n)) <= budget
  }

  /** The search for the cut, from iteration `step`; `None` when the deadline passes first. */
  function CutAt(z: Sizer, r: PublicResponse, budget: nat, lateAt: nat -> bool, step: nat, low: nat, high: nat): (cut: Option<nat>)
    requires r.Reply? && r.finding.Matches? && low <= high <= |r.finding.matches|
    ensures cut.Some? ==> low <= cut.value <= high
    decreases high - low
  {
    if low == high then Some(low)
    else if lateAt(step) then None
    else
      var middle := (low + high + 1) / 2;
      if Fits(z, r, budget, middle) then CutAt(z, r, budget, lateAt, step + 1, middle, high)
      else CutAt(z, r, budget, lateAt, step + 1, low, middle - 1)
  }

  /** Budget, contract and deadline, in that order. */
  function Finish(z: Sizer, request: PublicRequest, r: PublicResponse, budget: nat, lateEnd: bool): PublicResponse {
    if Size(z, r) > budget then Fault(request, Own(IssueCode.ByteLimit))
    else if !ResponseAccepted(z, r, request) then Fault(request, Own(IssueCode.Unavailable))
    else if lateEnd then Fault(request, Own(IssueCode.Deadline))
    else r
  }

  function FinishExact(z: Sizer, mint: Mint, request: PublicRequest, s: Scoped, success: Success, budget: nat, env: Env): PublicResponse
    requires request.Exact?
  {
    var full := FullReply(mint, request, s, success, env);
    if Size(z, full) <= budget then Finish(z, request, full, budget, env.lateEnd)
    else
      var marked := Marked(full);
      match CutAt(z, marked, budget, env.lateAt, 0, 0, |full.finding.matches|)
      case None => Fault(request, Own(IssueCode.Deadline))
      case Some(n) => Finish(z, request, Keep(marked, n), budget, env.lateEnd)
  }

  function FinishRead(z: Sizer, mint: Mint, request: PublicRequest, s: Scoped, success: Success, budget: nat, env: Env): PublicResponse
    requires request.Read?
  {
    if success.matches == [] then Fault(request, Own(IssueCode.ReadFailed))
    else
      Finish(z, request,
             Reply(request.head.requestId, Report(s, success), Issues(Unique(MapCodes(success.reasons))),
                   Passage(request.expected.Some?, Item(mint, s, success.matches[0]))),
             budget, env.lateEnd)
  }

  function Refusal(input: Input): PublicResponse {
    var candidate := match input case Malformed(id, _) => id case Shaped(r) => Some(r.head.requestId);
    Problem(if candidate.Some? && PublicId(candidate.value) then candidate.value else INVALID,
            IssueFor(if input.Malformed? && input.wrongVersion then IssueCode.UnsupportedVersion else IssueCode.InvalidRequest))
  }

  const INVALID: bytes := [0x69, 0x6E, 0x76, 0x61, 0x6C, 0x69, 0x64]

  predicate Parsed(input: Input) { input.Shaped? && RequestAccepted(input.request) }

  function ExecuteAt(z: Sizer, mint: Mint, caps: Context, input: Input, contextInput: Option<Context>, timing: Timing): PublicResponse {
    if !Parsed(input) || contextInput.None? || !ContextAccepted(contextInput.value) then Refusal(input)
    else
      var request := input.request;
      var context := Clamped(contextInput.value, caps);
      var env := Seen(timing, context.deadlineMs);
      if env.abortedFirst then Fault(request, Own(IssueCode.Cancelled))
      else if request.Discover? then Fault(request, Own(IssueCode.CapabilityUnavailable))
      else if env.remaining < 1 then Fault(request, Own(IssueCode.Deadline))
      else if env.reached.Raised? then Fault(request, env.reached.raw)
      else if env.abortedLater then Fault(request, Own(IssueCode.Cancelled))
      else if env.late then Fault(request, Own(IssueCode.Deadline))
      else
        var s := env.reached.scoped;
        match s.reply
        case Refused(code) => Fault(request, FromWorker(code))
        case Answered(success) =>
          if request.Exact? then FinishExact(z, mint, request, s, success, context.responseBytes, env)
          else FinishRead(z, mint, request, s, success, context.responseBytes, env)
  }

  // ---- The service ----------------------------------------------------------------------------------

  /** The binary search for how many matches to keep. */
  method Cut(z: Sizer, marked: PublicResponse, budget: nat, lateAt: nat -> bool) returns (cut: Option<nat>)
    requires marked.Reply? && marked.finding.Matches?
    ensures cut == CutAt(z, marked, budget, lateAt, 0, 0, |marked.finding.matches|)
  {
    hide Size;
    var low, high, step := 0, |marked.finding.matches|, 0;
    while low < high
      invariant low <= high <= |marked.finding.matches|
      invariant CutAt(z, marked, budget, lateAt, step, low, high) == CutAt(z, marked, budget, lateAt, 0, 0, |marked.finding.matches|)
      decreases high - low
    {
      if lateAt(step) {
        return None;
      }
      var middle := (low + high + 1) / 2;
      var candidate := marked.(finding := marked.finding.(matches := marked.finding.matches[..middle]));
      if Size(z, candidate) <= budget {
        low := middle;
      } else {
        high := middle - 1;
      }
      step := step + 1;
    }
    return Some(low);
  }

  class ExactService {
    const z: Sizer
    const mint: Mint
    const caps: Context

    constructor (z: Sizer, mint: Mint, caps: Context)
      ensures this.z == z && this.mint == mint && this.caps == caps
    {
      this.z, this.mint, this.caps := z, mint, caps;
    }

    method Execute(input: Input, contextInput: Option<Context>, timing: Timing) returns (response: PublicResponse)
      ensures response == ExecuteAt(z, mint, caps, input, contextInput, timing)
    {
      hide Size, ResponseAccepted, RequestAccepted, Items, Report, Marked, CutAt, Issues, Unique, Reasons, MapCodes;
      if !Parsed(input) || contextInput.None? || !ContextAccepted(contextInput.value) {
        return Refusal(input);
      }
      var request := input.request;
      var context := Clamped(contextInput.value, caps);
      var env := Seen(timing, context.deadlineMs);
      if env.abortedFirst {
        return Fault(request, Own(IssueCode.Cancelled));
      }
      if request.Discover? {
        return Fault(request, Own(IssueCode.CapabilityUnavailable));
      }
      if env.remaining < 1 {
        return Fault(request, Own(IssueCode.Deadline));
      }
      if env.reached.Raised? {
        return Fault(request, env.reached.raw);
      }
      if env.abortedLater {
        return Fault(request, Own(IssueCode.Cancelled));
      }
      if env.late {
        return Fault(request, Own(IssueCode.Deadline));
      }
      var s := env.reached.scoped;
      if s.reply.Refused? {
        return Fault(request, FromWorker(s.reply.code));
      }
      var success := s.reply.success;
      if request.Exact? {
        response := FullReply(mint, request, s, success, env);
        if Size(z, response) > context.responseBytes {
          response := Marked(response);
          var cut := Cut(z, response, context.responseBytes, env.lateAt);
          if cut.None? {
            return Fault(request, Own(IssueCode.Deadline));
          }
          response := response.(finding := response.finding.(matches := response.finding.matches[..cut.value]));
        }
      } else {
        if success.matches == [] {
          return Fault(request, Own(IssueCode.ReadFailed));
        }
        response := Reply(request.head.requestId, Report(s, success), Issues(Unique(MapCodes(success.reasons))),
                          Passage(request.expected.Some?, Item(mint, s, success.matches[0])));
      }
      if Size(z, response) > context.responseBytes {
        return Fault(request, Own(IssueCode.ByteLimit));
      }
      if !ResponseAccepted(z, response, request) {
        return Fault(request, Own(IssueCode.Unavailable));
      }
      if env.lateEnd {
        return Fault(request, Own(IssueCode.Deadline));
      }
    }
  }
}
