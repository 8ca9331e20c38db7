/** The public request and response contracts, and the checks both ends make. */
module Contracts {
  import opened Basics
  import opened Paths
  import opened Protocol
  import opened Evidence
  import Policies
  import Utf8

  datatype IssueCode =
    | InvalidRequest
    | UnsupportedVersion
    | Unavailable
    | OutOfScope
    | RevisionMismatch
    | ReadFailed
    | SourceMutated
    | PolicyChanged
    | LimitReached
    | ByteLimit
    | Cancelled
    | Deadline
    | IndexMissing
    | IndexIncompatible
    | IndexUnavailable
    | IndexBusy
    | StorageFull
    | ProviderFailed
    | EgressDenied
    | CapabilityUnavailable

  datatype Stage = Validation | Workspace
  datatype NextAction = FixRequest | NoAction

  /** An issue; its message is its code. */
  datatype Issue = Issue(code: IssueCode, stage: Stage, retryable: bool, nextAction: NextAction)

  datatype PartialReason = Limit | Interrupted | ReadFailure | TimedOut | PolicyChange | SourceMutation
  datatype Coverage = Complete | Partial(reasons: seq<PartialReason>)

  datatype Head = Head(requestId: bytes, workspaceId: bytes, scopePolicyId: bytes, narrow: Option<Policies.Narrow>)

  /** A read is verified when it names the revision it expects. */
  datatype PublicRequest =
    | Exact(head: Head, kind: QueryKind, text: bytes, caseSensitive: bool, maxMatches: nat)
    | Read(head: Head, path: Path, range: Range, byteBudget: nat, expected: Option<bytes>)
    | Discover(head: Head)

  datatype EvidenceItem = EvidenceItem(id: bytes, hit: Hit)
  datatype ExactMatch = ExactMatch(evidence: EvidenceItem, kind: QueryKind)

  datatype ScopeReport = ScopeReport(
    workspaceId: bytes,
    policyId: bytes,
    policyHash: bytes,
    includes: seq<bytes>,
    includeGroups: seq<seq<bytes>>,
    excludes: seq<bytes>,
    effectivePolicyHash: bytes,
    policySnapshotHash: bytes,
    hidden: bool,
    respectIgnore: bool,
    maxFileBytes: nat,
    searched: nat,
    failed: nat)

  datatype Finding =
    | Matches(coverage: Coverage, matches: seq<ExactMatch>, startedAt: nat, endedAt: nat)
    | Passage(verified: bool, evidence: EvidenceItem)

  datatype PublicResponse =
    | Problem(requestId: bytes, error: Issue)
    | Reply(requestId: bytes, scope: ScopeReport, issues: seq<Issue>, finding: Finding)

  const RESPONSE_BYTES: nat := 1_048_576

  // ---- Requests --------------------------------------------------------------------------------------

  predicate PublicId(b: bytes) { 1 <= |b| <= 128 && AlphaNumeric(b[0]) && forall x :: x in b ==> IdByte(x) }

  /** Text within a length in UTF-16 units and in UTF-8 octets. */
  predicate TextWithin(b: bytes, limit: nat) {
    Utf8.Valid(b) && 1 <= Utf8.Utf16Length(b) <= limit && |b| <= limit
  }

  predicate PatternTexts(ps: seq<bytes>) { |ps| <= 64 && forall p :: p in ps ==> TextWithin(p, 1024) }

  predicate HeadAccepted(h: Head) {
    && PublicId(h.requestId) && PublicId(h.workspaceId) && PublicId(h.scopePolicyId)
    && (h.narrow.Some? ==> PatternTexts(h.narrow.value.includes) && PatternTexts(h.narrow.value.excludes))
  }

  predicate RequestAccepted(r: PublicRequest) {
    HeadAccepted(r.head) &&
    match r
    case Exact(_, _, text, _, maxMatches) =>
      TextWithin(text, 8192) && 0x00 !in text && 0x0D !in text && 0x0A !in text && 1 <= maxMatches <= 1000
    case Read(_, path, range, byteBudget, expected) =>
      && PathSchema(path) && Utf8.Valid(path) && |path| <= 4096
      && range.start <= range.end <= MAX_SAFE_INTEGER
      && 1 <= byteBudget <= RESPONSE_BYTES && range.end - range.start <= byteBudget
      && (expected.Some? ==> DigestText(expected.value))
    case Discover(_) => true
  }

  // ---- Sizes -------------------------------------------------------------------------------------------

  /** Serialized sizes of what this model does not spell out; lists add up element by element. */
  datatype Sizer = Sizer(
    problem: (bytes, Issue) -> nat,
    report: (bytes, ScopeReport) -> nat,
    issue: Issue -> nat,
    item: ExactMatch -> nat,
    passage: EvidenceItem -> nat)

  const COMPLETE_BYTES: nat := 19
  const PARTIAL_BYTES: nat := 31
  const MATCHES_BYTES: nat := 128

  function ReasonBytes(r: PartialReason): nat {
    match r
    case Limit => 7
    case Interrupted => 11
    case ReadFailure => 14
    case TimedOut => 10
    case PolicyChange => 16
    case SourceMutation => 16
  }

  function Total<T>(size: T -> nat, xs: seq<T>): nat {
    if |xs| == 0 then 0 else Total(size, xs[..|xs| - 1]) + size(xs[|xs| - 1])
  }

  function ListBytes<T>(size: T -> nat, xs: seq<T>): nat { Total(size, xs) + if |xs| == 0 then 0 else |xs| - 1 }

  function CoverageBytes(c: Coverage): nat {
    match c
    case Complete => COMPLETE_BYTES
    case Partial(rs) => PARTIAL_BYTES + ListBytes(ReasonBytes, rs)
  }

  function FindingBytes(z: Sizer, f: Finding): nat {
    match f
    case Matches(coverage, ms, _, _) => MATCHES_BYTES + CoverageBytes(coverage) + ListBytes(z.item, ms)
    case Passage(_, e) => z.passage(e)
  }

  function Size(z: Sizer, r: PublicResponse): nat {
    match r
    case Problem(id, error) => z.problem(id, error)
    case Reply(id, scope, issues, finding) => z.report(id, scope) + ListBytes(z.issue, issues) + FindingBytes(z, finding)
  }

  /** No error outgrows the smallest response budget. */
  ghost predicate Modest(z: Sizer) {
    forall id, error :: |id| <= 128 ==> z.problem(id, error) <= 2048
  }

  // ---- Responses ---------------------------------------------------------------------------------------

  /** Codes that justify a partial reason. */
  predicate Justifies(code: IssueCode, reason: PartialReason) {
    match reason
    case Limit => code == IssueCode.LimitReached || code == IssueCode.ByteLimit
    case Interrupted => code == IssueCode.Cancelled
    case ReadFailure => code == IssueCode.ReadFailed
    case TimedOut => code == IssueCode.Deadline
    case PolicyChange => code == IssueCode.PolicyChanged
    case SourceMutation => code == IssueCode.SourceMutated
  }

  predicate Fatal(code: IssueCode) {
    || code == IssueCode.InvalidRequest || code == IssueCode.UnsupportedVersion
    || code == IssueCode.IndexMissing || code == IssueCode.IndexIncompatible || code == IssueCode.IndexUnavailable
  }

  predicate Interruption(code: IssueCode) {
    || code == IssueCode.ReadFailed || code == IssueCode.SourceMutated || code == IssueCode.PolicyChanged
    || code == IssueCode.LimitReached || code == IssueCode.ByteLimit || code == IssueCode.Cancelled || code == IssueCode.Deadline
  }

  predicate PartialJustified(rs: seq<PartialReason>, issues: seq<Issue>) {
    Distinct(rs) && forall r :: r in rs ==> exists i :: i in issues && Justifies(i.code, r)
  }

  predicate ReportAccepted(s: ScopeReport) {
    && PublicId(s.workspaceId) && PublicId(s.policyId)
    && DigestText(s.policyHash) && DigestText(s.effectivePolicyHash) && DigestText(s.policySnapshotHash)
    && PatternTexts(s.includes)
    && |s.includeGroups| <= 2 && (forall g :: g in s.includeGroups ==> PatternTexts(g))
    && |s.excludes| <= 128 && (forall p :: p in s.excludes ==> TextWithin(p, 1024))
    && 1 <= s.maxFileBytes <= FILE_BYTES
    && s.searched <= MAX_SAFE_INTEGER && s.failed <= MAX_SAFE_INTEGER
  }

  predicate ItemAccepted(e: EvidenceItem) { PublicId(e.id) && EvidenceShape(e.hit) }

  predicate CoverageAccepted(c: Coverage, issues: seq<Issue>, failed: nat) {
    match c
    case Complete => (forall i :: i in issues ==> !Interruption(i.code)) && failed == 0
    case Partial(rs) => 1 <= |rs| <= 6 && PartialJustified(rs, issues)
  }

  predicate FindingAccepted(f: Finding, s: ScopeReport, issues: seq<Issue>, request: PublicRequest) {
    match f
    case Matches(coverage, ms, startedAt, endedAt) =>
      && request.Exact?
      && startedAt <= endedAt
      && |ms| <= 1000 && |ms| <= request.maxMatches
      && CoverageAccepted(coverage, issues, s.failed)
      && (forall m :: m in ms ==> ItemAccepted(m.evidence) && m.kind == request.kind)
    case Passage(verified, e) =>
      && request.Read? && verified == request.expected.Some?
      && ItemAccepted(e)
      && e.hit.path == request.path && e.hit.range == request.range
      && !e.hit.excerpt.truncated && e.hit.excerpt.range == request.range
      && (verified ==> e.hit.fileSha256 == request.expected.value)
  }

  /** `parseResponse` accepts a response this model can express. */
  predicate ResponseAccepted(z: Sizer, r: PublicResponse, request: PublicRequest) {
    && PublicId(r.requestId) && r.requestId == request.head.requestId
    && Size(z, r) <= RESPONSE_BYTES
    && match r
       case Problem(_, error) => error.code == IssueCode.Cancelled ==> !error.retryable && error.nextAction == NoAction
       case Reply(_, scope, issues, finding) =>
         && |issues| <= 128
         && ReportAccepted(scope)
         && scope.workspaceId == request.head.workspaceId && scope.policyId == request.head.scopePolicyId
         && (forall i :: i in issues ==> !Fatal(i.code))
         && FindingAccepted(finding, scope, issues, request)
  }
}
