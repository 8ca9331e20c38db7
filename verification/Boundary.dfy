/** The public boundary, written out: which requests are taken, and what a caller may rely on in any answer. */
module Boundary {
  import opened Basics
  import opened Paths
  import opened Protocol
  import opened Evidence
  import opened Contracts
  import Scalars
  import Service
  import Utf8

  predicate Letter(b: byte) {
    'a' as int <= b <= 'z' as int || 'A' as int <= b <= 'Z' as int || '0' as int <= b <= '9' as int
  }

  /** At most 128 letters, digits, dots, underscores and hyphens, beginning with a letter or digit. */
  predicate Identifier(id: bytes) {
    1 <= |id| <= 128 && Letter(id[0]) && forall b :: b in id ==> Letter(b) || b == '.' as int || b == '_' as int || b == '-' as int
  }

  lemma IdentifierExactly(id: bytes)
    ensures PublicId(id) <==> Identifier(id)
  {
  }

  /** A digest: 64 lower-case hexadecimal digits. */
  predicate HexText(d: bytes) {
    |d| == 64 && forall b :: b in d ==> '0' as int <= b <= '9' as int || 'a' as int <= b <= 'f' as int
  }

  lemma HexTextExactly(d: bytes)
    ensures DigestText(d) <==> HexText(d)
  {
  }

  predicate Short(text: bytes, limit: nat) { Utf8.Valid(text) && 1 <= |text| <= limit }

  lemma ShortExactly(text: bytes, limit: nat)
    ensures TextWithin(text, limit) <==> Short(text, limit)
  {
    if Utf8.Valid(text) {
      Utf8.Utf16NotLonger(text);
    }
  }

  predicate Patterns(ps: seq<bytes>) { |ps| <= 64 && forall p :: p in ps ==> Short(p, 1024) }

  lemma PatternsExactly(ps: seq<bytes>)
    ensures PatternTexts(ps) <==> Patterns(ps)
  {
    hide TextWithin, Short;
    forall p
      ensures TextWithin(p, 1024) <==> Short(p, 1024)
    {
      ShortExactly(p, 1024);
    }
  }

  // ---- Paths ----------------------------------------------------------------------------------------------------

  /** A segment that is `.` or `..`. */
  ghost predicate Dotted(path: Path, i: int, k: int) {
    SegmentAt(path, i, k) && (path[i..k] == Octets(".") || path[i..k] == Octets(".."))
  }

  lemma DottedExactly(path: Path, i: nat)
    requires i <= |path|
    ensures DotSegmentAt(path, i) <==> exists k: nat :: Dotted(path, i, k)
  {
    assert Octets(".") == [DOT] && Octets("..") == [DOT, DOT];
    if DotSegmentAt(path, i) {
      assert Dotted(path, i, i + 1) || Dotted(path, i, i + 2) by {
        assert i + 1 <= |path| ==> path[i..i + 1] == [path[i]];
        assert i + 2 <= |path| ==> path[i..i + 2] == [path[i], path[i + 1]];
      }
    }
    if k: nat :| Dotted(path, i, k) {
      assert path[i] == path[i..k][0] && (k == i + 2 ==> path[i + 1] == path[i..k][1]);
    }
  }

  /** U+2028 or U+2029, a line separator that the expression's dot does not match. */
  predicate Separator(path: Path, k: nat) {
    k + 3 <= |path| && (path[k..k + 3] == Scalars.Encoding(0x2028) || path[k..k + 3] == Scalars.Encoding(0x2029))
  }

  lemma SeparatorExactly(path: Path, k: nat)
    ensures SeparatorAt(path, k) <==> Separator(path, k)
  {
    assert Scalars.Encoding(0x2028) == [0xE2, 0x80, 0xA8] && Scalars.Encoding(0x2029) == [0xE2, 0x80, 0xA9];
    if k + 3 <= |path| {
      assert path[k..k + 3] == [path[k], path[k + 1], path[k + 2]];
    }
  }

  /** Some line separator ends before the slash that precedes offset `i`. */
  ghost predicate SeparatedBefore(path: Path, i: nat) { exists m: nat :: Separator(path, m) && m + 3 < i }

  lemma SeparatedExactly(path: Path, i: nat)
    requires CleanBytes(path) && i <= |path|
    ensures DotStarReaches(path, i) <==> !SeparatedBefore(path, i)
  {
    hide SeparatorAt, Separator;
    forall k: nat
      ensures SeparatorAt(path, k) <==> Separator(path, k)
    {
      SeparatorExactly(path, k);
    }
    if SeparatedBefore(path, i) {
      var m: nat :| Separator(path, m) && m + 3 < i;
      assert SeparatorAt(path, m);
    }
  }

  lemma LookAheadExactly(path: Path)
    requires CleanBytes(path)
    ensures LookAheadTrips(path) <==> exists i: nat, k: nat :: Dotted(path, i, k) && !SeparatedBefore(path, i)
  {
    hide DotSegmentAt, DotStarReaches, SeparatedBefore, Dotted, CleanBytes;
    forall i: nat | i <= |path|
      ensures DotSegmentAt(path, i) <==> exists k: nat :: Dotted(path, i, k)
      ensures DotStarReaches(path, i) <==> !SeparatedBefore(path, i)
    {
      DottedExactly(path, i);
      SeparatedExactly(path, i);
    }
    if i: nat, k: nat :| Dotted(path, i, k) && !SeparatedBefore(path, i) {
      DottedWithin(path, i, k);
    }
  }

  lemma DottedWithin(path: Path, i: int, k: int)
    requires Dotted(path, i, k)
    ensures 0 <= i <= k <= |path|
  {
  }

  /**
   The schema takes a path of 1 to 4096 UTF-16 units, without forbidden octets and empty segments, in which every dot segment
   comes after a line separator.
   */
  lemma SchemaExactly(path: Path)
    ensures PathSchema(path)
       <==> && 1 <= Utf8.Utf16Length(path) <= 4096
            && (forall i :: 0 <= i < |path| ==> path[i] != 0 && path[i] != 13 && path[i] != 10 && path[i] != '\\' as int)
            && (forall i: nat :: !SegmentAt(path, i, i))
            && forall i: nat, k: nat :: Dotted(path, i, k) ==> SeparatedBefore(path, i)
  {
    hide LookAheadTrips, SeparatedBefore, Dotted, Utf8.Utf16Length;
    forall i: nat
      ensures i <= |path| && EmptySegmentAt(path, i) <==> SegmentAt(path, i, i)
    {
    }
    if CleanBytes(path) {
      LookAheadExactly(path);
    }
  }

  // ---- Requests -------------------------------------------------------------------------------------------------

  predicate Addressed(h: Head) {
    && Identifier(h.requestId) && Identifier(h.workspaceId) && Identifier(h.scopePolicyId)
    && (h.narrow.Some? ==> Patterns(h.narrow.value.includes) && Patterns(h.narrow.value.excludes))
  }

  lemma AddressedExactly(h: Head)
    ensures HeadAccepted(h) <==> Addressed(h)
  {
    hide PublicId, Identifier, PatternTexts, Patterns;
    IdentifierExactly(h.requestId);
    IdentifierExactly(h.workspaceId);
    IdentifierExactly(h.scopePolicyId);
    if h.narrow.Some? {
      PatternsExactly(h.narrow.value.includes);
      PatternsExactly(h.narrow.value.excludes);
    }
  }

  /** A public request is taken exactly when its ids, patterns and text are in order and its numbers within bounds. */
  lemma RequestExactly(r: PublicRequest)
    ensures RequestAccepted(r)
       <==> Addressed(r.head) &&
            match r
            case Exact(_, _, text, _, maxMatches) =>
              Short(text, 8192) && (forall b :: b in text ==> b != 0 && b != 13 && b != 10) && 1 <= maxMatches <= 1000
            case Read(_, path, range, byteBudget, expected) =>
              && PathSchema(path) && Utf8.Valid(path) && |path| <= 4096
              && range.start <= range.end <= 9_007_199_254_740_991 && range.end - range.start <= byteBudget && 1 <= byteBudget <= 1_048_576
              && (expected.Some? ==> HexText(expected.value))
            case Discover(_) => true
  {
    hide HeadAccepted, Addressed, TextWithin, Short, DigestText, HexText, PathSchema, Utf8.Valid;
    AddressedExactly(r.head);
    match r
    case Exact(_, _, text, _, _) =>
      ShortExactly(text, 8192);
    case Read(_, _, _, _, expected) =>
      if expected.Some? {
        HexTextExactly(expected.value);
      }
    case Discover(_) =>
  }

  /** So is what comes with it: a deadline of at most 30 seconds and a budget of 2 KiB to 1 MiB. */
  lemma ContextExactly(c: Service.Context)
    ensures Service.ContextAccepted(c) <==> 1 <= c.deadlineMs <= 30_000 && 2048 <= c.responseBytes <= 1_048_576
  {
  }

  // ---- Responses ------------------------------------------------------------------------------------------------

  /** A quotation of a file, by path, digest and range, whose text is as long as it says and called truncated when it covers less. */
  predicate Quotation(h: Hit) {
    && PathSchema(h.path) && Utf8.Valid(h.path) && |h.path| <= 4096 && HexText(h.fileSha256)
    && h.range.start <= h.range.end <= 9_007_199_254_740_991
    && h.excerpt.range.start <= h.excerpt.range.end <= 9_007_199_254_740_991
    && Utf8.Valid(h.excerpt.text) && |h.excerpt.text| == h.excerpt.range.end - h.excerpt.range.start <= 4096
    && (h.excerpt.truncated <==> h.excerpt.range.start > h.range.start || h.excerpt.range.end < h.range.end)
  }

  lemma QuotationExactly(h: Hit)
    ensures EvidenceShape(h) <==> Quotation(h)
  {
    hide PathSchema, DigestText, HexText, Utf8.Valid, Utf8.Utf16Length;
    HexTextExactly(h.fileSha256);
    if Utf8.Valid(h.excerpt.text) {
      Utf8.Utf16NotLonger(h.excerpt.text);
    }
  }

  predicate Sourced(e: EvidenceItem) { Identifier(e.id) && Quotation(e.hit) }

  lemma SourcedExactly(e: EvidenceItem)
    ensures ItemAccepted(e) <==> Sourced(e)
  {
    hide PublicId, Identifier, EvidenceShape, Quotation;
    IdentifierExactly(e.id);
    QuotationExactly(e.hit);
  }

  predicate Scoped(s: ScopeReport) {
    && Identifier(s.workspaceId) && Identifier(s.policyId)
    && HexText(s.policyHash) && HexText(s.effectivePolicyHash) && HexText(s.policySnapshotHash)
    && Patterns(s.includes) && |s.includeGroups| <= 2 && (forall g :: g in s.includeGroups ==> Patterns(g))
    && |s.excludes| <= 128 && (forall p :: p in s.excludes ==> Short(p, 1024))
    && 1 <= s.maxFileBytes <= 16_777_216 && s.searched <= 9_007_199_254_740_991 && s.failed <= 9_007_199_254_740_991
  }

  lemma ScopedExactly(s: ScopeReport)
    ensures ReportAccepted(s) <==> Scoped(s)
  {
    hide PublicId, Identifier, DigestText, HexText, PatternTexts, Patterns, TextWithin, Short;
    IdentifierExactly(s.workspaceId);
    IdentifierExactly(s.policyId);
    HexTextExactly(s.policyHash);
    HexTextExactly(s.effectivePolicyHash);
    HexTextExactly(s.policySnapshotHash);
    forall ps
      ensures PatternTexts(ps) <==> Patterns(ps)
    {
      PatternsExactly(ps);
    }
    forall p
      ensures TextWithin(p, 1024) <==> Short(p, 1024)
    {
      ShortExactly(p, 1024);
    }
  }

  /** The codes that a partial reason may stand on. */
  function Grounds(r: PartialReason): set<IssueCode> {
    match r
    case Limit => {IssueCode.LimitReached, IssueCode.ByteLimit}
    case Interrupted => {IssueCode.Cancelled}
    case ReadFailure => {IssueCode.ReadFailed}
    case TimedOut => {IssueCode.Deadline}
    case PolicyChange => {IssueCode.PolicyChanged}
    case SourceMutation => {IssueCode.SourceMutated}
  }

  predicate Grounded(r: PartialReason, issues: seq<Issue>) { exists i :: i in issues && i.code in Grounds(r) }

  /** Complete with nothing failed and no issue that takes completeness away, or partial for up to six reasons, each on its grounds. */
  predicate Covered(c: Coverage, issues: seq<Issue>, failed: nat) {
    && (c.Complete? ==>
          failed == 0 && forall i :: i in issues ==>
            i.code !in {IssueCode.ReadFailed, IssueCode.SourceMutated, IssueCode.PolicyChanged, IssueCode.LimitReached, IssueCode.ByteLimit,
                        IssueCode.Cancelled, IssueCode.Deadline})
    && (c.Partial? ==>
          && 1 <= |c.reasons| <= 6 && (forall i, k :: 0 <= i < k < |c.reasons| ==> c.reasons[i] != c.reasons[k])
          && forall r :: r in c.reasons ==> Grounded(r, issues))
  }

  lemma CoveredExactly(c: Coverage, issues: seq<Issue>, failed: nat)
    ensures CoverageAccepted(c, issues, failed) <==> Covered(c, issues, failed)
  {
    if c.Partial? {
      hide Grounded, Grounds, Justifies;
      forall r
        ensures (exists i :: i in issues && Justifies(i.code, r)) <==> Grounded(r, issues)
      {
        GroundedExactly(r, issues);
      }
    }
  }

  lemma GroundedExactly(r: PartialReason, issues: seq<Issue>)
    ensures (exists i :: i in issues && Justifies(i.code, r)) <==> Grounded(r, issues)
  {
    forall code
      ensures Justifies(code, r) <==> code in Grounds(r)
    {
    }
  }

  /** An answer to the request: of its kind, within its bounds, on its file, range and revision. */
  predicate Answers(f: Finding, scope: ScopeReport, issues: seq<Issue>, request: PublicRequest) {
    match f
    case Matches(coverage, ms, startedAt, endedAt) =>
      && request.Exact? && startedAt <= endedAt && |ms| <= request.maxMatches && |ms| <= 1000 && Covered(coverage, issues, scope.failed)
      && forall m :: m in ms ==> m.kind == request.kind && Sourced(m.evidence)
    case Passage(verified, e) =>
      && request.Read? && Sourced(e) && e.hit.path == request.path && e.hit.range == request.range && e.hit.excerpt.range == request.range
      && !e.hit.excerpt.truncated && (verified <==> request.expected.Some?)
      && (request.expected.Some? ==> e.hit.fileSha256 == request.expected.value)
  }

  lemma AnswersExactly(f: Finding, scope: ScopeReport, issues: seq<Issue>, request: PublicRequest)
    ensures FindingAccepted(f, scope, issues, request) <==> Answers(f, scope, issues, request)
  {
    hide CoverageAccepted, Covered, ItemAccepted, Sourced;
    forall e
      ensures ItemAccepted(e) <==> Sourced(e)
    {
      SourcedExactly(e);
    }
    if f.Matches? {
      CoveredExactly(f.coverage, issues, scope.failed);
    }
  }

  /** A response passes the contract exactly when it answers its request, in at most 1 MiB, with nothing fatal among its issues. */
  lemma ContractExactly(z: Sizer, r: PublicResponse, request: PublicRequest)
    ensures ResponseAccepted(z, r, request)
       <==> && Identifier(r.requestId) && r.requestId == request.head.requestId && Size(z, r) <= 1_048_576
            && match r
               case Problem(_, error) => error.code == IssueCode.Cancelled ==> !error.retryable && error.nextAction == NoAction
               case Reply(_, scope, issues, finding) =>
                 && Scoped(scope) && scope.workspaceId == request.head.workspaceId && scope.policyId == request.head.scopePolicyId
                 && |issues| <= 128
                 && (forall i :: i in issues ==>
                       i.code !in {IssueCode.InvalidRequest, IssueCode.UnsupportedVersion, IssueCode.IndexMissing, IssueCode.IndexIncompatible,
                                   IssueCode.IndexUnavailable})
                 && Answers(finding, scope, issues, request)
  {
    hide Size, ReportAccepted, Scoped, FindingAccepted, Answers, PublicId, Identifier;
    IdentifierExactly(r.requestId);
    if r.Reply? {
      ScopedExactly(r.scope);
      AnswersExactly(r.finding, r.scope, r.issues, request);
    }
  }

  // ---- Lengths --------------------------------------------------------------------------------------------------

  /** A partial reason as responses spell it. */
  function Spelling(r: PartialReason): string {
    match r
    case Limit => "limit"
    case Interrupted => "cancelled"
    case ReadFailure => "read-failure"
    case TimedOut => "deadline"
    case PolicyChange => "policy-changed"
    case SourceMutation => "source-mutated"
  }

  lemma ReasonsAreSpelled(r: PartialReason)
    ensures ReasonBytes(r) == |Spelling(r)| + 2
  {
  }

  lemma CoverageTemplates()
    ensures COMPLETE_BYTES == |"{\"kind\":\"complete\"}"|
    ensures PARTIAL_BYTES == |"{\"kind\":\"partial\",\"reasons\":[]}"|
  {
  }
}
