/**
 The private worker protocol: requests, results, the worker's own request check,
 and the check the client makes on every response.
 */
module Protocol {
  import opened Basics
  import Utf8
  import opened Paths

  const FRAME_CAP: nat := 1_048_576
  const ENVELOPE_RESERVE: nat := 2048
  const EXCERPT_BYTES: nat := 4096

  datatype Code =
    | InvalidRequest
    | RegexInvalid
    | MatchEncoding
    | ReadFailed
    | SourceMutated
    | Deadline
    | LimitReached
    | ByteLimit
    | EntryLimit
    | DepthLimit
    | PolicyChanged
    | OutOfScope
    | RevisionMismatch

  datatype QueryKind = Literal | Regex
  datatype Range = Range(start: nat, end: nat)
  datatype Excerpt = Excerpt(range: Range, text: bytes, truncated: bool)
  datatype Hit = Hit(path: Path, fileSha256: bytes, range: Range, excerpt: Excerpt)
  datatype Counts = Counts(visited: nat, searched: nat, excluded: nat, failed: nat, bytesRead: nat)
  datatype ReadRequest = ReadRequest(path: Path, range: Range, expectedFileSha256: Option<bytes>)

  datatype ScopeInput = ScopeInput(includeGroups: seq<seq<bytes>>, exclude: seq<bytes>, hidden: bool, respectIgnore: bool)

  datatype Request = Request(
    v: nat,
    id: bytes,
    pattern: bytes,
    kind: QueryKind,
    caseSensitive: bool,
    maxMatches: nat,
    maxFileBytes: nat,
    responseBytes: nat,
    deadlineMs: nat,
    maxEntries: nat,
    maxDepth: nat,
    scope: ScopeInput,
    validateScopeOnly: bool,
    read: Option<ReadRequest>)

  datatype Success = Success(
    id: bytes,
    complete: bool,
    reasons: seq<Code>,
    matches: seq<Hit>,
    counts: Counts,
    policySnapshotHash: bytes)

  predicate AlphaNumeric(b: byte) { 0x30 <= b <= 0x39 || 0x41 <= b <= 0x5A || 0x61 <= b <= 0x7A }

  predicate IdByte(b: byte) { AlphaNumeric(b) || b == 0x2E || b == 0x5F || b == 0x2D }

  predicate Contains(text: bytes, part: bytes) {
    part <= text || (|text| > 0 && Contains(text[1..], part))
  }

  predicate ReadAcceptable(r: Request, read: ReadRequest) {
    ValidPath(read.path) && read.range.start <= read.range.end <= r.maxFileBytes
  }

  predicate BoundsAcceptable(r: Request) {
    && r.v == 1
    && 1 <= |r.id| <= 128 && (forall b :: b in r.id ==> IdByte(b))
    && 1 <= |r.pattern| <= 8192 && 0 !in r.pattern && 0x0D !in r.pattern && 0x0A !in r.pattern
    && 1 <= r.maxMatches <= 1000
    && 1 <= r.maxFileBytes <= 16_777_216
    && ENVELOPE_RESERVE <= r.responseBytes <= FRAME_CAP
    && 1 <= r.deadlineMs <= 30_000
    && 1 <= r.maxEntries <= 100_000
    && 1 <= r.maxDepth <= 64
  }

  /** Constructs whose whole-buffer or flag semantics the worker declines: `\A`, `\z`, `\Z`, `(?-`. */
  predicate DeclinedRegex(pattern: bytes) {
    Contains(pattern, [0x5C, 0x41]) || Contains(pattern, [0x5C, 0x7A]) || Contains(pattern, [0x5C, 0x5A])
    || Contains(pattern, [0x28, 0x3F, 0x2D])
  }

  function Validate(r: Request): Option<Code> {
    if !BoundsAcceptable(r) then Some(InvalidRequest)
    else if r.read.Some? && !ReadAcceptable(r, r.read.value) then Some(InvalidRequest)
    else if r.read.Some? && r.read.value.range.end - r.read.value.range.start > EXCERPT_BYTES then Some(ByteLimit)
    else if r.kind == Regex && DeclinedRegex(r.pattern) then Some(RegexInvalid)
    else None
  }

  /** Text of 1 to 1024 UTF-16 units. */
  predicate PatternSchema(p: bytes) { Utf8.Valid(p) && 1 <= Utf8.Utf16Length(p) <= 1024 }

  predicate ScopeSchema(s: ScopeInput) {
    && |s.includeGroups| <= 2
    && (forall g :: g in s.includeGroups ==> |g| <= 64 && forall p :: p in g ==> PatternSchema(p))
    && |s.exclude| <= 128 && (forall p :: p in s.exclude ==> PatternSchema(p))
  }

  /** The client's own check of a request, before it is numbered. */
  predicate ClientAccepts(r: Request) {
    && 1 <= |r.pattern| <= 8192 && Utf8.Valid(r.pattern) && 0 !in r.pattern && 0x0D !in r.pattern && 0x0A !in r.pattern
    && 1 <= r.maxMatches <= 1000 && 1 <= r.maxFileBytes <= 16_777_216
    && ENVELOPE_RESERVE <= r.responseBytes <= FRAME_CAP && 1 <= r.deadlineMs <= 30_000
    && 1 <= r.maxEntries <= 100_000 && 1 <= r.maxDepth <= 64
    && ScopeSchema(r.scope)
    && (r.read.Some? ==>
          && PathSchema(r.read.value.path) && Utf8.Valid(r.read.value.path)
          && (r.read.value.expectedFileSha256.Some? ==> DigestText(r.read.value.expectedFileSha256.value)))
  }

  predicate Distinct<T(==)>(xs: seq<T>) {
    forall i, j :: 0 <= i < j < |xs| ==> xs[i] != xs[j]
  }

  predicate HexDigit(b: byte) { 0x30 <= b <= 0x39 || 0x61 <= b <= 0x66 }

  predicate DigestText(d: bytes) { |d| == 64 && forall b :: b in d ==> HexDigit(b) }

  /** The per-hit part of the client's check, with the hit schema it follows. */
  predicate HitAccepted(r: Request, h: Hit) {
    && PathSchema(h.path)
    && DigestText(h.fileSha256)
    && h.range.start <= h.range.end <= r.maxFileBytes
    && h.excerpt.range.start == h.range.start
    && h.range.start <= h.excerpt.range.end <= h.range.end
    && Utf8.Valid(h.excerpt.text) && Utf8.Utf16Length(h.excerpt.text) <= EXCERPT_BYTES
    && |h.excerpt.text| <= EXCERPT_BYTES
    && |h.excerpt.text| == h.excerpt.range.end - h.excerpt.range.start
    && h.excerpt.truncated == (h.excerpt.range.end < h.range.end)
  }

  /** `validateWorkerResponse` on a success of `byteLength` serialized bytes. */
  predicate SuccessAccepted(r: Request, s: Success, byteLength: nat) {
    && s.id == r.id && 1 <= |s.id| <= 128
    && byteLength <= r.responseBytes
    && |s.reasons| <= 14 && |s.matches| <= 1000
    && DigestText(s.policySnapshotHash)
    && |s.matches| <= r.maxMatches
    && s.counts.visited <= r.maxEntries
    && s.counts.searched <= s.counts.visited
    && s.counts.bytesRead <= s.counts.searched * r.maxFileBytes
    && Distinct(s.reasons)
    && (s.complete <==> s.reasons == [])
    && (s.complete ==> s.counts.failed == 0)
    && forall h :: h in s.matches ==> HitAccepted(r, h)
  }
}
