/** The evidence contract of the public boundary, and the check of evidence against captured bytes. */
module Evidence {
  import opened Basics
  import opened Paths
  import opened Protocol
  import opened Engines
  import Utf8

  const FILE_BYTES: nat := 16_777_216
  const MAX_SAFE_INTEGER: nat := 9_007_199_254_740_991

  /** `evidenceShape` with the evidence schema it follows, but for the id. */
  predicate EvidenceShape(h: Hit) {
    && PathSchema(h.path) && Utf8.Valid(h.path) && |h.path| <= 4096
    && DigestText(h.fileSha256)
    && Utf8.Valid(h.excerpt.text) && Utf8.Utf16Length(h.excerpt.text) <= EXCERPT_BYTES && |h.excerpt.text| <= EXCERPT_BYTES
    && h.range.start <= h.range.end <= MAX_SAFE_INTEGER
    && h.excerpt.range.start <= h.excerpt.range.end <= MAX_SAFE_INTEGER
    && |h.excerpt.text| == h.excerpt.range.end - h.excerpt.range.start
    && h.excerpt.truncated == !(h.excerpt.range.start <= h.range.start && h.excerpt.range.end >= h.range.end)
  }

  /** The verifier's offset test: past the end, or not at a continuation octet. */
  predicate OffsetPasses(captured: bytes, i: nat) { i >= |captured| || Utf8.NotContinuation(captured[i]) }

  predicate RangeInSource(captured: bytes, r: Range) {
    r.end <= |captured| && OffsetPasses(captured, r.start) && OffsetPasses(captured, r.end)
  }

  /** `assertEvidenceSource` accepts. */
  predicate SourceAccepted(e: Engine, h: Hit, captured: bytes) {
    && EvidenceShape(h)
    && |captured| <= FILE_BYTES
    && Digest(e, captured) == h.fileSha256
    && Utf8.Valid(captured) && 0 !in captured
    && RangeInSource(captured, h.range) && RangeInSource(captured, h.excerpt.range)
    && captured[h.excerpt.range.start..h.excerpt.range.end] == h.excerpt.text
  }

  /** On valid UTF-8 the verifier's test and the worker's test accept the same offsets. */
  lemma OffsetTestsAgree(captured: bytes, i: nat)
    requires Utf8.Valid(captured) && i <= |captured|
    ensures OffsetPasses(captured, i) <==> Utf8.IsCharBoundary(captured, i)
  {
    if captured != [] {
      Utf8.HeadShape(captured);
    }
  }

  /** An excerpt is cut only when the match is too long, and then loses at most three octets to a scalar boundary. */
  predicate WellCut(h: Hit) {
    && h.excerpt.range.start == h.range.start && h.excerpt.range.end <= h.range.end
    && (h.excerpt.truncated <==> h.range.end - h.range.start > EXCERPT_BYTES)
    && (h.excerpt.truncated ==> EXCERPT_BYTES - 3 <= |h.excerpt.text| <= EXCERPT_BYTES)
  }
}
