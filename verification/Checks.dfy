/** What the receiving sides insist on: of evidence against a file, and of the worker's answers in any run. */
module Checks {
  import opened Basics
  import opened Paths
  import opened Protocol
  import opened Engines
  import opened Evidence
  import opened Findings
  import Client
  import ClientCauses
  import ClientRuns
  import ClientSafety
  import SearchInvariants
  import Utf8

  // ---- Evidence -----------------------------------------------------------------------------------------------

  /** Both ends of the range lie in the file, in order, on scalar boundaries. */
  predicate WithinFile(captured: bytes, r: Range) {
    r.start <= r.end <= |captured| && Utf8.IsCharBoundary(captured, r.start) && Utf8.IsCharBoundary(captured, r.end)
  }

  /**
   Evidence is accepted on a file exactly when that is text of at most 16 MiB with the evidence's digest, both its ranges lie
   in it on scalar boundaries, its text is what the file holds there, at most 4096 octets of it, and is called truncated
   exactly when it does not cover the range.
   */
  lemma EvidenceExactly(e: Engine, h: Hit, captured: bytes)
    requires Sound(e)
    ensures SourceAccepted(e, h, captured)
       <==> && BoundedText(captured, 16_777_216) && h.fileSha256 == Digest(e, captured)
            && PathSchema(h.path) && Utf8.Valid(h.path) && |h.path| <= 4096
            && WithinFile(captured, h.range) && WithinFile(captured, h.excerpt.range)
            && h.excerpt.text == captured[h.excerpt.range.start..h.excerpt.range.end] && |h.excerpt.text| <= 4096
            && (h.excerpt.truncated <==> h.excerpt.range.start > h.range.start || h.excerpt.range.end < h.range.end)
  {
    SearchInvariants.DigestIsText(e, captured);
    hide Digest, Utf8.Valid, PathSchema, DigestText, Utf8.IsCharBoundary, OffsetPasses, Utf8.Utf16Length, Sound;
    if Utf8.Valid(captured) {
      if h.range.start <= h.range.end <= |captured| {
        OffsetTestsAgree(captured, h.range.start);
        OffsetTestsAgree(captured, h.range.end);
      }
      if h.excerpt.range.start <= h.excerpt.range.end <= |captured| {
        OffsetTestsAgree(captured, h.excerpt.range.start);
        OffsetTestsAgree(captured, h.excerpt.range.end);
        if WithinFile(captured, h.excerpt.range) {
          Utf8.SliceValid(captured, h.excerpt.range.start, h.excerpt.range.end);
          Utf8.Utf16NotLonger(captured[h.excerpt.range.start..h.excerpt.range.end]);
        }
      }
    }
  }

  // ---- The worker's answers -----------------------------------------------------------------------------------

  /** Frames are taken for answers only after the client's check. */
  ghost predicate Checking(c: Client.Codec) {
    forall frame, r, s :: c.reply(frame, r) == Some(Client.Answered(s)) ==> SuccessAccepted(r, s, |frame|)
  }

  /** A hit the client lets through: an excerpt of valid text from the match's start, as long as it says, and cut only if it says so. */
  predicate Quotable(r: Request, h: Hit) {
    && h.range.start <= h.range.end <= r.maxFileBytes
    && h.excerpt.range.start == h.range.start <= h.excerpt.range.end <= h.range.end
    && Utf8.Valid(h.excerpt.text) && |h.excerpt.text| == h.excerpt.range.end - h.excerpt.range.start <= 4096
    && (h.excerpt.truncated <==> h.excerpt.range.end < h.range.end)
    && |h.fileSha256| == 64 && PathSchema(h.path)
  }

  /** An answer to the request within everything it asked for, whose coverage is complete exactly when it names no reason. */
  ghost predicate Answering(r: Request, s: Success) {
    && s.id == r.id && |s.matches| <= r.maxMatches && s.counts.visited <= r.maxEntries
    && s.counts.searched <= s.counts.visited && s.counts.bytesRead <= s.counts.searched * r.maxFileBytes
    && (s.complete <==> s.reasons == []) && (s.complete ==> s.counts.failed == 0)
    && (forall i, k :: 0 <= i < k < |s.reasons| ==> s.reasons[i] != s.reasons[k])
    && (forall h :: h in s.matches ==> Quotable(r, h))
  }

  lemma AcceptedAnswers(r: Request, s: Success, n: nat)
    requires SuccessAccepted(r, s, n)
    ensures Answering(r, s) && n <= r.responseBytes
  {
    hide PathSchema, Utf8.Valid, Utf8.Utf16Length;
  }

  /** In any run, every success a caller gets answers the request that was outstanding for it, within its byte budget. */
  lemma AnswersAreChecked(c: Client.Codec, expected: Option<Client.Identity>, events: seq<Client.Event>, x: Client.Settlement)
    returns (i: nat, frame: bytes)
    requires Checking(c) && ClientRuns.LegalRun(c, Client.Initial(expected), events)
    requires x in ClientRuns.RunAll(c, Client.Initial(expected), events).host.log && x.outcome.Replied? && x.outcome.reply.Answered?
    ensures i < |events| && ClientRuns.LegalRun(c, Client.Initial(expected), events[..i])
    ensures var u := ClientRuns.RunAll(c, Client.Initial(expected), events[..i]);
            && u.pending.Some? && u.pending.value.promise == x.promise
            && Answering(u.pending.value.request, x.outcome.reply.success) && |frame| <= u.pending.value.request.responseBytes
  {
    hide ClientRuns.LegalRun, ClientRuns.RunAll, ClientSafety.Safe, Answering, SuccessAccepted, Client.Legal;
    ClientSafety.InitialSafe(expected);
    i := ClientCauses.EverySettlementHasItsCause(c, Client.Initial(expected), events, x);
    var u := ClientRuns.RunAll(c, Client.Initial(expected), events[..i]);
    assert ClientCauses.SomeReply(c, u, x.outcome.reply);
    frame :| c.reply(frame, u.pending.value.request) == Some(x.outcome.reply);
    AcceptedAnswers(u.pending.value.request, x.outcome.reply.success, |frame|);
  }
}
